/** The account store of the `Home` page: the ordered account list, the
    index of the active account, the signer bound to that account's key and
    the current view, with the create, import, switch and delete commands. */
module Page {
  import opened Common
  import opened Accounts
  import opened Ethers
  import Creating = CreateAccount
  import Importing = ImportAccount

  datatype View = Welcome | Create | Import | Dashboard

  /** What `JSON.parse` of the saved "web3_accounts" entry produced: a list
      of accounts, or some other value (an object, a number) that is not an
      array and whose `length` is not a positive number. */
  datatype Stored = AccountList(items: seq<Account>) | NotAList

  /** `Array.isArray(accounts) ? accounts : []`, as the append commands use it. */
  function ListOrEmpty(s: Stored): (r: seq<Account>)
    ensures s.AccountList? ==> r == s.items
    ensures r != [] ==> s == AccountList(r)
  {
    if s.AccountList? then s.items else []
  }

  /** `accounts.filter((_, i) => i !== index)`: the elements whose position
      differs from `index`, in their order. */
  function FilterOutIndex<T>(s: seq<T>, index: int): (r: seq<T>)
    ensures 0 <= index < |s| ==> r == s[..index] + s[index + 1..]
    ensures !(0 <= index < |s|) ==> r == s
  {
    if s == [] then []
    else (if index == 0 then [] else [s[0]]) + FilterOutIndex(s[1..], index - 1)
  }

  /** The active index after deleting position `index` (page.js, line 65). */
  function NewActiveIndex(index: int, active: int): (r: int)
    ensures index == active ==> r == 0
    ensures index != active ==> active - 1 <= r <= active
    ensures index != active ==> (r == active - 1 <==> index < active)
  {
    if index == active then 0 else if index < active then active - 1 else active
  }

  /** Deleting one position of a list keeps every other element, in order:
      position `k` of the result holds what position `k` or `k + 1` held. */
  lemma {:induction false} FilterOutIndexAt<T>(s: seq<T>, index: int, k: int)
    requires 0 <= index < |s| && 0 <= k < |s| - 1
    ensures |FilterOutIndex(s, index)| == |s| - 1
    ensures FilterOutIndex(s, index)[k] == if k < index then s[k] else s[k + 1]
  {
  }

  /** The re-indexing rule keeps the active index in range whenever the
      list is not emptied, and deleting any account but the active one
      keeps the same account active. */
  lemma DeleteKeepsActiveAccount(s: seq<Account>, index: int, active: int)
    requires 0 <= index < |s| && 0 <= active < |s| && |s| > 1
    ensures 0 <= NewActiveIndex(index, active) < |s| - 1
    ensures index != active ==>
      FilterOutIndex(s, index)[NewActiveIndex(index, active)] == s[active]
    ensures index == active ==>
      FilterOutIndex(s, index)[NewActiveIndex(index, active)] == (if index == 0 then s[1] else s[0])
  {
    FilterOutIndexAt(s, index, NewActiveIndex(index, active));
  }

  /** The view changes the page offers a button for: the welcome screen and
      the dashboard open the create and import forms, and each form's back
      button returns to the welcome screen. */
  predicate CanNavigate(from: View, to: View)
  {
    || ((from == Welcome || from == Dashboard) && (to == Create || to == Import))
    || ((from == Create || from == Import) && to == Welcome)
  }

  class Home {
    var currentView: View
    /** The private key the `ethers.Wallet` signer is bound to; `None` is `null`. */
    var wallet: Option<string>
    var accounts: Stored
    var activeAccount: int
    /** The "web3_accounts" entry of local storage, as last written or read. */
    ghost var storage: Option<Stored>

    /** While a signer exists it belongs to the active account, which lies
        in range; the dashboard is only shown with a signer; and the list in
        memory is the one in storage (or empty when nothing was saved). */
    ghost predicate Valid()
      reads this
    {
      && (wallet.Some? ==>
            && accounts.AccountList?
            && 0 <= activeAccount < |accounts.items|
            && wallet.value == accounts.items[activeAccount].privateKey)
      && (currentView == Dashboard ==> wallet.Some?)
      && accounts == (if storage.Some? then storage.value else AccountList([]))
    }

    /** The initial state and the load effect: a saved, non-empty list
        opens the dashboard on its first account. */
    constructor (saved: Option<Stored>)
      ensures Valid()
      ensures storage == saved
      ensures accounts == (if saved.Some? then saved.value else AccountList([]))
      ensures activeAccount == 0
      ensures if accounts.AccountList? && |accounts.items| > 0
              then currentView == Dashboard && wallet == Some(accounts.items[0].privateKey)
              else currentView == Welcome && wallet == None
    {
      currentView := Welcome;
      wallet := None;
      accounts := AccountList([]);
      activeAccount := 0;
      storage := saved;
      if saved.Some? {
        var parsed := saved.value;
        accounts := parsed;
        if parsed.AccountList? && |parsed.items| > 0 {
          currentView := Dashboard;
          wallet := Some(parsed.items[0].privateKey);
        }
      }
    }

    /** `saveAccounts`: write the list to storage and to memory. */
    method SaveAccounts(newAccounts: seq<Account>)
      modifies this
      ensures storage == Some(AccountList(newAccounts))
      ensures accounts == AccountList(newAccounts)
      ensures currentView == old(currentView) && wallet == old(wallet)
      ensures activeAccount == old(activeAccount)
    {
      storage := Some(AccountList(newAccounts));
      accounts := AccountList(newAccounts);
    }

    /** `createNewAccount`: append the record, make it active, show the
        dashboard. A stored value that is not a list is replaced by a
        one-element list. */
    method CreateNewAccount(accountData: Account)
      requires Valid()
      modifies this
      ensures Valid()
      ensures accounts == AccountList(ListOrEmpty(old(accounts)) + [accountData])
      ensures activeAccount == |accounts.items| - 1
      ensures accounts.items[activeAccount] == accountData
      ensures wallet == Some(accountData.privateKey)
      ensures currentView == Dashboard
    {
      var newAccounts := if accounts.AccountList? then accounts.items + [accountData] else [accountData];
      SaveAccounts(newAccounts);
      wallet := Some(accountData.privateKey);
      activeAccount := |newAccounts| - 1;
      currentView := Dashboard;
    }

    /** `importAccount`: the same steps as `createNewAccount`. */
    method ImportAccount(accountData: Account)
      requires Valid()
      modifies this
      ensures Valid()
      ensures accounts == AccountList(ListOrEmpty(old(accounts)) + [accountData])
      ensures activeAccount == |accounts.items| - 1
      ensures accounts.items[activeAccount] == accountData
      ensures wallet == Some(accountData.privateKey)
      ensures currentView == Dashboard
    {
      var newAccounts := if accounts.AccountList? then accounts.items + [accountData] else [accountData];
      SaveAccounts(newAccounts);
      wallet := Some(accountData.privateKey);
      activeAccount := |newAccounts| - 1;
      currentView := Dashboard;
    }

    /** `switchAccount`: the account list offers only existing positions. */
    method SwitchAccount(index: int)
      requires Valid() && accounts.AccountList? && 0 <= index < |accounts.items|
      modifies this
      ensures Valid()
      ensures accounts == old(accounts) && storage == old(storage)
      ensures activeAccount == index
      ensures wallet == Some(accounts.items[index].privateKey)
      ensures currentView == old(currentView)
    {
      activeAccount := index;
      wallet := Some(accounts.items[index].privateKey);
    }

    /** `deleteAccount`, offered on the dashboard for an existing position. */
    method DeleteAccount(index: int)
      requires Valid() && currentView == Dashboard
      requires accounts.AccountList? && 0 <= index < |accounts.items|
      modifies this
      ensures Valid()
      ensures accounts == AccountList(FilterOutIndex(old(accounts.items), index))
      ensures |accounts.items| == |old(accounts.items)| - 1
      ensures |accounts.items| == 0 ==>
        currentView == Welcome && wallet == None && activeAccount == 0
      ensures |accounts.items| > 0 ==>
        && currentView == Dashboard
        && activeAccount == NewActiveIndex(index, old(activeAccount))
        && wallet == Some(accounts.items[activeAccount].privateKey)
      ensures |accounts.items| > 0 && index != old(activeAccount) ==>
        accounts.items[activeAccount] == old(accounts.items[activeAccount])
    {
      var newAccounts := FilterOutIndex(accounts.items, index);
      ghost var active := activeAccount;
      ghost var before := accounts.items;
      SaveAccounts(newAccounts);
      if |newAccounts| == 0 {
        currentView := Welcome;
        wallet := None;
        activeAccount := 0;
      } else {
        var newActiveIndex := NewActiveIndex(index, activeAccount);
        DeleteKeepsActiveAccount(before, index, active);
        activeAccount := newActiveIndex;
        wallet := Some(newAccounts[newActiveIndex].privateKey);
      }
    }

    /** `<CreateAccount onAccountCreated={createNewAccount}>`: confirming
        the create form appends its record; when the form produces none
        (phrase not confirmed, or rebuilding failed) the store is unchanged. */
    method CreateFromForm(form: Creating.CreateAccountForm, lib: Library, now: string)
      returns (created: Option<Account>)
      requires Valid() && form.Valid() && form.step == 2
      modifies this
      ensures Valid()
      ensures created == (if form.mnemonicConfirmed
                          then Creating.CreatedRecord(lib, form.accountName, form.mnemonic, now)
                          else None)
      ensures created.None? ==>
        && accounts == old(accounts) && activeAccount == old(activeAccount)
        && wallet == old(wallet) && currentView == old(currentView) && storage == old(storage)
      ensures created.Some? ==>
        && accounts == AccountList(ListOrEmpty(old(accounts)) + [created.value])
        && activeAccount == |accounts.items| - 1
        && wallet == Some(created.value.privateKey)
        && currentView == Dashboard
    {
      created := form.ConfirmAndCreate(lib, now);
      if created.Some? {
        CreateNewAccount(created.value);
      }
    }

    /** `<ImportAccount onAccountImported={importAccount}>`: a record the
        import form produces is appended and made active; when derivation
        fails or the input is blank the store is unchanged. */
    method ImportFromForm(form: Importing.ImportAccountForm, lib: Library, now: string)
      returns (imported: Option<Account>)
      requires Valid()
      modifies this, form`isImporting
      ensures Valid()
      ensures imported == Importing.ImportedRecord(lib, form.importMethod, form.accountName,
                                                   form.mnemonic, form.privateKey, now)
      ensures !form.isImporting
      ensures imported.None? ==>
        && accounts == old(accounts) && activeAccount == old(activeAccount)
        && wallet == old(wallet) && currentView == old(currentView) && storage == old(storage)
      ensures imported.Some? ==>
        && accounts == AccountList(ListOrEmpty(old(accounts)) + [imported.value])
        && activeAccount == |accounts.items| - 1
        && wallet == Some(imported.value.privateKey)
        && currentView == Dashboard
    {
      imported := form.ImportWallet(lib, now);
      if imported.Some? {
        ImportAccount(imported.value);
      }
    }

    /** The navigation buttons: to the create or import form, or back to
        the welcome screen. */
    method Navigate(view: View)
      requires Valid() && CanNavigate(currentView, view)
      modifies this
      ensures Valid()
      ensures currentView == view
      ensures accounts == old(accounts) && activeAccount == old(activeAccount)
      ensures wallet == old(wallet) && storage == old(storage)
    {
      currentView := view;
    }
  }
}
