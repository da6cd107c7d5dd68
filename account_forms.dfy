/** The create-account form: step 1 asks for a name and generates a random
    phrase, step 2 shows the phrase and, once the user confirms having
    saved it, rebuilds the wallet from that phrase into an account record. */
module CreateAccount {
  import opened Common
  import opened Ethers
  import opened Accounts

  /** The record `confirmAndCreate` builds from the phrase on display:
      address, key and phrase all come from the rebuilt wallet, and the
      record has no `imported` field. */
  function CreatedRecord(lib: Library, name: string, phrase: string, now: string): (r: Option<Account>)
    ensures r.Some? <==> lib.fromPhrase(phrase).Some?
    ensures r.Some? ==>
      && r.value.name == name
      && r.value.address == lib.fromPhrase(phrase).value.address
      && r.value.privateKey == lib.fromPhrase(phrase).value.privateKey
      && r.value.mnemonic == Some(lib.fromPhrase(phrase).value.phrase)
      && r.value.imported == None
      && r.value.createdAt == now
  {
    match lib.fromPhrase(phrase)
    case None => None
    case Some(w) => Some(Account(name, w.address, w.privateKey, Some(w.phrase), None, now))
  }

  /** Round trip: when the phrase shown is the phrase of a freshly generated
      wallet and the library rebuilds that wallet from it, the account
      created carries exactly the generated address, key and phrase, and
      its address is the one its key derives. */
  lemma CreatedFromGeneratedWallet(lib: Library, generated: HdWallet, name: string, now: string)
    requires Coherent(lib) && lib.fromPhrase(generated.phrase) == Some(generated)
    ensures CreatedRecord(lib, name, generated.phrase, now)
         == Some(Account(name, generated.address, generated.privateKey, Some(generated.phrase), None, now))
    ensures KeyMatchesAddress(lib, CreatedRecord(lib, name, generated.phrase, now).value)
  {
    assert lib.fromPhrase(generated.phrase).Some?;
  }

  class CreateAccountForm {
    var step: int
    var accountName: string
    var mnemonic: string
    var mnemonicConfirmed: bool

    /** Step 1 has neither a phrase nor a confirmation yet. */
    ghost predicate Valid()
      reads this
    {
      && (step == 1 || step == 2)
      && (step == 1 ==> mnemonic == "" && !mnemonicConfirmed)
    }

    constructor ()
      ensures Valid()
      ensures step == 1 && accountName == "" && mnemonic == "" && !mnemonicConfirmed
    {
      step := 1;
      accountName := "";
      mnemonic := "";
      mnemonicConfirmed := false;
    }

    /** The name field of step 1. */
    method SetAccountName(name: string)
      requires Valid() && step == 1
      modifies this
      ensures Valid()
      ensures accountName == name
      ensures step == old(step) && mnemonic == old(mnemonic) && mnemonicConfirmed == old(mnemonicConfirmed)
    {
      accountName := name;
    }

    /** `generateWallet`, enabled in step 1 only with a non-empty name.
        `generated` is what `HDNodeWallet.createRandom()` returned, `None`
        when it threw: then the form stays in step 1. */
    method GenerateWallet(generated: Option<HdWallet>)
      requires Valid() && step == 1 && accountName != ""
      modifies this
      ensures Valid()
      ensures generated.Some? ==> step == 2 && mnemonic == generated.value.phrase
      ensures generated.None? ==> step == 1 && mnemonic == old(mnemonic)
      ensures accountName == old(accountName) && mnemonicConfirmed == old(mnemonicConfirmed)
    {
      if generated.Some? {
        var phrase := generated.value.phrase;
        mnemonic := phrase;
        step := 2;
      }
    }

    /** The "I have saved my seed phrase" checkbox of step 2. */
    method SetConfirmed(checked: bool)
      requires Valid() && step == 2
      modifies this
      ensures Valid()
      ensures mnemonicConfirmed == checked
      ensures step == old(step) && accountName == old(accountName) && mnemonic == old(mnemonic)
    {
      mnemonicConfirmed := checked;
    }

    /** `confirmAndCreate`, offered in step 2. Returns the record handed to
        the creation callback, or `None` when the callback is not invoked:
        the phrase was not confirmed, or rebuilding the wallet threw. */
    method ConfirmAndCreate(lib: Library, now: string) returns (created: Option<Account>)
      requires Valid() && step == 2
      ensures !mnemonicConfirmed ==> created == None
      ensures mnemonicConfirmed ==> created == CreatedRecord(lib, accountName, mnemonic, now)
    {
      if !mnemonicConfirmed {
        return None;
      }
      var restored := lib.fromPhrase(mnemonic);
      if restored.None? {
        return None;
      }
      var w := restored.value;
      created := Some(Account(accountName, w.address, w.privateKey, Some(w.phrase), None, now));
    }
  }
}

/** The import form: a seed phrase or a raw private key, an optional name. */
module ImportAccount {
  import opened Common
  import opened Ethers
  import opened Accounts

  datatype ImportMethod = Mnemonic | PrivateKey

  /** The record `importWallet` hands to the import callback, or `None`
      when it does not call it: blank input for the chosen method, or a
      derivation that threw. Derivation reads the trimmed input; the name
      defaults to "Imported Account"; the phrase is kept, trimmed, only for
      the phrase method; `imported` is always set. */
  function ImportedRecord(lib: Library, how: ImportMethod, name: string,
                          mnemonic: string, privateKey: string, now: string): (r: Option<Account>)
    ensures how == Mnemonic ==>
      (r.Some? <==> !AllWhitespace(mnemonic) && lib.fromPhrase(Trim(mnemonic)).Some?)
    ensures how == PrivateKey ==>
      (r.Some? <==> !AllWhitespace(privateKey) && lib.fromPrivateKey(Trim(privateKey)).Some?)
    ensures r.Some? ==>
      && r.value.name == (if name == "" then "Imported Account" else name)
      && r.value.imported == Some(true)
      && r.value.createdAt == now
      && r.value.mnemonic == (if how == Mnemonic then Some(Trim(mnemonic)) else None)
    ensures r.Some? && how == Mnemonic ==>
      && r.value.address == lib.fromPhrase(Trim(mnemonic)).value.address
      && r.value.privateKey == lib.fromPhrase(Trim(mnemonic)).value.privateKey
    ensures r.Some? && how == PrivateKey ==>
      && r.value.address == lib.fromPrivateKey(Trim(privateKey)).value.address
      && r.value.privateKey == lib.fromPrivateKey(Trim(privateKey)).value.privateKey
  {
    TrimEmptyIffBlank(mnemonic);
    TrimEmptyIffBlank(privateKey);
    var accountName := if name == "" then "Imported Account" else name;
    match how
    case Mnemonic =>
      if Trim(mnemonic) == "" then None
      else (match lib.fromPhrase(Trim(mnemonic))
            case None => None
            case Some(w) => Some(Account(accountName, w.address, w.privateKey, Some(Trim(mnemonic)), Some(true), now)))
    case PrivateKey =>
      if Trim(privateKey) == "" then None
      else (match lib.fromPrivateKey(Trim(privateKey))
            case None => None
            case Some(w) => Some(Account(accountName, w.address, w.privateKey, None, Some(true), now)))
  }

  /** With a library whose derivations agree with each other, every
      imported account's address is the one its key derives. */
  lemma ImportedKeyMatchesAddress(lib: Library, how: ImportMethod, name: string,
                                  mnemonic: string, privateKey: string, now: string)
    requires Coherent(lib)
    ensures var r := ImportedRecord(lib, how, name, mnemonic, privateKey, now);
      r.Some? ==> KeyMatchesAddress(lib, r.value)
  {
    var r := ImportedRecord(lib, how, name, mnemonic, privateKey, now);
    if r.Some? {
      if how == Mnemonic {
        assert lib.fromPhrase(Trim(mnemonic)).Some?;
      } else {
        assert lib.fromPrivateKey(Trim(privateKey)).Some?;
      }
    }
  }

  class ImportAccountForm {
    var importMethod: ImportMethod
    var accountName: string
    var mnemonic: string
    var privateKey: string
    var isImporting: bool

    constructor ()
      ensures importMethod == Mnemonic && accountName == "" && mnemonic == "" && privateKey == ""
      ensures !isImporting
    {
      importMethod := Mnemonic;
      accountName := "";
      mnemonic := "";
      privateKey := "";
      isImporting := false;
    }

    /** `importWallet`: raises `isImporting`, checks the input of the chosen
        method, derives the wallet and builds the record; `isImporting` is
        lowered again on every path. */
    method ImportWallet(lib: Library, now: string) returns (imported: Option<Account>)
      modifies this`isImporting
      ensures imported == ImportedRecord(lib, importMethod, accountName, mnemonic, privateKey, now)
      ensures !isImporting
    {
      isImporting := true;
      var address: string, key: string;
      if importMethod == Mnemonic {
        if Trim(mnemonic) == "" {
          isImporting := false;
          return None;
        }
        var w := lib.fromPhrase(Trim(mnemonic));
        if w.None? {
          isImporting := false;
          return None;
        }
        address, key := w.value.address, w.value.privateKey;
      } else {
        if Trim(privateKey) == "" {
          isImporting := false;
          return None;
        }
        var w := lib.fromPrivateKey(Trim(privateKey));
        if w.None? {
          isImporting := false;
          return None;
        }
        address, key := w.value.address, w.value.privateKey;
      }
      var name := if accountName == "" then "Imported Account" else accountName;
      var phrase := if importMethod == Mnemonic then Some(Trim(mnemonic)) else None;
      imported := Some(Account(name, address, key, phrase, Some(true), now));
      isImporting := false;
    }
  }
}
