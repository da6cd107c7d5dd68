# ChainLet wallet core in Dafny

This project models the client-side logic of the ChainLet browser wallet, a
React front end for an Ethereum (Sepolia) account manager. It covers:

- the account store of the `Home` page: the account list, the active index,
  the signer bound to the active key, the current view, and the create,
  import, switch and delete commands;
- the create and import forms that produce account records;
- the per-account token watch-list: add, remove, balance refresh;
- the dashboard's transaction history: outgoing and incoming transfers are
  tagged, merged and sorted newest first. This part also has the address
  abbreviation;
- the send dialog's validation and its three-step state machine;
- the faucet panel's request gate and its cooldown arithmetic.

React state that handlers update becomes `class` fields, and each handler is
a method with `modifies`. Pure expressions become functions. The `ethers`
library is a value of type `Ethers.Library`: an arbitrary total function per
call, where a call that throws returns `None`. Network answers, the clock and
random generation are method parameters. `Ethers.Coherent` states what the
model assumes of derivation: rebuilding a derived wallet from its phrase or
its key gives it back.

Files: `common.dfy` (Option, `trim`, ASCII `toLowerCase`, `Math.ceil` of a
quotient, `formatAddress`), `ethers.dfy` (library oracle, account record),
`page.dfy`, `account_forms.dfy`, `token_manager.dfy`, `history.dfy`,
`transfer.dfy`, `faucet.dfy`.

In `fetchTransactionHistory`, a request or JSON decoding that throws aborts
the whole update, and the history shown stays as it was. Only a reply without
`result.transfers` lets the other side's records through.
`History.Dashboard.FinishHistoryFetch` models this.

## Model

| member | source | states |
|---|---|---|
| Common.TrimEmptyIffBlank | client/components/TokenManager.js:48 | `!s.trim()` holds exactly when every character of `s` is ECMAScript white space; the forms' blank-input tests rely on this |
| Common.TrimStart | client/components/ImportAccount.js:20-32 | `trim`'s leading half: the result is a suffix of the input, everything dropped is white space, and it does not start with white space |
| Common.TrimEnd | client/components/ImportAccount.js:20-32 | `trim`'s trailing half: the result is a prefix of the input, everything dropped is white space, and it does not end with white space |
| Common.TrimIsSlice | client/components/TokenManager.js:48-56 | `s.trim()` (`Common.Trim`, leading then trailing trim) is the contiguous slice of `s` that starts where its leading white space ends |
| Common.TrimDropsOnlyWhitespace | client/components/TransferModal.js:15 | everything `trim` drops, before and after the slice it keeps, is white space |
| Common.TrimEndsAreNotWhitespace | client/components/ImportAccount.js:20-32 | a trimmed string is empty or neither starts nor ends with white space |
| Common.TrimOfTrimmed | client/components/ImportAccount.js:39 | a string that neither starts nor ends with white space is its own trim |
| Common.TrimIdempotent | client/components/ImportAccount.js:39 | trimming twice is trimming once, so the stored, trimmed phrase is unchanged by another `trim` |
| Common.ToLower | client/components/TokenManager.js:64 | ASCII lower-casing keeps the length, maps each upper-case letter to its lower-case letter, keeps every other character, and leaves no upper-case letter |
| Common.ToLowerIdempotent | client/components/Faucets.js:137 | lower-casing is idempotent, so a lower-cased string matches its source ignoring case |
| Common.CeilDiv | client/components/Faucets.js:119 | the result is the least `q` with `n <= m*q`, which is `Math.ceil(n / m)` |
| Common.CeilDivPositive | client/components/Faucets.js:119 | a positive quantity rounds up to at least 1 |
| Common.FormatAddress | client/components/WalletDashboard.js:158-160 | the first `min(6,len)` characters, then "...", then the last `min(4,len)` characters (`slice` clamps) |
| Common.FormatFullAddress | client/components/WalletDashboard.js:158-160 | a 42-character address is shown as 13 characters: `a[..6] + "..." + a[38..]` |
| Page.FilterOutIndex | client/app/page.js:57 | filtering out position `index` gives `s[..index] + s[index+1..]`; an index out of range changes nothing |
| Page.ListOrEmpty | client/app/page.js:35 | `Array.isArray(accounts) ? accounts : []`: a saved list is used as it is; a non-empty result is always that saved list |
| Page.NewActiveIndex | client/app/page.js:65 | deleting the active account activates index 0; deleting another one lowers the active index by one exactly when the deleted position lies before it, and otherwise keeps it |
| Page.FilterOutIndexAt | client/app/page.js:57 | after deletion, position `k` holds old position `k` (before `index`) or `k+1` (after it), and the length drops by one |
| Page.DeleteKeepsActiveAccount | client/app/page.js:65-67 | the re-indexing rule keeps the active index in range; deleting another account keeps the same record active; deleting the active one activates the first remaining record |
| Page.Home.constructor | client/app/page.js:16-27 | load effect: the saved value becomes the list; a non-empty saved list opens the dashboard with the signer on account 0; otherwise the welcome view with no signer |
| Page.Home.SaveAccounts | client/app/page.js:29-32 | storage and memory both hold the new list; nothing else changes |
| Page.Home.CreateNewAccount | client/app/page.js:34-40 | the record is appended after the unchanged earlier list (a non-list starts a one-element list) and made active at the last index; signer on its key; dashboard; store invariant kept |
| Page.Home.ImportAccount | client/app/page.js:42-49 | same as create: append, activate last, signer on its key, dashboard |
| Page.Home.SwitchAccount | client/app/page.js:51-54 | the list is unchanged, `index` becomes active and the signer is rebound to that account's key |
| Page.Home.DeleteAccount | client/app/page.js:56-69 | exactly position `index` is removed, order kept; an emptied list gives welcome view, no signer, index 0; otherwise the re-indexed active account's key is the signer's, and a non-active delete keeps the same record active |
| Page.Home.CreateFromForm | client/app/page.js:88-90 | the create form's record (or none) is what `confirmAndCreate` builds; none leaves the whole store unchanged; a record is appended and activated |
| Page.Home.ImportFromForm | client/app/page.js:92-94 | the import form's record is `ImportedRecord`; none leaves the store unchanged; a record is appended and activated; the form's busy flag ends false |
| Page.Home.Navigate | client/app/page.js:81-103 | only the changes the page has buttons for (welcome or dashboard to create/import, create/import back to welcome); only the view changes, and the store invariant holds |
| CreateAccount.CreatedRecord | client/components/CreateAccount.js:39-51 | a record exists iff the phrase can be rebuilt into a wallet; it carries the given name, the rebuilt address, key and phrase, the timestamp and no `imported` field |
| CreateAccount.CreatedFromGeneratedWallet | client/components/CreateAccount.js:20-47 | assuming `fromPhrase` rebuilds the generated wallet from its phrase, the record carries that wallet's address, key and phrase, and its key derives its address |
| CreateAccount.CreateAccountForm.constructor | client/components/CreateAccount.js:11-14 | step 1, empty name and phrase, not confirmed |
| CreateAccount.CreateAccountForm.SetAccountName | client/components/CreateAccount.js:85 | only the name changes |
| CreateAccount.CreateAccountForm.GenerateWallet | client/components/CreateAccount.js:16-31 | requires a non-empty name (button disabled otherwise); success stores the generated phrase and moves to step 2; failure stays in step 1 |
| CreateAccount.CreateAccountForm.SetConfirmed | client/components/CreateAccount.js:153 | only the confirmation flag changes |
| CreateAccount.CreateAccountForm.ConfirmAndCreate | client/components/CreateAccount.js:33-56 | without confirmation no record; otherwise the record is `CreatedRecord` of the displayed phrase (none when rebuilding throws) |
| ImportAccount.ImportedRecord | client/components/ImportAccount.js:19-42 | a record exists iff the chosen input is not blank and its trimmed form derives a wallet; name defaults to "Imported Account"; `imported` is true; `mnemonic` is the trimmed phrase or null; address and key come from the derived wallet |
| ImportAccount.ImportedKeyMatchesAddress | client/components/ImportAccount.js:37-38 | for a coherent library every imported record's key derives its address |
| ImportAccount.ImportAccountForm.constructor | client/components/ImportAccount.js:7-11 | phrase method, empty fields, not importing |
| ImportAccount.ImportAccountForm.ImportWallet | client/components/ImportAccount.js:13-51 | the result is `ImportedRecord` of the form's fields, and `isImporting` is false on every path |
| TokenManager.AppendKeepsUnique | client/components/TokenManager.js:64-96 | appending a token whose address matches none ignoring case keeps addresses unique ignoring case |
| TokenManager.WithoutAddress | client/components/TokenManager.js:128 | the filter keeps exactly the tokens whose address differs from the argument, and never grows the list |
| TokenManager.WithoutAddressAppend | client/components/TokenManager.js:128 | the filter commutes with concatenation, so it keeps the order of the tokens it keeps |
| TokenManager.WithoutAbsentAddress | client/components/TokenManager.js:128 | removing an address no token has leaves the list unchanged |
| TokenManager.WithoutAddressKeepsUnique | client/components/TokenManager.js:128 | removing keeps the uniqueness invariant |
| TokenManager.WithoutAddressAddresses | client/components/TokenManager.js:128 | the address set loses exactly the removed address |
| TokenManager.CollectBalances | client/components/TokenManager.js:24-36 | the loop gives every token address an entry: the formatted reading of the last token with that address, or "0" when its query threw |
| TokenManager.UniqueMeansLast | client/components/TokenManager.js:27-36 | with unique addresses every token is the last with its address, so each token gets its own reading |
| TokenManager.ReadMetadata | client/components/TokenManager.js:71-86 | name, symbol and decimals each keep their default ("Unknown Token", "UNK", 18) exactly when their own read failed |
| TokenManager.CheckNewToken | client/components/TokenManager.js:48-68 | a token that passes the checks has an address that no listed token matches ignoring case |
| TokenManager.CheckNewTokenCases | client/components/TokenManager.js:48-68 | ordered checks as if-and-only-ifs: blank input or no provider/wallet is ignored; an address `getAddress` rejects is invalid; a case-insensitive duplicate is reported; otherwise the checksummed address is added |
| TokenManager.AddedKeepsUnique | client/components/TokenManager.js:64-96 | a token that passes the checks can be appended without breaking uniqueness |
| TokenManager.TokenRegistry.constructor | client/components/TokenManager.js:15-19 | a unique saved list, no balances, empty input, form closed |
| TokenManager.TokenRegistry.SetTokenAddress | client/components/TokenManager.js:179 | only the input text changes |
| TokenManager.TokenRegistry.AddToken | client/components/TokenManager.js:47-125 | the outcome is `CheckNewToken`; on success the list grows by one, earlier tokens untouched, the new token last with per-field metadata defaults, its balance cached (or "0"), input cleared and closed; otherwise nothing changes; uniqueness kept |
| TokenManager.TokenRegistry.AppendToken | client/components/TokenManager.js:96-116 | the success path: append, cache the balance, clear and close the input, keep the invariant |
| TokenManager.TokenRegistry.RemoveToken | client/components/TokenManager.js:127-145 | the list becomes `WithoutAddress` of the old list; only that balance entry is dropped; an absent address changes nothing; uniqueness kept |
| TokenManager.TokenRegistry.LoadTokenBalances | client/components/TokenManager.js:21-39 | without wallet or provider nothing changes; otherwise every listed token has an entry, its own reading or "0" |
| History.AssetOrEth | client/components/WalletDashboard.js:120 | the asset field's default: the asset shown is never empty; a non-empty asset name is kept; anything other than "ETH" is the transfer's own name |
| History.MapSent | client/components/WalletDashboard.js:111-123 | one record per outgoing transfer, in order, tagged sent, counterparty `to`, amount, hash and block copied, asset defaulted |
| History.MapReceived | client/components/WalletDashboard.js:127-139 | one record per incoming transfer, in order, tagged received, counterparty `from`, amount, hash and block copied, asset defaulted |
| History.InsertByBlock | client/components/WalletDashboard.js:143 | insertion adds exactly one record: length plus one, multiset plus the record |
| History.InsertKeepsSorted | client/components/WalletDashboard.js:143 | inserting into a newest-first list keeps it newest first |
| History.SortByBlockDesc | client/components/WalletDashboard.js:143 | the sort is a permutation: same length, same multiset |
| History.SortIsSorted | client/components/WalletDashboard.js:143 | the sorted list has non-increasing block numbers |
| History.InsertAtBlock | client/components/WalletDashboard.js:143 | inserted records land ahead of the later records of their own block |
| History.SortIsStable | client/components/WalletDashboard.js:143 | for every block, its records keep their input order (`Array.prototype.sort` is stable) |
| History.SortedByBlockUnique | client/components/WalletDashboard.js:143 | two newest-first lists that agree block by block are equal |
| History.SortByBlockDescIsTheStableSort | client/components/WalletDashboard.js:143 | any newest-first list that keeps each block's input order is the sorted list |
| History.Collected | client/components/WalletDashboard.js:108-140 | the accumulator holds one record per transfer: first the outgoing ones in order, tagged sent, then the incoming ones in order, tagged received, each with its transfer's hash |
| History.CollectedHoldsBothSides | client/components/WalletDashboard.js:108-143 | the merged, sorted history has one record per transfer of both sides (no dedup) and is a permutation of the sent records followed by the received ones |
| History.CollectedTagsBySide | client/components/WalletDashboard.js:112-138 | a record of the sorted history is tagged sent exactly when it comes from the outgoing side, and received exactly when it comes from the incoming side |
| History.Dashboard.constructor | client/components/WalletDashboard.js:25-29 | empty history, not loading |
| History.Dashboard.BeginHistoryFetch | client/components/WalletDashboard.js:63-65 | the loading flag is raised while the requests run |
| History.Dashboard.FinishHistoryFetch | client/components/WalletDashboard.js:97-155 | any thrown request keeps the old history; an empty merge keeps it; otherwise the history is the sorted merge; the flag is down on every path |
| Transfer.ValidateForm | client/components/TransferModal.js:14-36 | an accepted form has a recipient `isAddress` accepts and a non-empty amount |
| Transfer.ValidateFormVerdicts | client/components/TransferModal.js:14-36 | each verdict as an if-and-only-if over the ordered checks: blank recipient, rejected address, missing or non-positive amount, amount above balance, else accepted; `NaN` passes the numeric checks |
| Transfer.WholeBalancePasses | client/components/TransferModal.js:30 | an amount equal to a positive balance is accepted (strict comparison) |
| Transfer.AcceptedAmountInRange | client/components/TransferModal.js:26-33 | an accepted, parseable amount lies in `(0, balance]` when the balance parses |
| Transfer.TransferModal.constructor | client/components/TransferModal.js:8-12 | empty fields, step 1, no hash, not loading |
| Transfer.TransferModal.Edit | client/components/TransferModal.js:88-104 | the two inputs of step 1 change, nothing else |
| Transfer.TransferModal.Max | client/components/TransferModal.js:108 | the amount becomes the balance text |
| Transfer.TransferModal.Continue | client/components/TransferModal.js:126-128 | from step 1 with both fields non-empty, to step 2 |
| Transfer.TransferModal.Back | client/components/TransferModal.js:179 | from step 2 back to step 1 |
| Transfer.TransferModal.HandleSend | client/components/TransferModal.js:38-62 | a send is attempted iff validation accepts; a rejected form changes nothing; success goes to step 3 with the hash; failure keeps step and hash; not loading afterwards |
| Faucet.CooldownMillis | client/components/Faucets.js:91-103 | `checkCooldown`: a whole number of milliseconds that converts back to the reported seconds; 0 when the query threw |
| Faucet.MinutesLeft | client/components/Faucets.js:119 | the wait is at least one minute and is the ceiling of the remaining milliseconds over 60000 |
| Faucet.PluralSuffix | client/components/Faucets.js:120 | the suffix is "s" exactly when the count is not 1, and empty exactly when it is 1 |
| Faucet.SingularWaitMessage | client/components/Faucets.js:119-120 | the message says "minute" without "s" exactly when at most 60000 ms remain, and "minutes" exactly when more remain |
| Faucet.DisplayedCooldownMinutes | client/components/Faucets.js:213 | 1 when the lock time is 0, otherwise the lock time in minutes rounded up |
| Faucet.FaucetGate | client/components/Faucets.js:105-141 | the ordered checks as if-and-only-ifs: invalid address; cooling down iff next access is strictly later than now (with the wait in minutes); no injected wallet; signer failure; case-insensitive address mismatch; otherwise proceed |
| Faucet.CooldownBoundary | client/components/Faucets.js:97-118 | a cooldown query that throws (0 ms) never blocks; otherwise the request is blocked exactly while `now` is before the reported seconds times 1000, so a request exactly at that time is allowed |
| Faucet.LowerCaseSignerMatches | client/components/Faucets.js:136-141 | a connected signer whose address is the recipient lower-cased passes the match check |
| Faucet.FaucetPanel.constructor | client/components/Faucets.js:28-40 | empty address, not loading, balance "0" |
| Faucet.FaucetPanel.SetRecipientAddress | client/components/Faucets.js:224 | only the address text changes |
| Faucet.FaucetPanel.HandleGetTokens | client/components/Faucets.js:105-176 | a blocked gate is reported and leaves the balance; a request that fails leaves it; a mined request is reported as received, and its refreshed balance is shown when the refresh succeeded; not loading on every exit |

## Left out

- The bodies of the `ethers` calls are not modelled: BIP-39/BIP-44 derivation, EIP-55 checksums, secp256k1, `isAddress`, `formatEther`/`formatUnits` and `parseEther`. They are fields of `Ethers.Library`, or results passed in.
- Network I/O is replaced by parameters. This covers the indexer requests, `JsonRpcProvider`/`BrowserProvider`, contract reads, `sendTransaction`, `requestTokens` and `tx.wait()`.
- `Date.now()`, `new Date().toISOString()` and `HDNodeWallet.createRandom()` are parameters.
- Page.Home.constructor: the load-time error paths are not modelled. `JSON.parse` can throw on corrupt text. A saved `null` makes `.length` throw. A saved string with a positive `length` opens the dashboard, after which `new ethers.Wallet(undefined)` throws. Such a value is modelled as `NotAList`, which opens the welcome view.
- Local storage is a ghost field of the account store. Token lists stored per account are not modelled.
- The page's signer is modelled by the key it was built from. `new ethers.Wallet(key)` throwing on a stored bad key is not modelled.
- Asynchronous ordering is not modelled. This includes stale history or balance replies arriving after an account switch, and the effects that trigger refreshes.
- Toasts, `alert`, the clipboard, rendering, QR codes and the welcome animation are not modelled. The faucet's classification of error messages is also left out.
- Faucet.FaucetPanel.HandleGetTokens: the panel's initial `loadFaucetInfo` reads (token name, symbol, decimals, withdrawal amount, lock time) are not modelled. The lock time enters only through `DisplayedCooldownMinutes`.
- Transfer.ValidateForm: amounts and balances compare as exact reals. `parseFloat` is an oracle, with `None` for `NaN`. Double rounding, the fee display and the USD rate are not modelled.
- Faucet.MinutesLeft: this is `ceil(d / 60000)` over integers. The source divides in floating point. `Number()` of a large `uint256` losing precision is also not modelled.
- History.SortByBlockDesc: `sort` works in place on the accumulator. The model is a pure stable insertion sort over a sequence. Block numbers are the numeric values that the comparator's subtraction coerces the hex strings to.
- History.RawTransfer: a `null` sender or receiver is not modelled, and neither is the text `formatAddress` would print for one.
- Common.ToLower: only ASCII letters are lowered, not full Unicode case mapping.
- TokenManager.TokenRegistry.constructor: a stored token list with duplicate addresses (ignoring case) is not modelled. Such a list could only come from editing storage by hand, because `addToken` and `removeToken` keep it unique.
- The outer `catch` of `addToken` is not modelled. It covers a contract object or storage write that throws after the checks.
- The UI rule that deletion is offered only with more than one account is not a precondition here. `DeleteAccount` also handles deleting the last account.
