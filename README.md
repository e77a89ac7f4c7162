# farcaster-recovery in Dafny

This project models the front end of farcaster-recovery. The front end moves a
Farcaster ID (FID) to a new custody address, or recovers it. It does this with
a signed EIP-712 `Transfer` message and calls to the IdRegistry contract. The
model covers the rules under the React components:

- the session store that the pages share (`FarcasterUserProvider`), with its
  write-through to `localStorage` and the hydration at mount;
- the EIP-712 payload: the domain, the ordered `Transfer` type list, the
  deadline rules and the message with its nonce default;
- the one-hour transfer a fresh custody key prepares for itself;
- the input checks: the hex-address regex and the digits-only FID regex;
- the choice between `transfer` and `recover` with their argument tuples, and
  the ownership check;
- the two submit cards and their loading/error state machine;
- the recovery-address card: a literal address, else an ENS result;
- profile normalisation and the choice of lookup URL;
- the confirm-before-erase wallet generator.

Every capability the components only call is a parameter of the model:

- the wallet, signing and key generation;
- randomness and the clock (milliseconds as a `nat`);
- contract reads and the wagmi transaction and receipt flags;
- ENS lookups, `isAddress` and HTTP lookups.

A React setter together with the effects it triggers is one step. State that
the source keeps in `useState` is a Dafny `class` whose methods change its
fields. Each such method is tied, by its `ensures`, to a pure function of the
old state, and the properties are lemmas about those functions.

Helper modules:

- `Wrappers`: `Option` and `Result`.
- `Js`: JavaScript values, with truthiness, `||` and member access that throws
  on `undefined`/`null`.
- `Decimal`: decimal digit strings.
- `Json`: `JSON.stringify` and `JSON.parse`, with a round-trip proof.
- `Pattern`: the two regular expressions, each proved equal to a plain
  description.
- `Users`: the stored user record and its JSON text.
- `Tx`: the wagmi write, prepare and receipt flags, and the captions both
  transaction cards share.
- `Submission`: what the two submit cards share.

## Model

| member | source | states |
|---|---|---|
| Decimal.ValueOfDigits | src/components/GenerateTransferSignature.tsx:51 | reading back the decimal text of a number gives the number |
| Json.ParseSerialize | src/components/FarcasterUserContext.tsx:47-57 | `JSON.parse(JSON.stringify(v))` is `v` for every JSON value (integers, strings with escapes, arrays, objects with distinct keys) |
| Users.ToJs | src/components/FarcasterUserContext.tsx:5-16 | a user is an object whose keys are the ten UserType fields, in declaration order; each member that normalisation can leave undefined (custodyAddress, displayName, the two counts, activeStatus, powerBadge) is undefined when the user has none |
| Users.ToJsonMembers | src/components/FarcasterUserContext.tsx:57 | `JSON.stringify` of a user writes exactly its members that are not undefined |
| Users.FromJsToJson | src/components/FarcasterUserContext.tsx:47 | the object read back from a stored user is that user, whichever optional members it lacks |
| Users.DecodeEncode | src/components/FarcasterUserContext.tsx:47-57 | the JSON text a user is stored as parses back to that user, including a user without some of its optional members |
| Pattern.AddressPatternMeaning | src/components/GenerateTransferSignature.tsx:20 | `^0x[a-fA-F0-9]{40}$` matches exactly the 42-character strings `0x` followed by hex digits |
| Pattern.DigitsPatternMeaning | src/components/TransferFid.tsx:104 | `^\d+$` matches exactly the non-empty all-digit strings |
| SessionStore.Initial | src/components/FarcasterUserContext.tsx:34-38 | user, fid, signature and timestamp start null; toAddress starts empty |
| SessionStore.DecodeNumberText | src/components/FarcasterUserContext.tsx:61-63 | a stored number parses back to itself, and its text is never empty |
| SessionStore.DecodeUserEncode | src/components/FarcasterUserContext.tsx:54-58 | the stored user parses back to the same user |
| SessionStore.RestoreFields | src/components/FarcasterUserContext.tsx:40-52 | the mount setters leave each field at the value read (fid follows a stored user) and keep every key |
| SessionStore.HydrateFields | src/components/FarcasterUserContext.tsx:40-52 | hydration fails exactly when a JSON key does not parse; otherwise each field is set only from a non-empty key (user, fid, timestamp parsed; signature and toAddress raw), and fid follows a stored user |
| SessionStore.SetFidKeeps | src/components/FarcasterUserContext.tsx:61-63 | with no user in memory, setting fid keeps every non-null field equal to its key, every key parseable, and the stored user untouched |
| SessionStore.SetUserConsistent | src/components/FarcasterUserContext.tsx:54-59 | setting the user keeps the store consistent: fields equal their keys, keys parse, the stored user carries the current fid |
| SessionStore.SetSignatureConsistent | src/components/FarcasterUserContext.tsx:65-67 | setting the signature keeps the store consistent |
| SessionStore.SetTimestampConsistent | src/components/FarcasterUserContext.tsx:69-71 | setting the timestamp keeps the store consistent |
| SessionStore.SetToAddressConsistent | src/components/FarcasterUserContext.tsx:73-75 | setting toAddress keeps the store consistent |
| SessionStore.HydrateConsistent | src/components/FarcasterUserContext.tsx:40-75 | a mount that succeeds leaves the store consistent, whatever the storage held |
| SessionStore.HydrateRestores | src/components/FarcasterUserContext.tsx:40-75 | from a consistent store, a reload succeeds and gives back every non-null user, fid, timestamp, non-empty signature and non-empty toAddress |
| SessionStore.SetUserEffects | src/components/FarcasterUserContext.tsx:54-59 | a user also sets fid to the user's fid and writes the user key (and the fid key when fid changed); a null user changes neither fid nor storage; no other key is touched |
| SessionStore.NullWritesKeepStorage | src/components/FarcasterUserContext.tsx:61-75 | writing null (or '' to toAddress) never changes storage |
| SessionStore.NullSignatureComesBack | src/components/FarcasterUserContext.tsx:65-67 | after a non-empty signature is cleared in memory, a reload brings it back from storage |
| SessionStore.SetToAddressOnly | src/components/FarcasterUserContext.tsx:73-75 | setToAddress changes only toAddress and its key; the signature and timestamp stay |
| SessionStore.RecoveryOfArgs | src/components/FarcasterUserContext.tsx:77-82 | the recoveryOf read has arguments, and is enabled, exactly for a fid that is neither null nor 0 |
| SessionStore.UseFarcasterUser | src/components/FarcasterUserContext.tsx:104-110 | outside the provider the hook fails with its message; inside it returns the provider's value |
| SessionStore.Session.constructor | src/components/FarcasterUserContext.tsx:34-38 | the provider starts in the initial state over the given storage |
| SessionStore.Session.PersistFid | src/components/FarcasterUserContext.tsx:61-63 | a non-null fid is written under "fid" |
| SessionStore.Session.SetUser | src/components/FarcasterUserContext.tsx:54-59 | the new state is the user step of the model |
| SessionStore.Session.SetSignature | src/components/FarcasterUserContext.tsx:65-67 | the new state is the signature step of the model |
| SessionStore.Session.SetTimestamp | src/components/FarcasterUserContext.tsx:69-71 | the new state is the timestamp step of the model |
| SessionStore.Session.SetToAddress | src/components/FarcasterUserContext.tsx:73-75 | the new state is the toAddress step of the model |
| SessionStore.Session.Mount | src/components/FarcasterUserContext.tsx:40-52 | the mount succeeds exactly when hydration does, and then the state is the hydrated one; otherwise nothing changes |
| SessionStore.Session.RecoveryArgs | src/components/FarcasterUserContext.tsx:77-82 | the provider's recoveryOf read is enabled exactly for a truthy fid |
| TypedData.TransferFieldOrder | src/components/GenerateTransferSignature.tsx:36-43 | the Transfer type lists fid, to, nonce, deadline in that order; `to` is an address and the rest are uint256 |
| TypedData.TransferEncodable | src/components/GenerateTransferSignature.tsx:48-53 | a Transfer message can be encoded exactly when fid is a number, `to` is a hex address and all three numbers fit in uint256 |
| TransferSignature.IsAddressValid | src/components/GenerateTransferSignature.tsx:20 | the receiver is valid exactly when it has the address shape, so it is 42 characters long |
| TransferSignature.NonceReadArg | src/components/GenerateTransferSignature.tsx:22-27 | the nonce read is for toAddress and is enabled only while toAddress is valid |
| TransferSignature.SignatureDomain | src/components/GenerateTransferSignature.tsx:29-34 | the domain is always "Farcaster IdRegistry", version "1", chain 10, with the given contract |
| TransferSignature.Deadline | src/components/GenerateTransferSignature.tsx:45 | a truthy stored timestamp is the deadline; otherwise it is floor(now/1000) + 31536000; never 0 |
| TransferSignature.NonceValue | src/components/GenerateTransferSignature.tsx:51 | the nonce is the value read, or 0 while there is none |
| TransferSignature.MessageValue | src/components/GenerateTransferSignature.tsx:48-53 | the message is {fid, to: toAddress, nonce (0 by default), deadline} |
| TransferSignature.PayloadEncodable | src/components/GenerateTransferSignature.tsx:29-53 | with a valid receiver and uint256-sized numbers, the payload's message is encodable under the Transfer type |
| TransferSignature.SignDisabled | src/components/GenerateTransferSignature.tsx:127 | the sign button is enabled exactly for a valid receiver while the nonce is not loading |
| TransferSignature.SerializeBigInt | src/components/GenerateTransferSignature.tsx:81-83 | a bigint becomes a string that parses back to its value; other values pass unchanged |
| TransferSignature.SignEffects | src/components/GenerateTransferSignature.tsx:55-79 | no provider or no connection gives an alert; only a returned signature is stored, with the deadline just signed; every other ending leaves the session unchanged |
| TransferSignature.StickyDeadline | src/components/GenerateTransferSignature.tsx:45-73 | after a signature is stored, the deadline is the one signed, whatever the clock says later |
| TransferSignature.SignatureForm.constructor | src/components/GenerateTransferSignature.tsx:10-14 | details hidden, no copy status, the FID field equal to the store's fid |
| TransferSignature.SignatureForm.SyncFid | src/components/GenerateTransferSignature.tsx:16-18 | the FID field follows the store's fid and nothing else changes |
| TransferSignature.SignatureForm.EditFid | src/components/GenerateTransferSignature.tsx:102-107 | an edit sets the FID field and nothing else |
| TransferSignature.SignatureForm.ToggleDetails | src/components/GenerateTransferSignature.tsx:85 | showDetails flips and nothing else changes |
| TransferSignature.SignatureForm.Copied | src/components/GenerateTransferSignature.tsx:87-89 | a finished clipboard write sets the status to `<label> copied!`; the FID field and the details flag are kept |
| TransferSignature.SignatureForm.ClearCopied | src/components/GenerateTransferSignature.tsx:90 | the timer clears the copy status; the FID field and the details flag are kept |
| TransferSignature.SignatureForm.HandleSign | src/components/GenerateTransferSignature.tsx:55-79 | the outcome and the new session are those of the sign step; the copy status is reset only after a signature |
| PrepareTransfer.NoFidNoSteps | src/hooks/usePrepareTransfer.ts:14 | without a fid, or with fid 0, the result is null and nothing is generated, read or signed |
| PrepareTransfer.NonceOfNewAccount | src/hooks/usePrepareTransfer.ts:15-22 | every account is derived from the mnemonic just generated, and every nonce read is for that account |
| PrepareTransfer.StepOrder | src/hooks/usePrepareTransfer.ts:15-36 | mnemonic before account, account before nonce read, nonce read before the clock and the signature, clock before signature; no step is taken twice |
| PrepareTransfer.NonceFailureStops | src/hooks/usePrepareTransfer.ts:18-24 | a failed nonce read fails the query with its error, and neither the clock is read nor anything signed |
| PrepareTransfer.SignFailureFails | src/hooks/usePrepareTransfer.ts:26-36 | after a successful nonce read the last step is the signature request, and a rejected signature fails the query with its error |
| PrepareTransfer.ResultMatchesSigned | src/hooks/usePrepareTransfer.ts:24-38 | the returned address and deadline are the signed `to` and deadline; the deadline is floor(now/1000) + 3600; primary type Transfer with the fid and nonce read |
| Tx.ReceiptLabel | src/components/TransferFid.tsx:121-125 | 'Success!' on success, else 'Transaction Failed' on error, else 'Pending' |
| Tx.SubmitLabel | src/components/TransferFid.tsx:148-152 | 'Confirm in Wallet' while loading, else 'Error Preparing Transaction' on a failed preparation, else the button's own caption |
| TransferFid.IsFidText | src/components/TransferFid.tsx:104 | the FID text passes exactly when it is non-empty and all digits |
| TransferFid.FidInput.constructor | src/components/TransferFid.tsx:31 | the FID to transfer starts as the connected FID |
| TransferFid.FidInput.OnChange | src/components/TransferFid.tsx:102-109 | text that is not all digits (empty included) alerts and leaves the FID; digits set it to their value |
| TransferFid.RetypedFid | src/components/TransferFid.tsx:100-108 | typing back a FID's decimal text selects that FID again |
| TransferFid.FunctionName | src/components/TransferFid.tsx:52 | 'transfer' exactly for the connected FID, else 'recover' |
| TransferFid.Args | src/components/TransferFid.tsx:54-67 | no arguments before the transfer is prepared; then [newCustodyAddress, deadline, signature] for transfer and [ownerOfFid, ...the same] for recover |
| TransferFid.ArgsMatchFunction | src/components/TransferFid.tsx:52-67 | the tuple has 3 elements for transfer and 4 for recover |
| TransferFid.CanRecover | src/components/TransferFid.tsx:72 | the connected address equals the custody or the recovery address of the FID |
| TransferFid.MnemonicRecord | src/components/TransferFid.tsx:81-97 | the seed phrase record appears exactly when the user can recover; it shows the mnemonic, or the placeholder phrase without one (the warning at lines 156-162 has the same gate) |
| TransferFid.CardAction | src/components/TransferFid.tsx:112-154 | a sent tx gives the receipt link, else an unsupported chain gives the switch, else `!canRecover` gives the disabled button, else submit; submit is disabled exactly when an address, the write, the owner or the prepared data is missing, or the tx is loading |
| Submission.WriteErrorText | src/components/SubmitTransferFunction.tsx:39 | the error's message, or the fallback text when it is empty; never empty |
| Submission.ReceiptErrorText | src/components/SubmitTransferFunction.tsx:97 | the receipt error's message, or 'Transaction failed!' |
| Submission.SubmitDisabled | src/components/SubmitTransferFunction.tsx:76 | enabled exactly with a non-empty toAddress, no tx loading and not loading |
| Submission.HandleSubmit | src/components/SubmitTransferFunction.tsx:26-42 | with no signature: only the alert, no write, status unchanged; otherwise one write with the given tuple, under loading and a cleared error, then loading off on both outcomes and the error text on failure |
| Submission.FailureShowsError | src/components/SubmitTransferFunction.tsx:37-41 | a failed write (with a signature present) always leaves a non-empty errorMessage |
| Submission.InitialTimestamp | src/components/SubmitTransferFunction.tsx:11 | `timestamp \|\| ''`: the store's timestamp when non-zero, else '' |
| Submission.InitialSignature | src/components/SubmitTransferFunction.tsx:12 | `signature \|\| ''` |
| SubmitTransfer.TransferArgs | src/components/SubmitTransferFunction.tsx:19 | [toAddress, currentTimestamp, currentSignature], in that order |
| SubmitTransfer.TransferForm.constructor | src/components/SubmitTransferFunction.tsx:11-14 | the local fields start from the store, not loading and with no error |
| SubmitTransfer.TransferForm.EditTimestamp | src/components/SubmitTransferFunction.tsx:67 | an edit sets the timestamp text and nothing else |
| SubmitTransfer.TransferForm.EditSignature | src/components/SubmitTransferFunction.tsx:73 | an edit sets the signature and nothing else |
| SubmitTransfer.TransferForm.SyncFromStore | src/components/SubmitTransferFunction.tsx:44-51 | truthy store values overwrite the local ones; falsy ones keep local edits |
| SubmitTransfer.TransferForm.HandleSubmit | src/components/SubmitTransferFunction.tsx:26-42 | the run and the new status are those of the shared handler, with the transfer tuple |
| SubmitTransfer.TransferForm.SubmitDisabled | src/components/SubmitTransferFunction.tsx:76 | enabled exactly with a non-empty toAddress, no tx loading and not loading |
| SubmitRecover.RecoverArgs | src/components/SubmitRecoverFunction.tsx:28 | [fromAddress, toAddress, currentTimestamp, currentSignature], in that order |
| SubmitRecover.InitialFrom | src/components/SubmitRecoverFunction.tsx:12 | the user's custody address, or '' without a user or without a custody address |
| SubmitRecover.RecoverForm.constructor | src/components/SubmitRecoverFunction.tsx:12-16 | the local fields start from the store, not loading and with no error |
| SubmitRecover.RecoverForm.EditFrom | src/components/SubmitRecoverFunction.tsx:80-85 | an edit sets fromAddress and nothing else |
| SubmitRecover.RecoverForm.EditTimestamp | src/components/SubmitRecoverFunction.tsx:92-97 | an edit sets the timestamp text and nothing else |
| SubmitRecover.RecoverForm.EditSignature | src/components/SubmitRecoverFunction.tsx:98-103 | an edit sets the signature and nothing else |
| SubmitRecover.RecoverForm.SyncFromStore | src/components/SubmitRecoverFunction.tsx:61-71 | a truthy custody address, timestamp or signature from the store overwrites its local field; falsy ones keep local edits |
| SubmitRecover.RecoverForm.HandleSubmit | src/components/SubmitRecoverFunction.tsx:40-59 | the run and the new status are those of the shared handler, with the recover tuple |
| SubmitRecover.RecoverForm.SubmitDisabled | src/components/SubmitRecoverFunction.tsx:107 | enabled exactly with a non-empty toAddress, no tx loading and not loading |
| RecoveryAddress.RecoveryInput.constructor | src/components/UpdateRecoveryAddress.tsx:43 | the input starts undefined |
| RecoveryAddress.RecoveryInput.OnChange | src/components/UpdateRecoveryAddress.tsx:117 | an edit sets the input |
| RecoveryAddress.EnsEnabled | src/components/UpdateRecoveryAddress.tsx:49-53 | ENS resolution is enabled exactly when the input contains '.' |
| RecoveryAddress.Resolve | src/components/UpdateRecoveryAddress.tsx:55-61 | none for an empty input; the input if `isAddress` accepts it; else the ENS result if truthy; else none; never empty |
| RecoveryAddress.PreparedCall | src/components/UpdateRecoveryAddress.tsx:70-75 | `changeRecoveryAddress(recoveryAddress)` exactly when an address is resolved |
| RecoveryAddress.PreparedIffResolved | src/components/UpdateRecoveryAddress.tsx:55-75 | a call is prepared exactly when the input resolves |
| RecoveryAddress.LookedUpName | src/components/UpdateRecoveryAddress.tsx:84 | `data?.user.username`: undefined for nullish data, a TypeError exactly when an object's `user` is nullish, else the username member |
| RecoveryAddress.AccountName | src/components/UpdateRecoveryAddress.tsx:84-98 | '@' and a non-empty store username (the lookup is then never read); otherwise the TypeError of the lookup read, else '@' and a non-empty looked-up name, else 'your account' |
| RecoveryAddress.FoundUserNamesAccount | src/components/UpdateRecoveryAddress.tsx:84-98 | without a store username, a lookup whose user has a non-empty username names '@' and that username |
| RecoveryAddress.InputDisabled | src/components/UpdateRecoveryAddress.tsx:115 | the input is locked while loading or once a tx exists |
| RecoveryAddress.CardAction | src/components/UpdateRecoveryAddress.tsx:134-167 | receipt link, else switch, else the set button; disabled without an address or a write, or while loading; label priority Confirm / Error Preparing / Set Recovery Address |
| RecoveryAddress.EnabledButtonHasCall | src/components/UpdateRecoveryAddress.tsx:157-160 | an enabled set button has the prepared call behind it |
| RecoveryAddress.ShowCurrent | src/components/UpdateRecoveryAddress.tsx:170-175 | the helper shows exactly for a current recovery address while no tx exists |
| RecoveryAddress.Render | src/components/UpdateRecoveryAddress.tsx:84-175 | the render throws exactly when the account name read throws; otherwise a spinner exactly while the lookup data is falsy and there is no error, and else the account text, the input, the action and the helper, each by its rule |
| RecoveryAddress.SentLocksCard | src/components/UpdateRecoveryAddress.tsx:115-175 | once a tx exists, a rendered card has the input locked, the helper hidden and the receipt link as its action |
| UserInfo.Trim | src/components/FarcasterUserInfo.tsx:29 | the trimmed text neither starts nor ends with a blank |
| UserInfo.BlankIffSpaces | src/components/FarcasterUserInfo.tsx:29-35 | a username trims to nothing exactly when it is all blanks |
| UserInfo.FetchUrls | src/components/FarcasterUserInfo.tsx:29-35 | the username URL exactly for a non-blank trimmed username; the custody URL exactly for a blank username with an address; never both |
| UserInfo.UsernameTrimmed | src/components/FarcasterUserInfo.tsx:29-31 | blanks around the username never change the URLs |
| UserInfo.BaseUser | src/components/FarcasterUserInfo.tsx:76 | `data.result.user` for username lookups, `data.user` for custody lookups, with the TypeError cases |
| UserInfo.Normalize | src/components/FarcasterUserInfo.tsx:75-89 | fails exactly when the base user, its profile or the bio is undefined or null; otherwise an object with the ten user keys in order |
| UserInfo.NormalizeMembers | src/components/FarcasterUserInfo.tsx:78-87 | the camelCase member unless falsy (0 and '' included), then the snake_case one; `pfp.url` when pfp is truthy, else `pfp_url`; fid, username, bio text and powerBadge read as they are |
| UserInfo.UsernameResponseProfile | src/components/FarcasterUserInfo.tsx:75-89 | a camelCase response is stored as its user with every falsy camelCase member that has a snake_case fallback (a count of 0, an empty display name, custody address or status) undefined, since the fallback is absent |
| UserInfo.TruthyResponseProfile | src/components/FarcasterUserInfo.tsx:75-89 | a camelCase response whose members with a snake_case fallback are all truthy gives back its user |
| UserInfo.CustodyResponseProfile | src/components/FarcasterUserInfo.tsx:75-89 | a snake_case custody response normalises back to its user, 0 and '' values included, whichever optional members it lacks |
| UserInfo.StoreProfile | src/components/FarcasterUserInfo.tsx:50-52 | storing a response is the store's user step with the normalised user |
| UserInfo.UserEffect | src/components/FarcasterUserInfo.tsx:48-57 | the username result first, then the custody result, then null for a blank username with an address, else no change |
| UserInfo.UsernameResultWins | src/components/FarcasterUserInfo.tsx:48-52 | with a username result, the custody result does not matter |
| UserInfo.StoredProfileSetsFid | src/components/FarcasterUserInfo.tsx:48-57 | a stored profile also sets fid to the profile's FID and writes the user key |
| UserInfo.ApplyUserEffect | src/components/FarcasterUserInfo.tsx:48-57 | the provider's new state is that of the effect; on failure nothing changes |
| UserInfo.RefetchCustody | src/components/FarcasterUserInfo.tsx:59-73 | fetches the custody URL exactly when the username is blank and an address is given; an ok response is stored as a custody profile |
| UserInfo.ShowsWarning | src/components/FarcasterUserInfo.tsx:98-104 | only the warning is rendered without an address and with a blank username |
| UserInfo.WarningIffNoLookup | src/components/FarcasterUserInfo.tsx:98-104 | the warning shows exactly when neither lookup has a URL |
| UserInfo.Title | src/components/FarcasterUserInfo.tsx:107 | '@' + username + ' - ' + displayName, with '' for the parts of a missing user and for a missing display name |
| Mnemonic.InfoOf | src/components/GenerateMnemonic.tsx:28-32 | the kept record is the phrase ('' without one), the address and the private key |
| Mnemonic.Generated | src/components/GenerateMnemonic.tsx:28-36 | after a generation: the new wallet, isGenerated, confirmRegenerate false, details shown, copy status '' |
| Mnemonic.Generate | src/components/GenerateMnemonic.tsx:17-37 | the dialog is shown exactly for an existing wallet with no confirmation; declining leaves the state; otherwise the wallet is replaced |
| Mnemonic.FirstGenerationNeverAsks | src/components/GenerateMnemonic.tsx:18 | the first generation never asks |
| Mnemonic.ClickAsWritten | src/components/GenerateMnemonic.tsx:39-44 | as written, a declined click leaves the wallet but commits confirmRegenerate true |
| Mnemonic.DeclineThenEraseAsWritten | src/components/GenerateMnemonic.tsx:39-44 | as written, after one declined dialog the next click asks nothing and replaces the wallet |
| Mnemonic.TwoDeclinesEraseAsWritten | src/components/GenerateMnemonic.tsx:39-44 | as written, two declined clicks in a row lose the wallet |
| Mnemonic.DeclinesNeverErase | src/components/GenerateMnemonic.tsx:17-44 | corrected, any number of declined clicks leave the state unchanged |
| Mnemonic.Toggled | src/components/GenerateMnemonic.tsx:46-48 | toggleDetails flips showDetails and nothing else |
| Mnemonic.ToggleTwice | src/components/GenerateMnemonic.tsx:46-48 | toggling twice restores the state |
| Mnemonic.InitialCoherent | src/components/GenerateMnemonic.tsx:7-15 | the card starts coherent with no details shown |
| Mnemonic.StepsKeepCoherent | src/components/GenerateMnemonic.tsx:17-80 | clicks and toggles keep a wallet exactly when one was generated and no pending confirmation; a generation shows the details |
| Mnemonic.DeclineBreaksCoherence | src/components/GenerateMnemonic.tsx:39-44 | as written, a declined click leaves a pending confirmation |
| Mnemonic.WalletCard.constructor | src/components/GenerateMnemonic.tsx:7-15 | no wallet, nothing generated, no confirmation, details shown, no copy status |
| Mnemonic.WalletCard.HandleGenerate | src/components/GenerateMnemonic.tsx:17-37 | the dialog shown and the new state are those of the generation step |
| Mnemonic.WalletCard.RegenerateClick | src/components/GenerateMnemonic.tsx:39-44 | corrected: the click is the generation step, with the dialog as its only guard |
| Mnemonic.WalletCard.ToggleDetails | src/components/GenerateMnemonic.tsx:46-48 | the new state is the toggled one |
| Mnemonic.WalletCard.Copied | src/components/GenerateMnemonic.tsx:50-55 | the copy status becomes '<label> copied!' and nothing else changes |
| Mnemonic.WalletCard.ClearCopied | src/components/GenerateMnemonic.tsx:53 | the copy status is cleared and nothing else changes |

## Left out

- Rendering, styling, the layout components and the pages: they are presentation.
- The HTTP proxy routes: they are network I/O. Lookup responses are parameters, given as JS values.
- Configuration, and the ABI in `src/contracts/id-registry.ts`. The contracts module the components import is not part of this model: its EIP-712 domain and types are fields of `PrepareTransfer.Env`.
- Signing and key generation: `signTypedData`, `generateMnemonic`, `mnemonicToAccount` and `ethers.Wallet.createRandom` are parameters. So are keccak hashing and viem's `isAddress`, including its checksum rules.
- The wagmi and viem hooks are input flags: contract reads, writes, receipts, ENS and network switching. The same holds for the fetch hook's data, error and loading flags.
- Timing: the 500 ms debounces (the debounced value is taken as settled) and the 2-second clipboard timers. For the seed phrase record and the signature form, the end states of a copy are modelled (`Copied`, `ClearCopied`); the write to the clipboard itself is I/O. `Date.now()` is a parameter.
- The profile card's `copied` flag (`src/components/FarcasterUserInfo.tsx:26`, `:91-96`) only shows a banner, so it is presentation and is not modelled.
- React scheduling: a setter plus its effects is one step. Effects run when their dependencies change, and the caller decides when that is.
- Object identity: every `setUser` is treated as a new user object.
- Numbers are integers. JSON fractions, exponents and `\u` escapes of surrogate pairs are not covered, and neither are NaN and the infinities.
- TransferSignature.SignatureForm.EditFid: FID edits (and deadline edits) are integers, so the `parseInt` NaN paths are not modelled. The nonce input's `setNonce` is undefined in the source, so the nonce field is read-only here.
- SessionStore.Session.Mount, SessionStore.HydrateFields: a stored value that `JSON.parse` rejects makes the mount fail here with nothing committed. In the source, the throw happens part-way through the effect, after the earlier keys are set. A value that parses but has the wrong shape is committed by the source and fails the mount here. For the user key that is a non-record such as the text `5`, after which the source's user effect sets `fid` to undefined. For the `fid` and `timestamp` keys it is anything other than a number or null, such as `true` or `"7"`, which the source stores as that field. A stored user without some of its optional members is read back as that user.
- UserInfo.StoreProfile, UserInfo.RefetchCustody, UserInfo.Profile: the `||` members and `powerBadge` may be undefined, as in the source, so a count of 0 or an empty string is stored as undefined. The other members are not optional here. A normalised object with an undefined `fid`, `username`, `pfpUrl` or `bioText` is not stored: it arises only from a response that lacks that member (or `pfp.url`). Nor is an object with any member of a type other than the declared one, such as a string `fid`. The source stores both as they are.
- RecoveryAddress.AccountName: a truthy looked-up username that is not a string (the API types it as a string) shows 'your account' here, where the source prints its text.
- UserInfo.Trim: only String.prototype.trim's fixed list of blank characters is removed. There is no Unicode category lookup.
- TransferSignature.Sign: a `getSigner` failure outside the try block is a `Rejected` outcome (a rejected promise), not an alert, as in the source. The console logging is left out.
- The seed phrase record's `Skeleton` loading state and the receipt button's colours and links are presentation.

## Findings

| source | as written | input that shows it | evidently intended | confidence | as-written member | corrected member |
|---|---|---|---|---|---|---|
| src/components/GenerateMnemonic.tsx:39-44 | `handleRegenerateClick` queues `setConfirmRegenerate(true)` before `handleGenerate`. Within that click the dialog still shows, because state is a snapshot. When the user declines, the early return leaves the queued `true` to commit. | Generate a wallet, click Generate Wallet and decline, then click again: no dialog appears and the kept wallet is replaced. | Every click on an existing wallet asks first, and a declined dialog changes nothing. | high (not executed) | Mnemonic.TwoDeclinesEraseAsWritten | Mnemonic.DeclinesNeverErase |

The defect shows on the click after a declined one, not on the same click. The corrected click (`WalletCard.RegenerateClick`) is `handleGenerate` alone.
