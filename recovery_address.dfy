/** The card that sets the FID's recovery address (UpdateRecoveryAddress):
    the input, its resolution to an address (a literal address, else an ENS
    result), the prepared `changeRecoveryAddress` call and what the card
    shows. `isAddress` and the ENS lookup are parameters. */
module RecoveryAddress {
  import opened Wrappers
  import opened Js
  import Tx

  /** The input's state: undefined until the first edit (the debounced value
      is taken as settled). */
  class RecoveryInput {
    var input: Option<string>

    constructor ()
      ensures input.None?
    {
      input := None;
    }

    method OnChange(text: string)
      modifies this
      ensures input == Some(text)
    {
      input := Some(text);
    }
  }

  /** `recoveryInput?.includes('.')`: undefined, hence off, before any edit. */
  function EnsEnabled(input: Option<string>): (enabled: bool)
    ensures enabled <==> input.Some? && exists i :: 0 <= i < |input.value| && input.value[i] == '.'
  {
    input.Some? && '.' in input.value
  }

  /** The address the card would set: the input itself when `isAddress`
      accepts it, else a truthy ENS result, else none; none for an empty or
      missing input. */
  function Resolve(input: Option<string>, isAddress: string -> bool, ensAddress: Option<string>): (r: Option<string>)
    ensures input.None? || input.value == "" ==> r.None?
    ensures input.Some? && input.value != "" && isAddress(input.value) ==> r == input
    ensures input.Some? && input.value != "" && !isAddress(input.value) ==>
      (r.Some? <==> ensAddress.Some? && ensAddress.value != "") && (r.Some? ==> r == ensAddress)
    ensures r.Some? ==> r.value != ""
  {
    if input.Some? && input.value != "" then
      if isAddress(input.value) then Some(input.value)
      else if ensAddress.Some? && ensAddress.value != "" then ensAddress
      else None
    else None
  }

  /** The prepared call: `changeRecoveryAddress(recoveryAddress)` when a
      truthy address is resolved, and no function and no arguments otherwise. */
  function PreparedCall(recoveryAddress: Option<string>): (call: Option<(string, seq<Value>)>)
    ensures call.Some? <==> recoveryAddress.Some? && recoveryAddress.value != ""
    ensures call.Some? ==> call.value == ("changeRecoveryAddress", [Str(recoveryAddress.value)])
  {
    if recoveryAddress.Some? && recoveryAddress.value != "" then
      Some(("changeRecoveryAddress", [Str(recoveryAddress.value)]))
    else None
  }

  /** A call is prepared exactly when the input resolves to an address. */
  lemma PreparedIffResolved(input: Option<string>, isAddress: string -> bool, ensAddress: Option<string>)
    ensures var r := Resolve(input, isAddress, ensAddress);
      PreparedCall(r).Some? <==> r.Some?
  {
  }

  /** `farcasterAccount.data?.user.username`: undefined while there is no
      data; otherwise `data.user` is read (undefined on a value without that
      member) and reading `username` off a missing `user` throws. */
  function LookedUpName(data: Value): (r: Result<Value, string>)
    ensures data == Undefined || data == Null ==> r == Success(Undefined)
    ensures data.Obj? ==> (r.Failure? <==> Lookup(data.props, "user") == Undefined || Lookup(data.props, "user") == Null)
    ensures data.Obj? && Lookup(data.props, "user").Obj? ==>
      r == Success(Lookup(Lookup(data.props, "user").props, "username"))
  {
    if data == Undefined || data == Null then Success(Undefined)
    else
      var user := if data.Obj? then Lookup(data.props, "user") else Undefined;
      Member(user, "username")
  }

  /** `user?.username || farcasterAccount.data?.user.username`, then
      `@name` or `your account`. The lookup is only read when the store has
      no username, and a TypeError there is the render's. */
  function AccountName(storeUsername: Option<string>, data: Value): (text: Result<string, string>)
    ensures storeUsername.Some? && storeUsername.value != "" ==> text == Success("@" + storeUsername.value)
    ensures (storeUsername.None? || storeUsername.value == "") ==>
      (text.Failure? <==> LookedUpName(data).Failure?)
    ensures (storeUsername.None? || storeUsername.value == "") && LookedUpName(data).Success? ==>
      var name := LookedUpName(data).value;
      text == Success(if name.Str? && name.s != "" then "@" + name.s else "your account")
  {
    if storeUsername.Some? && storeUsername.value != "" then Success("@" + storeUsername.value)
    else
      var name :- LookedUpName(data);
      Success(if name.Str? && name.s != "" then "@" + name.s else "your account")
  }

  /** A lookup that found the user names the account whenever the store has
      none. */
  lemma FoundUserNamesAccount(username: string, rest: seq<(string, Value)>)
    requires username != ""
    ensures AccountName(None, Obj([("user", Obj([("username", Str(username))] + rest))])) == Success("@" + username)
  {
  }

  /** `disabled={tx.isLoading || !!tx.data}`. */
  function InputDisabled(tx: Tx.Write): (disabled: bool)
    ensures disabled <==> tx.isLoading || tx.hasData
  {
    tx.isLoading || tx.hasData
  }

  const SetLabel := "Set Recovery Address"

  datatype Action =
    | ReceiptLink(caption: string)
    | SwitchNetwork
    | SetButton(disabled: bool, caption: string)

  /** The link to a sent transaction, else the network switch, else the set
      button; the button is off without an address, a write function, or
      while the wallet is asked. */
  function CardAction(tx: Tx.Write, receipt: Tx.Receipt, unsupportedChain: bool,
                      recoveryAddress: Option<string>, prepare: Tx.Prepare): (a: Action)
    ensures tx.hasData ==> a == ReceiptLink(Tx.ReceiptLabel(receipt))
    ensures !tx.hasData && unsupportedChain ==> a == SwitchNetwork
    ensures a.SetButton? <==> !tx.hasData && !unsupportedChain
    ensures a.SetButton? ==> a.caption == Tx.SubmitLabel(tx, prepare, SetLabel)
    ensures a.SetButton? ==> (a.disabled <==>
      recoveryAddress.None? || recoveryAddress.value == "" || !tx.canWrite || tx.isLoading)
  {
    if tx.hasData then ReceiptLink(Tx.ReceiptLabel(receipt))
    else if unsupportedChain then SwitchNetwork
    else
      var disabled := !(recoveryAddress.Some? && recoveryAddress.value != "") || !tx.canWrite || tx.isLoading;
      SetButton(disabled, Tx.SubmitLabel(tx, prepare, SetLabel))
  }

  /** An enabled set button has a prepared call behind it. */
  lemma EnabledButtonHasCall(tx: Tx.Write, receipt: Tx.Receipt, unsupportedChain: bool,
                             recoveryAddress: Option<string>, prepare: Tx.Prepare)
    ensures var a := CardAction(tx, receipt, unsupportedChain, recoveryAddress, prepare);
      a.SetButton? && !a.disabled ==>
        PreparedCall(recoveryAddress) == Some(("changeRecoveryAddress", [Str(recoveryAddress.value)]))
  {
  }

  /** `currentRecoveryAddress && !tx.data`. */
  function ShowCurrent(currentRecoveryAddress: Option<string>, tx: Tx.Write): (show: bool)
    ensures show <==> currentRecoveryAddress.Some? && currentRecoveryAddress.value != "" && !tx.hasData
  {
    currentRecoveryAddress.Some? && currentRecoveryAddress.value != "" && !tx.hasData
  }

  datatype View =
    | Loading
    | Shown(account: string, inputDisabled: bool, action: Action, showCurrent: bool)

  /** The whole card: the account name is computed first (a TypeError there
      fails the render), then a spinner until the profile lookup has data or an
      error, then the account text, the input, the action and the helper. */
  function Render(lookupData: Value, lookupHasError: bool, storeUsername: Option<string>,
                  tx: Tx.Write, receipt: Tx.Receipt, unsupportedChain: bool,
                  recoveryAddress: Option<string>, prepare: Tx.Prepare,
                  currentRecoveryAddress: Option<string>): (v: Result<View, string>)
    ensures v.Failure? <==> AccountName(storeUsername, lookupData).Failure?
    ensures v.Success? ==> (v.value.Loading? <==> !Truthy(lookupData) && !lookupHasError)
    ensures v.Success? && v.value.Shown? ==>
      && v.value.account == AccountName(storeUsername, lookupData).value
      && v.value.action == CardAction(tx, receipt, unsupportedChain, recoveryAddress, prepare)
      && (v.value.inputDisabled <==> tx.isLoading || tx.hasData)
      && (v.value.showCurrent <==> currentRecoveryAddress.Some? && currentRecoveryAddress.value != "" && !tx.hasData)
  {
    var account :- AccountName(storeUsername, lookupData);
    if !Truthy(lookupData) && !lookupHasError then Success(Loading)
    else Success(Shown(account, InputDisabled(tx),
                       CardAction(tx, receipt, unsupportedChain, recoveryAddress, prepare),
                       ShowCurrent(currentRecoveryAddress, tx)))
  }

  /** Once a transaction is sent the input is locked and the helper hidden. */
  lemma SentLocksCard(lookupData: Value, lookupHasError: bool, storeUsername: Option<string>,
                      tx: Tx.Write, receipt: Tx.Receipt, unsupportedChain: bool,
                      recoveryAddress: Option<string>, prepare: Tx.Prepare,
                      currentRecoveryAddress: Option<string>)
    requires tx.hasData
    ensures var v := Render(lookupData, lookupHasError, storeUsername, tx, receipt,
                            unsupportedChain, recoveryAddress, prepare, currentRecoveryAddress);
      v.Success? && v.value.Shown? ==> v.value.inputDisabled && !v.value.showCurrent && v.value.action.ReceiptLink?
  {
  }
}
