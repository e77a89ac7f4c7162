/** The card that moves a FID to the fresh custody key prepared for it
    (TransferFid): the FID input, the choice between `transfer` and
    `recover` with their arguments, the ownership check and the button. */
module TransferFid {
  import opened Wrappers
  import opened Js
  import Decimal
  import Pattern
  import Tx
  import PrepareTransfer

  /** `/^\d+$/.test(text)`. */
  function IsFidText(text: string): (ok: bool)
    ensures ok <==> text != [] && Decimal.AllDigits(text)
  {
    Pattern.DigitsPatternMeaning(text);
    Pattern.Matches(Pattern.DigitsPattern, text)
  }

  const InvalidFidAlert := "Please enter a valid number"

  /** The FID input's state (the debounced value is taken as settled). */
  class FidInput {
    var fidToTransfer: nat

    constructor (fid: nat)
      ensures fidToTransfer == fid
    {
      fidToTransfer := fid;
    }

    /** onChange: text that is not all digits raises the alert and changes
      nothing; digits become the FID (BigInt(text)). */
    method OnChange(text: string) returns (alert: Option<string>)
      modifies this
      ensures alert.Some? <==> !(text != [] && Decimal.AllDigits(text))
      ensures alert.Some? ==> alert.value == InvalidFidAlert && fidToTransfer == old(fidToTransfer)
      ensures alert.None? ==> fidToTransfer == Decimal.Value(text)
    {
      if !IsFidText(text) {
        return Some(InvalidFidAlert);
      }
      fidToTransfer := Decimal.Value(text);
      return None;
    }
  }

  /** Digits typed back from a FID's decimal text select that FID again. */
  lemma RetypedFid(fid: nat)
    ensures IsFidText(Decimal.Digits(fid)) && Decimal.Value(Decimal.Digits(fid)) == fid
  {
    Decimal.ValueOfDigits(fid);
  }

  /** `transfer` for the connected account's own FID, `recover` for any other. */
  function FunctionName(fidToTransfer: int, fid: int): (name: string)
    ensures name == "transfer" <==> fidToTransfer == fid
    ensures name == "recover" <==> fidToTransfer != fid
  {
    if fidToTransfer == fid then "transfer" else "recover"
  }

  /** The write's arguments: none until the transfer is prepared; then
      `[newCustodyAddress, deadline, signature]` for transfer and
      `[ownerOfFid, newCustodyAddress, deadline, signature]` for recover
      (ownerOfFid undefined while its read has no result). */
  function Args(fidToTransfer: int, fid: int, data: Option<PrepareTransfer.Prepared>,
                ownerOfFid: Option<string>): (args: Option<seq<Value>>)
    ensures args.Some? <==> data.Some?
    ensures args.Some? && fidToTransfer == fid ==>
      args.value == [Str(data.value.newCustodyAddress), BigInt(data.value.deadline), Str(data.value.signature)]
    ensures args.Some? && fidToTransfer != fid ==>
      |args.value| == 4 && args.value[1..] == [Str(data.value.newCustodyAddress), BigInt(data.value.deadline), Str(data.value.signature)] &&
      args.value[0] == (if ownerOfFid.Some? then Str(ownerOfFid.value) else Undefined)
  {
    match data
    case None => None
    case Some(d) =>
      var tail := [Str(d.newCustodyAddress), BigInt(d.deadline), Str(d.signature)];
      if fidToTransfer == fid then Some(tail)
      else Some([if ownerOfFid.Some? then Str(ownerOfFid.value) else Undefined] + tail)
  }

  /** The arity of the arguments follows the function they are for. */
  lemma ArgsMatchFunction(fidToTransfer: int, fid: int, d: PrepareTransfer.Prepared, ownerOfFid: Option<string>)
    ensures var args := Args(fidToTransfer, fid, Some(d), ownerOfFid).value;
      |args| == (if FunctionName(fidToTransfer, fid) == "transfer" then 3 else 4)
  {
  }

  /** `ownerOfFid === address || recovererOfFid === address`. */
  function CanRecover(address: string, ownerOfFid: Option<string>, recovererOfFid: Option<string>): (ok: bool)
    ensures ok <==> ownerOfFid == Some(address) || recovererOfFid == Some(address)
  {
    (ownerOfFid.Some? && ownerOfFid.value == address) || (recovererOfFid.Some? && recovererOfFid.value == address)
  }

  const PlaceholderPhrase := "test test test test test test test test test test test test"

  /** The seed phrase record: its copied value and its text, only shown to
      someone who can recover the FID. The warning under the card has the
      same `canRecover` gate, so it shows exactly when the record does. */
  function MnemonicRecord(canRecover: bool, mnemonic: Option<string>): (r: Option<(string, string)>)
    ensures r.Some? <==> canRecover
    ensures r.Some? && mnemonic.Some? && mnemonic.value != "" ==> r.value == (mnemonic.value, mnemonic.value)
    ensures r.Some? && (mnemonic.None? || mnemonic.value == "") ==> r.value == ("", PlaceholderPhrase)
  {
    if !canRecover then None
    else if mnemonic.Some? && mnemonic.value != "" then Some((mnemonic.value, mnemonic.value))
    else Some(("", PlaceholderPhrase))
  }

  datatype Action =
    | ReceiptLink(caption: string)
    | SwitchNetwork
    | CannotTransfer                       // "You can't transfer this FID", disabled
    | Submit(disabled: bool, caption: string)

  const TransferLabel := "Transfer FID"

  /** What the card offers, in its priority order. */
  function CardAction(tx: Tx.Write, receipt: Tx.Receipt, unsupportedChain: bool, canRecover: bool,
                      newCustodyAddress: Option<string>, ownerOfFid: Option<string>, prepare: Tx.Prepare): (a: Action)
    ensures tx.hasData ==> a == ReceiptLink(Tx.ReceiptLabel(receipt))
    ensures !tx.hasData && unsupportedChain ==> a == SwitchNetwork
    ensures !tx.hasData && !unsupportedChain && !canRecover ==> a == CannotTransfer
    ensures a.Submit? <==> !tx.hasData && !unsupportedChain && canRecover
    ensures a.Submit? ==> a.caption == Tx.SubmitLabel(tx, prepare, TransferLabel)
    ensures a.Submit? ==> (a.disabled <==>
      newCustodyAddress.None? || newCustodyAddress.value == "" || !tx.canWrite || tx.isLoading ||
      ownerOfFid.None? || ownerOfFid.value == "" || !prepare.hasData)
  {
    if tx.hasData then ReceiptLink(Tx.ReceiptLabel(receipt))
    else if unsupportedChain then SwitchNetwork
    else if !canRecover then CannotTransfer
    else
      var disabled := !(newCustodyAddress.Some? && newCustodyAddress.value != "") || !tx.canWrite || tx.isLoading
        || !(ownerOfFid.Some? && ownerOfFid.value != "") || !prepare.hasData;
      Submit(disabled, Tx.SubmitLabel(tx, prepare, TransferLabel))
  }
}
