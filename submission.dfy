/** What the two submit cards (transfer and recover) share: the submit
    handler's steps around the contract write, the error texts and the
    button rule. */
module Submission {
  import opened Wrappers
  import opened Js

  /** The card's `loading` and `errorMessage`. */
  datatype Status = Status(loading: bool, errorMessage: string)

  const NoSignatureAlert := "No signature available. Please generate the signature first."
  const WriteErrorFallback := "Transaction error! Please check the console for details."
  const ReceiptErrorFallback := "Transaction failed!"

  /** `error.message || 'Transaction error! ...'`. */
  function WriteErrorText(message: string): (text: string)
    ensures text != ""
    ensures message != "" ==> text == message
    ensures message == "" ==> text == WriteErrorFallback
  {
    if message != "" then message else WriteErrorFallback
  }

  /** `receiptErrorDetails.message || 'Transaction failed!'`. */
  function ReceiptErrorText(message: string): (text: string)
    ensures text != ""
    ensures message != "" ==> text == message
    ensures message == "" ==> text == ReceiptErrorFallback
  {
    if message != "" then message else ReceiptErrorFallback
  }

  /** `disabled={!toAddress || txLoading || loading}`. */
  function SubmitDisabled(toAddress: string, txLoading: bool, loading: bool): (disabled: bool)
    ensures !disabled <==> toAddress != "" && !txLoading && !loading
  {
    toAddress == "" || txLoading || loading
  }

  /** One run of handleSubmit. */
  datatype Run = Run(
    alert: Option<string>,           // the alert shown, if any
    written: Option<seq<Value>>,     // the arguments writeAsync was called with
    pending: Option<Status>,         // the status while writeAsync is awaited
    after: Status)                   // the status once the handler is done

  /** handleSubmit: without a signature only the alert; otherwise loading and
      a cleared error while the write runs, then loading off again and the
      error text if the write threw. */
  function HandleSubmit(status: Status, currentSignature: string, args: seq<Value>,
                        write: Result<(), string>): (r: Run)
    ensures r.written.None? <==> currentSignature == ""
    ensures currentSignature == "" ==> r.alert == Some(NoSignatureAlert) && r.after == status && r.pending.None?
    ensures currentSignature != "" ==>
      && r.alert.None?
      && r.written == Some(args)
      && r.pending == Some(Status(true, ""))
      && !r.after.loading
      && (write.Success? ==> r.after.errorMessage == "")
      && (write.Failure? ==> r.after.errorMessage == WriteErrorText(write.error))
  {
    if currentSignature == "" then Run(Some(NoSignatureAlert), None, None, status)
    else
      var pending := Status(true, "");
      match write
      case Success(_) => Run(None, Some(args), Some(pending), pending.(loading := false))
      case Failure(e) => Run(None, Some(args), Some(pending), Status(false, WriteErrorText(e)))
  }

  /** After a failed write the card always has an error to show. */
  lemma FailureShowsError(status: Status, currentSignature: string, args: seq<Value>, e: string)
    requires currentSignature != ""
    ensures HandleSubmit(status, currentSignature, args, Failure(e)).after.errorMessage != ""
  {
  }

  /** `timestamp || ''`: the store's timestamp when it is non-zero, else ''. */
  function InitialTimestamp(timestamp: Option<int>): (v: Value)
    ensures Truthy(v) <==> timestamp.Some? && timestamp.value != 0
    ensures Truthy(v) ==> v == Num(timestamp.value)
    ensures !Truthy(v) ==> v == Str("")
  {
    Or(if timestamp.Some? then Num(timestamp.value) else Null, Str(""))
  }

  /** `signature || ''`. */
  function InitialSignature(signature: Option<string>): (s: string)
    ensures s == (if signature.Some? then signature.value else "")
  {
    var v := Or(if signature.Some? then Str(signature.value) else Null, Str(""));
    v.s
  }
}
