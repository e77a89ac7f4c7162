/** The card that submits `transfer` with the stored signature
    (SubmitTransferFunction). */
module SubmitTransfer {
  import opened Wrappers
  import opened Js
  import Submission

  /** The write's arguments: `[toAddress, currentTimestamp, currentSignature]`. */
  function TransferArgs(toAddress: string, currentTimestamp: Value, currentSignature: string): (args: seq<Value>)
    ensures |args| == 3 && args[0] == Str(toAddress) && args[1] == currentTimestamp && args[2] == Str(currentSignature)
  {
    [Str(toAddress), currentTimestamp, Str(currentSignature)]
  }

  class TransferForm {
    /** A number copied from the store, or the text typed in. */
    var currentTimestamp: Value
    var currentSignature: string
    var loading: bool
    var errorMessage: string

    function Status(): Submission.Status
      reads this
    {
      Submission.Status(loading, errorMessage)
    }

    constructor (timestamp: Option<int>, signature: Option<string>)
      ensures currentTimestamp == Submission.InitialTimestamp(timestamp)
      ensures currentSignature == Submission.InitialSignature(signature)
      ensures !loading && errorMessage == ""
    {
      currentTimestamp := Submission.InitialTimestamp(timestamp);
      currentSignature := Submission.InitialSignature(signature);
      loading, errorMessage := false, "";
    }

    method EditTimestamp(text: string)
      modifies this
      ensures currentTimestamp == Str(text)
      ensures currentSignature == old(currentSignature) && Status() == old(Status())
    {
      currentTimestamp := Str(text);
    }

    method EditSignature(text: string)
      modifies this
      ensures currentSignature == text
      ensures currentTimestamp == old(currentTimestamp) && Status() == old(Status())
    {
      currentSignature := text;
    }

    /** The effect on the store's timestamp and signature: a truthy store
      value replaces the local one, a falsy one keeps the local edit. */
    method SyncFromStore(timestamp: Option<int>, signature: Option<string>)
      modifies this
      ensures currentTimestamp == (if timestamp.Some? && timestamp.value != 0 then Num(timestamp.value) else old(currentTimestamp))
      ensures currentSignature == (if signature.Some? && signature.value != "" then signature.value else old(currentSignature))
      ensures Status() == old(Status())
    {
      if timestamp.Some? && timestamp.value != 0 {
        currentTimestamp := Num(timestamp.value);
      }
      if signature.Some? && signature.value != "" {
        currentSignature := signature.value;
      }
    }

    /** handleSubmit, with the outcome of `writeAsync` as a parameter. */
    method HandleSubmit(toAddress: string, write: Result<(), string>) returns (run: Submission.Run)
      modifies this
      ensures run == Submission.HandleSubmit(old(Status()), old(currentSignature),
        TransferArgs(toAddress, old(currentTimestamp), old(currentSignature)), write)
      ensures Status() == run.after
      ensures currentTimestamp == old(currentTimestamp) && currentSignature == old(currentSignature)
    {
      if currentSignature == "" {
        return Submission.Run(Some(Submission.NoSignatureAlert), None, None, Status());
      }
      var args := TransferArgs(toAddress, currentTimestamp, currentSignature);
      loading := true;
      errorMessage := "";
      var pending := Status();
      if write.Success? {
        loading := false;
      } else {
        errorMessage := Submission.WriteErrorText(write.error);
        loading := false;
      }
      return Submission.Run(None, Some(args), Some(pending), Status());
    }

    function SubmitDisabled(toAddress: string, txLoading: bool): (disabled: bool)
      reads this
      ensures !disabled <==> toAddress != "" && !txLoading && !loading
    {
      Submission.SubmitDisabled(toAddress, txLoading, loading)
    }
  }
}
