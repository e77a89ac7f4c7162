/** The card that submits `recover` with the stored signature
    (SubmitRecoverFunction): the transfer card's handler plus the address the
    FID is recovered from. */
module SubmitRecover {
  import opened Wrappers
  import opened Js
  import Users
  import Submission

  /** The write's arguments: `[fromAddress, toAddress, currentTimestamp, currentSignature]`. */
  function RecoverArgs(fromAddress: string, toAddress: string, currentTimestamp: Value, currentSignature: string): (args: seq<Value>)
    ensures |args| == 4 && args[0] == Str(fromAddress) && args[1] == Str(toAddress)
    ensures args[2] == currentTimestamp && args[3] == Str(currentSignature)
  {
    [Str(fromAddress), Str(toAddress), currentTimestamp, Str(currentSignature)]
  }

  /** `user?.custodyAddress || ''`. */
  function InitialFrom(user: Option<Users.User>): (a: string)
    ensures a == (if user.Some? && user.value.custodyAddress.Some? then user.value.custodyAddress.value else "")
  {
    if user.Some? && user.value.custodyAddress.Some? && user.value.custodyAddress.value != "" then
      user.value.custodyAddress.value
    else ""
  }

  class RecoverForm {
    var fromAddress: string
    var currentTimestamp: Value
    var currentSignature: string
    var loading: bool
    var errorMessage: string

    function Status(): Submission.Status
      reads this
    {
      Submission.Status(loading, errorMessage)
    }

    constructor (user: Option<Users.User>, timestamp: Option<int>, signature: Option<string>)
      ensures fromAddress == InitialFrom(user)
      ensures currentTimestamp == Submission.InitialTimestamp(timestamp)
      ensures currentSignature == Submission.InitialSignature(signature)
      ensures !loading && errorMessage == ""
    {
      fromAddress := InitialFrom(user);
      currentTimestamp := Submission.InitialTimestamp(timestamp);
      currentSignature := Submission.InitialSignature(signature);
      loading, errorMessage := false, "";
    }

    method EditFrom(text: string)
      modifies this
      ensures fromAddress == text
      ensures currentTimestamp == old(currentTimestamp) && currentSignature == old(currentSignature)
      ensures Status() == old(Status())
    {
      fromAddress := text;
    }

    method EditTimestamp(text: string)
      modifies this
      ensures currentTimestamp == Str(text)
      ensures fromAddress == old(fromAddress) && currentSignature == old(currentSignature)
      ensures Status() == old(Status())
    {
      currentTimestamp := Str(text);
    }

    method EditSignature(text: string)
      modifies this
      ensures currentSignature == text
      ensures fromAddress == old(fromAddress) && currentTimestamp == old(currentTimestamp)
      ensures Status() == old(Status())
    {
      currentSignature := text;
    }

    /** The effect on the store's custody address, timestamp and signature:
      each truthy store value replaces the local one. */
    method SyncFromStore(user: Option<Users.User>, timestamp: Option<int>, signature: Option<string>)
      modifies this
      ensures fromAddress == (if user.Some? && user.value.custodyAddress.Some? && user.value.custodyAddress.value != ""
        then user.value.custodyAddress.value else old(fromAddress))
      ensures currentTimestamp == (if timestamp.Some? && timestamp.value != 0 then Num(timestamp.value) else old(currentTimestamp))
      ensures currentSignature == (if signature.Some? && signature.value != "" then signature.value else old(currentSignature))
      ensures Status() == old(Status())
    {
      if user.Some? && user.value.custodyAddress.Some? && user.value.custodyAddress.value != "" {
        fromAddress := user.value.custodyAddress.value;
      }
      if timestamp.Some? && timestamp.value != 0 {
        currentTimestamp := Num(timestamp.value);
      }
      if signature.Some? && signature.value != "" {
        currentSignature := signature.value;
      }
    }

    /** handleSubmit, with the outcome of `writeAsync` as a parameter. */
    method HandleSubmit(toAddress: string, write: Result<(), string>) returns (run: Submission.Run)
      modifies this
      ensures run == Submission.HandleSubmit(old(Status()), old(currentSignature),
        RecoverArgs(old(fromAddress), toAddress, old(currentTimestamp), old(currentSignature)), write)
      ensures Status() == run.after
      ensures fromAddress == old(fromAddress) && currentTimestamp == old(currentTimestamp)
      ensures currentSignature == old(currentSignature)
    {
      if currentSignature == "" {
        return Submission.Run(Some(Submission.NoSignatureAlert), None, None, Status());
      }
      var args := RecoverArgs(fromAddress, toAddress, currentTimestamp, currentSignature);
      loading := true;
      errorMessage := "";
      var pending := Status();
      if write.Success? {
        loading := false;
      } else {
        errorMessage := Submission.WriteErrorText(write.error);
        loading := false;
      }
      return Submission.Run(None, Some(args), Some(pending), Status());
    }

    function SubmitDisabled(toAddress: string, txLoading: bool): (disabled: bool)
      reads this
      ensures !disabled <==> toAddress != "" && !txLoading && !loading
    {
      Submission.SubmitDisabled(toAddress, txLoading, loading)
    }
  }
}
