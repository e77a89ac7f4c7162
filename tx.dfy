/** The flags the wallet hooks report about a contract write and its receipt,
    and the receipt caption both transaction cards show. */
module Tx {
  /** usePrepareContractWrite: whether a prepared request exists or failed. */
  datatype Prepare = Prepare(hasData: bool, isError: bool)

  /** useContractWrite: a sent transaction, a write function, waiting for
      the wallet. */
  datatype Write = Write(hasData: bool, canWrite: bool, isLoading: bool)

  /** useWaitForTransaction. */
  datatype Receipt = Receipt(isSuccess: bool, isError: bool, isLoading: bool)

  const SuccessLabel := "Success!"
  const FailedLabel := "Transaction Failed"
  const PendingLabel := "Pending"

  /** The caption of the link to a sent transaction. */
  function ReceiptLabel(r: Receipt): (caption: string)
    ensures caption == SuccessLabel <==> r.isSuccess
    ensures caption == FailedLabel <==> !r.isSuccess && r.isError
    ensures caption == PendingLabel <==> !r.isSuccess && !r.isError
  {
    if r.isSuccess then SuccessLabel else if r.isError then FailedLabel else PendingLabel
  }

  const ConfirmLabel := "Confirm in Wallet"
  const PrepareErrorLabel := "Error Preparing Transaction"

  /** The caption of a submit button: waiting for the wallet first, then a
      failed preparation, then the button's own caption. */
  function SubmitLabel(w: Write, p: Prepare, idle: string): (caption: string)
    requires idle != ConfirmLabel && idle != PrepareErrorLabel
    ensures caption == ConfirmLabel <==> w.isLoading
    ensures caption == PrepareErrorLabel <==> !w.isLoading && p.isError
    ensures caption == idle <==> !w.isLoading && !p.isError
  {
    if w.isLoading then ConfirmLabel else if p.isError then PrepareErrorLabel else idle
  }
}
