/** The form that signs a Transfer message with the connected wallet
    (GenerateTransferSignature): the receiver address check, the nonce read,
    the EIP-712 payload with its deadline, and the sign handler that stores
    the signature and its deadline in the session. */
module TransferSignature {
  import opened Wrappers
  import opened Js
  import Decimal
  import Json
  import Pattern
  import TypedData
  import SessionStore

  /** `toAddress && /^0x[a-fA-F0-9]{40}$/.test(toAddress)`. */
  function IsAddressValid(toAddress: string): (ok: bool)
    ensures ok <==> Pattern.AddressShape(toAddress)
    ensures ok ==> |toAddress| == 42
  {
    Pattern.AddressPatternMeaning(toAddress);
    toAddress != "" && Pattern.Matches(Pattern.AddressPattern, toAddress)
  }

  /** The nonces read: its argument is the receiver, and it is issued only
      while that address is valid. */
  function NonceReadArg(toAddress: string): (arg: Option<string>)
    ensures arg.Some? <==> Pattern.AddressShape(toAddress)
    ensures arg.Some? ==> arg.value == toAddress
  {
    if IsAddressValid(toAddress) then Some(toAddress) else None
  }

  const DomainName := "Farcaster IdRegistry"
  const DomainVersion := "1"
  const OptimismChainId := 10

  function SignatureDomain(contractAddress: string): (d: TypedData.Domain)
    ensures d.name == DomainName && d.version == DomainVersion && d.chainId == OptimismChainId
    ensures d.verifyingContract == contractAddress
  {
    TypedData.Domain(DomainName, DomainVersion, OptimismChainId, contractAddress)
  }

  const SignatureTypes: seq<(string, seq<TypedData.Field>)> := [("Transfer", TypedData.TransferFields)]

  const OneYearSeconds := 31536000

  /** `timestamp || Math.floor(Date.now() / 1000) + 31536000`. */
  function Deadline(timestamp: Option<int>, nowMs: nat): (d: int)
    ensures timestamp.Some? && timestamp.value != 0 ==> d == timestamp.value
    ensures timestamp.None? || timestamp.value == 0 ==> d == nowMs / 1000 + OneYearSeconds
    ensures d != 0
  {
    if timestamp.Some? && timestamp.value != 0 then timestamp.value else nowMs / 1000 + OneYearSeconds
  }

  /** `parseInt(nonceData?.toString() || '0')`: the nonce read, or 0 while it
      has no result. */
  function NonceValue(nonceData: Option<nat>): (n: nat)
    ensures n == (if nonceData.Some? then nonceData.value else 0)
  {
    var text := if nonceData.Some? then Decimal.Digits(nonceData.value) else "";
    var chosen := if text != "" then text else "0";
    assert Decimal.AllDigits(chosen);
    if nonceData.Some? then
      Decimal.ValueOfDigits(nonceData.value);
      Decimal.Value(chosen)
    else Decimal.Value(chosen)
  }

  /** The message `{fid, to, nonce, deadline}`. */
  function MessageValue(fid: Option<int>, toAddress: string, nonceData: Option<nat>, deadline: int): (m: TypedData.Message)
    ensures m.fid == fid && m.to == toAddress && m.deadline == deadline
    ensures m.nonce == (if nonceData.Some? then nonceData.value else 0)
  {
    TypedData.Message(fid, toAddress, NonceValue(nonceData), deadline)
  }

  /** What the sign handler hands to `signTypedData`, from the state shown. */
  function SignPayload(st: SessionStore.Store, fid: Option<int>, contractAddress: string,
                       nowMs: nat, nonceData: Option<nat>): TypedData.Payload
  {
    TypedData.Payload(SignatureDomain(contractAddress), SignatureTypes, "Transfer",
      MessageValue(fid, st.toAddress, nonceData, Deadline(st.timestamp, nowMs)))
  }

  /** The payload a wallet can encode: a receiver the button only allows when
      valid, a numeric fid and uint256-sized numbers. */
  lemma PayloadEncodable(st: SessionStore.Store, fid: Option<int>, contractAddress: string,
                         nowMs: nat, nonceData: Option<nat>)
    requires IsAddressValid(st.toAddress)
    requires fid.Some? && TypedData.IsUint256(fid.value)
    requires nonceData.Some? ==> TypedData.IsUint256(nonceData.value)
    requires TypedData.IsUint256(Deadline(st.timestamp, nowMs))
    ensures TypedData.Encodable(TypedData.TransferFields, SignPayload(st, fid, contractAddress, nowMs, nonceData).message)
  {
    TypedData.TransferEncodable(SignPayload(st, fid, contractAddress, nowMs, nonceData).message);
  }

  /** `disabled={!toAddress || !isAddressValid || nonceLoading}`. */
  function SignDisabled(toAddress: string, nonceLoading: bool): (disabled: bool)
    ensures !disabled <==> Pattern.AddressShape(toAddress) && !nonceLoading
  {
    toAddress == "" || !IsAddressValid(toAddress) || nonceLoading
  }

  /** The replacer of the details view: a bigint becomes its decimal string. */
  function SerializeBigInt(v: Value): (r: Value)
    ensures !r.BigInt?
    ensures !v.BigInt? ==> r == v
    ensures v.BigInt? ==> r.Str? && Json.ParseNumber(r.s) == Success((Num(v.i), []))
  {
    if v.BigInt? then
      Json.NumberRoundTrip(v.i, []);
      assert Json.SerializeNumber(v.i) + [] == Json.SerializeNumber(v.i);
      Str(Json.SerializeNumber(v.i))
    else v
  }

  /** How a click on "Generate Signature" ends. */
  datatype SignOutcome =
    | Alerted(message: string)   // an alert, and nothing stored
    | Rejected(error: string)    // getSigner failed outside the try: the promise rejects
    | Signed(signature: string)

  /** What the wallet does: whether getSigner and the account request
      succeed, and how it answers signTypedData. */
  datatype Wallet = Wallet(
    hasProvider: bool,
    isConnected: bool,
    getSigner: Result<(), string>,
    requestAccounts: Result<(), string>,
    sign: TypedData.Payload -> Result<string, string>)

  const NoProviderAlert := "MetaMask is not available."
  const NotConnectedAlert := "Please connect your wallet."
  const SignFailedPrefix := "Failed to sign data: "

  /** handleSign on the session state: the outcome and the session after it. */
  function Sign(st: SessionStore.Store, fid: Option<int>, contractAddress: string, nowMs: nat,
                nonceData: Option<nat>, w: Wallet): (SignOutcome, SessionStore.Store)
  {
    if !w.hasProvider then (Alerted(NoProviderAlert), st)
    else if !w.isConnected then (Alerted(NotConnectedAlert), st)
    else if w.getSigner.Failure? then (Rejected(w.getSigner.error), st)
    else if w.requestAccounts.Failure? then (Alerted(SignFailedPrefix + w.requestAccounts.error), st)
    else
      var p := SignPayload(st, fid, contractAddress, nowMs, nonceData);
      match w.sign(p)
      case Failure(e) => (Alerted(SignFailedPrefix + e), st)
      case Success(sig) =>
        (Signed(sig), SessionStore.AfterSetTimestamp(SessionStore.AfterSetSignature(st, Some(sig)), Some(p.message.deadline)))
  }

  /** Only a signature the wallet returned is stored, with the deadline it
      signed; every other ending leaves the session as it was. */
  lemma SignEffects(st: SessionStore.Store, fid: Option<int>, contractAddress: string, nowMs: nat,
                    nonceData: Option<nat>, w: Wallet)
    ensures var (out, r) := Sign(st, fid, contractAddress, nowMs, nonceData, w);
      && (!out.Signed? ==> r == st)
      && (!w.hasProvider ==> out == Alerted(NoProviderAlert))
      && (w.hasProvider && !w.isConnected ==> out == Alerted(NotConnectedAlert))
      && (out.Signed? <==>
            w.hasProvider && w.isConnected && w.getSigner.Success? && w.requestAccounts.Success? &&
            w.sign(SignPayload(st, fid, contractAddress, nowMs, nonceData)).Success?)
      && (out.Signed? ==>
            var p := SignPayload(st, fid, contractAddress, nowMs, nonceData);
            && out.signature == w.sign(p).value
            && r.signature == Some(out.signature)
            && r.timestamp == Some(p.message.deadline)
            && r.user == st.user && r.fid == st.fid && r.toAddress == st.toAddress)
  {
  }

  /** After a signature is stored, every later render computes the deadline
      that was signed, whatever the clock says. */
  lemma StickyDeadline(st: SessionStore.Store, fid: Option<int>, contractAddress: string, nowMs: nat,
                       nonceData: Option<nat>, w: Wallet, laterMs: nat)
    requires Sign(st, fid, contractAddress, nowMs, nonceData, w).0.Signed?
    ensures var r := Sign(st, fid, contractAddress, nowMs, nonceData, w).1;
      Deadline(r.timestamp, laterMs) == SignPayload(st, fid, contractAddress, nowMs, nonceData).message.deadline
  {
  }

  /** The form's own state. */
  class SignatureForm {
    var showDetails: bool
    var copyStatus: string
    /** The FID field: the store's fid until edited (None while it is null). */
    var fid: Option<int>

    constructor (userFid: Option<int>)
      ensures !showDetails && copyStatus == "" && fid == userFid
    {
      showDetails, copyStatus, fid := false, "", userFid;
    }

    /** The effect that copies the store's fid whenever it changes. */
    method SyncFid(userFid: Option<int>)
      modifies this
      ensures fid == userFid && showDetails == old(showDetails) && copyStatus == old(copyStatus)
    {
      fid := userFid;
    }

    method EditFid(n: int)
      modifies this
      ensures fid == Some(n) && showDetails == old(showDetails) && copyStatus == old(copyStatus)
    {
      fid := Some(n);
    }

    method ToggleDetails()
      modifies this
      ensures showDetails == !old(showDetails) && fid == old(fid) && copyStatus == old(copyStatus)
    {
      showDetails := !showDetails;
    }

    /** The clipboard write resolved: `${label} copied!`. */
    method Copied(caption: string)
      modifies this
      ensures copyStatus == caption + " copied!"
      ensures fid == old(fid) && showDetails == old(showDetails)
    {
      copyStatus := caption + " copied!";
    }

    /** The timer that clears the copy status. */
    method ClearCopied()
      modifies this
      ensures copyStatus == ""
      ensures fid == old(fid) && showDetails == old(showDetails)
    {
      copyStatus := "";
    }

    /** handleSign. */
    method HandleSign(session: SessionStore.Session, contractAddress: string, nowMs: nat,
                      nonceData: Option<nat>, w: Wallet) returns (out: SignOutcome)
      modifies this, session
      ensures (out, session.Model()) == Sign(old(session.Model()), old(fid), contractAddress, nowMs, nonceData, w)
      ensures fid == old(fid) && showDetails == old(showDetails)
      ensures copyStatus == if out.Signed? then "" else old(copyStatus)
    {
      if !w.hasProvider {
        return Alerted(NoProviderAlert);
      }
      if !w.isConnected {
        return Alerted(NotConnectedAlert);
      }
      if w.getSigner.Failure? {
        return Rejected(w.getSigner.error);
      }
      if w.requestAccounts.Failure? {
        return Alerted(SignFailedPrefix + w.requestAccounts.error);
      }
      var deadline := Deadline(session.timestamp, nowMs);
      var p := SignPayload(session.Model(), fid, contractAddress, nowMs, nonceData);
      var answer := w.sign(p);
      if answer.Failure? {
        return Alerted(SignFailedPrefix + answer.error);
      }
      session.SetSignature(Some(answer.value));
      session.SetTimestamp(Some(deadline));
      copyStatus := "";
      return Signed(answer.value);
    }
  }
}
