/** The query that prepares a transfer to a fresh custody key
    (usePrepareTransfer): generate a mnemonic, derive its account, read that
    account's nonce, set a one-hour deadline and have the new key sign the
    Transfer message.  Randomness, key derivation, the chain read, the clock
    and signing are parameters. */
module PrepareTransfer {
  import opened Wrappers
  import TypedData

  /** What the query body calls out to. */
  datatype Env = Env(
    mnemonic: string,                                    // generateMnemonic(english)
    deriveAddress: string -> string,                     // mnemonicToAccount(m).address
    readNonce: string -> Result<int, string>,            // readContract nonces(address)
    nowMs: nat,                                          // Date.now()
    sign: TypedData.Payload -> Result<string, string>,   // account.signTypedData
    domain: TypedData.Domain,                            // ID_REGISTRY_EIP_712_DOMAIN
    types: seq<(string, seq<TypedData.Field>)>)          // ID_REGISTRY_EIP_712_TYPES

  /** The steps the body takes, in the order it takes them. */
  datatype Step =
    | GenerateMnemonic
    | DeriveAccount(mnemonic: string)
    | ReadNonce(address: string)
    | ReadClock
    | SignTransfer(payload: TypedData.Payload)

  datatype Prepared = Prepared(mnemonic: string, newCustodyAddress: string, deadline: int, signature: string)

  const OneHourSeconds := 60 * 60

  /** The query result (null, a prepared transfer, or the error the query
      rejects with) and the steps taken. */
  function Prepare(fid: Option<int>, env: Env): (Result<Option<Prepared>, string>, seq<Step>)
  {
    if fid.None? || fid.value == 0 then (Success(None), [])
    else
      var m := env.mnemonic;
      var address := env.deriveAddress(m);
      var steps := [GenerateMnemonic, DeriveAccount(m), ReadNonce(address)];
      match env.readNonce(address)
      case Failure(e) => (Failure(e), steps)
      case Success(nonce) =>
        var deadline := env.nowMs / 1000 + OneHourSeconds;
        var payload := TypedData.Payload(env.domain, env.types, "Transfer",
          TypedData.Message(fid, address, nonce, deadline));
        var steps' := steps + [ReadClock, SignTransfer(payload)];
        match env.sign(payload)
        case Failure(e) => (Failure(e), steps')
        case Success(signature) => (Success(Some(Prepared(m, address, deadline, signature))), steps')
  }

  /** Without a fid (or with fid 0) the query is null and nothing is
      generated, read or signed. */
  lemma NoFidNoSteps(fid: Option<int>, env: Env)
    ensures Prepare(fid, env).1 == [] <==> fid.None? || fid.value == 0
    ensures fid.None? || fid.value == 0 ==> Prepare(fid, env).0 == Success(None)
  {
  }

  /** Every account derived is derived from the mnemonic just generated, and
      every nonce read is for that account. */
  lemma NonceOfNewAccount(fid: Option<int>, env: Env)
    ensures forall i | 0 <= i < |Prepare(fid, env).1| && Prepare(fid, env).1[i].DeriveAccount? ::
      Prepare(fid, env).1[i].mnemonic == env.mnemonic
    ensures forall i | 0 <= i < |Prepare(fid, env).1| && Prepare(fid, env).1[i].ReadNonce? ::
      Prepare(fid, env).1[i].address == env.deriveAddress(env.mnemonic)
  {
  }

  /** The mnemonic comes before the account, the account before the nonce
      read, and the nonce read before the clock and the signature; each step
      is taken at most once. */
  lemma StepOrder(fid: Option<int>, env: Env)
    ensures var steps := Prepare(fid, env).1;
      forall i, j | 0 <= i < |steps| && 0 <= j < |steps| ::
        && (steps[i].GenerateMnemonic? && steps[j].DeriveAccount? ==> i < j)
        && (steps[i].DeriveAccount? && steps[j].ReadNonce? ==> i < j)
        && (steps[i].ReadNonce? && (steps[j].ReadClock? || steps[j].SignTransfer?) ==> i < j)
        && (steps[i].ReadClock? && steps[j].SignTransfer? ==> i < j)
        && (steps[i] == steps[j] ==> i == j)
  {
  }

  /** A failed nonce read fails the query: the clock is not read and nothing
      is signed. */
  lemma NonceFailureStops(fid: Option<int>, env: Env)
    requires fid.Some? && fid.value != 0
    requires env.readNonce(env.deriveAddress(env.mnemonic)).Failure?
    ensures Prepare(fid, env).0 == Failure(env.readNonce(env.deriveAddress(env.mnemonic)).error)
    ensures forall s | s in Prepare(fid, env).1 :: !s.ReadClock? && !s.SignTransfer?
  {
  }

  /** A failed signature fails the query after exactly one signature request. */
  lemma SignFailureFails(fid: Option<int>, env: Env)
    requires fid.Some? && fid.value != 0
    requires env.readNonce(env.deriveAddress(env.mnemonic)).Success?
    ensures var steps := Prepare(fid, env).1;
      && |steps| > 0 && steps[|steps| - 1].SignTransfer?
      && (env.sign(steps[|steps| - 1].payload).Failure? ==>
            Prepare(fid, env).0 == Failure(env.sign(steps[|steps| - 1].payload).error))
  {
  }

  /** A prepared transfer returns the address and deadline it signed: the
      signed `to` is the new custody address, the signed deadline is an hour
      after the clock read, and fid and nonce are the ones read. */
  lemma ResultMatchesSigned(fid: Option<int>, env: Env)
    requires Prepare(fid, env).0.Success? && Prepare(fid, env).0.value.Some?
    ensures var p := Prepare(fid, env).0.value.value;
      var steps := Prepare(fid, env).1;
      && |steps| == 5 && steps[4].SignTransfer?
      && var signed := steps[4].payload;
      && signed.primaryType == "Transfer"
      && signed.domain == env.domain && signed.types == env.types
      && signed.message.to == p.newCustodyAddress
      && signed.message.deadline == p.deadline
      && p.deadline == env.nowMs / 1000 + OneHourSeconds
      && signed.message.fid == fid
      && env.readNonce(p.newCustodyAddress) == Success(signed.message.nonce)
      && p.mnemonic == env.mnemonic
      && p.newCustodyAddress == env.deriveAddress(env.mnemonic)
      && env.sign(signed) == Success(p.signature)
  {
  }
}
