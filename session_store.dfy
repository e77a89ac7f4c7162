/** The session store every page shares (FarcasterUserProvider): five state
    fields, written through to localStorage by one effect per field, and read
    back from it once at mount.  A setter together with the effects it
    triggers is one step. */
module SessionStore {
  import opened Wrappers
  import opened Js
  import Json
  import Users

  const UserKey := "user"
  const FidKey := "fid"
  const SignatureKey := "signature"
  const TimestampKey := "timestamp"
  const ToAddressKey := "toAddress"

  /** The provider's state together with the browser's storage. */
  datatype Store = Store(
    user: Option<Users.User>,
    fid: Option<int>,
    signature: Option<string>,
    timestamp: Option<int>,
    toAddress: string,
    storage: map<string, string>)

  /** The state before the mount effect: everything null, toAddress empty. */
  function Initial(storage: map<string, string>): (st: Store)
    ensures st.user.None? && st.fid.None? && st.signature.None? && st.timestamp.None?
    ensures st.toAddress == "" && st.storage == storage
  {
    Store(None, None, None, None, "", storage)
  }

  /** `localStorage.getItem(key)` is a non-empty string (the truthiness test
      the mount effect applies). */
  predicate Present(storage: map<string, string>, key: string) {
    key in storage && storage[key] != ""
  }

  /** JSON.stringify of a number. */
  function NumberText(n: int): string {
    Json.Serialize(Num(n))
  }

  /** JSON.parse of a stored fid or timestamp. */
  function DecodeNumber(s: string): Result<Option<int>, string> {
    var v :- Json.Parse(s);
    if v.Num? then Success(Some(v.n))
    else if v.Null? then Success(None)
    else Failure("stored value is not a number")
  }

  /** JSON.parse of a stored user. */
  function DecodeUser(s: string): Result<Option<Users.User>, string> {
    var v :- Json.Parse(s);
    if v.Null? then Success(None)
    else
      var u :- Users.FromJs(v);
      Success(Some(u))
  }

  lemma DecodeNumberText(n: int)
    ensures DecodeNumber(NumberText(n)) == Success(Some(n))
    ensures NumberText(n) != []
  {
    Json.ParseSerialize(Num(n));
    Json.SerializeStart(Num(n));
  }

  lemma DecodeUserEncode(u: Users.User)
    ensures DecodeUser(Users.Encode(u)) == Success(Some(u))
  {
    Users.DecodeEncode(u);
  }

  // ------------------------------------------------------------ the setters

  /** setUser, then the user effect: a user also sets fid to its own fid and
      is written under "user"; the fid effect runs when fid changed.  A null
      user touches nothing else. */
  function AfterSetUser(st: Store, u: Option<Users.User>): Store {
    match u
    case None => st.(user := None)
    case Some(x) =>
      var s := st.storage[UserKey := Users.Encode(x)];
      if st.fid == Some(x.fid) then st.(user := u, storage := s)
      else st.(user := u, fid := Some(x.fid), storage := s[FidKey := NumberText(x.fid)])
  }

  /** setFid (only the mount effect and the user effect call it), then the
      fid effect: a change to a non-null fid is written under "fid". */
  function AfterSetFid(st: Store, f: Option<int>): Store {
    if f != st.fid && f.Some? then st.(fid := f, storage := st.storage[FidKey := NumberText(f.value)])
    else st.(fid := f)
  }

  /** setSignature, then its effect: a change to a non-null signature is
      written under "signature" as it is. */
  function AfterSetSignature(st: Store, sig: Option<string>): Store {
    if sig != st.signature && sig.Some? then st.(signature := sig, storage := st.storage[SignatureKey := sig.value])
    else st.(signature := sig)
  }

  /** setTimestamp, then its effect: a change to a non-null timestamp is
      written under "timestamp" as JSON. */
  function AfterSetTimestamp(st: Store, t: Option<int>): Store {
    if t != st.timestamp && t.Some? then st.(timestamp := t, storage := st.storage[TimestampKey := NumberText(t.value)])
    else st.(timestamp := t)
  }

  /** setToAddress, then its effect: a change to a non-empty address is
      written under "toAddress". */
  function AfterSetToAddress(st: Store, a: string): Store {
    if a != st.toAddress && a != "" then st.(toAddress := a, storage := st.storage[ToAddressKey := a])
    else st.(toAddress := a)
  }

  // ------------------------------------------------------------ hydration

  function ReadUser(storage: map<string, string>): Result<Option<Users.User>, string> {
    if Present(storage, UserKey) then DecodeUser(storage[UserKey]) else Success(None)
  }

  function ReadNumber(storage: map<string, string>, key: string): Result<Option<int>, string> {
    if Present(storage, key) then DecodeNumber(storage[key]) else Success(None)
  }

  function ReadRaw(storage: map<string, string>, key: string): Option<string> {
    if Present(storage, key) then Some(storage[key]) else None
  }

  /** The setters the mount effect calls, with the values it read, from the
      initial state.  The effects touch one key each, and only the user effect
      changes another field (fid), so applying the fid setter first and the
      user setter second gives the state React commits. */
  function Restore(storage: map<string, string>, u: Option<Users.User>, f: Option<int>,
                   sig: Option<string>, t: Option<int>, a: string): Store
  {
    var st1 := AfterSetFid(Initial(storage), f);
    var st2 := AfterSetUser(st1, u);
    var st3 := AfterSetSignature(st2, sig);
    var st4 := AfterSetTimestamp(st3, t);
    AfterSetToAddress(st4, a)
  }

  lemma RestoreFields(storage: map<string, string>, u: Option<Users.User>, f: Option<int>,
                      sig: Option<string>, t: Option<int>, a: string)
    ensures var st := Restore(storage, u, f, sig, t, a);
      && st.user == u
      && st.fid == (if u.Some? then Some(u.value.fid) else f)
      && st.signature == sig && st.timestamp == t && st.toAddress == a
      && (forall k | k in storage :: k in st.storage)
  {
  }

  /** The mount effect: every key holding a non-empty string sets its field
      ("user", "fid" and "timestamp" through JSON.parse, the other two as they
      are), then the effects of those setters run.  A stored value JSON.parse
      rejects makes the effect throw: nothing is committed. */
  function Hydrate(storage: map<string, string>): Result<Store, string> {
    var u :- ReadUser(storage);
    var f :- ReadNumber(storage, FidKey);
    var t :- ReadNumber(storage, TimestampKey);
    var a := ReadRaw(storage, ToAddressKey);
    Success(Restore(storage, u, f, ReadRaw(storage, SignatureKey), t, if a.Some? then a.value else ""))
  }

  /** What the mount effect does to each field, and when it fails. */
  lemma HydrateFields(storage: map<string, string>)
    ensures Hydrate(storage).Failure? <==>
      ReadUser(storage).Failure? || ReadNumber(storage, FidKey).Failure? || ReadNumber(storage, TimestampKey).Failure?
    ensures Hydrate(storage).Success? ==>
      var st := Hydrate(storage).value;
      && st.user == ReadUser(storage).value
      && st.fid == (if st.user.Some? then Some(st.user.value.fid) else ReadNumber(storage, FidKey).value)
      && (Present(storage, SignatureKey) ==> st.signature == Some(storage[SignatureKey]))
      && (!Present(storage, SignatureKey) ==> st.signature.None?)
      && st.timestamp == ReadNumber(storage, TimestampKey).value
      && st.toAddress == (if Present(storage, ToAddressKey) then storage[ToAddressKey] else "")
      && (forall k | k in storage :: k in st.storage)
  {
    var u, f, t := ReadUser(storage), ReadNumber(storage, FidKey), ReadNumber(storage, TimestampKey);
    if u.Success? && f.Success? && t.Success? {
      var a := ReadRaw(storage, ToAddressKey);
      RestoreFields(storage, u.value, f.value, ReadRaw(storage, SignatureKey), t.value, if a.Some? then a.value else "");
    }
  }

  // ------------------------------------------------------------ the invariant

  /** Every non-null field is what its key holds (toAddress when non-empty). */
  predicate Persisted(st: Store) {
    && (st.user.Some? ==> UserKey in st.storage && st.storage[UserKey] == Users.Encode(st.user.value))
    && (st.fid.Some? ==> FidKey in st.storage && st.storage[FidKey] == NumberText(st.fid.value))
    && (st.signature.Some? ==> SignatureKey in st.storage && st.storage[SignatureKey] == st.signature.value)
    && (st.timestamp.Some? ==> TimestampKey in st.storage && st.storage[TimestampKey] == NumberText(st.timestamp.value))
    && (st.toAddress != "" ==> ToAddressKey in st.storage && st.storage[ToAddressKey] == st.toAddress)
  }

  /** The keys the mount effect hands to JSON.parse all parse. */
  predicate KeysParse(storage: map<string, string>) {
    && ReadUser(storage).Success?
    && ReadNumber(storage, FidKey).Success?
    && ReadNumber(storage, TimestampKey).Success?
  }

  /** A stored user carries the current fid. */
  predicate UserAgrees(st: Store)
    requires ReadUser(st.storage).Success?
  {
    ReadUser(st.storage).value.Some? ==> st.fid == Some(ReadUser(st.storage).value.value.fid)
  }

  /** The invariant the effects keep once the mount effect has run. */
  predicate Consistent(st: Store) {
    Persisted(st) && KeysParse(st.storage) && UserAgrees(st)
  }

  lemma {:induction false} SetFidKeeps(st: Store, f: Option<int>)
    requires Persisted(st) && KeysParse(st.storage) && st.user.None?
    ensures var r := AfterSetFid(st, f);
      Persisted(r) && KeysParse(r.storage) && ReadUser(r.storage) == ReadUser(st.storage)
  {
    var r := AfterSetFid(st, f);
    if f.Some? {
      DecodeNumberText(f.value);
    }
    assert UserKey != FidKey;
    assert (UserKey in r.storage <==> UserKey in st.storage) &&
      (UserKey in st.storage ==> r.storage[UserKey] == st.storage[UserKey]);
  }

  /** A user makes the stored user agree with fid; a null user keeps agreement. */
  lemma {:induction false} SetUserConsistent(st: Store, u: Option<Users.User>)
    requires Persisted(st) && KeysParse(st.storage)
    requires u.None? ==> UserAgrees(st)
    ensures Consistent(AfterSetUser(st, u))
  {
    if u.Some? {
      DecodeUserEncode(u.value);
      Users.EncodeNonEmpty(u.value);
      DecodeNumberText(u.value.fid);
    }
  }

  lemma {:induction false} SetSignatureConsistent(st: Store, sig: Option<string>)
    requires Consistent(st)
    ensures Consistent(AfterSetSignature(st, sig))
  {
    var r := AfterSetSignature(st, sig);
    assert SignatureKey != UserKey && SignatureKey != FidKey && SignatureKey != TimestampKey && SignatureKey != ToAddressKey;
    assert forall k | k in st.storage && k != SignatureKey :: k in r.storage && r.storage[k] == st.storage[k];
    assert forall k | k != SignatureKey :: Present(r.storage, k) == Present(st.storage, k);
    assert ReadUser(r.storage) == ReadUser(st.storage);
    assert ReadNumber(r.storage, FidKey) == ReadNumber(st.storage, FidKey);
    assert ReadNumber(r.storage, TimestampKey) == ReadNumber(st.storage, TimestampKey);
  }

  lemma {:induction false} SetTimestampConsistent(st: Store, t: Option<int>)
    requires Consistent(st)
    ensures Consistent(AfterSetTimestamp(st, t))
  {
    var r := AfterSetTimestamp(st, t);
    if t.Some? {
      DecodeNumberText(t.value);
    }
    assert ReadUser(r.storage) == ReadUser(st.storage);
    assert ReadNumber(r.storage, FidKey) == ReadNumber(st.storage, FidKey);
  }

  lemma {:induction false} SetToAddressConsistent(st: Store, a: string)
    requires Consistent(st)
    ensures Consistent(AfterSetToAddress(st, a))
  {
    var r := AfterSetToAddress(st, a);
    assert ToAddressKey != UserKey && ToAddressKey != FidKey && ToAddressKey != TimestampKey && ToAddressKey != SignatureKey;
    assert forall k | k in st.storage && k != ToAddressKey :: k in r.storage && r.storage[k] == st.storage[k];
    assert forall k | k != ToAddressKey :: Present(r.storage, k) == Present(st.storage, k);
    assert ReadUser(r.storage) == ReadUser(st.storage);
    assert ReadNumber(r.storage, FidKey) == ReadNumber(st.storage, FidKey);
    assert ReadNumber(r.storage, TimestampKey) == ReadNumber(st.storage, TimestampKey);
  }

  /** The mount effect establishes the invariant, whatever the storage held. */
  lemma {:induction false} HydrateConsistent(storage: map<string, string>)
    requires Hydrate(storage).Success?
    ensures Consistent(Hydrate(storage).value)
  {
    var u, f, t := ReadUser(storage).value, ReadNumber(storage, FidKey).value, ReadNumber(storage, TimestampKey).value;
    var a := ReadRaw(storage, ToAddressKey);
    var st0 := Initial(storage);
    var st1 := AfterSetFid(st0, f);
    SetFidKeeps(st0, f);
    var st2 := AfterSetUser(st1, u);
    SetUserConsistent(st1, u);
    var st3 := AfterSetSignature(st2, ReadRaw(storage, SignatureKey));
    SetSignatureConsistent(st2, ReadRaw(storage, SignatureKey));
    var st4 := AfterSetTimestamp(st3, t);
    SetTimestampConsistent(st3, t);
    SetToAddressConsistent(st4, if a.Some? then a.value else "");
  }

  /** Reloading the page gives back every non-null field (and a non-empty
      signature and toAddress) from what the effects wrote. */
  lemma {:induction false} HydrateRestores(st: Store)
    requires Consistent(st)
    ensures Hydrate(st.storage).Success?
    ensures var h := Hydrate(st.storage).value;
      && (st.user.Some? ==> h.user == st.user)
      && (st.fid.Some? ==> h.fid == st.fid)
      && (st.signature.Some? && st.signature.value != "" ==> h.signature == st.signature)
      && (st.timestamp.Some? ==> h.timestamp == st.timestamp)
      && (st.toAddress != "" ==> h.toAddress == st.toAddress)
  {
    var s := st.storage;
    HydrateFields(s);
    if st.user.Some? {
      DecodeUserEncode(st.user.value);
      Users.EncodeNonEmpty(st.user.value);
    }
    if st.fid.Some? {
      DecodeNumberText(st.fid.value);
    }
    if st.timestamp.Some? {
      DecodeNumberText(st.timestamp.value);
    }
  }

  // ------------------------------------------------------------ single steps

  /** A user also sets fid and the "user" key; a null user changes neither. */
  lemma SetUserEffects(st: Store, u: Option<Users.User>)
    ensures var r := AfterSetUser(st, u);
      && r.user == u
      && r.signature == st.signature && r.timestamp == st.timestamp && r.toAddress == st.toAddress
      && (u.None? ==> r.fid == st.fid && r.storage == st.storage)
      && (u.Some? ==>
            r.fid == Some(u.value.fid)
            && UserKey in r.storage && DecodeUser(r.storage[UserKey]) == Success(u)
            && (st.fid != r.fid ==> FidKey in r.storage && DecodeNumber(r.storage[FidKey]) == Success(Some(u.value.fid))))
      && (forall k | k in st.storage && k != UserKey && k != FidKey :: k in r.storage && r.storage[k] == st.storage[k])
  {
    if u.Some? {
      DecodeUserEncode(u.value);
      DecodeNumberText(u.value.fid);
    }
  }

  /** Writing null (or the empty address) never removes a key, so a reload
      brings back what was stored before. */
  lemma NullWritesKeepStorage(st: Store)
    ensures AfterSetSignature(st, None).storage == st.storage
    ensures AfterSetTimestamp(st, None).storage == st.storage
    ensures AfterSetToAddress(st, "").storage == st.storage
    ensures AfterSetUser(st, None).storage == st.storage
  {
  }

  /** Clearing the signature in memory leaves the stored one, and a reload
      brings it back. */
  lemma NullSignatureComesBack(st: Store)
    requires Consistent(st) && st.signature.Some? && st.signature.value != ""
    ensures Hydrate(AfterSetSignature(st, None).storage).Success?
    ensures Hydrate(AfterSetSignature(st, None).storage).value.signature == st.signature
  {
    NullWritesKeepStorage(st);
    HydrateRestores(st);
  }

  /** setToAddress changes toAddress and the "toAddress" key and nothing else:
      the signature made for an earlier address stays. */
  lemma SetToAddressOnly(st: Store, a: string)
    ensures var r := AfterSetToAddress(st, a);
      && r.toAddress == a
      && r.user == st.user && r.fid == st.fid && r.signature == st.signature && r.timestamp == st.timestamp
      && (forall k | k in st.storage && k != ToAddressKey :: k in r.storage && r.storage[k] == st.storage[k])
      && (forall k | k in r.storage && k != ToAddressKey :: k in st.storage)
      && (a != "" && a != st.toAddress ==> ToAddressKey in r.storage && r.storage[ToAddressKey] == a)
  {
  }

  /** The recoveryOf read: its arguments exist, and it is enabled, only for a
      truthy fid (neither null nor 0). */
  function RecoveryOfArgs(fid: Option<int>): (args: Option<int>)
    ensures args.Some? <==> fid.Some? && fid.value != 0
    ensures args.Some? ==> args == fid
  {
    if fid.Some? && fid.value != 0 then fid else None
  }

  const OutsideProviderError := "useFarcasterUser must be used within a FarcasterUserProvider"

  /** useFarcasterUser: the provider's value, or the error it throws when no
      provider is above the caller. */
  function UseFarcasterUser<T>(context: Option<T>): (r: Result<T, string>)
    ensures r.Failure? <==> context.None?
    ensures r.Failure? ==> r.error == OutsideProviderError
    ensures r.Success? ==> r.value == context.value
  {
    if context.None? then Failure(OutsideProviderError) else Success(context.value)
  }

  /** The provider's state and the browser's localStorage. */
  class Session {
    var user: Option<Users.User>
    var fid: Option<int>
    var signature: Option<string>
    var timestamp: Option<int>
    var toAddress: string
    var storage: map<string, string>

    function Model(): Store
      reads this
    {
      Store(user, fid, signature, timestamp, toAddress, storage)
    }

    constructor (stored: map<string, string>)
      ensures Model() == Initial(stored)
    {
      user, fid, signature, timestamp, toAddress := None, None, None, None, "";
      storage := stored;
    }

    /** The fid effect, run after fid changed. */
    method PersistFid()
      modifies this
      ensures Model() == old(Model()).(storage := if fid.Some? then old(storage)[FidKey := NumberText(fid.value)] else old(storage))
    {
      if fid.Some? {
        storage := storage[FidKey := NumberText(fid.value)];
      }
    }

    method SetUser(u: Option<Users.User>)
      modifies this
      ensures Model() == AfterSetUser(old(Model()), u)
    {
      user := u;
      if u.Some? {
        var f := Some(u.value.fid);
        storage := storage[UserKey := Users.Encode(u.value)];
        if f != fid {
          fid := f;
          PersistFid();
        }
      }
    }

    method SetSignature(sig: Option<string>)
      modifies this
      ensures Model() == AfterSetSignature(old(Model()), sig)
    {
      if sig != signature {
        signature := sig;
        if sig.Some? {
          storage := storage[SignatureKey := sig.value];
        }
      }
    }

    method SetTimestamp(t: Option<int>)
      modifies this
      ensures Model() == AfterSetTimestamp(old(Model()), t)
    {
      if t != timestamp {
        timestamp := t;
        if t.Some? {
          storage := storage[TimestampKey := NumberText(t.value)];
        }
      }
    }

    method SetToAddress(a: string)
      modifies this
      ensures Model() == AfterSetToAddress(old(Model()), a)
    {
      if a != toAddress {
        toAddress := a;
        if a != "" {
          storage := storage[ToAddressKey := a];
        }
      }
    }

    /** The mount effect.  It runs once, on the initial state. */
    method Mount() returns (r: Result<(), string>)
      requires Model() == Initial(storage)
      modifies this
      ensures r.Success? <==> Hydrate(old(storage)).Success?
      ensures r.Success? ==> Model() == Hydrate(old(storage)).value
      ensures r.Failure? ==> Model() == old(Model())
    {
      var storedUser := ReadUser(storage);
      var storedFid := ReadNumber(storage, FidKey);
      var storedSignature := ReadRaw(storage, SignatureKey);
      var storedTimestamp := ReadNumber(storage, TimestampKey);
      var storedToAddress := ReadRaw(storage, ToAddressKey);
      if storedUser.Failure? || storedFid.Failure? || storedTimestamp.Failure? {
        return Failure("JSON.parse failed on a stored value");
      }
      if storedFid.value.Some? {
        fid := storedFid.value;
        PersistFid();
      }
      SetUser(storedUser.value);
      SetSignature(storedSignature);
      SetTimestamp(storedTimestamp.value);
      SetToAddress(if storedToAddress.Some? then storedToAddress.value else "");
      return Success(());
    }

    /** The arguments of the provider's recoveryOf read. */
    function RecoveryArgs(): (args: Option<int>)
      reads this
      ensures args.Some? <==> fid.Some? && fid.value != 0
    {
      RecoveryOfArgs(fid)
    }
  }
}
