/** The Farcaster user record the session store holds (UserType), and the JSON
    text it is persisted as. */
module Users {
  import opened Wrappers
  import opened Js
  import Json

  /** A user as the normalising object literal builds it. The members that
      come out of `camel || snake_case` (and `powerBadge`, read as is) are
      None when that expression gives undefined. */
  datatype User = User(
    fid: int,
    custodyAddress: Option<string>,
    username: string,
    displayName: Option<string>,
    pfpUrl: string,
    bioText: string,
    followerCount: Option<int>,
    followingCount: Option<int>,
    activeStatus: Option<string>,
    powerBadge: Option<bool>)

  /** The member names of a user object, in the order its object literal
      creates them (and so the order JSON.stringify writes them). */
  const FieldNames: seq<string> := ["fid", "custodyAddress", "username", "displayName", "pfpUrl",
    "bioText", "followerCount", "followingCount", "activeStatus", "powerBadge"]

  /** An optional member's value: undefined when there is none. */
  function OptStr(o: Option<string>): Value {
    if o.Some? then Str(o.value) else Undefined
  }

  function OptNum(o: Option<int>): Value {
    if o.Some? then Num(o.value) else Undefined
  }

  function OptBool(o: Option<bool>): Value {
    if o.Some? then Bool(o.value) else Undefined
  }

  /** The user as a plain JS object: all ten members, the optional ones
      possibly undefined. */
  function ToJs(u: User): (v: Value)
    ensures v.Obj? && Keys(v.props) == FieldNames
    ensures v.props[1].1 == OptStr(u.custodyAddress) && v.props[3].1 == OptStr(u.displayName)
    ensures v.props[6].1 == OptNum(u.followerCount) && v.props[7].1 == OptNum(u.followingCount)
    ensures v.props[8].1 == OptStr(u.activeStatus) && v.props[9].1 == OptBool(u.powerBadge)
  {
    Obj([("fid", Num(u.fid)), ("custodyAddress", OptStr(u.custodyAddress)),
      ("username", Str(u.username)), ("displayName", OptStr(u.displayName)),
      ("pfpUrl", Str(u.pfpUrl)), ("bioText", Str(u.bioText)),
      ("followerCount", OptNum(u.followerCount)), ("followingCount", OptNum(u.followingCount)),
      ("activeStatus", OptStr(u.activeStatus)), ("powerBadge", OptBool(u.powerBadge))])
  }

  /** The object JSON.stringify writes for a user: a member whose value is
      undefined is skipped, every other member is kept. */
  function ToJson(u: User): (v: Value)
    ensures v.Obj? && |v.props| <= |FieldNames|
  {
    Obj(Defined(ToJs(u).props))
  }

  /** The members written are the user's defined members, and only those. */
  lemma ToJsonMembers(u: User)
    ensures forall m :: m in ToJson(u).props <==> m in ToJs(u).props && m.1 != Undefined
  {
    DefinedMembers(ToJs(u).props);
  }

  /** No two field names are equal: each has its own length, except two of
      length 14 that start differently. */
  lemma FieldNamesDistinct()
    ensures forall i, j | 0 <= i < j < |FieldNames| :: FieldNames[i] != FieldNames[j]
  {
    var lens := [3, 14, 8, 11, 6, 7, 13, 14, 12, 10];
    assert forall i | 0 <= i < 10 :: |FieldNames[i]| == lens[i];
    assert FieldNames[1][0] != FieldNames[7][0];
  }

  /** What JSON.stringify writes for a user is a JSON value with distinct keys. */
  lemma ToJsonIsJson(u: User)
    ensures Json.IsJson(ToJson(u))
  {
    var full := ToJs(u).props;
    FieldNamesDistinct();
    assert forall i | 0 <= i < |full| :: full[i].0 == FieldNames[i];
    Json.DefinedIsJson(full);
  }

  function AsNum(v: Value, name: string): Result<int, string> {
    if v.Num? then Success(v.n) else Failure(name + " is not a number")
  }

  function AsStr(v: Value, name: string): Result<string, string> {
    if v.Str? then Success(v.s) else Failure(name + " is not a string")
  }

  /** An optional member: undefined (absent) or of its type. */
  function AsOptNum(v: Value, name: string): Result<Option<int>, string> {
    if v == Undefined then Success(None)
    else if v.Num? then Success(Some(v.n))
    else Failure(name + " is not a number")
  }

  function AsOptStr(v: Value, name: string): Result<Option<string>, string> {
    if v == Undefined then Success(None)
    else if v.Str? then Success(Some(v.s))
    else Failure(name + " is not a string")
  }

  function AsOptBool(v: Value, name: string): Result<Option<bool>, string> {
    if v == Undefined then Success(None)
    else if v.Bool? then Success(Some(v.b))
    else Failure(name + " is not a boolean")
  }

  /** Reads a user from the values of its ten members: each must have its
      declared type, the optional ones may be undefined. */
  function FromMembers(fid: Value, custody: Value, username: Value, displayName: Value, pfpUrl: Value,
                       bio: Value, followers: Value, following: Value, status: Value, badge: Value): Result<User, string>
  {
    var fid :- AsNum(fid, "fid");
    var custody :- AsOptStr(custody, "custodyAddress");
    var username :- AsStr(username, "username");
    var displayName :- AsOptStr(displayName, "displayName");
    var pfpUrl :- AsStr(pfpUrl, "pfpUrl");
    var bio :- AsStr(bio, "bioText");
    var followers :- AsOptNum(followers, "followerCount");
    var following :- AsOptNum(following, "followingCount");
    var status :- AsOptStr(status, "activeStatus");
    var badge :- AsOptBool(badge, "powerBadge");
    Success(User(fid, custody, username, displayName, pfpUrl, bio, followers, following, status, badge))
  }

  /** Reads a user back from a JS value: an object whose members have the
      declared types (other members are ignored). */
  function FromJs(v: Value): (r: Result<User, string>)
    ensures r.Success? ==> v.Obj?
  {
    if !v.Obj? then Failure("user is not an object")
    else
      var p := v.props;
      FromMembers(Lookup(p, "fid"), Lookup(p, "custodyAddress"), Lookup(p, "username"), Lookup(p, "displayName"),
        Lookup(p, "pfpUrl"), Lookup(p, "bioText"), Lookup(p, "followerCount"), Lookup(p, "followingCount"),
        Lookup(p, "activeStatus"), Lookup(p, "powerBadge"))
  }

  /** Each member of a user object is found under its own name. */
  lemma LookupToJs(u: User, i: nat)
    requires i < |FieldNames|
    ensures Lookup(ToJs(u).props, FieldNames[i]) == ToJs(u).props[i].1
  {
    var p := ToJs(u).props;
    FieldNamesDistinct();
    assert forall j | 0 <= j < i :: p[j].0 == FieldNames[j];
    LookupFirst(p, i);
  }

  /** Each field name finds the member holding that field. */
  lemma ToJsLookups(u: User)
    ensures Lookup(ToJs(u).props, "fid") == Num(u.fid)
    ensures Lookup(ToJs(u).props, "custodyAddress") == OptStr(u.custodyAddress)
    ensures Lookup(ToJs(u).props, "username") == Str(u.username)
    ensures Lookup(ToJs(u).props, "displayName") == OptStr(u.displayName)
    ensures Lookup(ToJs(u).props, "pfpUrl") == Str(u.pfpUrl)
    ensures Lookup(ToJs(u).props, "bioText") == Str(u.bioText)
    ensures Lookup(ToJs(u).props, "followerCount") == OptNum(u.followerCount)
    ensures Lookup(ToJs(u).props, "followingCount") == OptNum(u.followingCount)
    ensures Lookup(ToJs(u).props, "activeStatus") == OptStr(u.activeStatus)
    ensures Lookup(ToJs(u).props, "powerBadge") == OptBool(u.powerBadge)
  {
    LookupToJs(u, 0); LookupToJs(u, 1); LookupToJs(u, 2); LookupToJs(u, 3); LookupToJs(u, 4);
    LookupToJs(u, 5); LookupToJs(u, 6); LookupToJs(u, 7); LookupToJs(u, 8); LookupToJs(u, 9);
  }

  lemma FromJsToJs(u: User)
    ensures FromJs(ToJs(u)) == Success(u)
  {
    ToJsLookups(u);
  }

  /** Skipping the undefined members changes no member a user is read from. */
  lemma LookupToJson(u: User, key: string)
    ensures Lookup(ToJson(u).props, key) == Lookup(ToJs(u).props, key)
  {
    var full := ToJs(u).props;
    FieldNamesDistinct();
    assert forall i | 0 <= i < |full| :: full[i].0 == FieldNames[i];
    LookupDefined(full, key);
  }

  /** A user is read off its members' lookups alone. */
  lemma FromJsByLookups(v: Value, w: Value)
    requires v.Obj? && w.Obj?
    requires forall key :: Lookup(v.props, key) == Lookup(w.props, key)
    ensures FromJs(v) == FromJs(w)
  {
    assert Lookup(v.props, "fid") == Lookup(w.props, "fid");
    assert Lookup(v.props, "custodyAddress") == Lookup(w.props, "custodyAddress");
    assert Lookup(v.props, "username") == Lookup(w.props, "username");
    assert Lookup(v.props, "displayName") == Lookup(w.props, "displayName");
    assert Lookup(v.props, "pfpUrl") == Lookup(w.props, "pfpUrl");
    assert Lookup(v.props, "bioText") == Lookup(w.props, "bioText");
    assert Lookup(v.props, "followerCount") == Lookup(w.props, "followerCount");
    assert Lookup(v.props, "followingCount") == Lookup(w.props, "followingCount");
    assert Lookup(v.props, "activeStatus") == Lookup(w.props, "activeStatus");
    assert Lookup(v.props, "powerBadge") == Lookup(w.props, "powerBadge");
  }

  lemma FromJsToJson(u: User)
    ensures FromJs(ToJson(u)) == Success(u)
  {
    forall key ensures Lookup(ToJson(u).props, key) == Lookup(ToJs(u).props, key) {
      LookupToJson(u, key);
    }
    FromJsByLookups(ToJson(u), ToJs(u));
    FromJsToJs(u);
  }

  /** JSON.stringify(user). */
  function Encode(u: User): string {
    ToJsonIsJson(u);
    Json.Serialize(ToJson(u))
  }

  /** JSON.parse of a stored user, then read as a user record. */
  function Decode(s: string): Result<User, string> {
    var v :- Json.Parse(s);
    FromJs(v)
  }

  /** A stored user reads back as the same user. */
  lemma DecodeEncode(u: User)
    ensures Decode(Encode(u)) == Success(u)
  {
    ToJsonIsJson(u);
    Json.ParseSerialize(ToJson(u));
    FromJsToJson(u);
  }

  /** The stored text of a user is never empty, so hydration never skips it. */
  lemma EncodeNonEmpty(u: User)
    ensures Encode(u) != []
  {
    ToJsonIsJson(u);
    Json.SerializeStart(ToJson(u));
  }
}
