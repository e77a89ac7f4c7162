/** The profile card (FarcasterUserInfo): which lookup URL the inputs select,
    how a lookup response is normalised into a user record, the effects that
    put that record into the session store, and the warning and title. The
    lookups themselves are parameters (their responses as JS values). */
module UserInfo {
  import opened Wrappers
  import opened Js
  import Users
  import SessionStore

  /** The characters String.prototype.trim removes (WhiteSpace and
      LineTerminator of ECMAScript). */
  predicate IsSpace(c: char) {
    c == ' ' || c == '\t' || c == '\n' || c == '\r' || c == '\U{000B}' || c == '\U{000C}' ||
    c == '\U{00A0}' || c == '\U{1680}' || ('\U{2000}' <= c <= '\U{200A}') || c == '\U{2028}' ||
    c == '\U{2029}' || c == '\U{202F}' || c == '\U{205F}' || c == '\U{3000}' || c == '\U{FEFF}'
  }

  function {:tailrecursion} TrimStart(s: string): (r: string)
    ensures |r| <= |s| && r == s[|s| - |r|..]
    ensures r == [] || !IsSpace(r[0])
    ensures forall i | 0 <= i < |s| - |r| :: IsSpace(s[i])
  {
    if s != [] && IsSpace(s[0]) then TrimStart(s[1..]) else s
  }

  function {:tailrecursion} TrimEnd(s: string): (r: string)
    ensures |r| <= |s| && r == s[..|r|]
    ensures r == [] || !IsSpace(r[|r| - 1])
    ensures forall i | |r| <= i < |s| :: IsSpace(s[i])
  {
    if s != [] && IsSpace(s[|s| - 1]) then TrimEnd(s[..|s| - 1]) else s
  }

  /** `s.trim()`: the text between the leading and the trailing blanks. */
  function Trim(s: string): (r: string)
    ensures |r| <= |s|
    ensures r == [] || (!IsSpace(r[0]) && !IsSpace(r[|r| - 1]))
  {
    TrimEnd(TrimStart(s))
  }

  /** A username trims to nothing exactly when it is all blanks. */
  lemma BlankIffSpaces(s: string)
    ensures Trim(s) == [] <==> forall i | 0 <= i < |s| :: IsSpace(s[i])
  {
    var t := TrimStart(s);
    if t != [] {
      assert !IsSpace(t[0]);
      assert TrimEnd(t) != [];
    }
  }

  predicate Blank(username: string) {
    Trim(username) == []
  }

  /** `address` is truthy. */
  predicate HasAddress(address: Option<string>) {
    address.Some? && address.value != ""
  }

  const UsernamePath := "/api/user-by-username?username="
  const CustodyPath := "/api/user-by-custody?custody_address="

  /** The two lookup URLs: by the trimmed username when it is not blank,
      by the custody address when the username is blank and an address is
      given; each is undefined otherwise. */
  function FetchUrls(username: string, address: Option<string>): (urls: (Option<string>, Option<string>))
    ensures urls.0.Some? <==> !Blank(username)
    ensures urls.0.Some? ==> urls.0.value == UsernamePath + Trim(username)
    ensures urls.1.Some? <==> Blank(username) && HasAddress(address)
    ensures urls.1.Some? ==> urls.1.value == CustodyPath + address.value
    ensures !(urls.0.Some? && urls.1.Some?)
  {
    var byUsername := if Trim(username) != "" then Some(UsernamePath + Trim(username)) else None;
    var byCustody := if Trim(username) == "" && HasAddress(address) then Some(CustodyPath + address.value) else None;
    (byUsername, byCustody)
  }

  /** Surrounding blanks never change the lookup by username. */
  lemma UsernameTrimmed(username: string, address: Option<string>)
    ensures FetchUrls(Trim(username), address) == FetchUrls(username, address)
  {
    TrimIdempotent(username);
  }

  lemma TrimIdempotent(s: string)
    ensures Trim(Trim(s)) == Trim(s)
  {
    var r := Trim(s);
    if r != [] {
      assert TrimStart(r) == r;
      assert TrimEnd(r) == r;
    }
  }

  /** `v.key` of a value that is neither undefined nor null. */
  function Prop(v: Value, key: string): Value {
    if v.Obj? then Lookup(v.props, key) else Undefined
  }

  predicate Nullish(v: Value) {
    v == Undefined || v == Null
  }

  /** `byUsername ? data.result.user : data.user`. */
  function BaseUser(data: Value, byUsername: bool): (r: Result<Value, string>)
    ensures byUsername ==> (r.Success? <==> !Nullish(data) && !Nullish(Prop(data, "result")))
    ensures !byUsername ==> (r.Success? <==> !Nullish(data))
    ensures r.Success? ==> r.value == (if byUsername then Prop(Prop(data, "result"), "user") else Prop(data, "user"))
  {
    if byUsername then
      var result :- Member(data, "result");
      Member(result, "user")
    else Member(data, "user")
  }

  /** normalizeUserData: the user object built from a lookup response. The
      reads throw a TypeError when the base user, its profile or the
      profile's bio is undefined or null. */
  function Normalize(data: Value, byUsername: bool): (r: Result<Value, string>)
    ensures r.Failure? <==>
      BaseUser(data, byUsername).Failure? ||
      Nullish(BaseUser(data, byUsername).value) ||
      Nullish(Prop(BaseUser(data, byUsername).value, "profile")) ||
      Nullish(Prop(Prop(BaseUser(data, byUsername).value, "profile"), "bio"))
    ensures r.Success? ==> r.value.Obj? && Keys(r.value.props) == Users.FieldNames
  {
    var b :- BaseUser(data, byUsername);
    var fid :- Member(b, "fid");
    var profile := Prop(b, "profile");
    var bio :- Member(profile, "bio");
    var text :- Member(bio, "text");
    var pfp := Prop(b, "pfp");
    Success(Obj([
      ("fid", fid),
      ("custodyAddress", Or(Prop(b, "custodyAddress"), Prop(b, "custody_address"))),
      ("username", Prop(b, "username")),
      ("displayName", Or(Prop(b, "displayName"), Prop(b, "display_name"))),
      ("pfpUrl", if Truthy(pfp) then Prop(pfp, "url") else Prop(b, "pfp_url")),
      ("bioText", text),
      ("followerCount", Or(Prop(b, "followerCount"), Prop(b, "follower_count"))),
      ("followingCount", Or(Prop(b, "followingCount"), Prop(b, "following_count"))),
      ("activeStatus", Or(Prop(b, "activeStatus"), Prop(b, "active_status"))),
      ("powerBadge", Prop(b, "powerBadge"))]))
  }

  /** Each member of the normalised object, read off the base user: the
      camelCase member unless it is falsy (0 and '' included), then the
      snake_case one; `pfp.url` when `pfp` is truthy, else `pfp_url`. */
  lemma NormalizeMembers(data: Value, byUsername: bool)
    requires Normalize(data, byUsername).Success?
    ensures var b := BaseUser(data, byUsername).value;
      var p := Normalize(data, byUsername).value.props;
      && p[0].1 == Prop(b, "fid")
      && (Truthy(Prop(b, "custodyAddress")) ==> p[1].1 == Prop(b, "custodyAddress"))
      && (!Truthy(Prop(b, "custodyAddress")) ==> p[1].1 == Prop(b, "custody_address"))
      && p[2].1 == Prop(b, "username")
      && (Truthy(Prop(b, "displayName")) ==> p[3].1 == Prop(b, "displayName"))
      && (!Truthy(Prop(b, "displayName")) ==> p[3].1 == Prop(b, "display_name"))
      && (Truthy(Prop(b, "pfp")) ==> p[4].1 == Prop(Prop(b, "pfp"), "url"))
      && (!Truthy(Prop(b, "pfp")) ==> p[4].1 == Prop(b, "pfp_url"))
      && p[5].1 == Prop(Prop(Prop(b, "profile"), "bio"), "text")
      && (Truthy(Prop(b, "followerCount")) ==> p[6].1 == Prop(b, "followerCount"))
      && (!Truthy(Prop(b, "followerCount")) ==> p[6].1 == Prop(b, "follower_count"))
      && (Truthy(Prop(b, "followingCount")) ==> p[7].1 == Prop(b, "followingCount"))
      && (!Truthy(Prop(b, "followingCount")) ==> p[7].1 == Prop(b, "following_count"))
      && (Truthy(Prop(b, "activeStatus")) ==> p[8].1 == Prop(b, "activeStatus"))
      && (!Truthy(Prop(b, "activeStatus")) ==> p[8].1 == Prop(b, "active_status"))
      && p[9].1 == Prop(b, "powerBadge")
  {
  }

  /** The normalised object as a user record (its members must have the
      declared types). */
  function Profile(data: Value, byUsername: bool): (r: Result<Users.User, string>)
    ensures r.Success? ==> Normalize(data, byUsername).Success?
  {
    var v :- Normalize(data, byUsername);
    Users.FromJs(v)
  }

  /** The members of a username-lookup user object, in camelCase; a member
      the user has no value for is undefined (and so absent, see CamelUser). */
  function CamelFull(u: Users.User): seq<(string, Value)> {
    [("fid", Num(u.fid)), ("custodyAddress", Users.OptStr(u.custodyAddress)), ("username", Str(u.username)),
     ("displayName", Users.OptStr(u.displayName)), ("pfp", Obj([("url", Str(u.pfpUrl))])),
     ("profile", Obj([("bio", Obj([("text", Str(u.bioText))]))])),
     ("followerCount", Users.OptNum(u.followerCount)), ("followingCount", Users.OptNum(u.followingCount)),
     ("activeStatus", Users.OptStr(u.activeStatus)), ("powerBadge", Users.OptBool(u.powerBadge))]
  }

  /** The user object of a username lookup. */
  function CamelUser(u: Users.User): Value {
    Obj(Defined(CamelFull(u)))
  }

  /** The members of a custody-lookup user object, in snake_case;
      `powerBadge` has no snake_case spelling. */
  function SnakeFull(u: Users.User): seq<(string, Value)> {
    [("fid", Num(u.fid)), ("custody_address", Users.OptStr(u.custodyAddress)), ("username", Str(u.username)),
     ("display_name", Users.OptStr(u.displayName)), ("pfp_url", Str(u.pfpUrl)),
     ("profile", Obj([("bio", Obj([("text", Str(u.bioText))]))])),
     ("follower_count", Users.OptNum(u.followerCount)), ("following_count", Users.OptNum(u.followingCount)),
     ("active_status", Users.OptStr(u.activeStatus)), ("powerBadge", Users.OptBool(u.powerBadge))]
  }

  /** The user object of a custody lookup. */
  function SnakeUser(u: Users.User): Value {
    Obj(Defined(SnakeFull(u)))
  }

  const CamelNames: seq<string> := ["fid", "custodyAddress", "username", "displayName", "pfp",
    "profile", "followerCount", "followingCount", "activeStatus", "powerBadge"]
  const SnakeNames: seq<string> := ["fid", "custody_address", "username", "display_name", "pfp_url",
    "profile", "follower_count", "following_count", "active_status", "powerBadge"]

  /** Told apart by length, or by the first letter where lengths agree. */
  lemma CamelNamesDistinct()
    ensures forall a, b | 0 <= a < b < |CamelNames| :: CamelNames[a] != CamelNames[b]
  {
    var lens := [3, 14, 8, 11, 3, 7, 13, 14, 12, 10];
    assert forall i | 0 <= i < 10 :: |CamelNames[i]| == lens[i];
    assert CamelNames[0][0] != CamelNames[4][0];
    assert CamelNames[1][0] != CamelNames[7][0];
  }

  lemma SnakeNamesDistinct()
    ensures forall a, b | 0 <= a < b < |SnakeNames| :: SnakeNames[a] != SnakeNames[b]
  {
    var lens := [3, 15, 8, 12, 7, 7, 14, 15, 13, 10];
    assert forall i | 0 <= i < 10 :: |SnakeNames[i]| == lens[i];
    assert SnakeNames[1][0] != SnakeNames[7][0];
    assert SnakeNames[4][1] != SnakeNames[5][1];
  }

  /** A member of an object with distinct keys is read the same once its
      undefined members are skipped. */
  lemma PropDefined(props: seq<(string, Value)>, names: seq<string>, key: string)
    requires Keys(props) == names
    requires forall a, b | 0 <= a < b < |names| :: names[a] != names[b]
    ensures Prop(Obj(Defined(props)), key) == Lookup(props, key)
  {
    assert forall i | 0 <= i < |props| :: props[i].0 == names[i];
    LookupDefined(props, key);
  }

  /** Each camelCase name finds its own member. */
  lemma CamelFullLookups(u: Users.User)
    ensures Lookup(CamelFull(u), "fid") == Num(u.fid)
    ensures Lookup(CamelFull(u), "custodyAddress") == Users.OptStr(u.custodyAddress)
    ensures Lookup(CamelFull(u), "username") == Str(u.username)
    ensures Lookup(CamelFull(u), "displayName") == Users.OptStr(u.displayName)
    ensures Lookup(CamelFull(u), "pfp") == Obj([("url", Str(u.pfpUrl))])
  {
    var p := CamelFull(u);
    assert Keys(p) == CamelNames;
    CamelNamesDistinct();
    LookupByKeys(p, CamelNames, 0); LookupByKeys(p, CamelNames, 1); LookupByKeys(p, CamelNames, 2); LookupByKeys(p, CamelNames, 3); LookupByKeys(p, CamelNames, 4);
  }

  lemma CamelFullLookupsRest(u: Users.User)
    ensures Lookup(CamelFull(u), "profile") == Obj([("bio", Obj([("text", Str(u.bioText))]))])
    ensures Lookup(CamelFull(u), "followerCount") == Users.OptNum(u.followerCount)
    ensures Lookup(CamelFull(u), "followingCount") == Users.OptNum(u.followingCount)
    ensures Lookup(CamelFull(u), "activeStatus") == Users.OptStr(u.activeStatus)
    ensures Lookup(CamelFull(u), "powerBadge") == Users.OptBool(u.powerBadge)
  {
    var p := CamelFull(u);
    assert Keys(p) == CamelNames;
    CamelNamesDistinct();
    LookupByKeys(p, CamelNames, 5); LookupByKeys(p, CamelNames, 6); LookupByKeys(p, CamelNames, 7); LookupByKeys(p, CamelNames, 8); LookupByKeys(p, CamelNames, 9);
  }

  lemma CamelUserMembers(u: Users.User)
    ensures var b := CamelUser(u);
      && Prop(b, "fid") == Num(u.fid) && Prop(b, "custodyAddress") == Users.OptStr(u.custodyAddress)
      && Prop(b, "username") == Str(u.username) && Prop(b, "displayName") == Users.OptStr(u.displayName)
      && Prop(b, "pfp") == Obj([("url", Str(u.pfpUrl))])
      && Prop(b, "profile") == Obj([("bio", Obj([("text", Str(u.bioText))]))])
      && Prop(b, "followerCount") == Users.OptNum(u.followerCount)
      && Prop(b, "followingCount") == Users.OptNum(u.followingCount)
      && Prop(b, "activeStatus") == Users.OptStr(u.activeStatus) && Prop(b, "powerBadge") == Users.OptBool(u.powerBadge)
  {
    var p := CamelFull(u);
    CamelFullLookups(u);
    CamelFullLookupsRest(u);
    assert Keys(p) == CamelNames;
    CamelNamesDistinct();
    PropDefined(p, CamelNames, "fid");
    PropDefined(p, CamelNames, "custodyAddress");
    PropDefined(p, CamelNames, "username");
    PropDefined(p, CamelNames, "displayName");
    PropDefined(p, CamelNames, "pfp");
    PropDefined(p, CamelNames, "profile");
    PropDefined(p, CamelNames, "followerCount");
    PropDefined(p, CamelNames, "followingCount");
    PropDefined(p, CamelNames, "activeStatus");
    PropDefined(p, CamelNames, "powerBadge");
  }

  /** Each snake_case name finds its own member. */
  lemma SnakeFullLookups(u: Users.User)
    ensures Lookup(SnakeFull(u), "fid") == Num(u.fid)
    ensures Lookup(SnakeFull(u), "custody_address") == Users.OptStr(u.custodyAddress)
    ensures Lookup(SnakeFull(u), "username") == Str(u.username)
    ensures Lookup(SnakeFull(u), "display_name") == Users.OptStr(u.displayName)
    ensures Lookup(SnakeFull(u), "pfp_url") == Str(u.pfpUrl)
  {
    var p := SnakeFull(u);
    assert Keys(p) == SnakeNames;
    SnakeNamesDistinct();
    LookupByKeys(p, SnakeNames, 0); LookupByKeys(p, SnakeNames, 1); LookupByKeys(p, SnakeNames, 2); LookupByKeys(p, SnakeNames, 3); LookupByKeys(p, SnakeNames, 4);
  }

  lemma SnakeFullLookupsRest(u: Users.User)
    ensures Lookup(SnakeFull(u), "profile") == Obj([("bio", Obj([("text", Str(u.bioText))]))])
    ensures Lookup(SnakeFull(u), "follower_count") == Users.OptNum(u.followerCount)
    ensures Lookup(SnakeFull(u), "following_count") == Users.OptNum(u.followingCount)
    ensures Lookup(SnakeFull(u), "active_status") == Users.OptStr(u.activeStatus)
    ensures Lookup(SnakeFull(u), "powerBadge") == Users.OptBool(u.powerBadge)
  {
    var p := SnakeFull(u);
    assert Keys(p) == SnakeNames;
    SnakeNamesDistinct();
    LookupByKeys(p, SnakeNames, 5); LookupByKeys(p, SnakeNames, 6); LookupByKeys(p, SnakeNames, 7); LookupByKeys(p, SnakeNames, 8); LookupByKeys(p, SnakeNames, 9);
  }

  lemma SnakeUserMembers(u: Users.User)
    ensures var b := SnakeUser(u);
      && Prop(b, "fid") == Num(u.fid) && Prop(b, "custody_address") == Users.OptStr(u.custodyAddress)
      && Prop(b, "username") == Str(u.username) && Prop(b, "display_name") == Users.OptStr(u.displayName)
      && Prop(b, "pfp_url") == Str(u.pfpUrl)
      && Prop(b, "profile") == Obj([("bio", Obj([("text", Str(u.bioText))]))])
      && Prop(b, "follower_count") == Users.OptNum(u.followerCount)
      && Prop(b, "following_count") == Users.OptNum(u.followingCount)
      && Prop(b, "active_status") == Users.OptStr(u.activeStatus) && Prop(b, "powerBadge") == Users.OptBool(u.powerBadge)
  {
    var p := SnakeFull(u);
    SnakeFullLookups(u);
    SnakeFullLookupsRest(u);
    assert Keys(p) == SnakeNames;
    SnakeNamesDistinct();
    PropDefined(p, SnakeNames, "fid");
    PropDefined(p, SnakeNames, "custody_address");
    PropDefined(p, SnakeNames, "username");
    PropDefined(p, SnakeNames, "display_name");
    PropDefined(p, SnakeNames, "pfp_url");
    PropDefined(p, SnakeNames, "profile");
    PropDefined(p, SnakeNames, "follower_count");
    PropDefined(p, SnakeNames, "following_count");
    PropDefined(p, SnakeNames, "active_status");
    PropDefined(p, SnakeNames, "powerBadge");
  }

  lemma SnakeUserLacks(u: Users.User, key: string)
    requires key !in SnakeNames
    ensures Prop(SnakeUser(u), key) == Undefined
  {
    var p := SnakeFull(u);
    assert Keys(p) == SnakeNames;
    SnakeNamesDistinct();
    LookupAbsent(p, SnakeNames, key);
    PropDefined(p, SnakeNames, key);
  }

  lemma SnakeUserLacksCamel(u: Users.User)
    ensures var b := SnakeUser(u);
      && Prop(b, "custodyAddress") == Undefined && Prop(b, "displayName") == Undefined
      && Prop(b, "pfp") == Undefined && Prop(b, "followerCount") == Undefined
      && Prop(b, "followingCount") == Undefined && Prop(b, "activeStatus") == Undefined
  {
    SnakeUserLacks(u, "custodyAddress");
    SnakeUserLacks(u, "displayName");
    SnakeUserLacks(u, "pfp");
    SnakeUserLacks(u, "followerCount");
    SnakeUserLacks(u, "followingCount");
    SnakeUserLacks(u, "activeStatus");
  }

  lemma CamelUserLacks(u: Users.User, key: string)
    requires key !in CamelNames
    ensures Prop(CamelUser(u), key) == Undefined
  {
    var p := CamelFull(u);
    assert Keys(p) == CamelNames;
    CamelNamesDistinct();
    LookupAbsent(p, CamelNames, key);
    PropDefined(p, CamelNames, key);
  }

  /** A username lookup has no snake_case member to fall back on. */
  lemma CamelUserLacksSnake(u: Users.User)
    ensures var b := CamelUser(u);
      && Prop(b, "custody_address") == Undefined && Prop(b, "display_name") == Undefined
      && Prop(b, "follower_count") == Undefined && Prop(b, "following_count") == Undefined
      && Prop(b, "active_status") == Undefined
  {
    CamelUserLacks(u, "custody_address");
    CamelUserLacks(u, "display_name");
    CamelUserLacks(u, "follower_count");
    CamelUserLacks(u, "following_count");
    CamelUserLacks(u, "active_status");
  }

  /** What `camel || snake_case` leaves of a member when the response has
      no snake_case twin: a falsy value ('' or 0) becomes undefined. */
  function TruthyStr(o: Option<string>): (r: Option<string>)
    ensures Users.OptStr(r) == Or(Users.OptStr(o), Undefined)
  {
    if o.Some? && o.value != "" then o else None
  }

  function TruthyNum(o: Option<int>): (r: Option<int>)
    ensures Users.OptNum(r) == Or(Users.OptNum(o), Undefined)
  {
    if o.Some? && o.value != 0 then o else None
  }

  /** The user a camelCase response is stored as: each `||` member with a
      falsy value is dropped. */
  function CamelStored(u: Users.User): Users.User {
    u.(custodyAddress := TruthyStr(u.custodyAddress), displayName := TruthyStr(u.displayName),
       followerCount := TruthyNum(u.followerCount), followingCount := TruthyNum(u.followingCount),
       activeStatus := TruthyStr(u.activeStatus))
  }

  /** A base user whose members (after each `||` and the `pfp` choice)
      are those of `w` normalises to `w`'s object. */
  lemma NormalizeGives(data: Value, byUsername: bool, b: Value, w: Users.User)
    requires BaseUser(data, byUsername) == Success(b)
    requires Prop(b, "fid") == Num(w.fid) && Prop(b, "username") == Str(w.username)
    requires Or(Prop(b, "custodyAddress"), Prop(b, "custody_address")) == Users.OptStr(w.custodyAddress)
    requires Or(Prop(b, "displayName"), Prop(b, "display_name")) == Users.OptStr(w.displayName)
    requires (if Truthy(Prop(b, "pfp")) then Prop(Prop(b, "pfp"), "url") else Prop(b, "pfp_url")) == Str(w.pfpUrl)
    requires Prop(b, "profile") == Obj([("bio", Obj([("text", Str(w.bioText))]))])
    requires Or(Prop(b, "followerCount"), Prop(b, "follower_count")) == Users.OptNum(w.followerCount)
    requires Or(Prop(b, "followingCount"), Prop(b, "following_count")) == Users.OptNum(w.followingCount)
    requires Or(Prop(b, "activeStatus"), Prop(b, "active_status")) == Users.OptStr(w.activeStatus)
    requires Prop(b, "powerBadge") == Users.OptBool(w.powerBadge)
    ensures Normalize(data, byUsername) == Success(Users.ToJs(w))
  {
    assert Prop(Prop(b, "profile"), "bio") == Obj([("text", Str(w.bioText))]);
  }

  lemma NormalizeCamel(u: Users.User)
    ensures Normalize(Obj([("result", Obj([("user", CamelUser(u))]))]), true) == Success(Users.ToJs(CamelStored(u)))
  {
    var data := Obj([("result", Obj([("user", CamelUser(u))]))]);
    CamelUserMembers(u);
    CamelUserLacksSnake(u);
    NormalizeGives(data, true, CamelUser(u), CamelStored(u));
  }

  lemma NormalizeSnake(u: Users.User)
    ensures Normalize(Obj([("user", SnakeUser(u))]), false) == Success(Users.ToJs(u))
  {
    var data := Obj([("user", SnakeUser(u))]);
    SnakeUserMembers(u);
    SnakeUserLacksCamel(u);
    NormalizeGives(data, false, SnakeUser(u), u);
  }

  /** A camelCase username-lookup response is stored as its user with the
      falsy `||` members dropped: a count of 0 or an empty display name,
      custody address or status has no snake_case twin to fall back on. */
  lemma UsernameResponseProfile(u: Users.User)
    ensures Profile(Obj([("result", Obj([("user", CamelUser(u))]))]), true) == Success(CamelStored(u))
  {
    NormalizeCamel(u);
    Users.FromJsToJs(CamelStored(u));
  }

  /** So a response whose `||` members are all truthy gives back its user. */
  lemma TruthyResponseProfile(u: Users.User)
    requires u.custodyAddress != Some("") && u.displayName != Some("") && u.activeStatus != Some("")
    requires u.followerCount != Some(0) && u.followingCount != Some(0)
    ensures Profile(Obj([("result", Obj([("user", CamelUser(u))]))]), true) == Success(u)
  {
    UsernameResponseProfile(u);
    assert CamelStored(u) == u;
  }

  /** A snake_case custody-lookup response gives back its user whatever its
      values (0 and '' included) and whichever optional members it lacks:
      the camelCase members `||` tries first are all absent. */
  lemma CustodyResponseProfile(u: Users.User)
    ensures Profile(Obj([("user", SnakeUser(u))]), false) == Success(u)
  {
    NormalizeSnake(u);
    Users.FromJsToJs(u);
  }

  /** `setUser(normalizeUserData(data, byUsername))` on the store. */
  function StoreProfile(st: SessionStore.Store, data: Value, byUsername: bool): (r: Result<SessionStore.Store, string>)
    ensures r.Success? <==> Profile(data, byUsername).Success?
    ensures r.Success? ==> r.value == SessionStore.AfterSetUser(st, Some(Profile(data, byUsername).value))
  {
    var u :- Profile(data, byUsername);
    Success(SessionStore.AfterSetUser(st, Some(u)))
  }

  /** The setUser effect: the username result first, then the custody
      result, then clearing the user when the username is blank and an
      address is given; otherwise nothing. */
  function UserEffect(st: SessionStore.Store, username: string, address: Option<string>,
                      byUsernameData: Value, byCustodyData: Value): (r: Result<SessionStore.Store, string>)
    ensures Truthy(byUsernameData) ==> r == StoreProfile(st, byUsernameData, true)
    ensures !Truthy(byUsernameData) && Truthy(byCustodyData) ==> r == StoreProfile(st, byCustodyData, false)
    ensures !Truthy(byUsernameData) && !Truthy(byCustodyData) && Blank(username) && HasAddress(address) ==>
      r == Success(st.(user := None))
    ensures !Truthy(byUsernameData) && !Truthy(byCustodyData) && !(Blank(username) && HasAddress(address)) ==>
      r == Success(st)
  {
    if Truthy(byUsernameData) then StoreProfile(st, byUsernameData, true)
    else if Truthy(byCustodyData) then StoreProfile(st, byCustodyData, false)
    else if Blank(username) && HasAddress(address) then Success(SessionStore.AfterSetUser(st, None))
    else Success(st)
  }

  /** A username result hides any custody result. */
  lemma UsernameResultWins(st: SessionStore.Store, username: string, address: Option<string>,
                           d: Value, c1: Value, c2: Value)
    requires Truthy(d)
    ensures UserEffect(st, username, address, d, c1) == UserEffect(st, username, address, d, c2)
  {
  }

  /** A stored profile also sets the store's fid to the profile's FID and
      writes the user under its key. */
  lemma StoredProfileSetsFid(st: SessionStore.Store, data: Value, byUsername: bool)
    requires StoreProfile(st, data, byUsername).Success?
    ensures var r := StoreProfile(st, data, byUsername).value;
      var u := Profile(data, byUsername).value;
      r.user == Some(u) && r.fid == Some(u.fid) &&
      SessionStore.UserKey in r.storage && r.storage[SessionStore.UserKey] == Users.Encode(u)
  {
    SessionStore.SetUserEffects(st, Some(Profile(data, byUsername).value));
  }

  /** The setUser effect run on the provider's state. */
  method ApplyUserEffect(session: SessionStore.Session, username: string, address: Option<string>,
                         byUsernameData: Value, byCustodyData: Value) returns (r: Result<(), string>)
    modifies session
    ensures var e := UserEffect(old(session.Model()), username, address, byUsernameData, byCustodyData);
      (r.Success? <==> e.Success?) && (r.Success? ==> session.Model() == e.value)
    ensures r.Failure? ==> session.Model() == old(session.Model())
  {
    ghost var st := session.Model();
    if Truthy(byUsernameData) || Truthy(byCustodyData) {
      var byUsername := Truthy(byUsernameData);
      var data := if byUsername then byUsernameData else byCustodyData;
      assert UserEffect(st, username, address, byUsernameData, byCustodyData) == StoreProfile(st, data, byUsername);
      var u := Profile(data, byUsername);
      if u.Failure? {
        return Failure(u.error);
      }
      session.SetUser(Some(u.value));
    } else if Blank(username) && HasAddress(address) {
      session.SetUser(None);
    }
    return Success(());
  }

  /** The refetch effect: with a blank username and an address it fetches
      the custody URL and stores the profile of an ok response. Returns the
      URL fetched. */
  method RefetchCustody(session: SessionStore.Session, username: string, address: Option<string>,
                        response: Option<Value>) returns (fetched: Option<string>, r: Result<(), string>)
    modifies session
    ensures fetched == FetchUrls(username, address).1
    ensures fetched.None? || response.None? ==> r.Success? && session.Model() == old(session.Model())
    ensures fetched.Some? && response.Some? ==>
      var e := StoreProfile(old(session.Model()), response.value, false);
      (r.Success? <==> e.Success?) && (r.Success? ==> session.Model() == e.value)
    ensures r.Failure? ==> session.Model() == old(session.Model())
  {
    if !(Blank(username) && HasAddress(address)) {
      return None, Success(());
    }
    fetched := Some(CustodyPath + address.value);
    if response.None? {
      return fetched, Success(());
    }
    var u := Profile(response.value, false);
    if u.Failure? {
      return fetched, Failure(u.error);
    }
    session.SetUser(Some(u.value));
    return fetched, Success(());
  }

  const MissingInputWarning := "Please provide a username or connect your address."

  /** Only the warning is rendered without an address and with a blank
      username. */
  function ShowsWarning(username: string, address: Option<string>): (warn: bool)
    ensures warn <==> !HasAddress(address) && Blank(username)
  {
    !HasAddress(address) && Trim(username) == ""
  }

  /** The warning shows exactly when neither lookup has a URL. */
  lemma WarningIffNoLookup(username: string, address: Option<string>)
    ensures ShowsWarning(username, address) <==> FetchUrls(username, address) == (None, None)
  {
  }

  /** `@${user?.username || ''} - ${user?.displayName || ''}`. */
  function Title(user: Option<Users.User>): (title: string)
    ensures user.None? ==> title == "@ - "
    ensures user.Some? && user.value.displayName.Some? ==>
      title == "@" + user.value.username + " - " + user.value.displayName.value
    ensures user.Some? && user.value.displayName.None? ==> title == "@" + user.value.username + " - "
  {
    var name := if user.Some? then user.value.username else "";
    var display := if user.Some? && user.value.displayName.Some? then user.value.displayName.value else "";
    "@" + name + " - " + display
  }
}
