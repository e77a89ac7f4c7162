/** JSON.stringify and JSON.parse over Js values, as the session store uses them
    for the persisted profile, fid and timestamp.  Numbers are integers; the
    parser rejects fractions and exponents, which no modelled writer produces. */
module Json {
  import opened Wrappers
  import opened Js
  import Decimal

  /** The values JSON.stringify writes out and JSON.parse gives back unchanged:
      no undefined and no bigint anywhere, and no object with two members of
      the same name. */
  predicate IsJson(v: Value)
    decreases v
  {
    match v
    case Undefined => false
    case BigInt(_) => false
    case Arr(items) => forall i | 0 <= i < |items| :: IsJson(items[i])
    case Obj(props) => DistinctKeys(props) && forall i | 0 <= i < |props| :: IsJson(props[i].1)
    case _ => true
  }

  predicate DistinctKeys(props: seq<(string, Value)>) {
    forall i, j | 0 <= i < j < |props| :: props[i].0 != props[j].0
  }

  /** An object whose members are JSON values or undefined, with distinct
      keys, becomes a JSON value once its undefined members are skipped. */
  lemma DefinedIsJson(props: seq<(string, Value)>)
    requires DistinctKeys(props)
    requires forall i | 0 <= i < |props| :: props[i].1 == Undefined || IsJson(props[i].1)
    ensures IsJson(Obj(Defined(props)))
  {
    DefinedDistinct(props);
    DefinedMembers(props);
    var d := Defined(props);
    forall i | 0 <= i < |d| ensures IsJson(d[i].1) {
      assert d[i] in props;
    }
  }

  // ---------------------------------------------------------------- writing

  function HexDigit(d: nat): (c: char)
    requires d < 16
    ensures IsHex(c) && HexValue(c) == d
  {
    if d < 10 then ('0' as int + d) as char else ('a' as int + d - 10) as char
  }

  /** How JSON.stringify writes one character of a string. */
  function EscapeChar(c: char): string {
    if c == '"' then ['\\', '"']
    else if c == '\\' then ['\\', '\\']
    else if c as int == 0x08 then ['\\', 'b']
    else if c as int == 0x0C then ['\\', 'f']
    else if c == '\n' then ['\\', 'n']
    else if c == '\r' then ['\\', 'r']
    else if c == '\t' then ['\\', 't']
    else if c as int < 0x20 then ['\\', 'u', '0', '0', HexDigit(c as int / 16), HexDigit(c as int % 16)]
    else [c]
  }

  function Escape(s: string): string {
    if s == [] then [] else EscapeChar(s[0]) + Escape(s[1..])
  }

  function Quote(s: string): string {
    "\"" + Escape(s) + "\""
  }

  function SerializeNumber(n: int): string {
    if n < 0 then "-" + Decimal.Digits(-n) else Decimal.Digits(n)
  }

  /** JSON.stringify without indentation. */
  function Serialize(v: Value): string
    requires IsJson(v)
    decreases v
  {
    match v
    case Null => "null"
    case Bool(b) => if b then "true" else "false"
    case Num(n) => SerializeNumber(n)
    case Str(s) => Quote(s)
    case Arr(items) => "[" + SerializeItems(items) + "]"
    case Obj(props) => "{" + SerializeMembers(props) + "}"
  }

  function SerializeItems(items: seq<Value>): string
    requires forall i | 0 <= i < |items| :: IsJson(items[i])
    decreases items
  {
    if items == [] then ""
    else Serialize(items[0]) + (if |items| == 1 then "" else "," + SerializeItems(items[1..]))
  }

  function SerializeMembers(props: seq<(string, Value)>): string
    requires forall i | 0 <= i < |props| :: IsJson(props[i].1)
    decreases props
  {
    if props == [] then ""
    else
      assert props[0].1 < props[0];
      Quote(props[0].0) + ":" + Serialize(props[0].1)
      + (if |props| == 1 then "" else "," + SerializeMembers(props[1..]))
  }

  // ---------------------------------------------------------------- reading

  predicate IsWs(c: char) {
    c == ' ' || c == '\t' || c == '\n' || c == '\r'
  }

  predicate IsHex(c: char) {
    Decimal.IsDigit(c) || 'a' <= c <= 'f' || 'A' <= c <= 'F'
  }

  function HexValue(c: char): (d: nat)
    requires IsHex(c)
    ensures d < 16
  {
    if Decimal.IsDigit(c) then c as int - '0' as int
    else if 'a' <= c <= 'f' then c as int - 'a' as int + 10
    else c as int - 'A' as int + 10
  }

  function SkipWs(s: string): (r: string)
    ensures |r| <= |s|
  {
    if s != [] && IsWs(s[0]) then SkipWs(s[1..]) else s
  }

  lemma SkipWsStops(s: string)
    requires s != [] && !IsWs(s[0])
    ensures SkipWs(s) == s
  {
  }

  /** The number of digits `s` starts with. */
  function DigitRun(s: string): (d: nat)
    ensures d <= |s| && Decimal.AllDigits(s[..d])
    ensures d < |s| ==> !Decimal.IsDigit(s[d])
  {
    if s != [] && Decimal.IsDigit(s[0]) then
      var d := 1 + DigitRun(s[1..]);
      assert s[..d] == [s[0]] + s[1..][..d - 1];
      d
    else 0
  }

  function ParseLiteral(s: string, word: string, v: Value): (r: Result<(Value, string), string>)
    requires |word| > 0
    ensures r.Success? ==> |r.value.1| < |s|
  {
    if |word| <= |s| && s[..|word|] == word then Success((v, s[|word|..]))
    else Failure("Unexpected token in JSON")
  }

  function ParseNumber(s: string): (r: Result<(Value, string), string>)
    ensures r.Success? ==> |r.value.1| < |s|
  {
    var neg := s != [] && s[0] == '-';
    var u := if neg then s[1..] else s;
    var d := DigitRun(u);
    if d == 0 then Failure("No number after minus sign in JSON")
    else if d > 1 && u[0] == '0' then Failure("Unexpected number in JSON")
    else if d < |u| && (u[d] == '.' || u[d] == 'e' || u[d] == 'E') then Failure("Non-integer numbers are not modelled")
    else
      var m: int := Decimal.Value(u[..d]);
      Success((Num(if neg then -m else m), u[d..]))
  }

  function ParseEscape(s: string): (r: Result<(char, string), string>)
    ensures r.Success? ==> |r.value.1| < |s|
  {
    if s == [] then Failure("Bad escaped character in JSON")
    else if s[0] == '"' then Success(('"', s[1..]))
    else if s[0] == '\\' then Success(('\\', s[1..]))
    else if s[0] == '/' then Success(('/', s[1..]))
    else if s[0] == 'b' then Success((0x08 as char, s[1..]))
    else if s[0] == 'f' then Success((0x0C as char, s[1..]))
    else if s[0] == 'n' then Success(('\n', s[1..]))
    else if s[0] == 'r' then Success(('\r', s[1..]))
    else if s[0] == 't' then Success(('\t', s[1..]))
    else if s[0] == 'u' && |s| >= 5 && IsHex(s[1]) && IsHex(s[2]) && IsHex(s[3]) && IsHex(s[4]) then
      var code := 4096 * HexValue(s[1]) + 256 * HexValue(s[2]) + 16 * HexValue(s[3]) + HexValue(s[4]);
      if 0xD800 <= code <= 0xDFFF then Failure("Surrogate escapes are not modelled")
      else Success((code as char, s[5..]))
    else Failure("Bad escaped character in JSON")
  }

  /** The rest of a string literal after its opening quote. */
  function ParseStringBody(s: string): (r: Result<(string, string), string>)
    ensures r.Success? ==> |r.value.1| < |s|
    decreases |s|
  {
    if s == [] then Failure("Unterminated string in JSON")
    else if s[0] == '"' then Success(([], s[1..]))
    else if s[0] == '\\' then
      var e :- ParseEscape(s[1..]);
      var q :- ParseStringBody(e.1);
      Success(([e.0] + q.0, q.1))
    else if s[0] as int < 0x20 then Failure("Bad control character in string literal in JSON")
    else
      var q :- ParseStringBody(s[1..]);
      Success(([s[0]] + q.0, q.1)) 
  }

  /** Object members in the order JSON.parse creates them: a repeated name keeps
      its first position and takes the last value. */
  function Put(props: seq<(string, Value)>, key: string, v: Value): seq<(string, Value)> {
    if props == [] then [(key, v)]
    else if props[0].0 == key then [(key, v)] + props[1..]
    else [props[0]] + Put(props[1..], key, v)
  }

  function Assemble(pairs: seq<(string, Value)>): seq<(string, Value)> {
    if pairs == [] then [] else Put(Assemble(pairs[..|pairs| - 1]), pairs[|pairs| - 1].0, pairs[|pairs| - 1].1)
  }

  function ParseValue(s: string): (r: Result<(Value, string), string>)
    ensures r.Success? ==> |r.value.1| < |s|
    decreases |s|, 0
  {
    var t := SkipWs(s);
    if t == [] then Failure("Unexpected end of JSON input")
    else if t[0] == 'n' then ParseLiteral(t, "null", Null)
    else if t[0] == 't' then ParseLiteral(t, "true", Bool(true))
    else if t[0] == 'f' then ParseLiteral(t, "false", Bool(false))
    else if t[0] == '-' || Decimal.IsDigit(t[0]) then ParseNumber(t)
    else if t[0] == '"' then ParseString(t[1..])
    else if t[0] == '[' then ParseArray(t[1..])
    else if t[0] == '{' then ParseObject(t[1..])
    else Failure("Unexpected token in JSON")
  }

  /** A string value, after its opening quote. */
  function ParseString(s: string): (r: Result<(Value, string), string>)
    ensures r.Success? ==> |r.value.1| < |s|
  {
    var q :- ParseStringBody(s);
    Success((Str(q.0), q.1))
  }

  /** An array, after its opening bracket. */
  function ParseArray(s: string): (r: Result<(Value, string), string>)
    ensures r.Success? ==> |r.value.1| < |s|
    decreases |s|, 2
  {
    var u := SkipWs(s);
    if u != [] && u[0] == ']' then Success((Arr([]), u[1..]))
    else
      var q :- ParseItems(u);
      Success((Arr(q.0), q.1))
  }

  /** An object, after its opening brace. */
  function ParseObject(s: string): (r: Result<(Value, string), string>)
    ensures r.Success? ==> |r.value.1| < |s|
    decreases |s|, 3
  {
    var u := SkipWs(s);
    if u != [] && u[0] == '}' then Success((Obj([]), u[1..]))
    else
      var q :- ParseMembers(u);
      Success((Obj(Assemble(q.0)), q.1))
  }

  /** Array elements up to and including the closing bracket. */
  function ParseItems(s: string): (r: Result<(seq<Value>, string), string>)
    ensures r.Success? ==> |r.value.1| < |s|
    decreases |s|, 1
  {
    var p :- ParseValue(s);
    var u := SkipWs(p.1);
    if u == [] then Failure("Unterminated array in JSON")
    else if u[0] == ',' then
      var q :- ParseItems(u[1..]);
      Success(([p.0] + q.0, q.1))
    else if u[0] == ']' then Success(([p.0], u[1..]))
    else Failure("Unexpected token in JSON array")
  }

  /** One object member: a name, a colon and a value. */
  function ParseMember(s: string): (r: Result<((string, Value), string), string>)
    ensures r.Success? ==> |r.value.1| < |s|
    decreases |s|, 1
  {
    var u := SkipWs(s);
    if u == [] || u[0] != '"' then Failure("Expected property name in JSON")
    else
      var k :- ParseStringBody(u[1..]);
      var w := SkipWs(k.1);
      if w == [] || w[0] != ':' then Failure("Expected ':' after property name in JSON")
      else
        var p :- ParseValue(w[1..]);
        Success(((k.0, p.0), p.1))
  }

  /** Object members up to and including the closing brace. */
  function ParseMembers(s: string): (r: Result<(seq<(string, Value)>, string), string>)
    ensures r.Success? ==> |r.value.1| < |s|
    decreases |s|, 2
  {
    var m :- ParseMember(s);
    var x := SkipWs(m.1);
    if x == [] then Failure("Unterminated object in JSON")
    else if x[0] == ',' then
      var q :- ParseMembers(x[1..]);
      Success(([m.0] + q.0, q.1))
    else if x[0] == '}' then Success(([m.0], x[1..]))
    else Failure("Unexpected token in JSON object")
  }

  /** JSON.parse: one value, surrounded by nothing but whitespace. */
  function Parse(s: string): Result<Value, string> {
    var p :- ParseValue(s);
    if SkipWs(p.1) == [] then Success(p.0) else Failure("Unexpected non-whitespace character after JSON")
  }

  // ---------------------------------------------------------------- round trip

  /** What can come right after a value inside a document JSON.stringify wrote. */
  predicate Follows(rest: string) {
    rest == [] || rest[0] == ',' || rest[0] == ']' || rest[0] == '}'
  }

  lemma {:induction false} EscapeCharRoundTrip(c: char, tail: string, t: string, rest: string)
    requires ParseStringBody(tail) == Success((t, rest))
    ensures ParseStringBody(EscapeChar(c) + tail) == Success(([c] + t, rest))
  {
    var e := EscapeChar(c) + tail;
    if EscapeChar(c) == [c] {
      assert e == [c] + tail;
      assert e[1..] == tail;
    } else if c as int < 0x20 && c != '\n' && c != '\r' && c != '\t' && c as int != 0x08 && c as int != 0x0C {
      var hi, lo := HexDigit(c as int / 16), HexDigit(c as int % 16);
      assert e == ['\\', 'u', '0', '0', hi, lo] + tail;
      var x := e[1..];
      assert x[1] == '0' && x[2] == '0' && x[3] == hi && x[4] == lo && x[5..] == tail;
      assert 16 * HexValue(hi) + HexValue(lo) == c as int;
      assert ParseEscape(x) == Success((c, tail));
    } else {
      assert |EscapeChar(c)| == 2;
      assert e == [EscapeChar(c)[0], EscapeChar(c)[1]] + tail;
      assert e[1..][1..] == tail;
    }
  }

  /** A string literal JSON.stringify wrote reads back as the same string. */
  lemma {:induction false} StringRoundTrip(s: string, rest: string)
    ensures ParseStringBody(Escape(s) + "\"" + rest) == Success((s, rest))
    decreases |s|
  {
    if s == [] {
      assert Escape(s) + "\"" + rest == "\"" + rest;
    } else {
      var tail := Escape(s[1..]) + "\"" + rest;
      assert Escape(s) + "\"" + rest == EscapeChar(s[0]) + tail;
      StringRoundTrip(s[1..], rest);
      EscapeCharRoundTrip(s[0], tail, s[1..], rest);
      assert [s[0]] + s[1..] == s;
    }
  }

  lemma {:induction false} DigitRunOf(ds: string, rest: string)
    requires Decimal.AllDigits(ds)
    requires rest == [] || !Decimal.IsDigit(rest[0])
    ensures DigitRun(ds + rest) == |ds|
    decreases |ds|
  {
    if ds != [] {
      assert (ds + rest)[1..] == ds[1..] + rest;
      DigitRunOf(ds[1..], rest);
    }
  }

  lemma {:induction false} DigitsRoundTrip(m: nat, rest: string)
    requires Follows(rest)
    ensures var u := Decimal.Digits(m) + rest;
      DigitRun(u) == |Decimal.Digits(m)| && u[..|Decimal.Digits(m)|] == Decimal.Digits(m) &&
      u[|Decimal.Digits(m)|..] == rest && Decimal.Value(Decimal.Digits(m)) == m
  {
    var ds := Decimal.Digits(m);
    DigitRunOf(ds, rest);
    Decimal.ValueOfDigits(m);
    assert (ds + rest)[..|ds|] == ds;
    assert (ds + rest)[|ds|..] == rest;
  }

  lemma {:induction false} UnsignedRoundTrip(m: nat, rest: string)
    requires Follows(rest)
    ensures ParseNumber(Decimal.Digits(m) + rest) == Success((Num(m), rest))
  {
    var ds := Decimal.Digits(m);
    DigitsRoundTrip(m, rest);
    assert (ds + rest)[0] == ds[0];
    assert |ds| < |ds + rest| ==> (ds + rest)[|ds|] == rest[0];
  }

  lemma {:induction false} NegativeRoundTrip(m: nat, rest: string)
    requires Follows(rest) && m > 0
    ensures ParseNumber("-" + Decimal.Digits(m) + rest) == Success((Num(-(m as int)), rest))
  {
    var ds := Decimal.Digits(m);
    var u := ds + rest;
    var s := "-" + Decimal.Digits(m) + rest;
    DigitsRoundTrip(m, rest);
    assert s == ['-'] + u;
    assert s[1..] == u;
    assert u[0] == ds[0];
    assert |ds| < |u| ==> u[|ds|] == rest[0];
  }

  lemma {:induction false} NumberRoundTrip(n: int, rest: string)
    requires Follows(rest)
    ensures ParseNumber(SerializeNumber(n) + rest) == Success((Num(n), rest))
  {
    if n < 0 {
      NegativeRoundTrip(-n, rest);
    } else {
      UnsignedRoundTrip(n, rest);
    }
  }

  lemma {:induction false} LiteralRoundTrip(word: string, v: Value, rest: string)
    requires |word| > 0
    ensures ParseLiteral(word + rest, word, v) == Success((v, rest))
  {
    assert (word + rest)[..|word|] == word;
    assert (word + rest)[|word|..] == rest;
  }

  lemma {:induction false} SerializeStart(v: Value)
    requires IsJson(v)
    ensures |Serialize(v)| > 0
    ensures var c := Serialize(v)[0];
      !IsWs(c) && c != ']' && c != '}' &&
      match v
      case Null => c == 'n'
      case Bool(b) => c == (if b then 't' else 'f')
      case Num(_) => c == '-' || Decimal.IsDigit(c)
      case Str(_) => c == '"'
      case Arr(_) => c == '['
      case Obj(_) => c == '{'
  {
    match v
    case Num(n) =>
      if n >= 0 {
        assert Decimal.IsDigit(Decimal.Digits(n)[0]);
      }
    case _ =>
  }

  /** ParseValue, once the first character is known. */
  lemma ParseValueAt(s: string)
    requires s != [] && !IsWs(s[0])
    ensures s[0] == 'n' ==> ParseValue(s) == ParseLiteral(s, "null", Null)
    ensures s[0] == 't' ==> ParseValue(s) == ParseLiteral(s, "true", Bool(true))
    ensures s[0] == 'f' ==> ParseValue(s) == ParseLiteral(s, "false", Bool(false))
    ensures (s[0] == '-' || Decimal.IsDigit(s[0])) ==> ParseValue(s) == ParseNumber(s)
    ensures s[0] == '"' ==> ParseValue(s) == ParseString(s[1..])
    ensures s[0] == '[' ==> ParseValue(s) == ParseArray(s[1..])
    ensures s[0] == '{' ==> ParseValue(s) == ParseObject(s[1..])
  {
    SkipWsStops(s);
  }

  lemma {:induction false} ScalarRoundTrip(v: Value, rest: string)
    requires IsJson(v) && Follows(rest) && !v.Arr? && !v.Obj?
    ensures ParseValue(Serialize(v) + rest) == Success((v, rest))
  {
    var s := Serialize(v) + rest;
    SerializeStart(v);
    assert s[0] == Serialize(v)[0];
    ParseValueAt(s);
    match v
    case Null => LiteralRoundTrip("null", Null, rest);
    case Bool(b) =>
      if b { LiteralRoundTrip("true", v, rest); } else { LiteralRoundTrip("false", v, rest); }
    case Num(n) => NumberRoundTrip(n, rest);
    case Str(str) =>
      assert s == "\"" + (Escape(str) + "\"" + rest);
      assert s[1..] == Escape(str) + "\"" + rest;
      StringRoundTrip(str, rest);
  }

  /** JSON.parse gives back in full what JSON.stringify wrote, followed by `rest`. */
  lemma {:induction false} ValueRoundTrip(v: Value, rest: string)
    requires IsJson(v) && Follows(rest)
    ensures ParseValue(Serialize(v) + rest) == Success((v, rest))
    decreases v, 0
  {
    var s := Serialize(v) + rest;
    match v
    case Arr(items) =>
      var body := SerializeItems(items) + "]" + rest;
      assert s == "[" + body;
      ParseValueAt(s);
      assert s[1..] == body;
      ArrayRoundTrip(items, rest);
    case Obj(props) =>
      var body := SerializeMembers(props) + "}" + rest;
      assert s == "{" + body;
      ParseValueAt(s);
      assert s[1..] == body;
      ObjectRoundTrip(props, rest);
    case _ =>
      ScalarRoundTrip(v, rest);
  }

  lemma {:induction false} ArrayRoundTrip(items: seq<Value>, rest: string)
    requires forall i | 0 <= i < |items| :: IsJson(items[i])
    requires Follows(rest)
    ensures ParseArray(SerializeItems(items) + "]" + rest) == Success((Arr(items), rest))
    decreases items, 2
  {
    var body := SerializeItems(items) + "]" + rest;
    if items == [] {
      assert body == "]" + rest;
    } else {
      SerializeStart(items[0]);
      assert body[0] == Serialize(items[0])[0];
      SkipWsStops(body);
      ItemsRoundTrip(items, rest);
    }
  }

  lemma ParseItemsLast(s: string, v: Value, rest: string)
    requires ParseValue(s) == Success((v, "]" + rest))
    ensures ParseItems(s) == Success(([v], rest))
  {
    SkipWsStops("]" + rest);
  }

  lemma ParseItemsNext(s: string, v: Value, tail: string, vs: seq<Value>, rest: string)
    requires ParseValue(s) == Success((v, "," + tail))
    requires ParseItems(tail) == Success((vs, rest))
    ensures ParseItems(s) == Success(([v] + vs, rest))
  {
    SkipWsStops("," + tail);
    assert ("," + tail)[1..] == tail;
  }

  lemma {:induction false} ItemsRoundTrip(items: seq<Value>, rest: string)
    requires items != [] && forall i | 0 <= i < |items| :: IsJson(items[i])
    requires Follows(rest)
    ensures ParseItems(SerializeItems(items) + "]" + rest) == Success((items, rest))
    decreases items, 1
  {
    if |items| == 1 {
      LastItemRoundTrip(items, rest);
    } else {
      NextItemRoundTrip(items, rest);
    }
  }

  lemma {:induction false} LastItemRoundTrip(items: seq<Value>, rest: string)
    requires |items| == 1 && IsJson(items[0]) && Follows(rest)
    ensures ParseItems(SerializeItems(items) + "]" + rest) == Success((items, rest))
    decreases items, 0
  {
    var s := SerializeItems(items) + "]" + rest;
    assert s == Serialize(items[0]) + ("]" + rest);
    ValueRoundTrip(items[0], "]" + rest);
    ParseItemsLast(s, items[0], rest);
    assert items == [items[0]];
  }

  lemma {:induction false} NextItemRoundTrip(items: seq<Value>, rest: string)
    requires |items| > 1 && forall i | 0 <= i < |items| :: IsJson(items[i])
    requires Follows(rest)
    ensures ParseItems(SerializeItems(items) + "]" + rest) == Success((items, rest))
    decreases items, 0
  {
    var s := SerializeItems(items) + "]" + rest;
    var tail := SerializeItems(items[1..]) + "]" + rest;
    assert s == Serialize(items[0]) + ("," + tail);
    ValueRoundTrip(items[0], "," + tail);
    ItemsRoundTrip(items[1..], rest);
    ParseItemsNext(s, items[0], tail, items[1..], rest);
    assert [items[0]] + items[1..] == items;
  }

  lemma {:induction false} ObjectRoundTrip(props: seq<(string, Value)>, rest: string)
    requires DistinctKeys(props) && forall i | 0 <= i < |props| :: IsJson(props[i].1)
    requires Follows(rest)
    ensures ParseObject(SerializeMembers(props) + "}" + rest) == Success((Obj(props), rest))
    decreases props, 2
  {
    var body := SerializeMembers(props) + "}" + rest;
    if props == [] {
      assert body == "}" + rest;
    } else {
      assert body[0] == '"';
      SkipWsStops(body);
      MembersRoundTrip(props, rest);
      AssembleDistinct(props);
    }
  }

  lemma ParseMemberShape(s: string, key: string, after: string, v: Value, rest: string)
    requires s != [] && s[0] == '"'
    requires ParseStringBody(s[1..]) == Success((key, ":" + after))
    requires ParseValue(after) == Success((v, rest))
    ensures ParseMember(s) == Success(((key, v), rest))
  {
    SkipWsStops(s);
    SkipWsStops(":" + after);
    assert (":" + after)[1..] == after;
  }

  lemma {:induction false} MemberRoundTrip(key: string, v: Value, rest: string)
    requires IsJson(v) && Follows(rest)
    ensures ParseMember(Quote(key) + ":" + Serialize(v) + rest) == Success(((key, v), rest))
    decreases v, 1
  {
    var s := Quote(key) + ":" + Serialize(v) + rest;
    var after := Serialize(v) + rest;
    assert s == "\"" + (Escape(key) + "\"" + (":" + after));
    assert s[1..] == Escape(key) + "\"" + (":" + after);
    StringRoundTrip(key, ":" + after);
    ValueRoundTrip(v, rest);
    ParseMemberShape(s, key, after, v, rest);
  }

  lemma ParseMembersLast(s: string, m: (string, Value), rest: string)
    requires ParseMember(s) == Success((m, "}" + rest))
    ensures ParseMembers(s) == Success(([m], rest))
  {
    SkipWsStops("}" + rest);
  }

  lemma ParseMembersNext(s: string, m: (string, Value), tail: string, ms: seq<(string, Value)>, rest: string)
    requires ParseMember(s) == Success((m, "," + tail))
    requires ParseMembers(tail) == Success((ms, rest))
    ensures ParseMembers(s) == Success(([m] + ms, rest))
  {
    SkipWsStops("," + tail);
    assert ("," + tail)[1..] == tail;
  }

  lemma {:induction false} MembersRoundTrip(props: seq<(string, Value)>, rest: string)
    requires props != [] && forall i | 0 <= i < |props| :: IsJson(props[i].1)
    requires Follows(rest)
    ensures ParseMembers(SerializeMembers(props) + "}" + rest) == Success((props, rest))
    decreases props, 1
  {
    if |props| == 1 {
      LastMemberRoundTrip(props, rest);
    } else {
      NextMemberRoundTrip(props, rest);
    }
  }

  lemma {:induction false} LastMemberRoundTrip(props: seq<(string, Value)>, rest: string)
    requires |props| == 1 && IsJson(props[0].1) && Follows(rest)
    ensures ParseMembers(SerializeMembers(props) + "}" + rest) == Success((props, rest))
    decreases props, 0
  {
    var s := SerializeMembers(props) + "}" + rest;
    var m := Quote(props[0].0) + ":" + Serialize(props[0].1);
    assert props[0].1 < props[0];
    assert s == m + ("}" + rest);
    MemberRoundTrip(props[0].0, props[0].1, "}" + rest);
    ParseMembersLast(s, (props[0].0, props[0].1), rest);
    assert props == [(props[0].0, props[0].1)];
  }

  lemma {:induction false} NextMemberRoundTrip(props: seq<(string, Value)>, rest: string)
    requires |props| > 1 && forall i | 0 <= i < |props| :: IsJson(props[i].1)
    requires Follows(rest)
    ensures ParseMembers(SerializeMembers(props) + "}" + rest) == Success((props, rest))
    decreases props, 0
  {
    var s := SerializeMembers(props) + "}" + rest;
    var m := Quote(props[0].0) + ":" + Serialize(props[0].1);
    var tail := SerializeMembers(props[1..]) + "}" + rest;
    assert props[0].1 < props[0];
    assert s == m + ("," + tail);
    MemberRoundTrip(props[0].0, props[0].1, "," + tail);
    MembersRoundTrip(props[1..], rest);
    ParseMembersNext(s, (props[0].0, props[0].1), tail, props[1..], rest);
    assert [(props[0].0, props[0].1)] + props[1..] == props;
  }

  lemma {:induction false} PutNew(props: seq<(string, Value)>, key: string, v: Value)
    requires forall i | 0 <= i < |props| :: props[i].0 != key
    ensures Put(props, key, v) == props + [(key, v)]
  {
    if props != [] {
      PutNew(props[1..], key, v);
    }
  }

  /** Members with distinct names are kept as they are, in order. */
  lemma {:induction false} AssembleDistinct(pairs: seq<(string, Value)>)
    requires DistinctKeys(pairs)
    ensures Assemble(pairs) == pairs
    decreases |pairs|
  {
    if pairs != [] {
      var init := pairs[..|pairs| - 1];
      assert DistinctKeys(init);
      AssembleDistinct(init);
      PutNew(init, pairs[|pairs| - 1].0, pairs[|pairs| - 1].1);
      assert init + [pairs[|pairs| - 1]] == pairs;
    }
  }

  /** JSON.parse(JSON.stringify(v)) is v. */
  lemma ParseSerialize(v: Value)
    requires IsJson(v)
    ensures Parse(Serialize(v)) == Success(v)
  {
    ValueRoundTrip(v, []);
    assert Serialize(v) + [] == Serialize(v);
  }
}
