/** The JavaScript values the components handle: API responses, the typed-data
    payload, JSON documents and contract-call arguments.  Numbers are integers:
    fractions, NaN and the infinities do not occur in the modelled paths. */
module Js {
  import opened Wrappers

  datatype Value =
    | Undefined
    | Null
    | Bool(b: bool)
    | Num(n: int)
    | BigInt(i: int)
    | Str(s: string)
    | Arr(items: seq<Value>)
    | Obj(props: seq<(string, Value)>)

  /** JavaScript's ToBoolean: the falsy values are undefined, null, false, 0, 0n and the empty string. */
  predicate Truthy(v: Value) {
    match v
    case Undefined => false
    case Null => false
    case Bool(b) => b
    case Num(n) => n != 0
    case BigInt(i) => i != 0
    case Str(s) => s != ""
    case Arr(_) => true
    case Obj(_) => true
  }

  /** `a || b`: the left operand unless it is falsy. */
  function Or(a: Value, b: Value): Value {
    if Truthy(a) then a else b
  }

  /** The value of the first member named `key`, or undefined when there is none. */
  function Lookup(props: seq<(string, Value)>, key: string): Value {
    if props == [] then Undefined
    else if props[0].0 == key then props[0].1
    else Lookup(props[1..], key)
  }

  /** Property access `v.key`.  Reading a property of undefined or null throws a
      TypeError; a primitive has none of the keys the components read. */
  function Member(v: Value, key: string): (r: Result<Value, string>)
    ensures r.Failure? <==> v == Undefined || v == Null
    ensures v.Obj? ==> r == Success(Lookup(v.props, key))
  {
    match v
    case Undefined => Failure("TypeError: Cannot read properties of undefined (reading '" + key + "')")
    case Null => Failure("TypeError: Cannot read properties of null (reading '" + key + "')")
    case Obj(props) => Success(Lookup(props, key))
    case _ => Success(Undefined)
  }

  /** The keys of an object's members, in order. */
  function Keys(props: seq<(string, Value)>): (ks: seq<string>)
    ensures |ks| == |props|
    ensures forall i | 0 <= i < |props| :: ks[i] == props[i].0
  {
    if props == [] then [] else [props[0].0] + Keys(props[1..])
  }

  lemma {:induction false} LookupFirst(props: seq<(string, Value)>, i: nat)
    requires i < |props|
    requires forall j | 0 <= j < i :: props[j].0 != props[i].0
    ensures Lookup(props, props[i].0) == props[i].1
  {
    if i > 0 {
      LookupFirst(props[1..], i - 1);
    }
  }

  lemma {:induction false} LookupMissing(props: seq<(string, Value)>, key: string)
    requires forall j | 0 <= j < |props| :: props[j].0 != key
    ensures Lookup(props, key) == Undefined
  {
    if props != [] {
      LookupMissing(props[1..], key);
    }
  }

  /** In an object whose keys are pairwise distinct, each key finds its own member. */
  lemma LookupByKeys(props: seq<(string, Value)>, names: seq<string>, i: nat)
    requires Keys(props) == names
    requires forall a, b | 0 <= a < b < |names| :: names[a] != names[b]
    requires i < |props|
    ensures Lookup(props, names[i]) == props[i].1
  {
    LookupFirst(props, i);
  }

  /** A key that is not among an object's keys finds nothing. */
  lemma LookupAbsent(props: seq<(string, Value)>, names: seq<string>, key: string)
    requires Keys(props) == names
    requires key !in names
    ensures Lookup(props, key) == Undefined
  {
    assert forall j | 0 <= j < |props| :: props[j].0 == names[j];
    LookupMissing(props, key);
  }

  /** Lookup in `props + extra`: a key of `props` is found there, any other
      key in `extra`. */
  lemma {:induction false} LookupAppend(props: seq<(string, Value)>, extra: seq<(string, Value)>, key: string)
    ensures key in Keys(props) || Lookup(props, key) != Undefined ==> Lookup(props + extra, key) == Lookup(props, key)
    ensures key !in Keys(props) ==> Lookup(props + extra, key) == Lookup(extra, key)
  {
    if props != [] {
      assert (props + extra)[1..] == props[1..] + extra;
      assert Keys(props) == [props[0].0] + Keys(props[1..]);
      LookupAppend(props[1..], extra, key);
    } else {
      assert props + extra == extra;
    }
  }

  /** The members JSON.stringify writes for an object: those whose value is
      not undefined, in their order. */
  function Defined(props: seq<(string, Value)>): (r: seq<(string, Value)>)
    ensures |r| <= |props|
  {
    if props == [] then []
    else (if props[0].1 == Undefined then [] else [props[0]]) + Defined(props[1..])
  }

  /** The members kept are exactly the defined ones. */
  lemma {:induction false} DefinedMembers(props: seq<(string, Value)>)
    ensures forall m :: m in Defined(props) <==> m in props && m.1 != Undefined
  {
    if props != [] {
      assert props == [props[0]] + props[1..];
      DefinedMembers(props[1..]);
    }
  }

  /** With distinct keys, dropping the undefined members changes no lookup. */
  lemma {:induction false} LookupDefined(props: seq<(string, Value)>, key: string)
    requires forall i, j | 0 <= i < j < |props| :: props[i].0 != props[j].0
    ensures Lookup(Defined(props), key) == Lookup(props, key)
  {
    if props != [] {
      var tail := props[1..];
      var d, dt := Defined(props), Defined(tail);
      DefinedMembers(tail);
      LookupDefined(tail, key);
      if props[0].1 == Undefined {
        assert d == dt;
      } else {
        assert d == [props[0]] + dt && d[1..] == dt;
      }
      if props[0].0 == key {
        forall j | 0 <= j < |dt| ensures dt[j].0 != key {
          assert dt[j] in tail;
        }
        LookupMissing(dt, key);
        LookupMissing(tail, key);
      }
    }
  }

  /** Dropping members keeps the keys distinct. */
  lemma {:induction false} DefinedDistinct(props: seq<(string, Value)>)
    requires forall i, j | 0 <= i < j < |props| :: props[i].0 != props[j].0
    ensures forall i, j | 0 <= i < j < |Defined(props)| :: Defined(props)[i].0 != Defined(props)[j].0
  {
    if props != [] {
      var tail := props[1..];
      DefinedDistinct(tail);
      DefinedMembers(tail);
      var d := Defined(tail);
      forall j | 0 <= j < |d| ensures d[j].0 != props[0].0 {
        assert d[j] in tail;
      }
      var r := Defined(props);
      if props[0].1 == Undefined {
        assert r == d;
      } else {
        assert r == [props[0]] + d;
        forall i, j | 0 <= i < j < |r| ensures r[i].0 != r[j].0 {
          assert r[j] == d[j - 1];
          assert d[j - 1].0 != props[0].0;
          if i > 0 {
            assert r[i] == d[i - 1];
            assert 0 <= i - 1 < j - 1 < |d|;
          } else {
            assert r[i] == props[0];
          }
        }
      }
    }
  }
}
