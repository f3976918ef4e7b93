/** JavaScript values as the modelled code receives them from YAML/JSON configuration, the URL,
    sessionStorage and its own object literals. An object is the ordered list of its own
    enumerable properties; numbers are integers (fractional numbers and NaN are not modelled).
    Strict equality `===` is datatype equality (object identity is not modelled). */
module JsValues {
  import opened JsStrings

  datatype Value =
    | Undefined
    | Null
    | Bool(b: bool)
    | Num(n: int)
    | Str(s: string)
    | Arr(items: seq<Value>)
    | Obj(fields: Fields)

  /** An object's own properties, in insertion order. */
  type Fields = seq<(string, Value)>

  /** JavaScript truthiness (`!!v`, the test an `if`, `||` and `&&` apply). */
  predicate Truthy(v: Value) {
    match v
    case Undefined => false
    case Null => false
    case Bool(b) => b
    case Num(n) => n != 0
    case Str(s) => s != ""
    case Arr(_) => true
    case Obj(_) => true
  }

  /** `a || b` */
  function Or(a: Value, b: Value): (r: Value)
    ensures Truthy(a) ==> r == a
    ensures !Truthy(a) ==> r == b
  {
    if Truthy(a) then a else b
  }

  /** No property name occurs twice, as in every JavaScript object. */
  predicate DistinctKeys(o: Fields) {
    forall i, j :: 0 <= i < j < |o| ==> o[i].0 != o[j].0
  }

  /** `Object.keys(o)` */
  function Keys(o: Fields): (ks: seq<string>)
    ensures |ks| == |o|
    ensures forall i :: 0 <= i < |o| ==> ks[i] == o[i].0
  {
    if o == [] then [] else [o[0].0] + Keys(o[1..])
  }

  /** Appending a property appends its name to the keys. */
  lemma KeysAppend(o: Fields, f: (string, Value))
    ensures Keys(o + [f]) == Keys(o) + [f.0]
  {
    var l, r := Keys(o + [f]), Keys(o) + [f.0];
    forall i | 0 <= i < |l| ensures l[i] == r[i] {
      if i < |o| {
        assert (o + [f])[i] == o[i];
      }
    }
  }

  /** `k in o` */
  predicate HasKey(o: Fields, k: string) {
    exists i | 0 <= i < |o| :: o[i].0 == k
  }

  /** `o[k]`, `undefined` for a missing property. */
  function Get(o: Fields, k: string): (v: Value)
    ensures !HasKey(o, k) ==> v == Undefined
    ensures HasKey(o, k) ==> exists i | 0 <= i < |o| :: o[i] == (k, v)
  {
    if o == [] then Undefined
    else if o[0].0 == k then o[0].1
    else
      var v := Get(o[1..], k);
      assert forall i :: 1 <= i < |o| ==> o[1..][i - 1] == o[i];
      v
  }

  lemma {:induction false} GetAt(o: Fields, i: nat)
    requires DistinctKeys(o) && i < |o|
    ensures Get(o, o[i].0) == o[i].1
  {
    if i > 0 {
      GetAt(o[1..], i - 1);
    }
  }

  /** `o[k] = v`: an existing property keeps its position, a new one goes last. */
  function Assign(o: Fields, k: string, v: Value): (r: Fields)
    ensures HasKey(o, k) ==> |r| == |o|
    ensures !HasKey(o, k) ==> r == o + [(k, v)]
    ensures forall i :: 0 <= i < |o| ==> r[i].0 == o[i].0
    ensures forall i :: 0 <= i < |o| && o[i].0 != k ==> r[i] == o[i]
    ensures Get(r, k) == v
  {
    if o == [] then [(k, v)]
    else if o[0].0 == k then [(k, v)] + o[1..]
    else
      var rest := Assign(o[1..], k, v);
      HasKeyTail(o, k);
      var r := [o[0]] + rest;
      assert r[1..] == rest;
      r
  }

  /** A key that is not the first one is in the object exactly when it is in the rest. */
  lemma HasKeyTail(o: Fields, k: string)
    requires o != [] && o[0].0 != k
    ensures HasKey(o, k) <==> HasKey(o[1..], k)
  {
    if HasKey(o, k) {
      var i :| 0 <= i < |o| && o[i].0 == k;
      assert o[1..][i - 1].0 == k;
    }
    if HasKey(o[1..], k) {
      var i :| 0 <= i < |o| - 1 && o[1..][i].0 == k;
      assert o[i + 1].0 == k;
    }
  }

  lemma {:induction false} AssignDistinct(o: Fields, k: string, v: Value)
    requires DistinctKeys(o)
    ensures DistinctKeys(Assign(o, k, v))
  {
    var r := Assign(o, k, v);
    if HasKey(o, k) {
      forall i, j | 0 <= i < j < |r| ensures r[i].0 != r[j].0 {
        assert r[i].0 == o[i].0 && r[j].0 == o[j].0;
      }
    } else {
      forall i, j | 0 <= i < j < |r| ensures r[i].0 != r[j].0 {
        if j == |o| {
          assert r[j].0 == k;
          assert o[i].0 != k;
        }
      }
    }
  }

  lemma {:induction false} AssignGet(o: Fields, k: string, v: Value, k': string)
    requires DistinctKeys(o)
    ensures DistinctKeys(Assign(o, k, v))
    ensures Get(Assign(o, k, v), k') == if k' == k then v else Get(o, k')
  {
    var r := Assign(o, k, v);
    AssignDistinct(o, k, v);
    if k' != k {
      if HasKey(o, k') {
        var j :| 0 <= j < |o| && o[j].0 == k';
        assert r[j] == o[j];
        GetAt(o, j);
        GetAt(r, j);
      } else {
        forall i | 0 <= i < |r| ensures r[i].0 != k' {
          if i < |o| { assert r[i].0 == o[i].0; }
        }
      }
    }
  }


  /** `{...base, ...over}`: the properties of `base`, each overridden by `over` where both have
      it, followed by the properties only `over` has, in its order. */
  function Spread(base: Fields, over: Fields): (r: Fields)
    decreases |over|
  {
    if over == [] then base
    else Spread(Assign(base, over[0].0, over[0].1), over[1..])
  }

  /** Every property of `over` wins; every other property of `base` is kept. */
  lemma {:induction false} SpreadGet(base: Fields, over: Fields, k: string)
    requires DistinctKeys(base) && DistinctKeys(over)
    ensures DistinctKeys(Spread(base, over))
    ensures Get(Spread(base, over), k) == if HasKey(over, k) then Get(over, k) else Get(base, k)
    decreases |over|
  {
    if over != [] {
      var b' := Assign(base, over[0].0, over[0].1);
      AssignGet(base, over[0].0, over[0].1, k);
      assert DistinctKeys(over[1..]);
      SpreadGet(b', over[1..], k);
      if over[0].0 == k {
        FirstKeyUnique(over);
      } else {
        HasKeyTail(over, k);
      }
    }
  }

  /** In an object with distinct keys the first key does not occur again. */
  lemma FirstKeyUnique(o: Fields)
    requires o != [] && DistinctKeys(o)
    ensures !HasKey(o[1..], o[0].0)
  {
    forall i | 0 <= i < |o| - 1 ensures o[1..][i].0 != o[0].0 {
      assert o[1..][i] == o[i + 1];
    }
  }

  /** The outcome of evaluating a property access `v.k`. */
  datatype Access = Thrown | Got(value: Value)

  /** `v.k`: a TypeError on `undefined` and `null`; `undefined` on other primitives and arrays
      (the names read by the modelled code are never built-in properties of those). */
  function Member(v: Value, k: string): (a: Access)
    ensures a.Thrown? <==> (v == Undefined || v == Null)
  {
    match v
    case Undefined => Thrown
    case Null => Thrown
    case Obj(f) => Got(Get(f, k))
    case _ => Got(Undefined)
  }

  /** `String(v)` */
  function ToJsString(v: Value): string {
    match v
    case Undefined => "undefined"
    case Null => "null"
    case Bool(b) => if b then "true" else "false"
    case Num(n) => IntToString(n)
    case Str(s) => s
    case Arr(items) =>
      JoinWith(seq(|items|, i requires 0 <= i < |items| =>
        if items[i] == Undefined || items[i] == Null then "" else ToJsString(items[i])), ",")
    case Obj(_) => "[object Object]"
  }
}
