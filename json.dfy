/** The untyped JSON values the engine interprets, with the JavaScript notions
    it tests them by: truthiness, `typeof`, property lookup and assignment,
    the own entries `Object.entries` lists, and `String(v)`. */
module JsonValue {
  import opened Wrappers
  import opened JsString

  /** A JSON value; an object keeps its members in insertion order. */
  datatype Json =
    | JNull
    | JBool(b: bool)
    | JNum(n: real)
    | JStr(s: string)
    | JArr(elems: seq<Json>)
    | JObj(fields: seq<(string, Json)>)

  /** The conversions the engine borrows from the JavaScript host and that the
      model does not define: Number#toString, parseFloat (None for NaN) and
      JSON.stringify. */
  datatype Host = Host(
    numberText: real -> string,
    parseFloat: string -> Option<real>,
    stringify: Json -> string)

  /** JavaScript truthiness: null, false, 0 and "" are falsy. */
  predicate Truthy(v: Json)
  {
    match v
    case JNull => false
    case JBool(b) => b
    case JNum(n) => n != 0.0
    case JStr(s) => s != ""
    case _ => true
  }

  /** `v && typeof v === 'object'`: an array or an object. */
  predicate IsObjectLike(v: Json)
  {
    v.JArr? || v.JObj?
  }

  /** `typeof v === 'number'` of a property that may be undefined. */
  predicate IsNumber(v: Option<Json>)
  {
    v.Some? && v.value.JNum?
  }

  function Keys<V>(f: seq<(string, V)>): (r: seq<string>)
    ensures |r| == |f| && forall i :: 0 <= i < |f| ==> r[i] == f[i].0
  {
    seq(|f|, i requires 0 <= i < |f| => f[i].0)
  }

  predicate UniqueKeys<V>(f: seq<(string, V)>)
  {
    forall i, j :: 0 <= i < j < |f| ==> f[i].0 != f[j].0
  }

  /** The position of the first member named `k`. */
  function FindKey<V>(f: seq<(string, V)>, k: string): (r: Option<nat>)
    ensures r.Some? ==> r.value < |f| && f[r.value].0 == k
    ensures r.Some? ==> forall j :: 0 <= j < r.value ==> f[j].0 != k
    ensures r.None? <==> k !in Keys(f)
  {
    if f == [] then None
    else if f[0].0 == k then Some(0)
    else match FindKey(f[1..], k)
      case None => assert Keys(f) == [f[0].0] + Keys(f[1..]); None
      case Some(i) => Some(i + 1)
  }

  /** `o[k]` on an object given by its members: undefined when absent. */
  function Lookup<V>(f: seq<(string, V)>, k: string): (r: Option<V>)
    ensures r.Some? <==> k in Keys(f)
    ensures r.Some? ==> r.value == f[FindKey(f, k).value].1
  {
    match FindKey(f, k)
    case None => None
    case Some(i) => Some(f[i].1)
  }

  /** The first member with a name sits where the names say. */
  lemma {:induction false} FindKeySameKeys<V, W>(f: seq<(string, V)>, g: seq<(string, W)>, x: string)
    requires Keys(f) == Keys(g)
    ensures FindKey(f, x) == FindKey(g, x)
  {
    assert |f| == |Keys(f)| == |Keys(g)| == |g|;
    if f != [] {
      assert f[0].0 == Keys(f)[0] == Keys(g)[0] == g[0].0;
      assert Keys(f[1..]) == Keys(f)[1..] == Keys(g)[1..] == Keys(g[1..]);
      FindKeySameKeys(f[1..], g[1..], x);
    }
  }

  /** Two member lists with the same names agree on every name whose first
      member holds the same value in both. */
  lemma LookupSameKeys<V>(f: seq<(string, V)>, g: seq<(string, V)>, x: string)
    requires Keys(f) == Keys(g)
    requires forall i :: 0 <= i < |f| && f[i].0 == x ==> f[i].1 == g[i].1
    ensures Lookup(f, x) == Lookup(g, x)
  {
    FindKeySameKeys(f, g, x);
  }

  /** Assigning an existing member replaces its value in place. */
  lemma PutExisting<V>(f: seq<(string, V)>, k: string, v: V, i: nat)
    requires FindKey(f, k) == Some(i)
    ensures var r := f[i := (k, v)];
      Lookup(r, k) == Some(v) && Keys(r) == Keys(f)
      && (forall x :: x != k ==> Lookup(r, x) == Lookup(f, x))
      && (UniqueKeys(f) ==> UniqueKeys(r))
  {
    var r := f[i := (k, v)];
    assert Keys(r) == Keys(f);
    forall x | x != k ensures Lookup(r, x) == Lookup(f, x) {
      LookupSameKeys(f, r, x);
    }
    FindKeySameKeys(f, r, k);
  }

  /** The first member named `x` is the one no earlier member shares the name of. */
  lemma FindKeyAt<V>(f: seq<(string, V)>, x: string, i: nat)
    requires i < |f| && f[i].0 == x
    requires forall j :: 0 <= j < i ==> f[j].0 != x
    ensures FindKey(f, x) == Some(i)
  {
    assert Keys(f)[i] == x;
  }

  /** Appending a member leaves the first positions of earlier names alone. */
  lemma FindKeyAppend<V>(f: seq<(string, V)>, e: (string, V), x: string)
    ensures FindKey(f + [e], x) ==
      if x in Keys(f) then FindKey(f, x) else if e.0 == x then Some(|f|) else None
  {
    var r := f + [e];
    assert Keys(r) == Keys(f) + [e.0];
    if x in Keys(f) {
      var i := FindKey(f, x).value;
      FindKeyAt(r, x, i);
    } else if e.0 == x {
      assert forall j :: 0 <= j < |f| ==> r[j].0 == Keys(f)[j];
      FindKeyAt(r, x, |f|);
    }
  }

  /** Assigning a new member appends it. */
  lemma PutNew<V>(f: seq<(string, V)>, k: string, v: V)
    requires FindKey(f, k).None?
    ensures var r := f + [(k, v)];
      Lookup(r, k) == Some(v) && Keys(r) == Keys(f) + [k]
      && (forall x :: x != k ==> Lookup(r, x) == Lookup(f, x))
      && (UniqueKeys(f) ==> UniqueKeys(r))
  {
    var r := f + [(k, v)];
    assert Keys(r) == Keys(f) + [k];
    forall x | x != k ensures Lookup(r, x) == Lookup(f, x) {
      FindKeyAppend(f, (k, v), x);
    }
    FindKeyAppend(f, (k, v), k);
    if UniqueKeys(f) {
      assert forall j :: 0 <= j < |f| ==> r[j].0 == Keys(f)[j] != k;
    }
  }

  /** `o[k] = v`: an existing member keeps its place and takes the new value,
      a new one is appended; nothing else changes. */
  function Put<V>(f: seq<(string, V)>, k: string, v: V): (r: seq<(string, V)>)
    ensures Lookup(r, k) == Some(v)
    ensures forall x :: x != k ==> Lookup(r, x) == Lookup(f, x)
    ensures Keys(r) == if k in Keys(f) then Keys(f) else Keys(f) + [k]
    ensures UniqueKeys(f) ==> UniqueKeys(r)
  {
    match FindKey(f, k)
    case Some(i) => PutExisting(f, k, v, i); f[i := (k, v)]
    case None => PutNew(f, k, v); f + [(k, v)]
  }

  /** Property access `v.k` at the call sites of the engine, whose keys are
      never array indices: only an object has such properties. */
  function Get(v: Json, k: string): (r: Option<Json>)
    ensures r.Some? <==> v.JObj? && k in Keys(v.fields)
    ensures v.JObj? ==> r == Lookup(v.fields, k)
    ensures r.Some? ==> r.value < v
  {
    match v
    case JObj(f) =>
      (match FindKey(f, k)
       case None => None
       case Some(i) => assert f[i].1 < v; Some(f[i].1))
    case _ => None
  }

  /** `Get(v, k)` is defined and truthy. */
  predicate TruthyAt(v: Json, k: string)
  {
    Get(v, k).Some? && Truthy(Get(v, k).value)
  }

  /** `Object.entries(v)`: an object's members, an array's elements and a
      string's characters under their index names; nothing for the rest. */
  function OwnEntries(v: Json): (r: seq<(string, Json)>)
    ensures v.JObj? ==> r == v.fields
    ensures v.JArr? ==> |r| == |v.elems| && forall i :: 0 <= i < |r| ==> r[i] == (NatToString(i), v.elems[i])
    ensures v.JStr? ==> |r| == |v.s| && forall i :: 0 <= i < |r| ==> r[i] == (NatToString(i), JStr([v.s[i]]))
    ensures !v.JObj? && !v.JArr? && !v.JStr? ==> r == []
  {
    match v
    case JObj(f) => f
    case JArr(e) => seq(|e|, i requires 0 <= i < |e| => (NatToString(i), e[i]))
    case JStr(s) => seq(|s|, i requires 0 <= i < |s| => (NatToString(i), JStr([s[i]])))
    case _ => []
  }

  /** Different array indices have different names. */
  lemma {:induction false} NatToStringInjective(m: nat, n: nat)
    requires NatToString(m) == NatToString(n)
    ensures m == n
    decreases m
  {
    var a, b := NatToString(m), NatToString(n);
    assert a[|a| - 1] == '0' + ((m % 10) as char);
    assert b[|b| - 1] == '0' + ((n % 10) as char);
    if m >= 10 && n >= 10 {
      assert a[..|a| - 1] == NatToString(m / 10);
      assert b[..|b| - 1] == NatToString(n / 10);
      NatToStringInjective(m / 10, n / 10);
    }
  }

  /** Object.entries never repeats a name: an array's and a string's index
      names are distinct, and an object's are when it has no repeated member. */
  lemma OwnEntriesUnique(v: Json)
    requires v.JObj? ==> UniqueKeys(v.fields)
    ensures UniqueKeys(OwnEntries(v))
  {
    var r := OwnEntries(v);
    if v.JArr? || v.JStr? {
      forall i, j | 0 <= i < j < |r| ensures r[i].0 != r[j].0 {
        if r[i].0 == r[j].0 {
          NatToStringInjective(i, j);
        }
      }
    }
  }

  /** The entry named by an index is the element at that index: `Object.entries`
      of an array pairs `"i"` with element `i`. */
  lemma OwnEntriesIndex(e: seq<Json>, i: nat)
    requires i < |e|
    ensures Lookup(OwnEntries(JArr(e)), NatToString(i)) == Some(e[i])
  {
    var r := OwnEntries(JArr(e));
    OwnEntriesUnique(JArr(e));
    FindKeyAt(r, NatToString(i), i);
  }

  /** The same for the characters of a string. */
  lemma OwnEntriesChar(s: string, i: nat)
    requires i < |s|
    ensures Lookup(OwnEntries(JStr(s)), NatToString(i)) == Some(JStr([s[i]]))
  {
    var r := OwnEntries(JStr(s));
    OwnEntriesUnique(JStr(s));
    FindKeyAt(r, NatToString(i), i);
  }

  /** `String(v)`, which is also what `v.toString()` gives for a non-null value
      and what a property name made from `v` is. */
  function ToJsString(h: Host, v: Json): string
    decreases v, 1, 0
  {
    match v
    case JNull => "null"
    case JBool(b) => if b then "true" else "false"
    case JNum(n) => h.numberText(n)
    case JStr(s) => s
    case JArr(e) => ElemsText(h, v, 0)
    case JObj(_) => "[object Object]"
  }

  /** Array.prototype.join(",") from element `i` on; null elements print as "". */
  function ElemsText(h: Host, v: Json, i: nat): string
    requires v.JArr? && i <= |v.elems|
    decreases v, 0, |v.elems| - i
  {
    if i == |v.elems| then ""
    else
      var x := v.elems[i];
      var t := if x.JNull? then "" else ToJsString(h, x);
      if i + 1 == |v.elems| then t else t + "," + ElemsText(h, v, i + 1)
  }

  /** The lower-cased text of `v`, as `String(v).toLowerCase()` gives it. */
  function LowerText(h: Host, v: Json): string
  {
    Lower(ToJsString(h, v))
  }
}
