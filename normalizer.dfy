/** normalizeToArray (js/app.js:136-147): turns the top-level value of a
    dataset into its list of records. */
module RecordNormalizer {
  import opened Wrappers
  import opened JsString
  import opened JsonValue

  /** `Object.assign(target, source)` on member lists: each entry of the
      source is assigned in turn, so a later entry overwrites an earlier one. */
  function Assign<V>(target: seq<(string, V)>, source: seq<(string, V)>): seq<(string, V)>
  {
    if source == [] then target
    else
      var last := source[|source| - 1];
      Put(Assign(target, source[..|source| - 1]), last.0, last.1)
  }

  /** The value the last entry named `x` holds. */
  function LastValue<V>(es: seq<(string, V)>, x: string): V
    requires x in Keys(es)
  {
    var last := es[|es| - 1];
    if last.0 == x then last.1
    else
      assert Keys(es) == Keys(es[..|es| - 1]) + [last.0];
      LastValue(es[..|es| - 1], x)
  }

  /** After Object.assign a member comes from the last source entry with its
      name, and from the target when the source has none. */
  lemma {:induction false} AssignLookup<V>(target: seq<(string, V)>, source: seq<(string, V)>, x: string)
    ensures Lookup(Assign(target, source), x) ==
      if x in Keys(source) then Some(LastValue(source, x)) else Lookup(target, x)
  {
    if source != [] {
      var init := source[..|source| - 1];
      assert Keys(source) == Keys(init) + [source[|source| - 1].0];
      AssignLookup(target, init, x);
    }
  }

  /** Object.assign keeps the target's members first and in place. */
  lemma {:induction false} AssignKeepsPrefix<V>(target: seq<(string, V)>, source: seq<(string, V)>)
    ensures |Assign(target, source)| >= |target|
    ensures Keys(Assign(target, source))[..|target|] == Keys(target)
    ensures UniqueKeys(target) ==> UniqueKeys(Assign(target, source))
  {
    if source != [] {
      AssignKeepsPrefix(target, source[..|source| - 1]);
    }
  }

  /** Without repeated names, the last entry named `x` is the one at its position. */
  lemma {:induction false} LastValueAt<V>(es: seq<(string, V)>, x: string, i: nat)
    requires UniqueKeys(es) && i < |es| && es[i].0 == x
    ensures x in Keys(es) && LastValue(es, x) == es[i].1
  {
    assert Keys(es)[i] == x;
    var init := es[..|es| - 1];
    if es[|es| - 1].0 != x {
      assert i < |es| - 1 && init[i] == es[i];
      assert UniqueKeys(init);
      LastValueAt(init, x, i);
    }
  }

  /** For an object without repeated names the last entry is the only one. */
  lemma LastValueUnique<V>(es: seq<(string, V)>, x: string)
    requires UniqueKeys(es) && x in Keys(es)
    ensures Lookup(es, x) == Some(LastValue(es, x))
  {
    LastValueAt(es, x, FindKey(es, x).value);
  }

  /** One record of an object dataset: an object or array value is merged
      into `{_key: k}`, any other value becomes `{_key: k, value: v}`. */
  function Record(k: string, v: Json): Json
  {
    if Truthy(v) && IsObjectLike(v) then JObj(Assign([("_key", JStr(k))], OwnEntries(v)))
    else JObj([("_key", JStr(k)), ("value", v)])
  }

  /** The records of a dataset: an array as it is, an object one record per
      entry in key order, anything else none. */
  function Normalize(data: Json): seq<Json>
  {
    match data
    case JArr(e) => e
    case JObj(f) => seq(|f|, i requires 0 <= i < |f| => Record(f[i].0, f[i].1))
    case _ => []
  }

  lemma NormalizeArray(e: seq<Json>)
    ensures Normalize(JArr(e)) == e
  {
  }

  lemma NormalizeOther(data: Json)
    requires !data.JArr? && !data.JObj?
    ensures Normalize(data) == []
  {
  }

  /** An object dataset gives one record per entry, in key order; each record
      is an object whose first member is `_key`. */
  lemma NormalizeObject(f: seq<(string, Json)>)
    ensures |Normalize(JObj(f))| == |f|
    ensures forall i :: 0 <= i < |f| ==> Normalize(JObj(f))[i] == Record(f[i].0, f[i].1)
    ensures forall i :: 0 <= i < |f| ==>
      var r := Normalize(JObj(f))[i];
      r.JObj? && r.fields != [] && r.fields[0].0 == "_key" && UniqueKeys(r.fields)
  {
    forall i | 0 <= i < |f|
      ensures var r := Normalize(JObj(f))[i];
              r.JObj? && r.fields != [] && r.fields[0].0 == "_key" && UniqueKeys(r.fields)
    {
      RecordShape(f[i].0, f[i].1);
    }
  }

  lemma RecordShape(k: string, v: Json)
    ensures var r := Record(k, v);
            r.JObj? && r.fields != [] && r.fields[0].0 == "_key" && UniqueKeys(r.fields)
  {
    if Truthy(v) && IsObjectLike(v) {
      var base: seq<(string, Json)> := [("_key", JStr(k))];
      var src := OwnEntries(v);
      assert UniqueKeys(base);
      AssignKeepsPrefix(base, src);
      var r := Assign(base, src);
      assert Record(k, v) == JObj(r);
      assert Keys(r)[..1] == Keys(base);
      assert r[0].0 == Keys(r)[0] == Keys(base)[0];
    } else {
      var f := [("_key", JStr(k)), ("value", v)];
      assert UniqueKeys(f);
      assert Record(k, v) == JObj(f);
    }
  }

  /** A record made from an object without repeated names, or from an array:
      `_key` is the value's own `_key` entry when it has one and the entry's
      key otherwise; every other member is the value's own entry. */
  lemma RecordOfObject(k: string, v: Json, x: string)
    requires IsObjectLike(v) && (v.JObj? ==> UniqueKeys(v.fields))
    ensures Get(Record(k, v), "_key") ==
      if "_key" in Keys(OwnEntries(v)) then Lookup(OwnEntries(v), "_key") else Some(JStr(k))
    ensures x != "_key" ==> Get(Record(k, v), x) == Lookup(OwnEntries(v), x)
  {
    var f := OwnEntries(v);
    OwnEntriesUnique(v);
    var base := [("_key", JStr(k))];
    var a := Assign(base, f);
    assert Record(k, v) == JObj(a);
    assert Keys(base) == ["_key"] && Lookup(base, "_key") == Some(JStr(k));
    AssignLookup(base, f, "_key");
    if "_key" in Keys(f) {
      LastValueUnique(f, "_key");
    }
    if x != "_key" {
      AssignLookup(base, f, x);
      if x in Keys(f) {
        LastValueUnique(f, x);
      }
    }
  }

  /** A record made from a value that is not an object holds `_key` and
      `value` and nothing else. */
  lemma RecordOfScalar(k: string, v: Json)
    requires !(Truthy(v) && IsObjectLike(v))
    ensures Keys(Record(k, v).fields) == ["_key", "value"]
    ensures Get(Record(k, v), "_key") == Some(JStr(k))
    ensures Get(Record(k, v), "value") == Some(v)
  {
    var f := Record(k, v).fields;
    assert FindKey(f, "_key") == Some(0);
    assert FindKey(f, "value") == Some(1);
  }
}
