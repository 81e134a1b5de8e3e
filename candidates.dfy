/** Ranked candidate-key lists: the engine's `a || b || c` chains and its
    loops that stop at the first key whose value qualifies. */
module Candidates {
  import opened Wrappers
  import opened JsonValue
  import opened FieldResolver

  /** The value of `k` in `v` is defined, truthy and passes `ok`. */
  predicate Holds(v: Json, k: string, ok: Json -> bool)
  {
    TruthyAt(v, k) && ok(Get(v, k).value)
  }

  /** The position in `keys` of the first key whose value passes `ok`. */
  function FirstKeyWhere(v: Json, keys: seq<string>, ok: Json -> bool): (r: Option<nat>)
    ensures r.Some? ==> r.value < |keys| && Holds(v, keys[r.value], ok)
    ensures r.Some? ==> forall j :: 0 <= j < r.value ==> !Holds(v, keys[j], ok)
    ensures r.None? ==> forall j :: 0 <= j < |keys| ==> !Holds(v, keys[j], ok)
  {
    if keys == [] then None
    else if Holds(v, keys[0], ok) then Some(0)
    else match FirstKeyWhere(v, keys[1..], ok)
      case None => None
      case Some(i) => Some(i + 1)
  }

  /** `v.k1 || v.k2 || ... || v.kn`, read as undefined when every one is falsy:
      the value of the first key whose value is truthy. */
  function FirstTruthy(v: Json, keys: seq<string>): (r: Option<Json>)
    ensures r.Some? ==> Truthy(r.value)
    ensures r.None? <==> forall j :: 0 <= j < |keys| ==> !TruthyAt(v, keys[j])
    ensures r.Some? ==> exists i :: 0 <= i < |keys| && Get(v, keys[i]) == r
                                   && forall j :: 0 <= j < i ==> !TruthyAt(v, keys[j])
    ensures forall i :: 0 <= i < |keys| && TruthyAt(v, keys[i]) && (forall j :: 0 <= j < i ==> !TruthyAt(v, keys[j]))
              ==> r == Get(v, keys[i])
  {
    match FirstKeyWhere(v, keys, Truthy)
    case None => None
    case Some(i) => Get(v, keys[i])
  }

  /** `v.k1 || ... || v.kn || d`. */
  function TruthyOr(v: Json, keys: seq<string>, d: Json): (r: Json)
    ensures (forall j :: 0 <= j < |keys| ==> !TruthyAt(v, keys[j])) ==> r == d
    ensures Truthy(r) || r == d
    ensures forall i :: 0 <= i < |keys| && TruthyAt(v, keys[i]) && (forall j :: 0 <= j < i ==> !TruthyAt(v, keys[j]))
              ==> r == Get(v, keys[i]).value
  {
    match FirstTruthy(v, keys)
    case Some(x) => x
    case None => d
  }

  /** The chain gives the value of a truthy key that no truthy key precedes. */
  lemma FirstTruthyAt(v: Json, keys: seq<string>, k: nat)
    requires k < |keys| && TruthyAt(v, keys[k])
    requires forall j :: 0 <= j < k ==> !TruthyAt(v, keys[j])
    ensures FirstTruthy(v, keys) == Get(v, keys[k])
  {
    var i := FirstKeyWhere(v, keys, Truthy);
    assert Holds(v, keys[k], Truthy);
  }

  /** The search stops at a qualifying key that no qualifying key precedes. */
  lemma FirstKeyWhereAt(v: Json, keys: seq<string>, ok: Json -> bool, k: nat)
    requires k < |keys| && Holds(v, keys[k], ok)
    requires forall j :: 0 <= j < k ==> !Holds(v, keys[j], ok)
    ensures FirstKeyWhere(v, keys, ok) == Some(k)
  {
  }

  /** The loop `for (const k of keys) { const v = deepFind(item, k); if (v &&
      ok(v)) ... }` over plain names, up to the key where it stops. */
  method ScanKeys(v: Json, keys: seq<string>, ok: Json -> bool) returns (r: Option<nat>)
    requires forall k :: k in keys ==> k != "" && '.' !in k
    ensures r == FirstKeyWhere(v, keys, ok)
  {
    var i := 0;
    while i < |keys|
      invariant 0 <= i <= |keys|
      invariant forall j :: 0 <= j < i ==> !Holds(v, keys[j], ok)
    {
      var k := keys[i];
      assert k in keys;
      var found := DeepFind(v, k);
      ResolveKey(v, k);
      if found.Some? && Truthy(found.value) && ok(found.value) {
        FirstKeyWhereAt(v, keys, ok, i);
        return Some(i);
      }
      assert !Holds(v, keys[i], ok);
      i := i + 1;
    }
    return None;
  }
}
