/** deepFind (js/app.js:603-614): a direct or dotted key lookup that gives
    undefined as soon as an intermediate value is falsy. */
module FieldResolver {
  import opened Wrappers
  import opened JsString
  import opened JsonValue

  /** The loop of deepFind over the path's segments: a falsy or undefined
      current value ends the walk with undefined, otherwise one more lookup. */
  function Walk(cur: Option<Json>, parts: seq<string>): Option<Json>
    decreases parts
  {
    if parts == [] then cur
    else if cur.None? || !Truthy(cur.value) then None
    else Walk(Get(cur.value, parts[0]), parts[1..])
  }

  /** What deepFind(obj, path) returns. */
  function Resolve(obj: Json, path: string): Option<Json>
  {
    if !Truthy(obj) || path == "" then None
    else if '.' !in path then Get(obj, path)
    else Walk(Some(obj), Split(path, '.'))
  }

  method DeepFind(obj: Json, path: string) returns (r: Option<Json>)
    ensures r == Resolve(obj, path)
  {
    if !Truthy(obj) {
      return None;
    }
    if path == "" {
      return None;
    }
    if '.' !in path {
      return Get(obj, path);
    }
    var parts := Split(path, '.');
    var cur := Some(obj);
    var i := 0;
    while i < |parts|
      invariant 0 <= i <= |parts|
      invariant Walk(cur, parts[i..]) == Walk(Some(obj), parts)
    {
      if cur.None? || !Truthy(cur.value) {
        return None;
      }
      cur := Get(cur.value, parts[i]);
      i := i + 1;
    }
    return cur;
  }

  /** A falsy object, and an empty path, give undefined. */
  lemma ResolveFalsy(obj: Json, path: string)
    requires !Truthy(obj) || path == ""
    ensures Resolve(obj, path).None?
  {
  }

  /** A non-empty key without a dot is a direct lookup, on any value whatever
      its truthiness (property access on a falsy value finds nothing either). */
  lemma ResolveKey(obj: Json, key: string)
    requires key != "" && '.' !in key
    ensures Resolve(obj, key) == Get(obj, key)
  {
  }

  /** Walking a path in two pieces is walking the first, then the second. */
  lemma {:induction false} WalkAppend(cur: Option<Json>, p: seq<string>, q: seq<string>)
    ensures Walk(cur, p + q) == Walk(Walk(cur, p), q)
    decreases p
  {
    if p == [] {
      assert p + q == q;
    } else if cur.None? || !Truthy(cur.value) {
      if q != [] {
        assert Walk(Walk(cur, p), q) == Walk(None, q);
      }
    } else {
      assert (p + q)[1..] == p[1..] + q;
      WalkAppend(Get(cur.value, p[0]), p[1..], q);
    }
  }

  /** The last segment's value comes back as it is, null and 0 included, but
      only when everything before it was truthy. */
  lemma LastSegment(cur: Option<Json>, p: seq<string>, k: string)
    ensures Walk(cur, p + [k]) ==
      match Walk(cur, p)
      case Some(x) => if Truthy(x) then Get(x, k) else None
      case None => None
  {
    WalkAppend(cur, p, [k]);
  }

  /** A two-segment path `a.b` reads `b` of a truthy `a`, and nothing else. */
  lemma {:induction false} ResolveDotted(obj: Json, a: string, b: string)
    requires Truthy(obj) && '.' !in a && '.' !in b
    ensures Resolve(obj, a + "." + b) ==
      match Get(obj, a)
      case Some(x) => if Truthy(x) then Get(x, b) else None
      case None => None
  {
    var path := a + "." + b;
    assert path[|a|] == '.';
    SplitAround(a, b, '.');
    assert Split(path, '.') == [a] + [b];
    WalkAppend(Some(obj), [a], [b]);
  }
}
