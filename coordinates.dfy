/** extractCoordinates (js/app.js:352-387): the ranked rules that find a map
    position in a record or in any value nested in it. */
module CoordinateExtractor {
  import opened Wrappers
  import opened JsString
  import opened JsonValue
  import opened FieldResolver
  import opened Seqs

  /** `{lat, lng}`. The rules copy values without converting them, so the two
      halves are whatever JSON the winning rule found. */
  datatype GeoPoint = GeoPoint(lat: Json, lng: Json)

  /** The fields searched, in order, for a nested position. */
  const CoordPaths: seq<string> := ["position", "pos", "coords", "location", "spawn"]

  /** `typeof v.a === 'number' && typeof v.b === 'number'`. */
  predicate NumericPair(v: Json, a: string, b: string)
  {
    IsNumber(Get(v, a)) && IsNumber(Get(v, b))
  }

  /** The first four rules, the ones that read the value itself. */
  predicate DirectRule(v: Json)
  {
    NumericPair(v, "lat", "lng") || NumericPair(v, "latitude", "longitude") || NumericPair(v, "x", "y")
    || (v.JArr? && |v.elems| >= 2 && v.elems[0].JNum? && v.elems[1].JNum?)
  }

  /** A string "a,b" with exactly one comma whose halves both parse as numbers. */
  function CommaPoint(h: Host, s: string): Option<GeoPoint>
  {
    if Contains(s, ",") && |Split(s, ',')| == 2 then PairOf(h, Split(s, ',')) else None
  }

  /** The two halves, trimmed and parsed, when neither is NaN. */
  function PairOf(h: Host, parts: seq<string>): Option<GeoPoint>
    requires |parts| == 2
  {
    var a, b := h.parseFloat(Trim(parts[0])), h.parseFloat(Trim(parts[1]));
    if a.Some? && b.Some? then Some(GeoPoint(JNum(a.value), JNum(b.value))) else None
  }

  /** The position an own entry gives in the own-key scan. */
  function EntryPoint(h: Host, e: (string, Json)): Option<GeoPoint>
  {
    if e.1.JStr? then CommaPoint(h, e.1.s) else None
  }

  function EntryPoints(h: Host): ((string, Json)) -> Option<GeoPoint>
  {
    e => EntryPoint(h, e)
  }

  /** The last rule: the first own string value that reads as "lat,lng". */
  function FromStrings(h: Host, es: seq<(string, Json)>): Option<GeoPoint>
  {
    FirstSome(es, EntryPoints(h))
  }

  /** The position of `v`, or None for null. */
  function Extract(h: Host, v: Json): Option<GeoPoint>
    decreases v, 1, 0
  {
    if !Truthy(v) then None
    else if NumericPair(v, "lat", "lng") then Some(GeoPoint(Get(v, "lat").value, Get(v, "lng").value))
    else if NumericPair(v, "latitude", "longitude") then Some(GeoPoint(Get(v, "latitude").value, Get(v, "longitude").value))
    else if NumericPair(v, "x", "y") then Some(GeoPoint(Get(v, "y").value, Get(v, "x").value))
    else if v.JArr? && |v.elems| >= 2 && v.elems[0].JNum? && v.elems[1].JNum? then Some(GeoPoint(v.elems[1], v.elems[0]))
    else
      var nested := FromPaths(h, v, 0);
      if nested.Some? then nested
      else if Get(v, "mapX").Some? && Get(v, "mapY").Some? then Some(GeoPoint(Get(v, "mapY").value, Get(v, "mapX").value))
      else FromStrings(h, OwnEntries(v))
  }

  /** The fifth rule from candidate path `i` on: the first truthy field whose
      own position is found. */
  function FromPaths(h: Host, v: Json, i: nat): Option<GeoPoint>
    requires i <= |CoordPaths|
    decreases v, 0, |CoordPaths| - i
  {
    if i == |CoordPaths| then None
    else
      var sub := Get(v, CoordPaths[i]);
      var found := if sub.Some? && Truthy(sub.value) then Extract(h, sub.value) else None;
      if found.Some? then found else FromPaths(h, v, i + 1)
  }

  /** Candidate path `i` leads to a value whose position is found. */
  predicate PathHit(h: Host, v: Json, i: nat)
    requires i < |CoordPaths|
  {
    TruthyAt(v, CoordPaths[i]) && Extract(h, Get(v, CoordPaths[i]).value).Some?
  }

  method ExtractCoordinates(h: Host, obj: Json) returns (r: Option<GeoPoint>)
    ensures r == Extract(h, obj)
    decreases obj, 1
  {
    if !Truthy(obj) {
      return None;
    }
    var lat, lng := Get(obj, "lat"), Get(obj, "lng");
    if IsNumber(lat) && IsNumber(lng) {
      return Some(GeoPoint(lat.value, lng.value));
    }
    var latitude, longitude := Get(obj, "latitude"), Get(obj, "longitude");
    if IsNumber(latitude) && IsNumber(longitude) {
      return Some(GeoPoint(latitude.value, longitude.value));
    }
    var x, y := Get(obj, "x"), Get(obj, "y");
    if IsNumber(x) && IsNumber(y) {
      return Some(GeoPoint(y.value, x.value));
    }
    if obj.JArr? && |obj.elems| >= 2 && obj.elems[0].JNum? && obj.elems[1].JNum? {
      return Some(GeoPoint(obj.elems[1], obj.elems[0]));
    }
    var nested := SearchPaths(h, obj);
    if nested.Some? {
      return nested;
    }
    var mapX, mapY := Get(obj, "mapX"), Get(obj, "mapY");
    if mapX.Some? && mapY.Some? {
      return Some(GeoPoint(mapY.value, mapX.value));
    }
    r := ScanStrings(h, OwnEntries(obj));
  }

  lemma CoordPathsPlain()
    ensures forall k :: k in CoordPaths ==> k != "" && '.' !in k
  {
  }

  /** One step of the path search: a hit ends it, a miss moves on. */
  lemma FromPathsStep(h: Host, v: Json, i: nat)
    requires i < |CoordPaths|
    ensures PathHit(h, v, i) ==> FromPaths(h, v, i) == Extract(h, Get(v, CoordPaths[i]).value)
    ensures !PathHit(h, v, i) ==> FromPaths(h, v, i) == FromPaths(h, v, i + 1)
  {
  }

  /** The loop over the candidate paths, returning at the first position found. */
  method SearchPaths(h: Host, obj: Json) returns (r: Option<GeoPoint>)
    ensures r == FromPaths(h, obj, 0)
    decreases obj, 0
  {
    var i := 0;
    while i < |CoordPaths|
      invariant 0 <= i <= |CoordPaths|
      invariant FromPaths(h, obj, 0) == FromPaths(h, obj, i)
    {
      var p := CoordPaths[i];
      assert p != "" && '.' !in p by { CoordPathsPlain(); }
      var v := DeepFind(obj, p);
      ResolveKey(obj, p);
      FromPathsStep(h, obj, i);
      if v.Some? && Truthy(v.value) {
        var parsed := ExtractCoordinates(h, v.value);
        if parsed.Some? {
          return parsed;
        }
      }
      i := i + 1;
    }
    return None;
  }

  lemma FromStringsStep(h: Host, es: seq<(string, Json)>, j: nat)
    requires j < |es|
    ensures FromStrings(h, es[j..]) ==
      if EntryPoint(h, es[j]).Some? then EntryPoint(h, es[j]) else FromStrings(h, es[j + 1..])
  {
    assert es[j..][0] == es[j];
    assert es[j..][1..] == es[j + 1..];
  }

  /** The loop over the own keys, returning at the first "lat,lng" string. */
  method ScanStrings(h: Host, es: seq<(string, Json)>) returns (r: Option<GeoPoint>)
    ensures r == FromStrings(h, es)
  {
    var j := 0;
    while j < |es|
      invariant 0 <= j <= |es|
      invariant FromStrings(h, es) == FromStrings(h, es[j..])
    {
      FromStringsStep(h, es, j);
      var parsed := EntryPoint(h, es[j]);
      if parsed.Some? {
        return parsed;
      }
      j := j + 1;
    }
    return None;
  }

  /** Rule 1: numeric `lat`/`lng` win over everything. */
  lemma LatLngRule(h: Host, v: Json)
    requires Truthy(v) && NumericPair(v, "lat", "lng")
    ensures Extract(h, v) == Some(GeoPoint(Get(v, "lat").value, Get(v, "lng").value))
  {
  }

  /** Rule 2: numeric `latitude`/`longitude`, when rule 1 does not apply. */
  lemma LatitudeRule(h: Host, v: Json)
    requires Truthy(v) && !NumericPair(v, "lat", "lng") && NumericPair(v, "latitude", "longitude")
    ensures Extract(h, v) == Some(GeoPoint(Get(v, "latitude").value, Get(v, "longitude").value))
  {
  }

  /** Rule 3: numeric `x`/`y` give `{lat: y, lng: x}`, when rules 1 and 2 do
      not apply. */
  lemma XyRule(h: Host, v: Json)
    requires Truthy(v) && !NumericPair(v, "lat", "lng") && !NumericPair(v, "latitude", "longitude")
    requires NumericPair(v, "x", "y")
    ensures Extract(h, v) == Some(GeoPoint(Get(v, "y").value, Get(v, "x").value))
  {
  }

  /** Rule 4: an array whose first two elements are numbers, read as [lng, lat]. */
  lemma ArrayRule(h: Host, e: seq<Json>)
    requires |e| >= 2 && e[0].JNum? && e[1].JNum?
    ensures Extract(h, JArr(e)) == Some(GeoPoint(e[1], e[0]))
  {
  }

  /** A value carrying both `lat`/`lng` and `x`/`y` gives the `lat`/`lng` pair. */
  lemma LatLngBeatsXy(h: Host, la: real, ln: real, x: real, y: real)
    ensures Extract(h, JObj([("x", JNum(x)), ("y", JNum(y)), ("lat", JNum(la)), ("lng", JNum(ln))]))
         == Some(GeoPoint(JNum(la), JNum(ln)))
  {
    var f := [("x", JNum(x)), ("y", JNum(y)), ("lat", JNum(la)), ("lng", JNum(ln))];
    assert Keys(f)[2] == "lat" && Keys(f)[3] == "lng";
    assert FindKey(f, "lat") == Some(2);
    assert FindKey(f, "lng") == Some(3);
  }

  /** The search along the candidate paths returns the position under the
      first path that leads to one. */
  lemma {:induction false} FromPathsFirst(h: Host, v: Json, i: nat, k: nat)
    requires i <= k < |CoordPaths| && PathHit(h, v, k)
    requires forall m :: i <= m < k ==> !PathHit(h, v, m)
    ensures FromPaths(h, v, i) == Extract(h, Get(v, CoordPaths[k]).value)
    decreases k - i
  {
    FromPathsStep(h, v, i);
    if i < k {
      FromPathsFirst(h, v, i + 1, k);
    }
  }

  lemma {:induction false} FromPathsNone(h: Host, v: Json, i: nat)
    requires i <= |CoordPaths|
    requires forall m :: i <= m < |CoordPaths| ==> !PathHit(h, v, m)
    ensures FromPaths(h, v, i).None?
    decreases |CoordPaths| - i
  {
    if i < |CoordPaths| {
      FromPathsStep(h, v, i);
      FromPathsNone(h, v, i + 1);
    }
  }

  /** Rule 5: when no direct rule applies, the first of `position, pos,
      coords, location, spawn` whose truthy value has a position gives it. */
  lemma PathRule(h: Host, v: Json, k: nat)
    requires Truthy(v) && !DirectRule(v)
    requires k < |CoordPaths| && PathHit(h, v, k)
    requires forall m :: 0 <= m < k ==> !PathHit(h, v, m)
    ensures Extract(h, v) == Extract(h, Get(v, CoordPaths[k]).value)
  {
    FromPathsFirst(h, v, 0, k);
  }

  /** Rule 6: `mapX`/`mapY`, of any type, when no path leads to a position. */
  lemma MapXyRule(h: Host, v: Json)
    requires Truthy(v) && !DirectRule(v)
    requires forall m :: 0 <= m < |CoordPaths| ==> !PathHit(h, v, m)
    requires Get(v, "mapX").Some? && Get(v, "mapY").Some?
    ensures Extract(h, v) == Some(GeoPoint(Get(v, "mapY").value, Get(v, "mapX").value))
  {
    FromPathsNone(h, v, 0);
  }

  /** The own-key scan stops at the first string that reads as "lat,lng". */
  lemma FromStringsFirst(h: Host, es: seq<(string, Json)>, k: nat)
    requires k < |es| && EntryPoint(h, es[k]).Some?
    requires forall m :: 0 <= m < k ==> EntryPoint(h, es[m]).None?
    ensures FromStrings(h, es) == EntryPoint(h, es[k])
  {
    FirstSomeAt(es, EntryPoints(h), k);
  }

  /** Rule 7 and the end of the cascade: without `mapX`/`mapY`, the first own
      string value "a,b" whose halves parse gives `{lat: a, lng: b}`, and
      without one there is no position. */
  lemma StringRule(h: Host, v: Json)
    requires Truthy(v) && !DirectRule(v)
    requires forall m :: 0 <= m < |CoordPaths| ==> !PathHit(h, v, m)
    requires !(Get(v, "mapX").Some? && Get(v, "mapY").Some?)
    ensures Extract(h, v) == FromStrings(h, OwnEntries(v))
    ensures (forall m :: 0 <= m < |OwnEntries(v)| ==>
               EntryPoint(h, OwnEntries(v)[m]).None?)
            ==> Extract(h, v).None?
  {
    FromPathsNone(h, v, 0);
  }

  /** The halves of a string with one comma. */
  lemma SplitOneComma(a: string, b: string)
    requires ',' !in a && ',' !in b
    ensures Split(a + "," + b, ',') == [a, b]
    ensures Contains(a + "," + b, ",")
  {
    SplitAround(a, b, ',');
    var s := a + "," + b;
    assert s[|a|..|a| + 1] == ",";
    assert OccursAt(s, ",", |a|);
    ContainsAt(s, ",");
  }

  /** Own-key scan of a string visits its single characters, and only ","
      holds a comma, whose halves are empty; so when parseFloat("") is NaN, as
      in JavaScript, a string has no position of its own. */
  lemma StringHasNoPoint(h: Host, s: string)
    requires h.parseFloat("") == None
    ensures Extract(h, JStr(s)) == None
  {
    var es := OwnEntries(JStr(s));
    forall m | 0 <= m < |es| ensures EntryPoint(h, es[m]).None? {
      var c := s[m];
      assert es[m].1 == JStr([c]);
      if c == ',' {
        assert [c] == "" + "," + "";
        SplitOneComma("", "");
        assert Trim("") == "";
      } else {
        assert Count([c], ',') == 0;
      }
    }
    assert !DirectRule(JStr(s));
    if s != [] {
      forall m | 0 <= m < |CoordPaths| ensures !PathHit(h, JStr(s), m) {
      }
      StringStep(h, s, es);
    }
  }

  lemma StringStep(h: Host, s: string, es: seq<(string, Json)>)
    requires s != [] && es == OwnEntries(JStr(s)) && h.parseFloat("") == None
    requires forall m :: 0 <= m < |es| ==> EntryPoint(h, es[m]).None?
    requires forall m :: 0 <= m < |CoordPaths| ==> !PathHit(h, JStr(s), m)
    ensures Extract(h, JStr(s)) == None
  {
    StringRule(h, JStr(s));
  }

  /** "a,b" with one comma reads as `{lat: a, lng: b}` when both trimmed
      halves parse. */
  lemma CommaPointPair(h: Host, a: string, b: string, x: real, y: real)
    requires ',' !in a && ',' !in b
    requires h.parseFloat(Trim(a)) == Some(x) && h.parseFloat(Trim(b)) == Some(y)
    ensures CommaPoint(h, a + "," + b) == Some(GeoPoint(JNum(x), JNum(y)))
  {
    SplitOneComma(a, b);
  }

  /** A string without exactly one comma never reads as a position. */
  lemma CommaPointOneComma(h: Host, s: string)
    requires Count(s, ',') != 1
    ensures CommaPoint(h, s).None?
  {
  }

  lemma CommaPointExample(h: Host)
    requires h.parseFloat("3") == Some(3.0) && h.parseFloat("4") == Some(4.0)
    ensures CommaPoint(h, "3,4") == Some(GeoPoint(JNum(3.0), JNum(4.0)))
  {
    TrimPlain("3");
    TrimPlain("4");
    CommaPointPair(h, "3", "4", 3.0, 4.0);
    assert "3" + "," + "4" == "3,4";
  }

  /** No candidate path of `{coords: "3,4"}` leads to a position. */
  lemma CoordsStringNoPath(h: Host)
    requires h.parseFloat("") == None
    ensures forall m :: 0 <= m < |CoordPaths| ==> !PathHit(h, JObj([("coords", JStr("3,4"))]), m)
  {
    var v := JObj([("coords", JStr("3,4"))]);
    StringHasNoPoint(h, "3,4");
    assert Get(v, "coords") == Some(JStr("3,4"));
    forall m | 0 <= m < |CoordPaths| ensures !PathHit(h, v, m) {
      if m != 2 {
        assert CoordPaths[m] !in Keys(v.fields);
      }
    }
  }

  /** `{coords: "3,4"}` gives `{lat: 3, lng: 4}`. The string under `coords` has
      no position of its own (its own keys are its characters), so the pair
      comes from the scan of the record's own string values. */
  lemma CoordsStringExample(h: Host)
    requires h.parseFloat("3") == Some(3.0) && h.parseFloat("4") == Some(4.0)
    requires h.parseFloat("") == None
    ensures Extract(h, JObj([("coords", JStr("3,4"))])) == Some(GeoPoint(JNum(3.0), JNum(4.0)))
  {
    var v := JObj([("coords", JStr("3,4"))]);
    CoordsStringNoPath(h);
    assert Keys(v.fields) == ["coords"];
    assert !DirectRule(v);
    StringRule(h, v);
    CommaPointExample(h);
    FromStringsFirst(h, OwnEntries(v), 0);
  }
}
