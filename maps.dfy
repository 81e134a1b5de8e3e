/** The map-reference fallback of renderMarkers (js/app.js:287-293) and its
    helpers findMapReference and findMapByRef (js/app.js:391-404): a record
    without a position of its own is placed at the centre of the map it names. */
module MapLookup {
  import opened Wrappers
  import opened JsString
  import opened JsonValue
  import opened Seqs
  import opened Candidates
  import opened FieldResolver
  import opened CoordinateExtractor

  /** The fields that may name a record's map, in the order they are tried. */
  const MapRefKeys: seq<string> := ["map", "mapId", "mapName", "zone", "area", "locationMap"]

  /** The fields of a map that may hold its centre, in the order they are tried. */
  const CenterKeys: seq<string> := ["center", "location", "coords"]

  /** findMapReference: the loop over the candidate fields, returning the
      first truthy value; null when there is none. */
  method FindMapReference(item: Json) returns (r: Option<Json>)
    ensures r == FirstTruthy(item, MapRefKeys)
  {
    PlainKeys();
    var i := ScanKeys(item, MapRefKeys, Truthy);
    if i.None? {
      return None;
    }
    return Get(item, MapRefKeys[i.value]);
  }

  /** The map fields are plain names, so deepFind reads them directly. */
  lemma PlainKeys()
    ensures forall k :: k in MapRefKeys ==> k != "" && '.' !in k
  {
  }

  /** Field `k` of the map entry `m` is truthy and reads `r` once lower-cased. */
  predicate NamedAs(h: Host, m: Json, k: string, r: string)
  {
    TruthyAt(m, k) && LowerText(h, Get(m, k).value) == r
  }

  /** The test findMapByRef applies to each entry of the index. */
  predicate MatchesRef(h: Host, m: Json, r: string)
  {
    NamedAs(h, m, "name", r) || NamedAs(h, m, "id", r) || NamedAs(h, m, "key", r)
  }

  /** findMapByRef: no map without an index; otherwise the first entry of the
      index whose truthy name, id or key equals the reference, compared as
      lower-cased text. */
  function FindMapByRef(h: Host, index: Option<seq<Json>>, ref: Json): (r: Option<Json>)
    ensures index.None? ==> r.None?
    ensures index.Some? ==>
      (r.None? <==> forall i :: 0 <= i < |index.value| ==> !MatchesRef(h, index.value[i], LowerText(h, ref)))
    ensures r.Some? ==>
      index.Some? &&
      exists i :: 0 <= i < |index.value| && r.value == index.value[i]
        && MatchesRef(h, index.value[i], LowerText(h, ref))
        && forall j :: 0 <= j < i ==> !MatchesRef(h, index.value[j], LowerText(h, ref))
  {
    if index.None? then None
    else
      var q := LowerText(h, ref);
      match FindFirst(index.value, m => MatchesRef(h, m, q))
      case None => None
      case Some(i) => Some(index.value[i])
  }

  /** An entry that matches, with no match before it, is the map found. */
  lemma FindMapAt(h: Host, index: seq<Json>, ref: Json, k: nat)
    requires k < |index| && MatchesRef(h, index[k], LowerText(h, ref))
    requires forall j :: 0 <= j < k ==> !MatchesRef(h, index[j], LowerText(h, ref))
    ensures FindMapByRef(h, Some(index), ref) == Some(index[k])
  {
    var r := FindMapByRef(h, Some(index), ref);
    var i :| 0 <= i < |index| && r.value == index[i]
        && MatchesRef(h, index[i], LowerText(h, ref))
        && forall j :: 0 <= j < i ==> !MatchesRef(h, index[j], LowerText(h, ref));
    assert i == k;
  }

  /** References that differ only in the case of their letters find the same map. */
  lemma FindMapCaseInsensitive(h: Host, index: Option<seq<Json>>, a: string, b: string)
    requires Lower(a) == Lower(b)
    ensures FindMapByRef(h, index, JStr(a)) == FindMapByRef(h, index, JStr(b))
  {
    assert LowerText(h, JStr(a)) == LowerText(h, JStr(b));
  }

  /** `m.center || m.location || m.coords`. */
  function Center(m: Json): (r: Option<Json>)
    ensures r.Some? ==> Truthy(r.value)
    ensures r.None? <==> forall j :: 0 <= j < |CenterKeys| ==> !TruthyAt(m, CenterKeys[j])
    ensures forall i :: 0 <= i < |CenterKeys| && TruthyAt(m, CenterKeys[i]) && (forall j :: 0 <= j < i ==> !TruthyAt(m, CenterKeys[j]))
              ==> r == Get(m, CenterKeys[i])
  {
    FirstTruthy(m, CenterKeys)
  }

  /** Where renderMarkers places a record: its own position; failing that,
      the position of the centre of the map it references, when there is an
      index and the map is found there; failing that, nowhere. */
  function MarkerPoint(h: Host, item: Json, index: Option<seq<Json>>): Option<GeoPoint>
  {
    var own := Extract(h, item);
    if own.Some? then own
    else
      match FirstTruthy(item, MapRefKeys)
      case None => None
      case Some(ref) =>
        if index.None? then None
        else
          match FindMapByRef(h, index, ref)
          case None => None
          case Some(m) =>
            match Center(m)
            case None => None
            case Some(c) => Extract(h, c)
  }

  /** A record with a position of its own is placed there, whatever map it names. */
  lemma OwnPositionWins(h: Host, item: Json, index: Option<seq<Json>>)
    requires Extract(h, item).Some?
    ensures MarkerPoint(h, item, index) == Extract(h, item)
  {
  }

  /** Without its own position a record is placed only through a map entry:
      there must be a reference, an index, a matching entry and a centre. */
  lemma MarkerNeedsMap(h: Host, item: Json, index: Option<seq<Json>>)
    requires Extract(h, item).None?
    ensures MarkerPoint(h, item, index).Some? ==>
      FirstTruthy(item, MapRefKeys).Some? && index.Some? &&
      FindMapByRef(h, index, FirstTruthy(item, MapRefKeys).value).Some? &&
      Center(FindMapByRef(h, index, FirstTruthy(item, MapRefKeys).value).value).Some?
  {
  }

  /** The fallback: the first map field names the first matching entry of the
      index, whose first truthy centre field gives the position. */
  lemma MapCenterFallback(h: Host, item: Json, index: seq<Json>, i: nat, k: nat, c: nat)
    requires Extract(h, item).None?
    requires i < |MapRefKeys| && TruthyAt(item, MapRefKeys[i])
    requires forall j :: 0 <= j < i ==> !TruthyAt(item, MapRefKeys[j])
    requires k < |index| && MatchesRef(h, index[k], LowerText(h, Get(item, MapRefKeys[i]).value))
    requires forall j :: 0 <= j < k ==> !MatchesRef(h, index[j], LowerText(h, Get(item, MapRefKeys[i]).value))
    requires c < |CenterKeys| && TruthyAt(index[k], CenterKeys[c])
    requires forall j :: 0 <= j < c ==> !TruthyAt(index[k], CenterKeys[j])
    ensures MarkerPoint(h, item, Some(index)) == Extract(h, Get(index[k], CenterKeys[c]).value)
  {
    FirstTruthyAt(item, MapRefKeys, i);
    FindMapAt(h, index, Get(item, MapRefKeys[i]).value, k);
    FirstTruthyAt(index[k], CenterKeys, c);
  }
}
