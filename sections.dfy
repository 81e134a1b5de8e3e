/** The data choices of the detail view's sections: the Basic table
    (js/app.js:218-227), buildStatsSection and arrayToKeyValue
    (js/app.js:408-447), buildBlueprintSection and bpListItem
    (js/app.js:449-479), and buildLocationsSection (js/app.js:481-504). */
module SectionClassifier {
  import opened Wrappers
  import opened JsString
  import opened JsonValue
  import opened Seqs
  import opened Candidates
  import opened FieldResolver
  import opened RecordNormalizer

  /** The text of a table cell or list line: JSON for a value whose typeof is
      'object' (null, an array, an object), String(v) for the rest. */
  function CellText(h: Host, v: Json): string
  {
    if v.JNull? || IsObjectLike(v) then h.stringify(v) else ToJsString(h, v)
  }

  /** `v && typeof v === 'object'`. */
  predicate ObjectValue(v: Json)
  {
    Truthy(v) && IsObjectLike(v)
  }

  // ---------------------------------------------------------------- Basic

  const BasicKeys: seq<string> := ["_key", "id", "name", "title", "type", "category", "rarity", "tier", "level"]

  lemma BasicKeysPlain()
    ensures forall k :: k in BasicKeys ==> k != "" && '.' !in k
  {
  }

  /** The rows of the Basic table over `keys`: every key whose value is
      defined (null, false and 0 included), with that value, in the order of
      `keys`, and nothing else. */
  function Present(item: Json, keys: seq<string>): (r: seq<(string, Json)>)
    ensures forall i :: 0 <= i < |r| ==> r[i].0 in keys && Get(item, r[i].0) == Some(r[i].1)
    ensures forall k :: k in keys && Get(item, k).Some? ==> (k, Get(item, k).value) in r
    ensures IsSubseq(Keys(r), keys)
  {
    if keys == [] then []
    else
      var k := keys[|keys| - 1];
      var front := keys[..|keys| - 1];
      var init := Present(item, front);
      assert keys == front + [k];
      match Get(item, k)
      case Some(x) =>
        var r := init + [(k, x)];
        assert Keys(r)[..|r| - 1] == Keys(init);
        r
      case None =>
        init
  }

  lemma PresentStep(item: Json, keys: seq<string>, i: nat)
    requires i < |keys|
    ensures Present(item, keys[..i + 1]) ==
      Present(item, keys[..i]) + match Get(item, keys[i]) case Some(x) => [(keys[i], x)] case None => []
  {
    assert keys[..i + 1][..i] == keys[..i];
  }

  /** The loop that fills the Basic table. */
  method BasicFields(item: Json) returns (rows: seq<(string, Json)>)
    ensures rows == Present(item, BasicKeys)
  {
    rows := [];
    var i := 0;
    while i < |BasicKeys|
      invariant 0 <= i <= |BasicKeys|
      invariant rows == Present(item, BasicKeys[..i])
    {
      var f := BasicKeys[i];
      assert f != "" && '.' !in f by { BasicKeysPlain(); }
      var val := DeepFind(item, f);
      ResolveKey(item, f);
      PresentStep(item, BasicKeys, i);
      if val.Some? {
        rows := rows + [(f, val.value)];
      }
      i := i + 1;
    }
    assert BasicKeys[..i] == BasicKeys;
  }

  // ---------------------------------------------------------------- Stats

  const StatsKeys: seq<string> := ["stats", "attributes", "properties", "modifiers"]

  lemma StatsKeysPlain()
    ensures forall k :: k in StatsKeys ==> k != "" && '.' !in k
  {
  }

  predicate NumericEntry(e: (string, Json))
  {
    e.1.JNum?
  }

  /** The numeric own properties of the record, collected by `reduce` into a
      fresh object. */
  function NumericFields(item: Json): seq<(string, Json)>
  {
    Assign([], Filter(OwnEntries(item), NumericEntry))
  }

  lemma AssignEmpty<V>(source: seq<(string, V)>)
    ensures Assign([], source) == [] <==> source == []
  {
    if source != [] {
      var last := source[|source| - 1];
      assert Lookup(Assign([], source), last.0).Some?;
    }
  }

  /** A value of `x` of the member list is one of its members' values. */
  lemma {:induction false} LastValueIn<V>(es: seq<(string, V)>, x: string)
    requires x in Keys(es)
    ensures (x, LastValue(es, x)) in es
  {
    var last := es[|es| - 1];
    if last.0 != x {
      assert Keys(es) == Keys(es[..|es| - 1]) + [last.0];
      LastValueIn(es[..|es| - 1], x);
    }
  }

  /** The numeric fields are exactly the record's numeric own properties. */
  lemma NumericFieldsLookup(item: Json, k: string)
    ensures Lookup(NumericFields(item), k).Some? <==>
      exists i :: 0 <= i < |OwnEntries(item)| && OwnEntries(item)[i].0 == k && OwnEntries(item)[i].1.JNum?
    ensures Lookup(NumericFields(item), k).Some? ==>
      Lookup(NumericFields(item), k).value.JNum? && (k, Lookup(NumericFields(item), k).value) in OwnEntries(item)
  {
    var es := OwnEntries(item);
    var nums := Filter(es, NumericEntry);
    AssignLookup([], nums, k);
    if k in Keys(nums) {
      LastValueIn(nums, k);
      FilterMembers(es, NumericEntry, (k, LastValue(nums, k)));
    }
    if exists i :: 0 <= i < |es| && es[i].0 == k && es[i].1.JNum? {
      var i :| 0 <= i < |es| && es[i].0 == k && es[i].1.JNum?;
      FilterMembers(es, NumericEntry, es[i]);
      var j :| 0 <= j < |nums| && nums[j] == es[i];
      assert Keys(nums)[j] == k;
    }
  }

  /** There are no numeric fields exactly when no own property is a number. */
  lemma NumericFieldsEmpty(item: Json)
    ensures NumericFields(item) == [] <==>
      forall i :: 0 <= i < |OwnEntries(item)| ==> !OwnEntries(item)[i].1.JNum?
  {
    var es := OwnEntries(item);
    var nums := Filter(es, NumericEntry);
    AssignEmpty(nums);
    if nums != [] {
      FilterMembers(es, NumericEntry, nums[0]);
    }
    if exists i :: 0 <= i < |es| && es[i].1.JNum? {
      var i :| 0 <= i < |es| && es[i].1.JNum?;
      FilterMembers(es, NumericEntry, es[i]);
    }
  }

  /** What one array element gives arrayToKeyValue's object: `name -> value`
      for a truthy name and a defined value; otherwise its first own entry, or
      `"undefined" -> undefined` when it has none; nothing from an element
      that is not an object. */
  function Contribution(h: Host, el: Json): Option<(string, Option<Json>)>
  {
    if !ObjectValue(el) then None
    else if TruthyAt(el, "name") && Get(el, "value").Some? then
      Some((ToJsString(h, Get(el, "name").value), Get(el, "value")))
    else if OwnEntries(el) == [] then Some(("undefined", None))
    else Some((OwnEntries(el)[0].0, Some(OwnEntries(el)[0].1)))
  }

  function ContributionOf(h: Host): Json -> Option<(string, Option<Json>)>
  {
    el => Contribution(h, el)
  }

  /** The assignments arrayToKeyValue makes, in order. */
  function Contributions(h: Host, es: seq<Json>): seq<(string, Option<Json>)>
  {
    Collect(es, ContributionOf(h))
  }

  /** The object arrayToKeyValue builds; an undefined value is `None`. */
  function KeyValues(h: Host, es: seq<Json>): seq<(string, Option<Json>)>
  {
    Assign([], Contributions(h, es))
  }

  lemma AssignSnoc<V>(target: seq<(string, V)>, src: seq<(string, V)>, k: string, v: V)
    ensures Assign(target, src + [(k, v)]) == Put(Assign(target, src), k, v)
  {
    assert (src + [(k, v)])[..|src|] == src;
  }

  /** One more element makes at most one more assignment. */
  lemma KeyValuesStep(h: Host, arr: seq<Json>, i: nat)
    requires i < |arr|
    ensures KeyValues(h, arr[..i + 1]) ==
      match Contribution(h, arr[i])
      case None => KeyValues(h, arr[..i])
      case Some(c) => Put(KeyValues(h, arr[..i]), c.0, c.1)
  {
    var src := Contributions(h, arr[..i]);
    CollectStep(arr, ContributionOf(h), i);
    assert ContributionOf(h)(arr[i]) == Contribution(h, arr[i]);
    match Contribution(h, arr[i])
    case None =>
      assert Contributions(h, arr[..i + 1]) == src;
    case Some(c) =>
      assert Contributions(h, arr[..i + 1]) == src + [(c.0, c.1)];
      AssignSnoc([], src, c.0, c.1);
  }

  method ArrayToKeyValue(h: Host, arr: seq<Json>) returns (out: seq<(string, Option<Json>)>)
    ensures out == KeyValues(h, arr)
  {
    out := [];
    var i := 0;
    while i < |arr|
      invariant 0 <= i <= |arr|
      invariant out == KeyValues(h, arr[..i])
    {
      var el := arr[i];
      KeyValuesStep(h, arr, i);
      if Truthy(el) && IsObjectLike(el) {
        var name, value := Get(el, "name"), Get(el, "value");
        if name.Some? && Truthy(name.value) && value.Some? {
          out := Put(out, ToJsString(h, name.value), value);
        } else {
          var entries := OwnEntries(el);
          if entries == [] {
            out := Put(out, "undefined", None);
          } else {
            out := Put(out, entries[0].0, Some(entries[0].1));
          }
        }
      }
      i := i + 1;
    }
    assert arr[..i] == arr;
  }

  /** Later elements overwrite earlier ones: a key holds what the last element
      that assigns it gave, and keys nobody assigns are absent. */
  lemma KeyValuesLookup(h: Host, es: seq<Json>, k: string)
    ensures Lookup(KeyValues(h, es), k) ==
      if k in Keys(Contributions(h, es)) then Some(LastValue(Contributions(h, es), k)) else None
  {
    AssignLookup([], Contributions(h, es), k);
  }

  /** Elements that are not objects are skipped. */
  lemma KeyValuesSkip(h: Host, es: seq<Json>)
    ensures KeyValues(h, es) == KeyValues(h, Filter(es, ObjectValue))
  {
    CollectFilter(es, ContributionOf(h), ObjectValue);
  }

  /** The rows of an object table: every member, with its value defined. */
  function Defined(es: seq<(string, Json)>): (r: seq<(string, Option<Json>)>)
    ensures |r| == |es| && forall i :: 0 <= i < |es| ==> r[i] == (es[i].0, Some(es[i].1))
  {
    seq(|es|, i requires 0 <= i < |es| => (es[i].0, Some(es[i].1)))
  }

  /** A row of an object table is defined exactly for a member name, and
      holds the value the object gives that name. */
  lemma DefinedLookup(es: seq<(string, Json)>, k: string)
    ensures Lookup(Defined(es), k) == if k in Keys(es) then Some(Lookup(es, k)) else None
  {
    assert Keys(Defined(es)) == Keys(es);
    FindKeySameKeys(es, Defined(es), k);
  }

  /** The rows of the Stats table, or None when the section is absent. The
      source is the first of `stats, attributes, properties, modifiers` that
      holds an object or array, and the numeric own properties otherwise; an
      array source goes through arrayToKeyValue. */
  function StatsRows(h: Host, item: Json): Option<seq<(string, Option<Json>)>>
  {
    var c := FirstKeyWhere(item, StatsKeys, ObjectValue);
    var numeric := NumericFields(item);
    if c.None? && numeric == [] then None
    else
      var target := if c.Some? then Get(item, StatsKeys[c.value]).value else JObj(numeric);
      Some(if target.JArr? then KeyValues(h, target.elems) else Defined(OwnEntries(target)))
  }

  method BuildStats(h: Host, item: Json) returns (r: Option<seq<(string, Option<Json>)>>)
    ensures r == StatsRows(h, item)
  {
    StatsKeysPlain();
    var c := ScanKeys(item, StatsKeys, ObjectValue);
    var stats := if c.Some? then Get(item, StatsKeys[c.value]) else None;
    var numeric := NumericFields(item);
    if stats.None? && numeric == [] {
      return None;
    }
    var target := if stats.Some? then stats.value else JObj(numeric);
    if target.JArr? {
      var kv := ArrayToKeyValue(h, target.elems);
      return Some(kv);
    }
    return Some(Defined(OwnEntries(target)));
  }

  /** The section is absent exactly when no candidate holds an object or
      array and no own property is a number. */
  lemma StatsAbsent(h: Host, item: Json)
    ensures StatsRows(h, item).None? <==>
      (forall j :: 0 <= j < |StatsKeys| ==> !Holds(item, StatsKeys[j], ObjectValue)) &&
      (forall i :: 0 <= i < |OwnEntries(item)| ==> !OwnEntries(item)[i].1.JNum?)
  {
    NumericFieldsEmpty(item);
  }

  /** Only the first candidate that holds an object or array is shown, even
      when it is empty and whatever numbers the record has. */
  lemma StatsFromSource(h: Host, item: Json, k: nat)
    requires k < |StatsKeys| && Holds(item, StatsKeys[k], ObjectValue)
    requires forall j :: 0 <= j < k ==> !Holds(item, StatsKeys[j], ObjectValue)
    ensures var src := Get(item, StatsKeys[k]).value;
      StatsRows(h, item) == Some(if src.JArr? then KeyValues(h, src.elems) else Defined(src.fields))
  {
    FirstKeyWhereAt(item, StatsKeys, ObjectValue, k);
  }

  /** Without a candidate the table lists the numeric own properties. */
  lemma StatsFromNumeric(h: Host, item: Json)
    requires forall j :: 0 <= j < |StatsKeys| ==> !Holds(item, StatsKeys[j], ObjectValue)
    requires exists i :: 0 <= i < |OwnEntries(item)| && OwnEntries(item)[i].1.JNum?
    ensures StatsRows(h, item) == Some(Defined(NumericFields(item)))
  {
    NumericFieldsEmpty(item);
  }

  // ------------------------------------------------------------ Blueprint

  const BlueprintKeys: seq<string> := ["blueprint", "recipe", "ingredients", "materials", "requires", "requirements", "components"]
  const BpNameKeys: seq<string> := ["name", "id", "item"]
  const BpQtyKeys: seq<string> := ["qty", "count", "quantity", "q", "amount"]

  lemma BlueprintKeysPlain()
    ensures forall k :: k in BlueprintKeys ==> k != "" && '.' !in k
  {
  }

  /** A line of the Blueprint list: a text of its own; an element object's
      name (None for undefined) and quantity; or a `qty × name` member of an
      object recipe. */
  datatype BlueprintLine =
    | Item(text: string)
    | Part(name: Option<Json>, qty: Json)
    | Amount(member: string, amount: Json)

  datatype Blueprint = Blueprint(key: string, lines: seq<BlueprintLine>)

  /** bpListItem: a string as it is; an object by `name || id || item ||
      its first key` and `qty || count || quantity || q || amount || ''`;
      anything else as String(el). */
  function BpListItem(h: Host, el: Json): (r: BlueprintLine)
    ensures el.JStr? ==> r == Item(el.s)
    ensures !el.JStr? && !ObjectValue(el) ==> r == Item(ToJsString(h, el))
    ensures ObjectValue(el) ==> r.Part? && (Truthy(r.qty) || r.qty == JStr(""))
    ensures ObjectValue(el) && r.name.Some? && !Truthy(r.name.value) ==>
      OwnEntries(el) != [] && r.name.value == JStr(OwnEntries(el)[0].0) && OwnEntries(el)[0].0 == ""
  {
    if el.JStr? then Item(el.s)
    else if ObjectValue(el) then
      var name := match FirstTruthy(el, BpNameKeys)
        case Some(x) => Some(x)
        case None => if OwnEntries(el) == [] then None else Some(JStr(OwnEntries(el)[0].0));
      Part(name, TruthyOr(el, BpQtyKeys, JStr("")))
    else Item(ToJsString(h, el))
  }

  /** The text of a list line; the quantity prefix only for a truthy quantity. */
  function LineText(h: Host, line: BlueprintLine): string
  {
    match line
    case Item(t) => t
    case Part(n, q) =>
      (if Truthy(q) then ToJsString(h, q) + "× " else "") +
      (if n.Some? then ToJsString(h, n.value) else "undefined")
    case Amount(n, q) => ToJsString(h, q) + " × " + n
  }

  /** An element without a truthy quantity field prints its name alone. */
  lemma PartWithoutQuantity(h: Host, el: Json)
    requires ObjectValue(el) && forall j :: 0 <= j < |BpQtyKeys| ==> !TruthyAt(el, BpQtyKeys[j])
    ensures BpListItem(h, el).qty == JStr("")
    ensures LineText(h, BpListItem(h, el)) ==
      var n := BpListItem(h, el).name; if n.Some? then ToJsString(h, n.value) else "undefined"
  {
  }

  /** The quantity is the first truthy of `qty, count, quantity, q, amount`. */
  lemma PartQuantity(h: Host, el: Json, i: nat)
    requires ObjectValue(el) && i < |BpQtyKeys| && TruthyAt(el, BpQtyKeys[i])
    requires forall j :: 0 <= j < i ==> !TruthyAt(el, BpQtyKeys[j])
    ensures BpListItem(h, el).qty == Get(el, BpQtyKeys[i]).value
  {
    FirstTruthyAt(el, BpQtyKeys, i);
  }

  /** The name is the first truthy of `name, id, item`. */
  lemma PartName(h: Host, el: Json, i: nat)
    requires ObjectValue(el) && i < |BpNameKeys| && TruthyAt(el, BpNameKeys[i])
    requires forall j :: 0 <= j < i ==> !TruthyAt(el, BpNameKeys[j])
    ensures BpListItem(h, el).name == Get(el, BpNameKeys[i])
  {
    FirstTruthyAt(el, BpNameKeys, i);
  }

  /** The name falls back to the element's first key only when `name`, `id`
      and `item` are all falsy. */
  lemma PartNameFallback(h: Host, el: Json)
    requires ObjectValue(el) && forall j :: 0 <= j < |BpNameKeys| ==> !TruthyAt(el, BpNameKeys[j])
    ensures BpListItem(h, el).name ==
      if OwnEntries(el) == [] then None else Some(JStr(OwnEntries(el)[0].0))
  {
  }

  /** The list of a recipe: an array one line per element, an object one
      amount per member, in order. */
  function BlueprintLines(h: Host, v: Json): (r: seq<BlueprintLine>)
    ensures v.JArr? ==> |r| == |v.elems| && forall i :: 0 <= i < |r| ==> r[i] == BpListItem(h, v.elems[i])
    ensures !v.JArr? ==>
      |r| == |OwnEntries(v)| &&
      forall i :: 0 <= i < |r| ==> r[i] == Amount(OwnEntries(v)[i].0, OwnEntries(v)[i].1)
  {
    if v.JArr? then Map(v.elems, el => BpListItem(h, el))
    else Map(OwnEntries(v), (e: (string, Json)) => Amount(e.0, e.1))
  }

  /** The Blueprint section: the first candidate holding an object or array;
      an array lists its elements, an object its members as amounts. */
  function BlueprintOf(h: Host, item: Json): Option<Blueprint>
  {
    match FirstKeyWhere(item, BlueprintKeys, ObjectValue)
    case None => None
    case Some(i) =>
      Some(Blueprint(BlueprintKeys[i], BlueprintLines(h, Get(item, BlueprintKeys[i]).value)))
  }

  method BuildBlueprint(h: Host, item: Json) returns (r: Option<Blueprint>)
    ensures r == BlueprintOf(h, item)
  {
    BlueprintKeysPlain();
    var i := ScanKeys(item, BlueprintKeys, ObjectValue);
    if i.None? {
      return None;
    }
    var k := BlueprintKeys[i.value];
    return Some(Blueprint(k, BlueprintLines(h, Get(item, k).value)));
  }

  /** The section comes from the first candidate holding an object or array;
      truthy values of other types before it are passed over. */
  lemma BlueprintFirst(h: Host, item: Json, k: nat)
    requires k < |BlueprintKeys| && Holds(item, BlueprintKeys[k], ObjectValue)
    requires forall j :: 0 <= j < k ==> !Holds(item, BlueprintKeys[j], ObjectValue)
    ensures BlueprintOf(h, item).Some? && BlueprintOf(h, item).value.key == BlueprintKeys[k]
    ensures var v := Get(item, BlueprintKeys[k]).value;
      |BlueprintOf(h, item).value.lines| == if v.JArr? then |v.elems| else |v.fields|
  {
    FirstKeyWhereAt(item, BlueprintKeys, ObjectValue, k);
  }

  lemma BlueprintAbsent(h: Host, item: Json)
    ensures BlueprintOf(h, item).None? <==>
      forall j :: 0 <= j < |BlueprintKeys| ==> !Holds(item, BlueprintKeys[j], ObjectValue)
  {
  }

  /** `{recipe: "Metal x2", materials: ["Gear"]}`: the string under `recipe`
      is passed over and `materials` gives the section. */
  lemma BlueprintSkipsText(h: Host)
    ensures BlueprintOf(h, JObj([("recipe", JStr("Metal x2")), ("materials", JArr([JStr("Gear")]))]))
         == Some(Blueprint("materials", [Item("Gear")]))
  {
    var item := JObj([("recipe", JStr("Metal x2")), ("materials", JArr([JStr("Gear")]))]);
    assert Keys(item.fields) == ["recipe", "materials"];
    assert Get(item, "materials") == Some(JArr([JStr("Gear")]));
    assert Get(item, "recipe") == Some(JStr("Metal x2"));
    forall j | 0 <= j < 3 ensures !Holds(item, BlueprintKeys[j], ObjectValue) {
      if j != 1 {
        assert BlueprintKeys[j] !in Keys(item.fields);
      }
    }
    FirstKeyWhereAt(item, BlueprintKeys, ObjectValue, 3);
    assert BpListItem(h, JStr("Gear")) == Item("Gear");
    assert BlueprintLines(h, JArr([JStr("Gear")])) == [Item("Gear")];
  }

  // ------------------------------------------------------------ Locations

  const LocationKeys: seq<string> :=
    ["drops", "locations", "spawnLocations", "spawn", "foundIn", "droppedBy", "loot", "lootTable", "dropLocations"]

  lemma LocationKeysPlain()
    ensures forall k :: k in LocationKeys ==> k != "" && '.' !in k
  {
  }

  /** An array is listed one line per element, an object is shown as
      indented JSON, anything else as its text. */
  datatype LocationBody = Lines(texts: seq<string>) | Pretty(v: Json) | Paragraph(text: string)

  datatype Locations = Locations(key: string, body: LocationBody)

  function LocationBodyOf(h: Host, v: Json): (r: LocationBody)
    ensures v.JArr? ==>
      r.Lines? && |r.texts| == |v.elems| &&
      forall i :: 0 <= i < |v.elems| ==> r.texts[i] == CellText(h, v.elems[i])
    ensures v.JObj? ==> r == Pretty(v)
    ensures !v.JArr? && !v.JObj? ==> r == Paragraph(ToJsString(h, v))
  {
    if v.JArr? then Lines(Map(v.elems, el => CellText(h, el)))
    else if v.JObj? then Pretty(v)
    else Paragraph(ToJsString(h, v))
  }

  /** The Locations section: the first candidate with a truthy value of any type. */
  function LocationsOf(h: Host, item: Json): Option<Locations>
  {
    match FirstKeyWhere(item, LocationKeys, Truthy)
    case None => None
    case Some(i) => Some(Locations(LocationKeys[i], LocationBodyOf(h, Get(item, LocationKeys[i]).value)))
  }

  method BuildLocations(h: Host, item: Json) returns (r: Option<Locations>)
    ensures r == LocationsOf(h, item)
  {
    LocationKeysPlain();
    var i := ScanKeys(item, LocationKeys, Truthy);
    if i.None? {
      return None;
    }
    var k := LocationKeys[i.value];
    return Some(Locations(k, LocationBodyOf(h, Get(item, k).value)));
  }

  /** The first truthy candidate gives the section, whatever its type, and the
      section is absent when none is truthy. */
  lemma LocationsFirst(h: Host, item: Json, k: nat)
    requires k < |LocationKeys| && TruthyAt(item, LocationKeys[k])
    requires forall j :: 0 <= j < k ==> !TruthyAt(item, LocationKeys[j])
    ensures LocationsOf(h, item) == Some(Locations(LocationKeys[k], LocationBodyOf(h, Get(item, LocationKeys[k]).value)))
  {
    FirstKeyWhereAt(item, LocationKeys, Truthy, k);
  }

  lemma LocationsAbsent(h: Host, item: Json)
    ensures LocationsOf(h, item).None? <==> FirstTruthy(item, LocationKeys).None?
  {
  }
}
