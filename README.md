# ARCDEPOT data engine, modelled in Dafny

ARCDEPOT is a browser viewer for schema-free game datasets (items, quests,
maps). Behind its Leaflet map and DOM views, `js/app.js` contains a small
engine that interprets untyped JSON. The engine:

- turns a dataset into a list of records;
- reads fields by direct or dotted paths;
- finds a map position in a record through a ranked cascade of rules, and
  falls back to the centre of the map the record names;
- picks the data behind the Basic, Stats, Blueprint and Locations sections
  of the detail view;
- detects quest records and builds their graph nodes;
- filters and pages the result list;
- escapes text for HTML and picks a marker colour.

This project models that engine and proves what each rule chooses.

Modules:

- `JsonValue` (json.dfy) holds JSON values with ordered object members, plus the
  JavaScript notions the code tests them with:
  - truthiness;
  - `typeof … === 'object'`;
  - property lookup and assignment;
  - `Object.entries`;
  - `String(v)`.

  Conversions the host performs and the model does not define are fields of
  a `Host` parameter: `Number#toString`, `parseFloat` returning None for NaN,
  and `JSON.stringify`.
- `JsString` (jsstring.dfy) covers `trim`, `toLowerCase` on ASCII letters,
  `includes` and `split` on one character.
- `Seqs` (seqs.dfy) covers `filter`, `map` and `find` over sequences, and what
  keeping order means.
- `Candidates` (candidates.dfy) covers the `a || b || c` chains and the loops that
  stop at the first candidate key whose value qualifies.
- `RecordNormalizer` (normalizer.dfy) models `normalizeToArray` and
  `Object.assign`.
- `FieldResolver` (resolver.dfy) models `deepFind`.
- `CoordinateExtractor` (coordinates.dfy) models `extractCoordinates`.
- `MapLookup` (maps.dfy) models `findMapReference`, `findMapByRef` and the
  map-centre fallback of `renderMarkers`.
- `SectionClassifier` (sections.dfy) models the Basic table,
  `buildStatsSection`, `arrayToKeyValue`, `buildBlueprintSection`,
  `bpListItem` and `buildLocationsSection`. It models each section as the
  data it shows, not as DOM nodes.
- `QuestGraph` (quests.dfy) models `detectQuestsInData`, the requirement list of
  `renderQuestGraph`, and `slugify`.
- `FilterEngine` (filters.dfy) models the `applyFilters` predicate, the page
  slice of `renderList`, and `changePage`. It also has a `ViewState` class
  holding the fields of the global `state` that the loaders, `applyFilters`,
  `clearFilters` and `changePage` update in place.
- `Markup` (markup.dfy) models `escapeHtml` and the colour rule of
  `createIconForItem`.

The engine's own loops (deepFind, extractCoordinates, findMapReference, the
candidate loops of the Stats, Blueprint and Locations builders, the Basic
table and arrayToKeyValue) are methods with loops. Each such method is proved
equal to a specification function, and the source's promises are proved
about that function as lemmas. The loops that only emit one DOM line per
element are modelled as the list of lines (`Map` over the elements).

Behaviour of the source that the model makes explicit:

- **normalizeToArray returns an array unchanged.** Its elements are not
  wrapped, even when they are not objects.
- **Positions copy values as they are.** The x/y, mapX/mapY and array rules
  copy the JSON values without converting them. A `GeoPoint` therefore holds
  two JSON values, not two numbers.
- **The Stats section can be empty.** It is present whenever a candidate
  field holds an object or array, even an empty `{}` or `[]`. The table is
  then empty.
- **A record with no quest field and no quest type yields no node.**
  `[{_key:"q1", name:"A", prerequisites:["q0"]}, {_key:"q0", name:"B"}]`
  yields only q1's node: q0 is referenced as a prerequisite but is not
  itself quest-like (`QuestExample`).
- **A quest record without `name`, `title` or `questName` is named by its
  `_key`.** `{_key:"q2", prerequisites:["missing"]}` gives the node
  `{id: "q2", name: "q2"}` and keeps its dangling requirement (`DanglingKept`).
- **A "lat,lng" string under a path field is found by the own-key scan.**
  For `{coords: "3,4"}` the path rule does reach the string `"3,4"`, but a
  string has no position of its own: its own entries are single characters.
  The last rule, the scan of the record's own string values, then yields
  `{lat: 3, lng: 4}` (`CoordsStringExample`).
- **The type filter also searches the serialised record.** A record passes
  when the type term occurs in `type || category || tag` or anywhere in the
  lower-cased JSON text of the record.

## Model

| member | source | states |
|---|---|---|
| JsonValue.FindKey | js/app.js:141 | the position found holds the name, no earlier member holds it, and there is none exactly when the name is absent |
| JsonValue.Lookup | js/app.js:141 | a member has a value exactly when its name is among the object's names, and the value is that of the first member with the name |
| JsonValue.Put | js/app.js:438-442 | an assignment `o[k] = v` makes `k` read `v` and leaves every other name reading what it read; an existing name keeps its place, a new one is appended; an object without repeated names keeps none |
| JsonValue.PutNew | js/app.js:438-442 | assigning an absent name appends it and changes no other lookup |
| JsonValue.PutExisting | js/app.js:438-442 | assigning a present name keeps the names and their order and changes no other lookup |
| JsonValue.Get | js/app.js:606 | a property is defined exactly when the value is an object having that name; on an object it is the member lookup, and its value is part of the object |
| JsonValue.OwnEntriesUnique | js/app.js:139 | `Object.entries` never repeats a name: array and string index names are distinct, and so are an object's when it has no repeated member |
| JsonValue.OwnEntriesIndex | js/app.js:139 | the entry named `"i"` of an array is its element `i` |
| JsonValue.OwnEntriesChar | js/app.js:380 | the entry named `"i"` of a string is its character `i` |
| JsonValue.NatToStringInjective | js/app.js:139 | different indices have different decimal names |
| JsString.Trim | js/app.js:150 | the trimmed text is empty exactly when the text is all white space, and otherwise starts and ends with a non-space |
| JsString.TrimIsSlice | js/app.js:150 | the trimmed text is the text with a white-space prefix and a white-space suffix cut off |
| JsString.Lower | js/app.js:150 | lower-casing keeps the length and lower-cases every character (a definition; its character rule is LowerChar) |
| JsString.LowerChar | js/app.js:150 | `A`-`Z` become `a`-`z` and every other character is unchanged |
| JsString.Split | js/app.js:381 | splitting on a character gives one part more than there are separators, and no part holds the separator |
| JsString.JoinSplit | js/app.js:381 | joining the parts of a split with the separator gives back the string |
| JsString.SplitAround | js/app.js:381 | `a + c + b` with no `c` in `a` or `b` splits into exactly `[a, b]` |
| JsString.ContainsAt | js/app.js:155 | `includes` holds exactly when the substring occurs at some position |
| Seqs.FilterMembers | js/app.js:152-162 | `filter` keeps exactly the elements that pass |
| Seqs.FilterIsSubseq | js/app.js:152-162 | `filter` keeps the order of its input |
| Seqs.FindFirst | js/app.js:403 | `find` returns the first position whose element passes, and none when no element passes |
| Candidates.FirstKeyWhere | js/app.js:410-416 | the candidate loop stops at a key whose value qualifies, with no qualifying key before it, and finds none only when no key qualifies |
| Candidates.FirstTruthy | js/app.js:391-397 | `v.k1 \|\| … \|\| v.kn` is the value of the first truthy key, and undefined exactly when all keys are falsy |
| Candidates.TruthyOr | js/app.js:537 | a chain with a default gives the value of the first truthy key, and the default when every key is falsy |
| Candidates.FirstTruthyAt | js/app.js:292 | a truthy key with no truthy key before it is what the chain gives |
| Candidates.FirstKeyWhereAt | js/app.js:449-454 | a qualifying key with no qualifying key before it is where the loop stops |
| Candidates.ScanKeys | js/app.js:410-416 | the loop over plain candidate names, reading each with deepFind and stopping at the first defined truthy value that qualifies, equals FirstKeyWhere |
| RecordNormalizer.NormalizeArray | js/app.js:137 | an array dataset is its own list of records |
| RecordNormalizer.NormalizeOther | js/app.js:146 | a dataset that is neither an array nor an object gives no records |
| RecordNormalizer.NormalizeObject | js/app.js:138-145 | an object dataset gives one record per entry in key order; each record is an object whose first member is `_key` and has no repeated names |
| RecordNormalizer.RecordShape | js/app.js:139-145 | every record is an object, starts with `_key` and has no repeated names |
| RecordNormalizer.RecordOfObject | js/app.js:140-142 | a record merged from an object or array takes the value's own `_key` entry when it has one and the entry key otherwise, and holds every other own entry of the value unchanged |
| RecordNormalizer.RecordOfScalar | js/app.js:143-144 | a record of a non-object value holds exactly `_key` and `value` |
| RecordNormalizer.AssignLookup | js/app.js:141 | after `Object.assign` a name reads the last source entry with that name, or the target's value when the source has none |
| RecordNormalizer.AssignKeepsPrefix | js/app.js:141 | `Object.assign` keeps the target's names first and in place, and adds no repeated name |
| RecordNormalizer.LastValueUnique | js/app.js:141 | in an object without repeated names the last entry with a name is the one lookup finds |
| FieldResolver.DeepFind | js/app.js:603-614 | the loop over the path's segments returns what Resolve gives |
| FieldResolver.ResolveFalsy | js/app.js:604-605 | a falsy object or an empty path gives undefined |
| FieldResolver.ResolveKey | js/app.js:606 | a non-empty path without a dot is a direct property read |
| FieldResolver.WalkAppend | js/app.js:609-612 | walking a path in two pieces is walking the first, then the second from where it ended |
| FieldResolver.LastSegment | js/app.js:609-613 | the last segment's value is returned as it is (null and 0 included) when the walk up to it ended on a truthy value, and undefined otherwise |
| FieldResolver.ResolveDotted | js/app.js:607-613 | `a.b` reads `b` of a truthy `a`, and is undefined when `a` is falsy or missing |
| CoordinateExtractor.ExtractCoordinates | js/app.js:352-387 | the method with its two early-returning loops computes the cascade Extract |
| CoordinateExtractor.SearchPaths | js/app.js:363-369 | the loop over `position, pos, coords, location, spawn` returns the first position found under a truthy field |
| CoordinateExtractor.ScanStrings | js/app.js:379-385 | the loop over own entries returns the first string that reads as "lat,lng" |
| CoordinateExtractor.LatLngRule | js/app.js:355 | numeric `lat`/`lng` give `{lat, lng}` before every other rule |
| CoordinateExtractor.LatitudeRule | js/app.js:356 | numeric `latitude`/`longitude` give the position when `lat`/`lng` do not |
| CoordinateExtractor.XyRule | js/app.js:357 | numeric `x`/`y` give `{lat: y, lng: x}` when the first two rules do not apply |
| CoordinateExtractor.ArrayRule | js/app.js:359-361 | an array starting with two numbers gives `{lat: a[1], lng: a[0]}` |
| CoordinateExtractor.LatLngBeatsXy | js/app.js:355-357 | a record with both `x`/`y` and `lat`/`lng` is placed at its `lat`/`lng` |
| CoordinateExtractor.PathRule | js/app.js:363-369 | when no direct rule applies, the first candidate path whose truthy value has a position gives it |
| CoordinateExtractor.FromPathsFirst | js/app.js:364-369 | the path search returns the position under the first path that leads to one |
| CoordinateExtractor.FromPathsNone | js/app.js:364-369 | the path search finds nothing when no path leads to a position |
| CoordinateExtractor.MapXyRule | js/app.js:371-373 | when no path leads to a position, defined `mapX`/`mapY` of any type give `{lat: mapY, lng: mapX}` |
| CoordinateExtractor.StringRule | js/app.js:378-386 | otherwise the result is the first own string "a,b" whose trimmed halves parse, and null when there is none |
| CoordinateExtractor.FromStringsFirst | js/app.js:379-385 | the own-key scan stops at the first entry that reads as a position |
| CoordinateExtractor.CommaPointPair | js/app.js:381-383 | "a,b" with one comma gives `{lat: a, lng: b}` when both trimmed halves parse |
| CoordinateExtractor.CommaPointOneComma | js/app.js:381 | a string without exactly one comma never reads as a position |
| CoordinateExtractor.CommaPointExample | js/app.js:381-383 | "3,4" reads as `{lat: 3, lng: 4}` |
| CoordinateExtractor.StringHasNoPoint | js/app.js:378-386 | a string value has no position of its own when parseFloat("") is NaN |
| CoordinateExtractor.CoordsStringExample | js/app.js:363-386 | `{coords: "3,4"}` is placed at `{lat: 3, lng: 4}`, found by the scan of own string values |
| MapLookup.FindMapReference | js/app.js:391-397 | the loop returns the first truthy value of `map, mapId, mapName, zone, area, locationMap`, and null when there is none |
| MapLookup.FindMapByRef | js/app.js:400-404 | no map without an index; otherwise the first entry whose truthy name, id or key matches the lower-cased reference, and none exactly when no entry matches |
| MapLookup.FindMapAt | js/app.js:400-404 | a matching entry with no match before it is the map found |
| MapLookup.FindMapCaseInsensitive | js/app.js:402-403 | references that differ only in letter case find the same map |
| MapLookup.Center | js/app.js:291-292 | the centre is the value of the first truthy of `center`, `location`, `coords`, and undefined exactly when all three are falsy |
| MapLookup.OwnPositionWins | js/app.js:279-281 | a record with its own position is placed there, whatever map it names |
| MapLookup.MarkerNeedsMap | js/app.js:286-293 | without its own position a record is placed only through a reference, an index, a matching map and a centre |
| MapLookup.MapCenterFallback | js/app.js:287-293 | the first map field names the first matching entry, whose first truthy centre field gives the position |
| SectionClassifier.Present | js/app.js:218-227 | the Basic rows are exactly the defined fields, null, false and 0 included, each with its value, in the order of the field list |
| SectionClassifier.BasicFields | js/app.js:218-227 | the loop over the Basic fields builds those rows |
| SectionClassifier.NumericFieldsLookup | js/app.js:419 | the numeric fields are exactly the record's own numeric properties, with their values |
| SectionClassifier.NumericFieldsEmpty | js/app.js:419-420 | there are no numeric fields exactly when no own property is a number |
| SectionClassifier.ArrayToKeyValue | js/app.js:435-447 | the loop builds the object of all assignments, one per object element, the later overwriting the earlier |
| SectionClassifier.KeyValuesLookup | js/app.js:438-442 | a key of arrayToKeyValue holds what the last element assigning it gave, and a key nobody assigns is absent |
| SectionClassifier.KeyValuesSkip | js/app.js:438 | elements that are not objects contribute nothing |
| SectionClassifier.DefinedLookup | js/app.js:423-425 | a row of an object table is defined exactly for a member name, and holds what the object gives that name |
| SectionClassifier.BuildStats | js/app.js:408-433 | the builder's loop with its break, and the choice of rows after it, compute StatsRows |
| SectionClassifier.StatsAbsent | js/app.js:420 | the Stats section is absent exactly when no candidate holds an object or array and no own property is a number |
| SectionClassifier.StatsFromSource | js/app.js:410-422 | the first candidate holding an object or array is the source, whatever numeric fields exist |
| SectionClassifier.StatsFromNumeric | js/app.js:419-424 | without such a candidate the numeric fields are the rows |
| SectionClassifier.BpListItem | js/app.js:470-479 | a string element is listed as it is; an object element as a part with a truthy or empty quantity; anything else as its text |
| SectionClassifier.PartName | js/app.js:474 | the part's name is the value of the first truthy of `name`, `id`, `item` |
| SectionClassifier.PartQuantity | js/app.js:475 | the part's quantity is the value of the first truthy of `qty`, `count`, `quantity`, `q`, `amount` |
| SectionClassifier.PartWithoutQuantity | js/app.js:474-476 | an element without a truthy quantity field prints its name alone |
| SectionClassifier.PartNameFallback | js/app.js:474 | the name falls back to the first own key only when `name`, `id` and `item` are all falsy |
| SectionClassifier.BlueprintLines | js/app.js:456-461 | an array lists one line per element in order; an object lists one amount per member in order (a definition) |
| SectionClassifier.BuildBlueprint | js/app.js:449-467 | the loop stops at the first candidate holding an object or array and lists it |
| SectionClassifier.BlueprintFirst | js/app.js:451-454 | the section comes from the first candidate holding an object or array; truthy values of other types before it are passed over |
| SectionClassifier.BlueprintAbsent | js/app.js:466 | the section is absent exactly when no candidate holds an object or array |
| SectionClassifier.BlueprintSkipsText | js/app.js:451-454 | `{recipe: "Metal x2", materials: ["Gear"]}` takes its section from `materials` |
| SectionClassifier.LocationBodyOf | js/app.js:487-499 | an array is listed one line per element, each element's cell text; an object is shown as indented JSON; anything else as its text (a definition) |
| SectionClassifier.BuildLocations | js/app.js:481-504 | the loop stops at the first truthy candidate, of any type |
| SectionClassifier.LocationsFirst | js/app.js:483-486 | the first truthy candidate gives the section |
| SectionClassifier.LocationsAbsent | js/app.js:503 | the section is absent exactly when every candidate is falsy |
| QuestGraph.Dashify | js/app.js:623 | the dash step leaves only `[a-z0-9-]`, never `--`, and ends in a dash exactly when the input ends in a non-alphanumeric character; which characters survive is DashifyAlnums and DashifyGaps |
| QuestGraph.DashifyAlnums | js/app.js:623 | the letters and digits of the result are exactly those of the lower-cased input, in the same order |
| QuestGraph.DashifyGaps | js/app.js:623 | the result has a dash just before its k-th letter or digit exactly when the lower-cased input has another character just before its k-th letter or digit: each run of other characters between two alphanumerics becomes one dash |
| QuestGraph.SlugifyIsSlug | js/app.js:622-624 | a slug holds only `[a-z0-9-]`, never `--`, and has no dash at either end |
| QuestGraph.DashifyKeeps | js/app.js:623 | a slug passes through the dash step unchanged |
| QuestGraph.SlugifyIdempotent | js/app.js:622-624 | slugifying a slug gives it back |
| QuestGraph.QuestId | js/app.js:536 | a node's id is null or truthy |
| QuestGraph.QuestIdFirst | js/app.js:536 | the id is the value of the first truthy of `_key`, `id`, `questID`, `key` |
| QuestGraph.QuestIdFromName | js/app.js:536 | without those, a truthy name whose slug is not empty gives the slug as the id |
| QuestGraph.QuestIdNull | js/app.js:536 | the id is null exactly when all four id fields are falsy and the name is falsy or slugifies to the empty text |
| QuestGraph.QuestNameFirst | js/app.js:537 | the node's name is the value of the first truthy of `name`, `title`, `questName`, `_key`, `id` |
| QuestGraph.QuestNameDefault | js/app.js:537-539 | without any of them the name is "(quest)", and without a truthy requirement field the requirements are `[]` |
| QuestGraph.QuestReqsFirst | js/app.js:539 | the requirements are the value of the first truthy of `prerequisites`, `requires`, `requiresQuest` |
| QuestGraph.DetectQuestsMembers | js/app.js:524-543 | a node is produced exactly for a quest-like record whose id is not null, and it is that record's node |
| QuestGraph.DetectQuestsOrder | js/app.js:526-541 | the nodes come in the order of their records |
| QuestGraph.NoIdDropped | js/app.js:536-541 | a record without an id field, and whose name slugifies to "", is dropped |
| QuestGraph.Requirements | js/app.js:556 | an array of requirements is kept as it is, a string becomes a one-element list, anything else none (a definition) |
| QuestGraph.QuestExample | js/app.js:524-543 | the two-record example gives exactly one node, q1's, with its requirement list |
| QuestGraph.DanglingKept | js/app.js:534-541 | a record that names a missing prerequisite still gives a node, named by its `_key` |
| FilterEngine.Query | js/app.js:150-151 | a read query is empty exactly when its box holds only white space |
| FilterEngine.FilterKeepsOrder | js/app.js:152-162 | the filtered list keeps the order of the records |
| FilterEngine.FilterMeaning | js/app.js:152-162 | a record is listed exactly when it is one of the records and passes both the title-or-JSON test and the type-or-JSON test |
| FilterEngine.BlankQueriesKeepAll | js/app.js:150-162 | with both boxes blank every record is listed |
| FilterEngine.TitleMatchKept | js/app.js:154-155 | a record whose lower-cased title holds the search query passes it |
| FilterEngine.PageCount | js/app.js:191 | there is at least one page, and the pages cover the list with the last one non-empty |
| FilterEngine.ClampPage | js/app.js:192 | the page is kept within `[1, total]`, and a page already inside is kept |
| FilterEngine.JsSlice | js/app.js:172 | `slice(a, b)` gives the elements from `a` up to `b`, cut at the end of the list |
| FilterEngine.PageSlice | js/app.js:171-172 | a page shows at most `pageSize` consecutive records starting at `(page - 1) * pageSize`, a full page when the list reaches that far, and none past the end |
| FilterEngine.PageHolds | js/app.js:171-172 | every record sits on the page its position gives, and that page is one changePage allows |
| FilterEngine.PagingExample | js/app.js:171-192 | 95 records, 30 to a page: 4 pages, the last holding 5, and page 10 clamps to 4 |
| FilterEngine.ViewState.constructor | js/app.js:38-49 | the initial state: no records, page 1, 30 to a page, no map index |
| FilterEngine.ViewState.LoadDataset | js/app.js:108-111 | a loaded dataset is normalised, all of it is listed, from page 1 |
| FilterEngine.ViewState.LoadFailed | js/app.js:126-128 | a failed load leaves no records, and the page untouched |
| FilterEngine.ViewState.LoadMapsIndex | js/app.js:114-119 | the map index is fetched only while there is none |
| FilterEngine.ViewState.ApplyFilters | js/app.js:149-163 | the filtered list becomes the records that pass the read queries, and the page 1 |
| FilterEngine.ViewState.ClearFilters | js/app.js:196-200 | every record is listed again, from page 1 |
| FilterEngine.ViewState.ChangePage | js/app.js:190-192 | the page moves by `delta`, clamped to `[1, max(1, ceil(len / pageSize))]` |
| FilterEngine.ViewState.PageItems | js/app.js:171-172 | the records shown are the page slice of the filtered list |
| Markup.Escape | js/app.js:617-619 | escaped text holds no raw `<`, `>`, `"`, `'` or backquote, and text without special characters is unchanged |
| Markup.UnescapeEscape | js/app.js:617-619 | decoding the six entities gives back the text, so escaping loses nothing |
| Markup.EscapeFalsy | js/app.js:617 | a falsy value escapes to "" |
| Markup.IconColor | js/app.js:331-336 | the sequence of overriding tests picks the colour of the highest-priority match: bot, quest, blueprint/recipe/project, weapon, default |
| Markup.QuestBeatsWeapon | js/app.js:333-335 | a type naming both a weapon and a quest, and no bot, gets the quest colour |
| JsonValue.Truthy | js/app.js:353 | JavaScript truthiness: null, false, 0 and "" are falsy, every other value truthy (a definition; used by every `\|\|` chain) |
| JsonValue.ToJsString | js/app.js:477 | `String(v)`: "null", "true"/"false", the host's number text, the string itself, the elements joined by commas with null as "", "[object Object]" (a definition) |
| RecordNormalizer.Record | js/app.js:139-145 | one record of an object dataset (a definition; its shape is RecordShape, RecordOfObject and RecordOfScalar) |
| RecordNormalizer.Normalize | js/app.js:136-147 | normalizeToArray (a definition; its properties are NormalizeArray, NormalizeObject and NormalizeOther) |
| FieldResolver.Walk | js/app.js:608-613 | the segment walk of deepFind, undefined once a step is falsy (a definition; see WalkAppend and LastSegment) |
| FieldResolver.Resolve | js/app.js:603-614 | deepFind as a function (a definition; see ResolveFalsy, ResolveKey and ResolveDotted) |
| CoordinateExtractor.Extract | js/app.js:352-387 | the rule cascade of extractCoordinates (a definition; each rule is a lemma: LatLngRule to StringRule) |
| CoordinateExtractor.FromPaths | js/app.js:363-370 | the path rule from a given path on (a definition; see FromPathsFirst and FromPathsNone) |
| MapLookup.MarkerPoint | js/app.js:279-293 | where renderMarkers places a record (a definition; see OwnPositionWins, MarkerNeedsMap and MapCenterFallback) |
| QuestGraph.StripDashes | js/app.js:623 | `replace(/(^-\|-$)/g, '')` (a definition) |
| QuestGraph.Slugify | js/app.js:622-624 | slugify (a definition; see SlugifyIsSlug and SlugifyIdempotent) |
| QuestGraph.IsQuestLike | js/app.js:526-532 | the quest filter of detectQuestsInData (a definition) |
| QuestGraph.ToNode | js/app.js:534-540 | the node built for a quest record, which keeps the record itself as `raw` (see QuestIdFirst, QuestNameFirst, QuestReqsFirst) |
| QuestGraph.DetectQuests | js/app.js:524-543 | detectQuestsInData (a definition; see DetectQuestsMembers and DetectQuestsOrder) |
| FilterEngine.Keep | js/app.js:153-161 | the applyFilters predicate (a definition; see FilterMeaning and TitleMatchKept) |
| FilterEngine.FilterItems | js/app.js:152-162 | the filtered list (a definition; see FilterKeepsOrder and BlankQueriesKeepAll) |
| SectionClassifier.Contribution | js/app.js:437-443 | the assignment one element of arrayToKeyValue makes (a definition) |
| SectionClassifier.KeyValues | js/app.js:435-447 | arrayToKeyValue as a function (a definition; see KeyValuesLookup and KeyValuesSkip) |
| SectionClassifier.StatsRows | js/app.js:408-425 | the rows of the Stats table (a definition; see StatsAbsent, StatsFromSource, StatsFromNumeric) |
| SectionClassifier.BlueprintOf | js/app.js:449-468 | the Blueprint section (a definition; see BlueprintFirst and BlueprintAbsent) |
| SectionClassifier.LocationsOf | js/app.js:481-504 | the Locations section (a definition; see LocationsFirst and LocationsAbsent) |
| Markup.EscapeHtml | js/app.js:616-620 | escapeHtml (a definition; see EscapeFalsy, Escape and UnescapeEscape) |
| Markup.ColorFor | js/app.js:331-336 | the colour of a lower-cased type text in priority order bot, quest, blueprint/recipe/project, weapon, default (a definition; IconColor is proved equal to it) |

## Left out

- DOM, Leaflet and SVG construction: element creation, `innerHTML`, table rows, markers, clustering, `fitBounds`, modals. Only the data the views show is modelled.
- Network and file I/O: `fetch`, `FileReader`, `confirm` and `alert`. The loaders are modelled as state updates that receive the parsed JSON.
- The global popup bridge (`window.__app_showDetailFromPopup`, `window.__app_state`). It round-trips through `encodeURIComponent` and global scope.
- `hasCoordinates` (js/app.js:348-350) is a one-line wrapper, so it has no separate member. `MarkerPoint` and `Extract` stand for it.
- `parseFloat`, `Number#toString` and `JSON.stringify` are fields of the `Host` parameter and stay uninterpreted. The only facts about them are explicit preconditions: parseFloat("") is NaN (`StringHasNoPoint`, `CoordsStringNoPath`, `CoordsStringExample`), and parseFloat("3") is 3 and parseFloat("4") is 4 (`CommaPointExample`, `CoordsStringExample`).
- Numbers are mathematical reals. NaN, the infinities and negative zero are not represented.
- Lower-casing covers ASCII letters only. JavaScript's full Unicode case mapping is not modelled.
- Property access applies only to JSON objects. Array index properties and `length` are not read by `Get`, since the engine's keys are never numeric.
- Members of a JSON object keep insertion order. JavaScript lists integer-like keys first, in ascending order; this is not modelled.
- `__proto__` and other inherited properties are not modelled.
- A JSON object value is taken to have distinct member names, as `JSON.parse` never yields repeats. The `JObj` type itself admits repeated names; on such a value `Lookup` and `Get` return the first member, where JavaScript keeps the last. The lemmas that depend on this (`OwnEntriesUnique`, `LastValueAt`, `LastValueUnique` and `RecordOfObject`) require `UniqueKeys`.
- A null record, which an array dataset may hold, makes the source's `it.name`, `it.type` or `Object.entries(item)` throw a TypeError. The model does not throw: it reads null as having no properties and no entries. Records that are numbers, booleans or strings do not throw in the source either; as in JavaScript, the model gives them no named properties, and a string's entries are its characters.
- Strings are sequences of Unicode scalar values, while JavaScript strings are UTF-16 code units. The two differ for characters outside the Basic Multilingual Plane: there `Object.entries` of a string, and the string scan of `extractCoordinates`, see two entries per character in JavaScript and one in the model.
- The page indicator text and the pretty-printed JSON of the raw-data pane are left out, because they are host text.
- Dead code is left out: the repeated x/y check after mapX/mapY (js/app.js:375-377), which earlier rules make unreachable, and the helpers that are never called (js/app.js:626-628, 641-659, 666-670).
- The quest graph's rendering is left out: the `byId` table and the escaped node texts (js/app.js:545-570). Only the requirement list is modelled.
- Re-rendering after a state change (renderList, renderMarkers) is not modelled; the methods of `ViewState` model only the state updates.
