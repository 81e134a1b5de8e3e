/** The list view's state and its filtering and paging: applyFilters
    (js/app.js:149-166), the page slice of renderList (js/app.js:170-173),
    changePage (js/app.js:190-194), clearFilters (js/app.js:196-203) and the
    state updates of loadDataset (js/app.js:108-119, 126-128). */
module FilterEngine {
  import opened Wrappers
  import opened JsString
  import opened JsonValue
  import opened Seqs
  import opened Candidates
  import opened RecordNormalizer

  const TitleKeys: seq<string> := ["name", "title", "id", "_key"]
  const CategoryKeys: seq<string> := ["type", "category", "tag"]

  /** A query as applyFilters reads it from its input box: trimmed, then
      lower-cased. */
  function Query(input: string): (r: string)
    ensures r == "" <==> AllSpace(input)
  {
    Lower(Trim(input))
  }

  /** The test applyFilters keeps a record by, for queries already trimmed
      and lower-cased: an empty query passes; otherwise the search query must
      occur in the lower-cased title `name || title || id || _key` or in the
      lower-cased JSON text, and the type query in the lower-cased
      `type || category || tag` or in that JSON text. */
  predicate Keep(h: Host, it: Json, q: string, t: string)
  {
    var dump := Lower(h.stringify(it));
    (q == "" || Contains(LowerText(h, TruthyOr(it, TitleKeys, JStr(""))), q) || Contains(dump, q))
    && (t == "" || Contains(LowerText(h, TruthyOr(it, CategoryKeys, JStr(""))), t) || Contains(dump, t))
  }

  function Keeper(h: Host, q: string, t: string): Json -> bool
  {
    it => Keep(h, it, q, t)
  }

  /** The list applyFilters stores: `items.filter(...)`. */
  function FilterItems(h: Host, items: seq<Json>, q: string, t: string): seq<Json>
  {
    Filter(items, Keeper(h, q, t))
  }

  /** The filtered list keeps the order of the records. */
  lemma FilterKeepsOrder(h: Host, items: seq<Json>, q: string, t: string)
    ensures IsSubseq(FilterItems(h, items, q, t), items)
  {
    FilterIsSubseq(items, Keeper(h, q, t));
  }

  /** A record is listed exactly when it is one of the records and passes. */
  lemma FilterMeaning(h: Host, items: seq<Json>, q: string, t: string, x: Json)
    ensures x in FilterItems(h, items, q, t) <==> x in items && Keep(h, x, q, t)
  {
    FilterMembers(items, Keeper(h, q, t), x);
  }

  /** With both boxes blank every record is listed, in order. */
  lemma BlankQueriesKeepAll(h: Host, items: seq<Json>, search: string, typeText: string)
    requires AllSpace(search) && AllSpace(typeText)
    ensures FilterItems(h, items, Query(search), Query(typeText)) == items
  {
    FilterAllPass(items, Keeper(h, Query(search), Query(typeText)));
  }

  /** A record whose lower-cased title holds the search query is listed
      when there is no type query, whatever its JSON text. */
  lemma TitleMatchKept(h: Host, it: Json, q: string)
    requires Contains(LowerText(h, TruthyOr(it, TitleKeys, JStr(""))), q)
    ensures Keep(h, it, q, "")
  {
  }

  // ----------------------------------------------------------------- paging

  /** `Math.max(1, Math.ceil(len / size))`. */
  function PageCount(len: nat, size: nat): (r: nat)
    requires size >= 1
    ensures r >= 1
    ensures len == 0 ==> r == 1
    ensures len > 0 ==> (r - 1) * size < len <= r * size
  {
    if len == 0 then 1 else (len + size - 1) / size
  }

  /** `Math.min(total, Math.max(1, p))`. */
  function ClampPage(p: int, total: nat): (r: nat)
    requires total >= 1
    ensures 1 <= r <= total
    ensures 1 <= p <= total ==> r == p
    ensures p < 1 ==> r == 1
    ensures p > total ==> r == total
  {
    if p < 1 then 1 else if p > total then total else p
  }

  /** `s.slice(a, b)` for non-negative bounds: the elements from `a` up to
      `b`, cut at the end of the list. */
  function JsSlice<T>(s: seq<T>, a: nat, b: nat): (r: seq<T>)
    ensures |r| == if a >= |s| || b <= a then 0 else (if b <= |s| then b else |s|) - a
    ensures forall i :: 0 <= i < |r| ==> r[i] == s[a + i]
  {
    if a >= |s| || b <= a then [] else s[a..if b <= |s| then b else |s|]
  }

  /** The records page `page` shows: at most `size` of them, consecutive,
      starting at `(page - 1) * size`. */
  function PageSlice<T>(s: seq<T>, page: nat, size: nat): (r: seq<T>)
    requires page >= 1 && size >= 1
    ensures |r| <= size
    ensures forall i :: 0 <= i < |r| ==> (page - 1) * size + i < |s| && r[i] == s[(page - 1) * size + i]
    ensures (page - 1) * size >= |s| ==> r == []
    ensures (page - 1) * size + size <= |s| ==> |r| == size
  {
    var start := (page - 1) * size;
    JsSlice(s, start, start + size)
  }

  /** Every record is on exactly the page its position gives, and that page
      is one of the pages changePage allows. */
  lemma PageHolds<T>(s: seq<T>, size: nat, i: nat)
    requires size >= 1 && i < |s|
    ensures var p := i / size + 1;
      p <= PageCount(|s|, size) && i % size < |PageSlice(s, p, size)|
      && PageSlice(s, p, size)[i % size] == s[i]
  {
    var q := i / size;
    var p := q + 1;
    assert q * size + i % size == i;
    assert (p - 1) * size == q * size;
    assert q * size + size == p * size;
    DivLower(p, |s| + size - 1, size);
  }

  /** `a * size <= b` bounds `a` by `b / size`. */
  lemma DivLower(a: nat, b: nat, size: nat)
    requires size >= 1 && a * size <= b
    ensures a <= b / size
  {
    var d := b / size;
    assert d * size + b % size == b;
    if a > d {
      MulMono(d + 1, a, size);
    }
  }

  lemma MulMono(x: nat, y: nat, size: nat)
    requires x <= y
    ensures x * size <= y * size
  {
    assert y * size == x * size + (y - x) * size;
  }

  /** 95 records, 30 to a page: four pages, the first [0, 30), the last
      [90, 95), and a request for page 10 lands on page 4. */
  lemma PagingExample<T>(s: seq<T>)
    requires |s| == 95
    ensures PageCount(95, 30) == 4
    ensures PageSlice(s, 1, 30) == s[0..30]
    ensures PageSlice(s, 4, 30) == s[90..95] && |PageSlice(s, 4, 30)| == 5
    ensures ClampPage(10, PageCount(95, 30)) == 4
  {
  }

  // ------------------------------------------------------------ view state

  /** The fields of the global `state` the list view reads and updates. */
  class ViewState {
    var items: seq<Json>
    var filtered: seq<Json>
    var page: nat
    var pageSize: nat
    var mapsIndex: Option<seq<Json>>

    ghost predicate Valid()
      reads this
    {
      pageSize >= 1 && page >= 1
    }

    /** The state before any dataset has loaded. */
    constructor ()
      ensures Valid()
      ensures items == [] && filtered == [] && page == 1 && pageSize == 30 && mapsIndex.None?
    {
      items := [];
      filtered := [];
      page := 1;
      pageSize := 30;
      mapsIndex := None;
    }

    /** A dataset arrived: its records are listed from the first page. */
    method LoadDataset(data: Json)
      requires Valid()
      modifies this`items, this`filtered, this`page
      ensures Valid()
      ensures items == Normalize(data) && filtered == items && page == 1
    {
      items := Normalize(data);
      filtered := items;
      page := 1;
    }

    /** Loading failed: no records; the page is left as it was. */
    method LoadFailed()
      requires Valid()
      modifies this`items, this`filtered
      ensures Valid()
      ensures items == [] && filtered == []
    {
      items := [];
      filtered := [];
    }

    /** The map index is fetched once; later datasets keep the first one. */
    method LoadMapsIndex(mapsJson: Json)
      modifies this`mapsIndex
      ensures mapsIndex == if old(mapsIndex).None? then Some(Normalize(mapsJson)) else old(mapsIndex)
    {
      if mapsIndex.None? {
        mapsIndex := Some(Normalize(mapsJson));
      }
    }

    /** applyFilters: list the records that pass both queries, from page 1. */
    method ApplyFilters(h: Host, search: string, typeText: string)
      requires Valid()
      modifies this`filtered, this`page
      ensures Valid()
      ensures filtered == FilterItems(h, items, Query(search), Query(typeText))
      ensures page == 1
    {
      var q := Query(search);
      var t := Query(typeText);
      filtered := FilterItems(h, items, q, t);
      page := 1;
    }

    /** clearFilters: every record again, from page 1. */
    method ClearFilters()
      requires Valid()
      modifies this`filtered, this`page
      ensures Valid()
      ensures filtered == items && page == 1
    {
      filtered := items;
      page := 1;
    }

    /** changePage: move by `delta`, kept within the pages there are. */
    method ChangePage(delta: int)
      requires Valid()
      modifies this`page
      ensures Valid()
      ensures page == ClampPage(old(page) + delta, PageCount(|filtered|, pageSize))
      ensures 1 <= page <= PageCount(|filtered|, pageSize)
    {
      var totalPages := if |filtered| == 0 then 1 else (|filtered| + pageSize - 1) / pageSize;
      var p := page + delta;
      page := if p < 1 then 1 else if p > totalPages then totalPages else p;
    }

    /** The records renderList shows. */
    method PageItems() returns (r: seq<Json>)
      requires Valid()
      ensures r == PageSlice(filtered, page, pageSize)
      ensures |r| <= pageSize
    {
      var start := (page - 1) * pageSize;
      if start >= |filtered| {
        r := [];
      } else if start + pageSize <= |filtered| {
        r := filtered[start..start + pageSize];
      } else {
        r := filtered[start..];
      }
    }
  }
}
