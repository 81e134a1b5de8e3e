/** detectQuestsInData (js/app.js:524-543), the requirement list of
    renderQuestGraph (js/app.js:556) and slugify (js/app.js:622-624). */
module QuestGraph {
  import opened Wrappers
  import opened JsString
  import opened JsonValue
  import opened Seqs
  import opened Candidates

  const QuestFlagKeys: seq<string> := ["questID", "prerequisites", "requires", "questName", "quest"]
  const QuestIdKeys: seq<string> := ["_key", "id", "questID", "key"]
  const QuestNameKeys: seq<string> := ["name", "title", "questName", "_key", "id"]
  const QuestReqKeys: seq<string> := ["prerequisites", "requires", "requiresQuest"]

  // -------------------------------------------------------------- slugify

  predicate IsAlnum(c: char)
  {
    'a' <= c <= 'z' || '0' <= c <= '9'
  }

  predicate IsSlugChar(c: char)
  {
    IsAlnum(c) || c == '-'
  }

  /** No two dashes in a row. */
  predicate NoDoubleDash(s: string)
  {
    forall i :: 0 <= i < |s| - 1 ==> !(s[i] == '-' && s[i + 1] == '-')
  }

  /** The string is already a slug: lower-case letters, digits and single
      dashes between them. */
  predicate IsSlug(s: string)
  {
    (forall i :: 0 <= i < |s| ==> IsSlugChar(s[i])) && NoDoubleDash(s)
    && (s != [] ==> s[0] != '-' && s[|s| - 1] != '-')
  }

  /** `toLowerCase().replace(/[^a-z0-9]+/g, '-')`: letters and digits are kept
      and every run of other characters becomes one dash. */
  function Dashify(s: string): (r: string)
    ensures forall i :: 0 <= i < |r| ==> IsSlugChar(r[i])
    ensures NoDoubleDash(r)
    ensures s != [] ==> r != [] && (r[|r| - 1] == '-' <==> !IsAlnum(LowerChar(s[|s| - 1])))
  {
    if s == [] then []
    else
      var p := Dashify(s[..|s| - 1]);
      var c := LowerChar(s[|s| - 1]);
      if IsAlnum(c) then p + [c]
      else if p != [] && p[|p| - 1] == '-' then p
      else p + ['-']
  }

  /** The letters and digits of `t`, in order. */
  function Alnums(t: string): string
  {
    Filter(t, IsAlnum)
  }

  /** For each letter or digit of `t`, in order: whether the character just
      before it is one that is neither (so a run of such characters, which the
      dash step replaces, ends there). */
  function Gaps(t: string): seq<bool>
  {
    if t == [] then []
    else
      var init := t[..|t| - 1];
      if IsAlnum(t[|t| - 1]) then Gaps(init) + [init != [] && !IsAlnum(init[|init| - 1])]
      else Gaps(init)
  }

  lemma AlnumsSnoc(t: string, x: char)
    ensures Alnums(t + [x]) == Alnums(t) + (if IsAlnum(x) then [x] else [])
    ensures Gaps(t + [x]) ==
      if IsAlnum(x) then Gaps(t) + [t != [] && !IsAlnum(t[|t| - 1])] else Gaps(t)
  {
    assert (t + [x])[..|t|] == t;
  }

  /** The dash step keeps the letters and digits, lower-cased and in order. */
  lemma {:induction false} DashifyAlnums(s: string)
    ensures Alnums(Dashify(s)) == Alnums(Lower(s))
  {
    if s != [] {
      var init := s[..|s| - 1];
      var c := LowerChar(s[|s| - 1]);
      DashifyAlnums(init);
      assert Lower(s) == Lower(init) + [c];
      AlnumsSnoc(Lower(init), c);
      AlnumsSnoc(Dashify(init), c);
    }
  }

  /** A letter or digit of the result is preceded by a dash exactly when the
      same letter or digit of the lower-cased input is preceded by a run of
      other characters. With the slug characters, the absence of `--` and
      the final-dash clause of Dashify's contract, this fixes the result. */
  lemma {:induction false} DashifyGaps(s: string)
    ensures Gaps(Dashify(s)) == Gaps(Lower(s))
  {
    if s != [] {
      var init := s[..|s| - 1];
      var c := LowerChar(s[|s| - 1]);
      var p := Dashify(init);
      DashifyGaps(init);
      assert Lower(s) == Lower(init) + [c];
      AlnumsSnoc(Lower(init), c);
      AlnumsSnoc(p, c);
      AlnumsSnoc(p, '-');
      if init != [] {
        assert Lower(init)[|init| - 1] == LowerChar(init[|init| - 1]);
      }
    }
  }

  /** `.replace(/(^-|-$)/g, '')`: one leading and one trailing dash removed. */
  function StripDashes(t: string): string
  {
    var t1 := if t != [] && t[0] == '-' then t[1..] else t;
    if t1 != [] && t1[|t1| - 1] == '-' then t1[..|t1| - 1] else t1
  }

  function Slugify(s: string): string
  {
    StripDashes(Dashify(s))
  }

  /** Removing the end dashes of a dash-step result leaves no dash at either end. */
  lemma StripIsSlug(t: string)
    requires forall i :: 0 <= i < |t| ==> IsSlugChar(t[i])
    requires NoDoubleDash(t)
    ensures IsSlug(StripDashes(t))
  {
    var t1 := if t != [] && t[0] == '-' then t[1..] else t;
    assert forall i :: 0 <= i < |t1| ==> IsSlugChar(t1[i]);
    assert NoDoubleDash(t1);
    assert t1 != [] ==> t1[0] != '-' by {
      if t1 != [] && t != [] && t[0] == '-' {
        assert t1[0] == t[1];
      }
    }
    if t1 != [] && t1[|t1| - 1] == '-' {
      var r := t1[..|t1| - 1];
      assert StripDashes(t) == r;
      if r != [] {
        assert r[|r| - 1] == t1[|t1| - 2];
      }
    }
  }

  /** A slug holds only `[a-z0-9-]`, never `--`, and no dash at either end. */
  lemma SlugifyIsSlug(s: string)
    ensures IsSlug(Slugify(s))
  {
    StripIsSlug(Dashify(s));
  }

  /** A string of slug characters without `--` that does not start with a
      dash passes through the dash step unchanged. */
  lemma {:induction false} DashifyKeeps(t: string)
    requires forall i :: 0 <= i < |t| ==> IsSlugChar(t[i])
    requires NoDoubleDash(t) && (t != [] ==> t[0] != '-')
    ensures Dashify(t) == t
  {
    if t != [] {
      var init := t[..|t| - 1];
      DashifyKeeps(init);
      var c := t[|t| - 1];
      assert LowerChar(c) == c;
      if !IsAlnum(c) {
        assert |t| >= 2 && t[|t| - 2] != '-';
        assert init[|init| - 1] == t[|t| - 2];
      }
    }
  }

  /** Slugifying a slug gives it back, so slugify is idempotent. */
  lemma SlugifyIdempotent(s: string)
    ensures Slugify(Slugify(s)) == Slugify(s)
  {
    var r := Slugify(s);
    SlugifyIsSlug(s);
    DashifyKeeps(r);
  }

  // ------------------------------------------------------------ detection

  /** The filter of detectQuestsInData: `type || category` mentions "quest"
      case-insensitively, or one of the quest fields is truthy. */
  predicate IsQuestLike(h: Host, it: Json)
  {
    Contains(LowerText(h, TruthyOr(it, ["type", "category"], JStr(""))), "quest")
    || exists j :: 0 <= j < |QuestFlagKeys| && TruthyAt(it, QuestFlagKeys[j])
  }

  /** `{id, name, raw, reqs}` as the map step of detectQuestsInData builds it. */
  datatype QuestNode = QuestNode(id: Json, name: Json, raw: Json, reqs: Json)

  /** `_key || id || questID || key || (name && slugify(name)) || null`. */
  function QuestId(h: Host, it: Json): (r: Json)
    ensures r == JNull || Truthy(r)
  {
    match FirstTruthy(it, QuestIdKeys)
    case Some(x) => x
    case None =>
      if TruthyAt(it, "name") && Slugify(ToJsString(h, Get(it, "name").value)) != "" then
        JStr(Slugify(ToJsString(h, Get(it, "name").value)))
      else JNull
  }

  /** The id is the first truthy of `_key, id, questID, key`. */
  lemma QuestIdFirst(h: Host, it: Json, i: nat)
    requires i < |QuestIdKeys| && TruthyAt(it, QuestIdKeys[i])
    requires forall j :: 0 <= j < i ==> !TruthyAt(it, QuestIdKeys[j])
    ensures QuestId(h, it) == Get(it, QuestIdKeys[i]).value
  {
    FirstTruthyAt(it, QuestIdKeys, i);
  }

  /** Without those, a truthy name whose slug is not empty gives the slug. */
  lemma QuestIdFromName(h: Host, it: Json)
    requires forall j :: 0 <= j < |QuestIdKeys| ==> !TruthyAt(it, QuestIdKeys[j])
    requires TruthyAt(it, "name") && Slugify(ToJsString(h, Get(it, "name").value)) != ""
    ensures QuestId(h, it) == JStr(Slugify(ToJsString(h, Get(it, "name").value)))
  {
  }

  /** The id is null exactly when all four id fields are falsy and the name
      is falsy or slugifies to "". */
  lemma QuestIdNull(h: Host, it: Json)
    ensures QuestId(h, it) == JNull <==>
      (forall j :: 0 <= j < |QuestIdKeys| ==> !TruthyAt(it, QuestIdKeys[j])) &&
      (TruthyAt(it, "name") ==> Slugify(ToJsString(h, Get(it, "name").value)) == "")
  {
  }

  /** The node's name is the first truthy of `name, title, questName, _key, id`. */
  lemma QuestNameFirst(h: Host, it: Json, i: nat)
    requires i < |QuestNameKeys| && TruthyAt(it, QuestNameKeys[i])
    requires forall j :: 0 <= j < i ==> !TruthyAt(it, QuestNameKeys[j])
    ensures ToNode(h, it).name == Get(it, QuestNameKeys[i]).value
  {
    FirstTruthyAt(it, QuestNameKeys, i);
  }

  /** Without any of them the node is named "(quest)"; without a truthy
      requirement field its requirements are `[]`. */
  lemma QuestNameDefault(h: Host, it: Json)
    ensures (forall j :: 0 <= j < |QuestNameKeys| ==> !TruthyAt(it, QuestNameKeys[j])) ==>
      ToNode(h, it).name == JStr("(quest)")
    ensures (forall j :: 0 <= j < |QuestReqKeys| ==> !TruthyAt(it, QuestReqKeys[j])) ==>
      ToNode(h, it).reqs == JArr([])
  {
  }

  /** The node's requirements are the first truthy of `prerequisites,
      requires, requiresQuest`. */
  lemma QuestReqsFirst(h: Host, it: Json, i: nat)
    requires i < |QuestReqKeys| && TruthyAt(it, QuestReqKeys[i])
    requires forall j :: 0 <= j < i ==> !TruthyAt(it, QuestReqKeys[j])
    ensures ToNode(h, it).reqs == Get(it, QuestReqKeys[i]).value
  {
    FirstTruthyAt(it, QuestReqKeys, i);
  }

  function ToNode(h: Host, it: Json): (r: QuestNode)
    ensures r.raw == it
  {
    QuestNode(
      QuestId(h, it),
      TruthyOr(it, QuestNameKeys, JStr("(quest)")),
      it,
      TruthyOr(it, QuestReqKeys, JArr([])))
  }

  function QuestLike(h: Host): Json -> bool
  {
    it => IsQuestLike(h, it)
  }

  function Nodes(h: Host): Json -> QuestNode
  {
    it => ToNode(h, it)
  }

  predicate HasId(n: QuestNode)
  {
    Truthy(n.id)
  }

  function RawOf(n: QuestNode): Json
  {
    n.raw
  }

  /** detectQuestsInData over the records. */
  function DetectQuests(h: Host, items: seq<Json>): seq<QuestNode>
  {
    Filter(Map(Filter(items, QuestLike(h)), Nodes(h)), HasId)
  }

  /** A node is produced exactly for a quest-like record whose id is not
      falsy, and is that record's node. */
  lemma DetectQuestsMembers(h: Host, items: seq<Json>, n: QuestNode)
    ensures n in DetectQuests(h, items) <==>
      n.raw in items && IsQuestLike(h, n.raw) && n == ToNode(h, n.raw) && n.id != JNull
  {
    var q := Filter(items, QuestLike(h));
    var nodes := Map(q, Nodes(h));
    FilterMembers(nodes, HasId, n);
    if n in nodes {
      var i :| 0 <= i < |nodes| && nodes[i] == n;
      FilterMembers(items, QuestLike(h), q[i]);
    }
    if n.raw in items && IsQuestLike(h, n.raw) && n == ToNode(h, n.raw) {
      FilterMembers(items, QuestLike(h), n.raw);
      var i :| 0 <= i < |q| && q[i] == n.raw;
      assert nodes[i] == n;
    }
  }

  /** The nodes come in the order of their records. */
  lemma DetectQuestsOrder(h: Host, items: seq<Json>)
    ensures IsSubseq(Map(DetectQuests(h, items), RawOf), items)
  {
    var q := Filter(items, QuestLike(h));
    var nodes := Map(q, Nodes(h));
    var kept := Filter(nodes, HasId);
    FilterIsSubseq(nodes, HasId);
    MapSubseq(kept, nodes, RawOf);
    assert Map(nodes, RawOf) == q;
    FilterIsSubseq(items, QuestLike(h));
    SubseqTrans(Map(kept, RawOf), q, items);
  }

  /** The requirement list renderQuestGraph shows: an array as it is, a
      string as a one-element list, nothing for anything else. */
  function Requirements(reqs: Json): (r: seq<Json>)
    ensures reqs.JArr? ==> r == reqs.elems
    ensures reqs.JStr? ==> r == [reqs]
    ensures !reqs.JArr? && !reqs.JStr? ==> r == []
  {
    match reqs
    case JArr(e) => e
    case JStr(_) => [reqs]
    case _ => []
  }

  /** A record with no id field and no name that slugifies to something is
      dropped, however quest-like it is. */
  lemma NoIdDropped(h: Host, it: Json)
    requires forall j :: 0 <= j < |QuestIdKeys| ==> !TruthyAt(it, QuestIdKeys[j])
    requires TruthyAt(it, "name") ==> Slugify(ToJsString(h, Get(it, "name").value)) == ""
    ensures DetectQuests(h, [it]) == []
  {
    assert ToNode(h, it).id == JNull;
    var d := DetectQuests(h, [it]);
    if d != [] {
      DetectQuestsMembers(h, [it], d[0]);
      assert false;
    }
  }

  /** `[{_key: "q1", name: "A", prerequisites: ["q0"]}, {_key: "q0", name: "B"}]`
      gives one node: the second record has no quest field and no quest type. */
  lemma QuestExample(h: Host)
    ensures var q1 := JObj([("_key", JStr("q1")), ("name", JStr("A")), ("prerequisites", JArr([JStr("q0")]))]);
      var q0 := JObj([("_key", JStr("q0")), ("name", JStr("B"))]);
      DetectQuests(h, [q1, q0]) == [QuestNode(JStr("q1"), JStr("A"), q1, JArr([JStr("q0")]))]
  {
    var q1 := JObj([("_key", JStr("q1")), ("name", JStr("A")), ("prerequisites", JArr([JStr("q0")]))]);
    var q0 := JObj([("_key", JStr("q0")), ("name", JStr("B"))]);
    QuestOneLike(h, q1);
    QuestZeroNotLike(h, q0);
    FilterTwo(q1, q0, QuestLike(h));
    QuestOneNode(h, q1);
    SingleNode(h, q1);
  }

  /** One record that is kept and has an id gives one node. */
  lemma SingleNode(h: Host, it: Json)
    requires HasId(ToNode(h, it))
    ensures Filter(Map([it], Nodes(h)), HasId) == [ToNode(h, it)]
  {
    assert Map([it], Nodes(h)) == [ToNode(h, it)];
  }

  lemma QuestOneLike(h: Host, q1: Json)
    requires q1 == JObj([("_key", JStr("q1")), ("name", JStr("A")), ("prerequisites", JArr([JStr("q0")]))])
    ensures IsQuestLike(h, q1)
  {
    assert Keys(q1.fields) == ["_key", "name", "prerequisites"];
    assert Get(q1, "prerequisites") == Some(JArr([JStr("q0")]));
    assert TruthyAt(q1, QuestFlagKeys[1]);
  }

  lemma QuestZeroNotLike(h: Host, q0: Json)
    requires q0 == JObj([("_key", JStr("q0")), ("name", JStr("B"))])
    ensures !IsQuestLike(h, q0)
  {
    assert Keys(q0.fields) == ["_key", "name"];
    forall j | 0 <= j < |QuestFlagKeys| ensures !TruthyAt(q0, QuestFlagKeys[j]) {
      assert QuestFlagKeys[j] !in Keys(q0.fields);
    }
    assert Get(q0, "type").None? && Get(q0, "category").None?;
    assert TruthyOr(q0, ["type", "category"], JStr("")) == JStr("");
    assert LowerText(h, JStr("")) == "";
  }

  lemma QuestOneNode(h: Host, q1: Json)
    requires q1 == JObj([("_key", JStr("q1")), ("name", JStr("A")), ("prerequisites", JArr([JStr("q0")]))])
    ensures ToNode(h, q1) == QuestNode(JStr("q1"), JStr("A"), q1, JArr([JStr("q0")]))
  {
    assert Keys(q1.fields) == ["_key", "name", "prerequisites"];
    assert Get(q1, "_key") == Some(JStr("q1"));
    assert Get(q1, "name") == Some(JStr("A"));
    assert Get(q1, "prerequisites") == Some(JArr([JStr("q0")]));
    FirstTruthyAt(q1, QuestIdKeys, 0);
    FirstTruthyAt(q1, QuestNameKeys, 0);
    FirstTruthyAt(q1, QuestReqKeys, 0);
  }

  /** A requirement naming no quest in the graph is kept as it is; without a
      name or title the node is named by its `_key`. */
  lemma DanglingKept(h: Host)
    ensures var q2 := JObj([("_key", JStr("q2")), ("prerequisites", JArr([JStr("missing")]))]);
      DetectQuests(h, [q2]) == [QuestNode(JStr("q2"), JStr("q2"), q2, JArr([JStr("missing")]))]
      && Requirements(DetectQuests(h, [q2])[0].reqs) == [JStr("missing")]
  {
    var q2 := JObj([("_key", JStr("q2")), ("prerequisites", JArr([JStr("missing")]))]);
    DanglingLike(h, q2);
    assert Filter([q2], QuestLike(h)) == [q2] by {
      assert [q2][..0] == [];
    }
    DanglingNode(h, q2);
    SingleNode(h, q2);
  }

  lemma DanglingLike(h: Host, q2: Json)
    requires q2 == JObj([("_key", JStr("q2")), ("prerequisites", JArr([JStr("missing")]))])
    ensures IsQuestLike(h, q2)
  {
    assert Keys(q2.fields) == ["_key", "prerequisites"];
    assert Get(q2, "prerequisites") == Some(JArr([JStr("missing")]));
    assert TruthyAt(q2, QuestFlagKeys[1]);
  }

  lemma DanglingNode(h: Host, q2: Json)
    requires q2 == JObj([("_key", JStr("q2")), ("prerequisites", JArr([JStr("missing")]))])
    ensures ToNode(h, q2) == QuestNode(JStr("q2"), JStr("q2"), q2, JArr([JStr("missing")]))
  {
    assert Keys(q2.fields) == ["_key", "prerequisites"];
    assert Get(q2, "_key") == Some(JStr("q2"));
    assert Get(q2, "prerequisites") == Some(JArr([JStr("missing")]));
    FirstTruthyAt(q2, QuestIdKeys, 0);
    FirstTruthyAt(q2, QuestReqKeys, 0);
    forall j | 0 <= j < 3 ensures !TruthyAt(q2, QuestNameKeys[j]) {
      assert QuestNameKeys[j] !in Keys(q2.fields);
    }
    FirstTruthyAt(q2, QuestNameKeys, 3);
  }
}
