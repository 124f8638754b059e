/**
 What the comparison of scenes comes to, in terms of the scenes themselves
 (backend/app/api/frame_sync.py:433-541, 544-652, 855-920): when two scenes count as equal, which
 scenes are reported as what, and what their details name.
 */
module SceneMeaning {
  import opened PyText
  import opened Json
  import opened JsonDiff
  import opened SceneDiff

  // ---- nodes, edges and scenes by key -----------------------------------------------

  /** An entry goes by its id, or by its position if it has none. */
  function GoesBy(item: Json, i: nat): string {
    if Truthy(Get(item, "id")) then PyStr(Get(item, "id")) else "index:" + Decimal(i)
  }

  lemma GoesByIs(item: Json, i: nat)
    ensures IdOrIndex(item, i) == GoesBy(item, i)
  {
    hide Truthy, PyStr, Decimal;
  }

  ghost predicate NodeStandsAt(nodes: seq<Json>, key: string, i: int) {
    0 <= i < |nodes| && nodes[i].Obj? && GoesBy(nodes[i], i) == key
  }

  /** Of the nodes with one id the last counts; what is no dict is no node. */
  lemma {:induction false} LastNodeCounts(nodes: seq<Json>, key: string) returns (i: int)
    ensures if key in NodesById(nodes) then NodeStandsAt(nodes, key, i) && NodesById(nodes)[key] == nodes[i]
            else i == -1
    ensures forall j | j > i :: !NodeStandsAt(nodes, key, j)
  {
    hide GoesBy, IdOrIndex;
    i := -1;
    if nodes != [] {
      var last := |nodes| - 1;
      i := LastNodeCounts(nodes[..last], key);
      GoesByIs(nodes[last], last);
      assert forall j | j < last :: NodeStandsAt(nodes, key, j) <==> NodeStandsAt(nodes[..last], key, j);
      if NodeStandsAt(nodes, key, last) { i := last; }
    }
  }

  ghost predicate SceneStandsAt(scenes: seq<Json>, key: string, i: int) {
    0 <= i < |scenes| && GoesBy(scenes[i], i) == key
  }

  /** Of the scenes with one id the last counts. */
  lemma {:induction false} LastSceneCounts(scenes: seq<Json>, key: string) returns (i: int)
    ensures if key in ScenesById(scenes) then SceneStandsAt(scenes, key, i) && ScenesById(scenes)[key] == scenes[i]
            else i == -1
    ensures forall j | j > i :: !SceneStandsAt(scenes, key, j)
  {
    hide GoesBy, IdOrIndex;
    i := -1;
    if scenes != [] {
      var last := |scenes| - 1;
      i := LastSceneCounts(scenes[..last], key);
      GoesByIs(scenes[last], last);
      assert forall j | j < last :: SceneStandsAt(scenes, key, j) <==> SceneStandsAt(scenes[..last], key, j);
      if SceneStandsAt(scenes, key, last) { i := last; }
    }
  }

  /** Of the edges with one key the last counts. */
  lemma {:induction false} LastEdgeCounts(edges: seq<Json>, key: string)
    ensures key in EdgesByKey(edges) <==> exists i | 0 <= i < |edges| :: EdgeKey(edges[i], i) == key
    ensures forall i | 0 <= i < |edges| && EdgeKey(edges[i], i) == key &&
                       forall j | i < j < |edges| :: EdgeKey(edges[j], j) != key ::
              EdgesByKey(edges)[key] == edges[i]
  {
    hide EdgeKey;
    if edges != [] {
      var last := |edges| - 1;
      LastEdgeCounts(edges[..last], key);
      assert forall i | 0 <= i < last :: edges[..last][i] == edges[i];
    }
  }

  /** Its ends, handles and type are what an edge goes by. */
  function EdgeText(edge: Json, field: string): string {
    if Truthy(Get(edge, field)) then PyStr(Get(edge, field)) else ""
  }

  const EDGE_TEXTS := {"source", "sourceHandle", "target", "targetHandle", "type"}

  /** Two edges have the same key exactly if they agree on these, as long as none holds a bar; a dict
      and something else never do. */
  lemma EdgeKeysTellApart(one: Json, i: nat, other: Json, j: nat)
    requires one.Obj? && other.Obj?
    requires forall field | field in EDGE_TEXTS :: '|' !in EdgeText(one, field) && '|' !in EdgeText(other, field)
    ensures EdgeKey(one, i) == EdgeKey(other, j) <==>
            forall field | field in EDGE_TEXTS :: EdgeText(one, field) == EdgeText(other, field)
  {
    hide Truthy, PyStr;
    var a, b := EdgeText(one, "source"), EdgeText(other, "source");
    var ah, bh := EdgeText(one, "sourceHandle"), EdgeText(other, "sourceHandle");
    var c, d := EdgeText(one, "target"), EdgeText(other, "target");
    var ch, dh := EdgeText(one, "targetHandle"), EdgeText(other, "targetHandle");
    var t, u := EdgeText(one, "type"), EdgeText(other, "type");
    FiveParts(a, ah, c, ch, t);
    FiveParts(b, bh, d, dh, u);
    hide EdgeText;
    UpToTheBar(a, ah + "|" + c + "|" + ch + "|" + t, b, bh + "|" + d + "|" + dh + "|" + u);
    UpToTheBar(ah, c + "|" + ch + "|" + t, bh, d + "|" + dh + "|" + u);
    UpToTheBar(c, ch + "|" + t, d, dh + "|" + u);
    UpToTheBar(ch, t, dh, u);
    assert EdgeKey(one, i) == a + "|" + (ah + "|" + c + "|" + ch + "|" + t) by { KeyOfEdge(one, i); }
    assert EdgeKey(other, j) == b + "|" + (bh + "|" + d + "|" + dh + "|" + u) by { KeyOfEdge(other, j); }
    hide EdgeKey;
    assert forall field :: field in EDGE_TEXTS <==>
                           field in ["source", "sourceHandle", "target", "targetHandle", "type"];
  }

  lemma KeyOfEdge(edge: Json, i: nat)
    requires edge.Obj?
    ensures EdgeKey(edge, i) == EdgeText(edge, "source") + "|" + EdgeText(edge, "sourceHandle") + "|" +
                                EdgeText(edge, "target") + "|" + EdgeText(edge, "targetHandle") + "|" +
                                EdgeText(edge, "type")
  {
    hide Truthy, PyStr;
  }

  lemma FiveParts(a: string, ah: string, c: string, ch: string, t: string)
    ensures a + "|" + ah + "|" + c + "|" + ch + "|" + t == a + "|" + (ah + "|" + c + "|" + ch + "|" + t)
    ensures ah + "|" + c + "|" + ch + "|" + t == ah + "|" + (c + "|" + ch + "|" + t)
    ensures c + "|" + ch + "|" + t == c + "|" + (ch + "|" + t)
  {}

  lemma UpToTheBar(a: string, rest: string, b: string, other: string)
    requires '|' !in a && '|' !in b
    ensures a + "|" + rest == b + "|" + other <==> a == b && rest == other
  {
    BarPosition(a, rest);
    BarPosition(b, other);
    var s, t := a + "|" + rest, b + "|" + other;
    if s == t {
      assert s[..|a|] == a && t[..|b|] == b && s[|a| + 1..] == rest && t[|b| + 1..] == other;
    }
  }

  lemma {:induction false} BarPosition(a: string, rest: string)
    requires '|' !in a
    ensures IndexOf('|', a + "|" + rest) == |a|
  {
    if a != "" {
      BarPosition(a[1..], rest);
      assert (a + "|" + rest)[1..] == a[1..] + "|" + rest && a[0] in a;
    }
  }

  // ---- when two scenes count as equal -----------------------------------------------

  /** Equal once pruned, or both read as false then. */
  predicate TruthAlike(x: Json, y: Json) {
    PyEq(Prune(x), Prune(y)) || (!Truthy(Prune(x)) && !Truthy(Prune(y)))
  }

  /** The same keys on both sides, and under each of them the named fields alike. */
  ghost predicate ItemsAlike(xs: map<string, Json>, ys: map<string, Json>, fields: set<string>) {
    xs.Keys == ys.Keys &&
    forall key, field | key in xs && field in fields :: KeptAlike(Get(xs[key], field), Get(ys[key], field))
  }

  const NODE_FIELDS := {"type", "data"}
  const EDGE_FIELDS := {"source", "sourceHandle", "target", "targetHandle", "type", "data"}

  function FieldsOfPart(part: Part): set<string> {
    match part case Nodes => NODE_FIELDS case Edges => EDGE_FIELDS
  }

  /** The two scenes have the same name, settings, fields, events, apps, nodes and edges, up to what
      pruning drops; anything but a dict is as good as no scene. */
  ghost predicate ScenesAlike(a: Json, b: Json) {
    if !a.Obj? || !b.Obj? then !a.Obj? && !b.Obj? else
      PyEq(Prune(Get(a, "name")), Prune(Get(b, "name"))) &&
      (forall key | key in {"settings", "fields", "customEvents", "apps"} :: TruthAlike(Get(a, key), Get(b, key))) &&
      ItemsAlike(NodesById(SceneList(Get(a, "nodes"))), NodesById(SceneList(Get(b, "nodes"))), NODE_FIELDS) &&
      ItemsAlike(EdgesByKey(SceneList(Get(a, "edges"))), EdgesByKey(SceneList(Get(b, "edges"))), EDGE_FIELDS)
  }

  /** Two scenes compare equal exactly if they are alike. */
  lemma ComparedBy(a: Json, b: Json)
    ensures SceneEq(a, b) <==> ScenesAlike(a, b)
  {
    hide PyEq, Prune, Blank, NodesById, EdgesByKey, CollectionCompare, ItemsAlike, TruthAlike, Or, Collection;
    if a.Obj? && b.Obj? {
      OrAlike(Get(a, "settings"), Get(b, "settings"), EMPTY_OBJ);
      OrAlike(Get(a, "fields"), Get(b, "fields"), EMPTY_LIST);
      OrAlike(Get(a, "customEvents"), Get(b, "customEvents"), EMPTY_LIST);
      OrAlike(Get(a, "apps"), Get(b, "apps"), EMPTY_OBJ);
      CollectionsAlike(a, b, Nodes);
      CollectionsAlike(a, b, Edges);
      assert Collection(a, Nodes) == NodesById(SceneList(Get(a, "nodes"))) by { PartIs(a); }
      assert Collection(b, Nodes) == NodesById(SceneList(Get(b, "nodes"))) by { PartIs(b); }
      assert Collection(a, Edges) == EdgesByKey(SceneList(Get(a, "edges"))) by { PartIs(a); }
      assert Collection(b, Edges) == EdgesByKey(SceneList(Get(b, "edges"))) by { PartIs(b); }
      SevenEqual(a, b);
    } else if !a.Obj? && !b.Obj? {
      PyEqReflexive(EMPTY_OBJ);
    } else {
      KeysTellApart(SceneCompare(a), SceneCompare(b), "nodes");
    }
  }

  lemma PartIs(scene: Json)
    ensures Collection(scene, Nodes) == NodesById(SceneList(Get(scene, "nodes")))
    ensures Collection(scene, Edges) == EdgesByKey(SceneList(Get(scene, "edges")))
  {}

  lemma KeysTellApart(x: Json, y: Json, key: string)
    requires x.Obj? && y.Obj? && (key in x.fields <==> key !in y.fields)
    ensures !PyEq(x, y)
  {}

  /** The compared values are equal entry by entry. */
  lemma SevenEqual(a: Json, b: Json)
    requires a.Obj? && b.Obj?
    ensures SceneEq(a, b) <==>
            PyEq(Prune(Get(a, "name")), Prune(Get(b, "name"))) &&
            PyEq(Or(Prune(Get(a, "settings")), EMPTY_OBJ), Or(Prune(Get(b, "settings")), EMPTY_OBJ)) &&
            PyEq(Or(Prune(Get(a, "fields")), EMPTY_LIST), Or(Prune(Get(b, "fields")), EMPTY_LIST)) &&
            PyEq(Or(Prune(Get(a, "customEvents")), EMPTY_LIST), Or(Prune(Get(b, "customEvents")), EMPTY_LIST)) &&
            PyEq(Or(Prune(Get(a, "apps")), EMPTY_OBJ), Or(Prune(Get(b, "apps")), EMPTY_OBJ)) &&
            PyEq(CollectionCompare(a, Nodes), CollectionCompare(b, Nodes)) &&
            PyEq(CollectionCompare(a, Edges), CollectionCompare(b, Edges))
  {
    hide Prune, Or, CollectionCompare, PyEq;
    var x, y := SceneCompare(a), SceneCompare(b);
    EqualIffEntries(x, y);
    assert x.fields.Keys == y.fields.Keys == {"name", "settings", "fields", "customEvents", "apps", "nodes", "edges"};
  }

  lemma OrAlike(x: Json, y: Json, default: Json)
    requires default == EMPTY_OBJ || default == EMPTY_LIST
    ensures PyEq(Or(Prune(x), default), Or(Prune(y), default)) <==> TruthAlike(x, y)
  {
    hide Prune;
    PyEqReflexive(default);
    if PyEq(Prune(x), Prune(y)) {
      EqualTruth(Prune(x), Prune(y));
    }
    if PyEq(Or(Prune(x), default), Or(Prune(y), default)) {
      EqualTruth(Or(Prune(x), default), Or(Prune(y), default));
    }
    hide PyEq;
  }

  lemma EqualTruth(x: Json, y: Json)
    requires PyEq(x, y)
    ensures Truthy(x) == Truthy(y)
  {
    assert x.Obj? ==> (x.fields == map[] <==> x.fields.Keys == {}) && (y.fields == map[] <==> y.fields.Keys == {});
  }

  lemma CollectionsAlike(a: Json, b: Json, part: Part)
    ensures PyEq(CollectionCompare(a, part), CollectionCompare(b, part)) <==>
            ItemsAlike(Collection(a, part), Collection(b, part), FieldsOfPart(part))
  {
    hide PyEq, ItemCompare, KeptAlike, Collection, FieldsOfPart, CollectionCompare;
    Compared(a, part);
    Compared(b, part);
    EqualIffEntries(CollectionCompare(a, part), CollectionCompare(b, part));
    var xs, ys := Collection(a, part), Collection(b, part);
    forall key | key in xs && key in ys
      ensures PyEq(ItemCompare(xs[key], part), ItemCompare(ys[key], part)) <==>
              forall field | field in FieldsOfPart(part) :: KeptAlike(Get(xs[key], field), Get(ys[key], field))
    {
      ItemsComparedBy(xs[key], ys[key], part);
    }
  }

  /** Two items compare equal exactly if each of their fields is kept alike. */
  lemma ItemsComparedBy(x: Json, y: Json, part: Part)
    ensures PyEq(ItemCompare(x, part), ItemCompare(y, part)) <==>
            forall field | field in FieldsOfPart(part) :: KeptAlike(Get(x, field), Get(y, field))
  {
    hide PyEq, KeptAlike, Remainder, FieldsOfPart, ItemCompare;
    var p, q := ItemCompare(x, part), ItemCompare(y, part);
    ItemEntries(x, part);
    ItemEntries(y, part);
    forall field
      ensures PyEq(Remainder(Get(x, field)), Remainder(Get(y, field))) <==> KeptAlike(Get(x, field), Get(y, field))
    {
      RemaindersAlike(Get(x, field), Get(y, field));
    }
    PyEqReflexive(Null);
    if PyEq(p, q) {
      forall field | field in FieldsOfPart(part) ensures KeptAlike(Get(x, field), Get(y, field)) {
        EqualEntriesAt(p, q, field, 0);
      }
    }
    if forall field | field in FieldsOfPart(part) :: KeptAlike(Get(x, field), Get(y, field)) {
      EqualEntriesMakeEqual(p, q);
    }
  }

  lemma ItemEntries(item: Json, part: Part)
    ensures var compared := ItemCompare(item, part);
            compared.Obj? && (forall k | k in compared.fields :: !compared.fields[k].Null?) &&
            forall k :: Get(compared, k) == if k in FieldsOfPart(part) then Remainder(Get(item, k)) else Null
  {
    hide Prune, Remainder;
    NullRemainder();
    if item.Obj? {
      var picked := Pick(item, FieldsOfPart(part)).fields;
      PrunedKeys(picked);
      forall k ensures Get(Prune(Obj(picked)), k) == Remainder(Get(Obj(picked), k)) {
        PrunedEntry(picked, k);
      }
      assert ItemCompare(item, part) == Or(Prune(Obj(picked)), EMPTY_OBJ);
      assert Or(Prune(Obj(picked)), EMPTY_OBJ) == Prune(Obj(picked));
    }
  }

  // ---- what is reported, and as what ------------------------------------------------

  /** A scene is reported exactly if the frame has it otherwise than the last deploy and than the
      backend, as added when the backend has none, as removed when the frame has none, and otherwise
      as changed, with one to twelve details. */
  lemma ReportedAs(sides: Sides, key: string)
    ensures var b, f, base := Fetch(sides.backend, key), Fetch(sides.frame, key), Fetch(sides.baseline, key);
            var changes := sides.Changes(Sorted(sides.Keys()));
            ((exists c | c in changes :: c.key == key) <==> !ScenesAlike(f, base) && !ScenesAlike(f, b)) &&
            forall c | c in changes && c.key == key ::
              (c.kind.Added? <==> b.Null?) && (c.kind.Removed? <==> f.Null? && !b.Null?) &&
              (c.kind.Changed? ==>
                 c.details != [] && c.details <= AllSceneDiffs(b, f) &&
                 |c.details| == if |AllSceneDiffs(b, f)| < 12 then |AllSceneDiffs(b, f)| else 12) &&
              (!c.kind.Changed? ==> c.details == [])
  {
    hide ScenesAlike, AllSceneDiffs, SceneEq, Sorted, Sides.Changes;
    ComparedBy(Fetch(sides.frame, key), Fetch(sides.baseline, key));
    ComparedBy(Fetch(sides.frame, key), Fetch(sides.backend, key));
    SectionIsExact(sides, Sorted(sides.Keys()));
    assert sides.Conflict(key) <==> exists c | c in sides.Changes(Sorted(sides.Keys())) :: c.key == key;
  }

  /** A node whose type or data was edited on the frame alone makes its scene a reported change. */
  lemma EditedNodeIsReported(sides: Sides, key: string, node: string, field: string)
    requires var b, f := Fetch(sides.backend, key), Fetch(sides.frame, key);
             b.Obj? && f.Obj? && Fetch(sides.baseline, key) == b && field in {"type", "data"} &&
             var bs, fs := NodesById(SceneList(Get(b, "nodes"))), NodesById(SceneList(Get(f, "nodes")));
             node in bs && node in fs && !KeptAlike(Get(bs[node], field), Get(fs[node], field))
    ensures exists c | c in sides.Changes(Sorted(sides.Keys())) :: c.key == key && c.kind.Changed?
  {
    hide Prune, PyEq, Blank, NodesById, EdgesByKey, Sorted, Sides.Changes, TruthAlike, KeptAlike;
    ReportedAs(sides, key);
    var b, f := Fetch(sides.backend, key), Fetch(sides.frame, key);
    KeptAlikeSymmetric(b, f, node, field);
  }

  lemma KeptAlikeSymmetric(b: Json, f: Json, node: string, field: string)
    ensures var bs, fs := NodesById(SceneList(Get(b, "nodes"))), NodesById(SceneList(Get(f, "nodes")));
            node in bs && node in fs ==>
              (KeptAlike(Get(bs[node], field), Get(fs[node], field)) <==>
               KeptAlike(Get(fs[node], field), Get(bs[node], field)))
  {
    hide NodesById, Prune, PyEq, Blank;
    var bs, fs := NodesById(SceneList(Get(b, "nodes"))), NodesById(SceneList(Get(f, "nodes")));
    if node in bs && node in fs {
      PyEqSymmetric(Prune(Get(bs[node], field)), Prune(Get(fs[node], field)));
    }
  }

  // ---- what the details name --------------------------------------------------------

  /** Some detail lies at this place or below it. */
  ghost predicate Mentions(details: seq<Detail>, place: seq<Step>) {
    exists d | d in details :: place <= d.path
  }

  function AddedLabel(part: Part): string {
    match part case Nodes => "Node added" case Edges => "Connection added"
  }

  function RemovedLabel(part: Part): string {
    match part case Nodes => "Node removed" case Edges => "Connection removed"
  }

  function ChangedLabel(part: Part): string {
    match part case Nodes => "Node" case Edges => "Connection"
  }

  lemma {:induction false} InPartDiffs(b: Json, f: Json, parts: seq<(string, string)>, d: Detail)
    ensures d in PartDiffs(b, f, parts) <==>
            exists i | 0 <= i < |parts| ::
              d in AllDiffs(Get(SceneCompare(b), parts[i].0), Get(SceneCompare(f), parts[i].0), [Label(parts[i].1)])
  {
    hide AllDiffs, SceneCompare;
    if parts != [] {
      InPartDiffs(b, f, parts[1..], d);
      assert forall i | 0 <= i < |parts[1..]| :: parts[1..][i] == parts[i + 1];
      assert forall i | 1 <= i < |parts| :: parts[i] == parts[1..][i - 1];
    }
  }

  lemma {:induction false} InCollectionDiffs(b: Json, f: Json, part: Part, keys: seq<string>, d: Detail)
    ensures d in CollectionDiffs(b, f, part, keys) <==>
            exists key | key in keys :: d in ItemDiffsAt(b, f, part, key)
  {
    hide ItemDiffsAt;
    if keys != [] {
      InCollectionDiffs(b, f, part, keys[1..], d);
      assert forall key :: key in keys <==> key == keys[0] || key in keys[1..];
    }
  }

  /** As what an item of the scenes shows up, if it does. */
  ghost function ItemLabel(b: Json, f: Json, part: Part, key: string): string {
    if Fetch(Collection(b, part), key).Null? then AddedLabel(part)
    else if Fetch(Collection(f, part), key).Null? then RemovedLabel(part)
    else ChangedLabel(part)
  }

  /** Each detail of one item begins with the item's label and key. */
  lemma ItemPaths(b: Json, f: Json, part: Part, key: string)
    ensures forall d | d in ItemDiffsAt(b, f, part, key) :: [Label(ItemLabel(b, f, part, key)), Key(key)] <= d.path
  {
    hide Collection, AllDiffs, ItemCompare;
    var x, y := Fetch(Collection(b, part), key), Fetch(Collection(f, part), key);
    DiffPointsAtDifferences(ItemCompare(x, part), ItemCompare(y, part), [Label(PartLabel(part)), Key(key)]);
    assert PartLabel(part) + " added" == AddedLabel(part) && PartLabel(part) + " removed" == RemovedLabel(part);
    assert PartLabel(part) == ChangedLabel(part);
  }

  lemma ItemHasDetail(b: Json, f: Json, part: Part, key: string)
    ensures var x, y := Fetch(Collection(b, part), key), Fetch(Collection(f, part), key);
            ItemDiffsAt(b, f, part, key) == [] <==>
            !x.Null? && !y.Null? && PyEq(ItemCompare(x, part), ItemCompare(y, part))
  {
    hide Collection, AllDiffs, ItemCompare, PyEq;
    var x, y := Fetch(Collection(b, part), key), Fetch(Collection(f, part), key);
    ItemCompareClean(x, part);
    ItemCompareClean(y, part);
    DiffEmptyIffEqual(ItemCompare(x, part), ItemCompare(y, part), [Label(PartLabel(part)), Key(key)]);
  }

  /** Each detail of the plain parts begins with one of their five labels. */
  lemma PartPaths(b: Json, f: Json, d: Detail)
    requires d in PartDiffs(b, f, PARTS)
    ensures d.path != [] && d.path[0] in {Label("Name"), Label("Settings"), Label("Fields"), Label("Custom events"),
                                          Label("Apps")}
  {
    hide AllDiffs, SceneCompare, PartDiffs;
    InPartDiffs(b, f, PARTS, d);
    var i :| 0 <= i < |PARTS| &&
      d in AllDiffs(Get(SceneCompare(b), PARTS[i].0), Get(SceneCompare(f), PARTS[i].0), [Label(PARTS[i].1)]);
    DiffPointsAtDifferences(Get(SceneCompare(b), PARTS[i].0), Get(SceneCompare(f), PARTS[i].0), [Label(PARTS[i].1)]);
    assert d.path[0] == Label(PARTS[i].1);
  }

  lemma CollectionPaths(b: Json, f: Json, part: Part, d: Detail) returns (key: string)
    requires d in CollectionDiffs(b, f, part, CollectionKeys(b, f, part))
    ensures key in CollectionKeys(b, f, part) && d in ItemDiffsAt(b, f, part, key)
    ensures [Label(ItemLabel(b, f, part, key)), Key(key)] <= d.path
  {
    hide ItemDiffsAt, ItemLabel, CollectionDiffs, CollectionKeys;
    InCollectionDiffs(b, f, part, CollectionKeys(b, f, part), d);
    key :| key in CollectionKeys(b, f, part) && d in ItemDiffsAt(b, f, part, key);
    ItemPaths(b, f, part, key);
  }

  lemma ItemLabels(b: Json, f: Json, part: Part, key: string)
    ensures ItemLabel(b, f, part, key) in (if part.Nodes? then {"Node added", "Node removed", "Node"}
                                           else {"Connection added", "Connection removed", "Connection"})
  {}

  /** Some detail mentions an item under a label of its part exactly if that is the item's label, and
      the item has a detail at all. */
  lemma MentionedAs(b: Json, f: Json, part: Part, key: string, text: string)
    requires !SceneEq(b, f)
    requires text in {AddedLabel(part), RemovedLabel(part), ChangedLabel(part)}
    ensures Mentions(AllSceneDiffs(b, f), [Label(text), Key(key)]) <==>
            text == ItemLabel(b, f, part, key) && key in CollectionKeys(b, f, part) &&
            ItemDiffsAt(b, f, part, key) != []
  {
    hide SceneEq, PartDiffs, CollectionDiffs, CollectionKeys, ItemDiffsAt, ItemLabel, AllSceneDiffs;
    var all, place := AllSceneDiffs(b, f), [Label(text), Key(key)];
    if Mentions(all, place) {
      var d :| d in all && place <= d.path;
      assert d.path[0] == place[0] && d.path[1] == place[1];
      MentionedItem(b, f, part, key, text, d);
    }
    if text == ItemLabel(b, f, part, key) && key in CollectionKeys(b, f, part) && ItemDiffsAt(b, f, part, key) != [] {
      var d := ItemDiffsAt(b, f, part, key)[0];
      ItemPaths(b, f, part, key);
      CollectionDiffsHold(b, f, part, CollectionKeys(b, f, part), key);
      CollectionIncluded(b, f, part, d);
    }
  }

  lemma CollectionIncluded(b: Json, f: Json, part: Part, d: Detail)
    requires !SceneEq(b, f) && d in CollectionDiffs(b, f, part, CollectionKeys(b, f, part))
    ensures d in AllSceneDiffs(b, f)
  {
    hide SceneEq, PartDiffs, CollectionDiffs, CollectionKeys;
  }

  lemma MentionedItem(b: Json, f: Json, part: Part, key: string, text: string, d: Detail)
    requires text in {AddedLabel(part), RemovedLabel(part), ChangedLabel(part)}
    requires d in AllSceneDiffs(b, f) && |d.path| >= 2 && d.path[0] == Label(text) && d.path[1] == Key(key)
    ensures text == ItemLabel(b, f, part, key) && key in CollectionKeys(b, f, part) &&
            ItemDiffsAt(b, f, part, key) != []
  {
    hide SceneEq, PartDiffs, CollectionDiffs, CollectionKeys, ItemDiffsAt, ItemLabel;
    if d in PartDiffs(b, f, PARTS) {
      PartPaths(b, f, d);
      assert false;
    } else {
      var found := if d in CollectionDiffs(b, f, Nodes, CollectionKeys(b, f, Nodes)) then Nodes else Edges;
      var other := CollectionPaths(b, f, found, d);
      ItemLabels(b, f, found, other);
      assert d.path[0] == Label(ItemLabel(b, f, found, other)) && d.path[1] == Key(other);
    }
  }

  /** The details of a changed scene name exactly what differs: as added what only the frame has, as
      removed what only the backend has, and else the items with a field that is not alike. */
  lemma DetailsNameTheItems(b: Json, f: Json, part: Part, key: string)
    requires !SceneEq(b, f)
    ensures var xs, ys := Collection(b, part), Collection(f, part);
            var x, y, all := Fetch(xs, key), Fetch(ys, key), AllSceneDiffs(b, f);
            (Mentions(all, [Label(AddedLabel(part)), Key(key)]) <==> (key in xs || key in ys) && x.Null?) &&
            (Mentions(all, [Label(RemovedLabel(part)), Key(key)]) <==> !x.Null? && y.Null?) &&
            (Mentions(all, [Label(ChangedLabel(part)), Key(key)]) <==>
               !x.Null? && !y.Null? &&
               exists field | field in FieldsOfPart(part) :: !KeptAlike(Get(x, field), Get(y, field)))
  {
    hide SceneEq, AllSceneDiffs, Collection, ItemDiffsAt, KeptAlike, CollectionKeys, Mentions, ItemCompare;
    MentionedAs(b, f, part, key, AddedLabel(part));
    MentionedAs(b, f, part, key, RemovedLabel(part));
    MentionedAs(b, f, part, key, ChangedLabel(part));
    ItemHasDetail(b, f, part, key);
    KeysCovered(b, f, part, key);
    ItemsComparedBy(Fetch(Collection(b, part), key), Fetch(Collection(f, part), key), part);
  }

  /** What is added or removed shows on its own side what pruning keeps of its fields, and nothing on
      the other. */
  lemma OneSidedDetails(b: Json, f: Json, part: Part, key: string) returns (d: Detail)
    requires Fetch(Collection(b, part), key).Null? || Fetch(Collection(f, part), key).Null?
    ensures var x, y := Fetch(Collection(b, part), key), Fetch(Collection(f, part), key);
            ItemDiffsAt(b, f, part, key) == [d] && (if x.Null? then d.backend else d.frame) == Null &&
            forall field | field in FieldsOfPart(part) ::
              Get(if x.Null? then d.frame else d.backend, field) == Remainder(Get(if x.Null? then y else x, field))
  {
    hide Collection, ItemCompare, Remainder, FieldsOfPart;
    d := ItemDiffsAt(b, f, part, key)[0];
    ItemEntries(Fetch(Collection(b, part), key), part);
    ItemEntries(Fetch(Collection(f, part), key), part);
  }

  /** And the plain parts that are not alike, under their labels. */
  lemma DetailsNameTheParts(b: Json, f: Json, i: nat)
    requires b.Obj? && f.Obj? && !SceneEq(b, f) && i < 5
    ensures var all := AllSceneDiffs(b, f);
            var key := ["name", "settings", "fields", "customEvents", "apps"][i];
            var text := ["Name", "Settings", "Fields", "Custom events", "Apps"][i];
            Mentions(all, [Label(text)]) <==>
            if i == 0 then !PyEq(Prune(Get(b, key)), Prune(Get(f, key))) else !TruthAlike(Get(b, key), Get(f, key))
  {
    hide SceneEq, PyEq, Prune, PartDiffs, CollectionDiffs, CollectionKeys, AllDiffs, SceneCompare, TruthAlike;
    var all, key, text := AllSceneDiffs(b, f), PARTS[i].0, PARTS[i].1;
    var x, y := Get(SceneCompare(b), key), Get(SceneCompare(f), key);
    PartCompareClean(b, key);
    PartCompareClean(f, key);
    DiffEmptyIffEqual(x, y, [Label(text)]);
    DiffPointsAtDifferences(x, y, [Label(text)]);
    PartAlike(b, f, i);
    if Mentions(all, [Label(text)]) {
      var d :| d in all && [Label(text)] <= d.path;
      assert d.path[0] == Label(text);
      OnlyPartsHaveTheLabel(b, f, i, d);
    }
    if AllDiffs(x, y, [Label(text)]) != [] {
      var d := AllDiffs(x, y, [Label(text)])[0];
      PartDiffsHold(b, f, PARTS, i);
      assert PointsAt(d, x, y, [Label(text)]);
      assert d in all;
    }
  }

  lemma OnlyPartsHaveTheLabel(b: Json, f: Json, i: nat, d: Detail)
    requires i < 5 && d in AllSceneDiffs(b, f) && d.path != [] && d.path[0] == Label(PARTS[i].1)
    ensures AllDiffs(Get(SceneCompare(b), PARTS[i].0), Get(SceneCompare(f), PARTS[i].0), [Label(PARTS[i].1)]) != []
  {
    hide SceneEq, PartDiffs, CollectionDiffs, CollectionKeys, AllDiffs, SceneCompare, ItemDiffsAt, ItemLabel;
    if d in CollectionDiffs(b, f, Nodes, CollectionKeys(b, f, Nodes)) {
      var key := CollectionPaths(b, f, Nodes, d);
      ItemLabels(b, f, Nodes, key);
      assert false;
    } else if d in CollectionDiffs(b, f, Edges, CollectionKeys(b, f, Edges)) {
      var key := CollectionPaths(b, f, Edges, d);
      ItemLabels(b, f, Edges, key);
      assert false;
    } else {
      InPartDiffs(b, f, PARTS, d);
      var j :| 0 <= j < |PARTS| &&
        d in AllDiffs(Get(SceneCompare(b), PARTS[j].0), Get(SceneCompare(f), PARTS[j].0), [Label(PARTS[j].1)]);
      DiffPointsAtDifferences(Get(SceneCompare(b), PARTS[j].0), Get(SceneCompare(f), PARTS[j].0), [Label(PARTS[j].1)]);
      assert d.path[0] == Label(PARTS[j].1);
      assert i == j;
    }
  }

  lemma PartAlike(b: Json, f: Json, i: nat)
    requires b.Obj? && f.Obj? && i < 5
    ensures var key := ["name", "settings", "fields", "customEvents", "apps"][i];
            key == PARTS[i].0 && PARTS[i].1 == ["Name", "Settings", "Fields", "Custom events", "Apps"][i] &&
            (PyEq(Get(SceneCompare(b), key), Get(SceneCompare(f), key)) <==>
             if i == 0 then PyEq(Prune(Get(b, key)), Prune(Get(f, key))) else TruthAlike(Get(b, key), Get(f, key)))
  {
    hide PyEq, Prune, CollectionCompare, Or, TruthAlike;
    OrAlike(Get(b, "settings"), Get(f, "settings"), EMPTY_OBJ);
    OrAlike(Get(b, "fields"), Get(f, "fields"), EMPTY_LIST);
    OrAlike(Get(b, "customEvents"), Get(f, "customEvents"), EMPTY_LIST);
    OrAlike(Get(b, "apps"), Get(f, "apps"), EMPTY_OBJ);
  }
}
