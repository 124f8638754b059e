/**
 Three-way comparison of scene lists: what a scene is compared by, the details shown for a
 changed scene, and the list of scenes the sync dialog reports
 (backend/app/api/frame_sync.py:433-651, 833-920).
 */
module SceneDiff {
  import opened PyText
  import opened Json
  import opened JsonDiff

  const SCENE_DETAIL_LIMIT := 12

  function Fetch(m: map<string, Json>, key: string): Json {
    if key in m then m[key] else Null
  }

  function IndexKey(index: nat): string {
    "index:" + Decimal(index)
  }

  /** `str(item.get("id") or f"index:{index}")`. */
  function IdOrIndex(item: Json, index: nat): string {
    if Truthy(Get(item, "id")) then PyStr(Get(item, "id")) else IndexKey(index)
  }

  // ---- scenes, nodes and edges by key: a later entry replaces an earlier one ---------

  function ScenesById(scenes: seq<Json>): map<string, Json> {
    if scenes == [] then map[] else
      var last := |scenes| - 1;
      ScenesById(scenes[..last])[IdOrIndex(scenes[last], last) := scenes[last]]
  }

  function SceneList(scenes: Json): seq<Json> {
    if scenes.List? then scenes.items else []
  }

  function NodesById(nodes: seq<Json>): map<string, Json> {
    if nodes == [] then map[] else
      var last := |nodes| - 1;
      var before := NodesById(nodes[..last]);
      if nodes[last].Obj? then before[IdOrIndex(nodes[last], last) := nodes[last]] else before
  }

  function TextOrEmpty(j: Json): string {
    if Truthy(j) then PyStr(j) else ""
  }

  function EdgeKey(edge: Json, index: nat): string {
    if !edge.Obj? then IndexKey(index)
    else TextOrEmpty(Get(edge, "source")) + "|" + TextOrEmpty(Get(edge, "sourceHandle")) + "|" +
         TextOrEmpty(Get(edge, "target")) + "|" + TextOrEmpty(Get(edge, "targetHandle")) + "|" +
         TextOrEmpty(Get(edge, "type"))
  }

  function EdgesByKey(edges: seq<Json>): map<string, Json> {
    if edges == [] then map[] else
      var last := |edges| - 1;
      EdgesByKey(edges[..last])[EdgeKey(edges[last], last) := edges[last]]
  }

  // ---- what is compared -------------------------------------------------------------

  function Pick(j: Json, keys: set<string>): Json {
    Obj(map k | k in keys :: Get(j, k))
  }

  /** The two keyed collections inside a scene. */
  datatype Part = Nodes | Edges

  function Collection(scene: Json, part: Part): map<string, Json> {
    match part
    case Nodes => NodesById(SceneList(Get(scene, "nodes")))
    case Edges => EdgesByKey(SceneList(Get(scene, "edges")))
  }

  /** `_scene_node_compare_value` and `_scene_edge_compare_value`. */
  function ItemCompare(item: Json, part: Part): Json {
    if !item.Obj? then EMPTY_OBJ else
      var keys := match part
                  case Nodes => {"type", "data"}
                  case Edges => {"source", "sourceHandle", "target", "targetHandle", "type", "data"};
      Or(Prune(Pick(item, keys)), EMPTY_OBJ)
  }

  function CollectionCompare(scene: Json, part: Part): Json {
    var items := Collection(scene, part);
    Obj(map k | k in items :: ItemCompare(items[k], part))
  }

  /** `_scene_compare_value`; a missing scene is null and compares as an empty dict. */
  function SceneCompare(scene: Json): Json {
    if !scene.Obj? then EMPTY_OBJ else
      Obj(map[
            "name" := Prune(Get(scene, "name")),
            "settings" := Or(Prune(Get(scene, "settings")), EMPTY_OBJ),
            "fields" := Or(Prune(Get(scene, "fields")), EMPTY_LIST),
            "customEvents" := Or(Prune(Get(scene, "customEvents")), EMPTY_LIST),
            "apps" := Or(Prune(Get(scene, "apps")), EMPTY_OBJ),
            "nodes" := CollectionCompare(scene, Nodes),
            "edges" := CollectionCompare(scene, Edges)
          ])
  }

  predicate SceneEq(a: Json, b: Json) {
    PyEq(SceneCompare(a), SceneCompare(b))
  }

  // ---- the details of one changed scene ---------------------------------------------

  const PARTS: seq<(string, string)> :=
    [("name", "Name"), ("settings", "Settings"), ("fields", "Fields"),
     ("customEvents", "Custom events"), ("apps", "Apps")]

  ghost function PartDiffs(b: Json, f: Json, parts: seq<(string, string)>): seq<Detail> {
    if parts == [] then [] else
      AllDiffs(Get(SceneCompare(b), parts[0].0), Get(SceneCompare(f), parts[0].0), [Label(parts[0].1)])
      + PartDiffs(b, f, parts[1..])
  }

  function PartLabel(part: Part): string {
    match part case Nodes => "Node" case Edges => "Connection"
  }

  ghost function ItemDiffsAt(b: Json, f: Json, part: Part, key: string): seq<Detail> {
    var bItem, fItem := Fetch(Collection(b, part), key), Fetch(Collection(f, part), key);
    if bItem.Null? then [Detail([Label(PartLabel(part) + " added"), Key(key)], Null, ItemCompare(fItem, part))]
    else if fItem.Null? then [Detail([Label(PartLabel(part) + " removed"), Key(key)], ItemCompare(bItem, part), Null)]
    else AllDiffs(ItemCompare(bItem, part), ItemCompare(fItem, part), [Label(PartLabel(part)), Key(key)])
  }

  ghost function CollectionDiffs(b: Json, f: Json, part: Part, keys: seq<string>): seq<Detail> {
    if keys == [] then [] else ItemDiffsAt(b, f, part, keys[0]) + CollectionDiffs(b, f, part, keys[1..])
  }

  function CollectionKeys(b: Json, f: Json, part: Part): seq<string> {
    Sorted(Collection(b, part).Keys + Collection(f, part).Keys)
  }

  /** Every detail of a scene's change, with no limit on their number. */
  ghost function AllSceneDiffs(b: Json, f: Json): seq<Detail> {
    if SceneEq(b, f) then [] else
      PartDiffs(b, f, PARTS)
      + CollectionDiffs(b, f, Nodes, CollectionKeys(b, f, Nodes))
      + CollectionDiffs(b, f, Edges, CollectionKeys(b, f, Edges))
  }

  method SceneDiffDetails(b: Json, f: Json, limit: int) returns (details: seq<Detail>)
    ensures details == Take(AllSceneDiffs(b, f), limit)
  {
    hide Take, SceneEq, PartDiffs, CollectionDiffs, CollectionKeys;
    if limit <= 0 || SceneEq(b, f) {
      details := [];
      return;
    }
    ghost var parts := PartDiffs(b, f, PARTS);
    ghost var nodes := CollectionDiffs(b, f, Nodes, CollectionKeys(b, f, Nodes));
    ghost var edges := CollectionDiffs(b, f, Edges, CollectionKeys(b, f, Edges));
    TakeConcat(parts, nodes, limit);
    TakeConcat(parts + nodes, edges, limit);
    details := PartDiffDetails(b, f, PARTS, limit);
    var more := CollectionDiffDetails(b, f, Nodes, limit - |details|);
    details := details + more;
    more := CollectionDiffDetails(b, f, Edges, limit - |details|);
    details := details + more;
  }

  /** The loop over name, settings, fields, custom events and apps. */
  method PartDiffDetails(b: Json, f: Json, parts: seq<(string, string)>, limit: int) returns (details: seq<Detail>)
    requires limit >= 0
    ensures details == Take(PartDiffs(b, f, parts), limit)
  {
    hide *;
    details := [];
    var i := 0;
    while i < |parts| && |details| < limit
      invariant 0 <= i <= |parts| && |details| <= limit
      invariant Take(PartDiffs(b, f, parts), limit) == details + Take(PartDiffs(b, f, parts[i..]), limit - |details|)
    {
      PartDiffsStep(b, f, parts, i, limit - |details|);
      var more := JsonDiffDetails(
        Get(SceneCompare(b), parts[i].0), Get(SceneCompare(f), parts[i].0), [Label(parts[i].1)], limit - |details|);
      Reassociate(details, more, Take(PartDiffs(b, f, parts[i + 1..]), limit - |details| - |more|));
      details := details + more;
      i := i + 1;
    }
    PartDiffsEnd(b, f, parts[i..]);
  }

  /** The loop over the nodes, and the loop over the edges. */
  method CollectionDiffDetails(b: Json, f: Json, part: Part, limit: int) returns (details: seq<Detail>)
    requires limit >= 0
    ensures details == Take(CollectionDiffs(b, f, part, CollectionKeys(b, f, part)), limit)
  {
    hide *;
    var keys := CollectionKeys(b, f, part);
    details := [];
    var i := 0;
    while i < |keys| && |details| < limit
      invariant 0 <= i <= |keys| && |details| <= limit
      invariant Take(CollectionDiffs(b, f, part, keys), limit)
             == details + Take(CollectionDiffs(b, f, part, keys[i..]), limit - |details|)
    {
      CollectionDiffsStep(b, f, part, keys, i, limit - |details|);
      var more := ItemDiffDetails(b, f, part, keys[i], limit - |details|);
      Reassociate(details, more, Take(CollectionDiffs(b, f, part, keys[i + 1..]), limit - |details| - |more|));
      details := details + more;
      i := i + 1;
    }
    CollectionDiffsEnd(b, f, part, keys[i..]);
  }

  /** The body of that loop. */
  method ItemDiffDetails(b: Json, f: Json, part: Part, key: string, limit: int) returns (details: seq<Detail>)
    requires limit >= 1
    ensures details == Take(ItemDiffsAt(b, f, part, key), limit)
  {
    hide Collection, ItemCompare, AllDiffs;
    var bItem, fItem := Fetch(Collection(b, part), key), Fetch(Collection(f, part), key);
    if bItem.Null? {
      details := [Detail([Label(PartLabel(part) + " added"), Key(key)], Null, ItemCompare(fItem, part))];
    } else if fItem.Null? {
      details := [Detail([Label(PartLabel(part) + " removed"), Key(key)], ItemCompare(bItem, part), Null)];
    } else {
      details := JsonDiffDetails(
        ItemCompare(bItem, part), ItemCompare(fItem, part), [Label(PartLabel(part)), Key(key)], limit);
    }
  }

  lemma PartDiffsStep(b: Json, f: Json, parts: seq<(string, string)>, i: nat, limit: int)
    requires i < |parts|
    ensures var key := parts[i].0;
            var child :=
              Take(AllDiffs(Get(SceneCompare(b), key), Get(SceneCompare(f), key), [Label(parts[i].1)]), limit);
            Take(PartDiffs(b, f, parts[i..]), limit) == child + Take(PartDiffs(b, f, parts[i + 1..]), limit - |child|)
  {
    hide AllDiffs, SceneCompare;
    assert parts[i..][1..] == parts[i + 1..];
    TakeConcat(AllDiffs(Get(SceneCompare(b), parts[i].0), Get(SceneCompare(f), parts[i].0), [Label(parts[i].1)]),
               PartDiffs(b, f, parts[i + 1..]), limit);
  }

  lemma PartDiffsEnd(b: Json, f: Json, parts: seq<(string, string)>)
    ensures parts == [] ==> PartDiffs(b, f, parts) == []
  {}

  lemma CollectionDiffsStep(b: Json, f: Json, part: Part, keys: seq<string>, i: nat, limit: int)
    requires i < |keys|
    ensures var child := Take(ItemDiffsAt(b, f, part, keys[i]), limit);
            Take(CollectionDiffs(b, f, part, keys[i..]), limit)
            == child + Take(CollectionDiffs(b, f, part, keys[i + 1..]), limit - |child|)
  {
    hide ItemDiffsAt;
    assert keys[i..][1..] == keys[i + 1..];
    TakeConcat(ItemDiffsAt(b, f, part, keys[i]), CollectionDiffs(b, f, part, keys[i + 1..]), limit);
  }

  lemma CollectionDiffsEnd(b: Json, f: Json, part: Part, keys: seq<string>)
    ensures keys == [] ==> CollectionDiffs(b, f, part, keys) == []
  {}

  // ---- a changed scene always has a detail ------------------------------------------

  lemma OrPruneClean(j: Json, default: Json)
    requires default == EMPTY_OBJ || default == EMPTY_LIST
    ensures Clean(Or(Prune(j), default)) && !Or(Prune(j), default).Null?
  {
    PruneCleans(j);
  }

  lemma ItemCompareClean(item: Json, part: Part)
    ensures Clean(ItemCompare(item, part))
  {
    if item.Obj? {
      OrPruneClean(Pick(item, {"type", "data"}), EMPTY_OBJ);
      OrPruneClean(Pick(item, {"source", "sourceHandle", "target", "targetHandle", "type", "data"}), EMPTY_OBJ);
    }
  }

  lemma PartCompareClean(scene: Json, key: string)
    requires key in {"name", "settings", "fields", "customEvents", "apps"}
    ensures Clean(Get(SceneCompare(scene), key))
  {
    if scene.Obj? {
      PruneCleans(Get(scene, "name"));
      OrPruneClean(Get(scene, key), EMPTY_OBJ);
      OrPruneClean(Get(scene, key), EMPTY_LIST);
    }
  }

  lemma {:induction false} PartDiffsHold(b: Json, f: Json, parts: seq<(string, string)>, i: nat)
    requires i < |parts|
    ensures forall d |
              d in AllDiffs(Get(SceneCompare(b), parts[i].0), Get(SceneCompare(f), parts[i].0), [Label(parts[i].1)]) ::
              d in PartDiffs(b, f, parts)
  {
    hide SceneCompare, AllDiffs;
    if i > 0 {
      PartDiffsHold(b, f, parts[1..], i - 1);
    }
  }

  lemma {:induction false} CollectionDiffsHold(b: Json, f: Json, part: Part, keys: seq<string>, key: string)
    requires key in keys
    ensures forall d | d in ItemDiffsAt(b, f, part, key) :: d in CollectionDiffs(b, f, part, keys)
  {
    hide ItemDiffsAt;
    if key != keys[0] {
      CollectionDiffsHold(b, f, part, keys[1..], key);
    }
  }

  lemma PartDifference(b: Json, f: Json, i: nat) returns (d: Detail)
    requires i < |PARTS| && !PyEq(Get(SceneCompare(b), PARTS[i].0), Get(SceneCompare(f), PARTS[i].0))
    ensures d in PartDiffs(b, f, PARTS)
  {
    hide SceneCompare, PyEq, Clean;
    PartCompareClean(b, PARTS[i].0);
    PartCompareClean(f, PARTS[i].0);
    d := SomeDifference(Get(SceneCompare(b), PARTS[i].0), Get(SceneCompare(f), PARTS[i].0), [Label(PARTS[i].1)]);
    PartDiffsHold(b, f, PARTS, i);
  }

  /** `key` is in one collection only, or its two items compare unequal. */
  ghost predicate ItemsDiffer(b: Json, f: Json, part: Part, key: string) {
    var bs, fs := Collection(b, part), Collection(f, part);
    !(key in bs && key in fs && PyEq(ItemCompare(bs[key], part), ItemCompare(fs[key], part)))
  }

  lemma DifferingItem(b: Json, f: Json, part: Part) returns (key: string)
    requires !PyEq(CollectionCompare(b, part), CollectionCompare(f, part))
    ensures key in CollectionKeys(b, f, part) && ItemsDiffer(b, f, part, key)
  {
    hide PyEq, Collection, ItemCompare, Sorted, ItemsDiffer;
    var keys := CollectionKeys(b, f, part);
    assert exists k :: k in keys && ItemsDiffer(b, f, part, k) by {
      if forall k | k in keys :: !ItemsDiffer(b, f, part, k) {
        NoItemDiffers(b, f, part);
      }
    }
    key :| key in keys && ItemsDiffer(b, f, part, key);
  }

  lemma NoItemDiffers(b: Json, f: Json, part: Part)
    requires forall k | k in CollectionKeys(b, f, part) :: !ItemsDiffer(b, f, part, k)
    ensures PyEq(CollectionCompare(b, part), CollectionCompare(f, part))
  {
    hide PyEq, Collection, ItemCompare, CollectionKeys, CollectionCompare, ItemsDiffer;
    Compared(b, part);
    Compared(f, part);
    var bs, fs := CollectionCompare(b, part), CollectionCompare(f, part);
    forall k ensures (k in bs.fields <==> k in fs.fields) && (k in bs.fields ==> PyEq(bs.fields[k], fs.fields[k])) {
      KeysCovered(b, f, part, k);
      if k in CollectionKeys(b, f, part) {
        NotDiffering(b, f, part, k);
      }
    }
    assert bs.fields.Keys == fs.fields.Keys;
    DictsEqual(bs, fs);
  }

  lemma Compared(scene: Json, part: Part)
    ensures var items, compared := Collection(scene, part), CollectionCompare(scene, part);
            compared.Obj? && compared.fields.Keys == items.Keys &&
            forall k | k in items :: compared.fields[k] == ItemCompare(items[k], part)
  {
    hide Collection, ItemCompare;
  }

  lemma NotDiffering(b: Json, f: Json, part: Part, k: string)
    requires !ItemsDiffer(b, f, part, k)
    ensures var bs, fs := Collection(b, part), Collection(f, part);
            k in bs && k in fs && PyEq(ItemCompare(bs[k], part), ItemCompare(fs[k], part))
  {
    hide Collection, ItemCompare, PyEq;
  }

  lemma KeysCovered(b: Json, f: Json, part: Part, k: string)
    ensures k in CollectionKeys(b, f, part) <==> k in Collection(b, part) || k in Collection(f, part)
  {
    hide Collection;
  }

  lemma CollectionDifference(b: Json, f: Json, part: Part) returns (d: Detail)
    requires !PyEq(CollectionCompare(b, part), CollectionCompare(f, part))
    ensures d in CollectionDiffs(b, f, part, CollectionKeys(b, f, part))
  {
    hide PyEq, Collection, ItemCompare, CollectionCompare, CollectionKeys;
    var key := DifferingItem(b, f, part);
    var bItem, fItem := Fetch(Collection(b, part), key), Fetch(Collection(f, part), key);
    CollectionDiffsHold(b, f, part, CollectionKeys(b, f, part), key);
    if bItem.Null? || fItem.Null? {
      d := ItemDiffsAt(b, f, part, key)[0];
    } else {
      ItemCompareClean(bItem, part);
      ItemCompareClean(fItem, part);
      d := SomeDifference(ItemCompare(bItem, part), ItemCompare(fItem, part), [Label(PartLabel(part)), Key(key)]);
    }
  }

  /** Two scenes have no detail to show exactly when they compare equal. */
  lemma SceneDiffEmptyIffEqual(b: Json, f: Json)
    ensures AllSceneDiffs(b, f) == [] <==> SceneEq(b, f)
  {
    if !SceneEq(b, f) {
      var d := SomeSceneDifference(b, f);
    }
  }

  lemma SomeSceneDifference(b: Json, f: Json) returns (d: Detail)
    requires !SceneEq(b, f)
    ensures d in AllSceneDiffs(b, f)
  {
    hide PartDiffs, CollectionDiffs, CollectionCompare, CollectionKeys, Prune, Or;
    var bc, fc := SceneCompare(b), SceneCompare(f);
    if !b.Obj? || !f.Obj? {
      if b.Obj? { OrPruneClean(Get(b, "settings"), EMPTY_OBJ); }
      if f.Obj? { OrPruneClean(Get(f, "settings"), EMPTY_OBJ); }
      PyEqReflexive(EMPTY_OBJ);
      PyEqSymmetric(Get(bc, "settings"), Get(fc, "settings"));
      d := PartDifference(b, f, 1);
    } else if i: nat :| i < |PARTS| && !PyEq(Get(bc, PARTS[i].0), Get(fc, PARTS[i].0)) {
      d := PartDifference(b, f, i);
    } else if !PyEq(CollectionCompare(b, Nodes), CollectionCompare(f, Nodes)) {
      d := CollectionDifference(b, f, Nodes);
    } else {
      SevenParts(b, f);
      d := CollectionDifference(b, f, Edges);
    }
  }

  lemma SevenParts(b: Json, f: Json)
    requires b.Obj? && f.Obj?
    requires forall i: nat | i < |PARTS| :: PyEq(Get(SceneCompare(b), PARTS[i].0), Get(SceneCompare(f), PARTS[i].0))
    requires PyEq(CollectionCompare(b, Nodes), CollectionCompare(f, Nodes))
    ensures PyEq(CollectionCompare(b, Edges), CollectionCompare(f, Edges)) ==> SceneEq(b, f)
  {
    hide CollectionCompare, Prune, Or, PyEq;
    var bc, fc := SceneCompare(b), SceneCompare(f);
    assert PARTS[0].0 == "name" && PARTS[1].0 == "settings" && PARTS[2].0 == "fields"
        && PARTS[3].0 == "customEvents" && PARTS[4].0 == "apps";
    if PyEq(CollectionCompare(b, Edges), CollectionCompare(f, Edges)) {
      forall k | k in bc.fields ensures PyEq(bc.fields[k], fc.fields[k]) {
        assert k in {"name", "settings", "fields", "customEvents", "apps", "nodes", "edges"};
      }
      DictsEqual(bc, fc);
    }
  }

  // ---- the scenes section -----------------------------------------------------------

  datatype Kind = Added | Removed | Changed

  datatype Change = Change(key: string, kind: Kind, details: seq<Detail>)

  /** The three versions of one scene: in the backend, on the frame, at the last deploy. */
  datatype Sides = Sides(backend: map<string, Json>, frame: map<string, Json>, baseline: map<string, Json>) {
    /** The frame changed the scene since the last deploy, and the backend does not have that change. */
    predicate Conflict(key: string) {
      !SceneEq(Fetch(frame, key), Fetch(baseline, key)) && !SceneEq(Fetch(frame, key), Fetch(backend, key))
    }

    function Keys(): set<string> {
      backend.Keys + frame.Keys + baseline.Keys
    }

    ghost function ChangeAt(key: string): Change {
      var b, f := Fetch(backend, key), Fetch(frame, key);
      if b.Null? then Change(key, Added, [])
      else if f.Null? then Change(key, Removed, [])
      else Change(key, Changed, Take(AllSceneDiffs(b, f), SCENE_DETAIL_LIMIT))
    }

    ghost function Changes(keys: seq<string>): seq<Change> {
      if keys == [] then [] else
        (if Conflict(keys[0]) then [ChangeAt(keys[0])] else []) + Changes(keys[1..])
    }
  }

  method BuildSceneSyncSection(sides: Sides) returns (changes: seq<Change>)
    ensures changes == sides.Changes(Sorted(sides.Keys()))
  {
    hide Sorted, Sides.Changes, Sides.Conflict, Sides.ChangeAt, Sides.Keys;
    var keys := Sorted(sides.Keys());
    changes := [];
    var i := 0;
    while i < |keys|
      invariant 0 <= i <= |keys|
      invariant sides.Changes(keys) == changes + sides.Changes(keys[i..])
    {
      ChangesStep(sides, keys, i);
      var more := SceneChange(sides, keys[i]);
      changes := changes + more;
      i := i + 1;
    }
    ChangesEnd(sides, keys[i..]);
  }

  /** The body of the loop: at most one reported change for one scene id. */
  method SceneChange(sides: Sides, key: string) returns (changes: seq<Change>)
    ensures changes == if sides.Conflict(key) then [sides.ChangeAt(key)] else []
  {
    hide SceneEq, AllSceneDiffs, Take;
    var b, f, base := Fetch(sides.backend, key), Fetch(sides.frame, key), Fetch(sides.baseline, key);
    if SceneEq(f, base) || SceneEq(f, b) {
      return [];
    }
    if b.Null? {
      return [Change(key, Added, [])];
    }
    if f.Null? {
      return [Change(key, Removed, [])];
    }
    var details := SceneDiffDetails(b, f, SCENE_DETAIL_LIMIT);
    SceneEqSymmetric(b, f);
    SceneDiffEmptyIffEqual(b, f);
    if details == [] {
      return []; // never taken: the diff of two scenes that compare unequal is not empty
    }
    return [Change(key, Changed, details)];
  }

  lemma ChangesStep(sides: Sides, keys: seq<string>, i: nat)
    requires i < |keys|
    ensures sides.Changes(keys[i..])
         == (if sides.Conflict(keys[i]) then [sides.ChangeAt(keys[i])] else []) + sides.Changes(keys[i + 1..])
  {
    hide Sides.Conflict, Sides.ChangeAt;
    assert keys[i..][1..] == keys[i + 1..];
  }

  lemma ChangesEnd(sides: Sides, keys: seq<string>)
    ensures keys == [] ==> sides.Changes(keys) == []
  {}

  lemma SceneEqSymmetric(a: Json, b: Json)
    ensures SceneEq(a, b) <==> SceneEq(b, a)
  {
    PyEqSymmetric(SceneCompare(a), SceneCompare(b));
  }

  /** The section reports exactly the scenes in conflict, and details every changed one. */
  lemma {:induction false} SectionIsExact(sides: Sides, keys: seq<string>)
    requires forall key | key in sides.Keys() :: key in keys
    ensures forall key :: sides.Conflict(key) <==> exists c | c in sides.Changes(keys) :: c.key == key
    ensures forall c | c in sides.Changes(keys) ::
              c == sides.ChangeAt(c.key) && (c.kind.Changed? ==> 0 < |c.details| <= SCENE_DETAIL_LIMIT)
  {
    forall key | sides.Conflict(key) ensures key in keys {
      SceneEqReflexive(Null);
    }
    ChangesAreConflicts(sides, keys);
  }

  lemma SceneEqReflexive(a: Json)
    ensures SceneEq(a, a)
  {
    PyEqReflexive(SceneCompare(a));
  }

  lemma {:induction false} ChangesAreConflicts(sides: Sides, keys: seq<string>)
    ensures forall key :: key in keys && sides.Conflict(key) <==> exists c | c in sides.Changes(keys) :: c.key == key
    ensures forall c | c in sides.Changes(keys) ::
              c == sides.ChangeAt(c.key) && (c.kind.Changed? ==> 0 < |c.details| <= SCENE_DETAIL_LIMIT)
  {
    hide SceneEq, AllSceneDiffs;
    if keys != [] {
      var key, rest := keys[0], sides.Changes(keys[1..]);
      ChangesAreConflicts(sides, keys[1..]);
      var b, f := Fetch(sides.backend, key), Fetch(sides.frame, key);
      SceneEqSymmetric(b, f);
      SceneDiffEmptyIffEqual(b, f);
      forall k ensures k in keys && sides.Conflict(k) <==> exists c | c in sides.Changes(keys) :: c.key == k {
        assert keys == [key] + keys[1..];
        assert sides.Changes(keys) == (if sides.Conflict(key) then [sides.ChangeAt(key)] else []) + rest;
        if k == key && sides.Conflict(k) {
          assert sides.Changes(keys)[0].key == k;
        } else if c :| c in rest && c.key == k {
          assert c in sides.Changes(keys);
        }
      }
    }
  }
}
