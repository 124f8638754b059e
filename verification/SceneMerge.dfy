/**
 Merging the scenes of backend and frame by the user's choices
 (backend/app/api/frame_sync.py:941-1046), and what the merge guarantees: it converges, it leaves
 every scene without a choice alone, and "both" loses neither version.
 */
module SceneMerge {
  import opened PyText
  import opened Json
  import opened SceneDiff

  datatype Choice = UseBackend | UseFrame | KeepBoth | Unknown

  function Id(scene: Json): string {
    PyStr(Get(scene, "id"))
  }

  /** A dict with an id of its own. */
  predicate HasId(scene: Json) {
    scene.Obj? && Truthy(Get(scene, "id"))
  }

  ghost predicate AllHaveIds(scenes: seq<Json>) {
    forall i | 0 <= i < |scenes| :: HasId(scenes[i])
  }

  /** Some id stands in the list twice or more. */
  ghost predicate Repeated(scenes: seq<Json>, key: string) {
    exists i, j :: 0 <= i < j < |scenes| && Id(scenes[i]) == key && Id(scenes[j]) == key
  }

  /** Every scene has an id and no two share one. */
  ghost predicate WellIded(scenes: seq<Json>) {
    AllHaveIds(scenes) &&
    (forall i, j | 0 <= i < j < |scenes| :: Id(scenes[i]) != Id(scenes[j]))
  }

  function SceneAt(scenes: seq<Json>, key: string): Json {
    Fetch(ScenesById(scenes), key)
  }

  // ---- replacing one scene ----------------------------------------------------------

  /** Position of the first scene with this key, or the length of the list. */
  function FirstIndex(scenes: seq<Json>, key: string, from: nat): (i: nat)
    requires from <= |scenes|
    ensures from <= i <= |scenes|
    decreases |scenes| - from
  {
    if from == |scenes| || IdOrIndex(scenes[from], from) == key then from else FirstIndex(scenes, key, from + 1)
  }

  /** `_replace_scene_by_key`; a null scene deletes. */
  function Replace(scenes: seq<Json>, key: string, scene: Json): seq<Json> {
    var i := FirstIndex(scenes, key, 0);
    if i < |scenes| then
      if scene.Null? then scenes[..i] + scenes[i + 1..] else scenes[i := scene]
    else if scene.Null? then scenes else scenes + [scene]
  }

  method ReplaceSceneByKey(scenes: seq<Json>, key: string, scene: Json) returns (result: seq<Json>)
    ensures result == Replace(scenes, key, scene)
  {
    result := scenes;
    var index := 0;
    while index < |result|
      invariant 0 <= index <= |result| && result == scenes
      invariant FirstIndex(scenes, key, 0) == FirstIndex(scenes, key, index)
    {
      if IdOrIndex(result[index], index) != key {
        index := index + 1;
        continue;
      }
      if scene.Null? {
        return result[..index] + result[index + 1..];
      }
      return result[index := scene];
    }
    if !scene.Null? {
      result := result + [scene];
    }
  }

  /** A list without duplicates looks up each scene under its id, and nothing else. */
  lemma {:induction false} Position(scenes: seq<Json>, key: string) returns (i: nat)
    requires WellIded(scenes)
    ensures i <= |scenes| && forall j | 0 <= j < |scenes| :: Id(scenes[j]) == key <==> j == i
    ensures SceneAt(scenes, key) == if i < |scenes| then scenes[i] else Null
    ensures key in ScenesById(scenes) <==> i < |scenes|
  {
    i := 0;
    if scenes != [] {
      var last := |scenes| - 1;
      i := Position(scenes[..last], key);
      if Id(scenes[last]) == key { i := last; } else if i == last { i := |scenes|; }
    }
  }

  lemma {:induction false} FirstIndexFinds(scenes: seq<Json>, key: string, from: nat)
    requires AllHaveIds(scenes) && from <= |scenes|
    ensures var i := FirstIndex(scenes, key, from);
            (i < |scenes| ==> Id(scenes[i]) == key) && (forall j | from <= j < i :: Id(scenes[j]) != key)
    decreases |scenes| - from
  {
    if from < |scenes| && IdOrIndex(scenes[from], from) != key {
      FirstIndexFinds(scenes, key, from + 1);
    }
  }

  /** What may stand under `key`: nothing, or a scene with that id. */
  predicate Fits(scene: Json, key: string) {
    scene.Null? || (HasId(scene) && Id(scene) == key)
  }

  /** Replacing changes the lookup at its key and nowhere else. */
  lemma ReplaceUpdatesLookup(scenes: seq<Json>, key: string, scene: Json)
    requires WellIded(scenes) && Fits(scene, key)
    ensures WellIded(Replace(scenes, key, scene))
    ensures forall k :: SceneAt(Replace(scenes, key, scene), k) == if k == key then scene else SceneAt(scenes, k)
  {
    ReplaceStaysWellIded(scenes, key, scene);
    NeverRepeated(scenes, key);
    hide SceneAt, Replace, WellIded, AllHaveIds, Repeated;
    forall k ensures SceneAt(Replace(scenes, key, scene), k) == if k == key then scene else SceneAt(scenes, k) {
      ReplaceEditsTheFirst(scenes, key, scene, k);
    }
  }

  lemma ReplaceStaysWellIded(scenes: seq<Json>, key: string, scene: Json)
    requires WellIded(scenes) && Fits(scene, key)
    ensures WellIded(Replace(scenes, key, scene))
  {
    hide Truthy;
    var result := Replace(scenes, key, scene);
    FirstIndexFinds(scenes, key, 0);
    var i := FirstIndex(scenes, key, 0);
    if i < |scenes| && scene.Null? {
      assert forall j | 0 <= j < |result| :: result[j] == scenes[if j < i then j else j + 1];
    }
  }

  /** A scene is exchanged where it stands, taken out without a gap, or added at the end. */
  lemma ReplaceKeepsPlaces(scenes: seq<Json>, key: string, scene: Json, i: nat)
    requires WellIded(scenes) && i <= |scenes| && (i < |scenes| ==> Id(scenes[i]) == key)
    requires i == |scenes| ==> forall j | 0 <= j < |scenes| :: Id(scenes[j]) != key
    ensures var result := Replace(scenes, key, scene);
            if scene.Null? then
              if i < |scenes| then result == scenes[..i] + scenes[i + 1..] else result == scenes
            else
              if i < |scenes| then result == scenes[..i] + [scene] + scenes[i + 1..] else result == scenes + [scene]
  {
    FirstIndexFinds(scenes, key, 0);
    assert FirstIndex(scenes, key, 0) == i;
    hide Id, FirstIndex;
  }

  // ---- the same with ids that may repeat ---------------------------------------------

  /** The lookup reads the last scene with the id. */
  lemma {:induction false} LastPosition(scenes: seq<Json>, key: string) returns (i: nat)
    requires AllHaveIds(scenes)
    ensures i <= |scenes| && forall j | i < j < |scenes| :: Id(scenes[j]) != key
    ensures if i < |scenes| then Id(scenes[i]) == key && SceneAt(scenes, key) == scenes[i]
            else SceneAt(scenes, key).Null? && forall j | 0 <= j < |scenes| :: Id(scenes[j]) != key
  {
    i := 0;
    if scenes != [] {
      var last := |scenes| - 1;
      i := LastPosition(scenes[..last], key);
      if Id(scenes[last]) == key { i := last; } else if i == last { i := |scenes|; }
    }
  }

  /** `i` is where the first scene with the id stands. */
  ghost predicate IsFirst(scenes: seq<Json>, key: string, i: nat) {
    i < |scenes| && Id(scenes[i]) == key && forall j | 0 <= j < i :: Id(scenes[j]) != key
  }

  lemma UpdateFirst(scenes: seq<Json>, key: string, i: nat, scene: Json, k: string)
    requires AllHaveIds(scenes) && IsFirst(scenes, key, i) && HasId(scene) && Id(scene) == key
    ensures AllHaveIds(scenes[i := scene])
    ensures SceneAt(scenes[i := scene], k) ==
            if k == key && !Repeated(scenes, key) then scene else SceneAt(scenes, k)
    ensures Repeated(scenes[i := scene], k) <==> Repeated(scenes, k)
  {
    hide HasId, SceneAt, Id;
    var result := scenes[i := scene];
    assert forall j | 0 <= j < |result| :: Id(result[j]) == Id(scenes[j]);
    var before := LastPosition(scenes, k);
    var after := LastPosition(result, k);
    assert before == after;
  }

  lemma DeleteFirst(scenes: seq<Json>, key: string, i: nat, k: string)
    requires AllHaveIds(scenes) && IsFirst(scenes, key, i)
    ensures AllHaveIds(scenes[..i] + scenes[i + 1..])
    ensures SceneAt(scenes[..i] + scenes[i + 1..], k) ==
            if k == key && !Repeated(scenes, key) then Null else SceneAt(scenes, k)
    ensures k != key ==> (Repeated(scenes[..i] + scenes[i + 1..], k) <==> Repeated(scenes, k))
  {
    hide HasId, SceneAt, Id;
    var result := scenes[..i] + scenes[i + 1..];
    assert forall j | 0 <= j < i :: result[j] == scenes[j];
    assert forall j | i <= j < |result| :: result[j] == scenes[j + 1];
    assert forall j | i < j < |scenes| :: scenes[j] == result[j - 1];
    var before := LastPosition(scenes, k);
    var after := LastPosition(result, k);
    if k != key {
      DeletingKeepsRepeats(scenes, i, k);
    }
  }

  lemma DeletingKeepsRepeats(scenes: seq<Json>, i: nat, k: string)
    requires i < |scenes| && Id(scenes[i]) != k
    ensures Repeated(scenes[..i] + scenes[i + 1..], k) <==> Repeated(scenes, k)
  {
    hide Id;
    var result := scenes[..i] + scenes[i + 1..];
    if Repeated(scenes, k) {
      var x, y :| 0 <= x < y < |scenes| && Id(scenes[x]) == k && Id(scenes[y]) == k;
      assert result[if x < i then x else x - 1] == scenes[x] && result[if y < i then y else y - 1] == scenes[y];
    }
    if Repeated(result, k) {
      var x, y :| 0 <= x < y < |result| && Id(result[x]) == k && Id(result[y]) == k;
      assert result[x] == scenes[if x < i then x else x + 1] && result[y] == scenes[if y < i then y else y + 1];
    }
  }

  lemma AppendNew(scenes: seq<Json>, key: string, scene: Json, k: string)
    requires AllHaveIds(scenes) && (forall j | 0 <= j < |scenes| :: Id(scenes[j]) != key)
    requires HasId(scene) && Id(scene) == key
    ensures AllHaveIds(scenes + [scene])
    ensures SceneAt(scenes + [scene], k) == if k == key then scene else SceneAt(scenes, k)
    ensures k != key ==> (Repeated(scenes + [scene], k) <==> Repeated(scenes, k))
  {
    hide HasId, SceneAt, Id;
    var result := scenes + [scene];
    assert result[|scenes|] == scene && forall j | 0 <= j < |scenes| :: result[j] == scenes[j];
    var before := LastPosition(scenes, k);
    var after := LastPosition(result, k);
  }

  /** Replacing edits the first scene with the id, so what the lookup reads changes only if there is
      no other; other ids keep their lookup and stay as repeated as they were. */
  lemma ReplaceEditsTheFirst(scenes: seq<Json>, key: string, scene: Json, k: string)
    requires AllHaveIds(scenes) && Fits(scene, key)
    ensures AllHaveIds(Replace(scenes, key, scene))
    ensures SceneAt(Replace(scenes, key, scene), k) ==
            if k == key && !Repeated(scenes, key) then scene else SceneAt(scenes, k)
    ensures k != key ==> (Repeated(Replace(scenes, key, scene), k) <==> Repeated(scenes, k))
  {
    FirstIndexFinds(scenes, key, 0);
    hide HasId, SceneAt, FirstIndex, Id, Repeated, AllHaveIds;
    var i := FirstIndex(scenes, key, 0);
    if i < |scenes| {
      assert IsFirst(scenes, key, i);
      if scene.Null? { DeleteFirst(scenes, key, i, k); } else { UpdateFirst(scenes, key, i, scene, k); }
    } else {
      assert !Repeated(scenes, key) by { NowhereRepeated(scenes, key); }
      var last := LastPosition(scenes, key);
      if !scene.Null? { AppendNew(scenes, key, scene, k); }
    }
  }

  lemma NeverRepeated(scenes: seq<Json>, key: string)
    requires WellIded(scenes)
    ensures AllHaveIds(scenes) && !Repeated(scenes, key)
  {}

  lemma NowhereRepeated(scenes: seq<Json>, key: string)
    requires forall j | 0 <= j < |scenes| :: Id(scenes[j]) != key
    ensures !Repeated(scenes, key)
  {}

  // ---- the frame copy of "both" -----------------------------------------------------

  /** `_scene_title` of a dict. */
  function Title(scene: Json): string {
    PyStr(Or(Get(scene, "name"), Or(Get(scene, "id"), Str("Untitled scene"))))
  }

  function FieldValues(scenes: seq<Json>, field: string): (values: set<string>) {
    set i | 0 <= i < |scenes| && scenes[i].Obj? && Truthy(Get(scenes[i], field)) :: PyStr(Get(scenes[i], field))
  }

  /** The candidates of the name search: suffix n of a base name. */
  function Suffixed(base: string): nat -> string {
    (n: nat) => base + " (frame copy " + Decimal(n) + ")"
  }

  lemma SuffixedInjective(base: string)
    ensures Injective(Suffixed(base))
  {
    forall m: nat, n: nat | Suffixed(base)(m) == Suffixed(base)(n) ensures m == n {
      var before := base + " (frame copy ";
      var s, t := Suffixed(base)(m), Suffixed(base)(n);
      assert s == before + Decimal(m) + ")" && t == before + Decimal(n) + ")";
      assert Decimal(m) == s[|before|..|s| - 1] && Decimal(n) == t[|before|..|t| - 1];
      DecimalInjective(m, n);
    }
  }

  ghost function CopyName(scene: Json, names: set<string>): string {
    var base := Title(scene);
    SuffixedInjective(base);
    if base + " (frame copy)" !in names then base + " (frame copy)"
    else Suffixed(base)(FirstFree(Suffixed(base), names, 2))
  }

  /** The copy is named after the original: with the first of the endings that gives a name nobody has. */
  lemma CopyIsNamedAfter(scene: Json, names: set<string>)
    ensures var base := if Truthy(Get(scene, "name")) then PyStr(Get(scene, "name"))
                        else if Truthy(Get(scene, "id")) then PyStr(Get(scene, "id")) else "Untitled scene";
            var name := CopyName(scene, names);
            if base + " (frame copy)" !in names then name == base + " (frame copy)"
            else exists n: nat ::
              n >= 2 && name == base + " (frame copy " + Decimal(n) + ")" && name !in names &&
              forall m: nat | 2 <= m < n :: base + " (frame copy " + Decimal(m) + ")" in names
  {
    hide Truthy, Decimal, PyStr, Title;
    var base := Title(scene);
    TitleIs(scene);
    SuffixedInjective(base);
    if base + " (frame copy)" in names {
      var n := FirstFree(Suffixed(base), names, 2);
      assert forall m: nat :: Suffixed(base)(m) == base + " (frame copy " + Decimal(m) + ")";
      assert forall m: nat | 2 <= m < n :: Suffixed(base)(m) in names;
      assert Suffixed(base)(n) !in names;
    }
  }

  lemma TitleIs(scene: Json)
    ensures Title(scene) == if Truthy(Get(scene, "name")) then PyStr(Get(scene, "name"))
                            else if Truthy(Get(scene, "id")) then PyStr(Get(scene, "id")) else "Untitled scene"
  {
    hide Truthy, Decimal;
  }

  /** The search ends, and ends at a name nobody has. */
  method SceneCopyName(scene: Json, names: set<string>) returns (name: string)
    ensures name == CopyName(scene, names) && name !in names
  {
    var base := Title(scene);
    var candidate := base + " (frame copy)";
    if candidate !in names {
      return candidate;
    }
    SuffixedInjective(base);
    ghost var free := FirstFree(Suffixed(base), names, 2);
    var suffix := 2;
    while Suffixed(base)(suffix) in names
      invariant 2 <= suffix <= free
      decreases free - suffix
    {
      suffix := suffix + 1;
    }
    assert suffix == free;
    return Suffixed(base)(suffix);
  }

  /** uuid4 as a supply of texts that never repeats. */
  ghost predicate Supply(uuids: nat -> string) {
    Injective(uuids) && forall n: nat :: uuids(n) != ""
  }

  /** How many draws the id search makes use of, the accepted one included. */
  ghost function DrawnAfter(uuids: nat -> string, existing: seq<Json>, drawn: nat): (after: nat)
    requires Supply(uuids)
    ensures after > drawn
  {
    FirstFree(uuids, FieldValues(existing, "id"), drawn) + 1
  }

  ghost function FrameCopy(scene: Json, existing: seq<Json>, id: string): Json
    requires scene.Obj?
  {
    var renumbered := Obj(scene.fields["id" := Str(id)]);
    Obj(renumbered.fields["name" := Str(CopyName(renumbered, FieldValues(existing, "name")))])
  }

  /** `_copy_frame_scene_variant`; something that is no dict is copied as it is. */
  method CopyFrameSceneVariant(scene: Json, existing: seq<Json>, uuids: nat -> string, drawn: nat)
    returns (copied: Json, after: nat)
    requires Supply(uuids)
    ensures !scene.Obj? ==> copied == scene && after == drawn
    ensures scene.Obj? ==>
              after == DrawnAfter(uuids, existing, drawn) && copied == FrameCopy(scene, existing, uuids(after - 1))
  {
    if !scene.Obj? {
      return scene, drawn;
    }
    var ids := FieldValues(existing, "id");
    ghost var free := FirstFree(uuids, ids, drawn);
    var n := drawn;
    while uuids(n) in ids
      invariant drawn <= n <= free
      decreases free - n
    {
      n := n + 1;
    }
    var renumbered := Obj(scene.fields["id" := Str(uuids(n))]);
    var name := SceneCopyName(renumbered, FieldValues(existing, "name"));
    return Obj(renumbered.fields["name" := Str(name)]), n + 1;
  }

  // ---- applying the choices ---------------------------------------------------------

  /** The two lists being merged, and how many uuids have been drawn. */
  datatype Merge = Merge(backend: seq<Json>, frame: seq<Json>, drawn: nat)

  ghost function PutBoth(m: Merge, key: string, scene: Json): Merge {
    Merge(Replace(m.backend, key, scene), Replace(m.frame, key, scene), m.drawn)
  }

  ghost function AddCopy(m: Merge, scene: Json, uuids: nat -> string): Merge
    requires Supply(uuids)
  {
    if !scene.Obj? then Merge(m.backend + [scene], m.frame + [scene], m.drawn) else
      var existing := m.backend + m.frame;
      var after := DrawnAfter(uuids, existing, m.drawn);
      var copied := FrameCopy(scene, existing, uuids(after - 1));
      Merge(m.backend + [copied], m.frame + [copied], after)
  }

  /** One choice; `b` and `f` are the two sides' scenes under `key` before the merge began. */
  ghost function ApplyOne(m: Merge, key: string, choice: Choice, b: Json, f: Json, uuids: nat -> string): Merge
    requires Supply(uuids)
  {
    match choice
    case UseBackend => PutBoth(m, key, b)
    case UseFrame => PutBoth(m, key, f)
    case KeepBoth =>
      if b.Null? then PutBoth(m, key, f)
      else if f.Null? then PutBoth(m, key, b)
      else AddCopy(PutBoth(m, key, b), f, uuids)
    case Unknown => m
  }

  /** The first `n` choices applied in order. */
  ghost function ApplyFirst(
    b: seq<Json>, f: seq<Json>, choices: seq<(string, Choice)>, n: nat, uuids: nat -> string, drawn: nat): Merge
    requires Supply(uuids) && n <= |choices|
  {
    if n == 0 then Merge(b, f, drawn) else
      var (key, choice) := choices[n - 1];
      ApplyOne(ApplyFirst(b, f, choices, n - 1, uuids, drawn), key, choice, SceneAt(b, key), SceneAt(f, key), uuids)
  }

  method ApplySceneSyncChoices(
    backendValue: Json, frameValue: Json, choices: seq<(string, Choice)>, uuids: nat -> string, drawn0: nat)
    returns (backend: seq<Json>, frame: seq<Json>, drawn: nat)
    requires Supply(uuids)
    ensures Merge(backend, frame, drawn)
         == ApplyFirst(SceneList(backendValue), SceneList(frameValue), choices, |choices|, uuids, drawn0)
  {
    hide Replace, ScenesById;
    backend, frame, drawn := SceneList(backendValue), SceneList(frameValue), drawn0;
    var backendById, frameById := ScenesById(backend), ScenesById(frame);
    for i := 0 to |choices|
      invariant Merge(backend, frame, drawn)
             == ApplyFirst(SceneList(backendValue), SceneList(frameValue), choices, i, uuids, drawn0)
    {
      var (key, choice) := choices[i];
      var b, f := Fetch(backendById, key), Fetch(frameById, key);
      match choice {
        case UseBackend =>
          backend := ReplaceSceneByKey(backend, key, b);
          frame := ReplaceSceneByKey(frame, key, b);
        case UseFrame =>
          backend := ReplaceSceneByKey(backend, key, f);
          frame := ReplaceSceneByKey(frame, key, f);
        case KeepBoth =>
          if b.Null? {
            backend := ReplaceSceneByKey(backend, key, f);
            frame := ReplaceSceneByKey(frame, key, f);
          } else if f.Null? {
            backend := ReplaceSceneByKey(backend, key, b);
            frame := ReplaceSceneByKey(frame, key, b);
          } else {
            backend := ReplaceSceneByKey(backend, key, b);
            frame := ReplaceSceneByKey(frame, key, b);
            var copied;
            copied, drawn := CopyFrameSceneVariant(f, backend + frame, uuids, drawn);
            backend := backend + [copied];
            frame := frame + [copied];
          }
        case Unknown =>
      }
    }
  }

  // ---- one step at the level of lookups ---------------------------------------------

  /** What a step puts under its key, on both sides; `Unknown` puts nothing. */
  function Chosen(choice: Choice, b: Json, f: Json): Json {
    match choice
    case UseBackend => b
    case UseFrame => f
    case KeepBoth => if b.Null? then f else b
    case Unknown => Null
  }

  predicate Copies(choice: Choice, b: Json, f: Json) {
    choice.KeepBoth? && !b.Null? && !f.Null?
  }

  ghost function Ids(scenes: seq<Json>): set<string> {
    FieldValues(scenes, "id")
  }

  lemma AppendCopy(scenes: seq<Json>, copied: Json)
    requires WellIded(scenes) && HasId(copied) && Id(copied) !in Ids(scenes)
    ensures WellIded(scenes + [copied])
    ensures forall k :: SceneAt(scenes + [copied], k) == if k == Id(copied) then copied else SceneAt(scenes, k)
  {
    assert (scenes + [copied])[..|scenes|] == scenes;
  }

  lemma IdsAreKeys(scenes: seq<Json>, k: string)
    requires WellIded(scenes)
    ensures k in Ids(scenes) <==> !SceneAt(scenes, k).Null?
  {
    var i := Position(scenes, k);
  }

  /** The copy a step adds: the frame's scene under an id, and a name, that neither list uses. */
  ghost predicate IsFreshCopy(copied: Json, original: Json, before: Merge) {
    original.Obj? && HasId(copied) &&
    SceneAt(before.backend, Id(copied)).Null? && SceneAt(before.frame, Id(copied)).Null? &&
    Get(copied, "name").Str? && Get(copied, "name").s !in FieldValues(before.backend + before.frame, "name") &&
    copied.fields - {"id", "name"} == original.fields - {"id", "name"}
  }

  /** What a step leaves at `k`, where `was` stood there before. */
  ghost function Expected(choice: Choice, b: Json, f: Json, key: string, copied: Json, was: Json, k: string): Json {
    if Copies(choice, b, f) && k == Id(copied) then copied
    else if k == key then Chosen(choice, b, f)
    else was
  }

  /** One step: both sides agree on the chosen key, at most one fresh copy appears on both, and
      every other lookup stays as it was. */
  lemma StepLookups(m: Merge, key: string, choice: Choice, b: Json, f: Json, uuids: nat -> string)
    returns (copied: Json)
    requires Supply(uuids) && WellIded(m.backend) && WellIded(m.frame) && Fits(b, key) && Fits(f, key)
    requires !choice.Unknown?
    ensures var m' := ApplyOne(m, key, choice, b, f, uuids);
            var put := PutBoth(m, key, Chosen(choice, b, f));
            WellIded(m'.backend) && WellIded(m'.frame) && WellIded(put.backend) && WellIded(put.frame) &&
            (Copies(choice, b, f) ==>
               IsFreshCopy(copied, f, put) && m' == Merge(put.backend + [copied], put.frame + [copied], m'.drawn) &&
               exists n: nat :: uuids(n) == Id(copied)) &&
            (!Copies(choice, b, f) ==> m' == put) &&
            forall k ::
              SceneAt(m'.backend, k) == Expected(choice, b, f, key, copied, SceneAt(m.backend, k), k) &&
              SceneAt(m'.frame, k) == Expected(choice, b, f, key, copied, SceneAt(m.frame, k), k)
  {
    hide Replace, Truthy, ScenesById;
    var put := PutBoth(m, key, Chosen(choice, b, f));
    ReplaceUpdatesLookup(m.backend, key, Chosen(choice, b, f));
    ReplaceUpdatesLookup(m.frame, key, Chosen(choice, b, f));
    copied := Null;
    if Copies(choice, b, f) {
      var existing := put.backend + put.frame;
      var after := DrawnAfter(uuids, existing, m.drawn);
      copied := FrameCopy(f, existing, uuids(after - 1));
      FrameCopyIsFresh(f, put, uuids, after);
      AppendCopy(put.backend, copied);
      AppendCopy(put.frame, copied);
    }
  }

  /** The copy has an id that stands in neither list, whether or not other ids repeat there. */
  lemma CopyIsNew(f: Json, put: Merge, uuids: nat -> string)
    requires Supply(uuids) && AllHaveIds(put.backend) && AllHaveIds(put.frame) && f.Obj?
    ensures var id := uuids(DrawnAfter(uuids, put.backend + put.frame, put.drawn) - 1);
            var copied := FrameCopy(f, put.backend + put.frame, id);
            HasId(copied) && Id(copied) == id &&
            (forall i | 0 <= i < |put.backend| :: Id(put.backend[i]) != id) &&
            forall i | 0 <= i < |put.frame| :: Id(put.frame[i]) != id
  {
    var existing := put.backend + put.frame;
    var id := uuids(DrawnAfter(uuids, existing, put.drawn) - 1);
    assert id !in FieldValues(existing, "id");
    forall i | 0 <= i < |put.backend| ensures Id(put.backend[i]) != id {
      assert existing[i] == put.backend[i] && HasId(put.backend[i]);
    }
    forall i | 0 <= i < |put.frame| ensures Id(put.frame[i]) != id {
      assert existing[|put.backend| + i] == put.frame[i] && HasId(put.frame[i]);
    }
  }

  lemma FrameCopyIsFresh(f: Json, put: Merge, uuids: nat -> string, after: nat)
    requires Supply(uuids) && WellIded(put.backend) && WellIded(put.frame) && f.Obj?
    requires after == DrawnAfter(uuids, put.backend + put.frame, put.drawn)
    ensures var copied := FrameCopy(f, put.backend + put.frame, uuids(after - 1));
            IsFreshCopy(copied, f, put) && Id(copied) == uuids(after - 1) &&
            Id(copied) !in Ids(put.backend) && Id(copied) !in Ids(put.frame)
  {
    var existing := put.backend + put.frame;
    var id := uuids(after - 1);
    var copied := FrameCopy(f, existing, id);
    IdsAreKeys(put.backend, id);
    IdsAreKeys(put.frame, id);
    CopyIsNew(f, put, uuids);
    var renumbered := Obj(f.fields["id" := Str(id)]);
    var name := SceneNameIsFree(renumbered, FieldValues(existing, "name"));
  }

  lemma SceneNameIsFree(scene: Json, names: set<string>) returns (name: string)
    ensures name == CopyName(scene, names) && name !in names
  {
    name := CopyName(scene, names);
    SuffixedInjective(Title(scene));
  }
}
