/**
 What a whole scene sync guarantees: comparison (SceneDiff) and merge (SceneMerge) put together
 (backend/app/api/frame_sync.py:855-920, 967-1046).
 */
module SceneSync {
  import opened PyText
  import opened Json
  import opened SceneDiff
  import opened SceneMerge

  type Choices = seq<(string, Choice)>

  /** Some of the first `n` choices decides about `key`. */
  ghost predicate DecidedBefore(choices: Choices, n: nat, key: string)
    requires n <= |choices|
  {
    exists i | 0 <= i < n :: choices[i].0 == key && !choices[i].1.Unknown?
  }

  lemma LookupFits(scenes: seq<Json>, key: string)
    requires WellIded(scenes)
    ensures Fits(SceneAt(scenes, key), key)
  {
    var i := Position(scenes, key);
  }

  // ---- convergence ------------------------------------------------------------------

  /** After any number of choices the two sides agree on a scene, or nobody decided about it yet
      and both still have what they began with. */
  lemma {:induction false} AgreeOrUntouched(
    b: seq<Json>, f: seq<Json>, choices: Choices, n: nat, uuids: nat -> string, drawn: nat)
    requires Supply(uuids) && WellIded(b) && WellIded(f) && n <= |choices|
    ensures var m := ApplyFirst(b, f, choices, n, uuids, drawn);
            WellIded(m.backend) && WellIded(m.frame) &&
            forall k :: SceneAt(m.backend, k) == SceneAt(m.frame, k)
                     || (SceneAt(m.backend, k) == SceneAt(b, k) && SceneAt(m.frame, k) == SceneAt(f, k) &&
                         !DecidedBefore(choices, n, k))
  {
    hide SceneAt, WellIded, Supply, ApplyOne;
    if n > 0 {
      AgreeOrUntouched(b, f, choices, n - 1, uuids, drawn);
      var (key, choice) := choices[n - 1];
      var before := ApplyFirst(b, f, choices, n - 1, uuids, drawn);
      LookupFits(b, key);
      LookupFits(f, key);
      if choice.Unknown? {
        assert ApplyOne(before, key, choice, SceneAt(b, key), SceneAt(f, key), uuids) == before by {
          UnknownDoesNothing(before, key, SceneAt(b, key), SceneAt(f, key), uuids);
        }
      } else {
        var copied := StepLookups(before, key, choice, SceneAt(b, key), SceneAt(f, key), uuids);
      }
      forall k | DecidedBefore(choices, n, k) && !DecidedBefore(choices, n - 1, k)
        ensures k == key && !choice.Unknown?
      {}
    }
  }

  lemma UnknownDoesNothing(m: Merge, key: string, b: Json, f: Json, uuids: nat -> string)
    requires Supply(uuids)
    ensures ApplyOne(m, key, Unknown, b, f, uuids) == m
  {}

  /** Sync converges: once every reported scene got one of the three choices, comparing the
      merged lists against the same baseline reports nothing. */
  lemma SyncConverges(
    b: seq<Json>, f: seq<Json>, baseline: map<string, Json>, choices: Choices, uuids: nat -> string, drawn: nat)
    requires Supply(uuids) && WellIded(b) && WellIded(f)
    requires forall key | Sides(ScenesById(b), ScenesById(f), baseline).Conflict(key) ::
               DecidedBefore(choices, |choices|, key)
    ensures var m := ApplyFirst(b, f, choices, |choices|, uuids, drawn);
            var after := Sides(ScenesById(m.backend), ScenesById(m.frame), baseline);
            after.Changes(Sorted(after.Keys())) == []
  {
    hide SceneEq, Sides.Changes, Sorted, WellIded, ApplyFirst, ScenesById;
    var before := Sides(ScenesById(b), ScenesById(f), baseline);
    var m := ApplyFirst(b, f, choices, |choices|, uuids, drawn);
    var after := Sides(ScenesById(m.backend), ScenesById(m.frame), baseline);
    AgreeOrUntouched(b, f, choices, |choices|, uuids, drawn);
    forall key ensures !after.Conflict(key) {
      assert Fetch(after.frame, key) == SceneAt(m.frame, key) && Fetch(after.backend, key) == SceneAt(m.backend, key);
      assert Fetch(before.frame, key) == SceneAt(f, key) && Fetch(before.backend, key) == SceneAt(b, key);
      SceneEqReflexive(SceneAt(m.frame, key));
    }
    SectionIsExact(after, Sorted(after.Keys()));
    var changes := after.Changes(Sorted(after.Keys()));
    assert |changes| > 0 ==> changes[0] in changes && !after.Conflict(changes[0].key);
  }

  const PLAIN := Obj(map["id" := Str("x")])
  const BRIGHT := Obj(map["id" := Str("x"), "settings" := Obj(map["bright" := Bool(true)])])

  /** Unique ids are needed: with one id twice on the frame, choosing the backend's scene replaces
      the first of the two while the comparison reads the last, so the scene is reported again. */
  lemma DuplicateIdsDoNotConverge(uuids: nat -> string)
    requires Supply(uuids)
    ensures var m := ApplyFirst([PLAIN], [BRIGHT, BRIGHT], [("x", UseBackend)], 1, uuids, 0);
            Sides(ScenesById(m.backend), ScenesById(m.frame), map[]).Conflict("x")
  {
    hide SceneEq;
    LastOfTwo(PLAIN, PLAIN);
    LastOfTwo(BRIGHT, BRIGHT);
    LastOfTwo(PLAIN, BRIGHT);
    assert ApplyFirst([PLAIN], [BRIGHT, BRIGHT], [("x", UseBackend)], 0, uuids, 0) ==
        Merge([PLAIN], [BRIGHT, BRIGHT], 0);
    assert FirstIndex([PLAIN], "x", 0) == 0 && FirstIndex([BRIGHT, BRIGHT], "x", 0) == 0;
    var m := ApplyFirst([PLAIN], [BRIGHT, BRIGHT], [("x", UseBackend)], 1, uuids, 0);
    assert m == Merge([PLAIN], [PLAIN, BRIGHT], 0);
    BrightDiffers();
  }

  lemma LastOfTwo(first: Json, last: Json)
    requires first in {PLAIN, BRIGHT} && last in {PLAIN, BRIGHT}
    ensures SceneAt([last], "x") == last && SceneAt([first, last], "x") == last
  {
    assert [last][..0] == [] && [first, last][..1] == [first];
  }

  lemma BrightDiffers()
    ensures !SceneEq(BRIGHT, PLAIN) && !SceneEq(BRIGHT, Null)
  {
    SettingsCompared(BRIGHT);
    SettingsCompared(PLAIN);
    BrightSettings();
    hide SceneCompare, PyEq, Prune;
    NothingCompared();
    if SceneEq(BRIGHT, PLAIN) { EqualEntries(SceneCompare(BRIGHT), SceneCompare(PLAIN), "settings"); }
    if SceneEq(BRIGHT, Null) { EqualEntries(SceneCompare(BRIGHT), EMPTY_OBJ, "settings"); }
  }

  lemma NothingCompared()
    ensures SceneCompare(Null) == EMPTY_OBJ && Prune(Null) == Null
  {}

  lemma SettingsCompared(scene: Json)
    requires scene.Obj?
    ensures Get(SceneCompare(scene), "settings") == Or(Prune(Get(scene, "settings")), EMPTY_OBJ)
  {
    hide CollectionCompare, Prune;
  }

  lemma BrightSettings()
    ensures var settings := Or(Prune(Get(BRIGHT, "settings")), EMPTY_OBJ);
            !PyEq(settings, EMPTY_OBJ) && !PyEq(settings, Null)
    ensures Or(Prune(Get(PLAIN, "settings")), EMPTY_OBJ) == EMPTY_OBJ
  {
    var settings := BRIGHT.fields["settings"];
    assert "bright" in settings.fields && "bright" in Prune(settings).fields;
    NothingCompared();
  }

  lemma EqualEntries(a: Json, b: Json, key: string)
    requires PyEq(a, b)
    ensures PyEq(Get(a, key), Get(b, key))
  {}

  // ---- what is left alone -----------------------------------------------------------

  /** The scenes whose id is not among `keys`, in list order. */
  function Others(scenes: seq<Json>, keys: set<string>): seq<Json> {
    if scenes == [] then [] else
      (if Id(scenes[0]) in keys then [] else [scenes[0]]) + Others(scenes[1..], keys)
  }

  lemma {:induction false} OthersConcat(a: seq<Json>, b: seq<Json>, keys: set<string>)
    ensures Others(a + b, keys) == Others(a, keys) + Others(b, keys)
  {
    hide Id;
    if a == [] {
      assert a + b == b;
    } else {
      var head := if Id(a[0]) in keys then [] else [a[0]];
      assert (a + b)[0] == a[0] && (a + b)[1..] == a[1..] + b;
      OthersConcat(a[1..], b, keys);
      assert head + (Others(a[1..], keys) + Others(b, keys)) == head + Others(a[1..], keys) + Others(b, keys);
    }
  }

  lemma AppendAssociates(a: seq<Json>, b: seq<Json>, c: seq<Json>)
    ensures a + b + c == a + (b + c)
  {}

  lemma ReplaceKeepsOthers(scenes: seq<Json>, key: string, scene: Json, keys: set<string>)
    requires WellIded(scenes) && Fits(scene, key) && key in keys
    ensures Others(Replace(scenes, key, scene), keys) == Others(scenes, keys)
  {
    assert AllHaveIds(scenes);
    FirstIndexFinds(scenes, key, 0);
    hide Truthy, Id, FirstIndex, WellIded, AllHaveIds, HasId, Others;
    var i := FirstIndex(scenes, key, 0);
    if i < |scenes| {
      OthersAround(scenes, i, scenes[i], keys);
      if !scene.Null? { OthersAround(scenes, i, scene, keys); }
    } else if !scene.Null? {
      OthersConcat(scenes, [scene], keys);
      OnlySkipped(scene, keys);
    }
  }

  lemma OnlySkipped(scene: Json, keys: set<string>)
    requires Id(scene) in keys
    ensures Others([scene], keys) == []
  {
    assert [scene][1..] == [];
  }

  /** Leaving out or exchanging a scene that is not among the others. */
  lemma OthersAround(scenes: seq<Json>, i: nat, scene: Json, keys: set<string>)
    requires i < |scenes| && Id(scene) in keys
    ensures Others(scenes[i := scene], keys) == Others(scenes[..i] + scenes[i + 1..], keys)
    ensures scene == scenes[i] ==> scenes[i := scene] == scenes
  {
    hide Id, Others;
    OthersConcat(scenes[..i], scenes[i + 1..], keys);
    OthersConcat(scenes[..i], [scene] + scenes[i + 1..], keys);
    OthersConcat([scene], scenes[i + 1..], keys);
    OnlySkipped(scene, keys);
    assert scenes[i := scene] == scenes[..i] + ([scene] + scenes[i + 1..]);
    assert [] + Others(scenes[i + 1..], keys) == Others(scenes[i + 1..], keys);
  }

  /** Scenes without a choice keep their content and their order on both sides; all that appears
      besides them are copies, added to the end of both lists alike. */
  lemma {:induction false} OthersUndisturbed(
    b: seq<Json>, f: seq<Json>, choices: Choices, n: nat, uuids: nat -> string, drawn: nat, keys: set<string>)
    returns (copies: seq<Json>)
    requires Supply(uuids) && WellIded(b) && WellIded(f) && n <= |choices|
    requires forall i | 0 <= i < |choices| :: choices[i].0 in keys
    ensures var m := ApplyFirst(b, f, choices, n, uuids, drawn);
            Others(m.backend, keys) == Others(b, keys) + copies &&
            Others(m.frame, keys) == Others(f, keys) + copies
    ensures |copies| <= n && forall c | c in copies :: exists i: nat :: uuids(i) == Id(c)
  {
    hide SceneAt, WellIded, Replace, Id, HasId, Supply, FieldValues;
    copies := [];
    if n > 0 {
      copies := OthersUndisturbed(b, f, choices, n - 1, uuids, drawn, keys);
      var before := ApplyFirst(b, f, choices, n - 1, uuids, drawn);
      var (key, choice) := choices[n - 1];
      AgreeOrUntouched(b, f, choices, n - 1, uuids, drawn);
      LookupFits(b, key);
      LookupFits(f, key);
      if !choice.Unknown? {
        var chosen := Chosen(choice, SceneAt(b, key), SceneAt(f, key));
        ReplaceKeepsOthers(before.backend, key, chosen, keys);
        ReplaceKeepsOthers(before.frame, key, chosen, keys);
        var copied := StepLookups(before, key, choice, SceneAt(b, key), SceneAt(f, key), uuids);
        if Copies(choice, SceneAt(b, key), SceneAt(f, key)) {
          var put := PutBoth(before, key, chosen);
          OthersConcat(put.backend, [copied], keys);
          OthersConcat(put.frame, [copied], keys);
          AppendAssociates(Others(b, keys), copies, Others([copied], keys));
          AppendAssociates(Others(f, keys), copies, Others([copied], keys));
          copies := copies + Others([copied], keys);
        }
      }
    }
  }

  // ---- "both" keeps both versions ---------------------------------------------------

  ghost predicate DistinctKeys(choices: Choices) {
    forall i, j | 0 <= i < j < |choices| :: choices[i].0 != choices[j].0
  }

  /** The supply never draws the id of a scene the user is deciding about. */
  ghost predicate AvoidsKeys(uuids: nat -> string, choices: Choices) {
    forall n: nat, i | 0 <= i < |choices| :: uuids(n) != choices[i].0
  }

  /** Later steps leave alone a scene both sides agree on, unless it is their own key. */
  lemma {:induction false} AgreedScenesStay(
    b: seq<Json>, f: seq<Json>, choices: Choices, i: nat, n: nat, uuids: nat -> string, drawn: nat, key: string)
    requires Supply(uuids) && WellIded(b) && WellIded(f) && i <= n <= |choices|
    requires forall j | i <= j < n :: choices[j].0 != key
    requires var m := ApplyFirst(b, f, choices, i, uuids, drawn);
             SceneAt(m.backend, key) == SceneAt(m.frame, key) && !SceneAt(m.backend, key).Null?
    ensures var m := ApplyFirst(b, f, choices, i, uuids, drawn);
            var m' := ApplyFirst(b, f, choices, n, uuids, drawn);
            SceneAt(m'.backend, key) == SceneAt(m.backend, key) == SceneAt(m'.frame, key)
    decreases n - i
  {
    hide SceneAt, WellIded, ApplyOne;
    if i < n {
      AgreedScenesStay(b, f, choices, i, n - 1, uuids, drawn, key);
      AgreeOrUntouched(b, f, choices, n - 1, uuids, drawn);
      var before := ApplyFirst(b, f, choices, n - 1, uuids, drawn);
      var (other, choice) := choices[n - 1];
      LookupFits(b, other);
      LookupFits(f, other);
      if choice.Unknown? {
        UnknownDoesNothing(before, other, SceneAt(b, other), SceneAt(f, other), uuids);
      } else {
        var copied := StepLookups(before, other, choice, SceneAt(b, other), SceneAt(f, other), uuids);
        var put := PutBoth(before, other, Chosen(choice, SceneAt(b, other), SceneAt(f, other)));
        ReplaceUpdatesLookup(before.backend, other, Chosen(choice, SceneAt(b, other), SceneAt(f, other)));
      }
    }
  }

  /** "Both" on a scene the two sides have: in the end both sides hold the backend's version under
      its id, and the frame's version as a copy under an id and a name that were used nowhere. */
  lemma BothKeepsBothVersions(
    b: seq<Json>, f: seq<Json>, choices: Choices, i: nat, uuids: nat -> string, drawn: nat)
    returns (copied: Json)
    requires Supply(uuids) && WellIded(b) && WellIded(f) && i < |choices|
    requires DistinctKeys(choices) && AvoidsKeys(uuids, choices)
    requires Copies(choices[i].1, SceneAt(b, choices[i].0), SceneAt(f, choices[i].0))
    ensures var key := choices[i].0;
            var m := ApplyFirst(b, f, choices, |choices|, uuids, drawn);
            SceneAt(m.backend, key) == SceneAt(m.frame, key) == SceneAt(b, key) &&
            SceneAt(m.backend, Id(copied)) == SceneAt(m.frame, Id(copied)) == copied &&
            IsFreshCopy(copied, SceneAt(f, key), 
                        PutBoth(ApplyFirst(b, f, choices, i, uuids, drawn), key, SceneAt(b, key)))
  {
    hide SceneAt, WellIded, ApplyOne, IsFreshCopy, Replace;
    var (key, choice) := choices[i];
    AgreeOrUntouched(b, f, choices, i, uuids, drawn);
    LookupFits(b, key);
    LookupFits(f, key);
    var before := ApplyFirst(b, f, choices, i, uuids, drawn);
    copied := StepLookups(before, key, choice, SceneAt(b, key), SceneAt(f, key), uuids);
    assert !copied.Null? by {
      FreshCopyIsDict(copied, SceneAt(f, key), PutBoth(before, key, SceneAt(b, key)));
    }
    AgreedScenesStay(b, f, choices, i + 1, |choices|, uuids, drawn, key);
    AgreedScenesStay(b, f, choices, i + 1, |choices|, uuids, drawn, Id(copied));
  }

  lemma FreshCopyIsDict(copied: Json, original: Json, before: Merge)
    requires IsFreshCopy(copied, original, before)
    ensures copied.Obj?
  {}

  // ---- the order of the choices does not matter -------------------------------------

  /** The choice made for `key`. */
  function ChoiceFor(choices: Choices, key: string): Choice {
    if choices == [] then Unknown
    else if choices[|choices| - 1].0 == key then choices[|choices| - 1].1
    else ChoiceFor(choices[..|choices| - 1], key)
  }

  lemma {:induction false} ChoiceForMember(choices: Choices, key: string)
    ensures (key, ChoiceFor(choices, key)) in choices
         || (ChoiceFor(choices, key).Unknown? && forall i | 0 <= i < |choices| :: choices[i].0 != key)
  {
    if choices != [] && choices[|choices| - 1].0 != key {
      ChoiceForMember(choices[..|choices| - 1], key);
    }
  }

  lemma LookupFitsAnyway(scenes: seq<Json>, key: string)
    requires AllHaveIds(scenes)
    ensures Fits(SceneAt(scenes, key), key)
  {
    var i := LastPosition(scenes, key);
  }

  /** No copy can get the id `k`: none is made, or the supply does not have it. */
  ghost predicate NeverDrawn(choices: Choices, uuids: nat -> string, k: string) {
    (forall i | 0 <= i < |choices| :: !choices[i].1.KeepBoth?) || forall n: nat :: uuids(n) != k
  }

  /** What one side ends up with: the chosen scene, if there was a choice and the scene found its place. */
  function Outcome(own: Json, chosen: Json, choice: Choice, repeated: bool): Json {
    if choice.Unknown? || repeated then own else chosen
  }

  /** The outcome is a function of the choices alone: a side gets the chosen scene under the id if its
      own list has the id at most once. */
  lemma {:induction false} OutcomeByKey(
    b: seq<Json>, f: seq<Json>, choices: Choices, n: nat, uuids: nat -> string, drawn: nat, k: string)
    requires Supply(uuids) && AllHaveIds(b) && AllHaveIds(f) && n <= |choices| && DistinctKeys(choices)
    requires NeverDrawn(choices, uuids, k)
    ensures var m := ApplyFirst(b, f, choices, n, uuids, drawn);
            var c := ChoiceFor(choices[..n], k);
            var chosen := Chosen(c, SceneAt(b, k), SceneAt(f, k));
            AllHaveIds(m.backend) && AllHaveIds(m.frame) &&
            SceneAt(m.backend, k) == Outcome(SceneAt(b, k), chosen, c, Repeated(b, k)) &&
            SceneAt(m.frame, k) == Outcome(SceneAt(f, k), chosen, c, Repeated(f, k)) &&
            (c.Unknown? ==> (Repeated(m.backend, k) <==> Repeated(b, k)) && (Repeated(m.frame, k) <==> Repeated(f, k)))
  {
    hide SceneAt, AllHaveIds, Repeated, Replace, ApplyOne, Chosen, Supply, NeverDrawn;
    if n > 0 {
      OutcomeByKey(b, f, choices, n - 1, uuids, drawn, k);
      var before := ApplyFirst(b, f, choices, n - 1, uuids, drawn);
      var (key, choice) := choices[n - 1];
      assert choices[..n][..n - 1] == choices[..n - 1];
      ChoiceForMember(choices[..n - 1], key);
      LookupFitsAnyway(b, key);
      LookupFitsAnyway(f, key);
      if choice.Unknown? {
        UnknownDoesNothing(before, key, SceneAt(b, key), SceneAt(f, key), uuids);
      } else {
        StepAt(before, key, choice, SceneAt(b, key), SceneAt(f, key), uuids, k);
        if choice.KeepBoth? { KeepingDraws(choices, n - 1, uuids, k); }
      }
    }
  }

  lemma KeepingDraws(choices: Choices, i: nat, uuids: nat -> string, k: string)
    requires i < |choices| && choices[i].1.KeepBoth? && NeverDrawn(choices, uuids, k)
    ensures forall n: nat :: uuids(n) != k
  {}

  /** One step at the lookup of `k`, with ids that may repeat. A copy appears on both sides alike. */
  lemma StepAt(m: Merge, key: string, choice: Choice, b: Json, f: Json, uuids: nat -> string, k: string)
    requires Supply(uuids) && AllHaveIds(m.backend) && AllHaveIds(m.frame) && Fits(b, key) && Fits(f, key)
    requires !choice.Unknown?
    ensures var m' := ApplyOne(m, key, choice, b, f, uuids);
            AllHaveIds(m'.backend) && AllHaveIds(m'.frame) &&
            if choice.KeepBoth? && exists n: nat :: uuids(n) == k then
              k != key && SceneAt(m.backend, k) == SceneAt(m.frame, k) ==>
              SceneAt(m'.backend, k) == SceneAt(m'.frame, k)
            else
              SceneAt(m'.backend, k) == PutAt(m.backend, key, Chosen(choice, b, f), k) &&
              SceneAt(m'.frame, k) == PutAt(m.frame, key, Chosen(choice, b, f), k) &&
              (k != key ==> (Repeated(m'.backend, k) <==> Repeated(m.backend, k)) &&
                            (Repeated(m'.frame, k) <==> Repeated(m.frame, k)))
  {
    hide SceneAt, AllHaveIds, Repeated, Replace, FrameCopy, DrawnAfter, HasId, Id;
    var chosen := Chosen(choice, b, f);
    assert Fits(chosen, key);
    ReplaceEditsTheFirst(m.backend, key, chosen, k);
    ReplaceEditsTheFirst(m.frame, key, chosen, k);
    if Copies(choice, b, f) {
      var put := PutBoth(m, key, chosen);
      var existing := put.backend + put.frame;
      var id := uuids(DrawnAfter(uuids, existing, put.drawn) - 1);
      assert f.Obj? by { SceneIsDict(f, key); }
      CopyIsNew(f, put, uuids);
      AppendNew(put.backend, id, FrameCopy(f, existing, id), k);
      AppendNew(put.frame, id, FrameCopy(f, existing, id), k);
    }
  }

  lemma SceneIsDict(scene: Json, key: string)
    requires Fits(scene, key) && !scene.Null?
    ensures scene.Obj?
  {}

  ghost function PutAt(scenes: seq<Json>, key: string, scene: Json, k: string): Json {
    if k == key && !Repeated(scenes, key) then scene else SceneAt(scenes, k)
  }

  /** The list that was to take the scene over has its id twice or more. */
  ghost predicate NotTakenOver(b: seq<Json>, f: seq<Json>, choices: Choices, key: string) {
    match ChoiceFor(choices, key)
    case UseBackend => Repeated(f, key)
    case UseFrame => Repeated(b, key)
    case KeepBoth => Repeated(f, key) && !SceneAt(b, key).Null?
    case Unknown => true
  }

  /** With ids that repeat: a scene is reported after the choices exactly if it was reported before, and
      got no choice or its id stands twice or more in the list that was to take the scene over. */
  lemma ReportedAgainIffRepeated(
    b: seq<Json>, f: seq<Json>, baseline: map<string, Json>, choices: Choices, uuids: nat -> string, drawn: nat,
    key: string)
    requires Supply(uuids) && AllHaveIds(b) && AllHaveIds(f) && DistinctKeys(choices)
    requires NeverDrawn(choices, uuids, key)
    ensures var m := ApplyFirst(b, f, choices, |choices|, uuids, drawn);
            Sides(ScenesById(m.backend), ScenesById(m.frame), baseline).Conflict(key) <==>
            Sides(ScenesById(b), ScenesById(f), baseline).Conflict(key) && NotTakenOver(b, f, choices, key)
  {
    hide SceneEq, AllHaveIds, Repeated, ApplyFirst, ScenesById, NeverDrawn;
    OutcomeByKey(b, f, choices, |choices|, uuids, drawn, key);
    assert choices[..|choices|] == choices;
    MissingIsNotRepeated(b, key);
    SceneEqReflexive(SceneAt(b, key));
    SceneEqReflexive(SceneAt(f, key));
  }

  lemma MissingIsNotRepeated(scenes: seq<Json>, key: string)
    requires AllHaveIds(scenes)
    ensures SceneAt(scenes, key).Null? ==> !Repeated(scenes, key)
  {
    var i := LastPosition(scenes, key);
    if i < |scenes| { assert HasId(scenes[i]); } else { NowhereRepeated(scenes, key); }
  }

  /** A scene that both sides have alike, and nobody decides about, stays alike: also one that appears
      as a copy. */
  lemma {:induction false} CopiesAgree(
    b: seq<Json>, f: seq<Json>, choices: Choices, n: nat, uuids: nat -> string, drawn: nat, k: string)
    requires Supply(uuids) && AllHaveIds(b) && AllHaveIds(f) && n <= |choices|
    requires SceneAt(b, k) == SceneAt(f, k) && forall i | 0 <= i < |choices| :: choices[i].0 != k
    ensures var m := ApplyFirst(b, f, choices, n, uuids, drawn);
            AllHaveIds(m.backend) && AllHaveIds(m.frame) && SceneAt(m.backend, k) == SceneAt(m.frame, k)
  {
    hide SceneAt, AllHaveIds, Repeated, ApplyOne, Chosen, Supply;
    if n > 0 {
      CopiesAgree(b, f, choices, n - 1, uuids, drawn, k);
      var before := ApplyFirst(b, f, choices, n - 1, uuids, drawn);
      var (key, choice) := choices[n - 1];
      LookupFitsAnyway(b, key);
      LookupFitsAnyway(f, key);
      if choice.Unknown? {
        UnknownDoesNothing(before, key, SceneAt(b, key), SceneAt(f, key), uuids);
      } else {
        StepAt(before, key, choice, SceneAt(b, key), SceneAt(f, key), uuids, k);
      }
    }
  }

  /** Sync converges, with ids that may repeat, exactly if every reported scene got a choice and every
      list that was to take one over has its id at most once. New ids are those of no scene so far. */
  lemma SyncConvergesIff(
    b: seq<Json>, f: seq<Json>, baseline: map<string, Json>, choices: Choices, uuids: nat -> string, drawn: nat)
    requires Supply(uuids) && AllHaveIds(b) && AllHaveIds(f) && DistinctKeys(choices) && AvoidsKeys(uuids, choices)
    requires forall n: nat :: uuids(n) !in Sides(ScenesById(b), ScenesById(f), baseline).Keys()
    ensures var m := ApplyFirst(b, f, choices, |choices|, uuids, drawn);
            var before := Sides(ScenesById(b), ScenesById(f), baseline);
            var after := Sides(ScenesById(m.backend), ScenesById(m.frame), baseline);
            after.Changes(Sorted(after.Keys())) == [] <==>
            forall key | before.Conflict(key) :: !NotTakenOver(b, f, choices, key)
  {
    hide AllHaveIds, ApplyFirst, ScenesById, NotTakenOver, Sides.Conflict, Sides.Changes, Sorted, Sides.Keys, Supply;
    var m := ApplyFirst(b, f, choices, |choices|, uuids, drawn);
    var before := Sides(ScenesById(b), ScenesById(f), baseline);
    var after := Sides(ScenesById(m.backend), ScenesById(m.frame), baseline);
    forall key ensures after.Conflict(key) <==> before.Conflict(key) && NotTakenOver(b, f, choices, key) {
      if n: nat :| uuids(n) == key {
        OnlyKnownScenesConflict(before, key);
        CopiesAgree(b, f, choices, |choices|, uuids, drawn, key);
        AgreeingDoesNotConflict(after, key);
      } else {
        ReportedAgainIffRepeated(b, f, baseline, choices, uuids, drawn, key);
      }
    }
    NothingReportedIff(after);
  }

  lemma OnlyKnownScenesConflict(sides: Sides, key: string)
    requires key !in sides.Keys()
    ensures !sides.Conflict(key)
    ensures Fetch(sides.backend, key) == Fetch(sides.frame, key) == Null
  {
    SceneEqReflexive(Null);
    hide SceneEq;
  }

  lemma AgreeingDoesNotConflict(sides: Sides, key: string)
    requires Fetch(sides.backend, key) == Fetch(sides.frame, key)
    ensures !sides.Conflict(key)
  {
    SceneEqReflexive(Fetch(sides.frame, key));
    hide SceneEq;
  }

  lemma NothingReportedIff(sides: Sides)
    ensures sides.Changes(Sorted(sides.Keys())) == [] <==> forall key :: !sides.Conflict(key)
  {
    hide Sides.Conflict, Sides.Changes, Sides.ChangeAt, Sorted;
    var keys := Sorted(sides.Keys());
    ReportedConflicts(sides, keys, sides.Changes(keys));
  }

  lemma ReportedConflicts(sides: Sides, keys: seq<string>, changes: seq<Change>)
    requires forall key | key in sides.Keys() :: key in keys
    requires changes == sides.Changes(keys)
    ensures changes == [] <==> forall key :: !sides.Conflict(key)
  {
    hide Sides.Conflict, Sides.Changes, Sides.ChangeAt;
    SectionIsExact(sides, keys);
    if changes != [] {
      assert changes[0] in changes;
      assert sides.Conflict(changes[0].key);
    }
  }

  /** Backend and frame choices can be applied in any order. */
  lemma OrderIrrelevant(
    b: seq<Json>, f: seq<Json>, one: Choices, other: Choices, uuids: nat -> string, drawn: nat, k: string)
    requires Supply(uuids) && AllHaveIds(b) && AllHaveIds(f) && DistinctKeys(one) && DistinctKeys(other)
    requires forall c :: c in one <==> c in other
    requires forall i | 0 <= i < |one| :: !one[i].1.KeepBoth?
    ensures var m := ApplyFirst(b, f, one, |one|, uuids, drawn);
            var m' := ApplyFirst(b, f, other, |other|, uuids, drawn);
            SceneAt(m.backend, k) == SceneAt(m'.backend, k) && SceneAt(m.frame, k) == SceneAt(m'.frame, k)
  {
    hide SceneAt, AllHaveIds, ApplyFirst, Repeated, Chosen;
    forall i | 0 <= i < |other| ensures !other[i].1.KeepBoth? {
      assert other[i] in one;
    }
    OutcomeByKey(b, f, one, |one|, uuids, drawn, k);
    OutcomeByKey(b, f, other, |other|, uuids, drawn, k);
    assert one[..|one|] == one && other[..|other|] == other;
    ChoiceForMember(one, k);
    ChoiceForMember(other, k);
    var c, c' := ChoiceFor(one, k), ChoiceFor(other, k);
    if (k, c) in one {
      assert (k, c) in other;
    }
    if (k, c') in other {
      assert (k, c') in one;
    }
  }
}
