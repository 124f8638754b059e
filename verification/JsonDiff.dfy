/**
 The recursive diff behind the sync dialog (`_json_diff_details`,
 backend/app/api/frame_sync.py:664-709): a list of at most `limit` places where two JSON values
 differ. `AllDiffs` is the diff with no limit; the method stops early and is proved to return a
 prefix of it.
 */
module JsonDiff {
  import opened PyText
  import opened Json

  /** One step of a detail's path. A label names the part of a scene a diff belongs to. */
  datatype Step = Label(text: string) | Key(key: string) | Index(index: nat)

  /** A reported difference: where, and what either side holds there. */
  datatype Detail = Detail(path: seq<Step>, backend: Json, frame: Json)

  function Take(details: seq<Detail>, limit: int): (r: seq<Detail>)
    ensures r <= details
    ensures |r| == if limit <= 0 then 0 else if limit <= |details| then limit else |details|
  {
    if limit <= 0 then [] else if limit <= |details| then details[..limit] else details
  }

  lemma TakeConcat(a: seq<Detail>, b: seq<Detail>, limit: int)
    ensures Take(a + b, limit) == Take(a, limit) + Take(b, limit - |Take(a, limit)|)
  {
    if 0 < limit <= |a| {
      assert Take(a + b, limit) == a[..limit];
    }
  }

  function KeysOf(b: Json, f: Json): seq<string>
    requires b.Obj? && f.Obj?
  {
    Sorted(b.fields.Keys + f.fields.Keys)
  }

  function LongerLength(b: Json, f: Json): nat
    requires b.List? && f.List?
  {
    if |b.items| < |f.items| then |f.items| else |b.items|
  }

  // ---- the diff without a limit -----------------------------------------------------

  ghost function AllDiffs(b: Json, f: Json, path: seq<Step>): seq<Detail>
    decreases Height(b) + Height(f), 1, 0
  {
    if PyEq(b, f) then []
    else if b.Obj? && f.Obj? then KeyDiffs(b, f, KeysOf(b, f), path)
    else if b.List? && f.List? then ItemDiffs(b, f, 0, path)
    else [Detail(path, b, f)]
  }

  ghost function KeyDiffs(b: Json, f: Json, keys: seq<string>, path: seq<Step>): seq<Detail>
    requires b.Obj? && f.Obj?
    decreases Height(b) + Height(f), 0, |keys|
  {
    if keys == [] then [] else
      GetIsLower(b, keys[0]);
      GetIsLower(f, keys[0]);
      AllDiffs(Get(b, keys[0]), Get(f, keys[0]), path + [Key(keys[0])]) + KeyDiffs(b, f, keys[1..], path)
  }

  ghost function ItemDiffs(b: Json, f: Json, index: nat, path: seq<Step>): seq<Detail>
    requires b.List? && f.List?
    decreases Height(b) + Height(f), 0, LongerLength(b, f) - index
  {
    if index >= LongerLength(b, f) then [] else
      AtIsLower(b, index);
      AtIsLower(f, index);
      AllDiffs(At(b, index), At(f, index), path + [Index(index)]) + ItemDiffs(b, f, index + 1, path)
  }

  // ---- the diff as the code computes it ---------------------------------------------

  method JsonDiffDetails(b: Json, f: Json, path: seq<Step>, limit: int) returns (details: seq<Detail>)
    ensures details == Take(AllDiffs(b, f, path), limit)
    decreases Height(b) + Height(f), 1
  {
    hide PyEq, Height;
    if limit <= 0 || PyEq(b, f) {
      details := [];
    } else if b.Obj? && f.Obj? {
      details := DictDiffDetails(b, f, path, limit);
    } else if b.List? && f.List? {
      details := ListDiffDetails(b, f, path, limit);
    } else {
      details := [Detail(path, b, f)];
    }
  }

  lemma Reassociate(a: seq<Detail>, b: seq<Detail>, c: seq<Detail>)
    ensures a + (b + c) == a + b + c
  {}

  /** The loop over the sorted keys of two dicts. */
  method DictDiffDetails(b: Json, f: Json, path: seq<Step>, limit: int) returns (details: seq<Detail>)
    requires b.Obj? && f.Obj? && limit > 0
    ensures details == Take(KeyDiffs(b, f, KeysOf(b, f), path), limit)
    decreases Height(b) + Height(f), 0
  {
    hide *;
    var keys := KeysOf(b, f);
    details := [];
    var i := 0;
    while i < |keys| && |details| < limit
      invariant 0 <= i <= |keys| && |details| <= limit
      invariant Take(KeyDiffs(b, f, keys, path), limit)
             == details + Take(KeyDiffs(b, f, keys[i..], path), limit - |details|)
    {
      GetIsLower(b, keys[i]);
      GetIsLower(f, keys[i]);
      KeyDiffsStep(b, f, keys, i, path, limit - |details|);
      var more := JsonDiffDetails(Get(b, keys[i]), Get(f, keys[i]), path + [Key(keys[i])], limit - |details|);
      Reassociate(details, more, Take(KeyDiffs(b, f, keys[i + 1..], path), limit - |details| - |more|));
      details := details + more;
      i := i + 1;
    }
    KeyDiffsEnd(b, f, keys[i..], path);
  }

  /** The loop over the positions of two lists. */
  method ListDiffDetails(b: Json, f: Json, path: seq<Step>, limit: int) returns (details: seq<Detail>)
    requires b.List? && f.List? && limit > 0
    ensures details == Take(ItemDiffs(b, f, 0, path), limit)
    decreases Height(b) + Height(f), 0
  {
    hide *;
    details := [];
    var i := 0;
    while i < LongerLength(b, f) && |details| < limit
      invariant 0 <= i <= LongerLength(b, f) && |details| <= limit
      invariant Take(ItemDiffs(b, f, 0, path), limit)
             == details + Take(ItemDiffs(b, f, i, path), limit - |details|)
    {
      AtIsLower(b, i);
      AtIsLower(f, i);
      ItemDiffsStep(b, f, i, path, limit - |details|);
      var more := JsonDiffDetails(At(b, i), At(f, i), path + [Index(i)], limit - |details|);
      Reassociate(details, more, Take(ItemDiffs(b, f, i + 1, path), limit - |details| - |more|));
      details := details + more;
      i := i + 1;
    }
    ItemDiffsEnd(b, f, i, path);
  }

  lemma KeyDiffsEnd(b: Json, f: Json, keys: seq<string>, path: seq<Step>)
    requires b.Obj? && f.Obj?
    ensures keys == [] ==> KeyDiffs(b, f, keys, path) == []
  {}

  lemma ItemDiffsEnd(b: Json, f: Json, index: nat, path: seq<Step>)
    requires b.List? && f.List?
    ensures index >= LongerLength(b, f) ==> ItemDiffs(b, f, index, path) == []
  {}

  lemma ItemDiffsStep(b: Json, f: Json, i: nat, path: seq<Step>, limit: int)
    requires b.List? && f.List? && i < LongerLength(b, f)
    ensures var child := Take(AllDiffs(At(b, i), At(f, i), path + [Index(i)]), limit);
            Take(ItemDiffs(b, f, i, path), limit)
            == child + Take(ItemDiffs(b, f, i + 1, path), limit - |child|)
  {
    hide AllDiffs, At, PyEq;
    TakeConcat(AllDiffs(At(b, i), At(f, i), path + [Index(i)]), ItemDiffs(b, f, i + 1, path), limit);
  }

  lemma KeyDiffsStep(b: Json, f: Json, keys: seq<string>, i: nat, path: seq<Step>, limit: int)
    requires b.Obj? && f.Obj? && i < |keys|
    ensures var child := Take(AllDiffs(Get(b, keys[i]), Get(f, keys[i]), path + [Key(keys[i])]), limit);
            Take(KeyDiffs(b, f, keys[i..], path), limit)
            == child + Take(KeyDiffs(b, f, keys[i + 1..], path), limit - |child|)
  {
    hide AllDiffs, Get, PyEq;
    assert keys[i..][1..] == keys[i + 1..];
    TakeConcat(AllDiffs(Get(b, keys[i]), Get(f, keys[i]), path + [Key(keys[i])]),
               KeyDiffs(b, f, keys[i + 1..], path), limit);
  }

  // ---- nothing is missed ------------------------------------------------------------

  /** On pruned values the diff is empty exactly when the values are equal. */
  lemma DiffEmptyIffEqual(b: Json, f: Json, path: seq<Step>)
    requires Clean(b) && Clean(f)
    ensures AllDiffs(b, f, path) == [] <==> PyEq(b, f)
  {
    if !PyEq(b, f) {
      var d := SomeDifference(b, f, path);
    }
  }

  lemma {:induction false} SomeDifference(b: Json, f: Json, path: seq<Step>) returns (d: Detail)
    requires Clean(b) && Clean(f) && !PyEq(b, f)
    ensures d in AllDiffs(b, f, path)
    decreases Height(b) + Height(f)
  {
    hide PyEq, Clean, Get, At, Sorted, KeyDiffs, ItemDiffs;
    if b.Obj? && f.Obj? {
      var k := DifferingKey(b, f);
      GetIsLower(b, k);
      GetIsLower(f, k);
      d := SomeDifference(Get(b, k), Get(f, k), path + [Key(k)]);
      KeyDiffsHold(b, f, KeysOf(b, f), path, k);
    } else if b.List? && f.List? {
      var i := DifferingIndex(b, f);
      AtIsLower(b, i);
      AtIsLower(f, i);
      d := SomeDifference(At(b, i), At(f, i), path + [Index(i)]);
      ItemDiffsHold(b, f, 0, path, i);
    } else {
      d := Detail(path, b, f);
    }
  }

  lemma DifferingKey(b: Json, f: Json) returns (k: string)
    requires b.Obj? && f.Obj? && Clean(b) && Clean(f) && !PyEq(b, f)
    ensures k in KeysOf(b, f) && !PyEq(Get(b, k), Get(f, k))
    ensures Clean(Get(b, k)) && Clean(Get(f, k))
  {
    hide PyEq, Sorted;
    assert exists k :: k in KeysOf(b, f) && !PyEq(Get(b, k), Get(f, k)) by {
      if forall k | k in KeysOf(b, f) :: PyEq(Get(b, k), Get(f, k)) {
        forall k | k in KeysOf(b, f) ensures k in b.fields && k in f.fields {
          OnlyNullEqualsNull(Get(b, k), Get(f, k));
        }
        assert b.fields.Keys == f.fields.Keys;
        DictsEqual(b, f);
      }
    }
    k :| k in KeysOf(b, f) && !PyEq(Get(b, k), Get(f, k));
    CleanBelow(b);
    CleanBelow(f);
  }

  lemma OnlyNullEqualsNull(a: Json, b: Json)
    ensures PyEq(a, b) ==> (a.Null? <==> b.Null?)
  {}

  lemma DifferingIndex(b: Json, f: Json) returns (i: nat)
    requires b.List? && f.List? && Clean(b) && Clean(f) && !PyEq(b, f)
    ensures i < LongerLength(b, f) && !PyEq(At(b, i), At(f, i))
    ensures Clean(At(b, i)) && Clean(At(f, i))
  {
    if |b.items| != |f.items| {
      i := LongerLength(b, f) - 1;
    } else {
      i :| 0 <= i < |b.items| && !PyEq(b.items[i], f.items[i]);
    }
  }

  /** Every difference below one key is among the differences of the whole dict. */
  lemma {:induction false} KeyDiffsHold(b: Json, f: Json, keys: seq<string>, path: seq<Step>, k: string)
    requires b.Obj? && f.Obj? && k in keys
    ensures forall d | d in AllDiffs(Get(b, k), Get(f, k), path + [Key(k)]) :: d in KeyDiffs(b, f, keys, path)
  {
    if k != keys[0] {
      KeyDiffsHold(b, f, keys[1..], path, k);
    }
  }

  lemma {:induction false} ItemDiffsHold(b: Json, f: Json, index: nat, path: seq<Step>, i: nat)
    requires b.List? && f.List? && index <= i < LongerLength(b, f)
    ensures forall d | d in AllDiffs(At(b, i), At(f, i), path + [Index(i)]) :: d in ItemDiffs(b, f, index, path)
    decreases LongerLength(b, f) - index
  {
    if i != index {
      ItemDiffsHold(b, f, index + 1, path, i);
    }
  }

  // ---- where the differences are ----------------------------------------------------

  /** The value at the end of a path; a path that leads nowhere ends in null. */
  function Lookup(j: Json, path: seq<Step>): Json
    decreases |path|
  {
    if path == [] then j else
      match path[0]
      case Key(k) => Lookup(Get(j, k), path[1..])
      case Index(i) => Lookup(At(j, i), path[1..])
      case Label(_) => Null
  }

  /** What a detail claims: it lies below `path`, both sides hold what it says there, and they differ,
      with nothing inside them to compare further. */
  ghost predicate PointsAt(d: Detail, b: Json, f: Json, path: seq<Step>) {
    path <= d.path && !(d.backend.Obj? && d.frame.Obj?) && !(d.backend.List? && d.frame.List?) &&
    Lookup(b, d.path[|path|..]) == d.backend && Lookup(f, d.path[|path|..]) == d.frame &&
    !PyEq(d.backend, d.frame)
  }

  lemma PointsAtDeeper(d: Detail, b: Json, f: Json, path: seq<Step>, step: Step)
    requires !step.Label?
    requires PointsAt(d, Lookup(b, [step]), Lookup(f, [step]), path + [step])
    ensures PointsAt(d, b, f, path)
  {
    assert d.path[|path|] == (path + [step])[|path|] == step;
    assert d.path[|path|..][1..] == d.path[|path| + 1..];
    assert path == (path + [step])[..|path|] <= d.path;
    assert forall j: Json :: Lookup(j, [step]) == (if step.Key? then Get(j, step.key) else At(j, step.index));
  }

  /** Every reported difference is a real one, at the place it names. */
  lemma {:induction false} DiffPointsAtDifferences(b: Json, f: Json, path: seq<Step>)
    ensures forall d | d in AllDiffs(b, f, path) :: PointsAt(d, b, f, path)
    decreases Height(b) + Height(f), 1, 0
  {
    hide PyEq, KeyDiffs, ItemDiffs, KeysOf, PointsAt, Height;
    if b.Obj? && f.Obj? {
      KeyDiffsPoint(b, f, KeysOf(b, f), path);
    } else if b.List? && f.List? {
      ItemDiffsPoint(b, f, 0, path);
    } else if !PyEq(b, f) {
      PointsAtHere(b, f, path);
    }
  }

  lemma PointsAtHere(b: Json, f: Json, path: seq<Step>)
    requires !PyEq(b, f) && !(b.Obj? && f.Obj?) && !(b.List? && f.List?)
    ensures PointsAt(Detail(path, b, f), b, f, path)
  {
    assert path[|path|..] == [];
  }

  lemma {:induction false} KeyDiffsPoint(b: Json, f: Json, keys: seq<string>, path: seq<Step>)
    requires b.Obj? && f.Obj?
    ensures forall d | d in KeyDiffs(b, f, keys, path) :: PointsAt(d, b, f, path)
    decreases Height(b) + Height(f), 0, |keys|
  {
    if keys != [] {
      var k := keys[0];
      GetIsLower(b, k);
      GetIsLower(f, k);
      DiffPointsAtDifferences(Get(b, k), Get(f, k), path + [Key(k)]);
      forall d | d in AllDiffs(Get(b, k), Get(f, k), path + [Key(k)]) ensures PointsAt(d, b, f, path) {
        PointsAtDeeper(d, b, f, path, Key(k));
      }
      KeyDiffsPoint(b, f, keys[1..], path);
    }
  }

  lemma {:induction false} ItemDiffsPoint(b: Json, f: Json, index: nat, path: seq<Step>)
    requires b.List? && f.List?
    ensures forall d | d in ItemDiffs(b, f, index, path) :: PointsAt(d, b, f, path)
    decreases Height(b) + Height(f), 0, LongerLength(b, f) - index
  {
    if index < LongerLength(b, f) {
      AtIsLower(b, index);
      AtIsLower(f, index);
      DiffPointsAtDifferences(At(b, index), At(f, index), path + [Index(index)]);
      forall d | d in AllDiffs(At(b, index), At(f, index), path + [Index(index)]) ensures PointsAt(d, b, f, path) {
        PointsAtDeeper(d, b, f, path, Index(index));
      }
      ItemDiffsPoint(b, f, index + 1, path);
    }
  }

  lemma CleanBelow(j: Json)
    requires Clean(j)
    ensures forall k :: Clean(Get(j, k))
    ensures forall i: nat :: Clean(At(j, i))
  {}

  /** Two paths are on one branch when one continues the other. */
  predicate OneBranch(p: seq<Step>, q: seq<Step>) {
    p <= q || q <= p
  }

  /** Wherever two pruned values differ, some reported difference lies on the way there or below. */
  lemma {:induction false} DiffCoversDifferences(b: Json, f: Json, path: seq<Step>, q: seq<Step>) returns (d: Detail)
    requires Clean(b) && Clean(f) && !PyEq(Lookup(b, q), Lookup(f, q))
    ensures d in AllDiffs(b, f, path) && OneBranch(d.path, path + q)
    decreases |q|
  {
    hide PyEq, Clean, KeysOf, Get, At, Lookup, AllDiffs;
    CleanBelow(b);
    CleanBelow(f);
    EqualValuesLookUpEqual(b, f, q);
    d := DetailBelow(b, f, path);
    if q == [] {
      assert path + q == path;
    } else if b.Obj? && f.Obj? && q[0].Key? {
      var k := q[0].key;
      LookupGoesOn(b, f, q);
      d := DiffCoversDifferences(Get(b, k), Get(f, k), path + [Key(k)], q[1..]);
      DetailsOfKey(b, f, path, k);
      assert path + [Key(k)] + q[1..] == path + q;
    } else if b.List? && f.List? && q[0].Index? {
      var i := q[0].index;
      LookupGoesOn(b, f, q);
      d := DiffCoversDifferences(At(b, i), At(f, i), path + [Index(i)], q[1..]);
      DetailsOfIndex(b, f, path, i);
      assert path + [Index(i)] + q[1..] == path + q;
    } else {
      LookupGoesOn(b, f, q);
    }
  }

  /** Two pruned values that differ have a detail, which is at their own place when they are not two
      dicts or two lists. */
  lemma DetailBelow(b: Json, f: Json, path: seq<Step>) returns (d: Detail)
    requires Clean(b) && Clean(f) && !PyEq(b, f)
    ensures d in AllDiffs(b, f, path) && path <= d.path
    ensures !(b.Obj? && f.Obj?) && !(b.List? && f.List?) ==> d.path == path
  {
    DiffEmptyIffEqual(b, f, path);
    DiffPointsAtDifferences(b, f, path);
    hide PyEq, Clean, KeyDiffs, ItemDiffs;
    d := AllDiffs(b, f, path)[0];
    assert PointsAt(d, b, f, path);
  }

  lemma DetailsOfKey(b: Json, f: Json, path: seq<Step>, k: string)
    requires b.Obj? && f.Obj? && !PyEq(b, f) && k in KeysOf(b, f)
    ensures forall d | d in AllDiffs(Get(b, k), Get(f, k), path + [Key(k)]) :: d in AllDiffs(b, f, path)
  {
    hide PyEq, KeyDiffs;
    KeyDiffsHold(b, f, KeysOf(b, f), path, k);
  }

  lemma DetailsOfIndex(b: Json, f: Json, path: seq<Step>, i: nat)
    requires b.List? && f.List? && !PyEq(b, f) && i < LongerLength(b, f)
    ensures forall d | d in AllDiffs(At(b, i), At(f, i), path + [Index(i)]) :: d in AllDiffs(b, f, path)
  {
    hide PyEq, ItemDiffs;
    ItemDiffsHold(b, f, 0, path, i);
  }

  /** Where lookups end differently, the first step is one that the diff follows. */
  lemma LookupGoesOn(b: Json, f: Json, q: seq<Step>)
    requires q != [] && !PyEq(Lookup(b, q), Lookup(f, q))
    ensures !q[0].Label?
    ensures q[0].Key? ==> !PyEq(Lookup(Get(b, q[0].key), q[1..]), Lookup(Get(f, q[0].key), q[1..]))
    ensures q[0].Key? && b.Obj? && f.Obj? ==> q[0].key in KeysOf(b, f)
    ensures q[0].Index? ==> !PyEq(Lookup(At(b, q[0].index), q[1..]), Lookup(At(f, q[0].index), q[1..]))
    ensures q[0].Index? && b.List? && f.List? ==> q[0].index < LongerLength(b, f)
    ensures b.Obj? && f.Obj? ==> q[0].Key?
    ensures b.List? && f.List? ==> q[0].Index?
  {
    hide PyEq;
    PyEqReflexive(Null);
    EqualValuesLookUpEqual(Null, Null, q[1..]);
  }

  lemma {:induction false} EqualValuesLookUpEqual(b: Json, f: Json, q: seq<Step>)
    ensures PyEq(b, f) ==> PyEq(Lookup(b, q), Lookup(f, q))
    decreases |q|
  {
    if q != [] && PyEq(b, f) {
      match q[0] {
        case Key(k) => EqualValuesLookUpEqual(Get(b, k), Get(f, k), q[1..]);
        case Index(i) => EqualValuesLookUpEqual(At(b, i), At(f, i), q[1..]);
        case Label(_) =>
      }
    }
  }

  // ---- the diff of any two values ---------------------------------------------------

  /** A value without its null entries: absent keys and absent positions read as null. */
  function Denull(j: Json): Json
    decreases j, 1
  {
    match j
    case Obj(m) => Obj(map k | k in m && !m[k].Null? :: Denull(m[k]))
    case List(items) => List(DenullItems(items))
    case _ => j
  }

  function DenullItems(items: seq<Json>): (r: seq<Json>)
    ensures |r| <= |items| && (r != [] ==> !r[|r| - 1].Null?)
    decreases items, 0
  {
    if items == [] then [] else
      var rest := DenullItems(items[1..]);
      if rest == [] && items[0].Null? then [] else [Denull(items[0])] + rest
  }

  lemma {:induction false} DenulledAt(items: seq<Json>, i: nat)
    ensures At(List(DenullItems(items)), i) == Denull(At(List(items), i))
  {
    if items != [] && i > 0 {
      DenulledAt(items[1..], i - 1);
    }
  }

  lemma DenullDicts(b: Json, f: Json)
    requires b.Obj? && f.Obj?
    ensures PyEq(Denull(b), Denull(f)) <==> forall k | k in KeysOf(b, f) :: PyEq(Denull(Get(b, k)), Denull(Get(f, k)))
  {
    hide PyEq, Sorted;
    var d, e := Denull(b), Denull(f);
    assert forall k :: Get(d, k) == Denull(Get(b, k)) && Get(e, k) == Denull(Get(f, k));
    hide Denull;
    if PyEq(d, e) {
      forall k ensures PyEq(Get(d, k), Get(e, k)) { EqualEntriesAt(d, e, k, 0); }
    }
    if forall k | k in KeysOf(b, f) :: PyEq(Get(d, k), Get(e, k)) {
      forall k | k in KeysOf(b, f) ensures k in d.fields <==> k in e.fields {
        OnlyNullEqualsNull(Get(d, k), Get(e, k));
        DenulledKey(b, k);
        DenulledKey(f, k);
      }
      forall k ensures k in d.fields <==> k in e.fields {
        DenulledKey(b, k);
        DenulledKey(f, k);
      }
      DictsEqual(d, e);
    }
  }

  lemma DenulledKey(b: Json, k: string)
    requires b.Obj?
    ensures k in Denull(b).fields <==> !Get(Denull(b), k).Null?
    ensures k in Denull(b).fields ==> k in b.fields
  {}

  lemma EqualEntriesAt(a: Json, b: Json, k: string, i: nat)
    requires PyEq(a, b)
    ensures PyEq(Get(a, k), Get(b, k)) && PyEq(At(a, i), At(b, i))
  {}

  lemma EqualEntriesMakeEqual(a: Json, b: Json)
    requires a.Obj? && b.Obj? && forall k :: PyEq(Get(a, k), Get(b, k))
    requires (forall k | k in a.fields :: !a.fields[k].Null?) && (forall k | k in b.fields :: !b.fields[k].Null?)
    ensures PyEq(a, b)
  {
    hide PyEq;
    forall k ensures k in a.fields <==> k in b.fields {
      OnlyNullEqualsNull(Get(a, k), Get(b, k));
    }
    assert a.fields.Keys == b.fields.Keys;
    forall k | k in a.fields ensures PyEq(a.fields[k], b.fields[k]) {
      assert Get(a, k) == a.fields[k] && Get(b, k) == b.fields[k];
    }
    DictsEqual(a, b);
  }

  lemma DenullLists(b: Json, f: Json)
    requires b.List? && f.List?
    ensures PyEq(Denull(b), Denull(f)) <==>
            forall i | 0 <= i < LongerLength(b, f) :: PyEq(Denull(At(b, i)), Denull(At(f, i)))
  {
    var d, e := Denull(b), Denull(f);
    forall i: nat ensures At(d, i) == Denull(At(b, i)) && At(e, i) == Denull(At(f, i)) {
      DenulledAt(b.items, i);
      DenulledAt(f.items, i);
    }
    assert LongerLength(d, e) <= LongerLength(b, f);
    hide Denull, PyEq, At;
    if PyEq(d, e) {
      forall i: nat ensures PyEq(At(d, i), At(e, i)) { EqualEntriesAt(d, e, "", i); }
    }
    if forall i | 0 <= i < LongerLength(b, f) :: PyEq(At(d, i), At(e, i)) {
      StrippedListsEqual(d, e);
    }
  }

  lemma StrippedListsEqual(a: Json, b: Json)
    requires a.List? && b.List?
    requires a.items != [] ==> !a.items[|a.items| - 1].Null?
    requires b.items != [] ==> !b.items[|b.items| - 1].Null?
    requires forall i | 0 <= i < LongerLength(a, b) :: PyEq(At(a, i), At(b, i))
    ensures PyEq(a, b)
  {
    hide PyEq;
    if |a.items| != |b.items| {
      var last := LongerLength(a, b) - 1;
      OnlyNullEqualsNull(At(a, last), At(b, last));
    }
    ListsEqual(a, b);
  }

  lemma ListsEqual(a: Json, b: Json)
    requires a.List? && b.List? && |a.items| == |b.items| && forall i | 0 <= i < |a.items| :: PyEq(At(a, i), At(b, i))
    ensures PyEq(a, b)
  {
    assert forall i | 0 <= i < |a.items| :: At(a, i) == a.items[i] && At(b, i) == b.items[i];
  }

  lemma {:induction false} KeyDiffsEmpty(b: Json, f: Json, keys: seq<string>, path: seq<Step>)
    requires b.Obj? && f.Obj?
    ensures KeyDiffs(b, f, keys, path) == [] <==>
            forall k | k in keys :: AllDiffs(Get(b, k), Get(f, k), path + [Key(k)]) == []
  {
    hide AllDiffs;
    if keys != [] {
      KeyDiffsEmpty(b, f, keys[1..], path);
      assert forall k :: k in keys <==> k == keys[0] || k in keys[1..];
    }
  }

  lemma {:induction false} ItemDiffsEmpty(b: Json, f: Json, index: nat, path: seq<Step>)
    requires b.List? && f.List?
    ensures ItemDiffs(b, f, index, path) == [] <==>
            forall i | index <= i < LongerLength(b, f) :: AllDiffs(At(b, i), At(f, i), path + [Index(i)]) == []
    decreases LongerLength(b, f) - index
  {
    hide AllDiffs;
    if index < LongerLength(b, f) {
      ItemDiffsEmpty(b, f, index + 1, path);
    }
  }

  /** Of any two values, pruned or not, the diff is empty exactly when they are equal up to entries
      that are null on one side and absent on the other. */
  lemma {:induction false} DiffEmptyIffEqualUpToNulls(b: Json, f: Json, path: seq<Step>)
    ensures AllDiffs(b, f, path) == [] <==> PyEq(Denull(b), Denull(f))
    decreases Height(b) + Height(f)
  {
    hide PyEq, Denull, KeyDiffs, ItemDiffs, Sorted, Height;
    if b.Obj? && f.Obj? {
      forall k ensures AllDiffs(Get(b, k), Get(f, k), path + [Key(k)]) == [] <==>
                       PyEq(Denull(Get(b, k)), Denull(Get(f, k))) {
        GetIsLower(b, k);
        GetIsLower(f, k);
        DiffEmptyIffEqualUpToNulls(Get(b, k), Get(f, k), path + [Key(k)]);
      }
      forall k | PyEq(b, f) ensures PyEq(Get(b, k), Get(f, k)) { EqualEntriesAt(b, f, k, 0); }
      KeyDiffsEmpty(b, f, KeysOf(b, f), path);
      DenullDicts(b, f);
    } else if b.List? && f.List? {
      forall i: nat ensures AllDiffs(At(b, i), At(f, i), path + [Index(i)]) == [] <==>
                            PyEq(Denull(At(b, i)), Denull(At(f, i))) {
        AtIsLower(b, i);
        AtIsLower(f, i);
        DiffEmptyIffEqualUpToNulls(At(b, i), At(f, i), path + [Index(i)]);
      }
      forall i: nat | PyEq(b, f) ensures PyEq(At(b, i), At(f, i)) { EqualEntriesAt(b, f, "", i); }
      ItemDiffsEmpty(b, f, 0, path);
      DenullLists(b, f);
    } else {
      DenullKeepsKind(b, f);
    }
  }

  lemma DenullKeepsKind(b: Json, f: Json)
    requires !(b.Obj? && f.Obj?) && !(b.List? && f.List?)
    ensures PyEq(Denull(b), Denull(f)) <==> PyEq(b, f)
  {}
}
