/**
 Which scenes an end-to-end shard generates and which ones it takes snapshots of
 (e2e/makescenes.py:16-131, e2e/makesnapshots.py:29-52, 165-167, 279-297). Two programs pick from
 the same directory on their own; what the second one activates has to be among what the first one
 generated.

 A scene file is known by its stem.
 */
module SceneSelection {
  import opened Options
  import opened PyText

  datatype Node = Node(kind: string, keyword: Option<string>)

  type Scene = seq<Node>

  /** Scene files by stem. */
  type Scenes = map<string, Scene>

  // ---- the order of files -----------------------------------------------------------

  predicate FileLeq(a: string, b: string) {
    Leq(a + ".json", b + ".json")
  }

  predicate Ordered(s: seq<string>) {
    forall i, j | 0 <= i < j < |s| :: FileLeq(s[i], s[j])
  }

  function Insert(x: string, s: seq<string>): seq<string> {
    if s == [] || FileLeq(x, s[0]) then [x] + s else [s[0]] + Insert(x, s[1..])
  }

  /** `sorted` of a list of scene files. */
  function SortFiles(s: seq<string>): seq<string> {
    if s == [] then [] else Insert(s[0], SortFiles(s[1..]))
  }

  lemma FileLeqOrder(a: string, b: string, c: string)
    ensures FileLeq(a, b) || FileLeq(b, a)
    ensures FileLeq(a, b) && FileLeq(b, c) ==> FileLeq(a, c)
  {
    LeqTotal(a + ".json", b + ".json");
    if FileLeq(a, b) && FileLeq(b, c) {
      LeqTransitive(a + ".json", b + ".json", c + ".json");
    }
  }

  lemma {:induction false} InsertSorts(x: string, s: seq<string>)
    requires Ordered(s)
    ensures Ordered(Insert(x, s)) && multiset(Insert(x, s)) == multiset([x]) + multiset(s)
  {
    hide FileLeq;
    if s != [] {
      assert s == [s[0]] + s[1..];
      assert Ordered(s[1..]);
      var r := Insert(x, s);
      if FileLeq(x, s[0]) {
        forall j | 0 < j < |r| ensures FileLeq(r[0], r[j]) {
          if j > 1 { FileLeqOrder(x, s[0], s[j - 1]); }
        }
      } else {
        FileLeqOrder(x, s[0], x);
        InsertSorts(x, s[1..]);
        forall j | 0 < j < |r| ensures FileLeq(r[0], r[j]) {
          assert r[j] in multiset(Insert(x, s[1..]));
        }
      }
    }
  }

  lemma {:induction false} SortFilesSorts(s: seq<string>)
    ensures Ordered(SortFiles(s)) && multiset(SortFiles(s)) == multiset(s)
    ensures forall f :: f in SortFiles(s) <==> f in s
  {
    if s != [] {
      assert s == [s[0]] + s[1..];
      SortFilesSorts(s[1..]);
      InsertSorts(s[0], SortFiles(s[1..]));
    }
    forall f ensures f in SortFiles(s) <==> f in s {
      assert f in SortFiles(s) <==> f in multiset(SortFiles(s));
      assert f in s <==> f in multiset(s);
    }
  }

  lemma FileLeqAntisymmetric(a: string, b: string)
    requires FileLeq(a, b) && FileLeq(b, a)
    ensures a == b
  {
    LeqTotal(a + ".json", b + ".json");
    assert a == (a + ".json")[..|a + ".json"| - 5] == (b + ".json")[..|b + ".json"| - 5] == b;
  }

  lemma OrderedHeads(s: seq<string>, t: seq<string>)
    requires Ordered(s) && Ordered(t) && multiset(s) == multiset(t) && s != [] && t != []
    ensures s[0] == t[0]
  {
    hide FileLeq;
    assert s[0] in multiset(t) && t[0] in multiset(s);
    var i :| 0 <= i < |t| && t[i] == s[0];
    var j :| 0 <= j < |s| && s[j] == t[0];
    if i > 0 && j > 0 {
      FileLeqAntisymmetric(s[0], t[0]);
    }
  }

  /** Two listings of the same files sort alike, whatever order the directory gave them in. */
  lemma {:induction false} OrderedIsUnique(s: seq<string>, t: seq<string>)
    requires Ordered(s) && Ordered(t) && multiset(s) == multiset(t)
    ensures s == t
  {
    hide FileLeq;
    assert |s| == |multiset(s)| == |multiset(t)| == |t|;
    if s != [] {
      OrderedHeads(s, t);
      assert s == [s[0]] + s[1..] && t == [t[0]] + t[1..];
      assert multiset(s[1..]) == multiset(s) - multiset([s[0]]);
      assert multiset(t[1..]) == multiset(t) - multiset([t[0]]);
      OrderedIsUnique(s[1..], t[1..]);
    }
  }

  // ---- dependencies -----------------------------------------------------------------

  function SceneReferences(scene: Scene): seq<string> {
    if scene == [] then [] else
      var n := scene[|scene| - 1];
      SceneReferences(scene[..|scene| - 1]) +
      if n.kind == "scene" && n.keyword.Some? && n.keyword.value != "" then [n.keyword.value] else []
  }

  /** Each reference that names a scene file is in the set. */
  ghost predicate Follows(references: seq<string>, s: set<string>, scenes: Scenes) {
    forall d | d in references && d in scenes :: d in s
  }

  ghost predicate Closed(s: set<string>, scenes: Scenes) {
    forall f | f in s && f in scenes :: Follows(SceneReferences(scenes[f]), s, scenes)
  }

  ghost predicate InEveryClosed(s: set<string>, from: set<string>, scenes: Scenes) {
    forall t: set<string> | from <= t && Closed(t, scenes) :: s <= t
  }

  /** The smallest set that contains `from` and is closed under references. */
  ghost predicate IsLeastClosed(s: set<string>, from: set<string>, scenes: Scenes) {
    from <= s && Closed(s, scenes) && InEveryClosed(s, from, scenes)
  }

  function SetOf(s: seq<string>): set<string> {
    set f | f in s
  }

  /** The input, and after it each scene that had to be added, once. */
  ghost predicate AddsOnce(selected: seq<string>, files: seq<string>) {
    multiset(selected) == multiset(files) + multiset(SetOf(selected) - SetOf(files))
  }

  lemma AddingOne(selected: seq<string>, files: seq<string>, d: string)
    requires AddsOnce(selected, files) && SetOf(files) <= SetOf(selected) && d !in SetOf(selected)
    ensures AddsOnce(selected + [d], files) && SetOf(selected + [d]) == SetOf(selected) + {d}
  {
    assert SetOf(selected + [d]) - SetOf(files) == (SetOf(selected) - SetOf(files)) + {d};
  }

  /** All scenes of the set but the waiting ones have had their references added. */
  ghost predicate Handled(s: set<string>, waiting: seq<string>, scenes: Scenes) {
    forall f | f in s && f !in waiting && f in scenes :: Follows(SceneReferences(scenes[f]), s, scenes)
  }

  lemma HandledAdding(s: set<string>, file: string, pending: seq<string>, d: string, from: set<string>, scenes: Scenes)
    requires Handled(s, [file] + pending, scenes) && InEveryClosed(s, from, scenes)
    requires file in s && file in scenes && d in SceneReferences(scenes[file]) && d in scenes
    ensures Handled(s + {d}, [file] + (pending + [d]), scenes) && InEveryClosed(s + {d}, from, scenes)
  {
    hide SceneReferences;
    forall f | f in s + {d} && f !in [file] + (pending + [d]) && f in scenes
      ensures Follows(SceneReferences(scenes[f]), s + {d}, scenes)
    {
      assert f !in [file] + pending && Follows(SceneReferences(scenes[f]), s, scenes);
    }
    forall t: set<string> | from <= t && Closed(t, scenes) ensures s + {d} <= t {
      assert Follows(SceneReferences(scenes[file]), t, scenes);
    }
  }

  lemma HandledFile(s: set<string>, file: string, pending: seq<string>, scenes: Scenes)
    requires Handled(s, [file] + pending, scenes)
    requires file in scenes ==> Follows(SceneReferences(scenes[file]), s, scenes)
    ensures Handled(s, pending, scenes)
  {}

  method IncludeSceneDependencies(files: seq<string>, scenes: Scenes) returns (sorted: seq<string>)
    requires forall f | f in files :: f in scenes
    ensures Ordered(sorted) && AddsOnce(sorted, files)
    ensures IsLeastClosed(SetOf(sorted), SetOf(files), scenes)
    ensures forall f | f in sorted :: f in scenes
  {
    hide AddsOnce, SortFiles, Ordered, InEveryClosed, Handled, SceneReferences, Closed, SetOf, Follows, Left;
    NothingAdded(files, scenes);
    var selected, stems, pending := files, SetOf(files), files;
    while pending != []
      invariant stems == SetOf(selected) && SetOf(files) <= stems && stems <= scenes.Keys
      invariant forall f | f in pending :: f in stems
      invariant AddsOnce(selected, files)
      invariant Handled(stems, pending, scenes) && InEveryClosed(stems, SetOf(files), scenes)
      decreases Left(stems, scenes), |pending|
    {
      var file := pending[0];
      ghost var stems0, pending0 := stems, pending;
      pending := pending[1..];
      assert pending0 == [file] + pending;
      var references := SceneReferences(scenes[file]);
      FollowsNothing(references, stems, scenes);
      for j := 0 to |references|
        invariant stems == SetOf(selected) && stems0 <= stems <= scenes.Keys
        invariant forall f | f in pending :: f in stems
        invariant AddsOnce(selected, files)
        invariant Follows(references[..j], stems, scenes)
        invariant Handled(stems, [file] + pending, scenes) && InEveryClosed(stems, SetOf(files), scenes)
        invariant (stems == stems0 && |pending| < |pending0|) || Left(stems, scenes) < Left(stems0, scenes)
      {
        var d := references[j];
        FollowsStep(references, j, stems, d, scenes);
        if d in scenes && d !in stems {
          AddingOne(selected, files, d);
          HandledAdding(stems, file, pending, d, SetOf(files), scenes);
          selected, stems, pending := selected + [d], stems + {d}, pending + [d];
        }
      }
      assert references[..|references|] == references;
      HandledFile(stems, file, pending, scenes);
    }
    HandledAll(stems, scenes);
    SortFilesSorts(selected);
    sorted := SortFiles(selected);
    SameFiles(selected, sorted, files);
  }

  /** How many scenes have not been selected. */
  ghost function Left(stems: set<string>, scenes: Scenes): nat {
    |scenes.Keys - stems|
  }

  lemma FollowsStep(references: seq<string>, j: nat, stems: set<string>, d: string, scenes: Scenes)
    requires j < |references| && d == references[j]
    ensures Follows(references[..j], stems, scenes) ==>
      (d in scenes && d !in stems ==>
         Follows(references[..j + 1], stems + {d}, scenes) && Left(stems + {d}, scenes) < Left(stems, scenes)) &&
      (!(d in scenes && d !in stems) ==> Follows(references[..j + 1], stems, scenes))
  {
    assert references[..j + 1] == references[..j] + [d];
    if d in scenes && d !in stems {
      assert scenes.Keys - (stems + {d}) == scenes.Keys - stems - {d};
    }
  }

  lemma FollowsNothing(references: seq<string>, stems: set<string>, scenes: Scenes)
    ensures Follows(references[..0], stems, scenes)
  {}

  lemma HandledAll(s: set<string>, scenes: Scenes)
    requires Handled(s, [], scenes)
    ensures Closed(s, scenes)
  {}

  lemma NothingAdded(files: seq<string>, scenes: Scenes)
    ensures AddsOnce(files, files) && Handled(SetOf(files), files, scenes)
    ensures InEveryClosed(SetOf(files), SetOf(files), scenes)
    ensures forall f :: f in SetOf(files) <==> f in files
  {
    assert SetOf(files) - SetOf(files) == {};
  }

  lemma SameFiles(s: seq<string>, t: seq<string>, files: seq<string>)
    requires multiset(s) == multiset(t) && AddsOnce(s, files)
    ensures SetOf(s) == SetOf(t) && AddsOnce(t, files) && forall f | f in t :: f in SetOf(s)
  {
    forall f ensures f in s <==> f in t {
      assert f in s <==> f in multiset(s);
      assert f in t <==> f in multiset(t);
    }
  }

  // ---- shards -----------------------------------------------------------------------

  /** An environment variable that should hold a number. */
  datatype Setting = Unset | NotANumber | Number(n: int)

  datatype ShardError = MustBeSetTogether | Unreadable | CountBelowOne | ShardOutOfRange

  datatype Selection = Selected(files: seq<string>) | Rejected(error: ShardError)

  /** Every n-th file, from the r-th on. */
  function Stride(files: seq<string>, n: int, r: int): seq<string>
    requires n > 0
  {
    if files == [] then [] else
      var last := |files| - 1;
      Stride(files[..last], n, r) + if last % n == r then [files[last]] else []
  }

  function ApplyShard(shard: Setting, count: Setting, files: seq<string>): Selection {
    if shard.Unset? && count.Unset? then Selected(files)
    else if shard.Unset? || count.Unset? then Rejected(MustBeSetTogether)
    else if shard.NotANumber? || count.NotANumber? then Rejected(Unreadable)
    else if count.n < 1 then Rejected(CountBelowOne)
    else if shard.n < 1 || shard.n > count.n then Rejected(ShardOutOfRange)
    else Selected(Stride(files, count.n, shard.n - 1))
  }

  lemma NextDivMod(x: nat, n: nat)
    requires n > 0
    ensures if x % n == n - 1 then (x + 1) % n == 0 && (x + 1) / n == x / n + 1
            else (x + 1) % n == x % n + 1 && (x + 1) / n == x / n
  {
    var q, m := x / n, x % n;
    assert x == q * n + m;
    if m == n - 1 {
      assert x + 1 == (q + 1) * n;
      DivModOf(q + 1, 0, n);
    } else {
      DivModOf(q, m + 1, n);
    }
  }

  lemma DivModOf(q: nat, m: nat, n: nat)
    requires m < n
    ensures (q * n + m) / n == q && (q * n + m) % n == m
  {
    var x := q * n + m;
    DivModIsOne(q, m, x / n, x % n, n);
  }

  lemma DivModIsOne(q: nat, m: nat, q': nat, m': nat, n: nat)
    requires m < n && m' < n && q * n + m == q' * n + m'
    ensures q == q' && m == m'
  {
    if q < q' {
      TimesGap(q, q', n);
    } else if q' < q {
      TimesGap(q', q, n);
    }
  }

  lemma TimesGap(a: nat, b: nat, n: nat)
    requires a < b
    ensures a * n + n <= b * n
  {
    assert b * n == a * n + n + (b - a - 1) * n;
  }

  /** A shard's size is the even share, and one more for the first shards. */
  lemma {:induction false} StrideSize(files: seq<string>, n: nat, r: nat)
    requires r < n
    ensures |Stride(files, n, r)| == |files| / n + if r < |files| % n then 1 else 0
  {
    if files != [] {
      StrideSize(files[..|files| - 1], n, r);
      NextDivMod(|files| - 1, n);
    }
  }

  lemma ShardsAreEven(files: seq<string>, n: nat, r: nat, r': nat)
    requires r < n && r' < n
    ensures -1 <= |Stride(files, n, r)| - |Stride(files, n, r')| <= 1
  {
    StrideSize(files, n, r);
    StrideSize(files, n, r');
  }

  /** The i-th file is the i/n-th of shard i%n. */
  lemma {:induction false} EachFileHasItsShard(files: seq<string>, n: nat, i: nat)
    requires n > 0 && i < |files|
    ensures i / n < |Stride(files, n, i % n)| && Stride(files, n, i % n)[i / n] == files[i]
  {
    var last := |files| - 1;
    StrideSize(files[..last], n, i % n);
    if i < last {
      EachFileHasItsShard(files[..last], n, i);
    }
  }

  function FirstShards(files: seq<string>, n: nat, m: nat): multiset<string>
    requires m <= n && n > 0
  {
    if m == 0 then multiset{} else FirstShards(files, n, m - 1) + multiset(Stride(files, n, m - 1))
  }

  lemma {:induction false} OneMoreFile(files: seq<string>, f: string, n: nat, m: nat)
    requires m <= n && n > 0
    ensures FirstShards(files + [f], n, m) ==
            FirstShards(files, n, m) + if |files| % n < m then multiset{f} else multiset{}
  {
    hide Stride;
    if m > 0 {
      OneMoreFile(files, f, n, m - 1);
      OneMoreInStride(files, f, n, m - 1);
    }
  }

  lemma OneMoreInStride(files: seq<string>, f: string, n: nat, r: nat)
    requires r < n
    ensures multiset(Stride(files + [f], n, r)) ==
            multiset(Stride(files, n, r)) + if |files| % n == r then multiset{f} else multiset{}
  {
    assert (files + [f])[..|files|] == files && (files + [f])[|files|] == f;
  }

  /** Together the shards hold every file exactly as often as the list does. */
  lemma {:induction false} ShardsPartition(files: seq<string>, n: nat)
    requires n > 0
    ensures FirstShards(files, n, n) == multiset(files)
  {
    if files == [] {
      NoFiles(n, n);
    } else {
      hide FirstShards;
      var before, last := files[..|files| - 1], files[|files| - 1];
      ShardsPartition(before, n);
      OneMoreFile(before, last, n, n);
      assert |before| % n < n;
      assert files == before + [last];
    }
  }

  lemma {:induction false} NoFiles(n: nat, m: nat)
    requires m <= n && n > 0
    ensures FirstShards([], n, m) == multiset{}
  {
    if m > 0 {
      NoFiles(n, m - 1);
    }
  }

  // ---- the two programs -------------------------------------------------------------

  predicate Contains(s: string, sub: string) {
    sub <= s || (s != "" && Contains(s[1..], sub))
  }

  function Matching(files: seq<string>, filter: string): seq<string> {
    if files == [] then [] else
      Matching(files[..|files| - 1], filter) +
      if Contains(Lower(files[|files| - 1]), filter) then [files[|files| - 1]] else []
  }

  /** What both programs do with the directory listing first. */
  function Pick(listing: seq<string>, filter: string, shard: Setting, count: Setting): Selection {
    var files := SortFiles(listing);
    ApplyShard(shard, count, if filter == "" then files else Matching(files, filter))
  }

  /** The names a listing may come in: each scene file once. */
  ghost predicate Lists(listing: seq<string>, scenes: Scenes) {
    multiset(listing) == multiset(scenes.Keys)
  }

  function Resets(scenes: Scenes): seq<string> {
    (if "black" in scenes then ["black"] else []) + (if "blue" in scenes then ["blue"] else [])
  }

  function NotAmong(s: seq<string>, files: seq<string>): seq<string> {
    if s == [] then [] else (if s[0] in files then [] else [s[0]]) + NotAmong(s[1..], files)
  }

  ghost predicate Once(s: seq<string>) {
    multiset(s) == multiset(SetOf(s))
  }

  lemma {:induction false} StrideIsPart(files: seq<string>, n: int, r: int)
    requires n > 0
    ensures multiset(Stride(files, n, r)) <= multiset(files)
  {
    if files != [] {
      StrideIsPart(files[..|files| - 1], n, r);
      assert files == files[..|files| - 1] + [files[|files| - 1]];
    }
  }

  lemma {:induction false} MatchingIsPart(files: seq<string>, filter: string)
    ensures multiset(Matching(files, filter)) <= multiset(files)
  {
    if files != [] {
      MatchingIsPart(files[..|files| - 1], filter);
      assert files == files[..|files| - 1] + [files[|files| - 1]];
    }
  }

  lemma PartOfOnce(s: seq<string>, all: set<string>)
    requires multiset(s) <= multiset(all)
    ensures Once(s) && forall f | f in s :: f in all
  {
    forall f ensures multiset(s)[f] == multiset(SetOf(s))[f] {
      assert f in s <==> f in multiset(s);
      assert multiset(s)[f] <= multiset(all)[f] <= 1;
    }
    forall f | f in s ensures f in all {
      assert f in multiset(s);
      assert f in multiset(all);
    }
  }

  lemma {:induction false} NotAmongHolds(s: seq<string>, files: seq<string>, f: string)
    ensures f in NotAmong(s, files) <==> f in s && f !in files
  {
    if s != [] {
      NotAmongHolds(s[1..], files, f);
      assert f in s <==> f == s[0] || f in s[1..];
    }
  }

  lemma {:induction false} NotAmongIsPart(s: seq<string>, files: seq<string>)
    ensures multiset(NotAmong(s, files)) <= multiset(s)
  {
    if s != [] {
      NotAmongIsPart(s[1..], files);
      assert s == [s[0]] + s[1..];
    }
  }

  lemma NotAmongAre(s: seq<string>, files: seq<string>)
    ensures SetOf(NotAmong(s, files)) == SetOf(s) - SetOf(files) && multiset(NotAmong(s, files)) <= multiset(s)
  {
    NotAmongIsPart(s, files);
    hide NotAmong;
    forall f ensures f in NotAmong(s, files) <==> f in s && f !in files {
      NotAmongHolds(s, files, f);
    }
  }

  lemma PickedExist(listing: seq<string>, scenes: Scenes, filter: string, shard: Setting, count: Setting)
    requires Lists(listing, scenes)
    ensures var p := Pick(listing, filter, shard, count);
            p.Selected? ==> Once(p.files) && forall f | f in p.files :: f in scenes
  {
    var files, p := SortFiles(listing), Pick(listing, filter, shard, count);
    SortFilesSorts(listing);
    MatchingIsPart(files, filter);
    var matching := if filter == "" then files else Matching(files, filter);
    if p.Selected? {
      if !shard.Unset? {
        StrideIsPart(matching, count.n, shard.n - 1);
      }
      PartOfOnce(p.files, scenes.Keys);
    }
  }

  lemma ResetsWithPicked(scenes: Scenes, picked: seq<string>)
    requires Once(picked) && forall f | f in picked :: f in scenes
    ensures var all := NotAmong(Resets(scenes), picked) + picked;
            Once(all) && SetOf(all) == SetOf(picked) + SetOf(Resets(scenes)) && forall f | f in all :: f in scenes
  {
    var missing := NotAmong(Resets(scenes), picked);
    ResetsOnce(scenes);
    NotAmongAre(Resets(scenes), picked);
    hide NotAmong, Resets;
    PartOfOnce(missing, SetOf(Resets(scenes)));
    Joined(missing, picked);
  }

  lemma ResetsOnce(scenes: Scenes)
    ensures Once(Resets(scenes)) && SetOf(Resets(scenes)) == {"black", "blue"} * scenes.Keys
  {}

  lemma Joined(s: seq<string>, t: seq<string>)
    requires Once(s) && Once(t) && SetOf(s) !! SetOf(t)
    ensures Once(s + t) && SetOf(s + t) == SetOf(s) + SetOf(t)
  {
    assert SetOf(s + t) == SetOf(s) + SetOf(t);
    assert multiset(SetOf(s) + SetOf(t)) == multiset(SetOf(s)) + multiset(SetOf(t));
  }

  lemma OnceStays(files: seq<string>, sorted: seq<string>)
    requires Once(files) && AddsOnce(sorted, files) && SetOf(files) <= SetOf(sorted)
    ensures Once(sorted)
  {
    assert SetOf(sorted) == SetOf(files) + (SetOf(sorted) - SetOf(files));
  }

  /** The selection of makescenes.py; no scenes at all end the program early. */
  method SelectScenes(listing: seq<string>, scenes: Scenes, filter: string, shard: Setting, count: Setting)
    returns (r: Selection)
    requires Lists(listing, scenes)
    ensures r.Rejected? <==> Pick(listing, filter, shard, count).Rejected?
    ensures r.Rejected? ==> r == Pick(listing, filter, shard, count)
    ensures r.Selected? ==> IsGenerated(r.files, Pick(listing, filter, shard, count).files, scenes)
  {
    hide Once, IsLeastClosed, AddsOnce, Ordered, SortFiles, Matching, NotAmong, Resets, ApplyShard, Lists;
    var allFiles := SortFiles(listing);
    var files := if filter == "" then allFiles else Matching(allFiles, filter);
    r := ApplyShard(shard, count, files);
    if r.Rejected? || r.files == [] {
      return;
    }
    PickedExist(listing, scenes, filter, shard, count);
    ResetsWithPicked(scenes, r.files);
    var missing := NotAmong(Resets(scenes), r.files);
    ghost var before := missing + r.files;
    files := r.files;
    if missing != [] {
      files := SortFiles(missing + r.files);
      SortFilesSorts(missing + r.files);
      SameOnce(before, files);
    } else {
      assert before == files;
    }
    ghost var chosen := files;
    files := IncludeSceneDependencies(files, scenes);
    LeastContains(SetOf(files), SetOf(chosen), scenes);
    OnceStays(chosen, files);
    r := Selected(files);
  }

  lemma LeastContains(s: set<string>, from: set<string>, scenes: Scenes)
    requires IsLeastClosed(s, from, scenes)
    ensures from <= s
  {}

  lemma SameOnce(s: seq<string>, t: seq<string>)
    requires multiset(s) == multiset(t) && Once(s)
    ensures Once(t) && SetOf(s) == SetOf(t)
  {
    forall f ensures f in s <==> f in t {
      assert f in s <==> f in multiset(s);
      assert f in t <==> f in multiset(t);
    }
  }

  // ---- what is picked ---------------------------------------------------------------

  /** `sub` stands somewhere in `s`. */
  ghost predicate StandsIn(sub: string, s: string) {
    exists before, after :: s == before + sub + after
  }

  lemma {:induction false} ContainsIs(s: string, sub: string)
    ensures Contains(s, sub) <==> StandsIn(sub, s)
  {
    if sub <= s {
      assert s == "" + sub + s[|sub|..];
    } else if s != "" {
      ContainsIs(s[1..], sub);
      if StandsIn(sub, s[1..]) {
        var before, after :| s[1..] == before + sub + after;
        assert s == ([s[0]] + before) + sub + after;
      }
      if StandsIn(sub, s) {
        var before, after :| s == before + sub + after;
        assert before == "" ==> s == sub + after;
        assert s[1..] == before[1..] + sub + after;
      }
    }
  }

  /** The filter stands somewhere in the name, whatever the case of the name. */
  ghost predicate Filtered(f: string, filter: string) {
    StandsIn(filter, Lower(f))
  }

  lemma {:induction false} MatchingCounts(files: seq<string>, filter: string, f: string)
    ensures multiset(Matching(files, filter))[f] == if Filtered(f, filter) then multiset(files)[f] else 0
  {
    hide Filtered, Contains;
    if files != [] {
      var before, last := files[..|files| - 1], files[|files| - 1];
      MatchingCounts(before, filter, f);
      assert files == before + [last];
      FilteredIs(last, filter);
    }
  }

  lemma FilteredIs(f: string, filter: string)
    ensures Contains(Lower(f), filter) <==> Filtered(f, filter)
  {
    ContainsIs(Lower(f), filter);
  }

  /** What the first `m` of `n` shards pick, all told. */
  function PickedByFirst(listing: seq<string>, filter: string, n: nat, m: nat): multiset<string> {
    if m == 0 then multiset{} else
      var last := Pick(listing, filter, Number(m), Number(n));
      PickedByFirst(listing, filter, n, m - 1) + if last.Selected? then multiset(last.files) else multiset{}
  }

  /** Between them the shards pick every file that passes the filter, and each once. */
  lemma ShardsPickEachOnce(listing: seq<string>, filter: string, n: nat, f: string)
    requires n > 0
    ensures PickedByFirst(listing, filter, n, n)[f] == if Filtered(f, filter) then multiset(listing)[f] else 0
  {
    var files := Passing(listing, filter);
    hide Filtered, SortFiles;
    PickedInShards(listing, filter, n, n);
    ShardsPartition(files, n);
    PassingCounts(listing, filter, f);
  }

  /** The files before they are split into shards. */
  function Passing(listing: seq<string>, filter: string): seq<string> {
    if filter == "" then SortFiles(listing) else Matching(SortFiles(listing), filter)
  }

  lemma PassingCounts(listing: seq<string>, filter: string, f: string)
    ensures multiset(Passing(listing, filter))[f] == if Filtered(f, filter) then multiset(listing)[f] else 0
  {
    SortFilesSorts(listing);
    if filter == "" {
      assert Lower(f) == "" + filter + Lower(f);
    } else {
      MatchingCounts(SortFiles(listing), filter, f);
    }
  }

  lemma {:induction false} PickedInShards(listing: seq<string>, filter: string, n: nat, m: nat)
    requires m <= n && n > 0
    ensures PickedByFirst(listing, filter, n, m) == FirstShards(Passing(listing, filter), n, m)
  {
    hide SortFiles, Matching, Stride;
    if m > 0 {
      PickedInShards(listing, filter, n, m - 1);
    }
  }

  /** One shard picks, in order, the files that pass the filter at every n-th place from its own on;
      without shards all that pass are picked; and nothing is picked exactly of settings that make no
      sense. */
  lemma PickExactly(listing: seq<string>, filter: string, shard: Setting, count: Setting)
    ensures var picked, passing := Pick(listing, filter, shard, count), Passing(listing, filter);
            (picked == Rejected(MustBeSetTogether) <==> shard.Unset? != count.Unset?) &&
            (picked == Rejected(Unreadable) <==>
               !shard.Unset? && !count.Unset? && (shard.NotANumber? || count.NotANumber?)) &&
            (picked == Rejected(CountBelowOne) <==> shard.Number? && count.Number? && count.n < 1) &&
            (picked == Rejected(ShardOutOfRange) <==>
               shard.Number? && count.Number? && count.n >= 1 && !(1 <= shard.n <= count.n)) &&
            (shard.Unset? && count.Unset? ==> picked == Selected(passing)) &&
            (shard.Number? && count.Number? && picked.Selected? ==>
               IsShard(picked.files, passing, count.n, shard.n - 1))
  {
    hide SortFiles, Matching, Stride, IsShard;
    var passing := Passing(listing, filter);
    if shard.Number? && count.Number? && 1 <= shard.n <= count.n {
      StrideIsShard(passing, count.n, shard.n - 1);
    }
  }

  /** The shard has its share of the files, each in its place. */
  ghost predicate IsShard(files: seq<string>, all: seq<string>, n: int, r: int) {
    n > 0 && |files| == |all| / n + (if r < |all| % n then 1 else 0) &&
    forall i | 0 <= i < |all| && i % n == r :: i / n < |files| && files[i / n] == all[i]
  }

  lemma StrideIsShard(all: seq<string>, n: nat, r: nat)
    requires r < n
    ensures IsShard(Stride(all, n, r), all, n, r)
  {
    hide Stride;
    StrideSize(all, n, r);
    forall i: nat | i < |all| && i % n == r ensures i / n < |Stride(all, n, r)| && Stride(all, n, r)[i / n] == all[i] {
      EachFileHasItsShard(all, n, i);
    }
  }

  /** A scene refers to the scenes that its scene nodes name. */
  lemma {:induction false} ReferencesAre(scene: Scene, d: string)
    ensures d in SceneReferences(scene) <==>
            d != "" && exists i | 0 <= i < |scene| :: scene[i].kind == "scene" && scene[i].keyword == Some(d)
  {
    if scene != [] {
      var before := scene[..|scene| - 1];
      ReferencesAre(before, d);
      assert forall i | 0 <= i < |before| :: before[i] == scene[i];
    }
  }

  /** The scene that is shown before a snapshot is blue, or black for blue itself and its twin, so it is
      never the one that is to be shown. */
  lemma ResetSceneDiffers(f: string)
    requires |f| < 12 || f[|f| - 12..] != "_interpreted"
    ensures SnapshotResetScene(f) == SnapshotResetScene(f + "_interpreted") == if f == "blue" then "black" else "blue"
    ensures SnapshotResetScene(f) != f
  {
    assert (f + "_interpreted")[..|f|] == f && (f + "_interpreted")[|f|..] == "_interpreted";
  }

  /** Generated is the smallest closed set with the picked scenes and the reset scenes, in order,
      each once. */
  ghost predicate IsGenerated(generated: seq<string>, picked: seq<string>, scenes: Scenes) {
    if picked == [] then generated == [] else
      Ordered(generated) && multiset(generated) == multiset(SetOf(generated)) &&
      IsLeastClosed(SetOf(generated), SetOf(picked) + SetOf(Resets(scenes)), scenes)
  }

  /** Both programs pick the same files, whatever order the directory is listed in. */
  lemma PickIsTheSame(listing: seq<string>, listing': seq<string>, scenes: Scenes,
                      filter: string, shard: Setting, count: Setting)
    requires Lists(listing, scenes) && Lists(listing', scenes)
    ensures Pick(listing, filter, shard, count) == Pick(listing', filter, shard, count)
  {
    SortFilesSorts(listing);
    SortFilesSorts(listing');
    OrderedIsUnique(SortFiles(listing), SortFiles(listing'));
  }

  const INTERPRETED := "_interpreted"

  function RemoveSuffix(s: string, suffix: string): string {
    if |s| >= |suffix| && s[|s| - |suffix|..] == suffix then s[..|s| - |suffix|] else s
  }

  function SnapshotResetScene(sceneId: string): string {
    if RemoveSuffix(sceneId, INTERPRETED) == "blue" then "black" else "blue"
  }

  /** The scene ids makesnapshots.py sets one after the other, when no request fails. */
  function Activated(files: seq<string>): seq<string> {
    if files == [] then [] else
      var f := files[|files| - 1];
      Activated(files[..|files| - 1]) + Shots(f)
  }

  function Shots(f: string): seq<string> {
    [SnapshotResetScene(f), f, SnapshotResetScene(f + INTERPRETED), f + INTERPRETED]
  }

  /** The inner loop: the compiled scene and its interpreted twin, each after its reset scene. */
  method TakeBoth(f: string) returns (ids: seq<string>)
    ensures ids == Shots(f)
  {
    var variants := [f, f + INTERPRETED];
    ids := [];
    for j := 0 to 2
      invariant ids == Shots(f)[..2 * j]
    {
      ids := ids + [SnapshotResetScene(variants[j])];
      ids := ids + [variants[j]];
    }
  }

  method TakeSnapshots(listing: seq<string>, filter: string, shard: Setting, count: Setting) returns (r: Selection)
    ensures var picked := Pick(listing, filter, shard, count);
            r == if picked.Selected? then Selected(Activated(picked.files)) else picked
  {
    hide SortFiles, Matching, ApplyShard, Shots;
    var files := SortFiles(listing);
    if filter != "" {
      files := Matching(files, filter);
    }
    r := ApplyShard(shard, count, files);
    if r.Rejected? {
      return;
    }
    files := r.files;
    var ids := [];
    for i := 0 to |files|
      invariant ids == Activated(files[..i])
    {
      assert files[..i + 1][..i] == files[..i];
      var shots := TakeBoth(files[i]);
      ids := ids + shots;
    }
    assert files[..|files|] == files;
    r := Selected(ids);
  }

  /** A compiled scene, or its interpreted twin from scenes.json. */
  ghost predicate Available(id: string, generated: seq<string>) {
    exists f | f in generated :: id == f || id == f + INTERPRETED
  }

  ghost predicate AllAvailable(ids: seq<string>, generated: seq<string>) {
    forall id | id in ids :: Available(id, generated)
  }

  lemma {:induction false} ActivatedByFile(files: seq<string>, generated: seq<string>)
    ensures AllAvailable(Activated(files), generated) <==> forall f | f in files :: AllAvailable(Shots(f), generated)
  {
    hide Available;
    if files != [] {
      var before, f := files[..|files| - 1], files[|files| - 1];
      ActivatedByFile(before, generated);
      assert files == before + [f];
      hide Shots;
      assert Activated(files) == Activated(before) + Shots(f);
      assert forall id :: id in Activated(files) <==> id in Activated(before) || id in Shots(f);
      assert AllAvailable(Activated(files), generated) <==>
             AllAvailable(Activated(before), generated) && AllAvailable(Shots(f), generated);
    }
  }

  lemma ShotsAvailable(f: string, generated: seq<string>, scenes: Scenes)
    requires f in generated
    requires forall g | g in generated :: g in scenes
    requires forall g | g in ["black", "blue"] && g in scenes :: g in generated
    ensures AllAvailable(Shots(f), generated) <==>
            SnapshotResetScene(f) in scenes && SnapshotResetScene(f + INTERPRETED) in scenes
  {
    ResetAvailable(SnapshotResetScene(f), generated, scenes);
    ResetAvailable(SnapshotResetScene(f + INTERPRETED), generated, scenes);
    hide SnapshotResetScene;
    assert Available(f, generated) && Available(f + INTERPRETED, generated);
    var shots := Shots(f);
    assert shots[0] in shots && shots[2] in shots;
  }

  lemma ResetAvailable(id: string, generated: seq<string>, scenes: Scenes)
    requires id in ["black", "blue"]
    requires forall g | g in generated :: g in scenes
    requires forall g | g in ["black", "blue"] && g in scenes :: g in generated
    ensures Available(id, generated) <==> id in scenes
  {
    assert forall g: string :: |g + INTERPRETED| > 5 >= |id|;
  }

  lemma GeneratedAreScenes(generated: seq<string>, picked: seq<string>, scenes: Scenes)
    requires IsGenerated(generated, picked, scenes) && forall f | f in picked :: f in scenes
    ensures forall f | f in generated :: f in scenes
    ensures picked != [] ==>
      forall f | f in picked || (f in ["black", "blue"] && f in scenes) :: f in generated
  {
    if picked != [] {
      ResetsOnce(scenes);
      assert SetOf(picked) + SetOf(Resets(scenes)) <= scenes.Keys;
      assert Closed(scenes.Keys, scenes);
      assert SetOf(generated) <= scenes.Keys;
      assert forall f | f in generated :: f in SetOf(generated);
      forall f | f in picked || (f in ["black", "blue"] && f in scenes) ensures f in generated {
        assert f in SetOf(picked) + SetOf(Resets(scenes));
      }
    }
  }

  /** For the same directory, filter and shard: everything a snapshot shard activates was generated,
      exactly if the reset scenes that it falls back on are in the directory. */
  lemma SnapshotsUseGeneratedScenes(listing: seq<string>, listing': seq<string>, scenes: Scenes, filter: string,
                                    shard: Setting, count: Setting, generated: seq<string>)
    requires Lists(listing, scenes) && Lists(listing', scenes)
    requires Pick(listing, filter, shard, count).Selected? && Pick(listing', filter, shard, count).Selected?
    requires IsGenerated(generated, Pick(listing, filter, shard, count).files, scenes)
    ensures var files := Pick(listing', filter, shard, count).files;
            AllAvailable(Activated(files), generated) <==>
            (forall f | f in files :: SnapshotResetScene(f) in scenes && SnapshotResetScene(f + INTERPRETED) in scenes)
  {
    hide Pick, Lists, IsGenerated, Activated, AllAvailable, SnapshotResetScene;
    var files := Pick(listing', filter, shard, count).files;
    PickIsTheSame(listing, listing', scenes, filter, shard, count);
    PickedExist(listing, scenes, filter, shard, count);
    GeneratedAreScenes(generated, files, scenes);
    ActivatedByFile(files, generated);
    forall f | f in files
      ensures AllAvailable(Shots(f), generated) <==>
              SnapshotResetScene(f) in scenes && SnapshotResetScene(f + INTERPRETED) in scenes
    {
      ShotsAvailable(f, generated, scenes);
    }
  }
}
