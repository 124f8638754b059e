/**
 Splitting state nodes preserves the dataflow of a scene: edges stay where they are and keep their
 targets, what flows into every target is the same state, and nothing is left to split.
 */
module StateSplitMeaning {
  import opened Json
  import opened Options
  import opened PyText
  import opened StateSplit

  ghost predicate UniqueIds(nodes: seq<Json>) {
    forall i, j | 0 <= i < j < |nodes| && Get(nodes[i], "id").Str? :: Get(nodes[i], "id") != Get(nodes[j], "id")
  }

  /** uuid4: no text twice, none that the scene already uses. */
  ghost predicate FreshSupply(uuids: nat -> string, nodes: seq<Json>, edges: seq<Json>) {
    Injective(uuids) &&
    (forall n: nat, i | 0 <= i < |nodes| :: Get(nodes[i], "id") != Str(uuids(n))) &&
    (forall n: nat, i | 0 <= i < |edges| :: Get(edges[i], "source") != Str(uuids(n)))
  }

  /** The split of one scene: nodes and edges before and after. */
  datatype Split = Split(nodes: seq<Json>, edges: seq<Json>, uuids: nat -> string, drawn: nat) {
    function Order(): seq<Pair> { SplitOrder(nodes, edges) }
    function EdgesAfter(): seq<Json> { SplitEdges(nodes, edges, uuids, drawn) }
    function NodesAfter(): seq<Json> { SplitNodes(nodes, edges, uuids, drawn) }
    /** The id of the copy made for the k-th pair. */
    function NewId(k: nat): string { uuids(drawn + k) }
    function Gone(): set<string> { Removed(Order(), EdgesAfter()) }
    ghost predicate Valid() { UniqueIds(nodes) && FreshSupply(uuids, nodes, edges) }
  }

  // ---- edges ------------------------------------------------------------------------

  /** Every edge keeps its position and everything but its source. */
  lemma EdgesKeepPlaceAndTarget(s: Split, i: nat)
    requires i < |s.edges|
    ensures |s.EdgesAfter()| == |s.edges|
    ensures s.EdgesAfter()[i] == s.edges[i] ||
            (s.EdgesAfter()[i].Obj? && s.edges[i].Obj? &&
             s.EdgesAfter()[i].fields - {"source"} == s.edges[i].fields - {"source"})
    ensures forall key | key != "source" :: Get(s.EdgesAfter()[i], key) == Get(s.edges[i], key)
  {
    var order := s.Order();
    var after := SplitEdge(EndsOf(s.nodes), order, |order|, s.edges[i], s.uuids, s.drawn);
    assert s.EdgesAfter()[i] == after;
    assert after == s.edges[i] || (s.edges[i].Obj? && exists id :: after == Redirect(s.edges[i], id)) by {
      var feeds := EndsOf(s.nodes).Feeds(s.edges[i]);
      if feeds.Some? && s.edges[i].Obj? && Position(feeds.value, order) < |order| {
        assert after == Redirect(s.edges[i], s.uuids(s.drawn + Position(feeds.value, order)));
      }
    }
  }

  /** Which edges are redirected, and where to. */
  lemma EdgeAfter(s: Split, i: nat)
    requires i < |s.edges|
    ensures |s.EdgesAfter()| == |s.edges|
    ensures var feeds := EndsOf(s.nodes).Feeds(s.edges[i]);
            if feeds.Some? && feeds.value in s.Order()
            then s.edges[i].Obj? &&
                 Get(s.EdgesAfter()[i], "source") == Str(s.uuids(s.drawn + Position(feeds.value, s.Order())))
            else s.EdgesAfter()[i] == s.edges[i]
  {
    hide SplitOrder, EndsOf;
  }

  // ---- nodes ------------------------------------------------------------------------

  /** In a list with unique ids the dict holds exactly the listed nodes. */
  lemma {:induction false} LookupIsListed(nodes: seq<Json>)
    requires UniqueIds(nodes)
    ensures forall i | 0 <= i < |nodes| && Get(nodes[i], "id").Str? ::
              Get(nodes[i], "id").s in ById(nodes) && ById(nodes)[Get(nodes[i], "id").s] == nodes[i]
    ensures forall id | id in ById(nodes) :: ById(nodes)[id] in nodes && Get(ById(nodes)[id], "id") == Str(id)
  {
    if nodes != [] {
      LookupIsListed(nodes[..|nodes| - 1]);
    }
  }

  lemma {:induction false} KeepKeeps(nodes: seq<Json>, removed: set<string>)
    requires UniqueIds(nodes)
    ensures UniqueIds(Keep(nodes, removed))
    ensures forall node :: node in Keep(nodes, removed) <==>
              node in nodes && !(Get(node, "id").Str? && Get(node, "id").s in removed)
  {
    hide Get;
    if nodes != [] {
      KeepKeeps(nodes[1..], removed);
      assert nodes == [nodes[0]] + nodes[1..];
      var rest := Keep(nodes[1..], removed);
      forall j | 0 <= j < |rest| && Get(nodes[0], "id").Str? ensures Get(nodes[0], "id") != Get(rest[j], "id") {
        assert rest[j] in nodes[1..];
      }
    }
  }

  lemma CopyFacts(s: Split, k: nat)
    requires s.Valid() && k < |s.Order()|
    ensures s.Order()[k].0 in ById(s.nodes)
    ensures var node := ById(s.nodes)[s.Order()[k].0];
            var copied := Copy(node, s.NewId(k));
            Get(copied, "id") == Str(s.NewId(k)) && copied.Obj? && node.Obj? &&
            copied.fields - {"id"} == node.fields - {"id"}
  {
    hide ById, SplitOrder;
    OrderIsSplit(s.nodes, s.edges);
    LookupIsListed(s.nodes);
  }

  ghost function CopiesOf(s: Split): (copies: seq<Json>)
    ensures |copies| == |s.Order()|
  {
    OrderIsSplit(s.nodes, s.edges);
    Copies(s.nodes, s.Order(), |s.Order()|, s.uuids, s.drawn)
  }

  lemma NewNodesAreUnique(s: Split)
    requires s.Valid()
    ensures s.NodesAfter() == Keep(s.nodes, s.Gone()) + CopiesOf(s) && UniqueIds(s.NodesAfter())
    ensures forall k | 0 <= k < |s.Order()| :: Get(CopiesOf(s)[k], "id") == Str(s.NewId(k))
  {
    hide ById, SplitOrder, Removed, SplitEdges, Keep;
    var kept, copies := Keep(s.nodes, s.Gone()), CopiesOf(s);
    OrderIsSplit(s.nodes, s.edges);
    KeepKeeps(s.nodes, s.Gone());
    forall k | 0 <= k < |copies| ensures Get(copies[k], "id") == Str(s.NewId(k)) { CopyFacts(s, k); }
    forall i, k | 0 <= i < |kept| && 0 <= k < |copies| ensures Get(kept[i], "id") != Get(copies[k], "id") {
      assert kept[i] in s.nodes;
    }
  }

  /** An old node that is not removed is found under its id, as it was. */
  lemma OldNodeStays(s: Split, id: string)
    requires s.Valid() && id in ById(s.nodes) && id !in s.Gone()
    ensures id in ById(s.NodesAfter()) && ById(s.NodesAfter())[id] == ById(s.nodes)[id]
  {
    hide ById, SplitOrder, Removed, SplitEdges, Keep, UniqueIds, FreshSupply, SplitNodes;
    NewNodesAreUnique(s);
    LookupIsListed(s.nodes);
    LookupIsListed(s.NodesAfter());
    KeepKeeps(s.nodes, s.Gone());
    var node, kept := ById(s.nodes)[id], Keep(s.nodes, s.Gone());
    assert node in kept;
    var i :| 0 <= i < |kept| && kept[i] == node;
    assert s.NodesAfter()[i] == node;
  }

  /** Under each new id stands a copy that differs from its original in nothing but the id. */
  lemma NewNode(s: Split, k: nat)
    requires s.Valid() && k < |s.Order()|
    ensures s.NewId(k) in ById(s.NodesAfter()) && s.Order()[k].0 in ById(s.nodes)
    ensures var copied, node := ById(s.NodesAfter())[s.NewId(k)], ById(s.nodes)[s.Order()[k].0];
            copied.Obj? && node.Obj? && copied.fields - {"id"} == node.fields - {"id"}
  {
    hide ById, SplitOrder, Removed, SplitEdges, Keep, UniqueIds, FreshSupply, SplitNodes;
    NewNodesAreUnique(s);
    LookupIsListed(s.NodesAfter());
    CopyFacts(s, k);
    var kept := Keep(s.nodes, s.Gone());
    assert s.NodesAfter()[|kept| + k] == CopiesOf(s)[k];
  }

  /** There are no other nodes. */
  lemma NodeOrigin(s: Split, id: string)
    requires s.Valid() && id in ById(s.NodesAfter())
    ensures (id in ById(s.nodes) && id !in s.Gone()) || exists k :: 0 <= k < |s.Order()| && id == s.NewId(k)
  {
    hide ById, SplitOrder, Removed, SplitEdges, Keep, UniqueIds, FreshSupply, SplitNodes;
    NewNodesAreUnique(s);
    LookupIsListed(s.nodes);
    LookupIsListed(s.NodesAfter());
    KeepKeeps(s.nodes, s.Gone());
    var node, kept := ById(s.NodesAfter())[id], Keep(s.nodes, s.Gone());
    if node in kept {
      var i :| 0 <= i < |s.nodes| && s.nodes[i] == node;
    } else {
      var k :| 0 <= k < |CopiesOf(s)| && CopiesOf(s)[k] == node;
      assert id == s.NewId(k);
    }
  }

  // ---- the dataflow -----------------------------------------------------------------

  predicate SourceResolves(edge: Json, nodes: seq<Json>) {
    Get(edge, "source").Str? && Get(edge, "source").s in ById(nodes)
  }

  function SourceNode(edge: Json, nodes: seq<Json>): Json
    requires SourceResolves(edge, nodes)
  {
    ById(nodes)[Get(edge, "source").s]
  }

  /** What flows along every edge is unchanged: an edge with a source still has one, and it is the
      same node or a copy of it that differs in nothing but the id. */
  lemma SourcesKeepContent(s: Split, i: nat)
    requires s.Valid() && i < |s.edges| && SourceResolves(s.edges[i], s.nodes)
    ensures |s.EdgesAfter()| == |s.edges| && SourceResolves(s.EdgesAfter()[i], s.NodesAfter())
    ensures var before, after := SourceNode(s.edges[i], s.nodes), SourceNode(s.EdgesAfter()[i], s.NodesAfter());
            before == after || (before.Obj? && after.Obj? && before.fields - {"id"} == after.fields - {"id"})
  {
    hide ById, SplitOrder, SplitEdges, SplitNodes, Split.Valid, EndsOf;
    EdgeAfter(s, i);
    var feeds := EndsOf(s.nodes).Feeds(s.edges[i]);
    if feeds.Some? && feeds.value in s.Order() {
      var k := Position(feeds.value, s.Order());
      assert s.Order()[k] == feeds.value;
      NewNode(s, k);
    } else {
      var id := Get(s.edges[i], "source").s;
      assert IsSource(id, s.EdgesAfter());
      OldNodeStays(s, id);
    }
  }

  /** Every target still resolves, to the same node, unless it is a state node that was removed;
      so with no edge into a state node no target is lost. */
  lemma TargetsResolve(s: Split, id: string)
    requires s.Valid() && id in ById(s.nodes)
    ensures id !in s.Gone() ==> id in ById(s.NodesAfter()) && ById(s.NodesAfter())[id] == ById(s.nodes)[id]
    ensures id in s.Gone() ==> id in EndsOf(s.nodes).states && id !in ById(s.NodesAfter())
  {
    hide ById, SplitOrder, SplitEdges, SplitNodes, UniqueIds, EndsOf;
    if id !in s.Gone() {
      OldNodeStays(s, id);
    } else {
      OrderIsSplit(s.nodes, s.edges);
      LookupIsListed(s.nodes);
      var node := ById(s.nodes)[id];
      var i :| 0 <= i < |s.nodes| && s.nodes[i] == node;
      if id in ById(s.NodesAfter()) { NodeOrigin(s, id); }
    }
  }

  /** Copies are states, so the apps of the new graph are the old apps. */
  lemma AppsAreOld(s: Split, id: string)
    requires s.Valid() && id in EndsOf(s.NodesAfter()).apps
    ensures id in EndsOf(s.nodes).apps
  {
    hide SplitOrder, SplitEdges, SplitNodes, ById, Split.Valid;
    NodeOrigin(s, id);
    if id in ById(s.nodes) && id !in s.Gone() {
      OldNodeStays(s, id);
    } else {
      var k :| 0 <= k < |s.Order()| && id == s.NewId(k);
      NewNodeIsState(s, k);
    }
  }

  lemma NewNodeIsState(s: Split, k: nat)
    requires s.Valid() && k < |s.Order()|
    ensures s.NewId(k) in ById(s.NodesAfter())
    ensures Get(ById(s.NodesAfter())[s.NewId(k)], "type") == Str("state")
  {
    hide SplitOrder, SplitEdges, SplitNodes, ById, Split.Valid;
    NewNode(s, k);
    OrderIsSplit(s.nodes, s.edges);
    var copied, node := ById(s.NodesAfter())[s.NewId(k)], ById(s.nodes)[s.Order()[k].0];
    assert Get(node, "type") == Str("state");
    assert "type" in node.fields - {"id"};
    assert Get(copied, "type") == (copied.fields - {"id"})["type"];
  }

  lemma OldStatesAreOld(s: Split, id: string)
    requires s.Valid() && id in EndsOf(s.NodesAfter()).states && forall n: nat :: id != s.uuids(n)
    ensures id in EndsOf(s.nodes).states
  {
    hide SplitOrder, SplitEdges, SplitNodes, ById, Split.Valid;
    NodeOrigin(s, id);
    OldNodeStays(s, id);
  }

  lemma SourceIsOld(s: Split, i: nat)
    requires s.Valid() && i < |s.edges| && Get(s.edges[i], "source").Str?
    ensures forall n: nat :: Get(s.edges[i], "source").s != s.uuids(n)
  {}

  /** What an edge of the new graph connects, traced back to the old graph. */
  lemma FeedsAfter(s: Split, i: nat)
    requires s.Valid() && i < |s.edges| == |s.EdgesAfter()|
    requires EndsOf(s.NodesAfter()).Feeds(s.EdgesAfter()[i]).Some?
    ensures var q := EndsOf(s.NodesAfter()).Feeds(s.EdgesAfter()[i]).value;
            var feeds := EndsOf(s.nodes).Feeds(s.edges[i]);
            feeds.Some? && q.1 == feeds.value.1 &&
            if feeds.value in s.Order() then q.0 == s.NewId(Position(feeds.value, s.Order())) else q == feeds.value
  {
    hide ById, SplitOrder, SplitEdges, SplitNodes, Split.Valid, EndsOf;
    EdgeAfter(s, i);
    EdgesKeepPlaceAndTarget(s, i);
    var q := EndsOf(s.NodesAfter()).Feeds(s.EdgesAfter()[i]).value;
    AppsAreOld(s, q.1);
    var feeds := EndsOf(s.nodes).Feeds(s.edges[i]);
    if !(feeds.Some? && feeds.value in s.Order()) {
      SourceIsOld(s, i);
      OldStatesAreOld(s, q.0);
    }
  }

  lemma LengthKept(s: Split)
    ensures |s.EdgesAfter()| == |s.edges|
  {}

  /** An old pair behind a new one. */
  lemma PairOrigin(s: Split, p: Pair) returns (f: Pair)
    requires s.Valid() && p in EndsOf(s.NodesAfter()).Pairs(s.EdgesAfter())
    ensures f in EndsOf(s.nodes).Pairs(s.edges) && p.1 == f.1 && forall n: nat :: f.0 != s.uuids(n)
    ensures if f in s.Order() then p.0 == s.NewId(Position(f, s.Order())) else p == f
  {
    hide SplitEdges, SplitNodes, SplitOrder, EndsOf;
    var after := EndsOf(s.NodesAfter());
    PairsAreFed(after, s.EdgesAfter());
    var i :| 0 <= i < |s.EdgesAfter()| && after.Feeds(s.EdgesAfter()[i]) == Some(p);
    LengthKept(s);
    FeedsAfter(s, i);
    f := EndsOf(s.nodes).Feeds(s.edges[i]).value;
    PairsAreFed(EndsOf(s.nodes), s.edges);
    SourceIsOld(s, i);
  }

  /** Afterwards no state node feeds two apps. */
  lemma EachStateFeedsOneApp(s: Split, p: Pair, q: Pair)
    requires s.Valid() && p.0 == q.0
    requires p in EndsOf(s.NodesAfter()).Pairs(s.EdgesAfter()) && q in EndsOf(s.NodesAfter()).Pairs(s.EdgesAfter())
    ensures p == q
  {
    hide SplitEdges, SplitNodes, SplitOrder, EndsOf, UniqueIds;
    var f := PairOrigin(s, p);
    var g := PairOrigin(s, q);
    OrderIsSplit(s.nodes, s.edges);
    if f !in s.Order() && g !in s.Order() {
      var pairs := EndsOf(s.nodes).Pairs(s.edges);
      PairsAreFed(EndsOf(s.nodes), s.edges);
      PairsOfState(pairs, f.0);
      var own := PairsOf(pairs, f.0);
      assert f in own && g in own && |own| <= 1;
    } else if f in s.Order() && g in s.Order() {
      var i, j := Position(f, s.Order()), Position(g, s.Order());
      assert s.uuids(s.drawn + i) == s.uuids(s.drawn + j);
      assert s.Order()[i] == f && s.Order()[j] == g;
    }
  }

  /** A second pass finds nothing to split and changes nothing. */
  lemma SecondPassChangesNothing(s: Split, again: Split)
    requires s.Valid() && again.nodes == s.NodesAfter() && again.edges == s.EdgesAfter()
    ensures again.Order() == [] && again.EdgesAfter() == again.edges && again.NodesAfter() == again.nodes
  {
    hide SplitEdge, ById, Split.Valid, Split.EdgesAfter, Split.NodesAfter;
    OrderIsSplit(again.nodes, again.edges);
    var pairs := EndsOf(again.nodes).Pairs(again.edges);
    PairsAreFed(EndsOf(again.nodes), again.edges);
    forall p | p in pairs ensures |PairsOf(pairs, p.0)| <= 1 {
      var own := PairsOf(pairs, p.0);
      PairsOfState(pairs, p.0);
      if |own| > 1 {
        EachStateFeedsOneApp(s, own[0], own[1]);
      }
    }
    EmptyOrder(again);
  }

  lemma EmptyOrder(s: Split)
    ensures (forall p :: p !in s.Order()) ==> s.Order() == []
    ensures s.Order() == [] ==> s.EdgesAfter() == s.edges && s.NodesAfter() == s.nodes
  {
    hide SplitOrder;
    assert |s.Order()| > 0 ==> s.Order()[0] in s.Order();
    if s.Order() == [] {
      forall i | 0 <= i < |s.edges| ensures s.EdgesAfter()[i] == s.edges[i] { EdgeAfter(s, i); }
      assert s.Gone() == {};
      KeepAll(s.nodes);
    }
  }

  lemma {:induction false} KeepAll(nodes: seq<Json>)
    ensures Keep(nodes, {}) == nodes
  {
    if nodes != [] {
      KeepAll(nodes[1..]);
    }
  }

  // ---- which states go --------------------------------------------------------------

  /** The edge leads from the state to an app. */
  predicate LeadsToApp(s: Split, edge: Json, state: string, app: string) {
    Get(edge, "source") == Str(state) && Get(edge, "target") == Str(app) &&
    app in ById(s.nodes) && Get(ById(s.nodes)[app], "type") == Str("app")
  }

  ghost predicate FeedsApp(s: Split, state: string, app: string) {
    exists i | 0 <= i < |s.edges| :: LeadsToApp(s, s.edges[i], state, app)
  }

  ghost predicate FeedsTwoApps(s: Split, state: string) {
    exists app, other :: app != other && FeedsApp(s, state, app) && FeedsApp(s, state, other)
  }

  lemma FeedsIs(s: Split, state: string, app: string)
    requires state in ById(s.nodes) && Get(ById(s.nodes)[state], "type") == Str("state")
    ensures (state, app) in EndsOf(s.nodes).Pairs(s.edges) <==> FeedsApp(s, state, app)
  {
    hide ById;
    PairsAreFed(EndsOf(s.nodes), s.edges);
    forall i | 0 <= i < |s.edges|
      ensures EndsOf(s.nodes).Feeds(s.edges[i]) == Some((state, app)) <==> LeadsToApp(s, s.edges[i], state, app)
    {}
  }

  lemma SeveralPairs(pairs: seq<Pair>, state: string)
    requires NoDuplicates(pairs)
    ensures |PairsOf(pairs, state)| > 1 <==>
            exists app, other :: app != other && (state, app) in pairs && (state, other) in pairs
  {
    PairsOfState(pairs, state);
    var own := PairsOf(pairs, state);
    hide PairsOf;
    if |own| > 1 {
      assert own[0] in own && own[1] in own && own[0] != own[1];
      assert (state, own[0].1) in pairs && (state, own[1].1) in pairs;
    }
    if app, other :| app != other && (state, app) in pairs && (state, other) in pairs {
      assert (state, app) in own && (state, other) in own;
    }
  }

  /** A node is taken out exactly if it is a state that feeds two apps or more, and every edge that
      leaves it leads to an app: its copies then do all that it did. */
  lemma GoneExactly(s: Split, id: string)
    requires s.Valid()
    ensures id in s.Gone() <==>
            id in ById(s.nodes) && Get(ById(s.nodes)[id], "type") == Str("state") && FeedsTwoApps(s, id) &&
            forall i | 0 <= i < |s.edges| && Get(s.edges[i], "source") == Str(id) ::
              exists app :: LeadsToApp(s, s.edges[i], id, app)
  {
    hide ById, SplitOrder, SplitEdges, LeadsToApp, UniqueIds, FeedsApp, PairsOf, Ends.Pairs, Position;
    OrderIsSplit(s.nodes, s.edges);
    PairsAreFed(EndsOf(s.nodes), s.edges);
    if id in ById(s.nodes) && Get(ById(s.nodes)[id], "type") == Str("state") {
      SplitIffSeveral(s, id);
      if FeedsTwoApps(s, id) {
        LeavingEdges(s, id);
      }
    }
  }

  /** A state is split exactly if it feeds two apps or more, and then all its pairs are. */
  lemma SplitIffSeveral(s: Split, id: string)
    requires id in ById(s.nodes) && Get(ById(s.nodes)[id], "type") == Str("state")
    ensures (exists k :: 0 <= k < |s.Order()| && s.Order()[k].0 == id) <==> FeedsTwoApps(s, id)
    ensures FeedsTwoApps(s, id) ==> forall app :: FeedsApp(s, id, app) <==> (id, app) in s.Order()
  {
    hide ById, SplitOrder, SplitEdges, LeadsToApp, FeedsApp, PairsOf, Ends.Pairs;
    var pairs := EndsOf(s.nodes).Pairs(s.edges);
    OrderIsSplit(s.nodes, s.edges);
    PairsAreFed(EndsOf(s.nodes), s.edges);
    SeveralPairs(pairs, id);
    forall app ensures (id, app) in pairs <==> FeedsApp(s, id, app) { FeedsIs(s, id, app); }
    if FeedsTwoApps(s, id) {
      var app, other :| app != other && FeedsApp(s, id, app) && FeedsApp(s, id, other);
      assert (id, app) in s.Order();
    }
    if k :| 0 <= k < |s.Order()| && s.Order()[k].0 == id {
      assert s.Order()[k] in pairs;
    }
  }

  /** Of a split state an edge is left exactly if it does not lead to an app. */
  lemma LeavingEdges(s: Split, id: string)
    requires s.Valid() && id in ById(s.nodes) && Get(ById(s.nodes)[id], "type") == Str("state") && FeedsTwoApps(s, id)
    ensures IsSource(id, s.EdgesAfter()) <==>
            exists i | 0 <= i < |s.edges| ::
              Get(s.edges[i], "source") == Str(id) && !exists app :: LeadsToApp(s, s.edges[i], id, app)
  {
    hide ById, SplitOrder, SplitEdges, LeadsToApp, FeedsApp, Ends.Pairs, FeedsTwoApps;
    SplitIffSeveral(s, id);
    LengthKept(s);
    forall i | 0 <= i < |s.edges|
      ensures Get(s.EdgesAfter()[i], "source") == Str(id) <==>
              Get(s.edges[i], "source") == Str(id) && !exists app :: LeadsToApp(s, s.edges[i], id, app)
    {
      LeavingEdge(s, id, i);
    }
  }

  lemma LeavingEdge(s: Split, id: string, i: nat)
    requires s.Valid() && id in ById(s.nodes) && Get(ById(s.nodes)[id], "type") == Str("state") && FeedsTwoApps(s, id)
    requires i < |s.edges| == |s.EdgesAfter()|
    ensures Get(s.EdgesAfter()[i], "source") == Str(id) <==>
            Get(s.edges[i], "source") == Str(id) && !exists app :: LeadsToApp(s, s.edges[i], id, app)
  {
    hide ById, SplitOrder, SplitEdges, FeedsTwoApps, Split.Valid;
    EdgeAfter(s, i);
    SplitIffSeveral(s, id);
    LookupIsListedIn(s, id);
    var feeds := EndsOf(s.nodes).Feeds(s.edges[i]);
    if Get(s.edges[i], "source") == Str(id) {
      if feeds.Some? {
        assert LeadsToApp(s, s.edges[i], id, feeds.value.1);
        assert FeedsApp(s, id, feeds.value.1);
      }
      if app :| LeadsToApp(s, s.edges[i], id, app) {
        assert feeds == Some((id, app));
      }
    }
  }

  /** No node has an id of the supply. */
  lemma LookupIsListedIn(s: Split, id: string)
    requires s.Valid() && id in ById(s.nodes)
    ensures forall n: nat :: s.uuids(n) != id
  {
    LookupIsListed(s.nodes);
    hide ById;
    var node := ById(s.nodes)[id];
    var i :| 0 <= i < |s.nodes| && s.nodes[i] == node;
  }
}
