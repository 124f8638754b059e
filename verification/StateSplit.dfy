/**
 Splitting the state nodes of a generated scene (`_split_state_nodes_by_app`,
 backend/app/api/ai_scenes.py:126-194): a state node that feeds several apps is replaced by one
 copy per app, by assigning `edge["source"]` in place. The method works on edge objects; its
 result is the pure `SplitEdges` and `SplitNodes`, about which the lemmas speak.
 */
module StateSplit {
  import opened Json
  import opened Options
  import opened PyText

  // ---- the graph --------------------------------------------------------------------

  /** Nodes by id, as the code's dict: dicts with a string id, a later node replacing an earlier. */
  function ById(nodes: seq<Json>): map<string, Json> {
    if nodes == [] then map[] else
      var node := nodes[|nodes| - 1];
      var before := ById(nodes[..|nodes| - 1]);
      if Get(node, "id").Str? then before[Get(node, "id").s := node] else before
  }

  function IdsOfType(nodes: seq<Json>, kind: string): set<string> {
    set id | id in ById(nodes) && Get(ById(nodes)[id], "type") == Str(kind)
  }

  /** A state node's id and the id of an app it feeds. */
  type Pair = (string, string)

  /** The states and apps of a graph. */
  datatype Ends = Ends(states: set<string>, apps: set<string>) {
    /** The state and app an edge connects, if it connects a state to an app. */
    function Feeds(edge: Json): Option<Pair> {
      var source, target := Get(edge, "source"), Get(edge, "target");
      if source.Str? && target.Str? && source.s in states && target.s in apps
      then Some((source.s, target.s)) else None
    }

    /** The connected pairs in order of first appearance. */
    function Pairs(edges: seq<Json>): seq<Pair> {
      if edges == [] then [] else
        var before := Pairs(edges[..|edges| - 1]);
        match Feeds(edges[|edges| - 1])
        case Some(p) => if p in before then before else before + [p]
        case None => before
    }
  }

  function EndsOf(nodes: seq<Json>): Ends {
    Ends(IdsOfType(nodes, "state"), IdsOfType(nodes, "app"))
  }

  function States(pairs: seq<Pair>): seq<string> {
    if pairs == [] then [] else
      var before := States(pairs[..|pairs| - 1]);
      var s := pairs[|pairs| - 1].0;
      if s in before then before else before + [s]
  }

  /** The pairs of one state. */
  function PairsOf(pairs: seq<Pair>, state: string): seq<Pair> {
    if pairs == [] then [] else
      PairsOf(pairs[..|pairs| - 1], state)
      + (if pairs[|pairs| - 1].0 == state then [pairs[|pairs| - 1]] else [])
  }

  /** The pairs to split, grouped by state: those of every state that feeds two apps or more. */
  function Splits(pairs: seq<Pair>, states: seq<string>): seq<Pair> {
    if states == [] then [] else
      var own := PairsOf(pairs, states[|states| - 1]);
      Splits(pairs, states[..|states| - 1]) + (if |own| <= 1 then [] else own)
  }

  function SplitOrder(nodes: seq<Json>, edges: seq<Json>): seq<Pair> {
    var pairs := EndsOf(nodes).Pairs(edges);
    Splits(pairs, States(pairs))
  }

  // ---- the result -------------------------------------------------------------------

  function Position(p: Pair, order: seq<Pair>): (i: nat)
    ensures i <= |order| && (i < |order| <==> p in order) && (i < |order| ==> order[i] == p)
  {
    if order == [] || order[0] == p then 0 else 1 + Position(p, order[1..])
  }

  function Redirect(edge: Json, id: string): Json
    requires edge.Obj?
  {
    Obj(edge.fields["source" := Str(id)])
  }

  /** An edge after the first `n` pairs of `order` were split. */
  function SplitEdge(ends: Ends, order: seq<Pair>, n: nat, edge: Json, uuids: nat -> string, drawn: nat): Json
    requires n <= |order|
  {
    match ends.Feeds(edge)
    case Some(p) =>
      if edge.Obj? && Position(p, order) < n then Redirect(edge, uuids(drawn + Position(p, order))) else edge
    case None => edge
  }

  function SplitEdges(nodes: seq<Json>, edges: seq<Json>, uuids: nat -> string, drawn: nat): seq<Json> {
    var order := SplitOrder(nodes, edges);
    seq(|edges|, i requires 0 <= i < |edges| => SplitEdge(EndsOf(nodes), order, |order|, edges[i], uuids, drawn))
  }

  predicate IsSource(id: string, edges: seq<Json>) {
    exists i | 0 <= i < |edges| :: Get(edges[i], "source") == Str(id)
  }

  function Copy(node: Json, id: string): Json {
    if node.Obj? then Obj(node.fields["id" := Str(id)]) else node
  }

  /** The copies made for the first `n` pairs. */
  function Copies(nodes: seq<Json>, order: seq<Pair>, n: nat, uuids: nat -> string, drawn: nat): seq<Json>
    requires n <= |order|
    requires forall i | 0 <= i < |order| :: order[i].0 in ById(nodes)
  {
    seq(n, i requires 0 <= i < n => Copy(ById(nodes)[order[i].0], uuids(drawn + i)))
  }

  /** The split states no edge leaves any more. */
  function Removed(order: seq<Pair>, edgesAfter: seq<Json>): set<string> {
    set i | 0 <= i < |order| && !IsSource(order[i].0, edgesAfter) :: order[i].0
  }

  function Keep(nodes: seq<Json>, removed: set<string>): seq<Json> {
    if nodes == [] then [] else
      (if Get(nodes[0], "id").Str? && Get(nodes[0], "id").s in removed then [] else [nodes[0]]) +
      Keep(nodes[1..], removed)
  }

  function SplitNodes(nodes: seq<Json>, edges: seq<Json>, uuids: nat -> string, drawn: nat): seq<Json> {
    var order := SplitOrder(nodes, edges);
    OrderIsSplit(nodes, edges);
    Keep(nodes, Removed(order, SplitEdges(nodes, edges, uuids, drawn)))
    + Copies(nodes, order, |order|, uuids, drawn)
  }

  // ---- facts about the order --------------------------------------------------------

  ghost predicate NoDuplicates<T>(s: seq<T>) {
    forall i, j | 0 <= i < j < |s| :: s[i] != s[j]
  }

  lemma {:induction false} PairsAreFed(ends: Ends, edges: seq<Json>)
    ensures var pairs := ends.Pairs(edges);
            NoDuplicates(pairs) &&
            forall p :: p in pairs <==> exists i | 0 <= i < |edges| :: ends.Feeds(edges[i]) == Some(p)
  {
    if edges != [] {
      var last := |edges| - 1;
      PairsAreFed(ends, edges[..last]);
      forall p ensures p in ends.Pairs(edges) <==> exists i | 0 <= i < |edges| :: ends.Feeds(edges[i]) == Some(p) {
        if i :| 0 <= i < |edges| && ends.Feeds(edges[i]) == Some(p) {
          if i < last { assert edges[..last][i] == edges[i]; }
        }
        if p in ends.Pairs(edges[..last]) {
          var i :| 0 <= i < last && ends.Feeds(edges[..last][i]) == Some(p);
          assert ends.Feeds(edges[i]) == Some(p);
        }
      }
    }
  }

  lemma {:induction false} StatesOfPairs(pairs: seq<Pair>)
    ensures NoDuplicates(States(pairs))
    ensures forall s :: s in States(pairs) <==> exists i | 0 <= i < |pairs| :: pairs[i].0 == s
  {
    if pairs != [] {
      var last := |pairs| - 1;
      StatesOfPairs(pairs[..last]);
      forall s ensures s in States(pairs) <==> exists i | 0 <= i < |pairs| :: pairs[i].0 == s {
        if i :| 0 <= i < last && pairs[i].0 == s { assert pairs[..last][i].0 == s; }
        if s in States(pairs[..last]) {
          var i :| 0 <= i < last && pairs[..last][i].0 == s;
          assert pairs[i].0 == s;
        }
      }
    }
  }

  lemma {:induction false} PairsOfState(pairs: seq<Pair>, state: string)
    requires NoDuplicates(pairs)
    ensures NoDuplicates(PairsOf(pairs, state))
    ensures forall p :: p in PairsOf(pairs, state) <==> p in pairs && p.0 == state
  {
    if pairs != [] {
      var last := |pairs| - 1;
      assert pairs == pairs[..last] + [pairs[last]];
      assert pairs[last] !in pairs[..last];
      PairsOfState(pairs[..last], state);
    }
  }

  lemma {:induction false} SplitsOfStates(pairs: seq<Pair>, states: seq<string>)
    requires NoDuplicates(pairs) && NoDuplicates(states)
    ensures NoDuplicates(Splits(pairs, states))
    ensures forall p :: p in Splits(pairs, states) <==> p in pairs && p.0 in states && |PairsOf(pairs, p.0)| > 1
  {
    if states != [] {
      var last := |states| - 1;
      assert states == states[..last] + [states[last]];
      assert states[last] !in states[..last];
      SplitsOfStates(pairs, states[..last]);
      PairsOfState(pairs, states[last]);
    }
  }

  /** Exactly the pairs of states feeding several apps are split, each once. */
  lemma OrderIsSplit(nodes: seq<Json>, edges: seq<Json>)
    ensures var order := SplitOrder(nodes, edges);
            var pairs := EndsOf(nodes).Pairs(edges);
            NoDuplicates(order) &&
            (forall p :: p in order <==> p in pairs && |PairsOf(pairs, p.0)| > 1) &&
            (forall i | 0 <= i < |order| :: order[i].0 in ById(nodes) && order[i].0 in EndsOf(nodes).states)
  {
    hide ById;
    var ends := EndsOf(nodes);
    var pairs := ends.Pairs(edges);
    var order := SplitOrder(nodes, edges);
    PairsAreFed(ends, edges);
    StatesOfPairs(pairs);
    SplitsOfStates(pairs, States(pairs));
    forall p | p in pairs ensures p.0 in States(pairs) {
      var i :| 0 <= i < |pairs| && pairs[i] == p;
    }
    forall i | 0 <= i < |order| ensures order[i].0 in ends.states {
      assert order[i] in pairs;
    }
  }

  // ---- the code ---------------------------------------------------------------------

  /** An edge dict. */
  class Edge {
    var fields: map<string, Json>

    constructor (fields: map<string, Json>)
      ensures this.fields == fields
    {
      this.fields := fields;
    }
  }

  /** An item of the edge list: a dict, or something else the code skips. */
  datatype EdgeItem = Dict(edge: Edge) | Other(value: Json)

  ghost function Objects(items: seq<EdgeItem>): set<Edge> {
    set i | 0 <= i < |items| && items[i].Dict? :: items[i].edge
  }

  /** In a decoded payload every dict is an object of its own. */
  ghost predicate Decoded(items: seq<EdgeItem>) {
    (forall i, j | 0 <= i < j < |items| && items[i].Dict? && items[j].Dict? :: items[i].edge != items[j].edge) &&
    (forall i | 0 <= i < |items| && items[i].Other? :: !items[i].value.Obj?)
  }

  function Value(item: EdgeItem): Json
    reads if item.Dict? then {item.edge} else {}
  {
    match item
    case Dict(edge) => Obj(edge.fields)
    case Other(value) => value
  }

  function Values(items: seq<EdgeItem>): (r: seq<Json>)
    reads Objects(items)
    ensures |r| == |items|
    ensures forall i | 0 <= i < |items| :: r[i] == Value(items[i])
  {
    if items == [] then [] else Values(items[..|items| - 1]) + [Value(items[|items| - 1])]
  }

  /** `edges_by_state`: the positions of each connected pair's edges, among the first `n`. */
  ghost predicate Grouped(ends: Ends, values: seq<Json>, n: nat, groups: map<Pair, seq<nat>>)
    requires n <= |values|
  {
    (forall p :: p in groups <==> p in ends.Pairs(values[..n])) &&
    (forall p, m | p in groups && 0 <= m < |groups[p]| ::
        groups[p][m] < n && ends.Feeds(values[groups[p][m]]) == Some(p)) &&
    (forall i | 0 <= i < n && ends.Feeds(values[i]).Some? ::
       ends.Feeds(values[i]).value in groups && i in groups[ends.Feeds(values[i]).value])
  }

  function AddTo(groups: map<Pair, seq<nat>>, p: Pair, i: nat): map<Pair, seq<nat>> {
    groups[p := (if p in groups then groups[p] else []) + [i]]
  }

  lemma GroupedStep(ends: Ends, values: seq<Json>, n: nat, groups: map<Pair, seq<nat>>)
    requires n < |values| && Grouped(ends, values, n, groups)
    ensures match ends.Feeds(values[n])
            case Some(p) => Grouped(ends, values, n + 1, AddTo(groups, p, n))
            case None => Grouped(ends, values, n + 1, groups)
  {
    hide Ends.Feeds;
    PairsAreFed(ends, values[..n]);
    assert values[..n + 1][..n] == values[..n];
    if ends.Feeds(values[n]).Some? {
      var p := ends.Feeds(values[n]).value;
      var after := AddTo(groups, p, n);
      assert n in after[p] && p in groups ==> forall i | i in groups[p] :: i in after[p];
      assert after[p][|after[p]| - 1] == n;
    }
  }

  method GroupEdges(ends: Ends, items: seq<EdgeItem>) returns (pairs: seq<Pair>, groups: map<Pair, seq<nat>>)
    ensures pairs == ends.Pairs(Values(items)) && Grouped(ends, Values(items), |items|, groups)
  {
    hide Ends.Feeds;
    pairs, groups := [], map[];
    ghost var values := Values(items);
    for i := 0 to |items|
      invariant pairs == ends.Pairs(values[..i]) && Grouped(ends, values, i, groups)
    {
      assert values[..i + 1][..i] == values[..i];
      GroupedStep(ends, values, i, groups);
      match ends.Feeds(Value(items[i])) {
        case Some(p) =>
          if p !in groups {
            pairs := pairs + [p];
          }
          groups := AddTo(groups, p, i);
        case None =>
      }
    }
    assert values[..|items|] == values;
    assert values == Values(items);
  }

  /** Assigns `edge["source"]` of one pair's edges. */
  method RedirectEdges(items: seq<EdgeItem>, group: seq<nat>, id: string)
    requires Decoded(items)
    requires forall i | i in group :: i < |items| && items[i].Dict?
    modifies Objects(items)
    ensures forall i | 0 <= i < |items| ::
              Value(items[i]) == if i in group then Redirect(old(Value(items[i])), id) else old(Value(items[i]))
  {
    for m := 0 to |group|
      invariant forall i | 0 <= i < |items| ::
          Value(items[i]) == if i in group[..m] then Redirect(old(Value(items[i])), id) else old(Value(items[i]))
    {
      assert group[m] in group && group[..m + 1] == group[..m] + [group[m]];
      var edge := items[group[m]].edge;
      assert edge in Objects(items);
      edge.fields := edge.fields["source" := Str(id)];
    }
    assert group[..|group|] == group;
  }

  lemma SplitStep(ends: Ends, order: seq<Pair>, k: nat, values: seq<Json>, uuids: nat -> string, drawn: nat)
    requires k < |order| && NoDuplicates(order)
    ensures forall i | 0 <= i < |values| ::
              ends.Feeds(values[i]) != Some(order[k]) ==>
                SplitEdge(ends, order, k + 1, values[i], uuids, drawn) ==
                    SplitEdge(ends, order, k, values[i], uuids, drawn)
    ensures forall i | 0 <= i < |values| ::
              ends.Feeds(values[i]) == Some(order[k]) ==>
                values[i].Obj? && SplitEdge(ends, order, k, values[i], uuids, drawn) == values[i] &&
                SplitEdge(ends, order, k + 1, values[i], uuids, drawn) == Redirect(values[i], uuids(drawn + k))
  {
    assert forall p | p in order :: Position(p, order) == k <==> p == order[k];
  }

  lemma SplitNone(ends: Ends, order: seq<Pair>, values: seq<Json>, uuids: nat -> string, drawn: nat)
    ensures forall i | 0 <= i < |values| :: SplitEdge(ends, order, 0, values[i], uuids, drawn) == values[i]
  {}

  lemma GroupOf(ends: Ends, values: seq<Json>, groups: map<Pair, seq<nat>>, p: Pair)
    requires Grouped(ends, values, |values|, groups) && p in ends.Pairs(values)
    ensures p in groups && forall i: nat :: i in groups[p] <==> i < |values| && ends.Feeds(values[i]) == Some(p)
  {
    hide Ends.Feeds, Ends.Pairs;
    assert values[..|values|] == values;
    forall i: nat | i in groups[p] ensures i < |values| && ends.Feeds(values[i]) == Some(p) {
      var m :| 0 <= m < |groups[p]| && groups[p][m] == i;
    }
  }

  /** `_split_state_nodes_by_app` on one scene: the edge objects change in place, the new node list
      is returned. */
  method SplitStateNodes(nodes: seq<Json>, items: seq<EdgeItem>, uuids: nat -> string, drawn0: nat)
    returns (result: seq<Json>, drawn: nat)
    requires Decoded(items)
    modifies Objects(items)
    ensures Values(items) == SplitEdges(nodes, old(Values(items)), uuids, drawn0)
    ensures result == SplitNodes(nodes, old(Values(items)), uuids, drawn0)
    ensures drawn == drawn0 + |SplitOrder(nodes, old(Values(items)))|
  {
    hide ById, Ends.Feeds, Ends.Pairs, Splits, SplitEdge, Grouped, PairsOf, Redirect, NoDuplicates;
    var nodeById, ends := ById(nodes), EndsOf(nodes);
    ghost var values := Values(items);
    ghost var order0 := SplitOrder(nodes, values);
    OrderIsSplit(nodes, values);
    var pairs, groups := GroupEdges(ends, items);
    var order := Splits(pairs, States(pairs));
    assert order == order0;
    var copies: seq<Json> := [];
    SplitNone(ends, order, values, uuids, drawn0);
    for k := 0 to |order|
      invariant copies == Copies(nodes, order, k, uuids, drawn0)
      invariant forall i | 0 <= i < |items| :: Value(items[i]) == SplitEdge(ends, order, k, values[i], uuids, drawn0)
    {
      SplitStep(ends, order, k, values, uuids, drawn0);
      assert order[k] in pairs;
      GroupOf(ends, values, groups, order[k]);
      var id := uuids(drawn0 + k);
      copies := copies + [Copy(nodeById[order[k].0], id)];
      RedirectEdges(items, groups[order[k]], id);
    }
    drawn := drawn0 + |order|;
    assert Values(items) == SplitEdges(nodes, values, uuids, drawn0);
    var removed := Removed(order, Values(items));
    result := Keep(nodes, removed) + copies;
  }
}
