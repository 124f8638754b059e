/**
 The websocket fan-out (backend/app/websockets.py:14-151): every backend instance keeps its own
 list of connections and, beside it, a map of the projects each connection may see. A message is
 broadcast to the instance's own connections and put on a shared channel, from which the other
 instances broadcast it to theirs.
 */
module Broadcast {
  import opened Options

  type Socket = nat

  /** The projects a connection may see; `None` is full access. */
  type Access = Option<set<nat>>

  const PROJECT_SCOPED_EVENTS := {"ai_scene_log", "delete_frame", "frame_rendered", "new_frame", "new_log",
                                  "new_metrics", "new_scene_image", "update_frame"}

  /** What `_message_project_id` reads out of a message. */
  datatype Topic = Topic(event: Option<string>, project: Option<nat>)

  predicate Permits(access: Access, topic: Topic) {
    access.None? ||
    if topic.project.None? then topic.event.None? || topic.event.value !in PROJECT_SCOPED_EVENTS
    else topic.project.value in access.value
  }

  /** Who may see what: full access everything, others their projects, and what is of no project unless
      it is one of the eight events that should be. */
  lemma PermitsExactly(access: Access, topic: Topic)
    ensures Permits(access, topic) <==>
            access.None? ||
            (topic.project.Some? && topic.project.value in access.value) ||
            (topic.project.None? &&
             topic.event !in {Some("ai_scene_log"), Some("delete_frame"), Some("frame_rendered"), Some("new_frame"),
                              Some("new_log"), Some("new_metrics"), Some("new_scene_image"), Some("update_frame")})
  {}

  // ---- one instance -----------------------------------------------------------------

  function IndexOf(s: seq<Socket>, x: Socket): (i: nat)
    ensures i <= |s| && (i < |s| <==> x in s) && (i < |s| ==> s[i] == x)
  {
    if s == [] || s[0] == x then 0 else 1 + IndexOf(s[1..], x)
  }

  /** `list.remove`, when the element is there. */
  function RemoveFirst(s: seq<Socket>, x: Socket): seq<Socket> {
    var i := IndexOf(s, x);
    if i < |s| then s[..i] + s[i + 1..] else s
  }

  datatype Registry = Registry(active: seq<Socket>, projects: map<Socket, Access>) {
    /** `_can_receive`: a connection missing from the map may receive everything. */
    predicate CanReceive(c: Socket, topic: Topic) {
      c !in projects || Permits(projects[c], topic)
    }

    function Connect(c: Socket, access: Access): Registry {
      Registry(active + [c], projects[c := access])
    }

    function Disconnect(c: Socket): Registry {
      Registry(RemoveFirst(active, c), projects - {c})
    }

    function DropAll(stale: seq<Socket>): Registry {
      if stale == [] then this else DropAll(stale[..|stale| - 1]).Disconnect(stale[|stale| - 1])
    }

    function Receivers(topic: Topic): seq<Socket> {
      Chosen(active, topic)
    }

    function Chosen(from: seq<Socket>, topic: Topic): seq<Socket> {
      if from == [] then [] else
        Chosen(from[..|from| - 1], topic) + (if CanReceive(from[|from| - 1], topic) then [from[|from| - 1]] else [])
    }

    /** No connection is listed twice, and the list and the map are of the same connections. */
    ghost predicate Valid() {
      (forall i, j | 0 <= i < j < |active| :: active[i] != active[j]) &&
      (forall c :: c in active <==> c in projects)
    }
  }

  class ConnectionManager {
    var active: seq<Socket>
    var projects: map<Socket, Access>

    constructor ()
      ensures Abstract() == Registry([], map[])
    {
      active, projects := [], map[];
    }

    ghost function Abstract(): Registry
      reads this
    {
      Registry(active, projects)
    }

    method Connect(c: Socket, access: Access)
      modifies this
      ensures Abstract() == old(Abstract()).Connect(c, access)
    {
      active := active + [c];
      projects := projects[c := access];
    }

    method Disconnect(c: Socket)
      modifies this
      ensures Abstract() == old(Abstract()).Disconnect(c)
    {
      if c in active {
        active := RemoveFirst(active, c);
      }
      projects := projects - {c};
    }

    /** The first locked section of `broadcast`. */
    method SelectReceivers(topic: Topic) returns (connections: seq<Socket>)
      ensures connections == Abstract().Receivers(topic)
    {
      connections := [];
      for i := 0 to |active|
        invariant connections == Abstract().Chosen(active[..i], topic)
      {
        assert active[..i + 1][..i] == active[..i];
        if Registry(active, projects).CanReceive(active[i], topic) {
          connections := connections + [active[i]];
        }
      }
      assert active[..|active|] == active;
    }

    /** The second locked section of `broadcast`: connections that could not be sent to. */
    method DropStale(stale: seq<Socket>)
      modifies this
      ensures Abstract() == old(Abstract()).DropAll(stale)
    {
      for i := 0 to |stale|
        invariant Abstract() == old(Abstract()).DropAll(stale[..i])
      {
        assert stale[..i + 1][..i] == stale[..i];
        Disconnect(stale[i]);
      }
      assert stale[..|stale|] == stale;
    }
  }

  lemma ConnectStaysValid(r: Registry, c: Socket, access: Access)
    requires r.Valid() && c !in r.active
    ensures r.Connect(c, access).Valid()
  {}

  lemma DisconnectStaysValid(r: Registry, c: Socket)
    requires r.Valid()
    ensures r.Disconnect(c).Valid()
    ensures forall d :: d in r.Disconnect(c).active <==> d in r.active && d != c
  {
    RemoveFirstLeavesOthers(r.active, c);
  }

  lemma RemoveFirstLeavesOthers(s: seq<Socket>, x: Socket)
    requires forall i, j | 0 <= i < j < |s| :: s[i] != s[j]
    ensures var after := RemoveFirst(s, x);
            (forall i, j | 0 <= i < j < |after| :: after[i] != after[j]) &&
            forall d :: d in after <==> d in s && d != x
  {
    var i, after := IndexOf(s, x), RemoveFirst(s, x);
    if i < |s| {
      hide IndexOf;
      assert after == s[..i] + s[i + 1..];
      assert forall k | 0 <= k < |after| :: after[k] == s[if k < i then k else k + 1];
      forall d | d in s && d != x ensures d in after {
        var k :| 0 <= k < |s| && s[k] == d;
        assert after[if k < i then k else k - 1] == d;
      }
    }
  }

  lemma {:induction false} DropAllStaysValid(r: Registry, stale: seq<Socket>)
    requires r.Valid()
    ensures r.DropAll(stale).Valid()
    ensures forall d :: d in r.DropAll(stale).active <==> d in r.active && d !in stale
  {
    if stale != [] {
      var last := stale[|stale| - 1];
      DropAllStaysValid(r, stale[..|stale| - 1]);
      DisconnectStaysValid(r.DropAll(stale[..|stale| - 1]), last);
      assert stale == stale[..|stale| - 1] + [last];
    }
  }

  lemma {:induction false} ChosenAreListed(r: Registry, from: seq<Socket>, topic: Topic)
    requires forall i, j | 0 <= i < j < |from| :: from[i] != from[j]
    ensures var chosen := r.Chosen(from, topic);
            (forall c :: c in chosen <==> c in from && r.CanReceive(c, topic)) &&
            (forall i, j | 0 <= i < j < |chosen| :: chosen[i] != chosen[j])
  {
    if from != [] {
      ChosenAreListed(r, from[..|from| - 1], topic);
      assert from == from[..|from| - 1] + [from[|from| - 1]];
    }
  }

  /** Exactly the listed connections that may see the message are chosen, each once. */
  lemma ReceiversAreExact(r: Registry, topic: Topic)
    requires r.Valid()
    ensures var chosen := r.Receivers(topic);
            (forall c :: c in chosen <==> c in r.projects && Permits(r.projects[c], topic)) &&
            (forall i, j | 0 <= i < j < |chosen| :: chosen[i] != chosen[j])
  {
    ChosenAreListed(r, r.active, topic);
  }

  // ---- sockets that connect more than once -------------------------------------------

  datatype Op = Join(c: Socket, access: Access) | Leave(c: Socket)

  function History(ops: seq<Op>): Registry {
    if ops == [] then Registry([], map[]) else
      var before := History(ops[..|ops| - 1]);
      match ops[|ops| - 1]
      case Join(c, access) => before.Connect(c, access)
      case Leave(c) => before.Disconnect(c)
  }

  function CountIn(s: seq<Socket>, c: Socket): nat {
    multiset(s)[c]
  }

  /** How often a socket has connected beyond its disconnects. */
  function Balance(ops: seq<Op>, c: Socket): nat {
    if ops == [] then 0 else
      var before := Balance(ops[..|ops| - 1], c);
      if ops[|ops| - 1].c != c then before
      else if ops[|ops| - 1].Join? then before + 1
      else if before == 0 then 0 else before - 1
  }

  /** The socket's latest operation, if any, was to connect. */
  predicate JoinedLast(ops: seq<Op>, c: Socket) {
    ops != [] && if ops[|ops| - 1].c == c then ops[|ops| - 1].Join? else JoinedLast(ops[..|ops| - 1], c)
  }

  lemma RemoveFirstCounts(s: seq<Socket>, x: Socket)
    ensures multiset(RemoveFirst(s, x)) == multiset(s) - multiset{x}
  {
    var i := IndexOf(s, x);
    hide IndexOf;
    if i < |s| {
      assert s == s[..i] + [x] + s[i + 1..];
      LeavingOutCounts(s[..i], x, s[i + 1..]);
    }
  }

  lemma LeavingOutCounts(a: seq<Socket>, x: Socket, b: seq<Socket>)
    ensures multiset(a + [x] + b) - multiset{x} == multiset(a + b)
  {
    assert multiset(a + [x] + b) == multiset(a + [x]) + multiset(b) == multiset(a) + multiset{x} + multiset(b);
  }

  lemma {:induction false} HistoryCounts(ops: seq<Op>, c: Socket)
    ensures CountIn(History(ops).active, c) == Balance(ops, c)
    ensures c in History(ops).projects <==> JoinedLast(ops, c)
  {
    if ops != [] {
      var before := ops[..|ops| - 1];
      HistoryCounts(before, c);
      RemoveFirstCounts(History(before).active, ops[|ops| - 1].c);
    }
  }

  /** A listed connection without an entry is sent every message, and it gets there exactly by
      connecting more often than it disconnects and disconnecting last. */
  lemma DoubleConnectLeaks(ops: seq<Op>, c: Socket)
    ensures c in History(ops).active && c !in History(ops).projects <==> Balance(ops, c) > 0 && !JoinedLast(ops, c)
    ensures Balance(ops, c) > 0 && !JoinedLast(ops, c) ==> forall topic :: c in History(ops).Receivers(topic)
  {
    var r := History(ops);
    HistoryCounts(ops, c);
    assert c in r.active <==> c in multiset(r.active);
    forall topic | c in r.active && c !in r.projects ensures c in r.Receivers(topic) {
      ChosenHold(r, r.active, topic, c);
    }
  }

  lemma {:induction false} ChosenHold(r: Registry, from: seq<Socket>, topic: Topic, c: Socket)
    ensures c in r.Chosen(from, topic) <==> c in from && r.CanReceive(c, topic)
  {
    if from != [] {
      ChosenHold(r, from[..|from| - 1], topic, c);
      assert from == from[..|from| - 1] + [from[|from| - 1]];
    }
  }

  // ---- many instances ---------------------------------------------------------------

  type Instance = string

  /** A published message: where, what about, and whether it is on the channel yet. */
  datatype Message = Message(origin: Instance, topic: Topic, onChannel: bool)

  /** A connection's instance and access, fixed when it connects. */
  datatype Grant = Grant(home: Instance, access: Access)

  /** `pending` are the channel's deliveries still to come; `log` counts what was sent to whom. */
  datatype World = World(
    registries: map<Instance, Registry>, grants: map<Socket, Grant>, messages: map<nat, Message>,
    pending: set<(nat, Instance)>, log: map<(nat, Socket), nat>)

  datatype Event =
    | Connect(at: Instance, c: Socket, access: Access)
    | Disconnect(at: Instance, c: Socket)
    | DropStale(at: Instance, stale: seq<Socket>)
    | PublishLocally(at: Instance, m: nat, topic: Topic)
    | PublishToChannel(m: nat)
    | Deliver(m: nat, at: Instance)

  function Sent(log: map<(nat, Socket), nat>, m: nat, c: Socket): nat {
    if (m, c) in log then log[(m, c)] else 0
  }

  function SendAll(log: map<(nat, Socket), nat>, m: nat, to: seq<Socket>): map<(nat, Socket), nat> {
    if to == [] then log else
      var c, before := to[|to| - 1], SendAll(log, m, to[..|to| - 1]);
      before[(m, c) := Sent(before, m, c) + 1]
  }

  /** A socket connects once; a message has an id of its own; the channel hands every message once
      to every instance. */
  ghost predicate Possible(w: World, e: Event) {
    match e
    case Connect(at, c, _) => at in w.registries && c !in w.grants
    case Disconnect(at, _) => at in w.registries
    case DropStale(at, _) => at in w.registries
    case PublishLocally(at, m, _) => at in w.registries && m !in w.messages
    case PublishToChannel(m) => m in w.messages && !w.messages[m].onChannel
    case Deliver(m, at) => (m, at) in w.pending && m in w.messages && at in w.registries
  }

  ghost function Next(w: World, e: Event): World
    requires Possible(w, e)
  {
    match e
    case Connect(at, c, access) =>
      w.(registries := w.registries[at := w.registries[at].Connect(c, access)],
         grants := w.grants[c := Grant(at, access)])
    case Disconnect(at, c) => w.(registries := w.registries[at := w.registries[at].Disconnect(c)])
    case DropStale(at, stale) => w.(registries := w.registries[at := w.registries[at].DropAll(stale)])
    case PublishLocally(at, m, topic) =>
      w.(messages := w.messages[m := Message(at, topic, false)],
         log := SendAll(w.log, m, w.registries[at].Receivers(topic)))
    case PublishToChannel(m) =>
      w.(messages := w.messages[m := w.messages[m].(onChannel := true)],
         pending := w.pending + set at | at in w.registries :: (m, at))
    case Deliver(m, at) =>
      // an instance skips what carries its own id
      if w.messages[m].origin == at then w.(pending := w.pending - {(m, at)})
      else w.(pending := w.pending - {(m, at)},
              log := SendAll(w.log, m, w.registries[at].Receivers(w.messages[m].topic)))
  }

  /** The instance had its turn with the message. */
  predicate Reached(w: World, m: nat, at: Instance) {
    m in w.messages && (w.messages[m].origin == at || (w.messages[m].onChannel && (m, at) !in w.pending))
  }

  /** Registries are in order and hold each connection at its home, with its own access. */
  ghost predicate RegistriesValid(w: World) {
    forall at | at in w.registries ::
      w.registries[at].Valid() &&
      forall c | c in w.registries[at].projects ::
        c in w.grants && w.grants[c] == Grant(at, w.registries[at].projects[c])
  }

  /** What was sent: once at most, only to whom it is permitted, only where the message got to. */
  ghost predicate LogValid(w: World) {
    (forall m, at | (m, at) in w.pending :: m in w.messages && w.messages[m].onChannel) &&
    forall m, c :: Sent(w.log, m, c) <= 1 &&
      (Sent(w.log, m, c) == 1 ==>
         c in w.grants && Reached(w, m, w.grants[c].home) && Permits(w.grants[c].access, w.messages[m].topic))
  }

  lemma {:induction false} SendAllCounts(log: map<(nat, Socket), nat>, m: nat, to: seq<Socket>)
    requires forall i, j | 0 <= i < j < |to| :: to[i] != to[j]
    ensures forall m', c :: Sent(SendAll(log, m, to), m', c) == Sent(log, m', c) + if m' == m && c in to then 1 else 0
  {
    if to != [] {
      SendAllCounts(log, m, to[..|to| - 1]);
      assert to == to[..|to| - 1] + [to[|to| - 1]];
    }
  }

  lemma NextKeepsRegistries(w: World, e: Event)
    requires Possible(w, e) && RegistriesValid(w)
    ensures RegistriesValid(Next(w, e))
  {
    match e
    case Connect(at, c, access) => ConnectStaysValid(w.registries[at], c, access);
    case Disconnect(at, c) => DisconnectStaysValid(w.registries[at], c);
    case DropStale(at, stale) =>
      DropAllStaysValid(w.registries[at], stale);
      DropAllOnlyForgets(w.registries[at], stale);
    case _ =>
  }

  lemma {:induction false} DropAllOnlyForgets(r: Registry, stale: seq<Socket>)
    ensures forall c | c in r.DropAll(stale).projects ::
            c in r.projects && r.DropAll(stale).projects[c] == r.projects[c]
  {
    if stale != [] {
      DropAllOnlyForgets(r, stale[..|stale| - 1]);
    }
  }

  lemma NextKeepsLog(w: World, e: Event)
    requires Possible(w, e) && RegistriesValid(w) && LogValid(w)
    ensures LogValid(Next(w, e))
  {
    match e
    case PublishLocally(at, m, topic) => BroadcastKeepsLog(w, m, at, topic);
    case Deliver(m, at) =>
      if w.messages[m].origin != at {
        BroadcastKeepsLog(w, m, at, w.messages[m].topic);
      }
    case _ =>
  }

  /** One instance's broadcast counts one more for exactly its permitted connections. */
  lemma BroadcastKeepsLog(w: World, m: nat, at: Instance, topic: Topic)
    requires RegistriesValid(w) && at in w.registries
    ensures forall m', c ::
      Sent(SendAll(w.log, m, w.registries[at].Receivers(topic)), m', c) == Sent(w.log, m', c) +
        if m' == m && c in w.registries[at].projects && Permits(w.registries[at].projects[c], topic) then 1 else 0
  {
    ReceiversAreExact(w.registries[at], topic);
    SendAllCounts(w.log, m, w.registries[at].Receivers(topic));
  }

  // ---- runs -------------------------------------------------------------------------

  ghost predicate PossibleRun(w: World, events: seq<Event>)
    decreases |events|, 0
  {
    events == [] ||
    (PossibleRun(w, events[..|events| - 1]) && Possible(Run(w, events[..|events| - 1]), events[|events| - 1]))
  }

  ghost function Run(w: World, events: seq<Event>): World
    requires PossibleRun(w, events)
    decreases |events|, 1
  {
    if events == [] then w else Next(Run(w, events[..|events| - 1]), events[|events| - 1])
  }

  ghost predicate Fresh(w: World) {
    (forall at | at in w.registries :: w.registries[at] == Registry([], map[])) &&
    w.grants == map[] && w.messages == map[] && w.pending == {} && w.log == map[]
  }

  lemma {:induction false} RunsStayValid(start: World, events: seq<Event>)
    requires Fresh(start) && PossibleRun(start, events)
    ensures RegistriesValid(Run(start, events)) && LogValid(Run(start, events))
  {
    if events != [] {
      var before := events[..|events| - 1];
      RunsStayValid(start, before);
      NextKeepsRegistries(Run(start, before), events[|events| - 1]);
      NextKeepsLog(Run(start, before), events[|events| - 1]);
    }
  }

  /** In no run is a connection sent a message of a project it may not see, or any message twice. */
  lemma NothingLeaksOrRepeats(start: World, events: seq<Event>, m: nat, c: Socket)
    requires Fresh(start) && PossibleRun(start, events)
    ensures var w := Run(start, events);
            Sent(w.log, m, c) <= 1 &&
            (Sent(w.log, m, c) == 1 ==>
               m in w.messages && c in w.grants && Permits(w.grants[c].access, w.messages[m].topic))
  {
    RunsStayValid(start, events);
  }

  ghost predicate Registered(w: World, c: Socket) {
    c in w.grants && w.grants[c].home in w.registries && c in w.registries[w.grants[c].home].projects
  }

  /** The connection is registered in every state of the run from the `from`th on. */
  ghost predicate RegisteredSince(start: World, events: seq<Event>, from: nat, c: Socket)
    requires PossibleRun(start, events)
  {
    from <= |events| ==>
      Registered(Run(start, events), c) &&
      (from < |events| ==> RegisteredSince(start, events[..|events| - 1], from, c))
  }

  /** A permitted connection got the message if its instance has had its turn. */
  ghost predicate ServedOnceReached(w: World, m: nat, c: Socket) {
    (c in w.grants && m in w.messages && Reached(w, m, w.grants[c].home) &&
     Permits(w.grants[c].access, w.messages[m].topic)) ==>
    Sent(w.log, m, c) == 1
  }

  lemma NextServes(w: World, e: Event, m: nat, c: Socket)
    requires Possible(w, e) && RegistriesValid(w) && LogValid(w) && Registered(w, c) && ServedOnceReached(w, m, c)
    ensures ServedOnceReached(Next(w, e), m, c)
  {
    match e
    case PublishLocally(at, n, topic) => BroadcastKeepsLog(w, n, at, topic);
    case Deliver(n, at) =>
      if w.messages[n].origin != at {
        BroadcastKeepsLog(w, n, at, w.messages[n].topic);
      }
    case _ =>
  }

  lemma {:induction false} ServedThroughout(start: World, events: seq<Event>, from: nat, m: nat, c: Socket)
    requires Fresh(start) && PossibleRun(start, events) && from <= |events|
    requires RegisteredSince(start, events, from, c)
    requires PossibleRun(start, events[..from]) && m !in Run(start, events[..from]).messages
    ensures ServedOnceReached(Run(start, events), m, c)
    decreases |events|
  {
    if from < |events| {
      var before := events[..|events| - 1];
      assert before[..from] == events[..from];
      ServedThroughout(start, before, from, m, c);
      RunsStayValid(start, before);
      RegisteredNow(start, before, from, c);
      NextServes(Run(start, before), events[|events| - 1], m, c);
    } else {
      assert events[..from] == events;
    }
  }

  lemma RegisteredNow(start: World, events: seq<Event>, from: nat, c: Socket)
    requires PossibleRun(start, events) && from <= |events| && RegisteredSince(start, events, from, c)
    ensures Registered(Run(start, events), c)
  {}

  /** Exactly once across all instances: a connection registered since before a message was published
      has, when the channel has handed it to everyone, been sent it once if it may see it, else never. */
  lemma ExactlyOnce(start: World, events: seq<Event>, from: nat, m: nat, c: Socket)
    requires Fresh(start) && PossibleRun(start, events) && from <= |events|
    requires RegisteredSince(start, events, from, c)
    requires PossibleRun(start, events[..from]) && m !in Run(start, events[..from]).messages
    requires var w := Run(start, events);
             m in w.messages && w.messages[m].onChannel && forall at :: (m, at) !in w.pending
    ensures var w := Run(start, events);
            Sent(w.log, m, c) == if Permits(w.grants[c].access, w.messages[m].topic) then 1 else 0
  {
    ServedThroughout(start, events, from, m, c);
    RunsStayValid(start, events);
    RegisteredNow(start, events, from, c);
  }
}
