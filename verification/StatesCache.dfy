/**
 The cached scene states of one frame in Redis (backend/app/api/frames.py:322-425, 933-1009):
 background loads refresh the record under a lock that may expire, and an event that changes the
 frame's scene marks the record stale. A load that began before a mark must not undo it.

 Every mark, every schedule and every check-and-write at the end of a load is one step; the clock
 moves on with each step.
 */
module StatesCache {
  import opened Options

  /** The state of each scene, by scene id. */
  type States = map<string, string>

  datatype Record = Record(sceneId: string, states: States, fetchedAt: int, error: Option<string>)

  /** What a load brings back. */
  datatype Outcome = Loaded(sceneId: string, states: States) | Failed(message: string) | FrameMissing

  datatype Keys = Keys(record: Option<Record>, active: Option<string>, invalidatedAt: Option<int>, locked: bool) {

    function Mark(sceneId: Option<string>, now: int): Keys {
      this.(active := if sceneId.Some? then sceneId else active,
            record := if record.None? then None else
                        Some(Record(if sceneId.Some? then sceneId.value else record.value.sceneId,
                                    record.value.states, 0, None)),
            invalidatedAt := Some(now))
    }

    function Finish(startedAt: int, outcome: Outcome, now: int): Keys {
      match outcome
      case FrameMissing => this
      case Failed(message) =>
        var sceneId := if record.Some? then record.value.sceneId else "";
        this.(record := Some(Record(
                if sceneId != "" then sceneId else if active.Some? then active.value else "",
                if record.Some? then record.value.states else map[], now, Some(message))),
              locked := false)
      case Loaded(sceneId, states) =>
        if invalidatedAt.Some? && invalidatedAt.value > startedAt then this.(locked := false)
        else this.(record := Some(Record(sceneId, states, now, None)),
                   active := if sceneId != "" then Some(sceneId) else active,
                   locked := false)
    }

    /** Answering a request from the cache also publishes the cached scene as the active one. */
    function Serve(): Keys {
      if record.Some? && record.value.sceneId != "" then this.(active := Some(record.value.sceneId)) else this
    }
  }

  class FrameStates {
    var record: Option<Record>
    var active: Option<string>
    var invalidatedAt: Option<int>
    var locked: bool

    constructor ()
      ensures Abstract() == Keys(None, None, None, false)
    {
      record, active, invalidatedAt, locked := None, None, None, false;
    }

    ghost function Abstract(): Keys
      reads this
    {
      Keys(record, active, invalidatedAt, locked)
    }

    /** `_mark_frame_states_cache_stale`. */
    method MarkStale(sceneId: Option<string>, now: int)
      modifies this
      ensures Abstract() == old(Abstract()).Mark(sceneId, now)
    {
      if sceneId.Some? {
        active := sceneId;
      }
      if record.Some? {
        var payload := Record(record.value.sceneId, record.value.states, 0, None);
        if sceneId.Some? {
          payload := payload.(sceneId := sceneId.value);
        }
        record := Some(payload);
      }
      invalidatedAt := Some(now);
    }

    /** `_schedule_frame_states_cache_refresh`: whether a load was started. The code answers true
        either way. */
    method Schedule() returns (acquired: bool)
      modifies this
      ensures acquired == !old(locked) && Abstract() == old(Abstract()).(locked := true)
    {
      acquired := !locked;
      locked := true;
    }

    /** The end of `_refresh_frame_states_cache`. */
    method FinishRefresh(startedAt: int, outcome: Outcome, now: int)
      modifies this
      ensures Abstract() == old(Abstract()).Finish(startedAt, outcome, now)
    {
      var completed := false;
      match outcome {
        case FrameMissing =>
        case Loaded(sceneId, states) =>
          completed := true;
          if !(invalidatedAt.Some? && invalidatedAt.value > startedAt) {
            record := Some(Record(sceneId, states, now, None));
            if sceneId != "" {
              active := Some(sceneId);
            }
          }
        case Failed(message) =>
          var fallback := if record.Some? then Record(record.value.sceneId, record.value.states, now, Some(message))
                          else Record("", map[], now, Some(message));
          if fallback.sceneId == "" {
            fallback := fallback.(sceneId := if active.Some? then active.value else "");
          }
          record := Some(fallback);
          completed := true;
      }
      if completed {
        locked := false;
      }
    }
  }

  // ---- runs -------------------------------------------------------------------------

  datatype Event =
    | MarkStale(sceneId: Option<string>)
    | Schedule                              // starts a load when it gets the lock
    | LockExpires
    | Finish(load: nat, outcome: Outcome)   // the load-th started load comes to its end
    | Serve
    | RecordExpires
    | StampExpires

  /** The keys, the clock, when each load started (unset once it ended), and the latest mark. */
  datatype World = World(keys: Keys, now: int, loads: seq<Option<int>>, lastMark: Option<int>) {

    /** A load ends once. The stamp of a mark outlives every load that was running at the mark: it
        lives for 30 days. */
    ghost predicate Possible(e: Event) {
      match e
      case Finish(load, _) => load < |loads| && loads[load].Some?
      case StampExpires => forall i | 0 <= i < |loads| && loads[i].Some? && lastMark.Some? ::
          loads[i].value > lastMark.value
      case MarkStale(sceneId) => sceneId != Some("")
      case _ => true
    }

    ghost function Next(e: Event): World
      requires Possible(e)
    {
      var next := this.(now := now + 1);
      match e
      case MarkStale(sceneId) => next.(keys := keys.Mark(sceneId, now), lastMark := Some(now))
      case Schedule => if keys.locked then next else next.(keys := keys.(locked := true), loads := loads + [Some(now)])
      case LockExpires => next.(keys := keys.(locked := false))
      case Finish(load, outcome) =>
        next.(keys := keys.Finish(loads[load].value, outcome, now), loads := loads[load := None])
      case Serve => next.(keys := keys.Serve())
      case RecordExpires => next.(keys := keys.(record := None))
      case StampExpires => next.(keys := keys.(invalidatedAt := None))
    }

    /** The stamp is the latest mark's, or no load from before that mark is running any more. */
    ghost predicate Valid() {
      now > 0 && (forall i | 0 <= i < |loads| && loads[i].Some? :: loads[i].value < now) &&
      (lastMark.Some? ==> lastMark.value < now) &&
      match keys.invalidatedAt
      case Some(stamp) => lastMark == Some(stamp)
      case None => forall i | 0 <= i < |loads| && loads[i].Some? && lastMark.Some? :: loads[i].value > lastMark.value
    }
  }

  const START := World(Keys(None, None, None, false), 1, [], None)

  /** Consecutive states of a run. */
  ghost predicate IsRun(worlds: seq<World>, events: seq<Event>) {
    |worlds| == |events| + 1 &&
    forall i | 0 <= i < |events| :: worlds[i].Possible(events[i]) && worlds[i + 1] == worlds[i].Next(events[i])
  }

  lemma {:induction false} RunsAreValid(worlds: seq<World>, events: seq<Event>, i: nat)
    requires IsRun(worlds, events) && worlds[0] == START && i < |worlds|
    ensures worlds[i].Valid()
  {
    if i > 0 {
      RunsAreValid(worlds, events, i - 1);
      assert worlds[i] == worlds[i - 1].Next(events[i - 1]);
    }
  }

  /** Started before the latest mark. */
  ghost predicate FromBeforeMark(w: World, load: nat) {
    load < |w.loads| && w.loads[load].Some? && w.lastMark.Some? && w.loads[load].value < w.lastMark.value
  }

  /** A load from before the latest mark replaces neither the cached scene nor the states nor the
      active scene; a failed load, whenever it began, keeps the cached states. */
  lemma StaleLoadsLose(worlds: seq<World>, events: seq<Event>, i: nat)
    requires IsRun(worlds, events) && worlds[0] == START && i < |events| && events[i].Finish?
    ensures var before, after := worlds[i].keys, worlds[i + 1].keys;
            (FromBeforeMark(worlds[i], events[i].load) && events[i].outcome.Loaded? ==>
               after == before.(locked := false)) &&
            (events[i].outcome.Failed? ==>
               after.active == before.active && after.record.Some? &&
               (before.record.Some? ==>
                  after.record.value.states == before.record.value.states &&
                  (before.record.value.sceneId != "" ==> after.record.value.sceneId == before.record.value.sceneId)))
  {
    RunsAreValid(worlds, events, i);
  }

  /** A load that began after the latest mark, or with no mark at all, is what the cache holds once it has
      succeeded: its states are fresh, its scene is the active one if it has a name, and another load may
      start. A failed load leaves its message, with the scene cached or active, and may be tried again;
      of a missing frame nothing is written. */
  lemma FreshLoadsWin(worlds: seq<World>, events: seq<Event>, i: nat)
    requires IsRun(worlds, events) && worlds[0] == START && i < |events| && events[i].Finish?
    ensures var before, after, now := worlds[i].keys, worlds[i + 1].keys, worlds[i].now;
            var cached := if before.record.Some? then before.record.value.sceneId else "";
            match events[i].outcome
            case Loaded(sceneId, states) =>
              !FromBeforeMark(worlds[i], events[i].load) ==>
                after.record == Some(Record(sceneId, states, now, None)) && !after.locked &&
                after.active == (if sceneId != "" then Some(sceneId) else before.active)
            case Failed(message) =>
              after.record.Some? && after.record.value.error == Some(message) && !after.locked &&
              after.record.value.fetchedAt == now &&
              after.record.value.sceneId ==
                (if cached != "" then cached else if before.active.Some? then before.active.value else "")
            case FrameMissing => after == before
  {
    RunsAreValid(worlds, events, i);
  }

  /** What else changes the keys: a mark puts its scene up and ages the record, a served request puts up
      the cached scene, and what has expired is gone. */
  lemma OtherEvents(w: World, e: Event)
    requires w.Possible(e) && !e.Finish?
    ensures var before, after := w.keys, w.Next(e).keys;
            (after.record.Some? <==> before.record.Some? && !e.RecordExpires?) &&
            (after.record.Some? ==>
               after.record.value.states == before.record.value.states &&
               after.record.value.sceneId ==
                 (if e.MarkStale? && e.sceneId.Some? then e.sceneId.value else before.record.value.sceneId) &&
               after.record.value.fetchedAt == (if e.MarkStale? then 0 else before.record.value.fetchedAt) &&
               after.record.value.error == (if e.MarkStale? then None else before.record.value.error)) &&
            after.active ==
              (if e.MarkStale? && e.sceneId.Some? then e.sceneId
               else if e.Serve? && before.record.Some? && before.record.value.sceneId != "" then
                 Some(before.record.value.sceneId)
               else before.active) &&
            after.invalidatedAt ==
              (if e.MarkStale? then Some(w.now) else if e.StampExpires? then None else before.invalidatedAt)
  {}

  // ---- one load at a time -----------------------------------------------------------

  /** How many loads are running. */
  function Running(loads: seq<Option<int>>): nat {
    if loads == [] then 0 else Running(loads[..|loads| - 1]) + if loads[|loads| - 1].Some? then 1 else 0
  }

  function Expiries(events: seq<Event>): nat {
    if events == [] then 0 else
      Expiries(events[..|events| - 1]) + if events[|events| - 1].LockExpires? then 1 else 0
  }

  lemma {:induction false} EndingOne(loads: seq<Option<int>>, i: nat)
    requires i < |loads| && loads[i].Some?
    ensures Running(loads) > 0 && Running(loads[i := None]) == Running(loads) - 1
  {
    var last := |loads| - 1;
    if i < last {
      EndingOne(loads[..last], i);
      assert loads[i := None][..last] == loads[..last][i := None];
    } else {
      assert loads[i := None][..last] == loads[..last];
    }
  }

  function Held(keys: Keys): nat {
    if keys.locked then 1 else 0
  }

  lemma LoadsAfter(w: World, e: Event)
    requires w.Possible(e)
    ensures var next := w.Next(e);
            Running(next.loads) + Held(w.keys)
            <= Running(w.loads) + Held(next.keys) + if e.LockExpires? then 1 else 0
    ensures |w.Next(e).loads| == |w.loads| + if e.Schedule? && !w.keys.locked then 1 else 0
  {
    if e.Finish? {
      EndingOne(w.loads, e.load);
    } else if e.Schedule? && !w.keys.locked {
      assert (w.loads + [Some(w.now)])[..|w.loads|] == w.loads;
    }
  }

  /** Loads run one at a time, but for one more each time the lock expires under a running one; and a
      load starts exactly when it is asked for while the lock is free. */
  lemma {:induction false} OneLoadAtATime(worlds: seq<World>, events: seq<Event>, i: nat)
    requires IsRun(worlds, events) && worlds[0] == START && i < |worlds|
    ensures Running(worlds[i].loads) <= Held(worlds[i].keys) + Expiries(events[..i])
    ensures i < |events| ==>
              |worlds[i + 1].loads| ==
              |worlds[i].loads| + if events[i].Schedule? && !worlds[i].keys.locked then 1 else 0
  {
    hide World.Next, World.Possible;
    if i < |events| {
      assert worlds[i + 1] == worlds[i].Next(events[i]) && worlds[i].Possible(events[i]);
      LoadsAfter(worlds[i], events[i]);
    }
    if i > 0 {
      OneLoadAtATime(worlds, events, i - 1);
      assert worlds[i] == worlds[i - 1].Next(events[i - 1]) && worlds[i - 1].Possible(events[i - 1]);
      LoadsAfter(worlds[i - 1], events[i - 1]);
      assert events[..i][..i - 1] == events[..i - 1];
    }
  }

  /** `keys` show what the mark announced: its scene, with the states cached then or none. */
  ghost predicate Shows(keys: Keys, sceneId: string, marked: States) {
    keys.active == Some(sceneId) &&
    (keys.record.Some? ==>
       keys.record.value.sceneId == sceneId &&
           (keys.record.value.states == marked || keys.record.value.states == map[]))
  }

  /** A mark's scene is what the cache shows until another mark, or until a load that began after
      the mark brings something newer: no matter which older loads end, fail, or lose their lock. */
  lemma {:induction false} MarkHolds(worlds: seq<World>, events: seq<Event>, m: nat, i: nat, sceneId: string)
    requires IsRun(worlds, events) && worlds[0] == START && m < i < |worlds|
    requires sceneId != "" && events[m] == MarkStale(Some(sceneId))
    requires forall j | m < j < i ::
               !events[j].MarkStale? &&
               (events[j].Finish? && events[j].outcome.Loaded? ==> FromBeforeMark(worlds[j], events[j].load))
    ensures worlds[i].lastMark == Some(worlds[m].now)
    ensures Shows(worlds[i].keys, sceneId,
                  if worlds[m].keys.record.Some? then worlds[m].keys.record.value.states else map[])
  {
    assert worlds[i] == worlds[i - 1].Next(events[i - 1]);
    RunsAreValid(worlds, events, i - 1);
    if i > m + 1 {
      MarkHolds(worlds, events, m, i - 1, sceneId);
    }
  }

  /** Ended without writing the record: the frame was gone, or the load began before the mark. */
  ghost predicate LeavesRecord(w: World, e: Event) {
    e.Finish? ==> e.outcome.FrameMissing? || (e.outcome.Loaded? && FromBeforeMark(w, e.load))
  }

  /** A mark sets the age of the cached record so that the next request reloads it. It stays so
      exactly as long as no load fails, however old, and none that began after the mark succeeds. */
  lemma {:induction false} RecordStaysStale(worlds: seq<World>, events: seq<Event>, m: nat, i: nat)
    requires IsRun(worlds, events) && worlds[0] == START && m < i < |worlds|
    requires events[m].MarkStale? && worlds[m].keys.record.Some?
    requires forall j | m < j < i :: !events[j].MarkStale? && !events[j].RecordExpires?
    ensures worlds[i].lastMark == Some(worlds[m].now) && worlds[i].keys.record.Some?
    ensures worlds[i].keys.record.value.fetchedAt == 0 <==> forall j | m < j < i :: LeavesRecord(worlds[j], events[j])
  {
    hide LeavesRecord, World.Valid, World.Next, World.Possible;
    assert worlds[i] == worlds[i - 1].Next(events[i - 1]) && worlds[i - 1].Possible(events[i - 1]);
    if i > m + 1 {
      RecordStaysStale(worlds, events, m, i - 1);
      RunsAreValid(worlds, events, i - 1);
      NextAge(worlds[i - 1], events[i - 1]);
      assert LeavesRecord(worlds[i - 1], events[i - 1]) <==> forall j | i - 1 <= j < i ::
          LeavesRecord(worlds[j], events[j]);
    } else {
      MarkedAge(worlds[m], events[m]);
    }
  }

  lemma MarkedAge(w: World, e: Event)
    requires e.MarkStale? && w.Possible(e) && w.keys.record.Some?
    ensures var marked := w.Next(e);
            marked.lastMark == Some(w.now) && marked.keys.record.Some? && marked.keys.record.value.fetchedAt == 0
  {}

  lemma NextAge(w: World, e: Event)
    requires w.Valid() && w.Possible(e) && w.lastMark.Some? && w.keys.record.Some?
    requires !e.MarkStale? && !e.RecordExpires?
    ensures w.Next(e).lastMark == w.lastMark && w.Next(e).keys.record.Some?
    ensures w.Next(e).keys.record.value.fetchedAt == 0 <==> w.keys.record.value.fetchedAt == 0 && LeavesRecord(w, e)
  {}

  /** An instance: a load that began before the mark fails after it, and the record passes for fresh. */
  lemma FailedLoadHidesStaleness() returns (worlds: seq<World>, events: seq<Event>)
    ensures IsRun(worlds, events) && worlds[0] == START && |events| == 5
    ensures events[3] == MarkStale(None) && worlds[4].keys.record.Some? &&
            worlds[4].keys.record.value.fetchedAt == 0
    ensures events[4].Finish? && FromBeforeMark(worlds[4], events[4].load) &&
            worlds[5].keys.record.Some? && worlds[5].keys.record.value.fetchedAt > 0
  {
    events := [Schedule, Finish(0, Loaded("a", map[])), Schedule, MarkStale(None), Finish(1, Failed("timeout"))];
    var w1 := START.Next(events[0]);
    var w2 := w1.Next(events[1]);
    var w3 := w2.Next(events[2]);
    var w4 := w3.Next(events[3]);
    var w5 := w4.Next(events[4]);
    worlds := [START, w1, w2, w3, w4, w5];
  }
}
