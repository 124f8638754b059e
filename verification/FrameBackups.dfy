/**
 Automatic frame backups after a deploy (backend/app/cloud/sync.py:45-48, 257-314). The sync worker
 watches update events for a deploy stamp it has not backed up yet; what it has backed up is kept
 in memory and, for the next process, in the frame's row.
 */
module FrameBackups {
  import opened Options

  /** How datetimes are written and read: `isoformat` of a naive UTC datetime, `fromisoformat`. */
  datatype Calendar = Calendar(iso: nat -> string, parse: string -> Option<nat>) {
    /** Every written datetime is read back, and has neither an offset nor a zone letter. */
    ghost predicate Lawful() {
      forall t: nat :: parse(iso(t)) == Some(t) && '+' !in iso(t) && 'Z' !in iso(t) && iso(t) != ""
    }
  }

  const UTC_OFFSET := "+00:00"

  /** `text.replace("+00:00", "")`. */
  function WithoutOffset(text: string): string {
    if text == "" then ""
    else if UTC_OFFSET <= text then
      WithoutOffset(text[|UTC_OFFSET|..])
    else [text[0]] + WithoutOffset(text[1..])
  }

  /** `text.removesuffix("Z")`. */
  function WithoutZone(text: string): string {
    if text != "" && text[|text| - 1] == 'Z' then text[..|text| - 1] else text
  }

  lemma {:induction false} WithoutOffsetOfStamp(text: string)
    requires '+' !in text
    ensures WithoutOffset(text + UTC_OFFSET) == text
  {
    var whole := text + UTC_OFFSET;
    if text == "" {
      assert whole == UTC_OFFSET && whole[|UTC_OFFSET|..] == "";
    } else {
      assert whole[0] == text[0] != '+' && UTC_OFFSET[0] == '+';
      assert whole[1..] == text[1..] + UTC_OFFSET;
      WithoutOffsetOfStamp(text[1..]);
    }
  }

  /** How one push of a backup ended: with an HTTP status, or with an exception. */
  datatype Push = Answered(status: int) | Raised

  datatype Event =
    | Update(frame: Option<nat>, deployedAt: string, mayUpload: bool, push: Push)
    | Connect                  // the worker subscribes: stamps are primed before it listens
    | Restart                  // a new process: memory is empty
    | FrameCreated(id: nat)

  /** The persisted stamps of some of the rows, as text. */
  function Persisted(cal: Calendar, rows: map<nat, Option<nat>>, ids: set<nat>): map<nat, string> {
    map id | id in ids && id in rows && rows[id].Some? :: cal.iso(rows[id].value)
  }

  lemma NothingPersisted(cal: Calendar, rows: map<nat, Option<nat>>)
    ensures Persisted(cal, rows, rows.Keys - rows.Keys) == map[]
  {}

  lemma PersistedStep(cal: Calendar, rows: map<nat, Option<nat>>, ids: set<nat>, id: nat, seen: map<nat, string>)
    requires id in rows
    ensures seen + Persisted(cal, rows, ids + {id})
         == if rows[id].Some? then (seen + Persisted(cal, rows, ids))[id := cal.iso(rows[id].value)]
            else seen + Persisted(cal, rows, ids)
  {}

  /** What the process has seen, and the frames' persisted stamps. */
  datatype State = State(seen: map<nat, string>, primed: bool, rows: map<nat, Option<nat>>) {

    function Primed(cal: Calendar): State {
      this.(seen := seen + Persisted(cal, rows, rows.Keys), primed := true)
    }

    /** Whether an update event leads to a push. */
    predicate Pushes(cal: Calendar, e: Event) {
      e.Update? && e.frame.Some? && e.deployedAt != "" && e.mayUpload &&
      var seen' := (if primed then this else Primed(cal)).seen;
      !(e.frame.value in seen' && seen'[e.frame.value] == WithoutOffset(e.deployedAt))
    }

    /** Whether the push succeeds and its stamp can be recorded. */
    predicate BacksUp(cal: Calendar, e: Event) {
      Pushes(cal, e) && e.push == Answered(200) && cal.parse(WithoutZone(WithoutOffset(e.deployedAt))).Some?
    }

    function Next(cal: Calendar, e: Event): State {
      match e
      case Connect => Primed(cal)
      case Restart => this.(seen := map[], primed := false)
      case FrameCreated(id) => this.(rows := rows[id := None])
      case Update(frame, deployedAt, _, _) =>
        if frame.None? || deployedAt == "" then this else
          var s := if primed then this else Primed(cal);
          if !BacksUp(cal, e) then s else
            var marker := WithoutOffset(deployedAt);
            var stamp := cal.parse(WithoutZone(marker));
            s.(seen := s.seen[frame.value := marker],
               rows := if frame.value in rows then rows[frame.value := stamp] else rows)
    }
  }

  class CloudSync {
    var deploysSeen: map<nat, string>
    var deploysPrimed: bool
    var rows: map<nat, Option<nat>>
    const cal: Calendar

    constructor (cal: Calendar, rows: map<nat, Option<nat>>)
      ensures this.cal == cal && Abstract() == State(map[], false, rows)
    {
      this.cal, this.rows, deploysSeen, deploysPrimed := cal, rows, map[], false;
    }

    ghost function Abstract(): State
      reads this
    {
      State(deploysSeen, deploysPrimed, rows)
    }

    method PrimeDeploysSeen()
      modifies this
      ensures Abstract() == old(Abstract()).Primed(cal)
    {
      hide Persisted;
      var pending := rows.Keys;
      NothingPersisted(cal, rows);
      while pending != {}
        invariant pending <= rows.Keys && rows == old(rows) && deploysPrimed == old(deploysPrimed)
        invariant deploysSeen == old(deploysSeen) + Persisted(cal, rows, rows.Keys - pending)
        decreases |pending|
      {
        var id :| id in pending;
        PersistedStep(cal, rows, rows.Keys - pending, id, old(deploysSeen));
        assert rows.Keys - (pending - {id}) == rows.Keys - pending + {id};
        pending := pending - {id};
        if rows[id].Some? {
          deploysSeen := deploysSeen[id := cal.iso(rows[id].value)];
        }
      }
      assert rows.Keys - {} == rows.Keys;
      deploysPrimed := true;
    }

    /** False when the marker is no datetime: `fromisoformat` raises. */
    method MarkDeployBackedUp(id: nat, marker: string) returns (done: bool)
      modifies this
      ensures done == cal.parse(WithoutZone(marker)).Some?
      ensures Abstract() == old(Abstract()).(rows :=
                if done && id in old(rows) then old(rows)[id := cal.parse(WithoutZone(marker))] else old(rows))
    {
      var backedUpAt := cal.parse(WithoutZone(marker));
      if backedUpAt.None? {
        return false;
      }
      if id in rows {
        rows := rows[id := backedUpAt];
      }
      return true;
    }

    method MaybeBackupFrame(frame: Option<nat>, deployedAt: string, mayUpload: bool, push: Push) returns (pushed: bool)
      modifies this
      ensures Abstract() == old(Abstract()).Next(cal, Update(frame, deployedAt, mayUpload, push))
      ensures pushed == old(Abstract()).Pushes(cal, Update(frame, deployedAt, mayUpload, push))
    {
      if frame.None? || deployedAt == "" {
        return false;
      }
      if !deploysPrimed {
        PrimeDeploysSeen();
      }
      var marker := WithoutOffset(deployedAt);
      if frame.value in deploysSeen && deploysSeen[frame.value] == marker {
        return false;
      }
      if !mayUpload {
        return false;
      }
      if push == Answered(200) {
        var done := MarkDeployBackedUp(frame.value, marker);
        if done {
          deploysSeen := deploysSeen[frame.value := marker];
        }
      }
      return true;
    }
  }

  // ---- runs -------------------------------------------------------------------------

  /** Deploy stamps come from `Frame.to_dict`, which writes them with the UTC offset; new frames
      get ids nobody has heard of. */
  ghost predicate Possible(s: State, cal: Calendar, e: Event) {
    match e
    case Update(_, deployedAt, _, _) => deployedAt == "" || exists t: nat :: deployedAt == cal.iso(t) + UTC_OFFSET
    case FrameCreated(id) => id !in s.rows && id !in s.seen
    case _ => true
  }

  ghost predicate IsRun(cal: Calendar, states: seq<State>, events: seq<Event>) {
    |states| == |events| + 1 &&
    forall i | 0 <= i < |events| ::
        Possible(states[i], cal, events[i]) && states[i + 1] == states[i].Next(cal, events[i])
  }

  /** Memory and database tell the same story about every frame there is. */
  ghost predicate InStep(s: State, cal: Calendar) {
    if s.primed then
      forall id | id in s.rows ::
        (id in s.seen <==> s.rows[id].Some?) && (id in s.seen ==> s.seen[id] == cal.iso(s.rows[id].value))
    else s.seen == map[]
  }

  lemma MarkerOfStamp(cal: Calendar, t: nat)
    requires cal.Lawful()
    ensures WithoutOffset(cal.iso(t) + UTC_OFFSET) == cal.iso(t)
    ensures cal.parse(WithoutZone(cal.iso(t))) == Some(t)
  {
    WithoutOffsetOfStamp(cal.iso(t));
    assert 'Z' !in cal.iso(t);
  }

  lemma StepStaysInStep(s: State, cal: Calendar, e: Event)
    requires cal.Lawful() && InStep(s, cal) && Possible(s, cal, e)
    ensures InStep(s.Next(cal, e), cal)
  {
    if e.Update? && e.deployedAt != "" {
      var t: nat :| e.deployedAt == cal.iso(t) + UTC_OFFSET;
      MarkerOfStamp(cal, t);
    }
  }

  /** After every completed event of any run the in-memory marker equals the persisted one, for
      every frame: also across failed pushes, reconnects and restarts. */
  lemma {:induction false} MemoryMatchesDatabase(cal: Calendar, states: seq<State>, events: seq<Event>, i: nat)
    requires cal.Lawful() && IsRun(cal, states, events) && InStep(states[0], cal) && i < |states|
    ensures InStep(states[i], cal)
  {
    if i > 0 {
      MemoryMatchesDatabase(cal, states, events, i - 1);
      StepStaysInStep(states[i - 1], cal, events[i - 1]);
    }
  }

  /** A deploy is pushed exactly when uploads are on and it is not the one recorded last. */
  lemma PushedUnlessRecorded(s: State, cal: Calendar, id: nat, t: nat, mayUpload: bool, push: Push)
    requires cal.Lawful() && InStep(s, cal) && id in s.rows
    ensures s.Pushes(cal, Update(Some(id), cal.iso(t) + UTC_OFFSET, mayUpload, push))
            <==> mayUpload && s.rows[id] != Some(t)
  {
    MarkerOfStamp(cal, t);
    assert |cal.iso(t) + UTC_OFFSET| >= |UTC_OFFSET| == 6;
    if s.rows[id].Some? {
      MarkerOfStamp(cal, s.rows[id].value);
      assert cal.parse(cal.iso(s.rows[id].value)) == s.rows[id];
    }
  }

  /** A deploy is recorded exactly if its push succeeds, in its own frame's row and in no other's. */
  lemma RecordedExactly(s: State, cal: Calendar, id: nat, t: nat, mayUpload: bool, push: Push)
    requires cal.Lawful() && InStep(s, cal) && id in s.rows
    ensures var after := s.Next(cal, Update(Some(id), cal.iso(t) + UTC_OFFSET, mayUpload, push));
            after.rows == (if mayUpload && push == Answered(200) then s.rows[id := Some(t)] else s.rows) &&
            InStep(after, cal) && after.primed
  {
    var e := Update(Some(id), cal.iso(t) + UTC_OFFSET, mayUpload, push);
    assert Possible(s, cal, e);
    StepStaysInStep(s, cal, e);
    PushedUnlessRecorded(s, cal, id, t, mayUpload, push);
    MarkerOfStamp(cal, t);
    assert |cal.iso(t) + UTC_OFFSET| >= |UTC_OFFSET| == 6;
    hide InStep, WithoutOffset, WithoutZone;
    if mayUpload && push == Answered(200) && s.rows[id] == Some(t) {
      assert s.rows == s.rows[id := Some(t)];
    }
  }

  /** A push that fails leaves the deploy eligible: nothing is recorded about it. */
  lemma FailedPushStaysEligible(s: State, cal: Calendar, id: nat, t: nat, push: Push, again: Push)
    requires cal.Lawful() && InStep(s, cal) && id in s.rows && push != Answered(200)
    requires s.Pushes(cal, Update(Some(id), cal.iso(t) + UTC_OFFSET, true, push))
    ensures s.Next(cal, Update(Some(id), cal.iso(t) + UTC_OFFSET, true, push)).rows == s.rows
    ensures s.Next(cal, Update(Some(id), cal.iso(t) + UTC_OFFSET, true, push))
             .Pushes(cal, Update(Some(id), cal.iso(t) + UTC_OFFSET, true, again))
  {
    var e := Update(Some(id), cal.iso(t) + UTC_OFFSET, true, push);
    assert Possible(s, cal, e);
    StepStaysInStep(s, cal, e);
    PushedUnlessRecorded(s, cal, id, t, true, push);
    PushedUnlessRecorded(s.Next(cal, e), cal, id, t, true, again);
  }

  ghost predicate BackedUpAt(cal: Calendar, states: seq<State>, events: seq<Event>, i: nat, id: nat)
    requires i < |events| && i < |states|
  {
    events[i].Update? && events[i].frame == Some(id) && states[i].BacksUp(cal, events[i])
  }

  /** Once a deploy is backed up it is not pushed again, through restarts and reconnects, until
      another deploy of that frame has been backed up. */
  lemma NoRepeats(
    cal: Calendar, states: seq<State>, events: seq<Event>, i: nat, j: nat, id: nat, t: nat)
    requires cal.Lawful() && IsRun(cal, states, events) && InStep(states[0], cal) && i < j < |states|
    requires id in states[i].rows && BackedUpAt(cal, states, events, i, id)
    requires events[i].deployedAt == cal.iso(t) + UTC_OFFSET
    requires forall k | i < k < j :: !BackedUpAt(cal, states, events, k, id)
    ensures id in states[j].rows && states[j].rows[id] == Some(t)
    ensures forall mayUpload, push :: !states[j].Pushes(cal, Update(Some(id), cal.iso(t) + UTC_OFFSET, mayUpload, push))
  {
    hide IsRun, InStep, Calendar.Lawful, BackedUpAt, State.Pushes;
    RecordKept(cal, states, events, i, j, id, t);
    MemoryMatchesDatabase(cal, states, events, j);
    forall mayUpload, push
      ensures !states[j].Pushes(cal, Update(Some(id), cal.iso(t) + UTC_OFFSET, mayUpload, push))
    {
      PushedUnlessRecorded(states[j], cal, id, t, mayUpload, push);
    }
  }

  lemma {:induction false} RecordKept(
    cal: Calendar, states: seq<State>, events: seq<Event>, i: nat, j: nat, id: nat, t: nat)
    requires cal.Lawful() && IsRun(cal, states, events) && i < j < |states|
    requires id in states[i].rows && BackedUpAt(cal, states, events, i, id)
    requires events[i].deployedAt == cal.iso(t) + UTC_OFFSET
    requires forall k | i < k < j :: !BackedUpAt(cal, states, events, k, id)
    ensures id in states[j].rows && states[j].rows[id] == Some(t)
  {
    RunStep(cal, states, events, j - 1);
    hide IsRun, Possible, State.Next, State.BacksUp, Calendar.Lawful;
    if j > i + 1 {
      RecordKept(cal, states, events, i, j - 1, id, t);
      assert !BackedUpAt(cal, states, events, j - 1, id);
      RecordStays(states[j - 1], cal, events[j - 1], id);
    } else {
      RecordMade(states[i], cal, events[i], id, t);
    }
  }

  lemma RunStep(cal: Calendar, states: seq<State>, events: seq<Event>, i: nat)
    requires IsRun(cal, states, events) && i < |events|
    ensures Possible(states[i], cal, events[i]) && states[i + 1] == states[i].Next(cal, events[i])
  {}

  lemma RecordStays(s: State, cal: Calendar, e: Event, id: nat)
    requires id in s.rows && Possible(s, cal, e)
    requires !(e.Update? && e.frame == Some(id) && s.BacksUp(cal, e))
    ensures id in s.Next(cal, e).rows && s.Next(cal, e).rows[id] == s.rows[id]
  {
    hide State.BacksUp;
  }

  lemma RecordMade(s: State, cal: Calendar, e: Event, id: nat, t: nat)
    requires cal.Lawful() && id in s.rows && e.Update? && e.frame == Some(id) && s.BacksUp(cal, e)
    requires e.deployedAt == cal.iso(t) + UTC_OFFSET
    ensures id in s.Next(cal, e).rows && s.Next(cal, e).rows[id] == Some(t)
  {
    MarkerOfStamp(cal, t);
  }

  /** Whatever text a stamp comes as: once its deploy is backed up, the same event is pushed again
      after a restart exactly if that text, without the offset, is not how the stamp is written. */
  lemma PushedAgainIffWrittenOtherwise(s: State, cal: Calendar, id: nat, text: string, push: Push)
    requires id in s.rows && s.BacksUp(cal, Update(Some(id), text, true, push))
    ensures var e := Update(Some(id), text, true, push);
            var stamp := cal.parse(WithoutZone(WithoutOffset(text)));
            s.Next(cal, e).rows[id] == stamp &&
            (s.Next(cal, e).Next(cal, Restart).Pushes(cal, e) <==> WithoutOffset(text) != cal.iso(stamp.value))
  {}

  /** An instance: a zone letter, which the row loses and the memory keeps. */
  lemma ZoneLetterRepeatsAfterRestart(cal: Calendar, id: nat, t: nat)
    requires cal.Lawful()
    ensures var s := State(map[], true, map[id := None]);
            var e := Update(Some(id), cal.iso(t) + "Z", true, Answered(200));
            var after := s.Next(cal, e).Next(cal, Restart);
            s.BacksUp(cal, e) && after.rows == map[id := Some(t)] && after.Pushes(cal, e)
  {
    NoOffset(cal.iso(t) + "Z");
    var marker := cal.iso(t) + "Z";
    assert marker[..|marker| - 1] == cal.iso(t);
    assert 'Z' in marker && 'Z' !in cal.iso(t) by { assert marker[|marker| - 1] == 'Z'; }
  }

  lemma {:induction false} NoOffset(text: string)
    requires '+' !in text
    ensures WithoutOffset(text) == text
  {
    if text != "" {
      assert text[0] != '+' && UTC_OFFSET[0] == '+';
      NoOffset(text[1..]);
    }
  }
}
