/**
 * Turns of a tutoring session: who may run, and how events are numbered
 * (backend/app/modules/tutor/turn_runtime.py, on the store of turn_state_store.py).
 */
module TurnRuntime {
  import opened Options
  import opened TurnStore

  // ------------------------------------------------------------- session exclusion

  ghost predicate RunningIn(m: Memory, t: string, sessionId: string) {
    t in m.turns && m.turns[t].Running() && m.turns[t].sessionId == sessionId
  }

  /** Every running turn is the one its session maps to. */
  ghost predicate Exclusive(m: Memory) {
    forall t, s :: RunningIn(m, t, s) ==> Get(m.sessions, s) == Some(t)
  }

  /** No other turn of the session is running. */
  ghost predicate Undisturbed(m: Memory, sessionId: string, turnId: string) {
    forall u :: RunningIn(m, u, sessionId) ==> u == turnId
  }

  /** In an exclusive state one look at the session's entry tells whether it is undisturbed. */
  lemma UndisturbedIsCheckable(m: Memory, s: string, t: string)
    requires Exclusive(m)
    ensures Undisturbed(m, s, t) <==> !(s in m.sessions && m.sessions[s] != t && RunningIn(m, m.sessions[s], s))
  {
  }

  /** Saving a turn keeps exclusion exactly when no other turn of its session is running. */
  lemma SaveKeepsExclusion(m: Memory, r: TurnRecord)
    requires Exclusive(m)
    ensures Exclusive(m.AfterSave(r)) <==> Undisturbed(m, r.sessionId, r.turnId)
  {
    var m' := m.AfterSave(r);
    forall u, s | RunningIn(m, u, s) && u != r.turnId ensures RunningIn(m', u, s) {
    }
    if Undisturbed(m, r.sessionId, r.turnId) {
      forall u, s | RunningIn(m', u, s) ensures Get(m'.sessions, s) == Some(u) {
        if u != r.turnId {
          assert RunningIn(m, u, s);
        }
      }
    }
  }

  /** Releasing keeps it exactly when the released turn is not running there. */
  lemma ReleaseKeepsExclusion(m: Memory, s: string, t: string)
    requires Exclusive(m)
    ensures Exclusive(m.AfterRelease(s, t)) <==> !RunningIn(m, t, s)
  {
    var m' := m.AfterRelease(s, t);
    assert forall u, x :: RunningIn(m', u, x) <==> RunningIn(m, u, x);
  }

  /** A release by a turn the session has moved on from changes nothing. */
  lemma LateReleaseIsHarmless(m: Memory, s: string, t: string)
    requires Get(m.sessions, s) != Some(t)
    ensures m.AfterRelease(s, t) == m
  {
  }

  /** Acquiring and deleting keep exclusion in every case (turn ids are not empty). */
  lemma AcquireAndDeleteKeepExclusion(m: Memory, s: string, t: string)
    requires Exclusive(m) && "" !in m.turns
    ensures Exclusive(m.AfterAcquire(s, t)) && Exclusive(m.AfterDelete(t))
  {
    var a, d := m.AfterAcquire(s, t), m.AfterDelete(t);
    assert forall u, x :: RunningIn(a, u, x) <==> RunningIn(m, u, x);
    forall u, x | RunningIn(a, u, x) ensures Get(a.sessions, x) == Some(u) {
      assert RunningIn(m, u, x);
    }
    forall u, x | RunningIn(d, u, x) ensures Get(d.sessions, x) == Some(u) {
      assert RunningIn(m, u, x);
    }
  }

  // --------------------------------------------------------------- the runtime's steps

  /**
   * What the runtime does to the store between two suspension points. A new turn is acquired and
   * saved at once (`Start`), or, with a store that suspends in between, in two steps (`Acquire`,
   * `Open`). A turn is resumed, cancelled, or written by its own background job when it pauses,
   * completes, fails or notices a cancellation (`End`); the release comes later (`Release`).
   */
  datatype Step =
    | Start(started: TurnRecord)
    | Acquire(sessionId: string, turnId: string)
    | Open(started: TurnRecord)
    | Resume(turnId: string)
    | Cancel(turnId: string)
    | End(own: TurnRecord)
    | Release(sessionId: string, turnId: string)

  /** The record a step saves, if it saves any. */
  function Writes(m: Memory, step: Step): Option<TurnRecord> {
    match step
    case Start(r) => if Busy(m, r) then None else Some(r)
    case Open(r) => Some(r)
    case Resume(t) =>
      if t in m.turns && m.turns[t].status == "paused" && m.turns[t].paused.Some?
      then Some(m.turns[t].(status := "running")) else None
    case Cancel(t) => if t in m.turns then Some(m.turns[t].(status := "cancelled")) else None
    case End(r) => Some(r)
    case _ => None
  }

  /** `start_turn` answers "turn_busy". */
  predicate Busy(m: Memory, r: TurnRecord) {
    var active := Get(m.sessions, r.sessionId);
    || (active.Some? && active.value != "" && active.value in m.turns && m.turns[active.value].Running())
    || m.HeldByAnother(r.sessionId, r.turnId)
  }

  function After(m: Memory, step: Step): Memory {
    var w := Writes(m, step);
    match step
    case Acquire(s, t) => m.AfterAcquire(s, t)
    case Release(s, t) => m.AfterRelease(s, t)
    case Start(r) => if w.None? then m else m.AfterAcquire(r.sessionId, r.turnId).AfterSave(r)
    case _ => if w.None? then m else m.AfterSave(w.value)
  }

  /** Records are filed under their own id, and no id is empty. */
  ghost predicate Filed(m: Memory) {
    (forall t :: t in m.turns ==> m.turns[t].turnId == t) && "" !in m.turns
  }

  ghost predicate Possible(m: Memory, step: Step) {
    Filed(m) && (Writes(m, step).Some? ==> Writes(m, step).value.turnId != "")
  }

  /** The steps that keep exclusion: all starts and acquisitions; a release of a turn that is not
      running; and any other step that saves nothing, or a turn of a session in which no other runs. */
  ghost predicate Safe(m: Memory, step: Step) {
    match step
    case Start(_) => true
    case Acquire(_, _) => true
    case Release(s, t) => !RunningIn(m, t, s)
    case _ =>
      var w := Writes(m, step);
      w.None? || Undisturbed(m, w.value.sessionId, w.value.turnId)
  }

  lemma IdleUnlessBusy(m: Memory, r: TurnRecord)
    requires Exclusive(m) && "" !in m.turns && !Busy(m, r)
    ensures forall u :: !RunningIn(m, u, r.sessionId)
  {
    assert forall u :: RunningIn(m, u, r.sessionId) ==> Get(m.sessions, r.sessionId) == Some(u);
  }

  lemma StartKeepsExclusion(m: Memory, r: TurnRecord)
    requires Exclusive(m) && "" !in m.turns
    ensures Exclusive(After(m, Start(r)))
  {
    if !Busy(m, r) {
      AcquireAndDeleteKeepExclusion(m, r.sessionId, r.turnId);
      var acquired := m.AfterAcquire(r.sessionId, r.turnId);
      IdleUnlessBusy(m, r);
      assert forall u :: RunningIn(acquired, u, r.sessionId) <==> RunningIn(m, u, r.sessionId);
      SaveKeepsExclusion(acquired, r);
    }
  }

  /** A step keeps exclusion exactly when it is safe, which can be read off the store before it. */
  lemma StepKeepsExclusion(m: Memory, step: Step)
    requires Exclusive(m) && Possible(m, step)
    ensures Exclusive(After(m, step)) <==> Safe(m, step)
    ensures Filed(After(m, step))
  {
    match step
    case Start(r) => StartKeepsExclusion(m, r);
    case Acquire(s, t) => AcquireAndDeleteKeepExclusion(m, s, t);
    case Release(s, t) => ReleaseKeepsExclusion(m, s, t);
    case _ =>
      var w := Writes(m, step);
      if w.Some? {
        SaveKeepsExclusion(m, w.value);
      }
  }

  function Runs(m: Memory, steps: seq<Step>): Memory
    decreases |steps|
  {
    if steps == [] then m else Runs(After(m, steps[0]), steps[1..])
  }

  /** Every step of the run is safe when it is taken. */
  ghost predicate Orderly(m: Memory, steps: seq<Step>)
    decreases |steps|
  {
    steps == [] || (Possible(m, steps[0]) && Safe(m, steps[0]) && Orderly(After(m, steps[0]), steps[1..]))
  }

  /** In every orderly run a session never has two running turns. */
  lemma {:induction false} SessionExclusion(m: Memory, steps: seq<Step>, t: string, u: string, s: string)
    requires Exclusive(m) && Orderly(m, steps)
    ensures Exclusive(Runs(m, steps))
    ensures RunningIn(Runs(m, steps), t, s) && RunningIn(Runs(m, steps), u, s) ==> t == u
    decreases |steps|
  {
    if steps != [] {
      StepKeepsExclusion(m, steps[0]);
      SessionExclusion(After(m, steps[0]), steps[1..], t, u, s);
    }
  }

  /** The end of a running turn is always orderly: it is the turn the session maps to. */
  lemma EndOfRunningTurnIsOrderly(m: Memory, r: TurnRecord)
    requires Exclusive(m) && RunningIn(m, r.turnId, r.sessionId)
    ensures Safe(m, End(r))
  {
  }

  /** What exclusion does not survive: a paused turn is resumed - or cancelled, which lets a third
      turn start - while a newer turn of the session runs. */
  lemma DisturbedWritesBreakExclusion(m: Memory, paused: TurnRecord, newer: string, third: TurnRecord)
    requires Exclusive(m) && Filed(m)
    requires paused.turnId in m.turns && m.turns[paused.turnId] == paused
    requires paused.status == "paused" && paused.paused.Some?
    requires RunningIn(m, newer, paused.sessionId)
    requires third.turnId !in m.turns && third.turnId != "" && third.Running() && third.sessionId == paused.sessionId
    ensures var resumed := After(m, Resume(paused.turnId));
            RunningIn(resumed, newer, paused.sessionId) && RunningIn(resumed, paused.turnId, paused.sessionId)
    ensures var both := After(After(m, Cancel(paused.turnId)), Start(third));
            RunningIn(both, newer, paused.sessionId) && RunningIn(both, third.turnId, paused.sessionId)
  {
  }

  /** Such a state is reached from the empty store in three steps, all of them safe: a turn starts and
      pauses, and a newer one starts. */
  lemma DisturbedStateIsReached(a: TurnRecord, state: PausedTurn, b: TurnRecord)
    requires a.Running() && b.Running() && a.sessionId == b.sessionId
    requires a.turnId != b.turnId && a.turnId != "" && b.turnId != ""
    ensures var paused := a.(status := "paused", paused := Some(state));
            var steps := [Start(a), End(paused), Start(b)];
            var end := Runs(Memory(map[], map[]), steps);
            && Orderly(Memory(map[], map[]), steps)
            && Exclusive(end) && Filed(end) && RunningIn(end, b.turnId, a.sessionId)
            && Get(end.turns, a.turnId) == Some(paused)
  {
    var empty, paused := Memory(map[], map[]), a.(status := "paused", paused := Some(state));
    var one := After(empty, Start(a));
    var two := After(one, End(paused));
    var steps := [Start(a), End(paused), Start(b)];
    assert steps[1..] == [End(paused), Start(b)] && steps[1..][1..] == [Start(b)] && steps[1..][1..][1..] == [];
    StepKeepsExclusion(empty, Start(a));
    StepKeepsExclusion(one, End(paused));
    StepKeepsExclusion(two, Start(b));
    assert Runs(two, [Start(b)]) == After(two, Start(b));
    assert Runs(one, [End(paused), Start(b)]) == After(two, Start(b));
    assert Orderly(two, [Start(b)]);
    assert Orderly(one, [End(paused), Start(b)]);
  }

  // ------------------------------------------------------------------- event numbering

  datatype EventKind = Content | ContentDelta | AskUser | Other

  datatype Event = Event(kind: EventKind, content: string)

  datatype Numbered = Numbered(seqNo: int, event: Event)

  /** How a segment of a turn ends: by itself; by an exception or the cancellation of its background
      job after `stop` events - or while sending the event after those; or by a cancellation found in
      the store when the event after `stop` arrives. */
  datatype Ending = Finished | Raised(stop: nat, status: string, inSend: bool) | CancelledInStore(stop: nat)

  function Number(from: int, events: seq<Event>): (numbered: seq<Numbered>)
    ensures |numbered| == |events|
  {
    if events == [] then []
    else Number(from, events[..|events| - 1]) + [Numbered(from + |events|, events[|events| - 1])]
  }

  function Take(events: seq<Event>, n: nat): seq<Event> {
    if n < |events| then events[..n] else events
  }

  /** The events that get a number ... */
  function Handled(events: seq<Event>, ending: Ending): seq<Event> {
    match ending
    case Finished => events
    case Raised(stop, _, inSend) => Take(events, if inSend then stop + 1 else stop)
    case CancelledInStore(stop) => Take(events, stop)
  }

  /** ... and those that also reach the client. */
  function Sent(events: seq<Event>, ending: Ending): seq<Event> {
    if ending.Raised? then Take(events, ending.stop) else Handled(events, ending)
  }

  /** What other coroutines make of the store at the i-th suspension of a segment. */
  type Others = (nat, Memory) -> Memory

  /** The store when the i-th event arrives. */
  function Seen(others: Others, m: Memory, i: nat): Memory {
    if i == 0 then others(0, m) else others(i, Seen(others, m, i - 1))
  }

  /** `_is_turn_cancelled`. */
  predicate CancelledIn(m: Memory, turnId: string) {
    turnId in m.turns && m.turns[turnId].status == "cancelled"
  }

  /** An exception, or the cancellation of the job, before event `stop` arrives or while it is sent. */
  datatype Failure = Failure(stop: nat, status: string, inSend: bool)

  /** Whether the segment ends before it handles event `i`: by a failure, because there is no such
      event, or by a cancellation found in the store `m`. */
  function StopsBefore(events: seq<Event>, turnId: string, m: Memory, failure: Option<Failure>, i: nat): Option<Ending>
    requires i <= |events|
  {
    if failure.Some? && failure.value.stop == i && !failure.value.inSend
    then Some(Raised(i, failure.value.status, false))
    else if i == |events| then Some(Finished)
    else if CancelledIn(m, turnId) then Some(CancelledInStore(i))
    else None
  }

  /** How the segment ends, from event `i` on: by whatever comes first. */
  function EndingOf(events: seq<Event>, turnId: string, others: Others, m: Memory, failure: Option<Failure>,
                    i: nat): Ending
    requires i <= |events|
    decreases |events| - i
  {
    var stop := StopsBefore(events, turnId, Seen(others, m, i), failure, i);
    if stop.Some? then stop.value
    else if failure.Some? && failure.value.stop == i then Raised(i, failure.value.status, true)
    else EndingOf(events, turnId, others, m, failure, i + 1)
  }

  /** How often the segment was suspended before that. */
  function LastSeen(events: seq<Event>, ending: Ending): nat {
    match ending
    case Finished => |events|
    case Raised(stop, _, inSend) => if inSend then stop + 1 else stop
    case CancelledInStore(stop) => stop
  }

  predicate Asks(events: seq<Event>) {
    exists e :: e in events && e.kind.AskUser?
  }

  function FinalStatus(events: seq<Event>, ending: Ending): string {
    if ending.Raised? then ending.status
    else if ending.CancelledInStore? then "cancelled"
    else if Asks(events) then "paused"
    else "completed"
  }

  /** The learner's text: the contents of all content events, one after the other. */
  function Shown(events: seq<Event>): string {
    if events == [] then ""
    else
      var last := events[|events| - 1];
      Shown(events[..|events| - 1]) + (if last.kind.Content? || last.kind.ContentDelta? then last.content else "")
  }

  lemma OneMore(from: int, events: seq<Event>, event: Event)
    ensures Number(from, events) + [Numbered(from + |events| + 1, event)] == Number(from, events + [event])
    ensures Asks(events + [event]) <==> Asks(events) || event.kind.AskUser?
    ensures Shown(events + [event]) ==
            Shown(events) + (if event.kind.Content? || event.kind.ContentDelta? then event.content else "")
  {
    assert (events + [event])[..|events|] == events;
    OneMoreAsks(events, event);
  }

  lemma OneMoreAsks(events: seq<Event>, event: Event)
    ensures Asks(events + [event]) <==> Asks(events) || event.kind.AskUser?
  {
    assert event in events + [event];
    assert forall e :: e in events ==> e in events + [event];
  }

  /** What `persist_turn_fragment` gets of a segment. */
  datatype Fragment = Fragment(events: seq<Numbered>, reply: string)

  class TutorTurnRuntime {
    const store: InMemoryTurnStateStore

    constructor (store: InMemoryTurnStateStore)
      ensures this.store == store
    {
      this.store := store;
    }

    /** `None` for "turn_busy"; `record` is the new turn, with a new id. */
    method StartTurn(record: TurnRecord) returns (started: Option<TurnRecord>)
      modifies store
      ensures store.State() == After(old(store.State()), Start(record))
      ensures started == if Busy(old(store.State()), record) then None else Some(record)
      ensures started.None? <==>
              var active := Get(old(store.sessionTurn), record.sessionId);
              active.Some? && active.value != "" && active.value in old(store.turns) &&
              old(store.turns)[active.value].status == "running"
    {
      var active := store.GetSessionTurnId(record.sessionId);
      if active.Some? && active.value != "" {
        var turn := store.GetTurn(active.value);
        if turn.Some? && turn.value.status == "running" {
          return None;
        }
      }
      var acquired := store.AcquireSession(record.sessionId, record.turnId);
      if !acquired {
        return None;
      }
      store.SaveTurn(record);
      return Some(record);
    }

    /** `taskDone` is whether the turn has no unfinished task here; the result is the record the
        resumed task works on, or `None` for an error. */
    method SubmitUserReply(turnId: string, userId: string, taskDone: bool) returns (resumed: Option<TurnRecord>)
      modifies store
      ensures var turn, before := Get(old(store.turns), turnId), old(store.State());
              if turn.Some? && turn.value.userId == userId && turn.value.status == "paused" &&
                 turn.value.paused.Some? && taskDone
              then
                && resumed == Some(turn.value.(status := "running", paused := None))
                && store.State() == After(before, Resume(turnId)) == before.AfterSave(turn.value.(status := "running"))
              else resumed == None && store.State() == before
    {
      var turn := store.GetTurn(turnId);
      if turn.None? || turn.value.userId != userId {
        return None;
      }
      var record := turn.value;
      if record.status != "paused" || record.paused.None? || !taskDone {
        return None;
      }
      record := record.(status := "running");
      store.SaveTurn(record);
      return Some(record.(paused := None));
    }

    /** Others run. */
    method Await(left: Memory)
      modifies store
      ensures store.State() == left
    {
      store.turns, store.sessionTurn := left.turns, left.sessions;
    }

    /** The turn is saved as cancelled; an unfinished job of it is cancelled and awaited, while
        `others` run; then the session is released. */
    method CancelTurn(turnId: string, userId: string, unfinished: bool, others: Memory -> Memory) returns (ok: bool)
      modifies store
      ensures ok == (turnId in old(store.turns) && old(store.turns)[turnId].userId == userId)
      ensures store.State() ==
              if !ok then old(store.State())
              else
                var saved := After(old(store.State()), Cancel(turnId));
                var left := if unfinished then others(saved) else saved;
                After(left, Step.Release(old(store.turns)[turnId].sessionId, turnId))
      ensures ok ==> Get(store.sessionTurn, old(store.turns)[turnId].sessionId) != Some(turnId)
      ensures ok && !unfinished && Filed(old(store.State())) ==> CancelledIn(store.State(), turnId)
    {
      var turn := store.GetTurn(turnId);
      if turn.None? || turn.value.userId != userId {
        return false;
      }
      var record := turn.value.(status := "cancelled");
      store.SaveTurn(record);
      if unfinished {
        Await(others(store.State()));
      }
      store.ReleaseSession(record.sessionId, turnId);
      return true;
    }

    method IsTurnCancelled(turnId: string) returns (cancelled: bool)
      ensures cancelled == CancelledIn(store.State(), turnId)
    {
      var stored := store.GetTurn(turnId);
      cancelled := stored.Some? && stored.value.status == "cancelled";
    }

    method Poll(turnId: string, events: seq<Event>, failure: Option<Failure>, i: nat) returns (stop: Option<Ending>)
      requires i <= |events|
      ensures stop == StopsBefore(events, turnId, store.State(), failure, i)
    {
      if failure.Some? && failure.value.stop == i && !failure.value.inSend {
        return Some(Raised(i, failure.value.status, false));
      }
      if i == |events| {
        return Some(Finished);
      }
      var cancelled := IsTurnCancelled(turnId);
      stop := if cancelled then Some(CancelledInStore(i)) else None;
    }

    /** One event is numbered and remembered. */
    method Take(ghost from: int, events: seq<Event>, i: nat, seqNo0: int, fragment0: seq<Numbered>, reply0: string,
                asked0: bool)
      returns (seqNo: int, fragment: seq<Numbered>, reply: string, asked: bool)
      requires i < |events| && Progress(from, events[..i], seqNo0, fragment0, reply0, asked0)
      ensures fragment == fragment0 + [Numbered(seqNo, events[i])]
      ensures Progress(from, events[..i + 1], seqNo, fragment, reply, asked)
    {
      OneMoreEvent(from, events, i, seqNo0, fragment0, reply0, asked0);
      var event := events[i];
      seqNo := seqNo0 + 1;
      reply := reply0;
      if event.kind.Content? || event.kind.ContentDelta? {
        reply := reply + event.content;
      }
      fragment := fragment0 + [Numbered(seqNo, event)];
      asked := asked0 || event.kind.AskUser?;
    }

    /** The event loop of a segment: before every event others run, and the store is asked whether the
        turn was cancelled. */
    method HandleEvents(turnId: string, from: int, events: seq<Event>, others: Others, failure: Option<Failure>)
      returns (ending: Ending, seqNo: int, sent: seq<Numbered>, fragment: seq<Numbered>, reply: string, asked: bool)
      modifies store
      ensures ending == EndingOf(events, turnId, others, old(store.State()), failure, 0)
      ensures store.State() == Seen(others, old(store.State()), LastSeen(events, ending))
      ensures Progress(from, Handled(events, ending), seqNo, fragment, reply, asked)
      ensures sent == Number(from, Sent(events, ending))
    {
      ghost var m := store.State();
      seqNo, sent, fragment, reply, asked := from, [], [], "", false;
      var i := 0;
      while true
        invariant 0 <= i <= |events|
        invariant store.State() == if i == 0 then m else Seen(others, m, i - 1)
        invariant EndingOf(events, turnId, others, m, failure, i) == EndingOf(events, turnId, others, m, failure, 0)
        invariant sent == fragment && Progress(from, events[..i], seqNo, fragment, reply, asked)
        decreases |events| - i
      {
        Await(others(i, store.State()));
        var stop := Poll(turnId, events, failure, i);
        if stop.Some? {
          ending := stop.value;
          TakesExactly(events, i, ending);
          return;
        }
        seqNo, fragment, reply, asked := Take(from, events, i, seqNo, fragment, reply, asked);
        if failure.Some? && failure.value.stop == i {
          Await(others(i + 1, store.State()));
          ending := Raised(i, failure.value.status, true);
          TakesExactly(events, i, ending);
          return;
        }
        sent := sent + [Numbered(seqNo, events[i])];
        i := i + 1;
      }
    }

    /** One segment: `sent` are the events sent to the client; what was handled is persisted, unless
        the store had the turn cancelled. The
        state stored with a pause is `pausedState`. The session is released after another suspension,
        unless the turn pauses. */
    method ExecuteTurn(record: TurnRecord, events: seq<Event>, others: Others, failure: Option<Failure>,
                       pausedState: PausedTurn)
      returns (ending: Ending, final: TurnRecord, sent: seq<Numbered>, persisted: Option<Fragment>)
      requires failure.Some? ==> failure.value.status in {"cancelled", "error"}
      modifies store
      ensures ending == EndingOf(events, record.turnId, others, old(store.State()), failure, 0)
      ensures var handled := Handled(events, ending);
              && sent == Number(record.seqNo, Sent(events, ending)) && final.seqNo == record.seqNo + |handled|
              && persisted == (if ending.CancelledInStore? then None
                               else Some(Fragment(Number(record.seqNo, handled), Shown(handled))))
              && final == record.(seqNo := final.seqNo, status := FinalStatus(events, ending), paused := final.paused)
              && final.paused == if final.status == "paused" then Some(pausedState) else record.paused
      ensures match ending
              case Finished => final.status == if Asks(events) then "paused" else "completed"
              case Raised(_, _, _) => failure.Some? && final.status == failure.value.status
              case CancelledInStore(_) => final.status == "cancelled"
      ensures !final.Running()
      ensures var last := LastSeen(events, ending);
              var saved := After(Seen(others, old(store.State()), last), End(final));
              && store.State() == (if final.status == "paused" then saved
                                   else After(others(last + 1, saved), Step.Release(final.sessionId, final.turnId)))
              && (LeavesAlone(others, record.turnId) ==>
                    Safe(others(last + 1, saved), Step.Release(final.sessionId, final.turnId)))
      ensures RunsAlone(old(store.State()), record) && Considerate(others, record.turnId) ==> Exclusive(store.State())
    {
      ghost var m := store.State();
      var seqNo, fragment, reply, asked;
      ending, seqNo, sent, fragment, reply, asked := HandleEvents(record.turnId, record.seqNo, events, others, failure);
      EndingFits(events, record.turnId, others, old(store.State()), failure, 0);
      var status :=
        match ending
        case Raised(_, failed, _) => failed
        case CancelledInStore(_) => "cancelled"
        case Finished => if asked then "paused" else "completed";
      final := record.(seqNo := seqNo, status := status);
      if status == "paused" {
        final := final.(paused := Some(pausedState));
      }
      persisted := if ending.CancelledInStore? then None else Some(Fragment(fragment, reply));
      EndSegment(final, m => others(LastSeen(events, ending) + 1, m));
      SegmentEndsSafely(record, final, others, m, LastSeen(events, ending));
    }

    /** The turn is saved; after another suspension its session is released, unless it pauses. */
    method EndSegment(final: TurnRecord, others: Memory -> Memory)
      modifies store
      ensures var saved := After(old(store.State()), End(final));
              store.State() == if final.status == "paused" then saved
                               else After(others(saved), Step.Release(final.sessionId, final.turnId))
    {
      store.SaveTurn(final);
      if final.status != "paused" {
        Await(others(store.State()));
        store.ReleaseSession(final.sessionId, final.turnId);
      }
    }

    /** A segment that asks the user, and the reply: the sequence number survives the store, if the
        others leave this turn alone. */
    method PauseAndResume(record: TurnRecord, events: seq<Event>, others: Others, pausedState: PausedTurn)
      returns (resumed: TurnRecord, sent: seq<Numbered>, fragment: seq<Numbered>)
      requires Asks(events) && LeavesAlone(others, record.turnId) && !CancelledIn(store.State(), record.turnId)
      modifies store
      ensures sent == fragment == Number(record.seqNo, events)
      ensures resumed.turnId == record.turnId && resumed.seqNo == record.seqNo + |events|
      ensures !CancelledIn(store.State(), record.turnId)
    {
      QuietEnding(events, record.turnId, others, store.State(), 0);
      var ending, final, persisted;
      ending, final, sent, persisted := ExecuteTurn(record, events, others, None, pausedState);
      fragment := persisted.value.events;
      var next := SubmitUserReply(final.turnId, final.userId, true);
      resumed := next.value;
    }

    /** A turn over any number of pause and resume segments: each one but the last asks the user, the
        last one ends in any way. The numbers go on where the segment before stopped. */
    method PlayTurn(record: TurnRecord, segments: seq<seq<Event>>, others: Others, last: seq<Event>, lastOthers: Others,
                    failure: Option<Failure>, pausedState: PausedTurn)
      returns (ending: Ending, sent: seq<Numbered>, fragments: seq<seq<Numbered>>, ghost before: Memory)
      requires forall i :: 0 <= i < |segments| ==> Asks(segments[i])
      requires LeavesAlone(others, record.turnId) && !CancelledIn(store.State(), record.turnId)
      requires failure.Some? ==> failure.value.status in {"cancelled", "error"}
      modifies store
      ensures ending == EndingOf(last, record.turnId, lastOthers, before, failure, 0)
      ensures fragments == NumberSegments(record.seqNo,
                             if ending.CancelledInStore? then segments else segments + [Handled(last, ending)])
      ensures sent == Number(record.seqNo, Flatten(segments + [Sent(last, ending)]))
    {
      var current, out, persisted;
      current, sent, fragments := PlayPauses(record, segments, others, pausedState);
      before := store.State();
      ending, out, persisted := LastSegment(current, last, lastOthers, failure, pausedState);
      SentOneMore(record.seqNo, segments, Sent(last, ending), current.seqNo, sent, out);
      NumberSegmentsMore(record.seqNo, segments, Handled(last, ending));
      sent := sent + out;
      if persisted.Some? {
        fragments := fragments + [persisted.value];
      }
    }

    /** The segments that ask the user. */
    method PlayPauses(record: TurnRecord, segments: seq<seq<Event>>, others: Others, pausedState: PausedTurn)
      returns (current: TurnRecord, sent: seq<Numbered>, fragments: seq<seq<Numbered>>)
      requires forall i :: 0 <= i < |segments| ==> Asks(segments[i])
      requires LeavesAlone(others, record.turnId) && !CancelledIn(store.State(), record.turnId)
      modifies store
      ensures PlayedSent(record.seqNo, segments, current.seqNo, sent)
      ensures fragments == NumberSegments(record.seqNo, segments) && current.turnId == record.turnId
    {
      current, sent, fragments := record, [], [];
      var out, fragment;
      for i := 0 to |segments|
        invariant PlayedSent(record.seqNo, segments[..i], current.seqNo, sent)
        invariant fragments == NumberSegments(record.seqNo, segments[..i])
        invariant current.turnId == record.turnId && !CancelledIn(store.State(), record.turnId)
      {
        SentOneMore(record.seqNo, segments[..i], segments[i], current.seqNo, sent, Number(current.seqNo, segments[i]));
        NumberSegmentsMore(record.seqNo, segments[..i], segments[i]);
        assert segments[..i + 1] == segments[..i] + [segments[i]];
        current, out, fragment := PauseAndResume(current, segments[i], others, pausedState);
        sent, fragments := sent + out, fragments + [fragment];
      }
      assert segments[..|segments|] == segments;
    }

    method LastSegment(record: TurnRecord, events: seq<Event>, others: Others, failure: Option<Failure>,
                       pausedState: PausedTurn)
      returns (ending: Ending, sent: seq<Numbered>, persisted: Option<seq<Numbered>>)
      requires failure.Some? ==> failure.value.status in {"cancelled", "error"}
      modifies store
      ensures ending == EndingOf(events, record.turnId, others, old(store.State()), failure, 0)
      ensures sent == Number(record.seqNo, Sent(events, ending))
      ensures persisted ==
              if ending.CancelledInStore? then None else Some(Number(record.seqNo, Handled(events, ending)))
    {
      var final, fragment;
      ending, final, sent, fragment := ExecuteTurn(record, events, others, failure, pausedState);
      persisted := if fragment.Some? then Some(fragment.value.events) else None;
    }
  }

  // ------------------------------------------------------------------ about segments

  /** The segment has handled these events. */
  ghost predicate Progress(from: int, handled: seq<Event>, seqNo: int, fragment: seq<Numbered>, reply: string,
                           asked: bool) {
    && seqNo == from + |handled| && fragment == Number(from, handled)
    && reply == Shown(handled) && asked == Asks(handled)
  }

  lemma OneMoreEvent(from: int, events: seq<Event>, i: nat, seqNo: int, fragment: seq<Numbered>, reply: string,
                     asked: bool)
    requires i < |events| && Progress(from, events[..i], seqNo, fragment, reply, asked)
    ensures var event := events[i];
            Progress(from, events[..i + 1], seqNo + 1, fragment + [Numbered(seqNo + 1, event)],
                     if event.kind.Content? || event.kind.ContentDelta? then reply + event.content else reply,
                     asked || event.kind.AskUser?)
  {
    assert events[..i + 1] == events[..i] + [events[i]];
    OneMore(from, events[..i], events[i]);
    assert Shown(events[..i]) + "" == Shown(events[..i]);
  }

  /** What is handled and sent when the segment stops at event `i`. */
  lemma TakesExactly(events: seq<Event>, i: nat, ending: Ending)
    requires i <= |events| && if ending.Finished? then i == |events| else ending.stop == i
    ensures Sent(events, ending) == events[..i]
    ensures Handled(events, ending) ==
            if ending.Raised? && ending.inSend && i < |events| then events[..i + 1] else events[..i]
  {
    assert events[..|events|] == events;
  }

  lemma {:induction false} EndingFits(events: seq<Event>, turnId: string, others: Others, m: Memory,
                                      failure: Option<Failure>, i: nat)
    requires i <= |events|
    ensures var ending := EndingOf(events, turnId, others, m, failure, i);
            && (ending.CancelledInStore? ==> ending.stop < |events|)
            && (ending.Raised? ==> failure.Some? && ending.status == failure.value.status)
    decreases |events| - i
  {
    if i < |events| {
      EndingFits(events, turnId, others, m, failure, i + 1);
    }
  }

  /** Event `j`, from the i-th on, arrives and finds the turn cancelled, before any failure. */
  ghost predicate Finds(events: seq<Event>, turnId: string, others: Others, m: Memory, failure: Option<Failure>, i: nat,
                        j: nat)
  {
    && i <= j < |events| && CancelledIn(Seen(others, m, j), turnId)
    && (failure.Some? && i <= failure.value.stop ==>
          j < failure.value.stop || (j == failure.value.stop && failure.value.inSend))
  }

  lemma {:induction false} EndsByFinding(events: seq<Event>, turnId: string, others: Others, m: Memory,
                                         failure: Option<Failure>, i: nat)
    requires i <= |events|
    ensures EndingOf(events, turnId, others, m, failure, i).CancelledInStore? <==>
            exists j: nat :: Finds(events, turnId, others, m, failure, i, j)
    decreases |events| - i
  {
    if Finds(events, turnId, others, m, failure, i, i) {
      assert EndingOf(events, turnId, others, m, failure, i) == CancelledInStore(i);
    } else if i < |events| && !(failure.Some? && failure.value.stop == i) {
      var next := i + 1;
      EndsByFinding(events, turnId, others, m, failure, next);
      if j: nat :| Finds(events, turnId, others, m, failure, next, j) {
        assert Finds(events, turnId, others, m, failure, i, j);
      }
      forall j: nat | Finds(events, turnId, others, m, failure, i, j)
        ensures Finds(events, turnId, others, m, failure, next, j)
      {
        assert j != i;
      }
    }
  }

  /** A cancellation in the store is honoured exactly if some event still arrives after it, and before
      any failure. */
  lemma CancellationIsHonouredByEvents(events: seq<Event>, turnId: string, others: Others, m: Memory,
                                       failure: Option<Failure>)
    ensures EndingOf(events, turnId, others, m, failure, 0).CancelledInStore? <==>
            exists j: nat :: Finds(events, turnId, others, m, failure, 0, j)
  {
    EndsByFinding(events, turnId, others, m, failure, 0);
  }

  /** And a failure ends it exactly if it comes while there are events and no event before it finds the
      turn cancelled. */
  lemma {:induction false} FailureEndsSegment(events: seq<Event>, turnId: string, others: Others, m: Memory,
                                              failure: Failure, i: nat)
    requires i <= |events| && i <= failure.stop
    ensures EndingOf(events, turnId, others, m, Some(failure), i) ==
              Raised(failure.stop, failure.status, failure.inSend) <==>
            && (failure.stop < |events| || (failure.stop == |events| && !failure.inSend))
            && !(exists j: nat :: Finds(events, turnId, others, m, Some(failure), i, j))
    decreases |events| - i
  {
    EndsByFinding(events, turnId, others, m, Some(failure), i);
    if i < |events| && i < failure.stop && !CancelledIn(Seen(others, m, i), turnId) {
      FailureEndsSegment(events, turnId, others, m, failure, i + 1);
      EndsByFinding(events, turnId, others, m, Some(failure), i + 1);
    }
  }

  /** So a turn that others cancel before its j-th event handles no further event. */
  lemma {:induction false} CancelStopsSegment(events: seq<Event>, turnId: string, others: Others, m: Memory,
                                              before: Memory, i: nat, j: nat)
    requires i <= j < |events| && Filed(before) && turnId in before.turns
    requires Seen(others, m, j) == After(before, Cancel(turnId))
    ensures var ending := EndingOf(events, turnId, others, m, None, i);
            ending.CancelledInStore? && i <= ending.stop <= j
    decreases j - i
  {
    if i < j && !CancelledIn(Seen(others, m, i), turnId) {
      CancelStopsSegment(events, turnId, others, m, before, i + 1, j);
    }
  }

  /** A cancellation stored after the last event is overwritten: by "completed", or by "paused", and
      then the cancelled turn can be resumed. */
  lemma LateCancellationIsOverwritten(record: TurnRecord, events: seq<Event>, others: Others, m: Memory,
                                      pausedState: PausedTurn)
    requires forall j: nat :: j < |events| ==> !CancelledIn(Seen(others, m, j), record.turnId)
    requires CancelledIn(Seen(others, m, |events|), record.turnId)
    ensures EndingOf(events, record.turnId, others, m, None, 0) == Finished
    ensures var asked, late := Asks(events), Seen(others, m, |events|);
            var final := if asked then record.(status := "paused", paused := Some(pausedState))
                         else record.(status := "completed");
            var saved := After(late, End(final));
            && final.status == FinalStatus(events, Finished) && !CancelledIn(saved, record.turnId)
            && (asked ==> Writes(saved, Resume(record.turnId)).Some?)
  {
    EndsByFinding(events, record.turnId, others, m, None, 0);
    EndingFits(events, record.turnId, others, m, None, 0);
  }

  /** Others leave the turn alone, and by themselves keep exclusion. */
  ghost predicate Considerate(others: Others, turnId: string) {
    LeavesAlone(others, turnId) && forall i, m :: Exclusive(m) ==> Exclusive(others(i, m))
  }

  ghost predicate RunsAlone(m: Memory, record: TurnRecord) {
    Exclusive(m) && RunningIn(m, record.turnId, record.sessionId)
  }

  lemma {:induction false} SeenExclusive(others: Others, m: Memory, turnId: string, i: nat)
    requires Exclusive(m) && Considerate(others, turnId)
    ensures Exclusive(Seen(others, m, i))
  {
    if i > 0 {
      SeenExclusive(others, m, turnId, i - 1);
    }
  }

  /** Both steps that end a segment are safe, if others leave the turn alone and keep exclusion. */
  lemma SegmentEndsSafely(record: TurnRecord, final: TurnRecord, others: Others, m: Memory, last: nat)
    requires final.turnId == record.turnId && final.sessionId == record.sessionId && !final.Running()
    ensures var saved := After(Seen(others, m, last), End(final));
            var left, release := others(last + 1, saved), Step.Release(final.sessionId, final.turnId);
            && (LeavesAlone(others, record.turnId) ==> Safe(left, release))
            && (RunsAlone(m, record) && Considerate(others, record.turnId) ==>
                  Exclusive(saved) && Exclusive(After(left, release)))
  {
    var seen := Seen(others, m, last);
    var saved := After(seen, End(final));
    var left := others(last + 1, saved);
    if LeavesAlone(others, record.turnId) {
      assert Get(left.turns, record.turnId) == Get(saved.turns, record.turnId);
      if RunsAlone(m, record) && Considerate(others, record.turnId) {
        SeenAlone(others, m, record.turnId, last);
        SeenExclusive(others, m, record.turnId, last);
        EndOfRunningTurnIsOrderly(seen, final);
        SaveKeepsExclusion(seen, final);
        ReleaseKeepsExclusion(left, final.sessionId, final.turnId);
      }
    }
  }

  ghost predicate LeavesAlone(others: Others, turnId: string) {
    forall i, m :: Get(others(i, m).turns, turnId) == Get(m.turns, turnId)
  }

  lemma {:induction false} SeenAlone(others: Others, m: Memory, turnId: string, i: nat)
    requires LeavesAlone(others, turnId)
    ensures Get(Seen(others, m, i).turns, turnId) == Get(m.turns, turnId)
  {
    if i > 0 {
      SeenAlone(others, m, turnId, i - 1);
    }
  }

  /** Without a failure or a cancellation by others, a segment ends by itself. */
  lemma {:induction false} QuietEnding(events: seq<Event>, turnId: string, others: Others, m: Memory, i: nat)
    requires LeavesAlone(others, turnId) && !CancelledIn(m, turnId) && i <= |events|
    ensures EndingOf(events, turnId, others, m, None, i) == Finished
    decreases |events| - i
  {
    SeenAlone(others, m, turnId, i);
    if i < |events| {
      QuietEnding(events, turnId, others, m, i + 1);
    }
  }

  /** The turn has sent these segments. */
  ghost predicate PlayedSent(from: int, segments: seq<seq<Event>>, seqNo: int, sent: seq<Numbered>) {
    seqNo == from + |Flatten(segments)| && sent == Number(from, Flatten(segments))
  }

  lemma SentOneMore(from: int, segments: seq<seq<Event>>, segment: seq<Event>, seqNo: int, sent: seq<Numbered>,
                    out: seq<Numbered>)
    requires PlayedSent(from, segments, seqNo, sent) && out == Number(seqNo, segment)
    ensures PlayedSent(from, segments + [segment], seqNo + |segment|, sent + out)
  {
    FlattenMore(segments, segment);
    SentMore(from, Flatten(segments), segment, Flatten(segments + [segment]), seqNo, sent, out);
  }

  lemma SentMore(from: int, flat: seq<Event>, segment: seq<Event>, all: seq<Event>, seqNo: int, sent: seq<Numbered>,
                 out: seq<Numbered>)
    requires all == flat + segment && seqNo == from + |flat|
    requires sent == Number(from, flat) && out == Number(seqNo, segment)
    ensures sent + out == Number(from, all) && seqNo + |segment| == from + |all|
  {
    NumberMore(from, flat, segment);
  }

  lemma FlattenMore(segments: seq<seq<Event>>, segment: seq<Event>)
    ensures Flatten(segments + [segment]) == Flatten(segments) + segment
  {
    assert (segments + [segment])[..|segments|] == segments;
  }

  lemma NumberSegmentsMore(from: int, segments: seq<seq<Event>>, segment: seq<Event>)
    ensures NumberSegments(from, segments + [segment]) ==
            NumberSegments(from, segments) + [Number(from + |Flatten(segments)|, segment)]
  {
    assert (segments + [segment])[..|segments|] == segments;
  }

  function Flatten(segments: seq<seq<Event>>): seq<Event> {
    if segments == [] then [] else Flatten(segments[..|segments| - 1]) + segments[|segments| - 1]
  }

  /** Every segment numbered from where the one before it stopped. */
  function NumberSegments(from: int, segments: seq<seq<Event>>): (fragments: seq<seq<Numbered>>)
    ensures |fragments| == |segments|
  {
    if segments == [] then []
    else
      var init := segments[..|segments| - 1];
      NumberSegments(from, init) + [Number(from + |Flatten(init)|, segments[|segments| - 1])]
  }

  lemma {:induction false} NumberMore(from: int, a: seq<Event>, b: seq<Event>)
    ensures Number(from, a) + Number(from + |a|, b) == Number(from, a + b)
    decreases |b|
  {
    if b == [] {
      assert a + b == a;
    } else {
      var init, last := b[..|b| - 1], b[|b| - 1];
      assert (a + b)[..|a + b| - 1] == a + init;
      NumberMore(from, a, init);
      assert Number(from + |a|, b) == Number(from + |a|, init) + [Numbered(from + |a| + |b|, last)];
    }
  }

  lemma {:induction false} NumberAt(from: int, events: seq<Event>, k: nat)
    requires k < |events|
    ensures Number(from, events)[k] == Numbered(from + k + 1, events[k])
    decreases |events|
  {
    if k < |events| - 1 {
      NumberAt(from, events[..|events| - 1], k);
    }
  }

  /** So the client of a new turn sees 1, 2, 3, ... */
  lemma NumbersHaveNoGap(segments: seq<seq<Event>>, k: nat)
    requires k < |Flatten(segments)|
    ensures Number(0, Flatten(segments))[k] == Numbered(k + 1, Flatten(segments)[k])
  {
    NumberAt(0, Flatten(segments), k);
  }

  /** ... and the persisted fragments are the consecutive slices of that. */
  lemma {:induction false} FragmentsAreSlices(segments: seq<seq<Event>>, i: nat)
    requires i < |segments|
    ensures var start, sent := |Flatten(segments[..i])|, Number(0, Flatten(segments));
            start + |segments[i]| <= |sent| && NumberSegments(0, segments)[i] == sent[start..start + |segments[i]|]
    decreases |segments|
  {
    var init, last := segments[..|segments| - 1], segments[|segments| - 1];
    NumberMore(0, Flatten(init), last);
    if i < |init| {
      FragmentsAreSlices(init, i);
      assert init[..i] == segments[..i];
    }
  }
}
