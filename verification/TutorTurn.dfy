/**
 * The agent loop inside a segment of a turn (backend/app/modules/agent/runtime/orchestrator.py between
 * agent/loop/runner.py and tutor/turn_runtime.py): what the turn's status and text say about the run.
 */
module TutorTurn {
  import Agent = AgentLoop
  import opened Options
  import opened Text
  import Runtime = TurnRuntime
  import TurnStore

  function OfLoop(e: Agent.Event): Runtime.Event {
    match e
    case Content(text) => Runtime.Event(Runtime.EventKind.Content, text)
    case Delta(text) => Runtime.Event(Runtime.EventKind.ContentDelta, text)
    case AskUser(question, _) => Runtime.Event(Runtime.EventKind.AskUser, question)
  }

  function OfRun(events: seq<Agent.Event>): seq<Runtime.Event> {
    if events == [] then [] else OfRun(events[..|events| - 1]) + [OfLoop(events[|events| - 1])]
  }

  /** The events that are not of some other kind. */
  function Essential(events: seq<Runtime.Event>): seq<Runtime.Event> {
    if events == [] then []
    else
      var last := events[|events| - 1];
      Essential(events[..|events| - 1]) + (if last.kind.Other? then [] else [last])
  }

  /** The turn gets the events of the run, and anywhere among them those of other kinds: the session, the
      start and end of tools, an error, the end. */
  ghost predicate Carries(events: seq<Runtime.Event>, run: seq<Agent.Event>) {
    Essential(events) == OfRun(run)
  }

  lemma {:induction false} EssentialCounts(events: seq<Runtime.Event>)
    ensures Runtime.Shown(events) == Runtime.Shown(Essential(events))
    ensures Runtime.Asks(events) <==> Runtime.Asks(Essential(events))
  {
    if events != [] {
      var init, last := events[..|events| - 1], events[|events| - 1];
      assert events == init + [last];
      EssentialCounts(init);
      Runtime.OneMore(0, init, last);
      Runtime.OneMore(0, Essential(init), last);
      assert Essential(init) + [] == Essential(init);
    }
  }

  lemma {:induction false} RunCounts(run: seq<Agent.Event>)
    ensures Runtime.Shown(OfRun(run)) == Agent.Shown(run)
    ensures Runtime.Asks(OfRun(run)) <==> !Agent.Quiet(run)
  {
    if run != [] {
      var init, last := run[..|run| - 1], run[|run| - 1];
      assert run == init + [last];
      RunCounts(init);
      Runtime.OneMore(0, OfRun(init), OfLoop(last));
    }
  }

  lemma CarriedCounts(events: seq<Runtime.Event>, run: seq<Agent.Event>)
    requires Carries(events, run)
    ensures Runtime.Shown(events) == Agent.Shown(run) && (Runtime.Asks(events) <==> !Agent.Quiet(run))
  {
    EssentialCounts(events);
    RunCounts(run);
  }

  /** A segment that ends by itself is saved as paused exactly if its run paused, and else as completed;
      its text, stripped, is the final text of the run. */
  lemma StatusTellsOutcome(o: Agent.Outcome, end: Agent.LoopState, start: seq<Agent.Message>, blocks: Agent.Blocks,
                           events: seq<Runtime.Event>)
    requires Agent.Ended(o, end, start, blocks) && Carries(events, end.events)
    ensures Runtime.FinalStatus(events, Runtime.Finished) == if o.Paused? then "paused" else "completed"
    ensures Strip(Runtime.Shown(events)) == if o.Paused? then "" else o.finalText
  {
    CarriedCounts(events, end.events);
    if o.Paused? {
      assert end.events[|end.events| - 1] in end.events;
      StripBlank(Runtime.Shown(events));
    }
  }

  /** A run that fails - in an iteration that began in the state `s`, after some chunks of a stream, if it
      streams - is reported by an event of another kind and ends like any other: the turn is saved as
      completed, with the text so far. */
  lemma FailedRunIsCompleted(s: Agent.LoopState, start: seq<Agent.Message>, blocks: Agent.Blocks, chunks: seq<string>,
                             events: seq<Runtime.Event>)
    requires Agent.Steady(s, start, blocks) && Carries(events, s.events + Agent.Deltas(chunks))
    ensures Runtime.FinalStatus(events, Runtime.Finished) == "completed"
    ensures Runtime.Shown(events) == Agent.Shown(s.events) + Concat(chunks)
  {
    Agent.QuietDeltas(s.events, chunks);
    Agent.ShownDeltas(s.events, chunks);
    CarriedCounts(events, s.events + Agent.Deltas(chunks));
  }

  /** A segment from its messages to its record, when others leave the turn alone: whatever the model and
      the tools do, the turn ends paused or completed as the run did, and what is persisted as the reply
      is the final text. `frame` adds the events of other kinds. */
  method RunSegment(runtime: Runtime.TutorTurnRuntime, record: TurnStore.TurnRecord, start: seq<Agent.Message>,
                    env: Agent.Environment, settings: Agent.Settings, frame: seq<Agent.Event> -> seq<Runtime.Event>,
                    others: Runtime.Others, pausedState: TurnStore.PausedTurn)
    returns (o: Agent.Outcome, final: TurnStore.TurnRecord, reply: string)
    requires forall run :: Carries(frame(run), run)
    requires Runtime.LeavesAlone(others, record.turnId)
    requires !Runtime.CancelledIn(runtime.store.State(), record.turnId)
    modifies runtime.store
    ensures final.status == if o.Paused? then "paused" else "completed"
    ensures Strip(reply) == if o.Paused? then "" else o.finalText
    ensures o.iterations <= Agent.Limit(settings)
    ensures final.paused == if o.Paused? then Some(pausedState) else record.paused
  {
    var end, requests;
    ghost var blocks;
    o, end, requests, blocks := Agent.Run(start, env, settings, {});
    var events := frame(end.events);
    Runtime.QuietEnding(events, record.turnId, others, runtime.store.State(), 0);
    StatusTellsOutcome(o, end, start, blocks, events);
    var ending, sent, persisted;
    ending, final, sent, persisted := runtime.ExecuteTurn(record, events, others, None, pausedState);
    reply := persisted.value.reply;
  }
}
