/** The tool-calling loop of the tutor agent (backend/app/modules/agent/loop/runner.py). */
module AgentLoop {
  import opened Options
  import opened Text

  // --------------------------------------------------------------------- messages

  datatype Call = Call(id: string, name: string, arguments: string) {
    predicate Named() {
      id != "" && name != ""
    }
  }

  datatype Message =
    | System(content: string)
    | User(content: string)
    | Assistant(content: string, calls: seq<Call>)
    | Tool(content: string, callId: string, name: string)

  datatype ToolResult = ToolResult(content: string, pauseForUser: bool, question: string)

  datatype Response = Response(content: string, calls: seq<Call>)

  /** Everything the loop does not decide: what the model streams or answers at its n-th request and
      what the tools return for the j-th call of that answer. */
  datatype Environment = Environment(
    stream: (nat, seq<Message>) -> seq<string>, chat: (nat, seq<Message>) -> Response,
    tool: (nat, nat, Call) -> ToolResult)

  /** The model never leaves the id or the name of a call empty. */
  ghost predicate Named(env: Environment) {
    forall n, ms, i :: 0 <= i < |env.chat(n, ms).calls| ==> env.chat(n, ms).calls[i].Named()
  }

  datatype Settings = Settings(streaming: bool, tools: set<string>, needsGrounding: bool, maxIterations: int)

  datatype Event = Content(text: string) | Delta(text: string) | AskUser(question: string, pending: Call)

  datatype Outcome =
    | Finished(finalText: string, iterations: nat, completed: bool)
    | Paused(question: string, iterations: nat, pending: Call)

  const GROUNDING_TOOL := "search_knowledge"

  const GROUNDING_NUDGE :=
    "Grounding required: call `search_knowledge` before answering questions about Dutch meanings, grammar, or usage."

  const MAX_ITERATION_FALLBACK :=
    "I" + " hit the tool step limit for this turn. Please ask a shorter follow-up or rephrase your question" + "."

  predicate IsFinalAnswerTurn(messages: seq<Message>) {
    messages != [] && messages[|messages| - 1].Tool?
  }

  // -------------------------------------------------- the shape of what the loop appends

  /** What the loop appends: nudges, and batches of calls with the answers given to them so far. */
  datatype Block = Nudge | Batch(content: string, calls: seq<Call>, answers: seq<string>) {
    predicate Fits() {
      Batch? ==> calls != [] && |answers| <= |calls|
    }

    /** Every call of the batch has been answered. */
    predicate Full() {
      Batch? ==> |answers| == |calls|
    }
  }

  /** The answers, in the order of the calls, each with the id and name of its call (never more
      answers than calls). */
  function AnswerMessages(calls: seq<Call>, answers: seq<string>): seq<Message> {
    if answers == [] || |answers| > |calls| then []
    else
      var n := |answers| - 1;
      AnswerMessages(calls, answers[..n]) + [Tool(answers[n], calls[n].id, calls[n].name)]
  }

  function Emit(b: Block): seq<Message> {
    match b
    case Nudge => [System(GROUNDING_NUDGE)]
    case Batch(content, calls, answers) => [Assistant(content, calls)] + AnswerMessages(calls, answers)
  }

  /** The blocks appended so far, the newest outermost. */
  datatype Blocks = Nothing | Then(before: Blocks, last: Block)

  ghost predicate AllFit(blocks: Blocks) {
    blocks.Then? ==> AllFit(blocks.before) && blocks.last.Fits()
  }

  ghost predicate AllFull(blocks: Blocks) {
    blocks.Then? ==> AllFull(blocks.before) && blocks.last.Fits() && blocks.last.Full()
  }

  ghost function Trail(blocks: Blocks): seq<Message> {
    match blocks
    case Nothing => []
    case Then(before, last) => Trail(before) + Emit(last)
  }

  ghost function Nudges(blocks: Blocks): nat {
    match blocks
    case Nothing => 0
    case Then(before, last) => Nudges(before) + (if last.Nudge? then 1 else 0)
  }

  ghost predicate Prefix(a: Blocks, b: Blocks) {
    a == b || (b.Then? && Prefix(a, b.before))
  }

  ghost function Append(a: Blocks, b: Blocks): Blocks {
    match b
    case Nothing => a
    case Then(before, last) => Then(Append(a, before), last)
  }

  lemma {:induction false} FullFits(blocks: Blocks)
    requires AllFull(blocks)
    ensures AllFit(blocks)
  {
    if blocks.Then? {
      FullFits(blocks.before);
    }
  }

  lemma {:induction false} TrailAppend(a: Blocks, b: Blocks)
    ensures Trail(Append(a, b)) == Trail(a) + Trail(b)
    ensures AllFit(a) && AllFit(b) ==> AllFit(Append(a, b))
    ensures AllFull(a) && AllFull(b) <==> AllFull(Append(a, b))
  {
    match b
    case Nothing =>
      assert Trail(a) + [] == Trail(a);
    case Then(before, last) =>
      TrailAppend(a, before);
      Associative(Trail(a), Trail(before), Emit(last));
  }

  lemma Associative<T>(a: seq<T>, b: seq<T>, c: seq<T>)
    ensures a + (b + c) == a + b + c
  {
  }

  lemma {:induction false} PrefixTransitive(a: Blocks, b: Blocks, c: Blocks)
    requires Prefix(a, b) && Prefix(b, c)
    ensures Prefix(a, c)
    decreases c
  {
    if b != c {
      PrefixTransitive(a, b, c.before);
    }
  }

  // ------------------------------------------------------------------ tool execution

  /** How many results are appended: all, or those before the first that asks the user. */
  function BeforePause(results: seq<ToolResult>, k: nat): (n: nat)
    requires k <= |results|
    ensures k <= n <= |results|
    ensures forall j :: k <= j < n ==> !results[j].pauseForUser
    ensures n < |results| ==> results[n].pauseForUser
    decreases |results| - k
  {
    if k == |results| || results[k].pauseForUser then k else BeforePause(results, k + 1)
  }

  function Contents(results: seq<ToolResult>): (contents: seq<string>)
    ensures |contents| == |results|
  {
    if results == [] then [] else Contents(results[..|results| - 1]) + [results[|results| - 1].content]
  }

  function ResultOf(call: Call, j: nat, env: Environment, settings: Settings, request: nat): ToolResult {
    if call.name in settings.tools then env.tool(request, j, call)
    else ToolResult("Unknown tool: " + call.name, false, "")
  }

  function Results(calls: seq<Call>, env: Environment, settings: Settings, request: nat): (results: seq<ToolResult>)
    ensures |results| == |calls|
  {
    if calls == [] then []
    else
      var n := |calls| - 1;
      Results(calls[..n], env, settings, request) + [ResultOf(calls[n], n, env, settings, request)]
  }

  /** The contents appended as answers: those of the results before the first that asks the user. */
  function Answers(calls: seq<Call>, env: Environment, settings: Settings, request: nat): (answers: seq<string>)
    ensures |answers| <= |calls|
  {
    var results := Results(calls, env, settings, request);
    Contents(results[..BeforePause(results, 0)])
  }

  /** The names that the calls record as called: those of tools that exist. */
  function ToolsUsed(calls: seq<Call>, settings: Settings): set<string> {
    set call | call in calls && call.name in settings.tools :: call.name
  }

  lemma OneMoreCall(calls: seq<Call>, call: Call, env: Environment, settings: Settings, request: nat)
    ensures Results(calls + [call], env, settings, request) ==
            Results(calls, env, settings, request) + [ResultOf(call, |calls|, env, settings, request)]
    ensures ToolsUsed(calls + [call], settings) ==
            ToolsUsed(calls, settings) + (if call.name in settings.tools then {call.name} else {})
  {
    assert (calls + [call])[..|calls|] == calls;
    assert ToolsUsed(calls + [call], settings) ==
           ToolsUsed(calls, settings) + (if call.name in settings.tools then {call.name} else {}) by {
      assert forall c :: c in calls + [call] <==> c in calls || c == call;
    }
  }

  lemma OneMoreAnswer(calls: seq<Call>, results: seq<ToolResult>, k: nat)
    requires k < |results| == |calls|
    ensures AnswerMessages(calls, Contents(results[..k + 1])) ==
            AnswerMessages(calls, Contents(results[..k])) + [Tool(results[k].content, calls[k].id, calls[k].name)]
  {
    assert results[..k + 1][..k] == results[..k];
    var answers := Contents(results[..k + 1]);
    assert answers[..k] == Contents(results[..k]);
  }

  /** What the j-th appended answer says, and which results pause. */
  ghost predicate AnsweredBy(call: Call, j: nat, content: string, env: Environment, settings: Settings, request: nat) {
    if call.name in settings.tools
    then content == env.tool(request, j, call).content && !env.tool(request, j, call).pauseForUser
    else content == "Unknown tool: " + call.name
  }

  lemma {:induction false} ContentsAt(results: seq<ToolResult>, j: nat)
    requires j < |results|
    ensures Contents(results)[j] == results[j].content
  {
    if j < |results| - 1 {
      ContentsAt(results[..|results| - 1], j);
    }
  }

  lemma {:induction false} AnswerMessagesAt(calls: seq<Call>, answers: seq<string>, j: nat)
    requires j < |answers| <= |calls|
    ensures |AnswerMessages(calls, answers)| == |answers|
    ensures AnswerMessages(calls, answers)[j] == Tool(answers[j], calls[j].id, calls[j].name)
    decreases |answers|
  {
    var n := |answers| - 1;
    if n > 0 {
      AnswerMessagesAt(calls, answers[..n], if j < n then j else 0);
    }
  }

  /** The appended answers are what the called tools returned, or that a tool is unknown, each with the
      id and name of its call; they stop before the first call of a tool that asks the user. */
  lemma AnswersAre(calls: seq<Call>, env: Environment, settings: Settings, request: nat)
    ensures var answers := Answers(calls, env, settings, request);
            && (forall j :: 0 <= j < |answers| ==>
                  && AnsweredBy(calls[j], j, answers[j], env, settings, request)
                  && |AnswerMessages(calls, answers)| == |answers|
                  && AnswerMessages(calls, answers)[j] == Tool(answers[j], calls[j].id, calls[j].name))
            && (|answers| < |calls| ==>
                  var asking := calls[|answers|];
                  && asking.name in settings.tools && env.tool(request, |answers|, asking).pauseForUser
                  && Results(calls, env, settings, request)[|answers|] == env.tool(request, |answers|, asking))
  {
    var answers, results := Answers(calls, env, settings, request), Results(calls, env, settings, request);
    forall j | 0 <= j < |answers|
      ensures AnsweredBy(calls[j], j, answers[j], env, settings, request)
      ensures |AnswerMessages(calls, answers)| == |answers|
      ensures AnswerMessages(calls, answers)[j] == Tool(answers[j], calls[j].id, calls[j].name)
    {
      ResultsAt(calls, env, settings, request, j);
      ContentsAt(results[..|answers|], j);
      AnswerMessagesAt(calls, answers, j);
    }
    if |answers| < |calls| {
      ResultsAt(calls, env, settings, request, |answers|);
    }
  }

  /** `_execute_tool_calls`: every call is executed, then the answers are appended up to the first
      that asks the user. */
  method ExecuteToolCalls(calls: seq<Call>, env: Environment, settings: Settings, request: nat, called0: set<string>,
                          messages0: seq<Message>)
    returns (messages: seq<Message>, called: set<string>, paused: bool, pausing: nat, question: string)
    ensures messages == messages0 + AnswerMessages(calls, Answers(calls, env, settings, request))
    ensures pausing == |Answers(calls, env, settings, request)| && paused == (pausing < |calls|)
    ensures paused ==> question == Results(calls, env, settings, request)[pausing].question
    ensures called == called0 + ToolsUsed(calls, settings)
    ensures called == called0 + set call | call in calls && call.name in settings.tools :: call.name
  {
    var results;
    results, called := RunCalls(calls, env, settings, request, called0);
    messages, paused, pausing, question := AppendAnswers(calls, results, messages0);
  }

  method AppendAnswers(calls: seq<Call>, results: seq<ToolResult>, messages0: seq<Message>)
    returns (messages: seq<Message>, paused: bool, pausing: nat, question: string)
    requires |results| == |calls|
    ensures pausing == BeforePause(results, 0) && paused == (pausing < |calls|)
    ensures messages == messages0 + AnswerMessages(calls, Contents(results[..pausing]))
    ensures paused ==> question == results[pausing].question
  {
    messages, question, pausing := messages0, "", 0;
    while pausing < |calls|
      invariant 0 <= pausing <= BeforePause(results, 0)
      invariant messages == messages0 + AnswerMessages(calls, Contents(results[..pausing]))
    {
      var result := results[pausing];
      if result.pauseForUser {
        return messages, true, pausing, result.question;
      }
      OneMoreAnswer(calls, results, pausing);
      messages := messages + [Tool(result.content, calls[pausing].id, calls[pausing].name)];
      pausing := pausing + 1;
    }
    paused := false;
  }

  method RunCalls(calls: seq<Call>, env: Environment, settings: Settings, request: nat, called0: set<string>)
    returns (results: seq<ToolResult>, called: set<string>)
    ensures results == Results(calls, env, settings, request)
    ensures called == called0 + ToolsUsed(calls, settings)
  {
    results, called := [], called0;
    for j := 0 to |calls|
      invariant results == Results(calls[..j], env, settings, request)
      invariant called == called0 + ToolsUsed(calls[..j], settings)
    {
      var call := calls[j];
      assert calls[..j + 1] == calls[..j] + [call];
      OneMoreCall(calls[..j], call, env, settings, request);
      if call.name in settings.tools {
        results := results + [env.tool(request, j, call)];
        called := called + {call.name};
      } else {
        results := results + [ToolResult("Unknown tool: " + call.name, false, "")];
      }
    }
    assert calls[..|calls|] == calls;
  }

  // ----------------------------------------------------------------------- the run

  /** What the learner sees: the text of all content events. */
  function Shown(events: seq<Event>): string {
    if events == [] then ""
    else
      var last := events[|events| - 1];
      Shown(events[..|events| - 1]) + (if last.AskUser? then "" else last.text)
  }

  function Deltas(chunks: seq<string>): seq<Event> {
    if chunks == [] then [] else Deltas(chunks[..|chunks| - 1]) + [Delta(chunks[|chunks| - 1])]
  }

  /** No event asks the user. */
  ghost predicate Quiet(events: seq<Event>) {
    forall e :: e in events ==> !e.AskUser?
  }

  lemma {:induction false} QuietDeltas(events: seq<Event>, chunks: seq<string>)
    requires Quiet(events)
    ensures Quiet(events + Deltas(chunks))
    decreases |chunks|
  {
    if chunks == [] {
      assert events + Deltas(chunks) == events;
    } else {
      var init, last := chunks[..|chunks| - 1], chunks[|chunks| - 1];
      assert events + Deltas(chunks) == (events + Deltas(init)) + [Delta(last)];
      QuietDeltas(events, init);
    }
  }

  lemma ShownMore(events: seq<Event>, e: Event)
    ensures Shown(events + [e]) == Shown(events) + (if e.AskUser? then "" else e.text)
  {
    assert (events + [e])[..|events|] == events;
  }

  lemma {:induction false} ShownDeltas(events: seq<Event>, chunks: seq<string>)
    ensures Shown(events + Deltas(chunks)) == Shown(events) + Concat(chunks)
    decreases |chunks|
  {
    if chunks == [] {
      assert events + Deltas(chunks) == events;
    } else {
      var init, last := chunks[..|chunks| - 1], chunks[|chunks| - 1];
      assert events + Deltas(chunks) == (events + Deltas(init)) + [Delta(last)];
      ShownMore(events + Deltas(init), Delta(last));
      ShownDeltas(events, init);
    }
  }

  /** The model was asked with every call so far answered. */
  ghost predicate Complete(request: seq<Message>, start: seq<Message>, blocks: Blocks) {
    exists p: Blocks {:trigger Prefix(p, blocks)} :: Prefix(p, blocks) && AllFull(p) && request == start + Trail(p)
  }

  ghost predicate AllComplete(requests: seq<seq<Message>>, start: seq<Message>, blocks: Blocks) {
    forall i :: 0 <= i < |requests| ==> Complete(requests[i], start, blocks)
  }

  method StreamAnswer(chunks: seq<string>, events0: seq<Event>) returns (finalText: string, events: seq<Event>)
    ensures events == events0 + Deltas(chunks) && finalText == Strip(Concat(chunks))
  {
    events := events0;
    var text := "";
    for i := 0 to |chunks|
      invariant events == events0 + Deltas(chunks[..i]) && text == Concat(chunks[..i])
    {
      assert chunks[..i + 1][..i] == chunks[..i];
      events := events + [Delta(chunks[i])];
      text := text + chunks[i];
    }
    assert chunks[..|chunks|] == chunks;
    finalText := Strip(text);
  }

  /** The variables of the loop. */
  datatype LoopState = LoopState(
    messages: seq<Message>, events: seq<Event>, finalText: string, called: set<string>, groundingRetries: nat)

  /** Between iterations: every batch answered, nothing but white space shown, at most one nudge. */
  ghost predicate Steady(s: LoopState, start: seq<Message>, blocks: Blocks) {
    && AllFull(blocks) && s.messages == start + Trail(blocks)
    && Blank(Shown(s.events)) && Quiet(s.events) && Strip(s.finalText) == s.finalText
    && Nudges(blocks) == s.groundingRetries <= 1
  }

  /** The names of the tools called before, or by the batches. */
  ghost function CalledIn(blocks: Blocks, settings: Settings, called0: set<string>): set<string> {
    match blocks
    case Nothing => called0
    case Then(before, last) =>
      var called := CalledIn(before, settings, called0);
      if last.Batch? then called + ToolsUsed(last.calls, settings) else called
  }

  /** Every batch is an answer of the model to the messages before it, with what the tools returned
      for its calls; and every nudge was due: the question needs grounding, no nudge had been given
      and the search tool had not been called. */
  ghost predicate Genuine(blocks: Blocks, start: seq<Message>, env: Environment, settings: Settings,
                          called0: set<string>) {
    blocks.Then? ==>
      && Genuine(blocks.before, start, env, settings, called0)
      && !Streams(start + Trail(blocks.before), settings)
      && match blocks.last
         case Nudge => NudgeDue(blocks.before, CalledIn(blocks.before, settings, called0), settings)
         case Batch(_, _, _) =>
           exists n: nat :: blocks.last == Called(n, env.chat(n, start + Trail(blocks.before)), env, settings)
  }

  ghost predicate NudgeDue(blocks: Blocks, called: set<string>, settings: Settings) {
    settings.needsGrounding && Nudges(blocks) == 0 && GROUNDING_TOOL !in called
  }

  /** An answer that is shown although the question needs grounding. */
  ghost predicate Grounded(s: LoopState, blocks: Blocks, settings: Settings) {
    settings.needsGrounding && !settings.streaming && s.finalText != "" ==>
      Nudges(blocks) == 1 || GROUNDING_TOOL in s.called
  }

  function Called(n: nat, response: Response, env: Environment, settings: Settings): Block {
    Batch(response.content, response.calls, Answers(response.calls, env, settings, n))
  }

  /** The model is to stream its answer, without tools, instead of being asked with them. */
  ghost predicate Streams(request: seq<Message>, settings: Settings) {
    settings.streaming && (settings.tools == {} || (request != [] && request[|request| - 1].Tool?))
  }

  /** `text` is what the model answered to the i-th request - streamed, or without calls when asked with
      its tools - without its white border. */
  ghost predicate Said(text: string, i: nat, request: seq<Message>, env: Environment, settings: Settings) {
    if Streams(request, settings) then text == Strip(Concat(env.stream(i, request)))
    else text == Strip(env.chat(i, request).content) && env.chat(i, request).calls == []
  }

  ghost predicate SaidAt(text: string, i: nat, requests: seq<seq<Message>>, env: Environment, settings: Settings) {
    1 <= i <= |requests| && Said(text, i, requests[i - 1], env, settings)
  }

  /** The reply to the i-th request, made after the blocks `p`, does not end the run: a blank stream is
      passed over, calls become the next batch, and an answer without calls is met with the nudge. */
  ghost predicate LeadsOn(p: Blocks, i: nat, request: seq<Message>, blocks: Blocks, env: Environment,
                          settings: Settings) {
    var response := env.chat(i, request);
    if Streams(request, settings) then Strip(Concat(env.stream(i, request))) == ""
    else Prefix(Then(p, if response.calls == [] then Nudge else Called(i, response, env, settings)), blocks)
  }

  ghost predicate Followed(i: nat, request: seq<Message>, start: seq<Message>, blocks: Blocks, env: Environment,
                           settings: Settings) {
    exists p: Blocks {:trigger Prefix(p, blocks)} ::
      Prefix(p, blocks) && AllFull(p) && request == start + Trail(p) && LeadsOn(p, i, request, blocks, env, settings)
  }

  ghost predicate AllFollowed(requests: seq<seq<Message>>, start: seq<Message>, blocks: Blocks, env: Environment,
                              settings: Settings) {
    forall i :: 0 <= i < |requests| ==> Followed(i + 1, requests[i], start, blocks, env, settings)
  }

  /** What became of the replies to the requests: all led on - to a pause, or until no more requests are
      allowed - or all but the last, and that one is the final text. */
  ghost predicate Accounted(o: Outcome, requests: seq<seq<Message>>, start: seq<Message>, blocks: Blocks,
                            env: Environment, settings: Settings) {
    || (&& AllFollowed(requests, start, blocks, env, settings)
        && (o.Finished? ==> |requests| == if settings.maxIterations < 0 then 0 else settings.maxIterations))
    || (&& o.Finished? && requests != [] && AllFollowed(requests[..|requests| - 1], start, blocks, env, settings)
        && Said(o.finalText, |requests|, requests[|requests| - 1], env, settings))
  }

  /** Nothing, or something the model answered to one of the requests. */
  ghost predicate Traced(text: string, requests: seq<seq<Message>>, env: Environment, settings: Settings) {
    text == "" || exists i: nat :: SaidAt(text, i, requests, env, settings)
  }

  lemma StillSaid(was: string, now: string, asked: seq<seq<Message>>, request: seq<Message>, env: Environment,
                  settings: Settings)
    requires Traced(was, asked, env, settings)
    requires now == was || Said(now, |asked| + 1, request, env, settings)
    ensures Traced(now, asked + [request], env, settings)
  {
    if now == was && now != "" {
      var i: nat :| SaidAt(was, i, asked, env, settings);
      assert SaidAt(now, i, asked + [request], env, settings);
    } else if now != "" {
      assert SaidAt(now, |asked| + 1, asked + [request], env, settings);
    }
  }

  /** A run that pauses stops inside its last batch, at the call that asks the user. */
  ghost predicate PausedIn(blocks: Blocks, pending: Call) {
    && blocks.Then? && AllFull(blocks.before)
    && var last := blocks.last;
       last.Batch? && |last.answers| < |last.calls| && pending == last.calls[|last.answers|]
  }

  ghost predicate Ended(o: Outcome, s: LoopState, start: seq<Message>, blocks: Blocks) {
    && AllFit(blocks) && s.messages == start + Trail(blocks) && Nudges(blocks) <= 1
    && match o
       case Finished(text, _, completed) =>
         AllFull(blocks) && completed && Strip(Shown(s.events)) == text && Quiet(s.events)
       case Paused(question, _, pending) =>
         && PausedIn(blocks, pending) && Blank(Shown(s.events))
         && s.events != [] && s.events[|s.events| - 1] == AskUser(question, pending)
         && Quiet(s.events[..|s.events| - 1])
  }

  /** The messages after one more block. */
  lemma BlockAppended(s: LoopState, start: seq<Message>, blocks: Blocks, b: Block)
    requires Steady(s, start, blocks) && b.Fits()
    ensures AllFit(Then(blocks, b)) && s.messages + Emit(b) == start + Trail(Then(blocks, b))
  {
    FullFits(blocks);
    Associative(start, Trail(blocks), Emit(b));
  }

  /** The final answer of a streamed turn, if it is not blank. */
  method StreamedTurn(s: LoopState, start: seq<Message>, env: Environment, iteration: nat, ghost blocks: Blocks)
    returns (s': LoopState, o: Option<Outcome>)
    requires Steady(s, start, blocks)
    ensures if o.None? then Steady(s', start, blocks) else Ended(o.value, s', start, blocks)
    ensures o.Some? ==> o.value.Finished? && o.value.iterations == iteration && o.value.finalText == s'.finalText
    ensures s'.finalText == Strip(Concat(env.stream(iteration, s.messages))) && (o.None? <==> s'.finalText == "")
    ensures s'.called == s.called && s'.messages == s.messages
  {
    FullFits(blocks);
    var chunks := env.stream(iteration, s.messages);
    var finalText, events := StreamAnswer(chunks, s.events);
    ShownDeltas(s.events, chunks);
    QuietDeltas(s.events, chunks);
    StripBlankPrefix(Shown(s.events), Concat(chunks));
    StripBlank(Concat(chunks));
    StripIdempotent(Concat(chunks));
    s' := s.(events := events, finalText := finalText);
    o := if finalText != "" then Some(Finished(finalText, iteration, true)) else None;
  }

  /** A turn whose answer calls tools. */
  method ToolTurn(s: LoopState, start: seq<Message>, env: Environment, settings: Settings, iteration: nat,
                  response: Response, ghost blocks: Blocks)
    returns (s': LoopState, o: Option<Outcome>, ghost blocks': Blocks)
    requires Steady(s, start, blocks) && response.calls != []
    ensures blocks' == Then(blocks, Called(iteration, response, env, settings)) && s'.finalText == s.finalText
    ensures if o.None? then Steady(s', start, blocks') else Ended(o.value, s', start, blocks')
    ensures o.Some? ==> o.value.Paused? && o.value.iterations == iteration && o.value.pending in response.calls
    ensures s'.called == s.called + ToolsUsed(response.calls, settings)
    ensures s'.messages == s.messages + [Assistant(response.content, response.calls)] +
                           AnswerMessages(response.calls, Answers(response.calls, env, settings, iteration))
  {
    var calls := response.calls;
    var messages, called, paused, pausing, question :=
      ExecuteToolCalls(calls, env, settings, iteration, s.called, s.messages + [Assistant(response.content, calls)]);
    ghost var batch := Batch(response.content, calls, Answers(calls, env, settings, iteration));
    blocks' := Then(blocks, batch);
    BlockAppended(s, start, blocks, batch);
    Associative(s.messages, [Assistant(response.content, calls)], AnswerMessages(calls, batch.answers));
    s' := s.(messages := messages, called := called);
    o := None;
    if paused {
      ShownMore(s.events, AskUser(question, calls[pausing]));
      s' := s'.(events := s.events + [AskUser(question, calls[pausing])]);
      o := Some(Paused(question, iteration, calls[pausing]));
    }
  }

  /** A turn whose answer calls no tools: the final text, unless the one grounding nudge is due. */
  method TextTurn(s: LoopState, start: seq<Message>, settings: Settings, iteration: nat, content: string,
                  ghost blocks: Blocks)
    returns (s': LoopState, o: Option<Outcome>, ghost blocks': Blocks)
    requires Steady(s, start, blocks)
    ensures blocks' == if o.None? then Then(blocks, Nudge) else blocks
    ensures o.None? <==>
              Strip(content) != "" && settings.needsGrounding && Nudges(blocks) == 0 && "search_knowledge" !in s.called
    ensures s'.called == s.called
    ensures if o.None? then Steady(s', start, blocks') else Ended(o.value, s', start, blocks')
    ensures o.Some? ==> o.value.Finished? && o.value.iterations == iteration && o.value.finalText == s'.finalText
    ensures s'.finalText == Strip(content)
    ensures s'.messages == s.messages + if o.None? then [System(GROUNDING_NUDGE)] else []
  {
    var finalText := Strip(content);
    StripIdempotent(content);
    s', blocks' := s.(finalText := finalText), blocks;
    if finalText != "" && settings.needsGrounding && s.groundingRetries < 1 && GROUNDING_TOOL !in s.called {
      BlockAppended(s, start, blocks, Nudge);
      blocks' := Then(blocks, Nudge);
      s' := s'.(groundingRetries := s.groundingRetries + 1, messages := s.messages + [System(GROUNDING_NUDGE)]);
      return s', None, blocks';
    }
    FullFits(blocks);
    s' := ShowText(s');
    o := Some(Finished(finalText, iteration, true));
  }

  /** `if final_text: await bus.content(final_text)`. */
  method ShowText(s: LoopState) returns (s': LoopState)
    requires Blank(Shown(s.events)) && Quiet(s.events) && Strip(s.finalText) == s.finalText
    ensures s' == s.(events := s'.events) && Strip(Shown(s'.events)) == s.finalText && Quiet(s'.events)
  {
    StripBlank(Shown(s.events));
    s' := s;
    if s.finalText != "" {
      ShownMore(s.events, Content(s.finalText));
      StripBlankPrefix(Shown(s.events), s.finalText);
      s' := s.(events := s.events + [Content(s.finalText)]);
    }
  }

  method Iterate(s: LoopState, start: seq<Message>, env: Environment, settings: Settings, iteration: nat,
                 ghost called0: set<string>, ghost blocks: Blocks)
    returns (s': LoopState, o: Option<Outcome>, ghost blocks': Blocks)
    requires Steady(s, start, blocks) && Genuine(blocks, start, env, settings, called0)
    requires s.called == CalledIn(blocks, settings, called0) && (s.finalText != "" ==> Nudges(blocks) == 1)
    ensures s'.called == CalledIn(blocks', settings, called0)
    ensures if o.None? then s'.finalText != "" ==> Nudges(blocks') == 1
            else o.value.Finished? ==> Grounded(s', blocks', settings)
    ensures Prefix(blocks, blocks') && Genuine(blocks', start, env, settings, called0)
    ensures if o.None? then Steady(s', start, blocks')
            else Ended(o.value, s', start, blocks') && o.value.iterations == iteration
    ensures s'.finalText == s.finalText || Said(s'.finalText, iteration, s.messages, env, settings)
    ensures if o.Some? && o.value.Finished?
            then o.value.finalText == s'.finalText && Said(s'.finalText, iteration, s.messages, env, settings)
            else LeadsOn(blocks, iteration, s.messages, blocks', env, settings)
    ensures o.Some? && o.value.Paused? && Named(env) ==> o.value.pending.Named()
  {
    var streamFinal := settings.streaming && (settings.tools == {} || IsFinalAnswerTurn(s.messages));
    if streamFinal {
      blocks' := blocks;
      s', o := StreamedTurn(s, start, env, iteration, blocks);
      return;
    }
    var response := env.chat(iteration, s.messages);
    if response.calls != [] {
      s', o, blocks' := ToolTurn(s, start, env, settings, iteration, response, blocks);
    } else {
      s', o, blocks' := TextTurn(s, start, settings, iteration, response.content, blocks);
    }
  }

  lemma FallbackIsTrimmed()
    ensures Strip(MAX_ITERATION_FALLBACK) == MAX_ITERATION_FALLBACK
  {
    var last := |MAX_ITERATION_FALLBACK| - 1;
    assert MAX_ITERATION_FALLBACK[0] == 'I' && MAX_ITERATION_FALLBACK[last] == '.';
    assert "" + MAX_ITERATION_FALLBACK + "" == MAX_ITERATION_FALLBACK;
    StripUnique("", MAX_ITERATION_FALLBACK, "");
  }

  /** All iterations used up: the last text, or the fallback, is shown. */
  method StepLimit(s: LoopState, start: seq<Message>, iterations: nat, ghost blocks: Blocks)
    returns (o: Outcome, end: LoopState)
    requires Steady(s, start, blocks)
    ensures Ended(o, end, start, blocks)
    ensures o == Finished(end.finalText, iterations, true) && end.called == s.called
    ensures end.finalText == if s.finalText == "" then MAX_ITERATION_FALLBACK else s.finalText
  {
    FallbackIsTrimmed();
    FullFits(blocks);
    end := if s.finalText == "" then s.(finalText := MAX_ITERATION_FALLBACK) else s;
    end := ShowText(end);
    o := Finished(end.finalText, iterations, end.finalText != "");
  }

  /** Between the iterations of a run. */
  ghost predicate Underway(s: LoopState, requests: seq<seq<Message>>, blocks: Blocks, start: seq<Message>,
                           env: Environment, settings: Settings, called0: set<string>) {
    && Steady(s, start, blocks) && Genuine(blocks, start, env, settings, called0)
    && Asked(requests, s, start, blocks, env, settings) && AllFollowed(requests, start, blocks, env, settings)
    && s.called == CalledIn(blocks, settings, called0) && (s.finalText != "" ==> Nudges(blocks) == 1)
  }

  /** After a turn that ends the run. */
  ghost predicate Stopped(o: Outcome, s: LoopState, requests: seq<seq<Message>>, blocks: Blocks, start: seq<Message>,
                          env: Environment, settings: Settings, called0: set<string>) {
    && Ended(o, s, start, blocks) && o.iterations == |requests|
    && AllComplete(requests, start, blocks) && requests != [] && requests[0] == start
    && Genuine(blocks, start, env, settings, called0) && s.called == CalledIn(blocks, settings, called0)
    && match o
       case Finished(text, _, _) =>
         && text == s.finalText && Grounded(s, blocks, settings)
         && Accounted(o, requests, start, blocks, env, settings) && Traced(text, requests, env, settings)
       case Paused(_, _, pending) =>
         (Named(env) ==> pending.Named()) && Accounted(o, requests, start, blocks, env, settings)
  }

  method NextRequest(s: LoopState, requests: seq<seq<Message>>, start: seq<Message>, env: Environment,
                     settings: Settings, ghost called0: set<string>, ghost blocks: Blocks)
    returns (o: Option<Outcome>, s': LoopState, ghost blocks': Blocks)
    requires Underway(s, requests, blocks, start, env, settings, called0)
    ensures var requests' := requests + [s.messages];
            if o.None? then Underway(s', requests', blocks', start, env, settings, called0)
            else Stopped(o.value, s', requests', blocks', start, env, settings, called0)
  {
    s', o, blocks' := Iterate(s, start, env, settings, |requests| + 1, called0, blocks);
    OneMoreRequest(requests, s, s'.finalText, start, blocks, blocks', env, settings);
    StillFollowed(requests, s.messages, start, blocks, blocks', env, settings);
  }

  /** The loop itself, up to a turn that ends the run or until the iterations are used up. */
  method Iterations(s0: LoopState, start: seq<Message>, env: Environment, settings: Settings)
    returns (o: Option<Outcome>, s: LoopState, requests: seq<seq<Message>>, ghost blocks: Blocks)
    requires Underway(s0, [], Nothing, start, env, settings, s0.called)
    ensures |requests| <= Limit(settings) && (o.None? ==> |requests| == Limit(settings))
    ensures if o.None? then Underway(s, requests, blocks, start, env, settings, s0.called)
            else Stopped(o.value, s, requests, blocks, start, env, settings, s0.called)
  {
    o, s, requests, blocks := None, s0, [], Nothing;
    while |requests| < settings.maxIterations
      invariant |requests| <= Limit(settings)
      invariant Underway(s, requests, blocks, start, env, settings, s0.called)
    {
      var s';
      ghost var blocks';
      o, s', blocks' := NextRequest(s, requests, start, env, settings, s0.called, blocks);
      requests, s, blocks := requests + [s.messages], s', blocks';
      if o.Some? {
        return;
      }
    }
    o := None;
  }

  function Limit(settings: Settings): nat {
    if settings.maxIterations < 0 then 0 else settings.maxIterations
  }

  /**
   * A run, whatever the model and the tools do. `requests` are the message lists the model was
   * given. The messages at the end are those at the start and a trail of blocks that come from the
   * model and the tools; every request was made with every call answered; a run that does not pause
   * completes, and what the learner saw is the final text - the model's, or the fallback when all
   * requests are used up; it makes at most `maxIterations` requests and gives at most one nudge,
   * which is due and without which no ungrounded answer of a model that does not stream is shown.
   */
  method Run(start: seq<Message>, env: Environment, settings: Settings, called0: set<string>)
    returns (o: Outcome, end: LoopState, requests: seq<seq<Message>>, ghost blocks: Blocks)
    ensures Ended(o, end, start, blocks)
    ensures |requests| == o.iterations <= Limit(settings)
    ensures o.iterations > 0 ==> o.iterations <= settings.maxIterations
    ensures AllComplete(requests, start, blocks)
    ensures requests != [] ==> requests[0] == start
    ensures o.Paused? ==> requests != [] && (Named(env) ==> o.pending.Named())
    ensures Genuine(blocks, start, env, settings, called0)
    ensures end.called == CalledIn(blocks, settings, called0)
    ensures o.Finished? && o.finalText != MAX_ITERATION_FALLBACK ==> Grounded(end, blocks, settings)
    ensures o.Finished? ==> end.finalText == o.finalText
    ensures o.Finished? ==> Traced(o.finalText, requests, env, settings)
                            || (o.finalText == MAX_ITERATION_FALLBACK && o.iterations == Limit(settings))
    ensures Accounted(o, requests, start, blocks, env, settings)
  {
    assert start + Trail(Nothing) == start;
    StripUnique("", "", "");
    var outcome;
    outcome, end, requests, blocks := Iterations(LoopState(start, [], "", called0, 0), start, env, settings);
    if outcome.Some? {
      o := outcome.value;
    } else {
      o, end := StepLimit(end, start, |requests|, blocks);
    }
  }

  /** The requests so far, up to the text `s.finalText` that the model last answered. */
  ghost predicate Asked(requests: seq<seq<Message>>, s: LoopState, start: seq<Message>, blocks: Blocks,
                        env: Environment, settings: Settings) {
    && AllComplete(requests, start, blocks) && Traced(s.finalText, requests, env, settings)
    && (if requests == [] then s.messages else requests[0]) == start
  }

  lemma OneMoreRequest(requests: seq<seq<Message>>, s: LoopState, text: string, start: seq<Message>, before: Blocks,
                       after: Blocks, env: Environment, settings: Settings)
    requires Asked(requests, s, start, before, env, settings) && Steady(s, start, before) && Prefix(before, after)
    requires text == s.finalText || Said(text, |requests| + 1, s.messages, env, settings)
    ensures var more := requests + [s.messages];
            AllComplete(more, start, after) && Traced(text, more, env, settings) && more[0] == start
  {
    StillSaid(s.finalText, text, requests, s.messages, env, settings);
    StillComplete(requests, start, before, after);
  }

  lemma LeadsOnStill(p: Blocks, i: nat, request: seq<Message>, before: Blocks, after: Blocks, env: Environment,
                     settings: Settings)
    requires LeadsOn(p, i, request, before, env, settings) && Prefix(before, after)
    ensures LeadsOn(p, i, request, after, env, settings)
  {
    var response := env.chat(i, request);
    if !Streams(request, settings) {
      PrefixTransitive(Then(p, if response.calls == [] then Nudge else Called(i, response, env, settings)), before,
                       after);
    }
  }

  lemma StillFollowed(requests: seq<seq<Message>>, request: seq<Message>, start: seq<Message>, before: Blocks,
                      after: Blocks, env: Environment, settings: Settings)
    requires Prefix(before, after) && AllFull(before) && AllFollowed(requests, start, before, env, settings)
    requires request == start + Trail(before)
    ensures AllFollowed(requests, start, after, env, settings)
    ensures LeadsOn(before, |requests| + 1, request, after, env, settings) ==>
              AllFollowed(requests + [request], start, after, env, settings)
  {
    forall i | 0 <= i < |requests| ensures Followed(i + 1, requests[i], start, after, env, settings) {
      var p :| Prefix(p, before) && AllFull(p) && requests[i] == start + Trail(p) &&
               LeadsOn(p, i + 1, requests[i], before, env, settings);
      PrefixTransitive(p, before, after);
      LeadsOnStill(p, i + 1, requests[i], before, after, env, settings);
    }
  }

  lemma StillComplete(requests: seq<seq<Message>>, start: seq<Message>, before: Blocks, after: Blocks)
    requires Prefix(before, after) && AllFull(before) && AllComplete(requests, start, before)
    ensures AllComplete(requests + [start + Trail(before)], start, after)
  {
    forall i | 0 <= i < |requests| ensures Complete(requests[i], start, after) {
      assert Complete(requests[i], start, before);
      var p :| Prefix(p, before) && AllFull(p) && requests[i] == start + Trail(p);
      PrefixTransitive(p, before, after);
    }
    assert Complete(start + Trail(before), start, after);
  }

  // ------------------------------------------------------------------ when it streams

  lemma AnswerMessagesEnd(calls: seq<Call>, answers: seq<string>)
    requires |answers| <= |calls|
    ensures |AnswerMessages(calls, answers)| == |answers|
    ensures forall m :: m in AnswerMessages(calls, answers) ==> m.Tool?
  {
  }

  /** Without any tools a streaming model always streams; with tools exactly after a batch, or at once
      when the messages at the start end in an answer of a tool, as they do after a pause. */
  lemma StreamsAfterBatch(start: seq<Message>, blocks: Blocks, settings: Settings)
    requires AllFull(blocks)
    ensures Streams(start + Trail(blocks), settings) <==>
            && settings.streaming
            && (settings.tools == {}
                || if blocks.Then? then blocks.last.Batch? else start != [] && start[|start| - 1].Tool?)
  {
    match blocks
    case Nothing =>
      assert start + Trail(blocks) == start;
    case Then(before, last) =>
      var emitted, all := Emit(last), start + Trail(blocks);
      assert all[|all| - 1] == emitted[|emitted| - 1];
      if last.Batch? {
        AnswerMessagesEnd(last.calls, last.answers);
        assert emitted[|emitted| - 1] in AnswerMessages(last.calls, last.answers);
      }
  }

  ghost predicate NoBatch(blocks: Blocks) {
    blocks.Then? ==> NoBatch(blocks.before) && !blocks.last.Batch?
  }

  /** So a streaming model calls tools at most once in a run - in its last block - and not at all in a
      run that is resumed after a pause. */
  lemma {:induction false} StreamingCallsToolsOnce(blocks: Blocks, start: seq<Message>, env: Environment,
                                                   settings: Settings, called0: set<string>)
    requires settings.streaming && Genuine(blocks, start, env, settings, called0)
    requires blocks.Then? ==> AllFull(blocks.before)
    ensures blocks.Then? ==> NoBatch(blocks.before)
    ensures settings.tools == {} || (start != [] && start[|start| - 1].Tool?) ==> blocks == Nothing
  {
    if blocks.Then? {
      StreamsAfterBatch(start, blocks.before, settings);
      StreamingCallsToolsOnce(blocks.before, start, env, settings, called0);
    }
  }

  // --------------------------------------------------------------- pause and resume

  /** The message `submit_user_reply` appends for the user's reply. */
  function ReplyMessage(pending: Call, reply: string): Message {
    Tool(reply,
         if pending.id == "" then "ask_user" else pending.id,
         if pending.name == "" then "ask_user" else pending.name)
  }

  ghost function Resumed(blocks: Blocks, reply: string): Blocks
    requires blocks.Then? && blocks.last.Batch?
  {
    Then(blocks.before, blocks.last.(answers := blocks.last.answers + [reply]))
  }

  /** The reply is one more answer of the paused batch, with the id and name of the call that asked -
      exactly when those are not empty. It completes the batch exactly when that call was its last. */
  lemma ReplyAnswersPendingCall(start: seq<Message>, blocks: Blocks, pending: Call, reply: string)
    requires PausedIn(blocks, pending)
    ensures AllFit(blocks) && AllFit(Resumed(blocks, reply))
    ensures pending.Named() <==> ReplyMessage(pending, reply) == Tool(reply, pending.id, pending.name)
    ensures pending.Named() ==>
            start + Trail(blocks) + [ReplyMessage(pending, reply)] == start + Trail(Resumed(blocks, reply))
    ensures AllFull(Resumed(blocks, reply)) <==> |blocks.last.answers| == |blocks.last.calls| - 1
  {
    var last := blocks.last;
    var more := last.(answers := last.answers + [reply]);
    FullFits(blocks.before);
    assert more.answers[..|last.answers|] == last.answers;
    assert Emit(more) == Emit(last) + [Tool(reply, pending.id, pending.name)];
  }

  /** The user's replies to pauses, and the model and tools of each segment of the turn. */
  datatype Dialogue = Dialogue(replies: seq<string>, env: nat -> Environment)

  /** A request whose batches are answered in order, each call with its own id and name - all of
      them, if `all`. */
  ghost predicate Answered(request: seq<Message>, start: seq<Message>, all: bool) {
    exists blocks: Blocks {:trigger AllFit(blocks)} ::
      AllFit(blocks) && (all ==> AllFull(blocks)) && request == start + Trail(blocks)
  }

  lemma SegmentAnswered(request: seq<Message>, start: seq<Message>, before: Blocks, blocks: Blocks, all: bool)
    requires AllFit(before) && (all ==> AllFull(before))
    requires Complete(request, start + Trail(before), blocks)
    ensures Answered(request, start, all)
  {
    var p :| Prefix(p, blocks) && AllFull(p) && request == start + Trail(before) + Trail(p);
    FullFits(p);
    TrailAppend(before, p);
    Associative(start, Trail(before), Trail(p));
    assert AllFit(Append(before, p));
  }

  /** The tools pause only at the last call of a batch. */
  ghost predicate AsksLast(env: Environment) {
    forall n, ms, j :: 0 <= j < |env.chat(n, ms).calls| - 1 ==> !env.tool(n, j, env.chat(n, ms).calls[j]).pauseForUser
  }

  ghost predicate AlwaysAsksLast(d: Dialogue) {
    forall n :: AsksLast(d.env(n))
  }

  lemma {:induction false} ResultsAt(calls: seq<Call>, env: Environment, settings: Settings, request: nat, j: nat)
    requires j < |calls|
    ensures Results(calls, env, settings, request)[j] == ResultOf(calls[j], j, env, settings, request)
  {
    if j < |calls| - 1 {
      ResultsAt(calls[..|calls| - 1], env, settings, request, j);
    }
  }

  /** Then a run that pauses has answered every other call of the batch. */
  lemma PausesAtLastCall(env: Environment, start: seq<Message>, settings: Settings, called0: set<string>,
                         blocks: Blocks, pending: Call)
    requires AsksLast(env) && Genuine(blocks, start, env, settings, called0) && PausedIn(blocks, pending)
    ensures |blocks.last.answers| == |blocks.last.calls| - 1
  {
    var ms := start + Trail(blocks.before);
    var n: nat :| blocks.last == Called(n, env.chat(n, ms), env, settings);
    var calls := env.chat(n, ms).calls;
    var results := Results(calls, env, settings, n);
    var at := BeforePause(results, 0);
    assert at == |blocks.last.answers|;
    assert results[at].pauseForUser;
    ResultsAt(calls, env, settings, n, at);
  }

  /** Every pause that was replied to - or, if the turn ends with a pause, every earlier one - was by
      the last call of its batch. */
  ghost predicate AskedLast(o: Outcome, blocks: Blocks) {
    AllFull(if o.Paused? && blocks.Then? then blocks.before else blocks)
  }

  /**
   * A turn over any number of pause and resume segments (a resumed segment has no user message, so
   * no grounding nudge). In every request the answers match their calls; and if every pause was at
   * the last call of its batch - as it is when the tools only pause there - every call has been
   * answered, once, before the model is asked again.
   */
  method Converse(start: seq<Message>, d: Dialogue, settings: Settings)
    returns (o: Outcome, messages: seq<Message>, requests: seq<seq<Message>>, ghost blocks: Blocks)
    requires forall n :: Named(d.env(n))
    ensures AllFit(blocks) && messages == start + Trail(blocks) && (o.Paused? ==> blocks.Then?)
    ensures forall i :: 0 <= i < |requests| ==> Answered(requests[i], start, AskedLast(o, blocks))
    ensures requests != [] ==> requests[0] == start
    ensures AlwaysAsksLast(d) ==> AskedLast(o, blocks)
    ensures AlwaysAsksLast(d) ==> forall i :: 0 <= i < |requests| ==> Answered(requests[i], start, true)
  {
    messages, requests, blocks := start, [], Nothing;
    assert start + Trail(Nothing) == start;
    var segment := 0;
    while true
      invariant 0 <= segment <= |d.replies|
      invariant AllFit(blocks) && messages == start + Trail(blocks)
      invariant forall i :: 0 <= i < |requests| ==> Answered(requests[i], start, AllFull(blocks))
      invariant if requests == [] then messages == start else requests[0] == start
      invariant AlwaysAsksLast(d) ==> AllFull(blocks)
      decreases |d.replies| - segment
    {
      var end, asked;
      ghost var trail;
      var now := settings.(needsGrounding := settings.needsGrounding && segment == 0);
      o, end, asked, trail := Run(messages, d.env(segment), now, {});
      AllAnswered(requests, asked, start, blocks, trail);
      requests := requests + asked;
      if o.Finished? || segment == |d.replies| {
        messages := end.messages;
        ConversationEnds(start, blocks, trail, o);
        StillAnswered(requests, start, AllFull(blocks), AskedLast(o, Append(blocks, trail)));
        blocks := Append(blocks, trail);
        return;
      }
      var reply := d.replies[segment];
      if AlwaysAsksLast(d) {
        assert AsksLast(d.env(segment));
        PausesAtLastCall(d.env(segment), messages, now, {}, trail, o.pending);
      }
      ghost var more := Append(blocks, Resumed(trail, reply));
      Replied(start, blocks, trail, o.pending, reply);
      StillAnswered(requests, start, AllFull(blocks), AllFull(more));
      messages := end.messages + [ReplyMessage(o.pending, reply)];
      blocks := more;
      segment := segment + 1;
    }
  }

  /** The last segment. */
  lemma ConversationEnds(start: seq<Message>, blocks: Blocks, trail: Blocks, o: Outcome)
    requires AllFit(blocks) && if o.Paused? then PausedIn(trail, o.pending) && AllFit(trail) else AllFull(trail)
    ensures var more := Append(blocks, trail);
            && AllFit(more) && start + Trail(blocks) + Trail(trail) == start + Trail(more)
            && (o.Paused? ==> more.Then?) && (AskedLast(o, more) <==> AllFull(blocks))
  {
    Appended(start, blocks, trail);
    if o.Paused? {
      Appended(start, blocks, trail.before);
    } else {
      FullFits(trail);
    }
  }

  /** A paused segment and the reply to it. */
  lemma Replied(start: seq<Message>, blocks: Blocks, trail: Blocks, pending: Call, reply: string)
    requires PausedIn(trail, pending) && pending.Named() && AllFit(blocks)
    ensures var more := Append(blocks, Resumed(trail, reply));
            && AllFit(more)
            && start + Trail(blocks) + Trail(trail) + [ReplyMessage(pending, reply)] == start + Trail(more)
            && (AllFull(more) <==> AllFull(blocks) && |trail.last.answers| == |trail.last.calls| - 1)
  {
    ReplyAnswersPendingCall(start + Trail(blocks), trail, pending, reply);
    Appended(start, blocks, Resumed(trail, reply));
  }

  lemma AllAnswered(requests: seq<seq<Message>>, asked: seq<seq<Message>>, start: seq<Message>, before: Blocks,
                    blocks: Blocks)
    requires AllFit(before)
    requires forall i :: 0 <= i < |requests| ==> Answered(requests[i], start, AllFull(before))
    requires AllComplete(asked, start + Trail(before), blocks)
    ensures forall i :: 0 <= i < |requests + asked| ==> Answered((requests + asked)[i], start, AllFull(before))
  {
    forall i | 0 <= i < |asked| ensures Answered(asked[i], start, AllFull(before)) {
      SegmentAnswered(asked[i], start, before, blocks, AllFull(before));
    }
  }

  lemma StillAnswered(requests: seq<seq<Message>>, start: seq<Message>, all: bool, still: bool)
    requires still ==> all
    requires forall i :: 0 <= i < |requests| ==> Answered(requests[i], start, all)
    ensures forall i :: 0 <= i < |requests| ==> Answered(requests[i], start, still)
  {
  }

  lemma Appended(start: seq<Message>, a: Blocks, b: Blocks)
    ensures start + Trail(a) + Trail(b) == start + Trail(Append(a, b))
    ensures AllFit(a) && AllFit(b) ==> AllFit(Append(a, b))
    ensures AllFull(a) && AllFull(b) <==> AllFull(Append(a, b))
  {
    TrailAppend(a, b);
    Associative(start, Trail(a), Trail(b));
  }
}
