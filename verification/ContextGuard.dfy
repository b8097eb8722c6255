/** Fitting a conversation into the context window (backend/app/modules/llm/context_guard.py). */
module ContextGuard {

  datatype Message = Message(role: string, content: string) {
    predicate IsSystem() {
      role == "system"
    }
  }

  /** The two things this module asks others for: the size of a text in tokens, and the text that
      sums up dropped messages. Nothing is assumed about either. */
  datatype Estimator = Estimator(tokens: string -> nat, summarize: seq<Message> -> string) {
    function Cost(m: Message): nat {
      tokens(m.content) + 4
    }

    /** `estimate_messages_tokens`. */
    function Total(ms: seq<Message>): nat {
      if ms == [] then 0 else Total(ms[..|ms| - 1]) + Cost(ms[|ms| - 1])
    }

    function Summary(dropped: seq<Message>): Message {
      Message("system", summarize(dropped))
    }
  }

  const MIN_BUDGET := 256

  function Budget(contextWindow: int, reserveTokens: int): (budget: int)
    ensures budget >= MIN_BUDGET
  {
    var room := contextWindow - reserveTokens;
    if room < MIN_BUDGET then MIN_BUDGET else room
  }

  function Filter(ms: seq<Message>, system: bool): seq<Message> {
    if ms == [] then []
    else Filter(ms[..|ms| - 1], system) + (if ms[|ms| - 1].IsSystem() == system then [ms[|ms| - 1]] else [])
  }

  // --------------------------------------------------------- the three passes, as functions

  /** First pass: how many leading system messages fit. */
  function SystemsKept(e: Estimator, ms: seq<Message>, i: nat, used: nat, budget: int): (kept: nat)
    requires i <= |ms|
    ensures i <= kept <= |ms|
    decreases |ms| - i
  {
    if i == |ms| || used + e.Cost(ms[i]) > budget then i
    else SystemsKept(e, ms, i + 1, used + e.Cost(ms[i]), budget)
  }

  datatype Split = Split(kept: seq<Message>, dropped: seq<Message>, used: nat)

  /** Second pass, from the newest message back: keep whatever still fits, skip the rest. */
  function Greedy(e: Estimator, ms: seq<Message>, used: nat, budget: int): Split
    decreases |ms|
  {
    if ms == [] then Split([], [], used)
    else
      var m := ms[|ms| - 1];
      if used + e.Cost(m) > budget then
        var rest := Greedy(e, ms[..|ms| - 1], used, budget);
        Split(rest.kept, rest.dropped + [m], rest.used)
      else
        var rest := Greedy(e, ms[..|ms| - 1], used + e.Cost(m), budget);
        Split(rest.kept + [m], rest.dropped, rest.used)
  }

  datatype Room = Room(kept: seq<Message>, dropped: seq<Message>)

  /** Third pass: the oldest kept messages give way to the summary, one by one, each going to the
      front of the dropped ones. `used` stays what it was, although every eviction lowers the cost. */
  function Evict(e: Estimator, kept: seq<Message>, dropped: seq<Message>, used: nat, budget: int): Room
    decreases |kept|
  {
    if kept == [] || used + e.Cost(e.Summary(dropped)) <= budget then Room(kept, dropped)
    else Evict(e, kept[1..], [kept[0]] + dropped, used, budget)
  }

  /** What the result consists of; `dropped` is in the order the summary sees it. */
  datatype Fit = Fit(systems: seq<Message>, summary: seq<Message>, kept: seq<Message>, dropped: seq<Message>) {
    function Messages(): seq<Message> {
      systems + summary + kept
    }
  }

  function Truncated(e: Estimator, ms: seq<Message>, budget: int): Fit {
    var all := Filter(ms, true);
    var systems := all[..SystemsKept(e, all, 0, 0, budget)];
    var g := Greedy(e, Filter(ms, false), e.Total(systems), budget);
    if g.dropped == [] then Fit(systems, [], g.kept, [])
    else
      var room := Evict(e, g.kept, g.dropped, g.used, budget);
      var summary := e.Summary(room.dropped);
      Fit(systems, if g.used + e.Cost(summary) <= budget then [summary] else [], room.kept, room.dropped)
  }

  function FitMessages(e: Estimator, ms: seq<Message>, contextWindow: int, reserveTokens: int): seq<Message> {
    var budget := Budget(contextWindow, reserveTokens);
    if contextWindow <= 0 || e.Total(ms) <= budget then ms else Truncated(e, ms, budget).Messages()
  }

  // ---------------------------------------------------------------- the code's loops

  method EstimateMessagesTokens(e: Estimator, messages: seq<Message>) returns (total: nat)
    ensures total == e.Total(messages)
  {
    total := 0;
    for i := 0 to |messages|
      invariant total == e.Total(messages[..i])
    {
      assert messages[..i + 1][..i] == messages[..i];
      total := total + 4;
      total := total + e.tokens(messages[i].content);
    }
    assert messages[..|messages|] == messages;
  }

  method ByRole(messages: seq<Message>, system: bool) returns (chosen: seq<Message>)
    ensures chosen == Filter(messages, system)
  {
    chosen := [];
    for i := 0 to |messages|
      invariant chosen == Filter(messages[..i], system)
    {
      assert messages[..i + 1][..i] == messages[..i];
      if messages[i].IsSystem() == system {
        chosen := chosen + [messages[i]];
      }
    }
    assert messages[..|messages|] == messages;
  }

  method KeepSystems(e: Estimator, systems: seq<Message>, budget: int) returns (kept: seq<Message>, used: nat)
    ensures kept == systems[..SystemsKept(e, systems, 0, 0, budget)]
    ensures used == e.Total(kept)
  {
    kept, used := [], 0;
    var i := 0;
    while i < |systems|
      invariant 0 <= i <= |systems| && kept == systems[..i] && used == e.Total(kept)
      invariant SystemsKept(e, systems, i, used, budget) == SystemsKept(e, systems, 0, 0, budget)
    {
      var cost := e.tokens(systems[i].content) + 4;
      if used + cost > budget {
        break;
      }
      assert systems[..i + 1][..i] == systems[..i];
      kept := kept + [systems[i]];
      used := used + cost;
      i := i + 1;
    }
  }

  method KeepNewest(e: Estimator, others: seq<Message>, used0: nat, budget: int)
    returns (kept: seq<Message>, dropped: seq<Message>, used: nat)
    ensures Split(kept, dropped, used) == Greedy(e, others, used0, budget)
  {
    kept, dropped, used := [], [], used0;
    var i := |others|;
    assert others[..i] == others;
    assert forall ms: seq<Message> :: ms + [] == ms;
    while i > 0
      invariant 0 <= i <= |others|
      invariant var rest := Greedy(e, others[..i], used, budget);
                Split(rest.kept + kept, rest.dropped + dropped, rest.used) == Greedy(e, others, used0, budget)
    {
      assert others[..i][..i - 1] == others[..i - 1];
      i := i - 1;
      var cost := e.tokens(others[i].content) + 4;
      ghost var rest := Greedy(e, others[..i], if used + cost > budget then used else used + cost, budget);
      if used + cost > budget {
        assert rest.dropped + ([others[i]] + dropped) == (rest.dropped + [others[i]]) + dropped;
        dropped := [others[i]] + dropped;
        continue;
      }
      assert rest.kept + ([others[i]] + kept) == (rest.kept + [others[i]]) + kept;
      kept := [others[i]] + kept;
      used := used + cost;
    }
  }

  method Fitting(e: Estimator, messages: seq<Message>, contextWindow: int, reserveTokens: int)
    returns (result: seq<Message>)
    ensures result == FitMessages(e, messages, contextWindow, reserveTokens)
  {
    if contextWindow <= 0 {
      return messages;
    }
    var before := EstimateMessagesTokens(e, messages);
    var budget := Budget(contextWindow, reserveTokens);
    if before <= budget {
      return messages;
    }
    var systems := ByRole(messages, true);
    var others := ByRole(messages, false);
    var keptSystem, used := KeepSystems(e, systems, budget);
    var keptOther, dropped;
    keptOther, dropped, used := KeepNewest(e, others, used, budget);
    ghost var systemsKept := keptSystem;
    if dropped != [] {
      var summary := e.Summary(dropped);
      var summaryCost := e.Cost(summary);
      while keptOther != [] && used + summaryCost > budget
        invariant summary == e.Summary(dropped) && summaryCost == e.Cost(summary)
        invariant Evict(e, keptOther, dropped, used, budget) ==
                  (var g := Greedy(e, others, e.Total(systemsKept), budget);
                   Evict(e, g.kept, g.dropped, g.used, budget))
        decreases |keptOther|
      {
        keptOther, dropped := keptOther[1..], [keptOther[0]] + dropped;
        summary := e.Summary(dropped);
        summaryCost := e.Cost(summary);
      }
      if used + summaryCost <= budget {
        keptSystem := keptSystem + [summary];
        used := used + summaryCost;
      }
    }
    result := keptSystem + keptOther;
  }

  // ---------------------------------------------------------------------- the budget

  lemma {:induction false} TotalConcat(e: Estimator, a: seq<Message>, b: seq<Message>)
    ensures e.Total(a + b) == e.Total(a) + e.Total(b)
  {
    if b == [] {
      assert a + b == a;
    } else {
      assert (a + b)[..|a + b| - 1] == a + b[..|b| - 1];
      TotalConcat(e, a, b[..|b| - 1]);
    }
  }

  lemma {:induction false} SystemsFit(e: Estimator, ms: seq<Message>, i: nat, budget: int)
    requires i <= |ms| && e.Total(ms[..i]) <= budget
    ensures e.Total(ms[..SystemsKept(e, ms, i, e.Total(ms[..i]), budget)]) <= budget
    decreases |ms| - i
  {
    if i < |ms| && e.Total(ms[..i]) + e.Cost(ms[i]) <= budget {
      assert ms[..i + 1][..i] == ms[..i];
      SystemsFit(e, ms, i + 1, budget);
    }
  }

  lemma {:induction false} GreedyFits(e: Estimator, ms: seq<Message>, used: nat, budget: int)
    requires used <= budget
    ensures var g := Greedy(e, ms, used, budget);
            g.used == used + e.Total(g.kept) <= budget
    decreases |ms|
  {
    if ms != [] {
      var m, init := ms[|ms| - 1], ms[..|ms| - 1];
      var now := if used + e.Cost(m) > budget then used else used + e.Cost(m);
      GreedyFits(e, init, now, budget);
      var rest := Greedy(e, init, now, budget);
      assert (rest.kept + [m])[..|rest.kept|] == rest.kept;
    }
  }

  /** Evicting only lowers the cost of what is kept: the stale `used` is an upper bound. */
  lemma {:induction false} EvictLowers(e: Estimator, kept: seq<Message>, dropped: seq<Message>, used: nat, budget: int)
    ensures e.Total(Evict(e, kept, dropped, used, budget).kept) <= e.Total(kept)
    decreases |kept|
  {
    if kept != [] && used + e.Cost(e.Summary(dropped)) > budget {
      assert [kept[0]] + kept[1..] == kept;
      TotalConcat(e, [kept[0]], kept[1..]);
      EvictLowers(e, kept[1..], [kept[0]] + dropped, used, budget);
    }
  }

  lemma TruncatedFits(e: Estimator, ms: seq<Message>, budget: int)
    requires budget >= 0
    ensures e.Total(Truncated(e, ms, budget).Messages()) <= budget
  {
    var all := Filter(ms, true);
    assert all[..0] == [];
    SystemsFit(e, all, 0, budget);
    var f := Truncated(e, ms, budget);
    var g := Greedy(e, Filter(ms, false), e.Total(f.systems), budget);
    GreedyFits(e, Filter(ms, false), e.Total(f.systems), budget);
    EvictLowers(e, g.kept, g.dropped, g.used, budget);
    TotalConcat(e, f.systems, f.summary);
    TotalConcat(e, f.systems + f.summary, f.kept);
    assert f.summary != [] ==> f.summary[..0] == [];
  }

  /** The tokens of all contents. */
  ghost function Tokens(e: Estimator, ms: seq<Message>): nat {
    if ms == [] then 0 else Tokens(e, ms[..|ms| - 1]) + e.tokens(ms[|ms| - 1].content)
  }

  lemma {:induction false} TotalIsTokens(e: Estimator, ms: seq<Message>)
    ensures e.Total(ms) == Tokens(e, ms) + 4 * |ms|
  {
    if ms != [] {
      TotalIsTokens(e, ms[..|ms| - 1]);
    }
  }

  /** The conversation fits: at four tokens a message beside its content, into the window less the
      reserve, or 256 tokens if that is more. */
  ghost predicate Fits(e: Estimator, ms: seq<Message>, contextWindow: int, reserveTokens: int) {
    var tokens := Tokens(e, ms) + 4 * |ms|;
    tokens <= 256 || tokens <= contextWindow - reserveTokens
  }

  /** With a positive window the result always fits ... */
  lemma FitsBudget(e: Estimator, ms: seq<Message>, contextWindow: int, reserveTokens: int)
    requires contextWindow > 0
    ensures Fits(e, FitMessages(e, ms, contextWindow, reserveTokens), contextWindow, reserveTokens)
  {
    TruncatedFits(e, ms, Budget(contextWindow, reserveTokens));
    TotalIsTokens(e, FitMessages(e, ms, contextWindow, reserveTokens));
  }

  /** ... nothing is changed exactly if it fits already (or there is no window) ... */
  lemma UnchangedExactlyIfItFits(e: Estimator, ms: seq<Message>, contextWindow: int, reserveTokens: int)
    ensures FitMessages(e, ms, contextWindow, reserveTokens) == ms <==>
            contextWindow <= 0 || Fits(e, ms, contextWindow, reserveTokens)
  {
    var once := FitMessages(e, ms, contextWindow, reserveTokens);
    TotalIsTokens(e, ms);
    assert e.Total(ms) <= Budget(contextWindow, reserveTokens) <==> Fits(e, ms, contextWindow, reserveTokens);
    if contextWindow > 0 {
      FitsBudget(e, ms, contextWindow, reserveTokens);
      if once == ms {
        assert Fits(e, once, contextWindow, reserveTokens);
      }
    }
  }

  /** ... and so fitting again changes nothing. */
  lemma FittingIsIdempotent(e: Estimator, ms: seq<Message>, contextWindow: int, reserveTokens: int)
    ensures var once := FitMessages(e, ms, contextWindow, reserveTokens);
            FitMessages(e, once, contextWindow, reserveTokens) == once
  {
    if contextWindow > 0 {
      FitsBudget(e, ms, contextWindow, reserveTokens);
      UnchangedExactlyIfItFits(e, FitMessages(e, ms, contextWindow, reserveTokens), contextWindow, reserveTokens);
    }
  }

  // ---------------------------------------------------------------- what is kept

  /** `part` is `whole` at the strictly increasing positions `at`. */
  ghost predicate Picks(part: seq<Message>, whole: seq<Message>, at: seq<nat>) {
    && |at| == |part|
    && (forall i :: 0 <= i < |at| ==> at[i] < |whole| && part[i] == whole[at[i]])
    && (forall i, j :: 0 <= i < j < |at| ==> at[i] < at[j])
  }

  lemma PicksMore(part: seq<Message>, whole: seq<Message>, at: seq<nat>, m: Message)
    requires Picks(part, whole, at)
    ensures Picks(part, whole + [m], at)
    ensures Picks(part + [m], whole + [m], at + [|whole|])
  {
  }

  lemma PicksSuffix(part: seq<Message>, whole: seq<Message>, at: seq<nat>, n: nat)
    requires Picks(part, whole, at) && n <= |at|
    ensures Picks(part[n..], whole, at[n..])
  {
  }

  /** One step of the greedy pass. */
  lemma GreedyStep(e: Estimator, ms: seq<Message>, used: nat, budget: int)
    returns (init: seq<Message>, m: Message, rest: Split)
    requires ms != []
    ensures ms == init + [m] && |init| == |ms| - 1 && m == ms[|ms| - 1]
    ensures rest == Greedy(e, init, if used + e.Cost(m) > budget then used else used + e.Cost(m), budget)
    ensures Greedy(e, ms, used, budget) ==
            if used + e.Cost(m) > budget then Split(rest.kept, rest.dropped + [m], rest.used)
            else Split(rest.kept + [m], rest.dropped, rest.used)
  {
    init, m := ms[..|ms| - 1], ms[|ms| - 1];
    rest := Greedy(e, init, if used + e.Cost(m) > budget then used else used + e.Cost(m), budget);
  }

  /** What the messages at the places `at` cost, from the i-th place on. */
  ghost function CostFrom(e: Estimator, whole: seq<Message>, at: seq<nat>, i: nat): nat
    requires i <= |whole|
    decreases |whole| - i
  {
    if i == |whole| then 0 else CostFrom(e, whole, at, i + 1) + (if i in at then e.Cost(whole[i]) else 0)
  }

  lemma {:induction false} CostFromMore(e: Estimator, whole: seq<Message>, m: Message, at: seq<nat>, at': seq<nat>,
                                        i: nat)
    requires i <= |whole| && forall j :: 0 <= j < |whole| ==> (j in at <==> j in at')
    ensures CostFrom(e, whole + [m], at', i) ==
            CostFrom(e, whole, at, i) + (if |whole| in at' then e.Cost(m) else 0)
    decreases |whole| - i
  {
    if i < |whole| {
      CostFromMore(e, whole, m, at, at', i + 1);
    } else {
      assert CostFrom(e, whole + [m], at', |whole| + 1) == 0;
    }
  }

  /** The i-th message is taken exactly if it fits beside `used` and what is taken after it. */
  ghost predicate TakenIfItFits(e: Estimator, whole: seq<Message>, at: seq<nat>, used: nat, budget: int, i: nat)
    requires i < |whole|
  {
    i in at <==> used + CostFrom(e, whole, at, i + 1) + e.Cost(whole[i]) <= budget
  }

  lemma TakenMore(e: Estimator, init: seq<Message>, m: Message, at: seq<nat>, at': seq<nat>, used: nat, budget: int)
    requires forall i :: 0 <= i < |init| ==> (i in at <==> i in at')
    requires |init| in at' <==> used + e.Cost(m) <= budget
    requires var now := if |init| in at' then used + e.Cost(m) else used;
             forall i :: 0 <= i < |init| ==> TakenIfItFits(e, init, at, now, budget, i)
    ensures forall i :: 0 <= i < |init + [m]| ==> TakenIfItFits(e, init + [m], at', used, budget, i)
  {
    var now := if |init| in at' then used + e.Cost(m) else used;
    forall i | 0 <= i < |init + [m]| ensures TakenIfItFits(e, init + [m], at', used, budget, i) {
      if i < |init| {
        CostFromMore(e, init, m, at, at', i + 1);
        assert TakenIfItFits(e, init, at, now, budget, i);
      } else {
        assert CostFrom(e, init + [m], at', i + 1) == 0;
      }
    }
  }

  /** The places of what the greedy pass keeps ... */
  ghost function KeptAt(e: Estimator, ms: seq<Message>, used: nat, budget: int): seq<nat>
    decreases |ms|
  {
    if ms == [] then []
    else
      var n := |ms| - 1;
      var cost := e.Cost(ms[n]);
      if used + cost > budget then KeptAt(e, ms[..n], used, budget)
      else KeptAt(e, ms[..n], used + cost, budget) + [n]
  }

  /** ... and of what it drops. */
  ghost function DroppedAt(e: Estimator, ms: seq<Message>, used: nat, budget: int): seq<nat>
    decreases |ms|
  {
    if ms == [] then []
    else
      var n := |ms| - 1;
      var cost := e.Cost(ms[n]);
      if used + cost > budget then DroppedAt(e, ms[..n], used, budget) + [n]
      else DroppedAt(e, ms[..n], used + cost, budget)
  }

  lemma {:induction false} GreedyPicks(e: Estimator, ms: seq<Message>, used: nat, budget: int)
    ensures Picks(Greedy(e, ms, used, budget).kept, ms, KeptAt(e, ms, used, budget))
    ensures Picks(Greedy(e, ms, used, budget).dropped, ms, DroppedAt(e, ms, used, budget))
    decreases |ms|
  {
    if ms != [] {
      var init, m, rest := GreedyStep(e, ms, used, budget);
      var now := if used + e.Cost(m) > budget then used else used + e.Cost(m);
      GreedyPicks(e, init, now, budget);
      PicksMore(rest.kept, init, KeptAt(e, init, now, budget), m);
      PicksMore(rest.dropped, init, DroppedAt(e, init, now, budget), m);
    }
  }

  lemma {:induction false} KeptAtInRange(e: Estimator, ms: seq<Message>, used: nat, budget: int)
    ensures forall i :: i in KeptAt(e, ms, used, budget) ==> i < |ms|
    decreases |ms|
  {
    if ms != [] {
      var n := |ms| - 1;
      KeptAtInRange(e, ms[..n], if used + e.Cost(ms[n]) > budget then used else used + e.Cost(ms[n]), budget);
    }
  }

  /** From the newest back, a message is kept exactly if it fits beside what is kept of the later ones. */
  lemma {:induction false} GreedyTakes(e: Estimator, ms: seq<Message>, used: nat, budget: int)
    ensures forall i :: 0 <= i < |ms| ==> TakenIfItFits(e, ms, KeptAt(e, ms, used, budget), used, budget, i)
    decreases |ms|
  {
    if ms != [] {
      var n := |ms| - 1;
      var init, m := ms[..n], ms[n];
      var now := if used + e.Cost(m) > budget then used else used + e.Cost(m);
      KeptAtInRange(e, init, now, budget);
      GreedyTakes(e, init, now, budget);
      assert ms == init + [m];
      TakenMore(e, init, m, KeptAt(e, init, now, budget), KeptAt(e, ms, used, budget), used, budget);
    }
  }

  lemma AppendConserves(rest: Split, init: seq<Message>, m: Message)
    requires multiset(rest.kept) + multiset(rest.dropped) == multiset(init)
    ensures multiset(rest.kept + [m]) + multiset(rest.dropped) == multiset(init + [m])
    ensures multiset(rest.kept) + multiset(rest.dropped + [m]) == multiset(init + [m])
  {
  }

  lemma {:induction false} GreedyConserves(e: Estimator, ms: seq<Message>, used: nat, budget: int)
    ensures var g := Greedy(e, ms, used, budget); multiset(g.kept) + multiset(g.dropped) == multiset(ms)
    decreases |ms|
  {
    if ms != [] {
      var init, m, rest := GreedyStep(e, ms, used, budget);
      GreedyConserves(e, init, if used + e.Cost(m) > budget then used else used + e.Cost(m), budget);
      AppendConserves(rest, init, m);
    }
  }

  lemma {:induction false} EvictKeepsSuffix(e: Estimator, kept: seq<Message>, dropped: seq<Message>, used: nat,
                                            budget: int)
    returns (n: nat)
    ensures var room := Evict(e, kept, dropped, used, budget);
            && n <= |kept| && room.kept == kept[n..]
            && multiset(room.kept) + multiset(room.dropped) == multiset(kept) + multiset(dropped)
            && |room.dropped| == |dropped| + n
    decreases |kept|
  {
    if kept == [] || used + e.Cost(e.Summary(dropped)) <= budget {
      n := 0;
    } else {
      var fewer := EvictKeepsSuffix(e, kept[1..], [kept[0]] + dropped, used, budget);
      n := fewer + 1;
      assert kept[1..][fewer..] == kept[n..];
      assert kept == [kept[0]] + kept[1..];
    }
  }

  /** Truncation drops, never invents or reorders: leading system messages, at most one summary - of
      exactly the dropped messages, and only if there are any - and other messages in their order. */
  lemma TruncationKeepsOrder(e: Estimator, ms: seq<Message>, budget: int) returns (at: seq<nat>)
    ensures var f := Truncated(e, ms, budget);
            && f.systems <= Filter(ms, true)
            && Picks(f.kept, Filter(ms, false), at)
            && multiset(f.kept) + multiset(f.dropped) == multiset(Filter(ms, false))
            && (f.summary == [] || (f.dropped != [] && f.summary == [e.Summary(f.dropped)]))
  {
    var f := Truncated(e, ms, budget);
    var others := Filter(ms, false);
    var g := Greedy(e, others, e.Total(f.systems), budget);
    GreedyPicks(e, others, e.Total(f.systems), budget);
    at := KeptAt(e, others, e.Total(f.systems), budget);
    GreedyConserves(e, others, e.Total(f.systems), budget);
    if g.dropped != [] {
      var n := EvictKeepsSuffix(e, g.kept, g.dropped, g.used, budget);
      PicksSuffix(g.kept, others, at, n);
      at := at[n..];
    }
  }

  /** The longest prefix that fits. */
  lemma {:induction false} SystemsAreLongest(e: Estimator, ms: seq<Message>, i: nat, budget: int)
    requires i <= |ms|
    ensures var k := SystemsKept(e, ms, i, e.Total(ms[..i]), budget);
            k < |ms| ==> e.Total(ms[..k + 1]) > budget
    decreases |ms| - i
  {
    if i < |ms| {
      assert ms[..i + 1][..i] == ms[..i];
      if e.Total(ms[..i + 1]) <= budget {
        SystemsAreLongest(e, ms, i + 1, budget);
      }
    }
  }

  /** `kept[..n]`, evicted one by one, in front of `dropped`. */
  function Evicted(kept: seq<Message>, dropped: seq<Message>, n: nat): seq<Message>
    requires n <= |kept|
  {
    if n == 0 then dropped else [kept[n - 1]] + Evicted(kept, dropped, n - 1)
  }

  /** After `n` evictions the summary fits beside what was kept at first. */
  predicate SummaryFits(e: Estimator, kept: seq<Message>, dropped: seq<Message>, n: nat, used: nat, budget: int)
    requires n <= |kept|
  {
    used + e.Cost(e.Summary(Evicted(kept, dropped, n))) <= budget
  }

  /** As few evictions as make room for the summary, or all. */
  ghost predicate JustEnough(e: Estimator, kept: seq<Message>, dropped: seq<Message>, n: nat, used: nat, budget: int) {
    && n <= |kept| && (n < |kept| ==> SummaryFits(e, kept, dropped, n, used, budget))
    && forall i: nat :: i < n ==> !SummaryFits(e, kept, dropped, i, used, budget)
  }

  lemma {:induction false} EvictsJustEnough(e: Estimator, kept: seq<Message>, dropped: seq<Message>, used: nat,
                                            budget: int, from: nat)
    returns (n: nat)
    requires from <= |kept| && forall i: nat :: i < from ==> !SummaryFits(e, kept, dropped, i, used, budget)
    ensures JustEnough(e, kept, dropped, n, used, budget)
    ensures Evict(e, kept[from..], Evicted(kept, dropped, from), used, budget) ==
            Room(kept[n..], Evicted(kept, dropped, n))
    decreases |kept| - from
  {
    n := from;
    if from < |kept| && !SummaryFits(e, kept, dropped, from, used, budget) {
      assert kept[from..][1..] == kept[from + 1..];
      n := EvictsJustEnough(e, kept, dropped, used, budget, from + 1);
    }
  }

  /** The messages that are not system messages, after the greedy pass: what is kept at the places
      `at`, and dropped at the places `out`. */
  ghost predicate Chosen(e: Estimator, others: seq<Message>, kept: seq<Message>, at: seq<nat>, dropped: seq<Message>,
                         out: seq<nat>, used: nat, budget: int) {
    && Picks(kept, others, at) && Picks(dropped, others, out) && |at| + |out| == |others|
    && forall i :: 0 <= i < |others| ==> TakenIfItFits(e, others, at, used, budget, i)
  }

  /** The longest prefix of `all` that fits. */
  ghost predicate Longest(e: Estimator, prefix: seq<Message>, all: seq<Message>, budget: int) {
    && prefix <= all && e.Total(prefix) <= budget
    && (|prefix| < |all| ==> e.Total(all[..|prefix| + 1]) > budget)
  }

  /** What is left of what the greedy pass kept, and the summary beside it: as few of the oldest go as
      make room for the summary of everything dropped, which is there if something is and it fits. */
  ghost predicate MakesRoom(e: Estimator, f: Fit, kept: seq<Message>, dropped: seq<Message>, n: nat, used: nat,
                            budget: int) {
    && n <= |kept| && f.kept == kept[n..] && f.dropped == Evicted(kept, dropped, n)
    && (if dropped == [] then n == 0 else JustEnough(e, kept, dropped, n, used, budget))
    && f.summary == if dropped != [] && used + e.Cost(e.Summary(f.dropped)) <= budget
                    then [e.Summary(f.dropped)] else []
  }

  /** What a truncation consists of, without its passes: the longest prefix of the system messages that
      fits; of the others, from the newest back, those that fit beside what is kept of the later ones,
      less as few of the oldest as make room for the summary; and the summary. */
  ghost predicate KeepsWhatFits(e: Estimator, f: Fit, systems: seq<Message>, others: seq<Message>, budget: int,
                                kept: seq<Message>, at: seq<nat>, dropped: seq<Message>, out: seq<nat>, n: nat) {
    var used := e.Total(f.systems);
    && Longest(e, f.systems, systems, budget)
    && Chosen(e, others, kept, at, dropped, out, used, budget)
    && MakesRoom(e, f, kept, dropped, n, used + e.Total(kept), budget)
  }

  lemma TruncationKeepsWhatFits(e: Estimator, ms: seq<Message>, budget: int)
    returns (kept: seq<Message>, at: seq<nat>, dropped: seq<Message>, out: seq<nat>, n: nat)
    requires budget >= 0
    ensures KeepsWhatFits(e, Truncated(e, ms, budget), Filter(ms, true), Filter(ms, false), budget,
                          kept, at, dropped, out, n)
  {
    var f := Truncated(e, ms, budget);
    LongestSystems(e, Filter(ms, true), budget);
    TruncatedMakes(e, ms, budget, Greedy(e, Filter(ms, false), e.Total(f.systems), budget));
    kept, at, dropped, out, n := PassesKeepWhatFits(e, f, Filter(ms, true), Filter(ms, false), budget);
  }

  lemma PassesKeepWhatFits(e: Estimator, f: Fit, systems: seq<Message>, others: seq<Message>, budget: int)
    returns (kept: seq<Message>, at: seq<nat>, dropped: seq<Message>, out: seq<nat>, n: nat)
    requires budget >= 0 && Longest(e, f.systems, systems, budget)
    requires var g := Greedy(e, others, e.Total(f.systems), budget); Makes(e, f, g.kept, g.dropped, g.used, budget)
    ensures KeepsWhatFits(e, f, systems, others, budget, kept, at, dropped, out, n)
  {
    kept, at, dropped, out := GreedyIsChosen(e, others, e.Total(f.systems), budget);
    n := RoomIsMade(e, f, kept, dropped, e.Total(f.systems) + e.Total(kept), budget);
  }

  /** What a conversation that does not fit is cut down to. */
  lemma FittingKeepsWhatFits(e: Estimator, ms: seq<Message>, contextWindow: int, reserveTokens: int)
    returns (f: Fit, kept: seq<Message>, at: seq<nat>, dropped: seq<Message>, out: seq<nat>, n: nat)
    requires contextWindow > 0 && !Fits(e, ms, contextWindow, reserveTokens)
    ensures FitMessages(e, ms, contextWindow, reserveTokens) == f.systems + f.summary + f.kept
    ensures var room := contextWindow - reserveTokens;
            KeepsWhatFits(e, f, Filter(ms, true), Filter(ms, false), if room < 256 then 256 else room,
                          kept, at, dropped, out, n)
  {
    UnchangedExactlyIfItFits(e, ms, contextWindow, reserveTokens);
    f := Truncated(e, ms, Budget(contextWindow, reserveTokens));
    kept, at, dropped, out, n := TruncationKeepsWhatFits(e, ms, Budget(contextWindow, reserveTokens));
  }

  /** The system messages, and the others, are the messages at the places with that role, in order. */
  lemma {:induction false} FilterPicks(ms: seq<Message>, system: bool) returns (at: seq<nat>)
    ensures Picks(Filter(ms, system), ms, at) && PlacesOf(ms, system, at)
  {
    at := [];
    if ms != [] {
      var init, m := ms[..|ms| - 1], ms[|ms| - 1];
      assert ms == init + [m];
      var before := FilterPicks(init, system);
      PicksMore(Filter(init, system), init, before, m);
      at := if m.IsSystem() == system then before + [|init|] else before;
      PlacesMore(init, m, system, before, at);
    }
  }

  ghost predicate PlacesOf(ms: seq<Message>, system: bool, at: seq<nat>) {
    && (forall i :: i in at ==> i < |ms|)
    && (forall i :: 0 <= i < |ms| ==> (i in at <==> ms[i].IsSystem() == system))
  }

  lemma PlacesMore(init: seq<Message>, m: Message, system: bool, before: seq<nat>, at: seq<nat>)
    requires PlacesOf(init, system, before)
    requires at == if m.IsSystem() == system then before + [|init|] else before
    ensures PlacesOf(init + [m], system, at)
  {
    assert forall i :: i in at <==> i in before || (m.IsSystem() == system && i == |init|);
  }

  /** `f` is what the third pass makes of the greedy selection. */
  ghost predicate Makes(e: Estimator, f: Fit, kept: seq<Message>, dropped: seq<Message>, used: nat, budget: int) {
    if dropped == [] then f == Fit(f.systems, [], kept, [])
    else
      var room := Evict(e, kept, dropped, used, budget);
      var summary := e.Summary(room.dropped);
      f == Fit(f.systems, if used + e.Cost(summary) <= budget then [summary] else [], room.kept, room.dropped)
  }

  lemma TruncatedMakes(e: Estimator, ms: seq<Message>, budget: int, g: Split)
    requires g == Greedy(e, Filter(ms, false), e.Total(Truncated(e, ms, budget).systems), budget)
    ensures Truncated(e, ms, budget).systems == Filter(ms, true)[..SystemsKept(e, Filter(ms, true), 0, 0, budget)]
    ensures Makes(e, Truncated(e, ms, budget), g.kept, g.dropped, g.used, budget)
  {
  }

  lemma RoomIsMade(e: Estimator, f: Fit, kept: seq<Message>, dropped: seq<Message>, used: nat, budget: int)
    returns (n: nat)
    requires Makes(e, f, kept, dropped, used, budget)
    ensures MakesRoom(e, f, kept, dropped, n, used, budget)
  {
    n := 0;
    if dropped != [] {
      assert kept[0..] == kept && Evicted(kept, dropped, 0) == dropped;
      n := EvictsJustEnough(e, kept, dropped, used, budget, 0);
    }
  }

  lemma LongestSystems(e: Estimator, all: seq<Message>, budget: int)
    requires budget >= 0
    ensures var k := SystemsKept(e, all, 0, 0, budget);
            e.Total(all[..k]) <= budget && (k < |all| ==> e.Total(all[..k + 1]) > budget)
  {
    assert all[..0] == [];
    SystemsFit(e, all, 0, budget);
    SystemsAreLongest(e, all, 0, budget);
  }

  lemma GreedyIsChosen(e: Estimator, others: seq<Message>, used: nat, budget: int)
    returns (kept: seq<Message>, at: seq<nat>, dropped: seq<Message>, out: seq<nat>)
    requires used <= budget
    ensures Greedy(e, others, used, budget) == Split(kept, dropped, used + e.Total(kept))
    ensures Chosen(e, others, kept, at, dropped, out, used, budget)
  {
    var g := Greedy(e, others, used, budget);
    kept, dropped := g.kept, g.dropped;
    at, out := KeptAt(e, others, used, budget), DroppedAt(e, others, used, budget);
    GreedyPicks(e, others, used, budget);
    GreedyTakes(e, others, used, budget);
    GreedyFits(e, others, used, budget);
    GreedyConserves(e, others, used, budget);
    assert |multiset(kept) + multiset(dropped)| == |multiset(others)|;
  }

  /** Because `used` is never lowered, making room for the summary can evict every message, the
      newest included: exactly when no summary on the way fits beside what was kept at first. */
  lemma {:induction false} EvictsEverything(e: Estimator, kept: seq<Message>, dropped: seq<Message>, used: nat,
                                            budget: int, from: nat)
    requires from <= |kept|
    ensures Evict(e, kept[from..], Evicted(kept, dropped, from), used, budget).kept == [] <==>
            forall n: nat :: from <= n < |kept| ==> !SummaryFits(e, kept, dropped, n, used, budget)
    decreases |kept| - from
  {
    if from < |kept| {
      assert kept[from..][1..] == kept[from + 1..];
      assert SummaryFits(e, kept, dropped, from, used, budget) <==>
        used + e.Cost(e.Summary(Evicted(kept, dropped, from))) <= budget;
      EvictsEverything(e, kept, dropped, used, budget, from + 1);
    }
  }

  // ------------------------------------------------------------- the newest message

  /** The last message of `whole` is among the picked ones. */
  ghost predicate PicksLast(part: seq<Message>, whole: seq<Message>) {
    exists at: seq<nat> :: Picks(part, whole, at) && at != [] && at[|at| - 1] == |whole| - 1
  }

  /** After `n` evictions something is still kept, and the summary fits. */
  ghost predicate RoomAfter(e: Estimator, g: Split, n: nat, budget: int) {
    n < |g.kept| && SummaryFits(e, g.kept, g.dropped, n, g.used, budget)
  }

  /** The newest message still fits beside the system messages, and the summary, if there is one, fits
      before everything is evicted. */
  ghost predicate NewestFits(e: Estimator, ms: seq<Message>, budget: int)
    requires Filter(ms, false) != []
  {
    var others, used := Filter(ms, false), e.Total(Truncated(e, ms, budget).systems);
    var g := Greedy(e, others, used, budget);
    && used + e.Cost(others[|others| - 1]) <= budget
    && (g.dropped == [] || exists n: nat :: RoomAfter(e, g, n, budget))
  }

  /** The greedy pass keeps only what fits on its own: once too large, always too large. */
  lemma {:induction false} KeptFitsAlone(e: Estimator, ms: seq<Message>, used: nat, budget: int)
    ensures forall m :: m in Greedy(e, ms, used, budget).kept ==> used + e.Cost(m) <= budget
    decreases |ms|
  {
    if ms != [] {
      var m, init := ms[|ms| - 1], ms[..|ms| - 1];
      KeptFitsAlone(e, init, if used + e.Cost(m) > budget then used else used + e.Cost(m), budget);
    }
  }

  lemma SomethingStays(e: Estimator, g: Split, budget: int)
    requires g.kept != []
    ensures Evict(e, g.kept, g.dropped, g.used, budget).kept != [] <==> exists n: nat :: RoomAfter(e, g, n, budget)
  {
    assert g.kept[0..] == g.kept && Evicted(g.kept, g.dropped, 0) == g.dropped;
    EvictsEverything(e, g.kept, g.dropped, g.used, budget, 0);
    if n: nat :| n < |g.kept| && SummaryFits(e, g.kept, g.dropped, n, g.used, budget) {
      assert RoomAfter(e, g, n, budget);
    }
  }

  lemma PicksLastHasIt(part: seq<Message>, whole: seq<Message>)
    requires PicksLast(part, whole)
    ensures part != [] && whole != [] && whole[|whole| - 1] in part
  {
    var at :| Picks(part, whole, at) && at != [] && at[|at| - 1] == |whole| - 1;
    assert part[|at| - 1] == whole[at[|at| - 1]];
  }

  lemma SuffixPicksLast(part: seq<Message>, whole: seq<Message>, at: seq<nat>, n: nat)
    requires Picks(part, whole, at) && at != [] && at[|at| - 1] == |whole| - 1 && n < |part|
    ensures PicksLast(part[n..], whole)
  {
    PicksSuffix(part, whole, at, n);
    assert at[n..][|at| - n - 1] == at[|at| - 1];
  }

  /** The greedy pass keeps the newest message exactly if it fits on its own. */
  lemma GreedyNewest(e: Estimator, others: seq<Message>, used: nat, budget: int, n: nat)
    requires others != []
    ensures var kept, newest := Greedy(e, others, used, budget).kept, others[|others| - 1];
            && (newest in kept <==> used + e.Cost(newest) <= budget)
            && (used + e.Cost(newest) <= budget && n < |kept| ==> PicksLast(kept[n..], others))
  {
    KeptFitsAlone(e, others, used, budget);
    var kept, newest := Greedy(e, others, used, budget).kept, others[|others| - 1];
    if used + e.Cost(newest) <= budget {
      GreedyPicks(e, others, used, budget);
      var at := KeptAt(e, others, used, budget);
      assert kept[|kept| - 1] == newest;
      if n < |kept| {
        SuffixPicksLast(kept, others, at, n);
      }
    }
  }

  /** What the greedy pass keeps, and what is left of it after the evictions. */
  lemma KeptIsSuffix(e: Estimator, g: Split, f: Fit, budget: int) returns (n: nat)
    requires if g.dropped == [] then f.kept == g.kept
             else f.kept == Evict(e, g.kept, g.dropped, g.used, budget).kept
    ensures n <= |g.kept| && f.kept == g.kept[n..]
    ensures g.kept != [] ==> (f.kept != [] <==> g.dropped == [] || exists i: nat :: RoomAfter(e, g, i, budget))
  {
    n := 0;
    if g.dropped != [] {
      n := EvictKeepsSuffix(e, g.kept, g.dropped, g.used, budget);
      if g.kept != [] {
        SomethingStays(e, g, budget);
      }
    }
  }

  /** Exactly when truncation keeps the newest message that is not a system message. */
  lemma TruncationKeepsNewest(e: Estimator, ms: seq<Message>, budget: int)
    requires Filter(ms, false) != []
    ensures var others, f := Filter(ms, false), Truncated(e, ms, budget);
            && (PicksLast(f.kept, others) <==> NewestFits(e, ms, budget))
            && (others[|others| - 1] in f.kept <==> NewestFits(e, ms, budget))
  {
    var others, f := Filter(ms, false), Truncated(e, ms, budget);
    var used, newest := e.Total(f.systems), others[|others| - 1];
    var g := Greedy(e, others, used, budget);
    var n := KeptIsSuffix(e, g, f, budget);
    GreedyNewest(e, others, used, budget, n);
    if PicksLast(f.kept, others) {
      PicksLastHasIt(f.kept, others);
    }
    assert newest in f.kept ==> newest in g.kept;
  }

  lemma {:induction false} FilterMembers(ms: seq<Message>, system: bool)
    ensures forall m :: m in Filter(ms, system) <==> m in ms && m.IsSystem() == system
  {
    if ms != [] {
      assert ms == ms[..|ms| - 1] + [ms[|ms| - 1]];
      FilterMembers(ms[..|ms| - 1], system);
    }
  }

  /** The newest message survives fitting exactly when there is nothing to truncate, or it fits beside
      the system messages and the summary fits before everything is evicted. */
  lemma NewestSurvives(e: Estimator, ms: seq<Message>, contextWindow: int, reserveTokens: int)
    requires Filter(ms, false) != []
    ensures var others, budget := Filter(ms, false), Budget(contextWindow, reserveTokens);
            others[|others| - 1] in FitMessages(e, ms, contextWindow, reserveTokens) <==>
              contextWindow <= 0 || e.Total(ms) <= budget || NewestFits(e, ms, budget)
  {
    var others, budget := Filter(ms, false), Budget(contextWindow, reserveTokens);
    var newest, f := others[|others| - 1], Truncated(e, ms, budget);
    FilterMembers(ms, false);
    FilterMembers(ms, true);
    TruncationKeepsNewest(e, ms, budget);
    assert newest in others;
    assert forall m :: m in f.systems + f.summary ==> m.IsSystem();
    assert f.Messages() == (f.systems + f.summary) + f.kept;
  }

  lemma OneMoreMessage(e: Estimator, ms: seq<Message>, m: Message, system: bool)
    ensures Filter(ms + [m], system) == Filter(ms, system) + (if m.IsSystem() == system then [m] else [])
    ensures e.Total(ms + [m]) == e.Total(ms) + e.Cost(m)
  {
    assert (ms + [m])[..|ms|] == ms;
  }

  lemma TwoMessages(e: Estimator, older: Message, newest: Message)
    requires !older.IsSystem() && !newest.IsSystem()
    ensures Filter([older, newest], true) == [] && Filter([older, newest], false) == [older, newest]
    ensures e.Total([older, newest]) == e.Cost(older) + e.Cost(newest)
  {
    assert [] + [older] == [older] && [older] + [newest] == [older, newest];
    OneMoreMessage(e, [], older, true);
    OneMoreMessage(e, [older], newest, true);
    OneMoreMessage(e, [], older, false);
    OneMoreMessage(e, [older], newest, false);
  }

  lemma NewestOfTwoKept(e: Estimator, older: Message, newest: Message, budget: int)
    requires e.Cost(newest) <= budget < e.Cost(older) + e.Cost(newest)
    ensures Greedy(e, [older, newest], 0, budget) == Split([newest], [older], e.Cost(newest))
  {
    assert [older, newest][..1] == [older] && [older][..0] == [];
    assert Greedy(e, [older], e.Cost(newest), budget) == Split([], [older], e.Cost(newest));
  }

  lemma OneEvicted(e: Estimator, older: Message, newest: Message, used: nat, budget: int)
    requires budget < used + e.Cost(e.Summary([older]))
    ensures Evict(e, [newest], [older], used, budget) == Room([], [newest, older])
  {
    assert [newest][1..] == [] && [newest] + [older] == [newest, older];
  }

  /** A newest message that fits on its own is lost, in every window: the two messages do not fit
      together, and no summary fits beside the newest. */
  lemma NewestMessageCanBeLost(e: Estimator, older: Message, newest: Message, contextWindow: int, reserveTokens: int)
    requires !older.IsSystem() && !newest.IsSystem() && contextWindow > 0
    requires var budget := Budget(contextWindow, reserveTokens);
             && e.Cost(newest) <= budget < e.Cost(older) + e.Cost(newest)
             && budget < e.Cost(newest) + e.Cost(e.Summary([older]))
             && budget < e.Cost(newest) + e.Cost(e.Summary([newest, older]))
    ensures FitMessages(e, [older, newest], contextWindow, reserveTokens) == []
  {
    var budget := Budget(contextWindow, reserveTokens);
    TwoMessages(e, older, newest);
    NewestOfTwoKept(e, older, newest, budget);
    OneEvicted(e, older, newest, e.Cost(newest), budget);
  }
}
