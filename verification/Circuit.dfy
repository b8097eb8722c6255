/**
 * The circuit breaker and the retrying client
 * (backend/app/modules/llm/circuit_breaker.py, backend/app/modules/llm/retry.py).
 */
module Circuit {
  import opened Options
  import opened Timeline

  const FAILURE_THRESHOLD := 3
  const COOLDOWN_SECONDS := 30.0

  // ------------------------------------------------------------------ the breaker

  datatype Breaker = Breaker(failures: nat, openedAt: Option<real>) {
    predicate Allows(now: real) {
      openedAt.None? || now - openedAt.value >= COOLDOWN_SECONDS
    }

    /** The state after `allow`: an expired cooldown closes the breaker again. */
    function AfterAllow(now: real): Breaker {
      if openedAt.Some? && Allows(now) then Breaker(0, None) else this
    }

    function AfterSuccess(): Breaker {
      Breaker(0, None)
    }

    function AfterFailure(now: real): Breaker {
      Breaker(failures + 1, if failures + 1 >= FAILURE_THRESHOLD && openedAt.None? then Some(now) else openedAt)
    }

    /** Open means at least three failures, closed fewer. */
    predicate Sound() {
      openedAt.Some? <==> failures >= FAILURE_THRESHOLD
    }
  }

  class LLMCircuitBreaker {
    var failures: nat
    var openedAt: Option<real>

    function State(): Breaker
      reads this
    {
      Breaker(failures, openedAt)
    }

    constructor ()
      ensures State() == Breaker(0, None)
    {
      failures := 0;
      openedAt := None;
    }

    method Allow(now: real) returns (ok: bool)
      modifies this
      ensures ok == old(State()).Allows(now) && State() == old(State()).AfterAllow(now)
    {
      if openedAt.None? {
        return true;
      }
      if now - openedAt.value >= COOLDOWN_SECONDS {
        openedAt := None;
        failures := 0;
        return true;
      }
      return false;
    }

    method RecordSuccess()
      modifies this
      ensures State() == old(State()).AfterSuccess()
    {
      failures := 0;
      openedAt := None;
    }

    method RecordFailure(now: real)
      modifies this
      ensures State() == old(State()).AfterFailure(now)
    {
      failures := failures + 1;
      if failures >= FAILURE_THRESHOLD && openedAt.None? {
        openedAt := Some(now);
      }
    }
  }

  // ---------------------------------------------------------- what a refusal means

  /** Breaker events of any mix of overlapping calls. */
  datatype Event = Ask(now: real) | Succeeded | Failed(now: real)

  function Next(b: Breaker, e: Event): Breaker {
    match e
    case Ask(now) => b.AfterAllow(now)
    case Succeeded => b.AfterSuccess()
    case Failed(now) => b.AfterFailure(now)
  }

  function After(history: seq<Event>): Breaker {
    if history == [] then Breaker(0, None)
    else Next(After(history[..|history| - 1]), history[|history| - 1])
  }

  /** The n-th event resets the breaker: a success, or a request that finds the cooldown over. */
  predicate Resets(history: seq<Event>, n: nat)
    requires n < |history|
  {
    match history[n]
    case Succeeded => true
    case Failed(_) => false
    case Ask(now) => After(history[..n]).openedAt.Some? && After(history[..n]).Allows(now)
  }

  /** Failures recorded since the last reset. */
  function FailuresSinceReset(history: seq<Event>): nat {
    if history == [] then 0
    else
      var n := |history| - 1;
      if Resets(history, n) then 0 else FailuresSinceReset(history[..n]) + (if history[n].Failed? then 1 else 0)
  }

  /** The k-th event is the failure, at instant `at`, that opened the breaker: the third since the
      last reset, with no reset after it. */
  ghost predicate Tripped(history: seq<Event>, k: nat, at: real) {
    && k < |history| && history[k] == Failed(at)
    && FailuresSinceReset(history[..k + 1]) == 3
    && forall j: nat :: k < j < |history| ==> !Resets(history, j)
  }

  lemma TrippedBefore(history: seq<Event>, k: nat, at: real)
    requires history != [] && k < |history| - 1
    ensures Tripped(history, k, at) <==> Tripped(history[..|history| - 1], k, at) && !Resets(history, |history| - 1)
  {
    var before := history[..|history| - 1];
    assert before[..k + 1] == history[..k + 1];
    forall j: nat | k < j < |before| ensures Resets(before, j) <==> Resets(history, j) {
      assert before[..j] == history[..j];
    }
  }

  lemma {:induction false} BreakerCounts(history: seq<Event>)
    ensures After(history).Sound() && After(history).failures == FailuresSinceReset(history)
  {
    if history != [] {
      BreakerCounts(history[..|history| - 1]);
    }
  }

  lemma {:induction false} OpenMeansTripped(history: seq<Event>, at: real)
    requires After(history).openedAt == Some(at)
    ensures exists k: nat :: Tripped(history, k, at)
  {
    var n := |history| - 1;
    BreakerCounts(history);
    BreakerCounts(history[..n]);
    if After(history[..n]).openedAt == Some(at) && !Resets(history, n) {
      OpenMeansTripped(history[..n], at);
      var k: nat :| Tripped(history[..n], k, at);
      TrippedBefore(history, k, at);
    } else {
      assert history[..n + 1] == history;
      assert Tripped(history, n, at);
    }
  }

  lemma {:induction false} TrippedMeansOpen(history: seq<Event>, k: nat, at: real)
    requires Tripped(history, k, at)
    ensures After(history).openedAt == Some(at)
  {
    var n := |history| - 1;
    if k == n {
      assert history[..n + 1] == history;
      BreakerCounts(history);
      BreakerCounts(history[..n]);
    } else {
      TrippedBefore(history, k, at);
      TrippedMeansOpen(history[..n], k, at);
    }
  }

  ghost predicate TrippedRecently(history: seq<Event>, k: nat, at: real, now: real) {
    Tripped(history, k, at) && now - at < 30.0
  }

  /** A call is refused exactly when the third failure since the last reset is less than 30 seconds
      ago, however the calls overlap. */
  lemma RefusalMeansRecentlyTripped(history: seq<Event>, now: real)
    ensures !After(history).Allows(now) <==> exists k: nat, at: real :: TrippedRecently(history, k, at, now)
  {
    if !After(history).Allows(now) {
      var at := After(history).openedAt.value;
      OpenMeansTripped(history, at);
      var k: nat :| Tripped(history, k, at);
      assert TrippedRecently(history, k, at, now);
    }
    forall k: nat, at: real | TrippedRecently(history, k, at, now) ensures !After(history).Allows(now) {
      TrippedMeansOpen(history, k, at);
    }
  }

  // ------------------------------------------------------------ the retrying client

  /** What one attempt at the provider ends in. */
  datatype Attempt = Reply | Retryable | Fatal

  /** The provider: the outcome of the n-th attempt of a call. */
  type Provider = nat -> Attempt

  /** How many attempts a call makes: up to the first that is not a retryable failure, at most `max`. */
  function Attempts(provider: Provider, attempt: nat, max: nat): (n: nat)
    requires 1 <= attempt <= max
    ensures attempt <= n <= max
    ensures n < max ==> !provider(n).Retryable?
    ensures forall i :: attempt <= i < n ==> provider(i).Retryable?
    decreases max - attempt
  {
    if provider(attempt).Retryable? && attempt < max then Attempts(provider, attempt + 1, max) else attempt
  }

  class RetryLLMClient {
    const maxAttempts: nat
    const breaker: LLMCircuitBreaker

    constructor (breaker: LLMCircuitBreaker, maxAttempts: int)
      ensures this.breaker == breaker && this.maxAttempts == if maxAttempts < 1 then 1 else maxAttempts
    {
      this.breaker := breaker;
      this.maxAttempts := if maxAttempts < 1 then 1 else maxAttempts;
    }

    method WithRetry(provider: Provider) returns (ok: bool, attempts: nat)
      requires maxAttempts >= 1
      ensures attempts == Attempts(provider, 1, maxAttempts) && ok == provider(attempts).Reply?
    {
      attempts := 0;
      while true
        invariant attempts < maxAttempts
        invariant Attempts(provider, attempts + 1, maxAttempts) == Attempts(provider, 1, maxAttempts)
        decreases maxAttempts - attempts
      {
        attempts := attempts + 1;
        match provider(attempts)
        case Reply =>
          return true, attempts;
        case Fatal =>
          return false, attempts;
        case Retryable =>
          if attempts >= maxAttempts {
            return false, attempts;
          }
      }
    }

    /** A call that starts at `now` and, if admitted, ends at `end`. */
    method Chat(provider: Provider, now: real, end: real) returns (admitted: bool, ok: bool, attempts: nat)
      requires maxAttempts >= 1
      modifies breaker
      ensures admitted == old(breaker.State()).Allows(now)
      ensures var before := old(breaker.State());
              && breaker.State() == ChatCall(now, end, provider).Done(before, maxAttempts)
              && breaker.State() == if !admitted then before
                                    else Next(Next(before, Ask(now)), if ok then Succeeded else Failed(end))
      ensures ok ==> breaker.State() == Breaker(0, None)
      ensures attempts == if admitted then Attempts(provider, 1, maxAttempts) else 0
      ensures ok == (admitted && provider(attempts).Reply?)
    {
      admitted := breaker.Allow(now);
      if !admitted {
        return false, false, 0;
      }
      ok, attempts := WithRetry(provider);
      if ok {
        breaker.RecordSuccess();
      } else {
        breaker.RecordFailure(end);
      }
    }
  }

  // ------------------------------------------------------- runs of sequential calls

  datatype ChatCall = ChatCall(now: real, end: real, provider: Provider) {
    predicate Succeeds(max: nat)
      requires max >= 1
    {
      provider(Attempts(provider, 1, max)).Reply?
    }

    function Done(b: Breaker, max: nat): Breaker
      requires max >= 1
    {
      if !b.Allows(now) then b.AfterAllow(now)
      else if Succeeds(max) then b.AfterAllow(now).AfterSuccess()
      else b.AfterAllow(now).AfterFailure(end)
    }
  }

  /** One call at a time: each ends after it starts and before the next starts. */
  ghost predicate Sequential(calls: seq<ChatCall>) {
    && (forall i :: 0 <= i < |calls| ==> calls[i].now <= calls[i].end)
    && (forall i, j :: 0 <= i < j < |calls| ==> calls[i].end <= calls[j].now)
  }

  function BreakerAfter(b: Breaker, calls: seq<ChatCall>, max: nat): Breaker
    requires max >= 1
  {
    if calls == [] then b
    else calls[|calls| - 1].Done(BreakerAfter(b, calls[..|calls| - 1], max), max)
  }

  /** What the breaker is told in a run of sequential calls, from a new breaker. */
  function HistoryOf(calls: seq<ChatCall>, max: nat): seq<Event>
    requires max >= 1
  {
    if calls == [] then []
    else
      var n := |calls| - 1;
      var before, call := HistoryOf(calls[..n], max), calls[n];
      if !After(before).Allows(call.now) then before
      else before + [Ask(call.now)] + [if call.Succeeds(max) then Succeeded else Failed(call.end)]
  }

  lemma AfterMore(history: seq<Event>, e: Event)
    ensures After(history + [e]) == Next(After(history), e)
  {
    assert (history + [e])[..|history|] == history;
  }

  /** A run of calls is the history of its admitted calls: each asks, and then succeeds or fails. */
  lemma {:induction false} RunIsHistory(calls: seq<ChatCall>, max: nat)
    requires max >= 1
    ensures BreakerAfter(Breaker(0, None), calls, max) == After(HistoryOf(calls, max))
  {
    if calls != [] {
      var n := |calls| - 1;
      var before, call := HistoryOf(calls[..n], max), calls[n];
      RunIsHistory(calls[..n], max);
      AfterMore(before, Ask(call.now));
      AfterMore(before + [Ask(call.now)], if call.Succeeds(max) then Succeeded else Failed(call.end));
    }
  }

  /** The n-th call of a run is admitted. */
  predicate IsAdmitted(calls: seq<ChatCall>, max: nat, n: nat)
    requires max >= 1 && n < |calls|
  {
    BreakerAfter(Breaker(0, None), calls[..n], max).Allows(calls[n].now)
  }

  /** The n-th call of a run is admitted and fails. */
  predicate FailsAt(calls: seq<ChatCall>, max: nat, n: nat)
    requires max >= 1
  {
    n < |calls| && IsAdmitted(calls, max, n) && !calls[n].Succeeds(max)
  }

  /** No call from the n-th on is admitted. */
  ghost predicate QuietFrom(calls: seq<ChatCall>, max: nat, n: nat)
    requires max >= 1
  {
    forall m: nat :: n <= m < |calls| ==> !IsAdmitted(calls, max, m)
  }

  /** Between these two no call is admitted. */
  ghost predicate QuietBetween(calls: seq<ChatCall>, max: nat, n: nat, end: nat)
    requires max >= 1 && end <= |calls|
  {
    forall m: nat :: n < m < end ==> !IsAdmitted(calls, max, m)
  }

  /** The failures that the breaker counts after a run, one to three, are those of the last admitted
      calls: the places of the first, the second and the third. */
  ghost predicate Counted(calls: seq<ChatCall>, max: nat, i: nat, j: nat, k: nat)
    requires max >= 1
  {
    var b := BreakerAfter(Breaker(0, None), calls, max);
    && b.failures <= 3 && b.openedAt == (if b.failures == 3 && k < |calls| then Some(calls[k].end) else None)
    && (b.failures >= 1 ==> FailsAt(calls, max, i))
    && (b.failures >= 2 ==> i < j && FailsAt(calls, max, j) && QuietBetween(calls, max, i, j))
    && (b.failures >= 3 ==> j < k && FailsAt(calls, max, k) && QuietBetween(calls, max, j, k))
    && (b.failures >= 1 ==>
          QuietFrom(calls, max, (if b.failures == 1 then i else if b.failures == 2 then j else k) + 1))
  }

  lemma SameBefore(calls: seq<ChatCall>, max: nat, n: nat)
    requires max >= 1 && n < |calls| - 1
    ensures IsAdmitted(calls[..|calls| - 1], max, n) <==> IsAdmitted(calls, max, n)
    ensures FailsAt(calls[..|calls| - 1], max, n) <==> FailsAt(calls, max, n)
  {
    assert calls[..|calls| - 1][..n] == calls[..n];
  }

  /** What was quiet stays so, up to the last call. */
  lemma StillQuiet(calls: seq<ChatCall>, max: nat, n: nat, end: nat)
    requires max >= 1 && calls != [] && end <= |calls| - 1
    ensures var init := calls[..|calls| - 1];
            && (QuietBetween(init, max, n, end) ==> QuietBetween(calls, max, n, end))
            && (QuietFrom(init, max, n + 1) ==> QuietBetween(calls, max, n, |init|))
            && (QuietFrom(init, max, n + 1) && !IsAdmitted(calls, max, |init|) ==> QuietFrom(calls, max, n + 1))
  {
    forall m: nat | m < |calls| - 1 ensures IsAdmitted(calls[..|calls| - 1], max, m) <==> IsAdmitted(calls, max, m) {
      SameBefore(calls, max, m);
    }
  }

  /** All of this at once, for the three places. */
  lemma AllStillQuiet(calls: seq<ChatCall>, max: nat, i: nat, j: nat, k: nat)
    requires max >= 1 && calls != [] && Counted(calls[..|calls| - 1], max, i, j, k)
    requires !IsAdmitted(calls, max, |calls| - 1)
    ensures Counted(calls, max, i, j, k)
  {
    var b := BreakerAfter(Breaker(0, None), calls[..|calls| - 1], max);
    if b.failures >= 1 {
      SameBefore(calls, max, i);
      StillQuiet(calls, max, i, 0);
    }
    if b.failures >= 2 {
      SameBefore(calls, max, j);
      StillQuiet(calls, max, i, j);
      StillQuiet(calls, max, j, 0);
    }
    if b.failures >= 3 {
      SameBefore(calls, max, k);
      StillQuiet(calls, max, j, k);
      StillQuiet(calls, max, k, 0);
    }
  }

  /** One more failure takes the next place. */
  lemma OneMoreFailure(calls: seq<ChatCall>, max: nat, i: nat, j: nat, k: nat)
    requires max >= 1 && calls != [] && Counted(calls[..|calls| - 1], max, i, j, k)
    requires FailsAt(calls, max, |calls| - 1)
    ensures var last, before := |calls| - 1, BreakerAfter(Breaker(0, None), calls[..|calls| - 1], max).failures;
            && (before in {0, 3} ==> Counted(calls, max, last, j, k))
            && (before == 1 ==> Counted(calls, max, i, last, k))
            && (before == 2 ==> Counted(calls, max, i, j, last))
  {
    var before := BreakerAfter(Breaker(0, None), calls[..|calls| - 1], max).failures;
    if before == 1 {
      SameBefore(calls, max, i);
      StillQuiet(calls, max, i, 0);
    } else if before == 2 {
      SameBefore(calls, max, i);
      SameBefore(calls, max, j);
      StillQuiet(calls, max, i, j);
      StillQuiet(calls, max, j, 0);
    }
  }

  lemma {:induction false} FailuresAreCounted(calls: seq<ChatCall>, max: nat) returns (i: nat, j: nat, k: nat)
    requires max >= 1
    ensures Counted(calls, max, i, j, k)
  {
    i, j, k := 0, 0, 0;
    if calls != [] {
      var last := |calls| - 1;
      i, j, k := FailuresAreCounted(calls[..last], max);
      var before := BreakerAfter(Breaker(0, None), calls[..last], max).failures;
      if FailsAt(calls, max, last) {
        OneMoreFailure(calls, max, i, j, k);
        i := if before in {0, 3} then last else i;
        j := if before == 1 then last else j;
        k := if before == 2 then last else k;
      } else if !IsAdmitted(calls, max, last) {
        AllStillQuiet(calls, max, i, j, k);
      }
    }
  }

  /** A call is refused only if the last three admitted calls all failed, with no success between
      them, and the last of them less than 30 seconds ago. */
  lemma RefusedOnlyAfterThreeFailures(calls: seq<ChatCall>, max: nat, now: real) returns (i: nat, j: nat, k: nat)
    requires max >= 1 && !BreakerAfter(Breaker(0, None), calls, max).Allows(now)
    ensures i < j < k < |calls| && now < calls[k].end + 30.0
    ensures forall n: nat :: i <= n < |calls| ==> (IsAdmitted(calls, max, n) <==> n in {i, j, k})
    ensures !calls[i].Succeeds(max) && !calls[j].Succeeds(max) && !calls[k].Succeeds(max)
  {
    i, j, k := FailuresAreCounted(calls, max);
  }

  /** The instants at which calls were admitted. */
  function Admitted(b: Breaker, calls: seq<ChatCall>, max: nat): seq<real>
    requires max >= 1
  {
    if calls == [] then []
    else
      var n := |calls| - 1;
      Admitted(b, calls[..n], max) +
      (if BreakerAfter(b, calls[..n], max).Allows(calls[n].now) then [calls[n].now] else [])
  }

  /** The provider attempts made by calls admitted in a window. */
  function AttemptsDuring(b: Breaker, calls: seq<ChatCall>, max: nat, during: Window): nat
    requires max >= 1
  {
    if calls == [] then 0
    else
      var n := |calls| - 1;
      AttemptsDuring(b, calls[..n], max, during) +
      (if BreakerAfter(b, calls[..n], max).Allows(calls[n].now) && during.Has(calls[n].now)
       then Attempts(calls[n].provider, 1, max) else 0)
  }

  ghost predicate AllFail(calls: seq<ChatCall>, max: nat)
    requires max >= 1
  {
    forall i :: 0 <= i < |calls| ==> !calls[i].Succeeds(max)
  }

  /** How admissions relate to the breaker in a run of failing calls: the admissions counted by a
      closed breaker are the last ones, and the one before them is a cooldown away. */
  ghost predicate Paced(b: Breaker, times: seq<real>, now: real) {
    && b.Sound() && Ordered(times) && Spaced(times, FAILURE_THRESHOLD, COOLDOWN_SECONDS)
    && (forall i :: 0 <= i < |times| ==> times[i] <= now)
    && (b.openedAt.Some? ==> b.openedAt.value <= now && forall i :: 0 <= i < |times| ==> times[i] <= b.openedAt.value)
    && (b.openedAt.None? && |times| > b.failures ==>
          && b.failures > 0
          && forall i :: 0 <= i < |times| - b.failures ==> times[i] + COOLDOWN_SECONDS <= times[|times| - b.failures])
  }

  lemma FailingCallStaysPaced(b: Breaker, times: seq<real>, call: ChatCall, max: nat, before: real)
    requires max >= 1 && Paced(b, times, before) && before <= call.now <= call.end && !call.Succeeds(max)
    ensures Paced(call.Done(b, max), times + (if b.Allows(call.now) then [call.now] else []), call.end)
  {
    if b.Allows(call.now) {
      var quiet := if b.openedAt.Some? then |times| else if |times| > b.failures then |times| - b.failures else 0;
      forall i | 0 <= i < quiet ensures times[i] <= call.now - COOLDOWN_SECONDS {
        assert b.openedAt.None? ==> times[|times| - b.failures] <= before;
      }
      AppendSpaced(times, FAILURE_THRESHOLD, COOLDOWN_SECONDS, call.now, quiet);
    } else {
      assert times + [] == times;
    }
  }

  lemma {:induction false} RunStaysPaced(b: Breaker, calls: seq<ChatCall>, max: nat, now: real)
    requires max >= 1 && b.Sound() && Sequential(calls) && AllFail(calls, max)
    requires b.openedAt.Some? ==>
               b.openedAt.value <= now && forall i :: 0 <= i < |calls| ==> b.openedAt.value <= calls[i].now
    requires forall i :: 0 <= i < |calls| ==> calls[i].end <= now
    ensures Paced(BreakerAfter(b, calls, max), Admitted(b, calls, max), now)
    decreases |calls|
  {
    if calls != [] {
      var n := |calls| - 1;
      RunStaysPaced(b, calls[..n], max, calls[n].now);
      FailingCallStaysPaced(BreakerAfter(b, calls[..n], max), Admitted(b, calls[..n], max), calls[n], max,
        calls[n].now);
    }
  }

  lemma Scale(max: nat, smaller: nat, larger: nat)
    requires smaller <= larger
    ensures max * smaller <= max * larger
    ensures max * (smaller + 1) == max * smaller + max
  {
  }

  lemma {:induction false} AttemptsBound(b: Breaker, calls: seq<ChatCall>, max: nat, during: Window)
    requires max >= 1
    ensures AttemptsDuring(b, calls, max, during) <= max * Count(Admitted(b, calls, max), during)
    decreases |calls|
  {
    if calls != [] {
      var n := |calls| - 1;
      AttemptsBound(b, calls[..n], max, during);
      var before, last := Admitted(b, calls[..n], max), calls[n];
      assert (before + [last.now])[..|before|] == before && before + [] == before;
      var count := Count(before, during);
      Scale(max, count, count);
      assert Count(before + [last.now], during) == if during.Has(last.now) then count + 1 else count;
    }
  }

  /** While a provider keeps failing, sequential calls reach it at most three times in any
      30 seconds - at most nine attempts with the default of three per call - from whatever sound
      state the breaker is in. */
  lemma CircuitBound(b: Breaker, calls: seq<ChatCall>, max: nat, start: real)
    requires max >= 1 && b.Sound() && Sequential(calls) && AllFail(calls, max)
    requires b.openedAt.Some? ==> forall i :: 0 <= i < |calls| ==> b.openedAt.value <= calls[i].now
    ensures Count(Admitted(b, calls, max), From(start, 30.0)) <= 3
    ensures AttemptsDuring(b, calls, max, From(start, 30.0)) <= 3 * max
  {
    var now := if calls != [] then calls[|calls| - 1].end else if b.openedAt.Some? then b.openedAt.value else 0.0;
    RunStaysPaced(b, calls, max, now);
    var during := From(start, COOLDOWN_SECONDS);
    SpacedCount(Admitted(b, calls, max), FAILURE_THRESHOLD, COOLDOWN_SECONDS, during);
    AttemptsBound(b, calls, max, during);
    Scale(max, Count(Admitted(b, calls, max), during), FAILURE_THRESHOLD);
  }
}
