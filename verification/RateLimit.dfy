/** The two request limiters (backend/app/core/rate_limit.py). */
module RateLimit {
  import opened Options
  import opened Timeline

  /** `IndexError` is the exception of `bucket[0]` on an empty bucket, when `limit` is not positive. */
  datatype Decision = Allowed | Refused(retryAfter: int) | IndexError

  function Max(a: int, b: int): int {
    if a < b then b else a
  }

  /** Python's `int(x)`: truncation toward zero. */
  function Truncate(x: real): int {
    if x >= 0.0 then x.Floor else -((-x).Floor)
  }

  // --------------------------------------------- the in-memory (sliding) limiter

  /** How many entries at the front of the deque have left the window, looking from `i` on. */
  function Stale(bucket: seq<real>, cutoff: real, i: nat): (n: nat)
    requires i <= |bucket|
    ensures i <= n <= |bucket|
    ensures forall j :: i <= j < n ==> bucket[j] <= cutoff
    ensures n < |bucket| ==> bucket[n] > cutoff
    decreases |bucket| - i
  {
    if i < |bucket| && bucket[i] <= cutoff then Stale(bucket, cutoff, i + 1) else i
  }

  function Prune(bucket: seq<real>, cutoff: real): seq<real> {
    bucket[Stale(bucket, cutoff, 0)..]
  }

  function Decide(pruned: seq<real>, limit: int, window: int, now: real): Decision {
    if |pruned| < limit then Allowed
    else if pruned == [] then IndexError
    else Refused(Max(1, Truncate(window as real - (now - pruned[0]))))
  }

  function Bucket(buckets: map<string, seq<real>>, key: string): seq<real> {
    if key in buckets then buckets[key] else []
  }

  function AfterCall(bucket: seq<real>, limit: int, window: int, now: real): seq<real> {
    var pruned := Prune(bucket, now - window as real);
    if |pruned| < limit then pruned + [now] else pruned
  }

  function Answer(bucket: seq<real>, limit: int, window: int, now: real): Decision {
    Decide(Prune(bucket, now - window as real), limit, window, now)
  }

  class InMemoryFixedWindowLimiter {
    var buckets: map<string, seq<real>>

    constructor ()
      ensures buckets == map[]
    {
      buckets := map[];
    }

    method Allow(key: string, limit: int, window: int, now: real) returns (d: Decision)
      modifies this
      ensures d == Answer(Bucket(old(buckets), key), limit, window, now)
      ensures buckets == old(buckets)[key := AfterCall(Bucket(old(buckets), key), limit, window, now)]
    {
      var bucket := if key in buckets then buckets[key] else [];
      var cutoff := now - window as real;
      ghost var popped := 0;
      while bucket != [] && bucket[0] <= cutoff
        invariant 0 <= popped <= |Bucket(buckets, key)| && bucket == Bucket(buckets, key)[popped..]
        invariant Stale(Bucket(buckets, key), cutoff, popped) == Stale(Bucket(buckets, key), cutoff, 0)
        decreases |bucket|
      {
        bucket := bucket[1..];
        popped := popped + 1;
      }
      if |bucket| >= limit {
        buckets := buckets[key := bucket];
        if bucket == [] {
          return IndexError;
        }
        return Refused(Max(1, Truncate(window as real - (now - bucket[0]))));
      }
      buckets := buckets[key := bucket + [now]];
      return Allowed;
    }
  }

  // ----------------------------------------------------- the history of one key

  /** The deque of a key that was asked for at the given instants ... */
  function BucketRun(limit: int, window: int, instants: seq<real>): seq<real> {
    if instants == [] then []
    else AfterCall(BucketRun(limit, window, instants[..|instants| - 1]), limit, window, instants[|instants| - 1])
  }

  /** ... and the instants at which it was admitted. */
  function Admitted(limit: int, window: int, instants: seq<real>): seq<real> {
    if instants == [] then []
    else
      var before, now := instants[..|instants| - 1], instants[|instants| - 1];
      Admitted(limit, window, before) +
      (if Answer(BucketRun(limit, window, before), limit, window, now).Allowed? then [now] else [])
  }

  /** The deque and the history have the same k-th newest entry. */
  ghost predicate SameNewest(bucket: seq<real>, times: seq<real>, k: nat)
    requires k < |bucket| && k < |times|
  {
    bucket[|bucket| - 1 - k] == times[|times| - 1 - k]
  }

  ghost predicate UpToCutoff(times: seq<real>, i: nat, cutoff: real)
    requires i < |times|
  {
    times[i] <= cutoff
  }

  /** `bucket` holds the newest entries of `times`; the others are no later than `cutoff`. */
  ghost predicate Remembers(bucket: seq<real>, times: seq<real>, cutoff: real) {
    && |bucket| <= |times|
    && (forall k: nat :: k < |bucket| ==> SameNewest(bucket, times, k))
    && (forall i: nat :: i < |times| - |bucket| ==> UpToCutoff(times, i, cutoff))
  }

  lemma PruneRemembers(bucket: seq<real>, times: seq<real>, cutoff: real)
    requires Remembers(bucket, times, cutoff)
    ensures var pruned := Prune(bucket, cutoff);
            && Remembers(pruned, times, cutoff)
            && (pruned != [] ==> pruned[0] == times[|times| - |pruned|] > cutoff)
  {
    var stale := Stale(bucket, cutoff, 0);
    var pruned := Prune(bucket, cutoff);
    forall k: nat | k < |pruned| ensures SameNewest(pruned, times, k) {
      assert SameNewest(bucket, times, k);
    }
    forall i: nat | i < |times| - |pruned| ensures UpToCutoff(times, i, cutoff) {
      if i >= |times| - |bucket| {
        assert SameNewest(bucket, times, |times| - 1 - i);
      } else {
        assert UpToCutoff(times, i, cutoff);
      }
    }
    if pruned != [] {
      assert SameNewest(pruned, times, |pruned| - 1);
    }
  }

  ghost predicate Healthy(bucket: seq<real>, times: seq<real>, limit: int, width: real, now: real) {
    && Remembers(bucket, times, now - width)
    && Ordered(times)
    && (forall i: nat :: i < |times| ==> UpToCutoff(times, i, now))
    && limit > 0 && Spaced(times, limit, width)
  }

  /** Pruning at `now` leaves exactly the admissions of the last window. */
  lemma PrunedIsRecent(bucket: seq<real>, times: seq<real>, limit: int, width: real, now: real)
    requires Healthy(bucket, times, limit, width, now)
    ensures Remembers(Prune(bucket, now - width), times, now - width)
    ensures |Prune(bucket, now - width)| == Count(times, UpTo(now, width)) <= limit
  {
    PruneRemembers(bucket, times, now - width);
    RememberedCount(Prune(bucket, now - width), times, width, now);
    SpacedCount(times, limit, width, UpTo(now, width));
  }

  lemma RememberedCount(pruned: seq<real>, times: seq<real>, width: real, now: real)
    requires Remembers(pruned, times, now - width) && Ordered(times)
    requires forall i: nat :: i < |times| ==> UpToCutoff(times, i, now)
    requires pruned != [] ==> times[|times| - |pruned|] > now - width
    ensures |pruned| == Count(times, UpTo(now, width))
  {
    forall i: nat | i < |times|
      ensures times[i] <= now
      ensures i < |times| - |pruned| ==> times[i] <= now - width
    {
      assert UpToCutoff(times, i, now);
      assert i < |times| - |pruned| ==> UpToCutoff(times, i, now - width);
    }
    CountRecent(times, |times| - |pruned|, width, now);
  }

  lemma CallStaysHealthy(bucket: seq<real>, times: seq<real>, limit: int, window: int, now: real)
    requires Healthy(bucket, times, limit, window as real, now)
    ensures Healthy(AfterCall(bucket, limit, window, now),
                    times + (if Answer(bucket, limit, window, now).Allowed? then [now] else []),
                    limit, window as real, now)
  {
    var width := window as real;
    PrunedIsRecent(bucket, times, limit, width, now);
    var pruned := Prune(bucket, now - width);
    if |pruned| < limit {
      AdmitStaysHealthy(pruned, times, limit, width, now);
    } else {
      assert times + [] == times;
    }
  }

  lemma AdmitStaysHealthy(pruned: seq<real>, times: seq<real>, limit: int, width: real, now: real)
    requires Remembers(pruned, times, now - width) && |pruned| < limit
    requires Ordered(times) && Spaced(times, limit, width)
    requires forall i: nat :: i < |times| ==> UpToCutoff(times, i, now)
    ensures Healthy(pruned + [now], times + [now], limit, width, now)
  {
    var bucket', times' := pruned + [now], times + [now];
    forall i: nat | i < |times|
      ensures times[i] <= now
      ensures i < |times| - |pruned| ==> times[i] <= now - width
    {
      assert UpToCutoff(times, i, now);
      assert i < |times| - |pruned| ==> UpToCutoff(times, i, now - width);
    }
    AppendSpaced(times, limit, width, now, |times| - |pruned|);
    forall k: nat | k < |bucket'| ensures SameNewest(bucket', times', k) {
      assert k > 0 ==> SameNewest(pruned, times, k - 1);
    }
  }

  lemma LaterIsHealthy(bucket: seq<real>, times: seq<real>, limit: int, width: real, now: real, later: real)
    requires Healthy(bucket, times, limit, width, now) && now <= later
    ensures Healthy(bucket, times, limit, width, later)
  {
    forall i: nat | i < |times| ensures UpToCutoff(times, i, later) {
      assert UpToCutoff(times, i, now);
    }
    var cutoff := later - width;
    forall i: nat | i < |times| - |bucket| ensures UpToCutoff(times, i, cutoff) {
      assert UpToCutoff(times, i, now - width);
    }
  }

  lemma {:induction false} RunStaysHealthy(limit: int, window: int, instants: seq<real>, now: real)
    requires Ordered(instants + [now]) && limit > 0
    ensures Healthy(BucketRun(limit, window, instants), Admitted(limit, window, instants), limit, window as real, now)
    decreases |instants|
  {
    if instants != [] {
      var n := |instants| - 1;
      var before, last := instants[..n], instants[n];
      var all := instants + [now];
      assert before + [last] == all[..n + 1];
      assert After(all, n, n + 1, 0.0);
      OrderedPrefix(all, 0, 0.0, n + 1);
      RunStaysHealthy(limit, window, before, last);
      CallStaysHealthy(BucketRun(limit, window, before), Admitted(limit, window, before), limit, window, last);
      LaterIsHealthy(BucketRun(limit, window, instants), Admitted(limit, window, instants), limit, window as real,
        last, now);
    }
  }

  /** The limiter is the sliding-window policy that recounts the whole history on every call: it
      admits exactly when fewer than `limit` requests of the key were admitted in the last window,
      and refuses exactly when `limit` were. */
  lemma DecidesBySlidingWindow(limit: int, window: int, instants: seq<real>, now: real)
    requires Ordered(instants + [now]) && limit > 0
    ensures var recent := Count(Admitted(limit, window, instants), UpTo(now, window as real));
            var d := Answer(BucketRun(limit, window, instants), limit, window, now);
            && recent <= limit
            && (d.Allowed? <==> recent < limit)
            && (d.Refused? <==> recent == limit)
  {
    RunStaysHealthy(limit, window, instants, now);
    PrunedIsRecent(BucketRun(limit, window, instants), Admitted(limit, window, instants), limit, window as real, now);
  }

  lemma {:induction false} NothingWithoutLimit(limit: int, window: int, instants: seq<real>)
    requires limit <= 0
    ensures BucketRun(limit, window, instants) == []
  {
    if instants != [] {
      NothingWithoutLimit(limit, window, instants[..|instants| - 1]);
    }
  }

  /** The exception is raised exactly without a positive limit - which the one caller asks for. */
  lemma {:induction false} FailsExactlyWithoutLimit(limit: int, window: int, instants: seq<real>, now: real)
    ensures Answer(BucketRun(limit, window, instants), limit, window, now).IndexError? <==> limit <= 0
  {
    if limit <= 0 {
      NothingWithoutLimit(limit, window, instants);
    }
  }

  lemma ExtendOrdered(instants: seq<real>, now: real)
    requires Ordered(instants) && (instants != [] ==> instants[|instants| - 1] <= now)
    ensures Ordered(instants + [now])
  {
    var all := instants + [now];
    forall i: nat, j: nat | i <= j < |all| ensures After(all, i, j, 0.0) {
      assert j < |instants| ==> After(instants, i, j, 0.0);
      assert i < |instants| ==> After(instants, i, |instants| - 1, 0.0);
    }
  }

  /** At every instant at most `limit` requests of a key were admitted in the window before it. */
  lemma NeverOverLimit(limit: int, window: int, instants: seq<real>, t: real)
    requires Ordered(instants) && limit > 0
    ensures Count(Admitted(limit, window, instants), UpTo(t, window as real)) <= limit
  {
    var now := if instants == [] then 0.0 else instants[|instants| - 1];
    ExtendOrdered(instants, now);
    RunStaysHealthy(limit, window, instants, now);
    SpacedCount(Admitted(limit, window, instants), limit, window as real, UpTo(t, window as real));
  }

  /** The advertised whole number of seconds is less than one away from the delay that is needed - and it
      is not enough exactly if that is more than a second and not a whole number. */
  ghost predicate Advertises(delay: int, needed: real) {
    && needed - 1.0 < delay as real < needed + 1.0
    && (delay as real < needed <==> needed > 1.0 && needed != needed.Floor as real)
  }

  /** After a refusal the key is admitted again from one instant on (`earliest`), and that is what the
      advertised delay is about. */
  lemma RetryAfterIsTight(limit: int, window: int, instants: seq<real>, now: real) returns (earliest: real)
    requires Ordered(instants + [now]) && limit > 0
    requires Answer(BucketRun(limit, window, instants), limit, window, now).Refused?
    ensures forall later :: now <= later ==>
              (Answer(BucketRun(limit, window, instants + [now]), limit, window, later).Allowed? <==> later >= earliest)
    ensures var delay := Answer(BucketRun(limit, window, instants), limit, window, now).retryAfter;
            delay >= 1 && now < earliest && Advertises(delay, earliest - now)
  {
    var bucket, times, width := BucketRun(limit, window, instants), Admitted(limit, window, instants), window as real;
    RunStaysHealthy(limit, window, instants, now);
    PrunedIsRecent(bucket, times, limit, width, now);
    assert (instants + [now])[..|instants|] == instants;
    earliest := FirstReadmission(bucket, limit, window, now);
  }

  lemma FirstReadmission(bucket: seq<real>, limit: int, window: int, now: real) returns (earliest: real)
    requires |Prune(bucket, now - window as real)| == limit > 0
    ensures forall later :: now <= later ==>
              (Answer(AfterCall(bucket, limit, window, now), limit, window, later).Allowed? <==> later >= earliest)
    ensures var delay := Answer(bucket, limit, window, now).retryAfter;
            delay >= 1 && now < earliest && Advertises(delay, earliest - now)
  {
    var pruned := Prune(bucket, now - window as real);
    earliest := pruned[0] + window as real;
    assert AfterCall(bucket, limit, window, now) == pruned;
  }

  // ------------------------------------------------------------ runs over all keys

  datatype Call = Call(key: string, now: real)

  /** Each key is always called with the same limit and window, as the call sites do. */
  datatype Policy = Policy(limit: string -> int, window: string -> int)

  function Buckets(policy: Policy, calls: seq<Call>): map<string, seq<real>> {
    if calls == [] then map[]
    else
      var before, last := Buckets(policy, calls[..|calls| - 1]), calls[|calls| - 1];
      before[last.key := AfterCall(Bucket(before, last.key), policy.limit(last.key), policy.window(last.key), last.now)]
  }

  function InstantsOf(calls: seq<Call>, key: string): seq<real> {
    if calls == [] then []
    else
      InstantsOf(calls[..|calls| - 1], key) +
      (if calls[|calls| - 1].key == key then [calls[|calls| - 1].now] else [])
  }

  /** Keys do not influence each other: the shared limiter keeps for every key the deque of that key's own calls. */
  lemma {:induction false} KeysAreIndependent(policy: Policy, calls: seq<Call>, key: string)
    ensures Bucket(Buckets(policy, calls), key) ==
            BucketRun(policy.limit(key), policy.window(key), InstantsOf(calls, key))
    decreases |calls|
  {
    if calls != [] {
      var before := calls[..|calls| - 1];
      KeysAreIndependent(policy, before, key);
      var own := InstantsOf(before, key);
      assert (own + [calls[|calls| - 1].now])[..|own|] == own && own + [] == own;
    }
  }

  // ----------------------------------------------- the Redis fixed-window limiter

  /** A counter key: its value, and the instants at which it was created and will expire. */
  datatype Counter = Counter(count: int, since: real, expires: real)

  /** `INCR` with the first `EXPIRE` at `now`, on a key that holds `entry`. */
  function Increment(entry: Option<Counter>, window: int, now: real): Counter {
    if entry.Some? && now < entry.value.expires
    then entry.value.(count := entry.value.count + 1)
    else Counter(1, now, now + window as real)
  }

  class RedisFixedWindowLimiter {
    var store: map<string, Counter>
    const prefix: string

    constructor (prefix: string)
      ensures store == map[] && this.prefix == prefix
    {
      this.prefix := prefix;
      store := map[];
    }

    /** `ttl` is Redis' reply to the `TTL` command, whatever it is. */
    method Allow(key: string, limit: int, window: int, now: real, ttl: int) returns (d: Decision)
      modifies this
      ensures var redisKey := prefix + ":" + key;
              && store == old(store)[redisKey := Increment(Get(old(store), redisKey), window, now)]
              && (d.Allowed? <==> store[redisKey].count <= limit)
              && (!d.Allowed? ==> d == Refused(if ttl > 0 then ttl else if window > 1 then window else 1))
    {
      var redisKey := prefix + ":" + key;
      var counter := Increment(Get(store, redisKey), window, now);
      store := store[redisKey := counter];
      if counter.count <= limit {
        return Allowed;
      }
      var retryAfter := if ttl > 0 then ttl else window;
      return Refused(Max(1, retryAfter));
    }
  }

  /** The counter of one key after calls at the given instants. */
  function CounterAfter(times: seq<real>, window: int): Counter
    requires times != []
  {
    var n := |times| - 1;
    Increment(if n == 0 then None else Some(CounterAfter(times[..n], window)), window, times[n])
  }

  function Counters(policy: Policy, calls: seq<Call>): map<string, Counter> {
    if calls == [] then map[]
    else
      var before, last := Counters(policy, calls[..|calls| - 1]), calls[|calls| - 1];
      before[last.key := Increment(Get(before, last.key), policy.window(last.key), last.now)]
  }

  /** The shared store holds for every key the counter of that key's own calls. */
  lemma {:induction false} CountersAreIndependent(policy: Policy, calls: seq<Call>, key: string)
    ensures var own := InstantsOf(calls, key);
            Get(Counters(policy, calls), key) ==
            if own == [] then None else Some(CounterAfter(own, policy.window(key)))
    decreases |calls|
  {
    if calls != [] {
      var before := calls[..|calls| - 1];
      CountersAreIndependent(policy, before, key);
      var own := InstantsOf(before, key);
      assert (own + [calls[|calls| - 1].now])[..|own|] == own && own + [] == own;
    }
  }

  /** Admissions of one key, each with the start of the lifetime it was counted in. */
  datatype Admission = Admission(at: real, since: real)

  ghost function Admissions(times: seq<real>, limit: int, window: int): seq<Admission> {
    if times == [] then []
    else
      var n := |times| - 1;
      var c := CounterAfter(times, window);
      Admissions(times[..n], limit, window) + (if c.count <= limit then [Admission(times[n], c.since)] else [])
  }

  ghost function Instants(admissions: seq<Admission>): (times: seq<real>)
    ensures |times| == |admissions|
    ensures forall i :: 0 <= i < |times| ==> times[i] == admissions[i].at
  {
    seq(|admissions|, i requires 0 <= i < |admissions| => admissions[i].at)
  }

  /** How many admissions a counter lifetime saw. */
  ghost function InLifetime(admissions: seq<Admission>, since: real): nat {
    if admissions == [] then 0
    else
      var n := |admissions| - 1;
      InLifetime(admissions[..n], since) + (if admissions[n].since == since then 1 else 0)
  }

  ghost predicate InOneLifetimeOrApart(admissions: seq<Admission>, i: nat, j: nat, width: real)
    requires i < |admissions| && j < |admissions|
  {
    admissions[i].since == admissions[j].since || admissions[i].since + width <= admissions[j].since
  }

  /** Lifetimes last one window and do not overlap. */
  ghost predicate Lifetimes(admissions: seq<Admission>, width: real) {
    && (forall i :: 0 <= i < |admissions| ==> admissions[i].since <= admissions[i].at < admissions[i].since + width)
    && (forall i: nat, j: nat :: i < j < |admissions| ==> InOneLifetimeOrApart(admissions, i, j, width))
  }

  lemma LifetimesMore(admissions: seq<Admission>, a: Admission, width: real)
    requires Lifetimes(admissions, width) && a.since <= a.at < a.since + width
    requires forall i :: 0 <= i < |admissions| ==>
             admissions[i].since == a.since || admissions[i].since + width <= a.since
    ensures Lifetimes(admissions + [a], width)
  {
    var more := admissions + [a];
    forall i: nat, j: nat | i < j < |more| ensures InOneLifetimeOrApart(more, i, j, width) {
      assert j < |admissions| ==> InOneLifetimeOrApart(admissions, i, j, width);
    }
  }

  /** An admission made by the call that created its counter. */
  ghost predicate Opens(admissions: seq<Admission>, k: nat, since: real) {
    k < |admissions| && admissions[k] == Admission(since, since)
  }

  ghost predicate Opened(admissions: seq<Admission>, since: real) {
    exists k: nat :: Opens(admissions, k, since)
  }

  /** The counter lives for one window, and the last call fell into its lifetime. */
  lemma {:induction false} CounterLifetime(times: seq<real>, window: int)
    requires Ordered(times) && window > 0 && times != []
    ensures var c := CounterAfter(times, window);
            c.expires == c.since + window as real && c.count >= 1 && c.since <= times[|times| - 1] < c.expires
    decreases |times|
  {
    var n := |times| - 1;
    if n > 0 {
      OrderedPrefix(times, 0, 0.0, n);
      CounterLifetime(times[..n], window);
      assert After(times, n - 1, n, 0.0);
    }
  }

  /** What the counter says about the admissions so far. */
  ghost predicate Tracks(admissions: seq<Admission>, c: Counter, limit: int, width: real) {
    && Lifetimes(admissions, width)
    && InLifetime(admissions, c.since) == (if c.count <= limit then c.count else limit)
    && (limit > 0 ==> Opened(admissions, c.since))
    && (forall i :: 0 <= i < |admissions| ==>
          admissions[i].since == c.since || admissions[i].since + width <= c.since)
  }

  ghost function Extended(before: seq<Admission>, c: Counter, limit: int, at: real): seq<Admission> {
    if c.count <= limit then before + [Admission(at, c.since)] else before
  }

  lemma SameLifetime(before: seq<Admission>, was: Counter, limit: int, width: real, at: real)
    requires Tracks(before, was, limit, width) && was.since <= at < was.since + width && limit >= 0 && was.count >= 1
    ensures var c := was.(count := was.count + 1);
            Tracks(Extended(before, c, limit, at), c, limit, width)
  {
    var c := was.(count := was.count + 1);
    InLifetimeAppend(before, Admission(at, c.since), c.since);
    LifetimesMore(before, Admission(at, c.since), width);
    if limit > 0 {
      var k: nat :| Opens(before, k, was.since);
      assert Opens(Extended(before, c, limit, at), k, c.since);
    }
  }

  lemma NewLifetime(before: seq<Admission>, was: Counter, c: Counter, limit: int, width: real)
    requires before == [] || (Tracks(before, was, limit, width) && was.since + width <= c.since)
    requires c.count == 1 && width > 0.0 && limit >= 0
    ensures Tracks(Extended(before, c, limit, c.since), c, limit, width)
  {
    var after := Extended(before, c, limit, c.since);
    NoneSince(before, c.since);
    InLifetimeAppend(before, Admission(c.since, c.since), c.since);
    LifetimesMore(before, Admission(c.since, c.since), width);
    assert limit > 0 ==> Opens(after, |before|, c.since);
  }

  lemma {:induction false} LifetimeInvariant(times: seq<real>, limit: int, window: int)
    requires Ordered(times) && window > 0 && limit >= 0 && times != []
    ensures Tracks(Admissions(times, limit, window), CounterAfter(times, window), limit, window as real)
    decreases |times|
  {
    var n := |times| - 1;
    CounterLifetime(times, window);
    var c, before := CounterAfter(times, window), Admissions(times[..n], limit, window);
    assert Admissions(times, limit, window) == Extended(before, c, limit, times[n]) by {
      assert before + [] == before;
    }
    if n == 0 {
      NewLifetime([], c, c, limit, window as real);
    } else {
      OrderedPrefix(times, 0, 0.0, n);
      LifetimeInvariant(times[..n], limit, window);
      CounterLifetime(times[..n], window);
      var was := CounterAfter(times[..n], window);
      if times[n] < was.expires {
        assert After(times, n - 1, n, 0.0);
        SameLifetime(before, was, limit, window as real, times[n]);
      } else {
        NewLifetime(before, was, c, limit, window as real);
      }
    }
  }

  lemma InLifetimeAppend(admissions: seq<Admission>, a: Admission, since: real)
    ensures InLifetime(admissions + [a], since) == InLifetime(admissions, since) + (if a.since == since then 1 else 0)
    ensures admissions + [] == admissions
  {
    assert (admissions + [a])[..|admissions|] == admissions;
  }

  lemma {:induction false} NoneSince(admissions: seq<Admission>, since: real)
    requires forall i :: 0 <= i < |admissions| ==> admissions[i].since != since
    ensures InLifetime(admissions, since) == 0
  {
    if admissions != [] {
      NoneSince(admissions[..|admissions| - 1], since);
    }
  }

  /** The fixed-window limiter admits at most `limit` requests in a key lifetime. */
  lemma {:induction false} FixedWindowPerLifetime(times: seq<real>, limit: int, window: int, since: real)
    requires Ordered(times) && window > 0 && limit >= 0
    ensures InLifetime(Admissions(times, limit, window), since) <= limit
  {
    if times != [] {
      var n := |times| - 1;
      OrderedPrefix(times, 0, 0.0, n);
      FixedWindowPerLifetime(times[..n], limit, window, since);
      LifetimeInvariant(times, limit, window);
      InLifetimeAppend(Admissions(times[..n], limit, window),
                       Admission(times[n], CounterAfter(times, window).since), since);
    }
  }

  lemma {:induction false} LifetimesAreOpened(times: seq<real>, limit: int, window: int, i: nat)
    requires Ordered(times) && window > 0 && limit > 0
    requires i < |Admissions(times, limit, window)|
    ensures Opened(Admissions(times, limit, window), Admissions(times, limit, window)[i].since)
  {
    var n := |times| - 1;
    var before, after := Admissions(times[..n], limit, window), Admissions(times, limit, window);
    CurrentIsOpened(times, limit, window);
    AdmissionsMore(times, limit, window);
    if i < |before| {
      OrderedPrefix(times, 0, 0.0, n);
      LifetimesAreOpened(times[..n], limit, window, i);
      StillOpened(before, after, i);
    }
  }

  lemma CurrentIsOpened(times: seq<real>, limit: int, window: int)
    requires Ordered(times) && window > 0 && limit > 0 && times != []
    ensures Opened(Admissions(times, limit, window), CounterAfter(times, window).since)
  {
    LifetimeInvariant(times, limit, window);
  }

  /** One more request adds at most an admission to the current lifetime. */
  lemma AdmissionsMore(times: seq<real>, limit: int, window: int)
    requires times != []
    ensures var before, after := Admissions(times[..|times| - 1], limit, window), Admissions(times, limit, window);
            && |before| <= |after| <= |before| + 1 && after[..|before|] == before
            && (|after| > |before| ==> after[|before|].since == CounterAfter(times, window).since)
  {
  }

  lemma StillOpened(before: seq<Admission>, after: seq<Admission>, i: nat)
    requires i < |before| <= |after| && after[..|before|] == before
    requires Opened(before, before[i].since)
    ensures Opened(after, after[i].since)
  {
    var k: nat :| Opens(before, k, before[i].since);
    assert before[k] == after[k] && before[i] == after[i];
    assert Opens(after, k, after[i].since);
  }

  ghost predicate FromEither(admissions: seq<Admission>, during: Window, p: real, q: real) {
    forall i :: 0 <= i < |admissions| && during.Has(admissions[i].at) ==>
           admissions[i].since == p || admissions[i].since == q
  }

  lemma {:induction false} TwoLifetimes(admissions: seq<Admission>, during: Window, p: real, q: real)
    requires FromEither(admissions, during, p, q)
    ensures Count(Instants(admissions), during) <= InLifetime(admissions, p) + InLifetime(admissions, q)
  {
    if admissions != [] {
      var n := |admissions| - 1;
      TwoLifetimes(admissions[..n], during, p, q);
      assert Instants(admissions)[..n] == Instants(admissions[..n]);
    }
  }

  /** ... and an admission of one of the two that the interval misses sharpens the bound. */
  lemma {:induction false} TwoLifetimesLessOne(admissions: seq<Admission>, during: Window, p: real, q: real, k: nat)
    requires FromEither(admissions, during, p, q)
    requires Opens(admissions, k, p) && !during.Has(p)
    ensures Count(Instants(admissions), during) < InLifetime(admissions, p) + InLifetime(admissions, q)
  {
    var n := |admissions| - 1;
    assert Instants(admissions)[..n] == Instants(admissions[..n]);
    if k == n {
      TwoLifetimes(admissions[..n], during, p, q);
    } else {
      TwoLifetimesLessOne(admissions[..n], during, p, q, k);
    }
  }

  lemma OneLifetime(admissions: seq<Admission>, during: Window, p: real)
    requires FromEither(admissions, during, p, p)
    ensures Count(Instants(admissions), during) <= InLifetime(admissions, p)
    decreases |admissions|
  {
    if admissions != [] {
      var n := |admissions| - 1;
      OneLifetime(admissions[..n], during, p);
      assert Instants(admissions)[..n] == Instants(admissions[..n]);
    }
  }

  /** Any interval as long as the window contains at most `2 * limit - 1` admissions: it meets at
      most two lifetimes, and if it meets two it misses the request that opened the first. */
  lemma FixedWindowInAnyInterval(times: seq<real>, limit: int, window: int, start: real)
    requires Ordered(times) && window > 0 && limit > 0
    ensures Count(Instants(Admissions(times, limit, window)), From(start, window as real)) <= 2 * limit - 1
  {
    var admissions := Admissions(times, limit, window);
    var during := From(start, window as real);
    if times != [] {
      LifetimeInvariant(times, limit, window);
    }
    if i: nat :| i < |admissions| && during.Has(admissions[i].at) {
      var p := admissions[i].since;
      FixedWindowPerLifetime(times, limit, window, p);
      if FromEither(admissions, during, p, p) {
        OneLifetime(admissions, during, p);
      } else {
        var j: nat :| j < |admissions| && during.Has(admissions[j].at) && admissions[j].since != p;
        var q := admissions[j].since;
        FixedWindowPerLifetime(times, limit, window, q);
        MeetsTwoLifetimes(admissions, window as real, start, i, j);
        if p < q {
          LifetimesAreOpened(times, limit, window, i);
          var k: nat :| Opens(admissions, k, p);
          TwoLifetimesLessOne(admissions, during, p, q, k);
        } else {
          LifetimesAreOpened(times, limit, window, j);
          var k: nat :| Opens(admissions, k, q);
          TwoLifetimesLessOne(admissions, during, q, p, k);
        }
      }
    } else {
      CountNone(Instants(admissions), during);
    }
  }

  lemma MeetsTwoLifetimes(admissions: seq<Admission>, width: real, start: real, i: nat, j: nat)
    requires Lifetimes(admissions, width) && width > 0.0 && i < |admissions| && j < |admissions|
    requires From(start, width).Has(admissions[i].at) && From(start, width).Has(admissions[j].at)
    requires admissions[i].since != admissions[j].since
    ensures FromEither(admissions, From(start, width), admissions[i].since, admissions[j].since)
    ensures FromEither(admissions, From(start, width), admissions[j].since, admissions[i].since)
    ensures if admissions[i].since < admissions[j].since then admissions[i].since < start
            else admissions[j].since < start
  {
    Apart(admissions, width, i, j);
    forall h: nat | h < |admissions| && From(start, width).Has(admissions[h].at)
      ensures admissions[h].since == admissions[i].since || admissions[h].since == admissions[j].since
    {
      if admissions[h].since != admissions[i].since && admissions[h].since != admissions[j].since {
        Apart(admissions, width, h, i);
        Apart(admissions, width, h, j);
      }
    }
  }

  lemma Apart(admissions: seq<Admission>, width: real, i: nat, j: nat)
    requires Lifetimes(admissions, width) && i < |admissions| && j < |admissions|
    requires admissions[i].since != admissions[j].since
    ensures admissions[i].since + width <= admissions[j].since || admissions[j].since + width <= admissions[i].since
  {
    assert i < j ==> InOneLifetimeOrApart(admissions, i, j, width);
    assert j < i ==> InOneLifetimeOrApart(admissions, j, i, width);
  }

  // --------------------------------------------------------- the bound is the best one

  /** One request at 0, and `k` just before its counter expires ... */
  function Early(window: int, k: nat): seq<real> {
    if k == 0 then [0.0] else Early(window, k - 1) + [window as real - 0.5]
  }

  /** ... and `k` more when it has: all of them are admitted. */
  function Burst(limit: nat, window: int, k: nat): seq<real>
    requires limit > 0
  {
    if k == 0 then Early(window, limit - 1) else Burst(limit, window, k - 1) + [window as real]
  }

  /** All requests of the run are admitted, the last one at `last`, and `recent` of them after the
      instant 0.25; `c` is the counter then. */
  ghost predicate AllAdmitted(times: seq<real>, limit: int, window: int, recent: nat, last: real, c: Counter) {
    && times != [] && times[|times| - 1] == last && CounterAfter(times, window) == c
    && Ordered(times) && Instants(Admissions(times, limit, window)) == times
    && Count(times, From(0.25, window as real)) == recent
  }

  lemma OneMoreAdmitted(times: seq<real>, limit: int, window: int, recent: nat, last: real, c: Counter, now: real)
    requires AllAdmitted(times, limit, window, recent, last, c) && Increment(Some(c), window, now).count <= limit
    requires last <= now && 0.25 <= now < 0.25 + window as real
    ensures AllAdmitted(times + [now], limit, window, recent + 1, now, Increment(Some(c), window, now))
  {
    var more := times + [now];
    ExtendOrdered(times, now);
    assert more[..|times|] == times;
    var admissions := Admissions(times, limit, window);
    assert Admissions(more, limit, window) == admissions + [Admission(now, CounterAfter(more, window).since)];
  }

  lemma FirstAdmitted(limit: nat, window: int)
    requires limit > 0 && window > 0
    ensures AllAdmitted([0.0], limit, window, 0, 0.0, Counter(1, 0.0, window as real))
  {
    var times: seq<real> := [0.0];
    assert times[..0] == [];
    assert Admissions(times, limit, window) == [Admission(0.0, 0.0)];
    assert Instants([Admission(0.0, 0.0)]) == times;
  }

  lemma {:induction false} EarlyRun(limit: nat, window: int, k: nat) returns (last: real)
    requires k < limit && window > 0
    ensures last <= window as real - 0.5
    ensures AllAdmitted(Early(window, k), limit, window, k, last, Counter(k + 1, 0.0, window as real))
    decreases k
  {
    if k == 0 {
      FirstAdmitted(limit, window);
      last := 0.0;
    } else {
      var before := EarlyRun(limit, window, k - 1);
      last := window as real - 0.5;
      OneMoreAdmitted(Early(window, k - 1), limit, window, k - 1, before, Counter(k, 0.0, window as real), last);
    }
  }

  lemma {:induction false} BurstRun(limit: nat, window: int, k: nat)
    requires 1 <= k <= limit && window > 0
    ensures var w := window as real;
            AllAdmitted(Burst(limit, window, k), limit, window, limit - 1 + k, w, Counter(k, w, w + w))
    decreases k
  {
    var w := window as real;
    if k == 1 {
      var last := EarlyRun(limit, window, limit - 1);
      assert Burst(limit, window, 0) == Early(window, limit - 1);
      OneMoreAdmitted(Burst(limit, window, 0), limit, window, limit - 1, last, Counter(limit, 0.0, w), w);
    } else {
      BurstRun(limit, window, k - 1);
      OneMoreAdmitted(Burst(limit, window, k - 1), limit, window, limit - 2 + k, w, Counter(k - 1, w, w + w), w);
    }
  }

  /** For every limit and window a run reaches the bound of `2 * limit - 1`. */
  lemma IntervalBoundIsReached(limit: nat, window: int) returns (times: seq<real>, start: real)
    requires limit > 0 && window > 0
    ensures Ordered(times)
    ensures Count(Instants(Admissions(times, limit, window)), From(start, window as real)) == 2 * limit - 1
  {
    BurstRun(limit, window, limit);
    times, start := Burst(limit, window, limit), 0.25;
  }

  ghost predicate WithinLimit(times: seq<real>, limit: int, window: int, start: real) {
    Count(Instants(Admissions(times, limit, window)), From(start, window as real)) <= limit
  }

  /** So the fixed window keeps the limit in every interval of its length exactly when the limit is one. */
  lemma FixedWindowIsSlidingOnlyForOne(limit: nat, window: int)
    requires limit > 0 && window > 0
    ensures (forall times, start :: Ordered(times) ==> WithinLimit(times, limit, window, start)) <==> limit == 1
  {
    var burst, at := IntervalBoundIsReached(limit, window);
    assert WithinLimit(burst, limit, window, at) ==> limit == 1;
    forall times, start | Ordered(times) && limit == 1 ensures WithinLimit(times, limit, window, start) {
      FixedWindowInAnyInterval(times, limit, window, start);
    }
  }
}
