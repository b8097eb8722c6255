/** The spaced-repetition scheduler (backend/app/modules/learning/mastery/scheduler.py). */
module Scheduler {
  import opened Policy

  function Intervals(kind: KnowledgeType): (days: seq<int>)
    ensures |days| >= 2
  {
    match kind
    case Memory => [0, 1, 3, 7, 14, 30, 60]
    case Concept => [3, 7, 14, 30]
    case Procedure => [3, 7, 14]
    case Design => [14, 28]
  }

  function MaxIndex(kind: KnowledgeType): nat {
    |Intervals(kind)| - 1
  }

  function Clamp(index: int, max: nat): nat {
    if index < 0 then 0 else if index > max then max else index
  }

  /** The counters of a repetition state; `top` is the last index of its interval table. */
  datatype Progress = Progress(index: int, correct: int, wrong: int) {
    predicate InRange(top: nat) {
      0 <= index <= top && 0 <= correct <= 1 && 0 <= wrong <= 1
    }

    /** A second correct answer in a row skips a step; any wrong one goes a step back. */
    function After(isCorrect: bool, top: nat): Progress {
      if isCorrect then
        if correct + 1 >= 2 then Progress(Clamp(index + 2, top), 0, 0)
        else Progress(Clamp(index + 1, top), correct + 1, 0)
      else
        Progress(Clamp(if index - 1 < 0 then 0 else index - 1, top), 0, if wrong + 1 >= 2 then 0 else wrong + 1)
    }
  }

  class RepetitionState {
    var intervalIndex: int
    var consecutiveCorrect: int
    var consecutiveWrong: int
    var nextReviewAt: real

    function Counters(): Progress
      reads this
    {
      Progress(intervalIndex, consecutiveCorrect, consecutiveWrong)
    }

    constructor (index: int, correct: int, wrong: int, nextReviewAt: real)
      ensures Counters() == Progress(index, correct, wrong) && this.nextReviewAt == nextReviewAt
    {
      intervalIndex, consecutiveCorrect, consecutiveWrong := index, correct, wrong;
      this.nextReviewAt := nextReviewAt;
    }
  }

  function IntervalDaysForIndex(kind: KnowledgeType, index: int): int {
    Intervals(kind)[Clamp(index, MaxIndex(kind))]
  }

  /** `unit` is the number of seconds per interval step. */
  method GetInitialState(kind: KnowledgeType, now: real, unit: real) returns (state: RepetitionState)
    ensures fresh(state) && state.Counters() == Progress(0, 0, 0)
    ensures state.nextReviewAt == now + IntervalDaysForIndex(kind, 0) as real * unit
  {
    state := new RepetitionState(0, 0, 0, now + Intervals(kind)[0] as real * unit);
  }

  method ScheduleNext(state: RepetitionState, kind: KnowledgeType, isCorrect: bool, now: real, unit: real)
    modifies state
    ensures state.Counters() == old(state.Counters()).After(isCorrect, MaxIndex(kind))
    ensures state.nextReviewAt == now + IntervalDaysForIndex(kind, state.intervalIndex) as real * unit
  {
    var intervals := Intervals(kind);
    var maxIndex := |intervals| - 1;
    if isCorrect {
      state.consecutiveWrong := 0;
      state.consecutiveCorrect := state.consecutiveCorrect + 1;
      if state.consecutiveCorrect >= 2 {
        state.intervalIndex := state.intervalIndex + 2;
        state.consecutiveCorrect := 0;
      } else {
        state.intervalIndex := state.intervalIndex + 1;
      }
    } else {
      state.consecutiveWrong := state.consecutiveWrong + 1;
      state.consecutiveCorrect := 0;
      state.intervalIndex := if state.intervalIndex - 1 < 0 then 0 else state.intervalIndex - 1;
      if state.consecutiveWrong >= 2 {
        state.consecutiveWrong := 0;
      }
    }
    state.intervalIndex := Clamp(state.intervalIndex, maxIndex);
    state.nextReviewAt := now + intervals[state.intervalIndex] as real * unit;
  }

  // ------------------------------------------------------------------- whole histories

  function Run(start: Progress, answers: seq<bool>, top: nat): Progress {
    if answers == [] then start
    else Run(start, answers[..|answers| - 1], top).After(answers[|answers| - 1], top)
  }

  /** Whatever the answers, the index stays inside the interval table and the streak counters at 0 or 1. */
  lemma {:induction false} RunsStayInRange(start: Progress, answers: seq<bool>, top: nat)
    requires start.InRange(top)
    ensures Run(start, answers, top).InRange(top)
  {
    if answers != [] {
      RunsStayInRange(start, answers[..|answers| - 1], top);
    }
  }

  function Min(a: int, b: int): int {
    if a < b then a else b
  }

  /** `n` times the same answer. */
  function Row(answer: bool, n: nat): (answers: seq<bool>)
    ensures |answers| == n && forall i :: 0 <= i < n ==> answers[i] == answer
  {
    if n == 0 then [] else Row(answer, n - 1) + [answer]
  }

  lemma OneMoreInRow(start: Progress, answer: bool, n: nat, top: nat)
    ensures Run(start, Row(answer, n + 1), top) == Run(start, Row(answer, n), top).After(answer, top)
  {
    assert Row(answer, n + 1)[..n] == Row(answer, n);
  }

  /** The state after `n` correct answers. */
  function Climbed(n: nat, top: nat): Progress {
    Progress(Min(top, 3 * n / 2), n % 2, 0)
  }

  lemma Halves(n: nat) returns (q: nat)
    ensures n == 2 * q + n % 2 && 3 * n / 2 == 3 * q + n % 2
  {
    q := n / 2;
  }

  lemma TwoStepsClimbThree(n: nat, top: nat)
    ensures Climbed(n, top).After(true, top) == Climbed(n + 1, top)
  {
    var q := Halves(n);
    var next := Halves(n + 1);
    assert if n % 2 == 0 then next == q && (n + 1) % 2 == 1 else next == q + 1 && (n + 1) % 2 == 0;
  }

  /** `n` correct answers in a row from the start climb three steps for every two answers, up to the top. */
  lemma {:induction false} CorrectStreak(n: nat, top: nat)
    ensures Run(Progress(0, 0, 0), Row(true, n), top) == Progress(Min(top, 3 * n / 2), n % 2, 0)
  {
    if n == 0 {
      assert Climbed(0, top) == Progress(0, 0, 0);
    } else {
      CorrectStreak(n - 1, top);
      OneMoreInRow(Progress(0, 0, 0), true, n - 1, top);
      TwoStepsClimbThree(n - 1, top);
    }
  }

  lemma WrongLosesOne(p: Progress, index: int, n: nat, top: nat)
    requires 0 <= index <= top && n > 0 && p.index == Clamp(index - (n - 1), top)
    ensures p.After(false, top).index == Clamp(index - n, top) && p.After(false, top).correct == 0
  {
  }

  /** `n` wrong answers in a row lose `n` steps, down to the bottom. */
  lemma {:induction false} WrongStreak(start: Progress, n: nat, top: nat)
    requires start.InRange(top)
    ensures Run(start, Row(false, n), top).index == Clamp(start.index - n, top)
    ensures n > 0 ==> Run(start, Row(false, n), top).correct == 0
  {
    if n > 0 {
      WrongStreak(start, n - 1, top);
      OneMoreInRow(start, false, n - 1, top);
      WrongLosesOne(Run(start, Row(false, n - 1), top), start.index, n, top);
    }
  }

  /** How many times in a row `answer` was given last. */
  function LastInRow(answers: seq<bool>, answer: bool): nat {
    if answers == [] || answers[|answers| - 1] != answer then 0
    else LastInRow(answers[..|answers| - 1], answer) + 1
  }

  /** After any history the two counters say whether the current row of correct, or of wrong, answers
      is odd; so they never block a step, and a skip needs two correct answers in a row. */
  lemma {:induction false} CountersAreParities(index: int, answers: seq<bool>, top: nat)
    ensures var p := Run(Progress(index, 0, 0), answers, top);
            p.correct == LastInRow(answers, true) % 2 && p.wrong == LastInRow(answers, false) % 2
  {
    if answers != [] {
      CountersAreParities(index, answers[..|answers| - 1], top);
    }
  }

  /** The days of a type from one step to the next always grow. */
  lemma IntervalsGrow(kind: KnowledgeType, i: int, j: int)
    requires i <= j
    ensures 0 <= IntervalDaysForIndex(kind, i) <= IntervalDaysForIndex(kind, j)
    ensures 0 <= i < j <= MaxIndex(kind) ==> IntervalDaysForIndex(kind, i) < IntervalDaysForIndex(kind, j)
  {
  }

  lemma LongestIsLast(kind: KnowledgeType, steps: nat)
    ensures var days := IntervalDaysForIndex(kind, Min(MaxIndex(kind), steps));
            match kind
            case Memory => days == 60 <==> steps >= 6
            case Concept => days == 30 <==> steps >= 3
            case Procedure => days == 14 <==> steps >= 2
            case Design => days == 28 <==> steps >= 1
  {
  }

  /** So many correct answers in a row from the start take a point to the longest interval of its type. */
  lemma StreakReachesLongest(kind: KnowledgeType, n: nat)
    ensures var days := IntervalDaysForIndex(kind, Run(Progress(0, 0, 0), Row(true, n), MaxIndex(kind)).index);
            match kind
            case Memory => days == 60 <==> n >= 4
            case Concept => days == 30 <==> n >= 2
            case Procedure => days == 14 <==> n >= 2
            case Design => days == 28 <==> n >= 1
  {
    CorrectStreak(n, MaxIndex(kind));
    LongestIsLast(kind, 3 * n / 2);
  }

  /** `a` is behind `b`: not further in the table, and - below the top - not closer to its next skip. */
  ghost predicate Behind(a: Progress, b: Progress, top: nat) {
    a.index <= b.index && (b.index == top || 2 * a.index + a.correct <= 2 * b.index + b.correct)
  }

  lemma StepStaysBehind(a: Progress, b: Progress, answerA: bool, answerB: bool, top: nat)
    requires a.InRange(top) && b.InRange(top) && Behind(a, b, top) && (answerA ==> answerB)
    ensures Behind(a.After(answerA, top), b.After(answerB, top), top)
  {
  }

  /** Answering better never takes a point further back: if every answer correct in one history is
      correct in the other, the other reaches at least the same step ... */
  lemma {:induction false} BetterAnswersStayAhead(start: Progress, worse: seq<bool>, better: seq<bool>, top: nat)
    requires start.InRange(top) && |worse| == |better|
    requires forall i :: 0 <= i < |worse| && worse[i] ==> better[i]
    ensures Behind(Run(start, worse, top), Run(start, better, top), top)
  {
    if worse != [] {
      var n := |worse| - 1;
      BetterAnswersStayAhead(start, worse[..n], better[..n], top);
      RunsStayInRange(start, worse[..n], top);
      RunsStayInRange(start, better[..n], top);
      StepStaysBehind(Run(start, worse[..n], top), Run(start, better[..n], top), worse[n], better[n], top);
    }
  }

  /** ... so the next review is never sooner, in days. */
  lemma BetterAnswersNeverReviewSooner(kind: KnowledgeType, start: Progress, worse: seq<bool>, better: seq<bool>)
    requires start.InRange(MaxIndex(kind)) && |worse| == |better|
    requires forall i :: 0 <= i < |worse| && worse[i] ==> better[i]
    ensures IntervalDaysForIndex(kind, Run(start, worse, MaxIndex(kind)).index) <=
            IntervalDaysForIndex(kind, Run(start, better, MaxIndex(kind)).index)
  {
    BetterAnswersStayAhead(start, worse, better, MaxIndex(kind));
    IntervalsGrow(kind, Run(start, worse, MaxIndex(kind)).index, Run(start, better, MaxIndex(kind)).index);
  }
}
