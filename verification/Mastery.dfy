/**
 * The mastery estimate (backend/app/modules/learning/mastery/mastery.py), over the reals: as the code
 * computes it, and as its weights suggest it was intended.
 */
module Mastery {

  const RECENCY_WEIGHTS: seq<real> := [0.5, 0.7, 0.85, 0.95, 1.0]

  /** `correctness[-5:]`. */
  function Recent(correctness: seq<bool>): (recent: seq<bool>)
    ensures |recent| <= 5
  {
    if |correctness| <= 5 then correctness else correctness[|correctness| - 5..]
  }

  /** The weight of the i-th of `n` recent answers: the last `n` weights are used. */
  function Weight(n: nat, i: nat): (weight: real)
    requires i < n <= 5
    ensures weight > 0.0
  {
    RECENCY_WEIGHTS[5 - n + i]
  }

  /** The sum of the weights in use, from the i-th on. */
  function Available(n: nat, i: nat): (sum: real)
    requires i <= n <= 5
    ensures sum >= 0.0 && (i < n ==> sum > 0.0)
    decreases n - i
  {
    if i == n then 0.0 else Weight(n, i) + Available(n, i + 1)
  }

  /** One answer earns at most 0.5, two at most 0.8. */
  function ConfidenceCap(answers: nat): real {
    if answers == 1 then 0.5 else if answers == 2 then 0.8 else 1.0
  }

  function Min(a: real, b: real): real {
    if a < b then a else b
  }

  /** Python's number for a boolean. */
  function Number(b: bool): real {
    if b then 1.0 else 0.0
  }

  /** `w * (1.0 if c else 0.0)`. */
  function Product(w: real, c: bool): real {
    w * (if c then 1.0 else 0.0)
  }

  /** The sum over `w, c in zip(recent, weights)`: `w` is the answer and `c` is the weight, which counts
      as true unless it is zero. */
  function Earned(recent: seq<bool>, i: nat): real
    requires i <= |recent| <= 5
    decreases |recent| - i
  {
    if i == |recent| then 0.0
    else Product(Number(recent[i]), Weight(|recent|, i) != 0.0) + Earned(recent, i + 1)
  }

  function ComputeMastery(correctness: seq<bool>): real {
    if correctness == [] then 0.0
    else
      var recent := Recent(correctness);
      Min(Earned(recent, 0) / Available(|recent|, 0), ConfidenceCap(|recent|))
  }

  // ------------------------------------------------------------ what the code computes

  function Correct(answers: seq<bool>): (n: nat)
    ensures n <= |answers|
  {
    if answers == [] then 0 else Correct(answers[..|answers| - 1]) + (if answers[|answers| - 1] then 1 else 0)
  }

  function Wrong(answers: seq<bool>): nat {
    |answers| - Correct(answers)
  }

  lemma CorrectMore(answers: seq<bool>, answer: bool)
    ensures Correct(answers + [answer]) == Correct(answers) + (if answer then 1 else 0)
  {
    assert (answers + [answer])[..|answers|] == answers;
  }

  lemma {:induction false} CorrectFirst(first: bool, rest: seq<bool>)
    ensures Correct([first] + rest) == (if first then 1 else 0) + Correct(rest)
    decreases |rest|
  {
    if rest == [] {
      assert [first] + rest == [] + [first];
      CorrectMore([], first);
    } else {
      var init, last := rest[..|rest| - 1], rest[|rest| - 1];
      assert [first] + rest == ([first] + init) + [last];
      CorrectFirst(first, init);
      CorrectMore([first] + init, last);
    }
  }

  lemma {:induction false} EarnedIsCount(recent: seq<bool>, i: nat)
    requires i <= |recent| <= 5
    ensures Earned(recent, i) == Correct(recent[i..]) as real
    decreases |recent| - i
  {
    if i < |recent| {
      EarnedIsCount(recent, i + 1);
      assert recent[i..] == [recent[i]] + recent[i + 1..];
      CorrectFirst(recent[i], recent[i + 1..]);
    }
  }

  /** The last weights, summed one by one. */
  function Total(n: nat): real {
    if n <= 1 then 1.0 else if n == 2 then 1.95 else if n == 3 then 2.8 else if n == 4 then 3.5 else 4.0
  }

  lemma AvailableIsTotal(n: nat)
    requires 1 <= n <= 5
    ensures Available(n, 0) == Total(n)
  {
    assert Available(n, n) == 0.0;
    assert Available(n, n - 1) == 1.0;
    assert n >= 2 ==> Available(n, n - 2) == 1.95;
    assert n >= 3 ==> Available(n, n - 3) == 2.8;
    assert n >= 4 ==> Available(n, n - 4) == 3.5;
  }

  /** `correct` of `n` recent answers. */
  function Estimate(n: nat, correct: nat): real {
    Min(correct as real / Total(n), if n == 1 then 0.5 else if n == 2 then 0.8 else 1.0)
  }

  /** The estimate is the number of correct recent answers over the sum of their weights, capped: the
      weights do not weigh the answers. */
  lemma MasteryIsCount(correctness: seq<bool>)
    requires correctness != []
    ensures ComputeMastery(correctness) == Estimate(|Recent(correctness)|, Correct(Recent(correctness)))
  {
    var recent := Recent(correctness);
    EarnedIsCount(recent, 0);
    assert recent[0..] == recent;
    AvailableIsTotal(|recent|);
  }

  /** The answers that the gate forgives: one of five. */
  function Forgiven(answers: nat): nat {
    if answers >= 5 then 1 else 0
  }

  lemma EstimateGate(n: nat, correct: nat)
    requires 1 <= n <= 5 && correct <= n
    ensures Estimate(n, correct) >= 0.9 <==> n >= 3 && n - correct <= Forgiven(n)
    ensures 0.0 <= Estimate(n, correct) <= 1.0
  {
  }

  /** Clearing the 0.9 gate means at least three answers, and all recent ones correct - or all but one,
      once there are five. */
  lemma GateMeansFewWrong(correctness: seq<bool>)
    ensures ComputeMastery(correctness) >= 0.9 <==>
            |correctness| >= 3 && Wrong(Recent(correctness)) <= Forgiven(|correctness|)
    ensures 0.0 <= ComputeMastery(correctness) <= 1.0
  {
    if correctness != [] {
      MasteryIsCount(correctness);
      EstimateGate(|Recent(correctness)|, Correct(Recent(correctness)));
    }
  }

  /** The recent answers after one more. */
  lemma RecentMore(correctness: seq<bool>, answer: bool)
    ensures var before, after := Recent(correctness), Recent(correctness + [answer]);
            && |after| == (if |before| < 5 then |before| + 1 else 5)
            && Correct(after) == Correct(before) + (if answer then 1 else 0) -
                                 (if |before| == 5 && before[0] then 1 else 0)
  {
    var before := Recent(correctness);
    if |before| < 5 {
      assert Recent(correctness + [answer]) == before + [answer];
      CorrectMore(before, answer);
    } else {
      assert Recent(correctness + [answer]) == before[1..] + [answer];
      CorrectMore(before[1..], answer);
      assert before == [before[0]] + before[1..];
      CorrectFirst(before[0], before[1..]);
    }
  }

  lemma LongerIsNoBetter(n: nat, correct: nat)
    requires 1 <= n < 5 && correct <= n
    ensures Estimate(n + 1, correct + 1) >= Estimate(n, correct)
    ensures Estimate(n + 1, correct) <= Estimate(n, correct) <==> !(n == 1 && correct == 1)
  {
  }

  lemma MoreIsBetter(correct: nat, more: nat)
    requires correct <= more <= 5
    ensures Estimate(5, correct) <= Estimate(5, more)
  {
  }

  /** A correct answer never lowers the estimate. A wrong one never raises it either, except the one
      that follows a single correct answer. */
  lemma MonotoneButForSecondAnswer(correctness: seq<bool>, answer: bool)
    ensures answer ==> ComputeMastery(correctness + [answer]) >= ComputeMastery(correctness)
    ensures !answer ==>
              (ComputeMastery(correctness + [answer]) <= ComputeMastery(correctness) <==> correctness != [true])
  {
    var before, after := Recent(correctness), Recent(correctness + [answer]);
    MasteryIsCount(correctness + [answer]);
    RecentMore(correctness, answer);
    if correctness == [] {
      EstimateGate(1, Correct(after));
    } else {
      MasteryIsCount(correctness);
      OneCorrect(correctness);
      if |before| < 5 {
        LongerIsNoBetter(|before|, Correct(before));
      } else if Correct(before) <= Correct(after) {
        MoreIsBetter(Correct(before), Correct(after));
      } else {
        MoreIsBetter(Correct(after), Correct(before));
      }
    }
  }

  lemma OneCorrect(correctness: seq<bool>)
    requires correctness != []
    ensures correctness == [true] <==> |Recent(correctness)| == 1 && Correct(Recent(correctness)) == 1
  {
    if |correctness| == 1 {
      CorrectMore([], correctness[0]);
      assert correctness == [] + [correctness[0]];
    }
  }

  /** Four correct answers after a wrong one count as complete mastery. */
  lemma FourOfFiveClearTheGate()
    ensures ComputeMastery([false, true, true, true, true]) == 1.0
  {
    var answers := [false, true, true, true, true];
    MasteryIsCount(answers);
    CountOf(false, true, true, true, true);
  }

  lemma CountOf(a: bool, b: bool, c: bool, d: bool, e: bool)
    ensures Correct([a, b, c, d, e]) == Correct([a, b, c, d]) + (if e then 1 else 0)
    ensures Correct([a, b, c, d]) == Correct([a, b, c]) + (if d then 1 else 0)
    ensures Correct([a, b, c]) == Correct([a, b]) + (if c then 1 else 0)
    ensures Correct([a, b]) == Correct([a]) + (if b then 1 else 0)
    ensures Correct([a]) == if a then 1 else 0
  {
    CorrectMore([a, b, c, d], e);
    CorrectMore([a, b, c], d);
    CorrectMore([a, b], c);
    CorrectMore([a], b);
    CorrectMore([], a);
    assert [a, b, c, d] + [e] == [a, b, c, d, e] && [a, b, c] + [d] == [a, b, c, d];
    assert [a, b] + [c] == [a, b, c] && [a] + [b] == [a, b] && [] + [a] == [a];
  }

  /** After one correct answer a wrong one raises the estimate from 0.5 to 1/1.95. */
  lemma SecondWrongAnswerRaises()
    ensures ComputeMastery([true]) == 0.5 && ComputeMastery([true, false]) == 1.0 / 1.95 > 0.5
  {
    MasteryIsCount([true]);
    MasteryIsCount([true, false]);
    CountOf(true, false, false, false, false);
  }

  // -------------------------------------------------------------- what was intended

  /** The sum with the answers weighed: each correct answer earns its weight. */
  function WeighedEarned(recent: seq<bool>, i: nat): real
    requires i <= |recent| <= 5
    decreases |recent| - i
  {
    if i == |recent| then 0.0
    else Product(Weight(|recent|, i), recent[i]) + WeighedEarned(recent, i + 1)
  }

  function WeighedMastery(correctness: seq<bool>): real {
    if correctness == [] then 0.0
    else
      var recent := Recent(correctness);
      Min(WeighedEarned(recent, 0) / Available(|recent|, 0), ConfidenceCap(|recent|))
  }

  function W(weight: real, correct: bool): real {
    if correct then weight else 0.0
  }

  /** The weighed sum, written out. */
  function WeighedSum(recent: seq<bool>): real
    requires 1 <= |recent| <= 5
  {
    var n := |recent|;
    W(1.0, recent[n - 1]) +
    (if n < 2 then 0.0 else W(0.95, recent[n - 2])) +
    (if n < 3 then 0.0 else W(0.85, recent[n - 3])) +
    (if n < 4 then 0.0 else W(0.7, recent[n - 4])) +
    (if n < 5 then 0.0 else W(0.5, recent[n - 5]))
  }

  lemma WeighedStep(recent: seq<bool>, i: nat)
    requires i < |recent| <= 5
    ensures WeighedEarned(recent, i) == W(Weight(|recent|, i), recent[i]) + WeighedEarned(recent, i + 1)
  {
  }

  lemma WeighedEarnedIsSum(recent: seq<bool>)
    requires 1 <= |recent| <= 5
    ensures WeighedEarned(recent, 0) == WeighedSum(recent)
  {
    var n := |recent|;
    WeighedStep(recent, n - 1);
    if n >= 2 {
      WeighedStep(recent, n - 2);
    }
    if n >= 3 {
      WeighedStep(recent, n - 3);
    }
    if n >= 4 {
      WeighedStep(recent, n - 4);
    }
    if n >= 5 {
      WeighedStep(recent, n - 5);
    }
  }

  lemma WeighedIsMean(correctness: seq<bool>)
    requires correctness != []
    ensures var recent := Recent(correctness);
            WeighedMastery(correctness) == Min(WeighedSum(recent) / Total(|recent|), ConfidenceCap(|recent|))
  {
    WeighedEarnedIsSum(Recent(correctness));
    AvailableIsTotal(|Recent(correctness)|);
  }

  predicate AllCorrect(recent: seq<bool>) {
    forall i :: 0 <= i < |recent| ==> recent[i]
  }

  predicate NoneCorrectButLast(recent: seq<bool>) {
    forall i :: 0 <= i < |recent| - 1 ==> !recent[i]
  }

  /** The last answer weighs one, the others less, but at least a half. */
  lemma WeightBounds(n: nat, i: nat)
    requires i < n <= 5
    ensures 0.5 <= Weight(n, i) <= 1.0 && (Weight(n, i) == 1.0 <==> i == n - 1)
  {
  }

  /** From the i-th answer on: the weighed sum is at most the count and at most the sum of the weights. */
  lemma {:induction false} WeighedBounds(recent: seq<bool>, i: nat)
    requires i <= |recent| <= 5
    ensures var weighed, counted := WeighedEarned(recent, i), Earned(recent, i);
            weighed <= counted && (weighed == counted <==> forall j :: i <= j < |recent| - 1 ==> !recent[j])
    ensures var weighed, all := WeighedEarned(recent, i), Available(|recent|, i);
            if forall j :: i <= j < |recent| ==> recent[j] then weighed == all else weighed <= all - 0.5
    decreases |recent| - i
  {
    if i < |recent| {
      WeightBounds(|recent|, i);
      WeighedBounds(recent, i + 1);
      WeighedStep(recent, i);
      CountedStep(recent, i);
    }
  }

  lemma CountedStep(recent: seq<bool>, i: nat)
    requires i < |recent| <= 5
    ensures Earned(recent, i) == Number(recent[i]) + Earned(recent, i + 1)
  {
  }

  lemma MeansAgree(n: nat, weighed: real, correct: nat)
    requires 1 <= n <= 5 && correct <= n && weighed <= correct as real
    requires if correct == n then weighed == Total(n) else weighed <= Total(n) - 0.5
    ensures var mean := Min(weighed / Total(n), ConfidenceCap(n));
            && mean <= Estimate(n, correct)
            && (mean == Estimate(n, correct) <==> correct == n || weighed == correct as real)
    ensures Min(weighed / Total(n), ConfidenceCap(n)) >= 0.9 <==> n >= 3 && correct == n
  {
    QuotientOrder(weighed, correct as real, Total(n));
  }

  lemma QuotientOrder(a: real, b: real, c: real)
    requires a <= b && c > 0.0
    ensures a / c <= b / c && (a / c == b / c <==> a == b)
  {
  }

  /** The weighed mean of the recent answers beside what the code computes. */
  lemma Compare(correctness: seq<bool>)
    requires correctness != []
    ensures var recent := Recent(correctness);
            && WeighedMastery(correctness) <= ComputeMastery(correctness)
            && (WeighedMastery(correctness) == ComputeMastery(correctness) <==>
                AllCorrect(recent) || NoneCorrectButLast(recent))
            && (WeighedMastery(correctness) >= 0.9 <==> |recent| >= 3 && AllCorrect(recent))
  {
    var recent := Recent(correctness);
    MasteryIsCount(correctness);
    WeighedBounds(recent, 0);
    EarnedIsCount(recent, 0);
    assert recent[0..] == recent;
    AllCorrectIsNoneWrong(recent);
    AvailableIsTotal(|recent|);
    MeansAgree(|recent|, WeighedEarned(recent, 0), Correct(recent));
  }

  /** The code never estimates less than the weighed mean, and the same exactly when all recent answers
      are correct, or none but possibly the last. */
  lemma AgreesWithWeighedExactly(correctness: seq<bool>)
    ensures WeighedMastery(correctness) <= ComputeMastery(correctness)
    ensures ComputeMastery(correctness) == WeighedMastery(correctness) <==>
            AllCorrect(Recent(correctness)) || NoneCorrectButLast(Recent(correctness))
  {
    if correctness != [] {
      Compare(correctness);
    }
  }

  /** With the weighed mean the gate means a recent streak; so the code opens it too early exactly when
      one of the last five answers is wrong. */
  lemma GateOpensEarlyExactly(correctness: seq<bool>)
    ensures WeighedMastery(correctness) >= 0.9 <==> |correctness| >= 3 && AllCorrect(Recent(correctness))
    ensures ComputeMastery(correctness) >= 0.9 && !(WeighedMastery(correctness) >= 0.9) <==>
            |correctness| >= 5 && Wrong(Recent(correctness)) == 1
  {
    GateMeansFewWrong(correctness);
    if correctness != [] {
      Compare(correctness);
      AllCorrectIsNoneWrong(Recent(correctness));
    }
  }

  lemma {:induction false} AllCorrectIsNoneWrong(recent: seq<bool>)
    ensures AllCorrect(recent) <==> Wrong(recent) == 0
  {
    if recent != [] {
      AllCorrectIsNoneWrong(recent[..|recent| - 1]);
    }
  }

  /** The weighed mean is monotone in every answer. */
  lemma WeighedIsMonotone(correctness: seq<bool>, answer: bool)
    ensures if answer then WeighedMastery(correctness + [answer]) >= WeighedMastery(correctness)
            else WeighedMastery(correctness + [answer]) <= WeighedMastery(correctness)
  {
    WeighedIsMean(correctness + [answer]);
    if correctness != [] {
      WeighedIsMean(correctness);
      var before := Recent(correctness);
      assert Recent(correctness + [answer]) == (if |before| < 5 then before else before[1..]) + [answer];
      ShiftIsMonotone(before, answer, Recent(correctness + [answer]));
    }
  }

  lemma ShiftIsMonotone(before: seq<bool>, answer: bool, after: seq<bool>)
    requires 1 <= |before| <= 5
    requires after == (if |before| < 5 then before else before[1..]) + [answer]
    ensures var was, now := Min(WeighedSum(before) / Total(|before|), ConfidenceCap(|before|)),
                            Min(WeighedSum(after) / Total(|after|), ConfidenceCap(|after|));
            if answer then now >= was else now <= was
  {
  }
}
