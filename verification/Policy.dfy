/** What to do next on a learning path, and the map of the path (backend/app/modules/learning/mastery/policy.py). */
module Policy {
  import Mastery
  import opened Options

  datatype KnowledgeType = Memory | Concept | Procedure | Design

  datatype KnowledgePoint = KnowledgePoint(id: string, name: string, kind: KnowledgeType)

  datatype LearningModule = LearningModule(
    id: string, name: string, order: int, stage: string, points: seq<KnowledgePoint>)

  datatype ReviewTask = ReviewTask(pointId: string, dueAt: real, priority: int)

  datatype PendingQuestion = PendingQuestion(pointId: string, moduleId: string)

  /** `attempted` lists the point of every quiz attempt. */
  datatype LearningProgress = LearningProgress(
    modules: seq<LearningModule>, masteryLevels: map<string, real>, qualitativeMastery: map<string, bool>,
    attempted: seq<string>, reviewQueue: seq<ReviewTask>, pending: Option<PendingQuestion>)

  datatype Status = Mastered | Learning | New

  predicate Qualitative(kind: KnowledgeType) {
    kind.Concept? || kind.Design?
  }

  function GateThreshold(kind: KnowledgeType): real {
    if Qualitative(kind) then 1.0 else 0.9
  }

  predicate IsMastered(p: LearningProgress, kp: KnowledgePoint) {
    if Qualitative(kp.kind) then Get(p.qualitativeMastery, kp.id) == Some(true)
    else (if kp.id in p.masteryLevels then p.masteryLevels[kp.id] else 0.0) >= GateThreshold(kp.kind)
  }

  function DisplayMastery(p: LearningProgress, kp: KnowledgePoint): real {
    if Qualitative(kp.kind) && Get(p.qualitativeMastery, kp.id) == Some(true) then 1.0
    else if kp.id in p.masteryLevels then p.masteryLevels[kp.id] else 0.0
  }

  function ObjectiveStatus(p: LearningProgress, kp: KnowledgePoint): Status {
    if IsMastered(p, kp) then Mastered
    else if kp.id in p.attempted || kp.id in p.qualitativeMastery then Learning
    else New
  }

  // ---------------------------------------------------------------- stable sorting

  function Insert<T>(sorted: seq<T>, x: T, key: T -> int): (r: seq<T>)
    ensures |r| == |sorted| + 1
  {
    if sorted == [] || key(sorted[|sorted| - 1]) <= key(x) then sorted + [x]
    else Insert(sorted[..|sorted| - 1], x, key) + [sorted[|sorted| - 1]]
  }

  /** Python's `sorted(s, key=key)`. */
  function Sorted<T>(s: seq<T>, key: T -> int): (r: seq<T>)
    ensures |r| == |s|
  {
    if s == [] then [] else Insert(Sorted(s[..|s| - 1], key), s[|s| - 1], key)
  }

  ghost predicate Ascending<T>(s: seq<T>, key: T -> int) {
    forall i, j :: 0 <= i < j < |s| ==> key(s[i]) <= key(s[j])
  }

  lemma {:induction false} InsertConserves<T>(sorted: seq<T>, x: T, key: T -> int)
    ensures multiset(Insert(sorted, x, key)) == multiset(sorted + [x])
  {
    if !(sorted == [] || key(sorted[|sorted| - 1]) <= key(x)) {
      var init, last := sorted[..|sorted| - 1], sorted[|sorted| - 1];
      InsertConserves(init, x, key);
      assert init + [last] == sorted;
    }
  }

  lemma {:induction false} InsertBelow<T>(sorted: seq<T>, x: T, key: T -> int, bound: int)
    requires forall i :: 0 <= i < |sorted| ==> key(sorted[i]) <= bound
    requires key(x) <= bound
    ensures forall i :: 0 <= i < |Insert(sorted, x, key)| ==> key(Insert(sorted, x, key)[i]) <= bound
  {
    if !(sorted == [] || key(sorted[|sorted| - 1]) <= key(x)) {
      InsertBelow(sorted[..|sorted| - 1], x, key, bound);
    }
  }

  lemma {:induction false} InsertKeepsOrder<T>(sorted: seq<T>, x: T, key: T -> int)
    requires Ascending(sorted, key)
    ensures Ascending(Insert(sorted, x, key), key)
  {
    if !(sorted == [] || key(sorted[|sorted| - 1]) <= key(x)) {
      var init, last := sorted[..|sorted| - 1], sorted[|sorted| - 1];
      InsertKeepsOrder(init, x, key);
      InsertBelow(init, x, key, key(last));
    }
  }

  lemma {:induction false} SortedAscends<T>(s: seq<T>, key: T -> int)
    ensures Ascending(Sorted(s, key), key)
  {
    if s != [] {
      SortedAscends(s[..|s| - 1], key);
      InsertKeepsOrder(Sorted(s[..|s| - 1], key), s[|s| - 1], key);
    }
  }

  lemma {:induction false} SortedConserves<T>(s: seq<T>, key: T -> int)
    ensures multiset(Sorted(s, key)) == multiset(s)
  {
    if s != [] {
      var init, last := s[..|s| - 1], s[|s| - 1];
      SortedConserves(init, key);
      InsertConserves(Sorted(init, key), last, key);
      assert init + [last] == s;
    }
  }

  /** The elements with one key, in order. */
  ghost function WithKey<T>(s: seq<T>, key: T -> int, k: int): seq<T> {
    if s == [] then []
    else WithKey(s[..|s| - 1], key, k) + (if key(s[|s| - 1]) == k then [s[|s| - 1]] else [])
  }

  lemma {:induction false} NoneWithKey<T>(s: seq<T>, key: T -> int, k: int)
    requires forall i :: 0 <= i < |s| ==> key(s[i]) != k
    ensures WithKey(s, key, k) == []
  {
    if s != [] {
      NoneWithKey(s[..|s| - 1], key, k);
    }
  }

  lemma WithKeyMore<T>(s: seq<T>, x: T, key: T -> int, k: int)
    ensures WithKey(s + [x], key, k) == WithKey(s, key, k) + (if key(x) == k then [x] else [])
  {
    assert (s + [x])[..|s|] == s;
  }

  lemma {:induction false} InsertIsStable<T>(sorted: seq<T>, x: T, key: T -> int, k: int)
    ensures WithKey(Insert(sorted, x, key), key, k) == WithKey(sorted + [x], key, k)
  {
    WithKeyMore(sorted, x, key, k);
    if !(sorted == [] || key(sorted[|sorted| - 1]) <= key(x)) {
      var init, last := sorted[..|sorted| - 1], sorted[|sorted| - 1];
      InsertIsStable(init, x, key, k);
      WithKeyMore(init, x, key, k);
      WithKeyMore(Insert(init, x, key), last, key, k);
    }
  }

  /** Elements with the same key stay in order. */
  lemma {:induction false} SortedIsStable<T>(s: seq<T>, key: T -> int, k: int)
    ensures WithKey(Sorted(s, key), key, k) == WithKey(s, key, k)
  {
    if s != [] {
      var init, last := s[..|s| - 1], s[|s| - 1];
      SortedIsStable(init, key, k);
      InsertIsStable(Sorted(init, key), last, key, k);
      WithKeyMore(Sorted(init, key), last, key, k);
    }
  }

  lemma AscendingAt<T>(s: seq<T>, key: T -> int, i: nat, j: nat)
    requires Ascending(s, key) && i <= j < |s|
    ensures key(s[i]) <= key(s[j])
  {
  }

  lemma FirstIsLeast<T>(s: seq<T>, key: T -> int, x: T)
    requires x in s
    ensures Sorted(s, key)[0] in s && key(Sorted(s, key)[0]) <= key(x)
  {
    SortedConserves(s, key);
    SortedAscends(s, key);
    var sorted := Sorted(s, key);
    assert x in multiset(sorted) && sorted[0] in multiset(s);
    var i: nat :| i < |sorted| && sorted[i] == x;
    AscendingAt(sorted, key, 0, i);
  }

  function Order(m: LearningModule): int {
    m.order
  }

  function Priority(t: ReviewTask): int {
    t.priority
  }

  function ByOrder(p: LearningProgress): seq<LearningModule> {
    Sorted(p.modules, Order)
  }

  // --------------------------------------------------------------------- next step

  function Due(queue: seq<ReviewTask>, now: real): seq<ReviewTask> {
    if queue == [] then []
    else (if queue[0].dueAt <= now then [queue[0]] else []) + Due(queue[1..], now)
  }

  function DueReviews(p: LearningProgress, now: real): seq<ReviewTask> {
    Sorted(Due(p.reviewQueue, now), Priority)
  }

  datatype Place = Place(kp: KnowledgePoint, moduleId: string)

  function FindInModule(m: LearningModule, id: string, j: nat): Option<KnowledgePoint>
    requires j <= |m.points|
    decreases |m.points| - j
  {
    if j == |m.points| then None
    else if m.points[j].id == id then Some(m.points[j])
    else FindInModule(m, id, j + 1)
  }

  function FindKnowledgePoint(modules: seq<LearningModule>, id: string): Option<Place> {
    if modules == [] then None
    else
      var kp := FindInModule(modules[0], id, 0);
      if kp.Some? then Some(Place(kp.value, modules[0].id)) else FindKnowledgePoint(modules[1..], id)
  }

  datatype Action = AnswerPending | Review | Probe | Assess | Practice | Complete

  datatype NextStep = NextStep(action: Action, moduleId: string, pointId: string, mastery: real, threshold: real)

  predicate AllMastered(p: LearningProgress, points: seq<KnowledgePoint>) {
    forall j :: 0 <= j < |points| ==> IsMastered(p, points[j])
  }

  /** The first unmastered point from position `j` on. */
  function FirstOpen(p: LearningProgress, points: seq<KnowledgePoint>, j: nat): (open: nat)
    requires j <= |points| && AllMastered(p, points[..j])
    ensures j <= open <= |points| && AllMastered(p, points[..open])
    ensures open < |points| ==> !IsMastered(p, points[open])
    decreases |points| - j
  {
    if j == |points| || !IsMastered(p, points[j]) then j
    else
      assert points[..j + 1] == points[..j] + [points[j]];
      FirstOpen(p, points, j + 1)
  }

  function StepFor(p: LearningProgress, m: LearningModule, kp: KnowledgePoint): NextStep {
    NextStep(if ObjectiveStatus(p, kp) == New then Probe else if Qualitative(kp.kind) then Assess else Practice,
             m.id, kp.id, DisplayMastery(p, kp), GateThreshold(kp.kind))
  }

  /** The new-material part of `next_objective`: the search through the modules, in order. */
  function NextInModules(p: LearningProgress, modules: seq<LearningModule>): (step: NextStep)
    ensures !step.action.AnswerPending? && !step.action.Review?
  {
    if modules == [] then NextStep(Complete, "", "", 0.0, 0.0)
    else
      var open := FirstOpen(p, modules[0].points, 0);
      if open < |modules[0].points| then StepFor(p, modules[0], modules[0].points[open])
      else NextInModules(p, modules[1..])
  }

  function NextObjective(p: LearningProgress, now: real): NextStep {
    if p.pending.Some? then
      var q := p.pending.value;
      var place := FindKnowledgePoint(p.modules, q.pointId);
      NextStep(AnswerPending,
               if place.Some? && place.value.moduleId != "" then place.value.moduleId else q.moduleId, q.pointId,
               if place.Some? then DisplayMastery(p, place.value.kp) else 0.0,
               if place.Some? then GateThreshold(place.value.kp.kind) else 0.0)
    else
      var due := DueReviews(p, now);
      var place := if due == [] then None else FindKnowledgePoint(p.modules, due[0].pointId);
      if place.Some? then
        var kp := place.value.kp;
        NextStep(Review, place.value.moduleId, kp.id, DisplayMastery(p, kp), GateThreshold(kp.kind))
      else NextInModules(p, ByOrder(p))
  }

  // ------------------------------------------------------------------ the summary

  datatype Counts = Counts(mastered: nat, learning: nat, untouched: nat, total: nat) {
    function Add(s: Status): Counts {
      Counts(mastered + (if s.Mastered? then 1 else 0), learning + (if s.Learning? then 1 else 0),
             untouched + (if s.New? then 1 else 0), total + 1)
    }
  }

  datatype PointSummary = PointSummary(id: string, name: string, kind: KnowledgeType, status: Status, mastery: real)

  datatype ModuleSummary = ModuleSummary(
    id: string, name: string, order: int, stage: string, mastered: nat, total: nat, points: seq<PointSummary>)

  datatype Summary = Summary(counts: Counts, dueReviews: nat, complete: bool, modules: seq<ModuleSummary>)

  function Statuses(p: LearningProgress, points: seq<KnowledgePoint>): (statuses: seq<Status>)
    ensures |statuses| == |points|
  {
    if points == [] then []
    else Statuses(p, points[..|points| - 1]) + [ObjectiveStatus(p, points[|points| - 1])]
  }

  function PointSummaryOf(p: LearningProgress, kp: KnowledgePoint): PointSummary {
    PointSummary(kp.id, kp.name, kp.kind, ObjectiveStatus(p, kp), DisplayMastery(p, kp))
  }

  function PointSummaries(p: LearningProgress, points: seq<KnowledgePoint>): seq<PointSummary> {
    if points == [] then []
    else PointSummaries(p, points[..|points| - 1]) + [PointSummaryOf(p, points[|points| - 1])]
  }

  ghost function AllPoints(modules: seq<LearningModule>): seq<KnowledgePoint> {
    if modules == [] then [] else AllPoints(modules[..|modules| - 1]) + modules[|modules| - 1].points
  }

  function Tally(p: LearningProgress, points: seq<KnowledgePoint>): Counts {
    if points == [] then Counts(0, 0, 0, 0)
    else Tally(p, points[..|points| - 1]).Add(ObjectiveStatus(p, points[|points| - 1]))
  }

  lemma OneMorePoint(p: LearningProgress, points: seq<KnowledgePoint>, kp: KnowledgePoint)
    ensures Tally(p, points + [kp]) == Tally(p, points).Add(ObjectiveStatus(p, kp))
    ensures PointSummaries(p, points + [kp]) == PointSummaries(p, points) + [PointSummaryOf(p, kp)]
  {
    assert (points + [kp])[..|points|] == points;
  }

  function SummaryOf(p: LearningProgress, m: LearningModule): ModuleSummary {
    ModuleSummary(m.id, m.name, m.order, m.stage, Tally(p, m.points).mastered, |m.points|, PointSummaries(p, m.points))
  }

  function Summaries(p: LearningProgress, modules: seq<LearningModule>): seq<ModuleSummary> {
    if modules == [] then []
    else Summaries(p, modules[..|modules| - 1]) + [SummaryOf(p, modules[|modules| - 1])]
  }

  /** One round of the loop over the points of a module. */
  lemma SummaryStep(p: LearningProgress, before: seq<KnowledgePoint>, points: seq<KnowledgePoint>, j: nat)
    requires j < |points|
    ensures var status := ObjectiveStatus(p, points[j]);
            && Tally(p, before + points[..j + 1]) == Tally(p, before + points[..j]).Add(status)
            && Tally(p, points[..j + 1]) == Tally(p, points[..j]).Add(status)
    ensures PointSummaries(p, points[..j + 1]) == PointSummaries(p, points[..j]) + [PointSummaryOf(p, points[j])]
  {
    assert before + points[..j + 1] == (before + points[..j]) + [points[j]];
    assert points[..j + 1] == points[..j] + [points[j]];
    OneMorePoint(p, before + points[..j], points[j]);
    OneMorePoint(p, points[..j], points[j]);
  }

  method SummarizeModule(p: LearningProgress, m: LearningModule, counts: Counts, ghost before: seq<KnowledgePoint>)
    returns (after: Counts, out: ModuleSummary)
    requires counts == Tally(p, before)
    ensures after == Tally(p, before + m.points) && out == SummaryOf(p, m)
  {
    var summaries, mastered := [], 0;
    after := counts;
    assert before + m.points[..0] == before;
    for j := 0 to |m.points|
      invariant after == Tally(p, before + m.points[..j])
      invariant summaries == PointSummaries(p, m.points[..j]) && mastered == Tally(p, m.points[..j]).mastered
    {
      var status := ObjectiveStatus(p, m.points[j]);
      SummaryStep(p, before, m.points, j);
      after := after.Add(status);
      if status.Mastered? {
        mastered := mastered + 1;
      }
      var kp := m.points[j];
      summaries := summaries + [PointSummary(kp.id, kp.name, kp.kind, status, DisplayMastery(p, kp))];
    }
    assert m.points[..|m.points|] == m.points;
    out := ModuleSummary(m.id, m.name, m.order, m.stage, mastered, |m.points|, summaries);
  }

  lemma OneMoreModule(p: LearningProgress, modules: seq<LearningModule>, i: nat)
    requires i < |modules|
    ensures AllPoints(modules[..i + 1]) == AllPoints(modules[..i]) + modules[i].points
    ensures Summaries(p, modules[..i + 1]) == Summaries(p, modules[..i]) + [SummaryOf(p, modules[i])]
  {
    assert modules[..i + 1][..i] == modules[..i];
  }

  method MapSummary(p: LearningProgress, now: real) returns (summary: Summary)
    ensures var counts := Tally(p, AllPoints(ByOrder(p)));
            summary == Summary(counts, |DueReviews(p, now)|, counts.total > 0 && counts.mastered == counts.total,
                               Summaries(p, ByOrder(p)))
  {
    var counts, out := Counts(0, 0, 0, 0), [];
    var modules := ByOrder(p);
    for i := 0 to |modules|
      invariant counts == Tally(p, AllPoints(modules[..i])) && out == Summaries(p, modules[..i])
    {
      OneMoreModule(p, modules, i);
      var one;
      counts, one := SummarizeModule(p, modules[i], counts, AllPoints(modules[..i]));
      out := out + [one];
    }
    assert modules[..|modules|] == modules;
    var due := DueReviews(p, now);
    summary := Summary(counts, |due|, counts.total > 0 && counts.mastered == counts.total, out);
  }

  /** Every entry of the map is about its point, and every line about its module. */
  lemma {:induction false} PointSummariesTell(p: LearningProgress, points: seq<KnowledgePoint>, j: nat)
    requires j < |points|
    ensures |PointSummaries(p, points)| == |points|
    ensures PointSummaries(p, points)[j] ==
            PointSummary(points[j].id, points[j].name, points[j].kind, ObjectiveStatus(p, points[j]),
                         DisplayMastery(p, points[j]))
  {
    var n := |points| - 1;
    if n > 0 {
      PointSummariesTell(p, points[..n], if j < n then j else 0);
    }
  }

  lemma {:induction false} SummariesTell(p: LearningProgress, modules: seq<LearningModule>, i: nat)
    requires i < |modules|
    ensures |Summaries(p, modules)| == |modules|
    ensures var line, m := Summaries(p, modules)[i], modules[i];
            && line.id == m.id && line.name == m.name && line.order == m.order && line.stage == m.stage
            && line.total == |m.points| == |line.points| && line.mastered == multiset(Statuses(p, m.points))[Mastered]
            && forall j :: 0 <= j < |m.points| ==>
                 line.points[j] == PointSummary(m.points[j].id, m.points[j].name, m.points[j].kind,
                                                ObjectiveStatus(p, m.points[j]), DisplayMastery(p, m.points[j]))
  {
    var n := |modules| - 1;
    if n > 0 {
      SummariesTell(p, modules[..n], if i < n then i else 0);
    }
    if i == n {
      var points := modules[n].points;
      CountsAddUp(p, points);
      assert |PointSummaries(p, points)| == |points| by {
        if points != [] {
          PointSummariesTell(p, points, 0);
        }
      }
      forall j | 0 <= j < |points|
        ensures PointSummaries(p, points)[j] ==
                PointSummary(points[j].id, points[j].name, points[j].kind, ObjectiveStatus(p, points[j]),
                             DisplayMastery(p, points[j]))
      {
        PointSummariesTell(p, points, j);
      }
    }
  }

  // ------------------------------------------------------ what mastery takes

  /** A point to memorize or carry out whose level is the estimate of its answers is mastered exactly
      after three answers of which the recent ones are correct, or five with at most one wrong. */
  lemma MasteredExactlyWithFewWrong(p: LearningProgress, kp: KnowledgePoint, answers: seq<bool>)
    requires kp.kind.Memory? || kp.kind.Procedure?
    requires Get(p.masteryLevels, kp.id) == Some(Mastery.ComputeMastery(answers))
    ensures IsMastered(p, kp) <==>
            |answers| >= 3 && Mastery.Wrong(Mastery.Recent(answers)) <= (if |answers| >= 5 then 1 else 0)
  {
    Mastery.GateMeansFewWrong(answers);
  }

  /** What is displayed reaches the threshold exactly for the mastered points - and for a concept or
      design with a full level that nobody has judged as passed. */
  lemma DisplayReachesThreshold(p: LearningProgress, kp: KnowledgePoint)
    ensures var judged, level := kp.kind.Concept? || kp.kind.Design?, Get(p.masteryLevels, kp.id);
            && (judged ==> (IsMastered(p, kp) <==> Get(p.qualitativeMastery, kp.id) == Some(true)))
            && (DisplayMastery(p, kp) >= GateThreshold(kp.kind) <==>
                  IsMastered(p, kp) || (judged && level.Some? && level.value >= 1.0))
  {
  }

  // --------------------------------------------------------- policy and map agree

  /** The counts of statuses in a list. */
  ghost function CountsOf(statuses: seq<Status>): Counts {
    var m := multiset(statuses);
    Counts(m[Mastered], m[Learning], m[New], |statuses|)
  }

  lemma OneMoreStatus(statuses: seq<Status>, s: Status)
    ensures CountsOf(statuses + [s]) == CountsOf(statuses).Add(s)
  {
  }

  /** Every point is counted exactly once, under its status. */
  lemma {:induction false} CountsAddUp(p: LearningProgress, points: seq<KnowledgePoint>)
    ensures Tally(p, points) == CountsOf(Statuses(p, points))
    ensures var c := Tally(p, points); c.mastered + c.learning + c.untouched == c.total == |points|
  {
    if points != [] {
      var init, last := points[..|points| - 1], points[|points| - 1];
      CountsAddUp(p, init);
      OneMoreStatus(Statuses(p, init), ObjectiveStatus(p, last));
    }
  }

  lemma {:induction false} AllCountedAsMastered(p: LearningProgress, points: seq<KnowledgePoint>)
    ensures Tally(p, points).mastered <= Tally(p, points).total
    ensures Tally(p, points).mastered == Tally(p, points).total <==> AllMastered(p, points)
  {
    if points != [] {
      var init := points[..|points| - 1];
      AllCountedAsMastered(p, init);
      assert forall j :: 0 <= j < |init| ==> points[j] == init[j];
      assert AllMastered(p, points) <==> AllMastered(p, init) && IsMastered(p, points[|init|]);
    }
  }

  lemma {:induction false} AllPointsOf(p: LearningProgress, modules: seq<LearningModule>)
    ensures AllMastered(p, AllPoints(modules)) <==> forall i :: 0 <= i < |modules| ==> AllMastered(p, modules[i].points)
  {
    if modules != [] {
      var init, last := modules[..|modules| - 1], modules[|modules| - 1];
      AllPointsOf(p, init);
      var all := AllPoints(modules);
      assert forall j :: 0 <= j < |AllPoints(init)| ==> all[j] == AllPoints(init)[j];
      assert forall j :: 0 <= j < |last.points| ==> last.points[j] == all[|AllPoints(init)| + j];
    }
  }

  /** A step to this point: to probe it if it is new, else to assess a concept or design and to practice
      anything else. */
  ghost predicate Suits(p: LearningProgress, m: LearningModule, kp: KnowledgePoint, step: NextStep) {
    && step.moduleId == m.id && step.pointId == kp.id && step.mastery == DisplayMastery(p, kp)
    && step.threshold == (if kp.kind.Concept? || kp.kind.Design? then 1.0 else 0.9)
    && step.action == if kp.id !in p.attempted && kp.id !in p.qualitativeMastery then Probe
                      else if kp.kind.Concept? || kp.kind.Design? then Assess else Practice
  }

  /** A step into the material names the first open point: it is not mastered, everything before it
      in its module and in the modules before it is. */
  ghost predicate NamesFirstOpen(p: LearningProgress, modules: seq<LearningModule>, step: NextStep, i: nat, j: nat) {
    && i < |modules| && j < |modules[i].points|
    && Suits(p, modules[i], modules[i].points[j], step)
    && !IsMastered(p, modules[i].points[j])
    && AllMastered(p, modules[i].points[..j])
    && forall h :: 0 <= h < i ==> AllMastered(p, modules[h].points)
  }

  lemma {:induction false} SearchFindsFirstOpen(p: LearningProgress, modules: seq<LearningModule>)
    ensures var step := NextInModules(p, modules);
            if step.action.Complete?
            then forall i :: 0 <= i < |modules| ==> AllMastered(p, modules[i].points)
            else exists i: nat, j: nat :: NamesFirstOpen(p, modules, step, i, j)
  {
    if modules != [] {
      var open := FirstOpen(p, modules[0].points, 0);
      var step := NextInModules(p, modules);
      if open < |modules[0].points| {
        assert NamesFirstOpen(p, modules, step, 0, open);
      } else {
        assert modules[0].points[..open] == modules[0].points;
        SearchFindsFirstOpen(p, modules[1..]);
        if !step.action.Complete? {
          var i: nat, j: nat :| NamesFirstOpen(p, modules[1..], step, i, j);
          forall h | 0 <= h < i + 1 ensures AllMastered(p, modules[h].points) {
            assert h > 0 ==> modules[h] == modules[1..][h - 1];
          }
          assert NamesFirstOpen(p, modules, step, i + 1, j);
        } else {
          forall i | 0 <= i < |modules| ensures AllMastered(p, modules[i].points) {
            assert i > 0 ==> modules[i] == modules[1..][i - 1];
          }
        }
      }
    }
  }

  /** The policy says `complete` exactly when no question is pending, the most urgent due review (if
      any) is of an unknown point, and the map counts every point as mastered. */
  lemma CompleteAgreesWithMap(p: LearningProgress, now: real)
    ensures var counts, due := Tally(p, AllPoints(ByOrder(p))), DueReviews(p, now);
            NextObjective(p, now).action.Complete? <==>
              && p.pending.None?
              && (due == [] || FindKnowledgePoint(p.modules, due[0].pointId).None?)
              && counts.mastered == counts.total
  {
    var modules := ByOrder(p);
    AllCountedAsMastered(p, AllPoints(modules));
    AllPointsOf(p, modules);
    SearchFindsFirstOpen(p, modules);
  }

  /** A probe, practice or assessment is of an unmastered point with every point of every lower-order
      module - and every earlier point of its own - mastered. */
  lemma StepsFollowTheMap(p: LearningProgress, now: real) returns (i: nat, j: nat)
    ensures var step, modules := NextObjective(p, now), ByOrder(p);
            step.action in {Probe, Assess, Practice} ==>
              NamesFirstOpen(p, modules, step, i, j) && LowerModulesMastered(p, modules[i].order)
  {
    i, j := 0, 0;
    var step, modules := NextObjective(p, now), ByOrder(p);
    SearchFindsFirstOpen(p, modules);
    if step.action in {Probe, Assess, Practice} {
      i, j :| NamesFirstOpen(p, modules, step, i, j);
      LowerOrderComesFirst(p, i);
    }
  }

  /** A pending question comes first, then the most urgent due review of a known point, then new
      material. */
  lemma StepsByUrgency(p: LearningProgress, now: real)
    ensures var step, due := NextObjective(p, now), DueReviews(p, now);
            && (step.action.AnswerPending? <==> p.pending.Some?)
            && (p.pending.Some? ==>
                  && step.pointId == p.pending.value.pointId
                  && (!Known(p.modules, step.pointId) ==>
                        step.moduleId == p.pending.value.moduleId && step.mastery == step.threshold == 0.0))
            && (step.action.Review? <==>
                  p.pending.None? && due != [] && FindKnowledgePoint(p.modules, due[0].pointId).Some?)
            && (step.action.Review? ==>
                  var place := FindKnowledgePoint(p.modules, due[0].pointId).value;
                  && step.moduleId == place.moduleId && step.pointId == due[0].pointId
                  && step.mastery == DisplayMastery(p, place.kp)
                  && step.threshold == if place.kp.kind.Concept? || place.kp.kind.Design? then 1.0 else 0.9)
    ensures && p.pending.None? && (exists task :: MostUrgent(p.reviewQueue, now, task))
            && (forall task :: MostUrgent(p.reviewQueue, now, task) ==> Known(p.modules, task.pointId)) ==>
              NextObjective(p, now).action.Review?
  {
    if p.pending.Some? {
      FoundExactly(p.modules, p.pending.value.pointId);
    } else if DueReviews(p, now) != [] {
      FoundExactly(p.modules, DueReviews(p, now)[0].pointId);
    }
    if task :| MostUrgent(p.reviewQueue, now, task) {
      MostUrgentIsFirst(p, now, task);
      FoundExactly(p.modules, DueReviews(p, now)[0].pointId);
    }
  }

  lemma MostUrgentIsFirst(p: LearningProgress, now: real, task: ReviewTask)
    requires task in p.reviewQueue && task.dueAt <= now
    ensures DueReviews(p, now) != [] && MostUrgent(p.reviewQueue, now, DueReviews(p, now)[0])
  {
    var due := Due(p.reviewQueue, now);
    DueMembers(p.reviewQueue, now);
    FirstIsLeast(due, Priority, task);
    var first := DueReviews(p, now)[0];
    forall other | other in due ensures first.priority <= other.priority {
      FirstIsLeast(due, Priority, other);
    }
  }

  ghost predicate MostUrgent(queue: seq<ReviewTask>, now: real, task: ReviewTask) {
    && task in queue && task.dueAt <= now
    && forall other :: other in queue && other.dueAt <= now ==> task.priority <= other.priority
  }

  /** A review is only proposed for a due task, and none that is due is more urgent. */
  lemma ReviewIsMostUrgent(p: LearningProgress, now: real)
    ensures var step, due := NextObjective(p, now), DueReviews(p, now);
            step.action.Review? ==>
              due != [] && MostUrgent(p.reviewQueue, now, due[0]) && due[0].pointId == step.pointId
  {
    var due := Due(p.reviewQueue, now);
    DueMembers(p.reviewQueue, now);
    if due != [] {
      FoundExactly(p.modules, DueReviews(p, now)[0].pointId);
      MostUrgentIsFirst(p, now, due[0]);
    }
  }

  lemma {:induction false} DueMembers(queue: seq<ReviewTask>, now: real)
    ensures forall t :: t in Due(queue, now) <==> t in queue && t.dueAt <= now
    ensures forall t :: multiset(Due(queue, now))[t] == if t.dueAt <= now then multiset(queue)[t] else 0
  {
    if queue != [] {
      assert queue == [queue[0]] + queue[1..];
      DueMembers(queue[1..], now);
    }
  }

  ghost predicate Holds(m: LearningModule, id: string) {
    exists kp :: kp in m.points && kp.id == id
  }

  /** Some module has a point with this id. */
  ghost predicate Known(modules: seq<LearningModule>, id: string) {
    exists m :: m in modules && Holds(m, id)
  }

  /** A point is found exactly if there is one with that id, in a module that has it. */
  lemma {:induction false} FoundExactly(modules: seq<LearningModule>, id: string)
    ensures var place := FindKnowledgePoint(modules, id);
            && (place.Some? <==> Known(modules, id))
            && (place.Some? ==>
                  && place.value.kp.id == id
                  && exists m :: m in modules && m.id == place.value.moduleId && place.value.kp in m.points)
  {
    if modules != [] {
      FoundInModule(modules[0], id, 0);
      FoundExactly(modules[1..], id);
      assert modules == [modules[0]] + modules[1..];
      assert modules[0] in modules;
    }
  }

  lemma {:induction false} FoundInModule(m: LearningModule, id: string, j: nat)
    requires j <= |m.points|
    ensures var kp := FindInModule(m, id, j);
            if kp.Some? then kp.value in m.points && kp.value.id == id
            else forall i :: j <= i < |m.points| ==> m.points[i].id != id
    decreases |m.points| - j
  {
    if j < |m.points| && m.points[j].id != id {
      FoundInModule(m, id, j + 1);
    }
  }

  ghost predicate LowerModulesMastered(p: LearningProgress, order: int) {
    forall m :: m in p.modules && m.order < order ==> AllMastered(p, m.points)
  }

  lemma OrderedAt(modules: seq<LearningModule>, i: nat, h: nat)
    requires Ascending(modules, Order) && i < |modules| && h < |modules|
    ensures h < i || modules[i].order <= modules[h].order
  {
    if i <= h {
      AscendingAt(modules, Order, i, h);
    }
  }

  lemma LowerOrderComesFirst(p: LearningProgress, i: nat)
    requires i < |ByOrder(p)|
    requires forall h :: 0 <= h < i ==> AllMastered(p, ByOrder(p)[h].points)
    ensures LowerModulesMastered(p, ByOrder(p)[i].order)
  {
    SortedAscends(p.modules, Order);
    SortedConserves(p.modules, Order);
    forall m | m in p.modules && m.order < ByOrder(p)[i].order ensures AllMastered(p, m.points) {
      assert m in multiset(p.modules);
      assert m in multiset(ByOrder(p));
      var h: nat :| h < |ByOrder(p)| && ByOrder(p)[h] == m;
      OrderedAt(ByOrder(p), i, h);
    }
  }
}
