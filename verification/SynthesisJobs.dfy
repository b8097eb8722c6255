/**
 * Scheduling of memory synthesis: at most one job per user
 * (backend/app/modules/memory/tasks.py, backend/app/core/redis_lock.py), as a state machine whose
 * steps are the code between two suspension points.
 */
module SynthesisJobs {
  import opened Options

  type User = string

  /** An actor is a call of `enqueue_synthesize_l3` and the background task it may schedule. */
  type Actor = nat

  /**
   * - `Asked`: the caller saw no pending task and is about to ask for the lock;
   * - `Locked`: it got the lock and is about to schedule its background job;
   * - `Working`: that job is scheduled or running, with so many attempts begun;
   * - `Unlocked`: the job has released the lock and is about to clear its entry;
   * - `Refused`, `Finished`: nothing more happens.
   */
  datatype Phase = Asked | Locked | Working(attempts: nat) | Unlocked | Refused | Finished

  const MAX_ATTEMPTS := 3

  datatype Job = Job(user: User, phase: Phase) {
    /** Between acquire and release. */
    predicate Holds() {
      phase.Locked? || phase.Working?
    }

    predicate TaskPending() {
      phase.Working? || phase.Unlocked?
    }
  }

  /** `locks` are the held lock keys; `scheduled` is `_scheduled_tasks`. */
  datatype World = World(jobs: map<Actor, Job>, locks: set<User>, scheduled: map<User, Actor>) {
    function With(a: Actor, phase: Phase): World
      requires a in jobs
    {
      this.(jobs := jobs[a := jobs[a].(phase := phase)])
    }
  }

  const START := World(map[], {}, map[])

  /** `Release` follows a success, the last failure or a cancellation of the running task; `Expire`
      is the time-to-live of the lock key running out. */
  datatype Step =
    | Enqueue(actor: Actor, user: User)
    | TryLock(actor: Actor)
    | Schedule(actor: Actor)
    | Attempt(actor: Actor)
    | Release(actor: Actor)
    | Clear(actor: Actor)
    | Expire(user: User)

  predicate Enabled(w: World, step: Step) {
    match step
    case Enqueue(a, _) => a !in w.jobs
    case TryLock(a) => a in w.jobs && w.jobs[a].phase.Asked?
    case Schedule(a) => a in w.jobs && w.jobs[a].phase.Locked?
    case Attempt(a) => a in w.jobs && w.jobs[a].phase.Working? && w.jobs[a].phase.attempts < MAX_ATTEMPTS
    case Release(a) => a in w.jobs && w.jobs[a].phase.Working?
    case Clear(a) => a in w.jobs && w.jobs[a].phase.Unlocked?
    case Expire(_) => true
  }

  /** `existing is not None and not existing.done()`. */
  predicate Pending(w: World, user: User) {
    user in w.scheduled && w.scheduled[user] in w.jobs && w.jobs[w.scheduled[user]].TaskPending()
  }

  function After(w: World, step: Step): World
    requires Enabled(w, step)
  {
    match step
    case Enqueue(a, user) => w.(jobs := w.jobs[a := Job(user, if Pending(w, user) then Refused else Asked)])
    case TryLock(a) =>
      var user := w.jobs[a].user;
      if user in w.locks then w.With(a, Refused) else w.With(a, Locked).(locks := w.locks + {user})
    case Schedule(a) => w.With(a, Working(0)).(scheduled := w.scheduled[w.jobs[a].user := a])
    case Attempt(a) => w.With(a, Working(w.jobs[a].phase.attempts + 1))
    case Release(a) => w.With(a, Unlocked).(locks := w.locks - {w.jobs[a].user})
    case Clear(a) => w.With(a, Finished).(scheduled := w.scheduled - {w.jobs[a].user})
    case Expire(user) => w.(locks := w.locks - {user})
  }

  // ------------------------------------------------------------------- the code's sections

  /** How many attempts a job makes: up to the first that succeeds, at most three. */
  function AttemptsOf(succeeds: nat -> bool, attempt: nat): (n: nat)
    requires 1 <= attempt <= MAX_ATTEMPTS
    ensures attempt <= n <= MAX_ATTEMPTS
    ensures n < MAX_ATTEMPTS ==> succeeds(n)
    ensures forall i :: attempt <= i < n ==> !succeeds(i)
    decreases MAX_ATTEMPTS - attempt
  {
    if succeeds(attempt) || attempt == MAX_ATTEMPTS then attempt else AttemptsOf(succeeds, attempt + 1)
  }

  /** The module's tables, and where each call of it stands. */
  class MemoryTasks {
    var jobs: map<Actor, Job>
    var locks: set<User>
    var scheduled: map<User, Actor>

    function State(): World
      reads this
    {
      World(jobs, locks, scheduled)
    }

    constructor ()
      ensures State() == START
    {
      jobs, locks, scheduled := map[], {}, map[];
    }

    method LookForPending(a: Actor, user: User) returns (pending: bool)
      requires a !in jobs
      modifies this
      ensures State() == After(old(State()), Enqueue(a, user)) && pending == Pending(old(State()), user)
    {
      pending := false;
      if user in scheduled {
        var task := scheduled[user];
        pending := task in jobs && jobs[task].TaskPending();
      }
      jobs := jobs[a := Job(user, if pending then Refused else Asked)];
    }

    method TryAcquireJobLock(a: Actor) returns (ok: bool)
      requires Enabled(State(), TryLock(a))
      modifies this
      ensures State() == After(old(State()), TryLock(a)) && ok == (jobs[a].user !in old(locks))
    {
      var user := jobs[a].user;
      ok := user !in locks;
      jobs := jobs[a := Job(user, if ok then Locked else Refused)];
      if ok {
        locks := locks + {user};
      }
    }

    method ScheduleTask(a: Actor)
      requires Enabled(State(), Schedule(a))
      modifies this
      ensures State() == After(old(State()), Schedule(a))
    {
      scheduled := scheduled[jobs[a].user := a];
      jobs := jobs[a := Job(jobs[a].user, Working(0))];
    }

    /** `enqueue_synthesize_l3`, when nothing interrupts it: a task is scheduled exactly when none is
        pending and the lock is free. */
    method EnqueueSynthesizeL3(a: Actor, user: User) returns (ok: bool)
      requires a !in jobs
      modifies this
      ensures ok <==> user !in old(locks) &&
                      !(user in old(scheduled) && old(scheduled)[user] in old(jobs) &&
                        match old(jobs)[old(scheduled)[user]].phase
                        case Working(_) => true
                        case Unlocked => true
                        case _ => false)
      ensures jobs == old(jobs)[a := Job(user, if ok then Working(0) else Refused)]
      ensures scheduled == if ok then old(scheduled)[user := a] else old(scheduled)
      ensures locks == if ok then old(locks) + {user} else old(locks)
    {
      var pending := LookForPending(a, user);
      if pending {
        return false;
      }
      ok := TryAcquireJobLock(a);
      if ok {
        ScheduleTask(a);
      }
    }

    /** The body of a job up to its `finally`: `succeeds` says which attempts do. */
    method TryToSynthesize(a: Actor, succeeds: nat -> bool) returns (ok: bool, attempts: nat)
      requires a in jobs && jobs[a].phase == Working(0)
      modifies this`jobs
      ensures attempts == AttemptsOf(succeeds, 1) <= 3 && ok == succeeds(attempts)
      ensures !ok ==> !succeeds(1) && !succeeds(2) && !succeeds(3)
      ensures jobs == old(jobs)[a := Job(old(jobs)[a].user, Working(attempts))]
    {
      attempts := 0;
      while attempts < MAX_ATTEMPTS
        invariant 0 <= attempts <= MAX_ATTEMPTS
        invariant attempts < MAX_ATTEMPTS ==> AttemptsOf(succeeds, attempts + 1) == AttemptsOf(succeeds, 1)
        invariant attempts == MAX_ATTEMPTS ==> AttemptsOf(succeeds, 1) == MAX_ATTEMPTS && !succeeds(MAX_ATTEMPTS)
        invariant jobs == old(jobs)[a := Job(old(jobs)[a].user, Working(attempts))]
      {
        attempts := attempts + 1;
        jobs := jobs[a := Job(jobs[a].user, Working(attempts))];
        if succeeds(attempts) {
          return true, attempts;
        }
      }
      return false, attempts;
    }

    /** The `finally`: the lock is released whoever holds it, and the entry removed whoever's it is. */
    method Finish(a: Actor)
      requires Enabled(State(), Release(a))
      modifies this
      ensures Enabled(After(old(State()), Release(a)), Clear(a))
      ensures State() == After(After(old(State()), Release(a)), Clear(a))
    {
      var user := jobs[a].user;
      locks := locks - {user};
      jobs := jobs[a := Job(user, Unlocked)];
      scheduled := scheduled - {user};
      jobs := jobs[a := Job(user, Finished)];
    }
  }

  // ----------------------------------------------------------------------- exclusion

  ghost predicate HolderOf(w: World, a: Actor, user: User) {
    a in w.jobs && w.jobs[a].user == user && w.jobs[a].Holds()
  }

  /** A lock is held exactly when a job of that user is between acquire and release, and then only one is. */
  ghost predicate Exclusive(w: World) {
    && (forall a, b, user :: HolderOf(w, a, user) && HolderOf(w, b, user) ==> a == b)
    && (forall user :: user in w.locks <==> exists a :: HolderOf(w, a, user))
  }

  /** Every step keeps that, except the expiry of a lock that is held. */
  lemma StepKeepsExclusion(w: World, step: Step)
    requires Exclusive(w) && Enabled(w, step)
    ensures Exclusive(After(w, step)) <==> !(step.Expire? && step.user in w.locks)
  {
    var w' := After(w, step);
    if step.Expire? {
      assert forall a, user :: HolderOf(w', a, user) <==> HolderOf(w, a, user);
      if step.user in w.locks {
        var a :| HolderOf(w, a, step.user);
        assert HolderOf(w', a, step.user);
      }
    } else {
      var actor := step.actor;
      forall a, b, user | HolderOf(w', a, user) && HolderOf(w', b, user) ensures a == b {
        OtherHoldersStay(w, step, a, user);
        OtherHoldersStay(w, step, b, user);
      }
      forall user ensures user in w'.locks <==> exists a :: HolderOf(w', a, user) {
        LockFollowsHolder(w, step, user);
      }
    }
  }

  /** A step only changes whether its own actor holds, and only a free lock is taken. */
  lemma OtherHoldersStay(w: World, step: Step, a: Actor, user: User)
    requires Exclusive(w) && Enabled(w, step) && !step.Expire?
    ensures a != step.actor ==> (HolderOf(After(w, step), a, user) <==> HolderOf(w, a, user))
    ensures HolderOf(After(w, step), step.actor, user) ==>
              HolderOf(w, step.actor, user) || forall b :: !HolderOf(w, b, user)
  {
  }

  lemma LockFollowsHolder(w: World, step: Step, user: User)
    requires Exclusive(w) && Enabled(w, step) && !step.Expire?
    ensures user in After(w, step).locks <==> exists a :: HolderOf(After(w, step), a, user)
  {
    var w', actor := After(w, step), step.actor;
    if user in w'.locks {
      if a :| HolderOf(w, a, user) {
        assert HolderOf(w', a, user);
      } else {
        assert HolderOf(w', actor, user);
      }
    } else if a :| HolderOf(w', a, user) {
      OtherHoldersStay(w, step, a, user);
      assert HolderOf(w, actor, user) || HolderOf(w, a, user) ==> user in w.locks;
      assert step.Release? && w.jobs[actor].user == user ==> HolderOf(w, actor, user);
    }
  }

  // ------------------------------------------------------------------------- all runs

  ghost predicate Runs(w: World, steps: seq<Step>)
    decreases |steps|
  {
    steps == [] || (Enabled(w, steps[0]) && Runs(After(w, steps[0]), steps[1..]))
  }

  ghost function End(w: World, steps: seq<Step>): World
    requires Runs(w, steps)
    decreases |steps|
  {
    if steps == [] then w else End(After(w, steps[0]), steps[1..])
  }

  /** No lock expires while it is held. */
  ghost predicate NoEarlyExpiry(w: World, steps: seq<Step>)
    requires Runs(w, steps)
    decreases |steps|
  {
    steps == [] || (!(steps[0].Expire? && steps[0].user in w.locks) && NoEarlyExpiry(After(w, steps[0]), steps[1..]))
  }

  lemma {:induction false} RunKeepsExclusion(w: World, steps: seq<Step>)
    requires Exclusive(w) && Runs(w, steps) && NoEarlyExpiry(w, steps)
    ensures Exclusive(End(w, steps))
    decreases |steps|
  {
    if steps != [] {
      StepKeepsExclusion(w, steps[0]);
      RunKeepsExclusion(After(w, steps[0]), steps[1..]);
    }
  }

  /** In every interleaving of callers and tasks, from the empty start: one synthesis per user at a
      time, and its lock is held exactly then. */
  lemma SynthesisExclusion(steps: seq<Step>, a: Actor, b: Actor, user: User)
    requires Runs(START, steps) && NoEarlyExpiry(START, steps)
    ensures var w := End(START, steps);
            && (HolderOf(w, a, user) && HolderOf(w, b, user) ==> a == b)
            && (HolderOf(w, a, user) ==> user in w.locks)
            && (user in w.locks ==> exists c :: HolderOf(w, c, user))
  {
    RunKeepsExclusion(START, steps);
  }

  /** Two callers of one user and their tasks. */
  ghost function Two(user: User, first: Phase, second: Phase, locks: set<User>, scheduled: map<User, Actor>): World {
    World(map[0 := Job(user, first), 1 := Job(user, second)], locks, scheduled)
  }

  /** Both callers saw nothing pending. */
  lemma BothAsk(user: User, rest: seq<Step>) returns (steps: seq<Step>)
    requires var w := Two(user, Asked, Asked, {}, map[]); Runs(w, rest) && NoEarlyExpiry(w, rest)
    ensures Runs(START, steps) && NoEarlyExpiry(START, steps)
    ensures End(START, steps) == End(Two(user, Asked, Asked, {}, map[]), rest)
  {
    var one := World(map[0 := Job(user, Asked)], {}, map[]);
    steps := Before(one, Enqueue(1, user), Two(user, Asked, Asked, {}, map[]), rest);
    steps := Before(START, Enqueue(0, user), one, steps);
  }

  /** The first one's task runs and releases the lock before the second asks for it. */
  lemma FirstRuns(user: User, rest: seq<Step>) returns (steps: seq<Step>)
    requires var w := Two(user, Unlocked, Asked, {}, map[user := 0]); Runs(w, rest) && NoEarlyExpiry(w, rest)
    ensures var w := Two(user, Asked, Asked, {}, map[]); Runs(w, steps) && NoEarlyExpiry(w, steps)
    ensures End(Two(user, Asked, Asked, {}, map[]), steps) == End(Two(user, Unlocked, Asked, {}, map[user := 0]), rest)
  {
    var locked := Two(user, Locked, Asked, {user}, map[]);
    steps := FirstReleases(user, rest);
    steps := Before(Two(user, Asked, Asked, {}, map[]), TryLock(0), locked, steps);
  }

  lemma FirstReleases(user: User, rest: seq<Step>) returns (steps: seq<Step>)
    requires var w := Two(user, Unlocked, Asked, {}, map[user := 0]); Runs(w, rest) && NoEarlyExpiry(w, rest)
    ensures var w := Two(user, Locked, Asked, {user}, map[]); Runs(w, steps) && NoEarlyExpiry(w, steps)
    ensures End(Two(user, Locked, Asked, {user}, map[]), steps) ==
            End(Two(user, Unlocked, Asked, {}, map[user := 0]), rest)
  {
    var working := Two(user, Working(0), Asked, {user}, map[user := 0]);
    steps := Before(working, Release(0), Two(user, Unlocked, Asked, {}, map[user := 0]), rest);
    steps := Before(Two(user, Locked, Asked, {user}, map[]), Schedule(0), working, steps);
  }

  ghost predicate SuccessorEntryLost(w: World, user: User) {
    && HolderOf(w, 1, user) && w.jobs[1].phase.Working? && !Pending(w, user)
    && Get(w.jobs, 2) == Some(Job(user, Refused))
  }

  lemma ThirdCallerIsRefused(user: User) returns (steps: seq<Step>)
    ensures var w := Two(user, Finished, Working(0), {user}, map[]);
            Runs(w, steps) && NoEarlyExpiry(w, steps) && SuccessorEntryLost(End(w, steps), user)
  {
    var w := Two(user, Finished, Working(0), {user}, map[]);
    var asked := World(w.jobs[2 := Job(user, Asked)], {user}, map[]);
    var refused := World(w.jobs[2 := Job(user, Refused)], {user}, map[]);
    steps := Before(asked, TryLock(2), refused, []);
    steps := Before(w, Enqueue(2, user), asked, steps);
  }

  lemma SecondIsScheduled(user: User, rest: seq<Step>) returns (steps: seq<Step>)
    requires var w := Two(user, Unlocked, Working(0), {user}, map[user := 1]); Runs(w, rest) && NoEarlyExpiry(w, rest)
    ensures var w := Two(user, Unlocked, Asked, {}, map[user := 0]); Runs(w, steps) && NoEarlyExpiry(w, steps)
    ensures End(Two(user, Unlocked, Asked, {}, map[user := 0]), steps) ==
            End(Two(user, Unlocked, Working(0), {user}, map[user := 1]), rest)
  {
    var locked := Two(user, Unlocked, Locked, {user}, map[user := 0]);
    steps := Before(locked, Schedule(1), Two(user, Unlocked, Working(0), {user}, map[user := 1]), rest);
    steps := Before(Two(user, Unlocked, Asked, {}, map[user := 0]), TryLock(1), locked, steps);
  }

  /** `_scheduled_tasks` alone would not do: a finishing task can clear the entry of its successor,
      so that a third caller sees nothing pending while the successor works - the lock refuses it. */
  lemma ClearedSuccessorIsStillExcluded(user: User) returns (steps: seq<Step>)
    ensures Runs(START, steps) && NoEarlyExpiry(START, steps)
    ensures SuccessorEntryLost(End(START, steps), user)
  {
    steps := ThirdCallerIsRefused(user);
    steps := Before(Two(user, Unlocked, Working(0), {user}, map[user := 1]), Clear(0),
                    Two(user, Finished, Working(0), {user}, map[]), steps);
    steps := SecondIsScheduled(user, steps);
    steps := FirstRuns(user, steps);
    steps := BothAsk(user, steps);
  }

  /** One step in front of a run. */
  lemma Before(w: World, step: Step, w': World, rest: seq<Step>) returns (steps: seq<Step>)
    requires Enabled(w, step) && After(w, step) == w' && !step.Expire?
    requires Runs(w', rest) && NoEarlyExpiry(w', rest)
    ensures Runs(w, steps) && NoEarlyExpiry(w, steps) && End(w, steps) == End(w', rest)
  {
    steps := [step] + rest;
    assert steps[1..] == rest;
  }

  /** An expired lock lets a second synthesis in beside the first. */
  lemma ExpiredLockBreaksExclusion(w: World, a: Actor, b: Actor, user: User)
    requires HolderOf(w, a, user) && w.jobs[a].phase.Working? && b in w.jobs && w.jobs[b] == Job(user, Asked)
    ensures var w' := After(After(w, Expire(user)), TryLock(b));
            a != b && HolderOf(w', a, user) && HolderOf(w', b, user)
  {
  }
}
