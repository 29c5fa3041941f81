/** One sequential reconcile pass over all jobs, in priority order. */
module Reconcile {
  import opened Wrappers
  import opened Dispatch

  const DAEMON := -1

  function DesiredCount(count: int): nat {
    if count <= 0 then 1 else count
  }

  function Desired(job: Job): nat {
    DesiredCount(job.count)
  }

  // dispatchInstances: stops at the first dispatch that fails.
  function Dispatches(env: Env, s: Sched, store: map<JobName, int>, job: Job, n: nat): Sched
    decreases n
  {
    if n == 0 then s
    else
      var (s', ok) := DispatchOne(env, s, store, job);
      if ok then Dispatches(env, s', store, job, n - 1) else s'
  }

  // A daemon asks every agent that has none of it, once.
  function DaemonRound(env: Env, s: Sched, j: JobName, missing: seq<AgentId>): Sched
    decreases |missing|
  {
    if missing == [] then s
    else
      var asked := s.(requests := s.requests + 1);
      DaemonRound(env,
                  if env.answer(s.requests).Accepted? then asked.(placed := Track(s.placed, missing[0], j)) else asked,
                  j, missing[1..])
  }

  function Missing(placed: Books, agents: seq<AgentId>, j: JobName): seq<AgentId> {
    if agents == [] then []
    else (if Count(placed, agents[0], j) == 0 then [agents[0]] else []) + Missing(placed, agents[1..], j)
  }

  function ReconcileOne(env: Env, s: Sched, store: map<JobName, int>, job: Job): Sched {
    if job.name == "" || job.name in s.dispatching then s
    else if job.count == DAEMON then DaemonRound(env, s, job.name, Missing(s.placed, s.agents, job.name))
    else
      var total := Total(s.placed, s.agents, job.name);
      if total < Desired(job) then Dispatches(env, s, store, job, Desired(job) - total) else s
  }

  /** The state after the turns of the first `n` jobs. */
  function Turn(env: Env, s: Sched, store: map<JobName, int>, jobs: seq<Job>, n: nat): Sched
    requires n <= |jobs|
  {
    if n == 0 then s.(roundRobin := 0)
    else ReconcileOne(env, Turn(env, s, store, jobs, n - 1), store, jobs[n - 1])
  }

  // What normalisation guarantees before the pass: strictly rising priorities, and a
  // store that agrees with the snapshot.
  ghost predicate Normalised(store: map<JobName, int>, jobs: seq<Job>) {
    && (forall i | 0 <= i < |jobs| :: jobs[i].name in store && store[jobs[i].name] == jobs[i].prio)
    && (forall i, k | 0 <= i < k < |jobs| :: jobs[i].prio < jobs[k].prio)
  }

  ghost predicate NeverLoses(before: Books, after: Books, j: JobName) {
    forall a :: Count(after, a, j) >= Count(before, a, j)
  }

  /** What one turn does: the job itself never loses and never ends above the larger
      of its start and what is desired; the rest loses only to it, and only if less
      important. */
  ghost predicate TurnEffect(before: Sched, after: Sched, store: map<JobName, int>, job: Job) {
    && after.agents == before.agents
    && after.dispatching == before.dispatching
    && OnlyLessImportantLose(before.placed, after.placed, store, job)
    && NeverLoses(before.placed, after.placed, job.name)
    && (job.count != DAEMON ==>
          Total(after.placed, after.agents, job.name) <=
            Max(Total(before.placed, before.agents, job.name), Desired(job)))
    && (job.count == DAEMON ==>
          forall a :: Count(after.placed, a, job.name) <= Max(Count(before.placed, a, job.name), 1))
  }

  lemma OnlyLessImportantLoseTransitive(a: Books, b: Books, c: Books, store: map<JobName, int>, job: Job)
    requires OnlyLessImportantLose(a, b, store, job) && OnlyLessImportantLose(b, c, store, job)
    ensures OnlyLessImportantLose(a, c, store, job)
  {
    forall x, j | j != job.name
      ensures Count(c, x, j) == Count(a, x, j) || (Count(c, x, j) == 0 && j in store && store[j] > job.prio)
    {
      assert Count(b, x, j) == Count(a, x, j) || (Count(b, x, j) == 0 && j in store && store[j] > job.prio);
    }
  }

  lemma {:induction false} DispatchesEffect(env: Env, s: Sched, store: map<JobName, int>, job: Job, n: nat)
    requires Distinct(s.agents) && (job.name in store ==> store[job.name] <= job.prio)
    ensures var s' := Dispatches(env, s, store, job, n);
            && s'.agents == s.agents && s'.dispatching == s.dispatching
            && OnlyLessImportantLose(s.placed, s'.placed, store, job)
            && NeverLoses(s.placed, s'.placed, job.name)
            && Total(s'.placed, s.agents, job.name) <= Total(s.placed, s.agents, job.name) + n
    decreases n
  {
    if n > 0 {
      var (s', ok) := DispatchOne(env, s, store, job);
      DispatchEffect(env, s, store, job);
      if ok {
        var a :| a in s.agents && GainsOne(s.placed, s'.placed, a, job.name);
        TotalGainsOne(s.placed, s'.placed, s.agents, a, job.name);
        DispatchesEffect(env, s', store, job, n - 1);
        var end := Dispatches(env, s', store, job, n - 1);
        OnlyLessImportantLoseTransitive(s.placed, s'.placed, end.placed, store, job);
      } else {
        TotalSame(s.placed, s'.placed, s.agents, job.name);
      }
    }
  }

  lemma {:induction false} DaemonEffect(env: Env, s: Sched, j: JobName, missing: seq<AgentId>)
    requires Distinct(missing)
    ensures var s' := DaemonRound(env, s, j, missing);
            && s'.agents == s.agents && s'.dispatching == s.dispatching
            && (forall i | i != j :: Same(s.placed, s'.placed, i))
            && (forall a :: Count(s'.placed, a, j) == Count(s.placed, a, j) ||
                            (a in missing && Count(s'.placed, a, j) == Count(s.placed, a, j) + 1))
    decreases |missing|
  {
    if missing != [] {
      var asked := s.(requests := s.requests + 1);
      var next := if env.answer(s.requests).Accepted? then asked.(placed := Track(s.placed, missing[0], j)) else asked;
      DaemonEffect(env, next, j, missing[1..]);
      assert missing[0] !in missing[1..];
      var end := DaemonRound(env, s, j, missing);
      forall i | i != j ensures Same(s.placed, end.placed, i) {
        assert Same(s.placed, next.placed, i) && Same(next.placed, end.placed, i);
      }
    }
  }

  lemma {:induction false} MissingOnes(placed: Books, agents: seq<AgentId>, j: JobName)
    requires Distinct(agents)
    ensures Distinct(Missing(placed, agents, j))
    ensures forall a :: a in Missing(placed, agents, j) <==> a in agents && Count(placed, a, j) == 0
  {
    if agents != [] {
      MissingOnes(placed, agents[1..], j);
      assert agents[0] !in agents[1..];
    }
  }

  lemma ReconcileEffect(env: Env, s: Sched, store: map<JobName, int>, job: Job)
    requires Distinct(s.agents) && (job.name in store ==> store[job.name] <= job.prio)
    ensures TurnEffect(s, ReconcileOne(env, s, store, job), store, job)
  {
    var s' := ReconcileOne(env, s, store, job);
    if job.name == "" || job.name in s.dispatching {
    } else if job.count == DAEMON {
      var missing := Missing(s.placed, s.agents, job.name);
      MissingOnes(s.placed, s.agents, job.name);
      DaemonEffect(env, s, job.name, missing);
      forall a, j | j != job.name ensures Count(s'.placed, a, j) == Count(s.placed, a, j) {
        assert Same(s.placed, s'.placed, j);
      }
    } else if Total(s.placed, s.agents, job.name) < Desired(job) {
      DispatchesEffect(env, s, store, job, Desired(job) - Total(s.placed, s.agents, job.name));
    }
  }

  lemma {:induction false} TurnKeepsAgents(env: Env, s: Sched, store: map<JobName, int>, jobs: seq<Job>, n: nat)
    requires Distinct(s.agents) && Normalised(store, jobs) && n <= |jobs|
    ensures Turn(env, s, store, jobs, n).agents == s.agents
  {
    if n > 0 {
      TurnKeepsAgents(env, s, store, jobs, n - 1);
      ReconcileEffect(env, Turn(env, s, store, jobs, n - 1), store, jobs[n - 1]);
    }
  }

  lemma TurnHasEffect(env: Env, s: Sched, store: map<JobName, int>, jobs: seq<Job>, n: nat)
    requires Distinct(s.agents) && Normalised(store, jobs) && n < |jobs|
    ensures TurnEffect(Turn(env, s, store, jobs, n), Turn(env, s, store, jobs, n + 1), store, jobs[n])
  {
    TurnKeepsAgents(env, s, store, jobs, n);
    ReconcileEffect(env, Turn(env, s, store, jobs, n), store, jobs[n]);
  }

  /** After its own turn a job's placements do not change for the rest of the pass: no
      later, less important job can take an instance from it or give it one. */
  lemma {:induction false} SettledAfterItsTurn(env: Env, s: Sched, store: map<JobName, int>, jobs: seq<Job>, i: nat,
                                               n: nat)
    requires Distinct(s.agents) && Normalised(store, jobs) && i < n <= |jobs|
    ensures Same(Turn(env, s, store, jobs, i + 1).placed, Turn(env, s, store, jobs, n).placed, jobs[i].name)
    decreases n
  {
    if i + 1 < n {
      SettledAfterItsTurn(env, s, store, jobs, i, n - 1);
      TurnHasEffect(env, s, store, jobs, n - 1);
      assert jobs[i].prio < jobs[n - 1].prio && jobs[i].name != jobs[n - 1].name;
    }
  }

  /** A job filled at its turn is still filled at the end of the pass. */
  lemma FilledStaysFilled(env: Env, s: Sched, store: map<JobName, int>, jobs: seq<Job>, i: nat)
    requires Distinct(s.agents) && Normalised(store, jobs) && i < |jobs|
    requires Total(Turn(env, s, store, jobs, i + 1).placed, s.agents, jobs[i].name) >= Desired(jobs[i])
    ensures Total(Turn(env, s, store, jobs, |jobs|).placed, s.agents, jobs[i].name) >= Desired(jobs[i])
  {
    SettledAfterItsTurn(env, s, store, jobs, i, |jobs|);
    TotalSame(Turn(env, s, store, jobs, i + 1).placed, Turn(env, s, store, jobs, |jobs|).placed, s.agents,
              jobs[i].name);
  }

  // Before its turn a job can only lose.
  lemma {:induction false} OnlyLosesBefore(env: Env, s: Sched, store: map<JobName, int>, jobs: seq<Job>, j: JobName,
                                           n: nat)
    requires Distinct(s.agents) && Normalised(store, jobs) && n <= |jobs|
    requires forall k | 0 <= k < n :: jobs[k].name != j
    ensures forall a :: Count(Turn(env, s, store, jobs, n).placed, a, j) <= Count(s.placed, a, j)
  {
    if n > 0 {
      OnlyLosesBefore(env, s, store, jobs, j, n - 1);
      TurnHasEffect(env, s, store, jobs, n - 1);
      var before, after := Turn(env, s, store, jobs, n - 1), Turn(env, s, store, jobs, n);
      forall a ensures Count(after.placed, a, j) <= Count(s.placed, a, j) {
        assert Count(after.placed, a, j) <= Count(before.placed, a, j);
      }
    }
  }

  /** A pass never pushes a job above the larger of what it had and what is desired; a
      daemon never gets a second instance on an agent. */
  lemma NeverAboveDesired(env: Env, s: Sched, store: map<JobName, int>, jobs: seq<Job>, i: nat)
    requires Distinct(s.agents) && Normalised(store, jobs) && i < |jobs|
    ensures var end := Turn(env, s, store, jobs, |jobs|); var j := jobs[i].name;
            && (jobs[i].count != DAEMON ==>
                  Total(end.placed, s.agents, j) <= Max(Total(s.placed, s.agents, j), Desired(jobs[i])))
            && (jobs[i].count == DAEMON ==>
                  forall a :: Count(end.placed, a, j) <= Max(Count(s.placed, a, j), 1))
  {
    var j, before, after := jobs[i].name, Turn(env, s, store, jobs, i), Turn(env, s, store, jobs, i + 1);
    var end := Turn(env, s, store, jobs, |jobs|);
    forall k | 0 <= k < i ensures jobs[k].name != j {
      assert jobs[k].prio < jobs[i].prio;
    }
    OnlyLosesBefore(env, s, store, jobs, j, i);
    TotalAtMost(s.placed, before.placed, s.agents, j);
    TurnKeepsAgents(env, s, store, jobs, i);
    TurnHasEffect(env, s, store, jobs, i);
    SettledAfterItsTurn(env, s, store, jobs, i, |jobs|);
    TotalSame(after.placed, end.placed, s.agents, j);
    assert Same(after.placed, end.placed, j);
  }

  /** Whoever has fewer instances on an agent after the pass lost them all there, in
      the turn of a job that is strictly more important. */
  lemma {:induction false} LosersLostToMoreImportant(env: Env, s: Sched, store: map<JobName, int>, jobs: seq<Job>,
                                                     a: AgentId, j: JobName, n: nat) returns (k: nat)
    requires Distinct(s.agents) && Normalised(store, jobs) && n <= |jobs|
    requires Count(Turn(env, s, store, jobs, n).placed, a, j) < Count(s.placed, a, j)
    ensures k < n && j in store && jobs[k].prio < store[j]
    ensures Count(Turn(env, s, store, jobs, k).placed, a, j) > 0 == Count(Turn(env, s, store, jobs, k + 1).placed, a, j)
  {
    if n > 0 {
      TurnHasEffect(env, s, store, jobs, n - 1);
      var before, after := Turn(env, s, store, jobs, n - 1), Turn(env, s, store, jobs, n);
      if Count(before.placed, a, j) < Count(s.placed, a, j) {
        k := LosersLostToMoreImportant(env, s, store, jobs, a, j, n - 1);
      } else {
        k := n - 1;
        assert Count(after.placed, a, j) < Count(before.placed, a, j);
        assert j != jobs[k].name;
      }
    }
  }

  // ---- the recreate policy ----

  // Every row that counts the job loses it.
  function ForgetAll(placed: Books, j: JobName): Books {
    map a | a in placed :: if Count(placed, a, j) > 0 then placed[a] - {j} else placed[a]
  }

  function Holders(placed: Books, agents: seq<AgentId>, j: JobName): nat {
    if agents == [] then 0 else (if Count(placed, agents[0], j) > 0 then 1 else 0) + Holders(placed, agents[1..], j)
  }

  function Cleared(s: Sched, j: JobName): Sched {
    s.(placed := ForgetAll(s.placed, j), dispatching := s.dispatching - {j},
       requests := s.requests + Holders(s.placed, s.agents, j))
  }

  /** A recreate update: forget and stop all old instances, give the claim back, dispatch
      the new ones. Whether a stop succeeded is not asked. */
  function Recreate(env: Env, s: Sched, store: map<JobName, int>, job: Job): Sched {
    var cleared := Cleared(s, job.name);
    if job.count == DAEMON then ReconcileOne(env, cleared, store, job)
    else Dispatches(env, cleared, store, job, Desired(job))
  }

  lemma {:induction false} ForgottenTotal(placed: Books, agents: seq<AgentId>, j: JobName)
    ensures Total(ForgetAll(placed, j), agents, j) == 0
  {
    if agents != [] {
      ForgottenTotal(placed, agents[1..], j);
    }
  }

  /** From any books a recreate ends with at most the desired number (one per agent for a
      daemon), and whoever else lost instances is strictly less important. */
  lemma RecreateEffect(env: Env, s: Sched, store: map<JobName, int>, job: Job)
    requires Distinct(s.agents) && (job.name in store ==> store[job.name] <= job.prio)
    ensures var end := Recreate(env, s, store, job);
            && OnlyLessImportantLose(s.placed, end.placed, store, job)
            && job.name !in end.dispatching
            && (job.count != DAEMON ==> Total(end.placed, s.agents, job.name) <= Desired(job))
            && (job.count == DAEMON ==> forall a :: Count(end.placed, a, job.name) <= 1)
  {
    var cleared, end := Cleared(s, job.name), Recreate(env, s, store, job);
    ClearedEffect(s, store, job);
    if job.count == DAEMON {
      ReconcileEffect(env, cleared, store, job);
    } else {
      DispatchesEffect(env, cleared, store, job, Desired(job));
    }
    OnlyLessImportantLoseTransitive(s.placed, cleared.placed, end.placed, store, job);
  }

  lemma ClearedEffect(s: Sched, store: map<JobName, int>, job: Job)
    ensures var cleared := Cleared(s, job.name);
            && OnlyLessImportantLose(s.placed, cleared.placed, store, job)
            && Total(cleared.placed, s.agents, job.name) == 0
            && forall a :: Count(cleared.placed, a, job.name) == 0
  {
    ForgottenTotal(s.placed, s.agents, job.name);
  }
}
