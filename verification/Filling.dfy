/** What a dispatch, a turn and a pass achieve, and what must have been answered when they
    fall short. */
module Filling {
  import opened Wrappers
  import opened Dispatch
  import opened Reconcile

  // ---- the first pass ----

  /** None of the `n` requests from number `first` on is accepted. */
  predicate NoneOf(env: Env, first: nat, n: nat) {
    forall k | first <= k < first + n :: !env.answer(k).Accepted?
  }

  // The first pass ended at request number `k`, the first one that was accepted.
  predicate TakenBy(env: Env, s: Sched, s': Sched, j: JobName, a: AgentId, k: nat)
    requires s.agents != [] && s.requests <= k
  {
    && NoneOf(env, s.requests, k - s.requests) && env.answer(k).Accepted?
    && a == s.agents[(s.roundRobin + (k - s.requests)) % |s.agents|]
    && s' == s.(placed := Track(s.placed, a, j), roundRobin := s.roundRobin + (k - s.requests) + 1, requests := k + 1)
  }

  /** A round places the job exactly if one of its agents accepts, and then on the first
      one that does, in rotation order. */
  lemma {:induction false} FirstPassIff(env: Env, s: Sched, j: JobName, n: nat, full: seq<AgentId>)
    requires s.agents != []
    ensures var (s', r) := FirstPass(env, s, j, n, full);
            && (r.Placed? <==> !NoneOf(env, s.requests, n))
            && (r.Placed? ==> s.requests < s'.requests && TakenBy(env, s, s', j, r.agent, s'.requests - 1))
            && (!r.Placed? ==> s' == s.(roundRobin := s.roundRobin + n, requests := s.requests + n))
    decreases n
  {
    if n > 0 && !env.answer(s.requests).Accepted? {
      var a := s.agents[s.roundRobin % |s.agents|];
      var asked := s.(roundRobin := s.roundRobin + 1, requests := s.requests + 1);
      FirstPassIff(env, asked, j, n - 1, if env.answer(s.requests).NoCapacity? then full + [a] else full);
      assert NoneOf(env, s.requests, n) <==> NoneOf(env, s.requests + 1, n - 1);
    }
  }

  // ---- preemption ----

  /** Iterating a row yields all its keys. */
  ghost predicate Lists(env: Env) {
    forall n, keys, u | u in keys :: u in env.order(n, keys)
  }

  /** A full agent that preemption does not help: it has no less important job, or the stop
      of its victim fails, or it refuses all the same. */
  ghost predicate Hopeless(env: Env, s: Sched, s': Sched, store: map<JobName, int>, job: Job, a: AgentId) {
    || (IsVictimChoice(s.placed, store, a, job.prio, None) && s' == s)
    || ((exists v :: IsVictim(s.placed, store, a, job.prio, v))
        && !env.stopOk(s.requests) && s' == s.(requests := s.requests + 1))
    || exists v ::
         && IsVictim(s.placed, store, a, job.prio, v) && env.stopOk(s.requests)
         && !env.answer(s.requests + 1).Accepted?
         && s' == s.(placed := Forget(s.placed, a, v), requests := s.requests + 2)
  }

  /** The one that helps. */
  ghost predicate MakesRoom(env: Env, s: Sched, s': Sched, store: map<JobName, int>, job: Job, a: AgentId) {
    exists v ::
      && IsVictim(s.placed, store, a, job.prio, v) && env.stopOk(s.requests) && env.answer(s.requests + 1).Accepted?
      && s' == s.(placed := Track(Forget(s.placed, a, v), a, job.name), requests := s.requests + 2)
  }

  ghost predicate AllHopeless(env: Env, states: seq<Sched>, store: map<JobName, int>, job: Job, full: seq<AgentId>) {
    |states| == |full| + 1 &&
    forall i | 0 <= i < |full| :: Hopeless(env, states[i], states[i + 1], store, job, full[i])
  }

  lemma OneFullAgent(env: Env, s: Sched, store: map<JobName, int>, job: Job, full: seq<AgentId>) returns (s': Sched)
    requires Lists(env) && full != []
    ensures || (MakesRoom(env, s, s', store, job, full[0]) && SecondPass(env, s, store, job, full) == (s', true))
            || (Hopeless(env, s, s', store, job, full[0])
                && SecondPass(env, s, store, job, full) == SecondPass(env, s', store, job, full[1..]))
  {
    var a := full[0];
    VictimIsLeastImportant(env, s.requests, s.placed, store, a, job.prio);
    match VictimOf(env, s.requests, s.placed, store, a, job.prio)
    case None => s' := s;
    case Some(v) =>
      assert IsVictim(s.placed, store, a, job.prio, v);
      if !env.stopOk(s.requests) {
        s' := s.(requests := s.requests + 1);
      } else {
        var cleared := s.(placed := Forget(s.placed, a, v), requests := s.requests + 2);
        if env.answer(s.requests + 1).Accepted? {
          s' := cleared.(placed := Track(cleared.placed, a, job.name));
          assert MakesRoom(env, s, s', store, job, a);
        } else {
          s' := cleared;
          assert Hopeless(env, s, s', store, job, a);
        }
      }
  }

  /** Preemption tries the full agents one by one, in the order they were asked, until one
      has a victim, stops it and accepts; it gives up only when all were hopeless. */
  lemma {:induction false} SecondPassTries(env: Env, s: Sched, store: map<JobName, int>, job: Job, full: seq<AgentId>)
    returns (states: seq<Sched>)
    requires Lists(env)
    ensures var (s', ok) := SecondPass(env, s, store, job, full);
            && 0 < |states| <= |full| + 1 && states[0] == s
            && AllHopeless(env, states, store, job, full[..|states| - 1])
            && (!ok ==> |states| == |full| + 1 && s' == states[|full|])
            && (ok ==> |states| <= |full|
                       && MakesRoom(env, states[|states| - 1], s', store, job, full[|states| - 1]))
    decreases |full|
  {
    states := [s];
    if full != [] {
      var next := OneFullAgent(env, s, store, job, full);
      if !(MakesRoom(env, s, next, store, job, full[0]) && SecondPass(env, s, store, job, full) == (next, true)) {
        var rest := SecondPassTries(env, next, store, job, full[1..]);
        states := [s] + rest;
        forall i | 0 <= i < |states| - 1 ensures Hopeless(env, states[i], states[i + 1], store, job, full[i]) {
          if i > 0 {
            assert Hopeless(env, rest[i - 1], rest[i], store, job, full[1..][..|rest| - 1][i - 1]);
          }
        }
      }
    }
  }

  // ---- one dispatch ----

  // The agents that answered "no capacity" in the round, in rotation order.
  function FullAgents(env: Env, s: Sched): seq<AgentId> {
    if s.agents == [] then [] else FullOnes(env, Asked(s.agents, s.roundRobin, |s.agents|), s.requests)
  }

  lemma {:induction false} FullOnesAre(env: Env, asked: seq<AgentId>, request: nat)
    requires Distinct(asked)
    ensures forall i | 0 <= i < |asked| ::
              asked[i] in FullOnes(env, asked, request) <==> env.answer(request + i).NoCapacity?
    ensures forall a :: a in FullOnes(env, asked, request) ==> a in asked
    decreases |asked|
  {
    if asked != [] {
      var rest := asked[1..];
      assert asked == [asked[0]] + rest && asked[0] !in rest;
      FullOnesAre(env, rest, request + 1);
      forall i | 0 <= i < |asked|
        ensures asked[i] in FullOnes(env, asked, request) <==> env.answer(request + i).NoCapacity?
      {
        if i > 0 {
          assert asked[i] == rest[i - 1] && asked[i] != asked[0];
        }
      }
    }
  }

  /** The full ones of a round are exactly the agents that answered "no capacity". */
  lemma FullAgentsAre(env: Env, s: Sched)
    requires Distinct(s.agents) && s.agents != []
    ensures var asked := Asked(s.agents, s.roundRobin, |s.agents|);
            && (forall i | 0 <= i < |asked| ::
                  asked[i] in FullAgents(env, s) <==> env.answer(s.requests + i).NoCapacity?)
            && (forall a :: a in FullAgents(env, s) ==> a in s.agents)
  {
    RoundAsksEachAgentOnce(s.agents, s.roundRobin);
    FullOnesAre(env, Asked(s.agents, s.roundRobin, |s.agents|), s.requests);
  }

  /** A dispatch that came to nothing: each agent was asked once from the cursor on and none
      accepted, and preemption was hopeless on every full one. */
  ghost predicate RefusedByAll(env: Env, s: Sched, s': Sched, store: map<JobName, int>, job: Job, states: seq<Sched>) {
    && NoneOf(env, s.requests, |s.agents|)
    && AllHopeless(env, states, store, job, FullAgents(env, s))
    && states[0] == s.(roundRobin := s.roundRobin + |s.agents|, requests := s.requests + |s.agents|)
    && states[|states| - 1] == s'
  }

  /** And so it is, whenever a dispatch fails. */
  lemma FailsOnlyIfRefusedByAll(env: Env, s: Sched, store: map<JobName, int>, job: Job) returns (states: seq<Sched>)
    requires Lists(env) && !DispatchOne(env, s, store, job).1
    ensures RefusedByAll(env, s, DispatchOne(env, s, store, job).0, store, job, states)
  {
    var n := |s.agents|;
    if s.agents == [] {
      states := [s];
    } else {
      var (s1, r) := FirstPass(env, s, job.name, n, []);
      FirstPassIff(env, s, job.name, n, []);
      FirstPassAsksInOrder(env, s, job.name, n, []);
      assert Reported(r) == FullAgents(env, s);
      states := SecondPassTries(env, s1, store, job, Reported(r));
      assert Reported(r)[..|states| - 1] == Reported(r);
    }
  }

  /** A dispatch succeeds as soon as one agent of the round accepts. */
  lemma SucceedsIfAnyAccepts(env: Env, s: Sched, store: map<JobName, int>, job: Job)
    requires s.agents != [] && !NoneOf(env, s.requests, |s.agents|)
    ensures DispatchOne(env, s, store, job).1
  {
    FirstPassIff(env, s, job.name, |s.agents|, []);
  }

  ghost predicate AcceptsAll(env: Env) {
    forall k :: env.answer(k).Accepted?
  }

  // ---- one turn ----

  lemma {:induction false} DispatchesFill(env: Env, s: Sched, store: map<JobName, int>, job: Job, n: nat)
    returns (g: Sched, states: seq<Sched>)
    requires Lists(env) && Distinct(s.agents) && (job.name in store ==> store[job.name] <= job.prio)
    ensures var s' := Dispatches(env, s, store, job, n);
            var total, before := Total(s'.placed, s.agents, job.name), Total(s.placed, s.agents, job.name);
            || total == before + n
            || (total < before + n && g.agents == s.agents && RefusedByAll(env, g, s', store, job, states))
    decreases n
  {
    g, states := s, [];
    if n > 0 {
      var (s', ok) := DispatchOne(env, s, store, job);
      DispatchEffect(env, s, store, job);
      if ok {
        var a :| a in s.agents && GainsOne(s.placed, s'.placed, a, job.name);
        TotalGainsOne(s.placed, s'.placed, s.agents, a, job.name);
        g, states := DispatchesFill(env, s', store, job, n - 1);
      } else {
        TotalSame(s.placed, s'.placed, s.agents, job.name);
        states := FailsOnlyIfRefusedByAll(env, s, store, job);
      }
    }
  }

  /** The turn of a job that nobody has claimed ends with the larger of what it had and
      what is desired, unless a dispatch was refused by all. */
  lemma FilledUnlessRefused(env: Env, s: Sched, store: map<JobName, int>, job: Job)
    returns (g: Sched, states: seq<Sched>)
    requires Lists(env) && Distinct(s.agents) && (job.name in store ==> store[job.name] <= job.prio)
    requires job.name != "" && job.name !in s.dispatching && job.count != DAEMON
    ensures var s' := ReconcileOne(env, s, store, job);
            var total, before := Total(s'.placed, s.agents, job.name), Total(s.placed, s.agents, job.name);
            || total == Max(before, if job.count <= 0 then 1 else job.count)
            || (total < (if job.count <= 0 then 1 else job.count)
                && g.agents == s.agents && RefusedByAll(env, g, s', store, job, states))
  {
    var total := Total(s.placed, s.agents, job.name);
    g, states := s, [];
    if total < Desired(job) {
      g, states := DispatchesFill(env, s, store, job, Desired(job) - total);
    }
  }

  /** In particular, where every request is accepted it ends with exactly that number. */
  lemma FilledWhenAccepted(env: Env, s: Sched, store: map<JobName, int>, job: Job)
    requires Lists(env) && AcceptsAll(env) && s.agents != []
    requires Distinct(s.agents) && (job.name in store ==> store[job.name] <= job.prio)
    requires job.name != "" && job.name !in s.dispatching && job.count != DAEMON
    ensures Total(ReconcileOne(env, s, store, job).placed, s.agents, job.name) ==
            Max(Total(s.placed, s.agents, job.name), if job.count <= 0 then 1 else job.count)
  {
    var g, states := FilledUnlessRefused(env, s, store, job);
    if g.agents == s.agents {
      assert env.answer(g.requests).Accepted?;
    }
  }

  lemma {:induction false} DaemonRoundAsksEach(env: Env, s: Sched, j: JobName, missing: seq<AgentId>)
    requires Distinct(missing)
    ensures var s' := DaemonRound(env, s, j, missing);
            && s'.requests == s.requests + |missing|
            && forall i | 0 <= i < |missing| ::
                 Count(s'.placed, missing[i], j) ==
                 Count(s.placed, missing[i], j) + if env.answer(s.requests + i).Accepted? then 1 else 0
    decreases |missing|
  {
    if missing != [] {
      var rest, asked := missing[1..], s.(requests := s.requests + 1);
      var next := if env.answer(s.requests).Accepted? then asked.(placed := Track(s.placed, missing[0], j)) else asked;
      DaemonRoundAsksEach(env, next, j, rest);
      DaemonEffect(env, next, j, rest);
      var end := DaemonRound(env, s, j, missing);
      forall i | 0 <= i < |missing|
        ensures Count(end.placed, missing[i], j) ==
                Count(s.placed, missing[i], j) + if env.answer(s.requests + i).Accepted? then 1 else 0
      {
        if i > 0 {
          assert missing[i] == rest[i - 1] && missing[i] != missing[0];
          assert Count(next.placed, missing[i], j) == Count(s.placed, missing[i], j);
        } else {
          assert missing[0] !in rest && end == DaemonRound(env, next, j, rest);
        }
      }
    }
  }

  /** The turn of an unclaimed daemon asks every agent that has none of it, once each; those
      that accept have one afterwards, and those that had some keep what they had. */
  lemma DaemonReachesEveryAgent(env: Env, s: Sched, store: map<JobName, int>, job: Job)
    requires Distinct(s.agents)
    requires job.name != "" && job.name !in s.dispatching && job.count == DAEMON
    ensures var s', missing := ReconcileOne(env, s, store, job), Missing(s.placed, s.agents, job.name);
            && Distinct(missing) && (forall a :: a in missing <==> a in s.agents && Count(s.placed, a, job.name) == 0)
            && s'.requests == s.requests + |missing|
            && (forall i | 0 <= i < |missing| ::
                  Count(s'.placed, missing[i], job.name) == if env.answer(s.requests + i).Accepted? then 1 else 0)
            && (forall a | a !in missing :: Count(s'.placed, a, job.name) == Count(s.placed, a, job.name))
  {
    var missing := Missing(s.placed, s.agents, job.name);
    MissingOnes(s.placed, s.agents, job.name);
    DaemonRoundAsksEach(env, s, job.name, missing);
    DaemonEffect(env, s, job.name, missing);
    forall i | 0 <= i < |missing| ensures Count(s.placed, missing[i], job.name) == 0 {
      assert missing[i] in missing;
    }
  }

  // ---- a whole pass ----

  lemma {:induction false} TurnKeepsClaims(env: Env, s: Sched, store: map<JobName, int>, jobs: seq<Job>, n: nat)
    requires Distinct(s.agents) && Normalised(store, jobs) && n <= |jobs|
    ensures Turn(env, s, store, jobs, n).dispatching == s.dispatching
    ensures Turn(env, s, store, jobs, n).agents == s.agents
  {
    if n > 0 {
      TurnKeepsClaims(env, s, store, jobs, n - 1);
      TurnHasEffect(env, s, store, jobs, n - 1);
    }
  }

  /** At the end of a pass every unclaimed job has what is desired, unless one of its
      dispatches was refused by all. */
  lemma PassFillsUnlessRefused(env: Env, s: Sched, store: map<JobName, int>, jobs: seq<Job>, i: nat)
    returns (g: Sched, states: seq<Sched>)
    requires Lists(env) && Distinct(s.agents) && Normalised(store, jobs) && i < |jobs|
    requires jobs[i].name != "" && jobs[i].name !in s.dispatching && jobs[i].count != DAEMON
    ensures || Total(Turn(env, s, store, jobs, |jobs|).placed, s.agents, jobs[i].name) >= Desired(jobs[i])
            || (g.agents == s.agents
                && RefusedByAll(env, g, Turn(env, s, store, jobs, i + 1), store, jobs[i], states))
  {
    TurnKeepsClaims(env, s, store, jobs, i);
    g, states := FilledUnlessRefused(env, Turn(env, s, store, jobs, i), store, jobs[i]);
    if Total(Turn(env, s, store, jobs, i + 1).placed, s.agents, jobs[i].name) >= Desired(jobs[i]) {
      FilledStaysFilled(env, s, store, jobs, i);
    }
  }

  /** Where every request is accepted, one pass leaves every unclaimed job with what is
      desired, and every unclaimed daemon on every agent. */
  lemma PassFillsWhenAccepted(env: Env, s: Sched, store: map<JobName, int>, jobs: seq<Job>, i: nat)
    requires Lists(env) && AcceptsAll(env) && s.agents != []
    requires Distinct(s.agents) && Normalised(store, jobs) && i < |jobs|
    requires jobs[i].name != "" && jobs[i].name !in s.dispatching
    ensures var end := Turn(env, s, store, jobs, |jobs|);
            && (jobs[i].count != DAEMON ==> Total(end.placed, s.agents, jobs[i].name) >= Desired(jobs[i]))
            && (jobs[i].count == DAEMON ==> forall a | a in s.agents :: Count(end.placed, a, jobs[i].name) >= 1)
  {
    TurnKeepsClaims(env, s, store, jobs, i);
    var before, after := Turn(env, s, store, jobs, i), Turn(env, s, store, jobs, i + 1);
    if jobs[i].count != DAEMON {
      FilledWhenAccepted(env, before, store, jobs[i]);
      FilledStaysFilled(env, s, store, jobs, i);
    } else {
      DaemonReachesEveryAgent(env, before, store, jobs[i]);
      SettledAfterItsTurn(env, s, store, jobs, i, |jobs|);
      var missing := Missing(before.placed, before.agents, jobs[i].name);
      forall a | a in s.agents ensures Count(after.placed, a, jobs[i].name) >= 1 {
        if a in missing {
          var k :| 0 <= k < |missing| && missing[k] == a;
          assert env.answer(before.requests + k).Accepted?;
        }
      }
    }
  }

  /** A pass begins its round at the first agent, wherever the cursor was left. */
  lemma {:induction false} PassIgnoresCursor(env: Env, s: Sched, store: map<JobName, int>, jobs: seq<Job>, n: nat,
                                             r: nat)
    requires n <= |jobs|
    ensures Turn(env, s.(roundRobin := r), store, jobs, n) == Turn(env, s.(roundRobin := 0), store, jobs, n)
  {
    if n > 0 {
      PassIgnoresCursor(env, s, store, jobs, n - 1, r);
    } else {
      assert s.(roundRobin := r).(roundRobin := 0) == s.(roundRobin := 0);
    }
  }

  // ---- the recreate policy ----

  ghost function Holding(placed: Books, agents: seq<AgentId>, j: JobName): set<AgentId> {
    set a | a in agents && Count(placed, a, j) > 0
  }

  lemma HoldingFirst(placed: Books, agents: seq<AgentId>, j: JobName)
    requires agents != [] && Distinct(agents)
    ensures agents[0] !in Holding(placed, agents[1..], j)
    ensures Holding(placed, agents, j) ==
            Holding(placed, agents[1..], j) + if Count(placed, agents[0], j) > 0 then {agents[0]} else {}
  {
    assert forall a :: a in agents <==> a == agents[0] || a in agents[1..];
  }

  lemma {:induction false} HoldersAre(placed: Books, agents: seq<AgentId>, j: JobName)
    requires Distinct(agents)
    ensures Holders(placed, agents, j) == |Holding(placed, agents, j)|
  {
    if agents == [] {
      assert Holding(placed, agents, j) == {};
    } else {
      HoldersAre(placed, agents[1..], j);
      HoldingFirst(placed, agents, j);
    }
  }

  /** A recreate asks every holder to stop, and ends with exactly the desired number unless
      a dispatch was refused by all. */
  lemma RecreateFillsUnlessRefused(env: Env, s: Sched, store: map<JobName, int>, job: Job)
    returns (g: Sched, states: seq<Sched>)
    requires Lists(env) && Distinct(s.agents) && (job.name in store ==> store[job.name] <= job.prio)
    requires job.count != DAEMON
    ensures Cleared(s, job.name).requests == s.requests + |Holding(s.placed, s.agents, job.name)|
    ensures var end := Recreate(env, s, store, job);
            var total := Total(end.placed, s.agents, job.name);
            || total == (if job.count <= 0 then 1 else job.count)
            || (g.agents == s.agents && RefusedByAll(env, g, end, store, job, states))
  {
    HoldersAre(s.placed, s.agents, job.name);
    ClearedEffect(s, store, job);
    g, states := DispatchesFill(env, Cleared(s, job.name), store, job, Desired(job));
  }

  /** A daemon is recreated on every agent that accepts. */
  lemma RecreateReachesEveryAgent(env: Env, s: Sched, store: map<JobName, int>, job: Job)
    requires AcceptsAll(env) && Distinct(s.agents) && job.name != "" && job.count == DAEMON
    ensures forall a | a in s.agents :: Count(Recreate(env, s, store, job).placed, a, job.name) == 1
  {
    var cleared := Cleared(s, job.name);
    ClearedEffect(s, store, job);
    DaemonReachesEveryAgent(env, cleared, store, job);
    var missing := Missing(cleared.placed, cleared.agents, job.name);
    forall a | a in s.agents ensures Count(Recreate(env, s, store, job).placed, a, job.name) == 1 {
      var k :| 0 <= k < |missing| && missing[k] == a;
      assert env.answer(cleared.requests + k).Accepted?;
    }
  }
}
