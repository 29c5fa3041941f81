/** The leader's state as an object: round-robin cursor, books, per-job claims. Every
    method is proved against the function of the state that `Dispatch` and
    `Reconcile` reason about. */
module LeaderState {
  import opened Wrappers
  import opened Dispatch
  import opened Reconcile
  import opened Trim
  import P = Priorities

  // A claim on the job neither steers a dispatch nor is changed by one.

  lemma {:induction false} FirstPassIgnoresClaims(env: Env, s: Sched, j: JobName, n: nat, full: seq<AgentId>,
                                                 claims: set<JobName>)
    ensures var (s', r) := FirstPass(env, s, j, n, full);
            FirstPass(env, s.(dispatching := claims), j, n, full) == (s'.(dispatching := claims), r)
    decreases n
  {
    if n > 0 && s.agents != [] {
      var asked := s.(roundRobin := s.roundRobin + 1, requests := s.requests + 1);
      var a := s.agents[s.roundRobin % |s.agents|];
      var full' := if env.answer(s.requests).NoCapacity? then full + [a] else full;
      FirstPassIgnoresClaims(env, asked, j, n - 1, full', claims);
    }
  }

  lemma {:induction false} SecondPassIgnoresClaims(env: Env, s: Sched, store: map<JobName, int>, job: Job,
                                                  full: seq<AgentId>, claims: set<JobName>)
    ensures var (s', ok) := SecondPass(env, s, store, job, full);
            SecondPass(env, s.(dispatching := claims), store, job, full) == (s'.(dispatching := claims), ok)
    decreases |full|
  {
    if full != [] {
      match VictimOf(env, s.requests, s.placed, store, full[0], job.prio)
      case None => SecondPassIgnoresClaims(env, s, store, job, full[1..], claims);
      case Some(v) =>
        SecondPassIgnoresClaims(env, s.(requests := s.requests + 1), store, job, full[1..], claims);
        SecondPassIgnoresClaims(env, s.(placed := Forget(s.placed, full[0], v), requests := s.requests + 2),
                                store, job, full[1..], claims);
    }
  }

  lemma DispatchIgnoresClaims(env: Env, s: Sched, store: map<JobName, int>, job: Job, claims: set<JobName>)
    ensures var (s', ok) := DispatchOne(env, s, store, job);
            DispatchOne(env, s.(dispatching := claims), store, job) == (s'.(dispatching := claims), ok)
  {
    FirstPassIgnoresClaims(env, s, job.name, |s.agents|, [], claims);
    var (s', r) := FirstPass(env, s, job.name, |s.agents|, []);
    if r.AllFull? {
      SecondPassIgnoresClaims(env, s', store, job, r.full, claims);
    }
  }

  lemma {:induction false} DispatchesKeepClaims(env: Env, s: Sched, store: map<JobName, int>, job: Job, n: nat)
    ensures Dispatches(env, s, store, job, n).dispatching == s.dispatching
    decreases n
  {
    if n > 0 {
      DispatchIgnoresClaims(env, s, store, job, s.dispatching);
      var (s', ok) := DispatchOne(env, s, store, job);
      assert s.(dispatching := s.dispatching) == s;
      if ok {
        DispatchesKeepClaims(env, s', store, job, n - 1);
      }
    }
  }

  lemma {:induction false} DispatchesIgnoreClaims(env: Env, s: Sched, store: map<JobName, int>, job: Job, n: nat,
                                                 claims: set<JobName>)
    ensures Dispatches(env, s.(dispatching := claims), store, job, n) ==
            Dispatches(env, s, store, job, n).(dispatching := claims)
    decreases n
  {
    if n > 0 {
      DispatchIgnoresClaims(env, s, store, job, claims);
      var (s', ok) := DispatchOne(env, s, store, job);
      if ok {
        DispatchesIgnoreClaims(env, s', store, job, n - 1, claims);
      }
    }
  }

  lemma {:induction false} DaemonRoundIgnoresClaims(env: Env, s: Sched, j: JobName, missing: seq<AgentId>,
                                                    claims: set<JobName>)
    ensures DaemonRound(env, s.(dispatching := claims), j, missing) ==
            DaemonRound(env, s, j, missing).(dispatching := claims)
    ensures DaemonRound(env, s, j, missing).dispatching == s.dispatching
    decreases |missing|
  {
    if missing != [] {
      var asked := s.(requests := s.requests + 1);
      var after := if env.answer(s.requests).Accepted? then asked.(placed := Track(s.placed, missing[0], j)) else asked;
      DaemonRoundIgnoresClaims(env, after, j, missing[1..], claims);
    }
  }

  // ---- the cached agent list ----

  ghost predicate Ordered(names: seq<AgentId>) {
    forall i, k | 0 <= i < k < |names| :: P.NameLess(names[i], names[k])
  }

  function InsertName(a: AgentId, names: seq<AgentId>): (r: seq<AgentId>)
    ensures forall x :: x in r <==> x == a || x in names
  {
    if names == [] || P.NameLess(a, names[0]) then [a] + names
    else
      assert names == [names[0]] + names[1..];
      [names[0]] + InsertName(a, names[1..])
  }

  lemma {:induction false} InsertKeepsOrder(a: AgentId, names: seq<AgentId>)
    requires Ordered(names) && a !in names
    ensures Ordered(InsertName(a, names))
    decreases |names|
  {
    if names != [] {
      P.NameOrder(a, names[0]);
      var rest := names[1..];
      if P.NameLess(a, names[0]) {
        forall k | 0 < k < |names| ensures P.NameLess(a, names[k]) {
          P.NameTransitive(a, names[0], names[k]);
        }
      } else {
        assert names == [names[0]] + rest;
        InsertKeepsOrder(a, rest);
        var r := InsertName(a, rest);
        forall k | 0 <= k < |r| ensures P.NameLess(names[0], r[k]) {
          assert r[k] == a || r[k] in rest;
        }
      }
    }
  }

  /** The cached list is determined by the set of agents, and lists none twice: it is what
      the round and the totals take it to be. */
  lemma {:induction false} OrderedListIsUnique(a: seq<AgentId>, b: seq<AgentId>)
    requires Ordered(a) && Ordered(b) && forall x :: x in a <==> x in b
    ensures a == b && Distinct(a)
    decreases |a|
  {
    forall x ensures !P.NameLess(x, x) {
      P.NameOrder(x, x);
    }
    if a == [] {
      if b != [] {
        HasAName(b);
      }
    } else {
      SameFirst(a, b);
      forall x ensures x in a[1..] <==> x in b[1..] {
        assert x in a <==> x == a[0] || x in a[1..];
        assert x in b <==> x == b[0] || x in b[1..];
      }
      OrderedListIsUnique(a[1..], b[1..]);
      assert a == [a[0]] + a[1..] && b == [b[0]] + b[1..];
    }
  }

  lemma HasAName(names: seq<AgentId>)
    requires names != []
    ensures exists x :: x in names
  {
    assert names[0] in names;
  }

  lemma SameFirst(a: seq<AgentId>, b: seq<AgentId>)
    requires Ordered(a) && Ordered(b) && a != [] && forall x :: x in a <==> x in b
    ensures b != [] && a[0] == b[0] && a[0] !in a[1..] && b[0] !in b[1..]
  {
    assert a[0] in b;
    P.NameOrder(a[0], b[0]);
    assert b[0] in a;
    P.NameOrder(a[0], a[0]);
    P.NameOrder(b[0], b[0]);
  }

  class Leader {
    var agents: set<AgentId>
    var agentsSorted: seq<AgentId>
    var placed: Books
    var roundRobin: nat
    var dispatching: set<JobName>
    var requests: nat

    ghost function View(): Sched
      reads this
    {
      Sched(agentsSorted, placed, roundRobin, dispatching, requests)
    }

    ghost predicate Registered()
      reads this
    {
      Ordered(agentsSorted) && forall a :: a in agentsSorted <==> a in agents
    }

    constructor ()
      ensures Registered() && View() == Sched([], map[], 0, {}, 0)
    {
      agents, agentsSorted, placed, roundRobin, dispatching, requests := {}, [], map[], 0, {}, 0;
    }

    method RebuildSortedAgents()
      modifies this`agentsSorted
      ensures Registered()
    {
      agentsSorted := [];
      var left := agents;
      while left != {}
        invariant left <= agents && Ordered(agentsSorted)
        invariant forall a :: a in agentsSorted <==> a in agents && a !in left
        decreases |left|
      {
        var a :| a in left;
        left := left - {a};
        InsertKeepsOrder(a, agentsSorted);
        agentsSorted := InsertName(a, agentsSorted);
      }
    }

    /** A (re)starting agent: what the books had for it is replaced by what it reports. A
        live agent under the same name at another endpoint is `taken`, and nothing
        changes. */
    method RegisterAgent(a: AgentId, taken: bool, reported: Option<map<JobName, nat>>) returns (ok: bool)
      requires Registered()
      modifies this`agents, this`agentsSorted, this`placed
      ensures Registered() && ok == !taken
      ensures !ok ==> agents == old(agents) && placed == old(placed) && agentsSorted == old(agentsSorted)
      ensures ok ==> agents == old(agents) + {a}
      ensures ok ==>
                forall j :: Count(placed, a, j) ==
                          if reported.Some? && j in reported.value then reported.value[j] else 0
      ensures forall b, j | b != a :: Count(placed, b, j) == Count(old(placed), b, j)
    {
      if taken {
        return false;
      }
      agents := agents + {a};
      placed := placed - {a};
      if reported.Some? {
        placed := placed[a := reported.value];
      }
      RebuildSortedAgents();
      return true;
    }

    /** Agents without a heartbeat, or that sign off, leave the list and the books. */
    method RemoveAgents(dead: set<AgentId>)
      requires Registered()
      modifies this`agents, this`agentsSorted, this`placed
      ensures Registered() && agents == old(agents) - dead
      ensures forall a, j :: Count(placed, a, j) == if a in dead then 0 else Count(old(placed), a, j)
    {
      agents := agents - dead;
      placed := placed - dead;
      RebuildSortedAgents();
    }

    method NextAgent() returns (a: Option<AgentId>)
      modifies this`roundRobin
      ensures agentsSorted == [] ==> a.None? && roundRobin == old(roundRobin)
      ensures agentsSorted != [] ==>
                a == Some(agentsSorted[old(roundRobin) % |agentsSorted|]) && roundRobin == old(roundRobin) + 1
    {
      if |agentsSorted| == 0 {
        return None;
      }
      var idx := roundRobin % |agentsSorted|;
      roundRobin := roundRobin + 1;
      return Some(agentsSorted[idx]);
    }

    /** Nobody is asked to run a job except under the job's claim. */
    method SendJob(env: Env, j: JobName) returns (answer: Answer)
      requires j in dispatching
      modifies this`requests
      ensures answer == env.answer(old(requests)) && requests == old(requests) + 1
    {
      answer := env.answer(requests);
      requests := requests + 1;
    }

    method TrackPlacement(a: AgentId, j: JobName)
      modifies this`placed
      ensures GainsOne(old(placed), placed, a, j)
      ensures forall i | i != j :: Same(old(placed), placed, i)
      ensures placed == Track(old(placed), a, j)
    {
      if a !in placed {
        placed := placed[a := map[]];
      }
      var row := placed[a];
      row := row[j := (if j in row then row[j] else 0) + 1];
      placed := placed[a := row];
      assert placed == Track(old(placed), a, j);
    }

    /** A hand-back is booked off, never below zero. */
    method MarkUnplaced(a: AgentId, j: JobName)
      modifies this`placed
      ensures Count(placed, a, j) == if Count(old(placed), a, j) == 0 then 0 else Count(old(placed), a, j) - 1
      ensures forall b, i | b != a || i != j :: Count(placed, b, i) == Count(old(placed), b, i)
      ensures placed == Untrack(old(placed), a, j)
    {
      if a in placed && j in placed[a] && placed[a][j] > 0 {
        var row := placed[a];
        row := row[j := row[j] - 1];
        placed := placed[a := row];
      }
    }

    /** The least important job on the agent that is strictly less important than the
        newcomer, if there is one. */
    method FindVictim(env: Env, store: map<JobName, int>, a: AgentId, prio: int) returns (victim: Option<JobName>)
      ensures victim == VictimOf(env, requests, placed, store, a, prio)
      ensures (forall u | u in Row(placed, a) :: u in env.order(requests, Row(placed, a))) ==>
                IsVictimChoice(placed, store, a, prio, victim)
    {
      victim := None;
      var worst := prio;
      var order := env.order(requests, Row(placed, a));
      var i := 0;
      while i < |order|
        invariant 0 <= i <= |order|
        invariant VictimOf(env, requests, placed, store, a, prio) == Scan(placed, store, a, order[i..], worst, victim)
      {
        var u := order[i];
        assert order[i..][1..] == order[i + 1..];
        if Count(placed, a, u) > 0 && u in store && store[u] > worst {
          victim := Some(u);
          worst := store[u];
        }
        i := i + 1;
      }
      if forall u | u in Row(placed, a) :: u in order {
        VictimIsLeastImportant(env, requests, placed, store, a, prio);
      }
    }

    /** One pass over the agents; `full` lists those without capacity. */
    method AskEveryAgent(env: Env, j: JobName) returns (ok: bool, full: seq<AgentId>)
      requires j in dispatching
      modifies this`placed, this`roundRobin, this`requests
      ensures View() == FirstPass(env, old(View()), j, |old(agentsSorted)|, []).0
      ensures ok == FirstPass(env, old(View()), j, |old(agentsSorted)|, []).1.Placed?
      ensures !ok ==> full == Reported(FirstPass(env, old(View()), j, |old(agentsSorted)|, []).1)
      ensures FirstPass(env, old(View()), j, |old(agentsSorted)|, []).1.AllFull? == (!ok && full != [])
    {
      full := [];
      var n, i := |agentsSorted|, 0;
      while i < n
        invariant 0 <= i <= n == |agentsSorted|
        invariant FirstPass(env, old(View()), j, n, []) == FirstPass(env, View(), j, n - i, full)
        decreases n - i
      {
        var a := NextAgent();
        if a.None? {
          break;
        }
        var answer := SendJob(env, j);
        if answer.Accepted? {
          TrackPlacement(a.value, j);
          return true, [];
        }
        if answer.NoCapacity? {
          full := full + [a.value];
        }
        i := i + 1;
      }
      ok := false;
    }

    /** Preemption, on the agents that were full only. */
    method Preempt(env: Env, store: map<JobName, int>, job: Job, full: seq<AgentId>) returns (ok: bool)
      requires job.name in dispatching
      modifies this`placed, this`requests
      ensures (View(), ok) == SecondPass(env, old(View()), store, job, full)
    {
      var i := 0;
      while i < |full|
        invariant 0 <= i <= |full|
        invariant SecondPass(env, old(View()), store, job, full) == SecondPass(env, View(), store, job, full[i..])
      {
        var a := full[i];
        assert full[i..][1..] == full[i + 1..];
        i := i + 1;
        var victim := FindVictim(env, store, a, job.prio);
        if victim.None? {
          continue;
        }
        var stopped := env.stopOk(requests);
        requests := requests + 1;
        if !stopped {
          continue;
        }
        if a in placed {
          placed := placed[a := placed[a] - {victim.value}];
        }
        var answer := SendJob(env, job.name);
        if answer.Accepted? {
          TrackPlacement(a, job.name);
          return true;
        }
      }
      ok := false;
    }

    method DispatchJob(env: Env, store: map<JobName, int>, job: Job, allowPreempt: bool)
      returns (ok: bool, noCapacity: bool)
      requires job.name in dispatching
      modifies this`placed, this`roundRobin, this`requests
      ensures allowPreempt ==> (View(), ok) == DispatchOne(env, old(View()), store, job)
      ensures !allowPreempt ==>
                var (s', r) := FirstPass(env, old(View()), job.name, |old(agentsSorted)|, []);
                View() == s' && ok == r.Placed? && noCapacity == r.AllFull?
    {
      if |agentsSorted| == 0 {
        return false, false;
      }
      var full;
      ok, full := AskEveryAgent(env, job.name);
      noCapacity := !ok && |full| > 0;
      if ok || !allowPreempt {
        return;
      }
      ok := Preempt(env, store, job, full);
    }

    /** At most `count` dispatches under the job's claim; nothing when it is taken. */
    method DispatchInstances(env: Env, store: map<JobName, int>, job: Job, count: nat)
      modifies this
      ensures job.name in old(dispatching) ==> View() == old(View())
      ensures job.name !in old(dispatching) ==>
                View() == Dispatches(env, old(View()), store, job, if count == 0 then 1 else count)
    {
      if job.name in dispatching {
        return;
      }
      var n, i := if count == 0 then 1 else count, 0;
      dispatching := dispatching + {job.name};
      ghost var claimed := View();
      DispatchesIgnoreClaims(env, old(View()), store, job, n, dispatching);
      DispatchesKeepClaims(env, old(View()), store, job, n);
      while i < n
        invariant 0 <= i <= n
        invariant View().dispatching == claimed.dispatching
        invariant Dispatches(env, claimed, store, job, n) == Dispatches(env, View(), store, job, n - i)
      {
        ghost var before := View();
        DispatchIgnoresClaims(env, before, store, job, before.dispatching);
        var ok, _ := DispatchJob(env, store, job, true);
        assert before.(dispatching := before.dispatching) == before;
        if !ok {
          break;
        }
        i := i + 1;
      }
      assert View() == Dispatches(env, claimed, store, job, n);
      dispatching := dispatching - {job.name};
      assert dispatching == old(dispatching);
    }

    /** A daemon's turn: under the claim, every agent that has none of it is asked once. */
    method ReconcileDaemon(env: Env, j: JobName)
      requires j !in dispatching
      modifies this
      ensures View() == DaemonRound(env, old(View()), j, Missing(old(placed), old(agentsSorted), j))
    {
      dispatching := dispatching + {j};
      var need := MissingAgents(j);
      AskEach(env, j, need);
      DaemonRoundIgnoresClaims(env, old(View()), j, need, dispatching);
      dispatching := dispatching - {j};
      assert dispatching == old(dispatching);
    }

    method AskEach(env: Env, j: JobName, need: seq<AgentId>)
      requires j in dispatching
      modifies this`requests, this`placed
      ensures View() == DaemonRound(env, old(View()), j, need)
    {
      for i := 0 to |need|
        invariant DaemonRound(env, old(View()), j, need) == DaemonRound(env, View(), j, need[i..])
      {
        assert need[i..][1..] == need[i + 1..];
        var answer := SendJob(env, j);
        if answer.Accepted? {
          TrackPlacement(need[i], j);
        }
      }
    }

    method MissingAgents(j: JobName) returns (need: seq<AgentId>)
      ensures need == Missing(placed, agentsSorted, j)
    {
      need := [];
      var i := 0;
      while i < |agentsSorted|
        invariant 0 <= i <= |agentsSorted|
        invariant need + Missing(placed, agentsSorted[i..], j) == Missing(placed, agentsSorted, j)
      {
        assert agentsSorted[i..][1..] == agentsSorted[i + 1..];
        if Count(placed, agentsSorted[i], j) == 0 {
          need := need + [agentsSorted[i]];
        }
        i := i + 1;
      }
    }

    method TotalPlaced(rows: seq<AgentId>, j: JobName) returns (total: nat)
      ensures total == Total(placed, rows, j)
    {
      total := 0;
      var i := 0;
      while i < |rows|
        invariant 0 <= i <= |rows|
        invariant total + Total(placed, rows[i..], j) == Total(placed, rows, j)
      {
        assert rows[i..][1..] == rows[i + 1..];
        total := total + Count(placed, rows[i], j);
        i := i + 1;
      }
    }

    method ReconcileJob(env: Env, store: map<JobName, int>, job: Job)
      requires job.name != ""
      modifies this
      ensures View() == ReconcileOne(env, old(View()), store, job)
    {
      if job.name in dispatching {
        return;
      }
      if job.count == DAEMON {
        ReconcileDaemon(env, job.name);
        return;
      }
      var desired := if job.count <= 0 then 1 else job.count;
      var total := TotalPlaced(agentsSorted, job.name);
      if total < desired {
        DispatchInstances(env, store, job, desired - total);
      }
    }

    /** A whole pass over the (normalised) jobs. */
    method ReconcileJobs(env: Env, store: map<JobName, int>, jobs: seq<Job>)
      modifies this
      ensures View() ==
                if jobs == [] || old(agentsSorted) == [] then old(View())
                else Turn(env, old(View()), store, jobs, |jobs|)
    {
      if |jobs| == 0 || |agentsSorted| == 0 {
        return;
      }
      roundRobin := 0;
      for i := 0 to |jobs|
        invariant View() == Turn(env, old(View()), store, jobs, i)
      {
        if jobs[i].name != "" {
          ReconcileJob(env, store, jobs[i]);
        }
      }
    }

    // Asks every agent that holds the job to stop it.
    method StopEverywhere(j: JobName)
      modifies this`requests
      ensures requests == old(requests) + Holders(placed, agentsSorted, j)
    {
      for i := 0 to |agentsSorted|
        invariant requests + Holders(placed, agentsSorted[i..], j) == old(requests) + Holders(placed, agentsSorted, j)
      {
        assert agentsSorted[i..][1..] == agentsSorted[i + 1..];
        if Count(placed, agentsSorted[i], j) > 0 {
          requests := requests + 1;
        }
      }
    }

    // Takes the job out of every row that counts it.
    method ForgetEverywhere(j: JobName)
      modifies this`placed
      ensures placed == ForgetAll(old(placed), j)
    {
      var left := placed.Keys;
      ghost var before := placed;
      while left != {}
        invariant left <= before.Keys == placed.Keys
        invariant forall a | a in placed :: placed[a] == if a in left then before[a] else ForgetAll(before, j)[a]
        decreases |left|
      {
        var a :| a in left;
        left := left - {a};
        if Count(placed, a, j) > 0 {
          placed := placed[a := placed[a] - {j}];
        }
      }
      assert placed == ForgetAll(before, j);
    }

    /** The recreate update of a job whose claim the caller holds; the claim is given back
        before the dispatch. */
    method UpdateRecreate(env: Env, store: map<JobName, int>, job: Job)
      requires job.name != ""
      modifies this
      ensures View() == Recreate(env, old(View()), store, job)
    {
      StopEverywhere(job.name);
      ForgetEverywhere(job.name);
      dispatching := dispatching - {job.name};
      if job.count == DAEMON {
        ReconcileJob(env, store, job);
      } else {
        DispatchInstances(env, store, job, if job.count <= 0 then 0 else job.count);
      }
    }

    method IsRedundant(rows: seq<AgentId>, counts: map<JobName, int>, a: AgentId, j: JobName) returns (r: bool)
      ensures r == Redundant(placed, rows, counts, a, j)
    {
      var onAgent := Count(placed, a, j);
      if onAgent <= 0 || j !in counts || counts[j] == DAEMON {
        return false;
      }
      var desired := if counts[j] <= 0 then 1 else counts[j];
      var total := TotalPlaced(rows, j);
      return total >= desired + onAgent;
    }

    method SurplusOn(rows: seq<AgentId>, counts: map<JobName, int>, a: AgentId) returns (redundant: set<JobName>)
      ensures redundant == Surplus(placed, rows, counts, a)
    {
      redundant := {};
      var left := if a in placed then placed[a].Keys else {};
      while left != {}
        invariant left <= Row(placed, a)
        invariant forall j :: j in redundant <==>
                  j in Row(placed, a) && j !in left && Redundant(placed, rows, counts, a, j)
        decreases |left|
      {
        var j :| j in left;
        left := left - {j};
        var r := IsRedundant(rows, counts, a, j);
        if r {
          redundant := redundant + {j};
        }
      }
    }

    /** Drops the jobs of a returning agent that the rest of the cluster covers. */
    method TrimReturningAgentSurplus(rows: seq<AgentId>, counts: map<JobName, int>, a: AgentId)
      returns (redundant: set<JobName>)
      modifies this`placed
      ensures redundant == Surplus(old(placed), rows, counts, a)
      ensures placed == Drop(old(placed), a, redundant)
    {
      redundant := SurplusOn(rows, counts, a);
      if a in placed {
        placed := placed[a := placed[a] - redundant];
      }
    }
  }
}
