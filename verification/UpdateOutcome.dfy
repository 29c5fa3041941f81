/** What an update as a whole leaves running, and when it completes. */
module UpdateOutcome {
  import opened Wrappers
  import opened Dispatch
  import opened Reconcile
  import opened Filling
  import opened RollingUpdate

  /** `refs` lists exactly the instances that run, each once. */
  ghost predicate Snapshot(f: Fleet, refs: seq<Ref>) {
    StillRunning(f, refs) && OnlyThese(f, refs, f.next)
  }

  // Whatever runs has an ID of `from` or later, or is listed.
  ghost predicate OnlyThese(f: Fleet, refs: seq<Ref>, from: nat) {
    f.next >= from && forall a, t | t in Tasks(f, a) :: t >= from || Ref(a, t) in refs
  }

  // ---- a snapshot agrees with the books ----

  lemma {:induction false} RefsOnAre(refs: seq<Ref>, a: AgentId, ts: set<nat>)
    requires forall i, k | 0 <= i < k < |refs| :: refs[i] != refs[k]
    requires forall t: nat :: t in ts <==> Ref(a, t) in refs
    ensures RefsOn(refs, a) == |ts|
  {
    if refs == [] {
      assert ts == {} by {
        forall t: nat ensures t !in ts {
        }
      }
    } else {
      var first, rest := refs[0], refs[1..];
      assert refs == [first] + rest && first !in rest;
      if first.agent == a {
        assert first == Ref(a, first.task);
        RefsOnAre(rest, a, ts - {first.task});
      } else {
        RefsOnAre(rest, a, ts);
      }
    }
  }

  function SumRefs(refs: seq<Ref>, agents: seq<AgentId>): nat {
    if agents == [] then 0 else RefsOn(refs, agents[0]) + SumRefs(refs, agents[1..])
  }

  lemma {:induction false} SumRefsOfFirst(refs: seq<Ref>, agents: seq<AgentId>)
    requires refs != [] && Distinct(agents)
    ensures SumRefs(refs, agents) == SumRefs(refs[1..], agents) + if refs[0].agent in agents then 1 else 0
    decreases |agents|
  {
    if agents != [] {
      assert agents == [agents[0]] + agents[1..] && agents[0] !in agents[1..];
      SumRefsOfFirst(refs, agents[1..]);
    }
  }

  lemma {:induction false} SumOfNone(agents: seq<AgentId>)
    ensures SumRefs([], agents) == 0
  {
    if agents != [] {
      SumOfNone(agents[1..]);
    }
  }

  lemma {:induction false} SumRefsAre(refs: seq<Ref>, agents: seq<AgentId>)
    requires Distinct(agents) && forall r | r in refs :: r.agent in agents
    ensures SumRefs(refs, agents) == |refs|
  {
    if refs == [] {
      SumOfNone(agents);
    } else {
      SumRefsOfFirst(refs, agents);
      SumRefsAre(refs[1..], agents);
    }
  }

  lemma {:induction false} TotalIsSum(f: Fleet, j: JobName, refs: seq<Ref>, agents: seq<AgentId>)
    requires forall a :: Count(f.s.placed, a, j) == RefsOn(refs, a)
    ensures Total(f.s.placed, agents, j) == SumRefs(refs, agents)
  {
    if agents != [] {
      TotalIsSum(f, j, refs, agents[1..]);
    }
  }

  lemma SnapshotCovers(f: Fleet, j: JobName, refs: seq<Ref>)
    requires Distinct(f.s.agents) && BooksMatch(f, j) && Snapshot(f, refs)
    ensures Covers(f, j, refs) && Size(f, j) == |refs|
  {
    forall a ensures Count(f.s.placed, a, j) == RefsOn(refs, a) {
      forall t: nat ensures t in Tasks(f, a) <==> Ref(a, t) in refs {
        if Ref(a, t) in refs {
          var i :| 0 <= i < |refs| && refs[i] == Ref(a, t);
          assert refs[i].task in Tasks(f, refs[i].agent);
        }
        assert t in Tasks(f, a) ==> t < f.next;
      }
      RefsOnAre(refs, a, Tasks(f, a));
      assert Count(f.s.placed, a, j) == |Tasks(f, a)|;
    }
    RefsKnown(f, refs);
    TotalIsSum(f, j, refs, f.s.agents);
    SumRefsAre(refs, f.s.agents);
  }

  lemma RefsKnown(f: Fleet, refs: seq<Ref>)
    requires Known(f) && StillRunning(f, refs)
    ensures forall r | r in refs :: r.agent in f.s.agents && r.task < f.next
  {
    forall r | r in refs ensures r.agent in f.s.agents && r.task < f.next {
      var i :| 0 <= i < |refs| && refs[i] == r;
      assert refs[i].task in Tasks(f, refs[i].agent);
    }
  }

  // ---- what each step leaves ----

  lemma StopOldLeaves(f: Fleet, j: JobName, ref: Ref, rest: seq<Ref>, from: nat)
    requires OnlyThese(f, [ref] + rest, from) && ref.agent in f.s.agents
    ensures OnlyThese(StopOld(f, j, ref), rest, from)
  {
    var g := StopOld(f, j, ref);
    forall a, t | t in Tasks(g, a) ensures t >= from || Ref(a, t) in rest {
      assert t in Tasks(f, a);
    }
  }

  lemma PlaceLeaves(env: Env, f: Fleet, j: JobName, refs: seq<Ref>, from: nat)
    requires OnlyThese(f, refs, from)
    ensures OnlyThese(Place(env, f, j).0, refs, from) && Place(env, f, j).0.s.agents == f.s.agents
  {
    FirstPassEffect(env, f.s, j, |f.s.agents|, []);
    var (g, r) := Place(env, f, j);
    forall a, t | t in Tasks(g, a) ensures t >= from || Ref(a, t) in refs {
      assert t in Tasks(f, a) || t == f.next;
    }
  }

  lemma RollStepLeaves(env: Env, f: Fleet, j: JobName, excess: bool, ref: Ref, rest: seq<Ref>, from: nat)
    requires OnlyThese(f, [ref] + rest, from) && ref.agent in f.s.agents
    ensures var (g, how) := RollStep(env, f, j, excess, ref);
            g.s.agents == f.s.agents && (!how.Failed? ==> OnlyThese(g, rest, from))
  {
    if excess {
      StopOldLeaves(f, j, ref, rest, from);
    } else {
      PlaceLeaves(env, f, j, [ref] + rest, from);
      var (g, r) := Place(env, f, j);
      if r.Placed? {
        StopOldLeaves(g, j, ref, rest, from);
      } else if r.AllFull? {
        var h := Swap(g.(s := g.s.(requests := g.s.requests + 1)), ref.agent);
        forall a, t | t in Tasks(h, a) ensures t >= from || Ref(a, t) in rest {
          assert a != ref.agent ==> t in Tasks(g, a);
        }
      }
    }
  }

  lemma {:induction false} RollLeaves(env: Env, f: Fleet, j: JobName, count: nat, oldTasks: seq<Ref>, i: nat)
    requires i <= |oldTasks| && Known(f) && Snapshot(f, oldTasks)
    ensures var (g, ok) := RollTo(env, f, j, count, oldTasks, i);
            g.s.agents == f.s.agents && (ok ==> OnlyThese(g, oldTasks[i..], f.next))
    decreases i
  {
    if i == 0 {
      assert oldTasks[0..] == oldTasks;
    } else {
      RollLeaves(env, f, j, count, oldTasks, i - 1);
      var (g, ok) := RollTo(env, f, j, count, oldTasks, i - 1);
      if ok {
        RefsKnown(f, oldTasks);
        assert oldTasks[i - 1] in oldTasks && oldTasks[i - 1..] == [oldTasks[i - 1]] + oldTasks[i..];
        RollStepLeaves(env, g, j, i - 1 >= count, oldTasks[i - 1], oldTasks[i..], f.next);
      }
    }
  }

  lemma {:induction false} BlueLeaves(env: Env, f: Fleet, j: JobName, n: nat, refs: seq<Ref>, from: nat)
    requires OnlyThese(f, refs, from)
    ensures var g := BlueTo(env, f, j, n).0; g.s.agents == f.s.agents && OnlyThese(g, refs, from)
    decreases n
  {
    if n > 0 {
      BlueLeaves(env, f, j, n - 1, refs, from);
      PlaceLeaves(env, BlueTo(env, f, j, n - 1).0, j, refs, from);
    }
  }

  lemma {:induction false} GreenLeaves(f: Fleet, j: JobName, oldTasks: seq<Ref>, i: nat, from: nat)
    requires i <= |oldTasks| && OnlyThese(f, oldTasks, from) && forall r | r in oldTasks :: r.agent in f.s.agents
    ensures var g := GreenTo(f, j, oldTasks, i); g.s.agents == f.s.agents && OnlyThese(g, oldTasks[i..], from)
    decreases i
  {
    if i == 0 {
      assert oldTasks[0..] == oldTasks;
    } else {
      GreenLeaves(f, j, oldTasks, i - 1, from);
      assert oldTasks[i - 1] in oldTasks && oldTasks[i - 1..] == [oldTasks[i - 1]] + oldTasks[i..];
      StopOldLeaves(GreenTo(f, j, oldTasks, i - 1), j, oldTasks[i - 1], oldTasks[i..], from);
    }
  }

  // ---- the update as a whole ----

  // Every in-place replacement of a rolling update hits an agent with one instance.
  ghost predicate SwapsOne(env: Env, policy: Policy, f: Fleet, j: JobName, desired: int, oldTasks: seq<Ref>) {
    policy.BlueGreen? || ReplacesOneEach(env, f, j, DesiredCount(desired), oldTasks, |oldTasks|)
  }

  lemma NoneOfTheOld(f: Fleet, g: Fleet, oldTasks: seq<Ref>)
    requires Known(f) && StillRunning(f, oldTasks) && OnlyThese(g, [], f.next)
    ensures forall r | r in oldTasks :: r.task !in Tasks(g, r.agent)
    ensures forall a, t | t in Tasks(g, a) :: t >= f.next
  {
    RefsKnown(f, oldTasks);
  }

  lemma Unlocked(f: Fleet, g: Fleet, j: JobName, refs: seq<Ref>, from: nat)
    requires OthersKept(f, g, j)
    ensures OthersKept(f, Unlock(g, j), j) && Size(Unlock(g, j), j) == Size(g, j)
    ensures OnlyThese(g, refs, from) ==> OnlyThese(Unlock(g, j), refs, from)
    ensures BooksMatch(g, j) ==> BooksMatch(Unlock(g, j), j)
    ensures StillRunning(g, refs) ==> StillRunning(Unlock(g, j), refs)
  {
    var h := Unlock(g, j);
    assert forall a :: Tasks(h, a) == Tasks(g, a);
    if BooksMatch(g, j) {
      Unmoved(g, h, j, []);
    }
  }

  lemma RollingOutcome(env: Env, f: Fleet, j: JobName, desired: int, oldTasks: seq<Ref>)
    requires Distinct(f.s.agents) && BooksMatch(f, j) && Snapshot(f, oldTasks)
    ensures var (g, ok) := RollingSpec(env, f, j, desired, oldTasks);
            && OthersKept(f, g, j)
            && Size(g, j) == (if ok then Min(|oldTasks|, DesiredCount(desired)) else |oldTasks|)
            && (ok ==> OnlyThese(g, [], f.next))
            && (SwapsOne(env, Rolling, f, j, desired, oldTasks) ==> BooksMatch(g, j))
  {
    var n, count := |oldTasks|, DesiredCount(desired);
    var (g, ok) := RollTo(env, f, j, count, oldTasks, n);
    SnapshotCovers(f, j, oldTasks);
    RollingKeepsEnough(env, f, j, count, oldTasks, n);
    RollLeaves(env, f, j, count, oldTasks, n);
    assert oldTasks[n..] == [];
    Unlocked(f, g, j, [], f.next);
    if SwapsOne(env, Rolling, f, j, desired, oldTasks) {
      RollingMatches(env, f, j, count, oldTasks, n);
    }
  }

  lemma BlueGreenOutcome(env: Env, f: Fleet, j: JobName, desired: int, oldTasks: seq<Ref>)
    requires Distinct(f.s.agents) && BooksMatch(f, j) && Snapshot(f, oldTasks)
    ensures var (g, ok) := BlueGreenSpec(env, f, j, desired, oldTasks);
            && OthersKept(f, g, j) && BooksMatch(g, j)
            && (if ok then Size(g, j) == DesiredCount(desired) else Size(g, j) >= |oldTasks|)
            && (ok ==> OnlyThese(g, [], f.next))
            && (!ok ==> StillRunning(g, oldTasks))
  {
    var n, count := |oldTasks|, DesiredCount(desired);
    var (g, ok) := BlueTo(env, f, j, count);
    SnapshotCovers(f, j, oldTasks);
    BlueGreenKeepsEnough(env, f, j, count, oldTasks, n);
    BlueLeaves(env, f, j, count, oldTasks, f.next);
    if ok {
      RefsKnown(f, oldTasks);
      GreenLeaves(g, j, oldTasks, n, f.next);
      assert oldTasks[n..] == [];
      Unlocked(f, GreenTo(g, j, oldTasks, n), j, [], f.next);
    } else {
      Unlocked(f, g, j, oldTasks, f.next);
    }
  }

  /** A completed update: no old instance runs any more, exactly as many new ones do as are
      desired (or as there were old ones, if a rolling update had fewer), the books count
      them, and nothing of any other job has changed. */
  lemma CompletedMeansReplaced(env: Env, policy: Policy, f: Fleet, j: JobName, desired: int, oldTasks: seq<Ref>)
    requires Distinct(f.s.agents) && BooksMatch(f, j) && Snapshot(f, oldTasks)
    requires UpdateSpec(env, policy, f, j, desired, oldTasks).1
    ensures var g := UpdateSpec(env, policy, f, j, desired, oldTasks).0;
            var count := if desired <= 0 then 1 else desired;
            && (forall r | r in oldTasks :: r.task !in Tasks(g, r.agent))
            && (forall a, t | t in Tasks(g, a) :: t >= f.next)
            && Size(g, j) == (if policy.BlueGreen? then count else Min(|oldTasks|, count))
            && (SwapsOne(env, policy, f, j, desired, oldTasks) ==> BooksMatch(g, j))
            && OthersKept(f, g, j)
  {
    if policy.BlueGreen? {
      BlueGreenOutcome(env, f, j, desired, oldTasks);
    } else {
      RollingOutcome(env, f, j, desired, oldTasks);
    }
    NoneOfTheOld(f, UpdateSpec(env, policy, f, j, desired, oldTasks).0, oldTasks);
  }

  /** An aborted one: the job has no fewer instances than before, the books still count
      them, and for blue-green all old ones run. */
  lemma AbortedMeansNoFewer(env: Env, policy: Policy, f: Fleet, j: JobName, desired: int, oldTasks: seq<Ref>)
    requires Distinct(f.s.agents) && BooksMatch(f, j) && Snapshot(f, oldTasks)
    requires !UpdateSpec(env, policy, f, j, desired, oldTasks).1
    ensures var g := UpdateSpec(env, policy, f, j, desired, oldTasks).0;
            && Size(g, j) >= |oldTasks| && OthersKept(f, g, j)
            && (SwapsOne(env, policy, f, j, desired, oldTasks) ==> BooksMatch(g, j))
            && (policy.BlueGreen? ==> StillRunning(g, oldTasks))
  {
    if policy.BlueGreen? {
      BlueGreenOutcome(env, f, j, desired, oldTasks);
    } else {
      RollingOutcome(env, f, j, desired, oldTasks);
    }
  }

  // ---- when it completes ----

  lemma PlaceFails(env: Env, f: Fleet, j: JobName)
    ensures Place(env, f, j).0.s.agents == f.s.agents
    ensures !Place(env, f, j).1.Placed? ==> NoneOf(env, f.s.requests, |f.s.agents|)
  {
    FirstPassEffect(env, f.s, j, |f.s.agents|, []);
    if f.s.agents != [] {
      FirstPassIff(env, f.s, j, |f.s.agents|, []);
    }
  }

  lemma RollStepFails(env: Env, f: Fleet, j: JobName, excess: bool, ref: Ref)
    ensures RollStep(env, f, j, excess, ref).0.s.agents == f.s.agents
    ensures RollStep(env, f, j, excess, ref).1.Failed? ==> !excess && RefusedInPlace(env, f.s, ref)
  {
    PlaceFails(env, f, j);
    if f.s.agents != [] && !Place(env, f, j).1.Placed? {
      FirstPassIff(env, f.s, j, |f.s.agents|, []);
      FirstPassAsksInOrder(env, f.s, j, |f.s.agents|, []);
      assert Reported(Place(env, f, j).1) == FullAgents(env, f.s);
    }
  }

  // No agent accepted a successor beside the old instance, and if one was full, then the
  // old one's agent, if registered, refused to swap it in place as well.
  predicate RefusedInPlace(env: Env, s: Sched, ref: Ref) {
    && NoneOf(env, s.requests, |s.agents|)
    && (FullAgents(env, s) != [] && ref.agent in s.agents ==> !env.answer(s.requests + |s.agents|).Accepted?)
  }

  lemma {:induction false} RollFails(env: Env, f: Fleet, j: JobName, count: nat, oldTasks: seq<Ref>, i: nat)
    returns (s: Sched, k: nat)
    requires i <= |oldTasks|
    ensures RollTo(env, f, j, count, oldTasks, i).0.s.agents == f.s.agents
    ensures !RollTo(env, f, j, count, oldTasks, i).1 ==>
              s.agents == f.s.agents && k < i && k < count && RefusedInPlace(env, s, oldTasks[k])
    decreases i
  {
    s, k := f.s, 0;
    if i > 0 {
      s, k := RollFails(env, f, j, count, oldTasks, i - 1);
      var (g, ok) := RollTo(env, f, j, count, oldTasks, i - 1);
      if ok {
        RollStepFails(env, g, j, i - 1 >= count, oldTasks[i - 1]);
        s, k := g.s, i - 1;
      }
    }
  }

  lemma {:induction false} BlueFails(env: Env, f: Fleet, j: JobName, n: nat) returns (s: Sched)
    ensures BlueTo(env, f, j, n).0.s.agents == f.s.agents
    ensures !BlueTo(env, f, j, n).1 ==> s.agents == f.s.agents && NoneOf(env, s.requests, |s.agents|)
    decreases n
  {
    s := f.s;
    if n > 0 {
      s := BlueFails(env, f, j, n - 1);
      var (g, ok) := BlueTo(env, f, j, n - 1);
      if ok {
        PlaceFails(env, g, j);
        s := g.s;
      }
    }
  }

  /** An update is aborted only after a whole round of agents has refused an instance; a
      rolling one only if in-place replacement was refused too, where it was to be tried. */
  lemma AbortsOnlyIfAllRefuse(env: Env, policy: Policy, f: Fleet, j: JobName, desired: int, oldTasks: seq<Ref>)
    returns (s: Sched, k: nat)
    requires !UpdateSpec(env, policy, f, j, desired, oldTasks).1
    ensures s.agents == f.s.agents && NoneOf(env, s.requests, |s.agents|)
    ensures !policy.BlueGreen? ==> k < |oldTasks| && RefusedInPlace(env, s, oldTasks[k])
  {
    if policy.BlueGreen? {
      s := BlueFails(env, f, j, DesiredCount(desired));
      k := 0;
    } else {
      s, k := RollFails(env, f, j, DesiredCount(desired), oldTasks, |oldTasks|);
    }
  }

  lemma SomeoneAccepts(env: Env, s: Sched)
    requires AcceptsAll(env) && s.agents != []
    ensures !NoneOf(env, s.requests, |s.agents|)
  {
    assert env.answer(s.requests).Accepted?;
  }

  /** Where every request is accepted it completes, replaces nothing in place, and leaves
      the books equal to what runs. */
  lemma CompletesWhenAccepted(env: Env, policy: Policy, f: Fleet, j: JobName, desired: int, oldTasks: seq<Ref>)
    requires AcceptsAll(env) && f.s.agents != []
    requires Distinct(f.s.agents) && BooksMatch(f, j) && Snapshot(f, oldTasks)
    ensures UpdateSpec(env, policy, f, j, desired, oldTasks).1 && SwapsOne(env, policy, f, j, desired, oldTasks)
    ensures BooksMatch(UpdateSpec(env, policy, f, j, desired, oldTasks).0, j)
  {
    if !UpdateSpec(env, policy, f, j, desired, oldTasks).1 {
      var s, _ := AbortsOnlyIfAllRefuse(env, policy, f, j, desired, oldTasks);
      SomeoneAccepts(env, s);
    }
    var count := DesiredCount(desired);
    forall k | 0 <= k < |oldTasks| ensures ReplacesOneAt(env, f, j, count, oldTasks, k) {
      var _, _ := RollFails(env, f, j, count, oldTasks, k);
      var g := RollTo(env, f, j, count, oldTasks, k).0;
      PlaceFails(env, g, j);
      SomeoneAccepts(env, g.s);
    }
    CompletedMeansReplaced(env, policy, f, j, desired, oldTasks);
  }
}
