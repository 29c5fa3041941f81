/** Rolling and blue-green updates of one job: the leader's books next to the tasks that
    really run on the agents. Neither update may preempt. */
module RollingUpdate {
  import opened Wrappers
  import opened Dispatch
  import opened Reconcile
  import opened LeaderState

  datatype Ref = Ref(agent: AgentId, task: nat)

  // `tasks` are the instances of the job that run; `next` is the next free task ID.
  datatype Fleet = Fleet(s: Sched, tasks: map<AgentId, set<nat>>, next: nat)

  datatype How = Moved | Replaced | Stopped | Failed

  function Tasks(f: Fleet, a: AgentId): set<nat> {
    if a in f.tasks then f.tasks[a] else {}
  }

  function Start(f: Fleet, a: AgentId): Fleet {
    f.(tasks := f.tasks[a := Tasks(f, a) + {f.next}], next := f.next + 1)
  }

  // The agent admits the successor and then stops every other task of the job it has.
  function Swap(f: Fleet, a: AgentId): Fleet {
    f.(tasks := f.tasks[a := {f.next}], next := f.next + 1)
  }

  function Place(env: Env, f: Fleet, j: JobName): (Fleet, Outcome) {
    var (s, r) := FirstPass(env, f.s, j, |f.s.agents|, []);
    (if r.Placed? then Start(f.(s := s), r.agent) else f.(s := s), r)
  }

  function StopOld(f: Fleet, j: JobName, ref: Ref): Fleet {
    if ref.agent !in f.s.agents then f
    else f.(s := f.s.(placed := Untrack(f.s.placed, ref.agent, j)),
            tasks := f.tasks[ref.agent := Tasks(f, ref.agent) - {ref.task}])
  }

  function RollStep(env: Env, f: Fleet, j: JobName, excess: bool, ref: Ref): (Fleet, How) {
    if excess then (StopOld(f, j, ref), Stopped)
    else
      var (g, r) := Place(env, f, j);
      if r.Placed? then (StopOld(g, j, ref), Moved)
      else if r.AllFull? && ref.agent in g.s.agents then
        var h := g.(s := g.s.(requests := g.s.requests + 1));
        if env.answer(g.s.requests).Accepted? then (Swap(h, ref.agent), Replaced) else (h, Failed)
      else (g, Failed)
  }

  /** The fleet after the first `i` old tasks, or where the update failed before. */
  function RollTo(env: Env, f: Fleet, j: JobName, count: nat, oldTasks: seq<Ref>, i: nat): (Fleet, bool)
    requires i <= |oldTasks|
    decreases i
  {
    if i == 0 then (f, true)
    else
      var (g, ok) := RollTo(env, f, j, count, oldTasks, i - 1);
      if !ok then (g, false)
      else var (h, how) := RollStep(env, g, j, i - 1 >= count, oldTasks[i - 1]); (h, how != Failed)
  }

  function BlueTo(env: Env, f: Fleet, j: JobName, n: nat): (Fleet, bool)
    decreases n
  {
    if n == 0 then (f, true)
    else
      var (g, ok) := BlueTo(env, f, j, n - 1);
      if !ok then (g, false) else var (h, r) := Place(env, g, j); (h, r.Placed?)
  }

  function GreenTo(f: Fleet, j: JobName, oldTasks: seq<Ref>, i: nat): Fleet
    requires i <= |oldTasks|
    decreases i
  {
    if i == 0 then f else StopOld(GreenTo(f, j, oldTasks, i - 1), j, oldTasks[i - 1])
  }

  // ---- totals ----

  function RefsOn(refs: seq<Ref>, a: AgentId): nat {
    if refs == [] then 0 else (if refs[0].agent == a then 1 else 0) + RefsOn(refs[1..], a)
  }

  // The books hold at least the old instances still to be dealt with.
  ghost predicate Covers(f: Fleet, j: JobName, refs: seq<Ref>) {
    && Distinct(f.s.agents)
    && (forall a :: Count(f.s.placed, a, j) >= RefsOn(refs, a))
    && (forall r | r in refs :: r.agent in f.s.agents)
  }

  ghost predicate OthersKept(f: Fleet, g: Fleet, j: JobName) {
    g.s.agents == f.s.agents && forall i | i != j :: Same(f.s.placed, g.s.placed, i)
  }

  function Size(f: Fleet, j: JobName): nat {
    Total(f.s.placed, f.s.agents, j)
  }

  lemma {:induction false} TotalLosesOne(before: Books, after: Books, agents: seq<AgentId>, a: AgentId, j: JobName)
    requires Distinct(agents) && a in agents && GainsOne(after, before, a, j)
    ensures Total(after, agents, j) == Total(before, agents, j) - 1
  {
    TotalGainsOne(after, before, agents, a, j);
  }

  lemma PlaceEffect(env: Env, f: Fleet, j: JobName)
    requires Distinct(f.s.agents)
    ensures var (g, r) := Place(env, f, j);
            && OthersKept(f, g, j)
            && Size(g, j) == Size(f, j) + (if r.Placed? then 1 else 0)
            && (forall a :: Count(g.s.placed, a, j) >= Count(f.s.placed, a, j))
            && (r.Placed? ==> r.agent in f.s.agents && GainsOne(f.s.placed, g.s.placed, r.agent, j))
            && (!r.Placed? ==> g.s.placed == f.s.placed && g.tasks == f.tasks && g.next == f.next)
  {
    FirstPassEffect(env, f.s, j, |f.s.agents|, []);
    var (g, r) := Place(env, f, j);
    if r.Placed? {
      TotalGainsOne(f.s.placed, g.s.placed, f.s.agents, r.agent, j);
    }
  }

  lemma StopOldEffect(f: Fleet, j: JobName, ref: Ref, rest: seq<Ref>)
    requires Covers(f, j, [ref] + rest)
    ensures OthersKept(f, StopOld(f, j, ref), j)
    ensures Size(StopOld(f, j, ref), j) == Size(f, j) - 1
    ensures Covers(StopOld(f, j, ref), j, rest)
  {
    var g, all := StopOld(f, j, ref), [ref] + rest;
    assert all[0] == ref && all[1..] == rest && ref in all;
    assert Count(f.s.placed, ref.agent, j) >= RefsOn(all, ref.agent) >= 1;
    assert GainsOne(g.s.placed, f.s.placed, ref.agent, j);
    TotalLosesOne(f.s.placed, g.s.placed, f.s.agents, ref.agent, j);
    forall a ensures Count(g.s.placed, a, j) >= RefsOn(rest, a) {
      assert Count(f.s.placed, a, j) >= RefsOn(all, a);
    }
    assert forall r :: r in rest ==> r in all;
  }

  lemma RollStepEffect(env: Env, f: Fleet, j: JobName, excess: bool, ref: Ref, rest: seq<Ref>)
    requires Covers(f, j, [ref] + rest)
    ensures var (g, how) := RollStep(env, f, j, excess, ref);
            && OthersKept(f, g, j)
            && Size(g, j) == Size(f, j) - (if excess then 1 else 0)
            && (if how.Failed? then Covers(g, j, [ref] + rest) else Covers(g, j, rest))
            && (how.Failed? ==> !excess && g.tasks == f.tasks && g.s.placed == f.s.placed)
  {
    if excess {
      StopOldEffect(f, j, ref, rest);
    } else {
      PlaceEffect(env, f, j);
      var (g, r) := Place(env, f, j);
      assert Covers(g, j, [ref] + rest) by {
        forall a ensures Count(g.s.placed, a, j) >= RefsOn([ref] + rest, a) {
          assert Count(f.s.placed, a, j) >= RefsOn([ref] + rest, a);
        }
      }
      if r.Placed? {
        StopOldEffect(g, j, ref, rest);
        var h := StopOld(g, j, ref);
        forall i | i != j ensures Same(f.s.placed, h.s.placed, i) {
          assert Same(f.s.placed, g.s.placed, i) && Same(g.s.placed, h.s.placed, i);
        }
      } else {
        CoversRest(g, j, ref, rest);
      }
    }
  }

  lemma CoversRest(f: Fleet, j: JobName, ref: Ref, rest: seq<Ref>)
    requires Covers(f, j, [ref] + rest)
    ensures Covers(f, j, rest)
  {
    var all := [ref] + rest;
    assert all[1..] == rest;
    forall a ensures Count(f.s.placed, a, j) >= RefsOn(rest, a) {
      assert Count(f.s.placed, a, j) >= RefsOn(all, a);
    }
    assert forall r :: r in rest ==> r in all;
  }

  lemma {:induction false} RollKeeps(env: Env, f: Fleet, j: JobName, count: nat, oldTasks: seq<Ref>, i: nat)
    requires i <= |oldTasks| && Covers(f, j, oldTasks)
    ensures var (g, ok) := RollTo(env, f, j, count, oldTasks, i);
            && OthersKept(f, g, j)
            && (ok ==> Covers(g, j, oldTasks[i..]) && Size(g, j) == Size(f, j) - (if i > count then i - count else 0))
            && (!ok ==> Size(g, j) == Size(f, j))
    decreases i
  {
    if i == 0 {
      assert oldTasks[0..] == oldTasks;
    } else {
      RollKeeps(env, f, j, count, oldTasks, i - 1);
      var (g, ok) := RollTo(env, f, j, count, oldTasks, i - 1);
      if ok {
        assert oldTasks[i - 1..] == [oldTasks[i - 1]] + oldTasks[i..];
        RollStepEffect(env, g, j, i - 1 >= count, oldTasks[i - 1], oldTasks[i..]);
        var (h, how) := RollStep(env, g, j, i - 1 >= count, oldTasks[i - 1]);
        forall k | k != j ensures Same(f.s.placed, h.s.placed, k) {
          assert Same(f.s.placed, g.s.placed, k) && Same(g.s.placed, h.s.placed, k);
        }
      }
    }
  }

  /** From books that hold exactly the old instances, the job's total never falls below
      the smaller of its start and what is desired, at any point of the update; a
      completed loop ends at exactly that number, a failed one leaves the total as it
      was; and no other job's placements are touched. Refs may not be reported by an
      agent the leader does not know. */
  lemma RollingKeepsEnough(env: Env, f: Fleet, j: JobName, count: nat, oldTasks: seq<Ref>, i: nat)
    requires i <= |oldTasks| && Covers(f, j, oldTasks) && Size(f, j) == |oldTasks|
    ensures var (g, ok) := RollTo(env, f, j, count, oldTasks, i);
            && OthersKept(f, g, j)
            && Size(g, j) >= Min(|oldTasks|, count)
            && (ok && i == |oldTasks| ==> Size(g, j) == Min(|oldTasks|, count))
            && (!ok ==> Size(g, j) == |oldTasks|)
  {
    RollKeeps(env, f, j, count, oldTasks, i);
  }

  // ---- tasks against books ----

  // The books count the tasks that run, agent by agent, and no ID is used twice.
  ghost predicate BooksMatch(f: Fleet, j: JobName) {
    Counted(f, j) && Known(f)
  }

  ghost predicate Counted(f: Fleet, j: JobName) {
    forall a :: Count(f.s.placed, a, j) == |Tasks(f, a)|
  }

  ghost predicate Known(f: Fleet) {
    forall a, t | t in Tasks(f, a) :: t < f.next && a in f.s.agents
  }

  ghost predicate StillRunning(f: Fleet, refs: seq<Ref>) {
    && (forall i | 0 <= i < |refs| :: refs[i].task in Tasks(f, refs[i].agent))
    && (forall i, k | 0 <= i < k < |refs| :: refs[i] != refs[k])
  }

  // Whenever step `i` replaces in place, that agent runs one instance: the old one.
  ghost predicate ReplacesOne(env: Env, f: Fleet, j: JobName, excess: bool, ref: Ref) {
    RollStep(env, f, j, excess, ref).1.Replaced? ==> Tasks(f, ref.agent) == {ref.task}
  }

  ghost predicate ReplacesOneEach(env: Env, f: Fleet, j: JobName, count: nat, oldTasks: seq<Ref>, i: nat)
    requires i <= |oldTasks|
  {
    forall k | 0 <= k < i :: ReplacesOneAt(env, f, j, count, oldTasks, k)
  }

  ghost predicate ReplacesOneAt(env: Env, f: Fleet, j: JobName, count: nat, oldTasks: seq<Ref>, k: nat)
    requires k < |oldTasks|
  {
    ReplacesOne(env, RollTo(env, f, j, count, oldTasks, k).0, j, k >= count, oldTasks[k])
  }

  lemma StartMatches(f: Fleet, s: Sched, j: JobName, a: AgentId, refs: seq<Ref>)
    requires BooksMatch(f, j) && StillRunning(f, refs)
    requires s.agents == f.s.agents && a in s.agents && GainsOne(f.s.placed, s.placed, a, j)
    ensures BooksMatch(Start(f.(s := s), a), j) && StillRunning(Start(f.(s := s), a), refs)
  {
    var g := Start(f.(s := s), a);
    assert Tasks(g, a) == Tasks(f, a) + {f.next} && f.next !in Tasks(f, a);
    forall b ensures Count(g.s.placed, b, j) == |Tasks(g, b)| {
      assert Count(f.s.placed, b, j) == |Tasks(f, b)|;
    }
    forall b ensures Tasks(f, b) <= Tasks(g, b) {
    }
  }

  lemma PlaceMatches(env: Env, f: Fleet, j: JobName, refs: seq<Ref>)
    requires BooksMatch(f, j) && StillRunning(f, refs) && Distinct(f.s.agents)
    ensures BooksMatch(Place(env, f, j).0, j) && StillRunning(Place(env, f, j).0, refs)
  {
    PlaceEffect(env, f, j);
    var (s, r) := FirstPass(env, f.s, j, |f.s.agents|, []);
    if r.Placed? {
      StartMatches(f, s, j, r.agent, refs);
    } else {
      Unmoved(f, f.(s := s), j, refs);
    }
  }

  lemma Unmoved(f: Fleet, g: Fleet, j: JobName, refs: seq<Ref>)
    requires BooksMatch(f, j) && StillRunning(f, refs)
    requires g.tasks == f.tasks && g.next == f.next && g.s.placed == f.s.placed && g.s.agents == f.s.agents
    ensures BooksMatch(g, j) && StillRunning(g, refs)
  {
    forall a ensures Tasks(g, a) == Tasks(f, a) && Count(g.s.placed, a, j) == |Tasks(g, a)| {
      assert Count(f.s.placed, a, j) == |Tasks(f, a)|;
    }
  }

  lemma StopOldMatches(f: Fleet, j: JobName, ref: Ref, rest: seq<Ref>)
    requires BooksMatch(f, j) && StillRunning(f, [ref] + rest)
    ensures BooksMatch(StopOld(f, j, ref), j) && StillRunning(StopOld(f, j, ref), rest)
  {
    var g, all := StopOld(f, j, ref), [ref] + rest;
    assert all[0] == ref && all[0].task in Tasks(f, all[0].agent);
    assert Tasks(g, ref.agent) == Tasks(f, ref.agent) - {ref.task};
    forall a ensures Count(g.s.placed, a, j) == |Tasks(g, a)| {
      assert Count(f.s.placed, a, j) == |Tasks(f, a)|;
    }
    assert forall a :: Tasks(g, a) <= Tasks(f, a);
    assert Known(g);
    RestRunning(f, g, ref, rest);
  }

  lemma RestRunning(f: Fleet, g: Fleet, ref: Ref, rest: seq<Ref>)
    requires StillRunning(f, [ref] + rest)
    requires forall a, t | t in Tasks(f, a) && (a != ref.agent || t != ref.task) :: t in Tasks(g, a)
    ensures StillRunning(g, rest)
  {
    var all := [ref] + rest;
    forall i | 0 <= i < |rest| ensures rest[i].task in Tasks(g, rest[i].agent) {
      assert all[i + 1] == rest[i] && all[0] == ref && all[0] != all[i + 1];
    }
    forall i, k | 0 <= i < k < |rest| ensures rest[i] != rest[k] {
      assert all[i + 1] == rest[i] && all[k + 1] == rest[k];
    }
  }

  /** A replace keeps the books equal to the tasks, and the remaining old instances
      running, exactly when the agent ran one instance of the job. */
  lemma SwapMatchesIffOne(f: Fleet, j: JobName, a: AgentId)
    requires BooksMatch(f, j) && a in f.s.agents
    ensures BooksMatch(Swap(f, a), j) <==> |Tasks(f, a)| == 1
  {
    var g := Swap(f, a);
    assert Count(g.s.placed, a, j) == |Tasks(f, a)| && |Tasks(g, a)| == 1;
    forall b | b != a ensures Count(g.s.placed, b, j) == |Tasks(g, b)| {
      assert Count(f.s.placed, b, j) == |Tasks(f, b)|;
    }
  }

  lemma SwapKeepsRunning(f: Fleet, j: JobName, ref: Ref, rest: seq<Ref>)
    requires BooksMatch(f, j) && StillRunning(f, [ref] + rest) && ref.agent in f.s.agents
    requires Tasks(f, ref.agent) == {ref.task}
    ensures BooksMatch(Swap(f, ref.agent), j) && StillRunning(Swap(f, ref.agent), rest)
  {
    SwapMatchesIffOne(f, j, ref.agent);
    RestRunning(f, Swap(f, ref.agent), ref, rest);
  }

  lemma RollStepMatches(env: Env, f: Fleet, j: JobName, excess: bool, ref: Ref, rest: seq<Ref>)
    requires Distinct(f.s.agents) && BooksMatch(f, j) && StillRunning(f, [ref] + rest)
             && ReplacesOne(env, f, j, excess, ref)
    ensures var (g, how) := RollStep(env, f, j, excess, ref);
            && g.s.agents == f.s.agents
            && BooksMatch(g, j)
            && StillRunning(g, if how.Failed? then [ref] + rest else rest)
  {
    if excess {
      StopOldMatches(f, j, ref, rest);
    } else {
      PlaceEffect(env, f, j);
      PlaceMatches(env, f, j, [ref] + rest);
      var (g, r) := Place(env, f, j);
      if r.Placed? {
        StopOldMatches(g, j, ref, rest);
      } else if r.AllFull? && ref.agent in g.s.agents {
        var h := g.(s := g.s.(requests := g.s.requests + 1));
        Unmoved(g, h, j, [ref] + rest);
        if env.answer(g.s.requests).Accepted? {
          assert Tasks(h, ref.agent) == Tasks(f, ref.agent);
          SwapKeepsRunning(h, j, ref, rest);
        }
      }
    }
  }

  // How many old tasks have been dealt with: all `i`, or those before the failure.
  function Done(env: Env, f: Fleet, j: JobName, count: nat, oldTasks: seq<Ref>, i: nat): (d: nat)
    requires i <= |oldTasks|
    ensures d <= i
    ensures RollTo(env, f, j, count, oldTasks, i).1 ==> d == i
  {
    if i == 0 then 0
    else if RollTo(env, f, j, count, oldTasks, i).1 then i
    else Done(env, f, j, count, oldTasks, i - 1)
  }

  /** As long as every in-place replacement hits an agent with one instance, the books
      keep counting exactly the tasks that run, and at every point (also after a
      failure) every old instance not yet dealt with is still running. */
  lemma {:induction false} RollingMatches(env: Env, f: Fleet, j: JobName, count: nat, oldTasks: seq<Ref>, i: nat)
    requires i <= |oldTasks| && Distinct(f.s.agents)
    requires BooksMatch(f, j) && StillRunning(f, oldTasks) && ReplacesOneEach(env, f, j, count, oldTasks, i)
    ensures var g := RollTo(env, f, j, count, oldTasks, i).0;
            && g.s.agents == f.s.agents && BooksMatch(g, j)
            && StillRunning(g, oldTasks[Done(env, f, j, count, oldTasks, i)..])
    decreases i
  {
    if i == 0 {
      assert oldTasks[0..] == oldTasks;
    } else {
      RollingMatches(env, f, j, count, oldTasks, i - 1);
      var (g, ok) := RollTo(env, f, j, count, oldTasks, i - 1);
      if ok {
        assert oldTasks[i - 1..] == [oldTasks[i - 1]] + oldTasks[i..];
        assert ReplacesOneAt(env, f, j, count, oldTasks, i - 1);
        RollStepMatches(env, g, j, i - 1 >= count, oldTasks[i - 1], oldTasks[i..]);
        var (h, how) := RollStep(env, g, j, i - 1 >= count, oldTasks[i - 1]);
        assert RollTo(env, f, j, count, oldTasks, i) == (h, how != Failed);
        assert Done(env, f, j, count, oldTasks, i) == if how.Failed? then i - 1 else i;
      } else {
        assert RollTo(env, f, j, count, oldTasks, i) == (g, false);
      }
    }
  }

  const TWO_ON_ONE := Fleet(Sched(["a"], map["a" := map["web" := 2]], 0, {}, 0), map["a" := {0, 1}], 2)
  const TWO_REFS := [Ref("a", 0), Ref("a", 1)]

  lemma TwoOnOne()
    ensures Covers(TWO_ON_ONE, "web", TWO_REFS) && BooksMatch(TWO_ON_ONE, "web")
    ensures StillRunning(TWO_ON_ONE, TWO_REFS) && Size(TWO_ON_ONE, "web") == 2
  {
    assert ["a"][1..] == [];
    assert TWO_REFS[1..] == [Ref("a", 1)] && TWO_REFS[1..][1..] == [];
    forall a ensures Count(TWO_ON_ONE.s.placed, a, "web") >= RefsOn(TWO_REFS, a) {
      assert RefsOn(TWO_REFS[1..][1..], a) == 0;
      assert RefsOn(TWO_REFS[1..], a) == (if a == "a" then 1 else 0);
    }
  }

  /** Without that, a replacement stops instances the books still count: here two old
      instances on one full agent become one task, booked as two. */
  lemma ReplaceOfTwoLosesOne(env: Env)
    requires env.answer(0) == NoCapacity && env.answer(1) == Accepted
    ensures var (g, ok) := RollTo(env, TWO_ON_ONE, "web", 2, TWO_REFS, 1);
            ok && Size(g, "web") == 2 && |Tasks(g, "a")| == 1
  {
    var s := TWO_ON_ONE.s.(roundRobin := 1, requests := 1);
    TwoOnOne();
    assert TWO_ON_ONE.s.agents[0 % 1] == "a" && [] + ["a"] == ["a"];
    assert FirstPass(env, s, "web", 0, [] + ["a"]) == (s, AllFull(["a"]));
    assert FirstPass(env, TWO_ON_ONE.s, "web", 1, []) == (s, AllFull(["a"]));
    assert RollTo(env, TWO_ON_ONE, "web", 2, TWO_REFS, 0) == (TWO_ON_ONE, true);
  }

  // ---- blue-green ----

  lemma {:induction false} BlueKeeps(env: Env, f: Fleet, j: JobName, n: nat, refs: seq<Ref>)
    requires Covers(f, j, refs)
    ensures var (g, ok) := BlueTo(env, f, j, n);
            && OthersKept(f, g, j) && Covers(g, j, refs)
            && (ok ==> Size(g, j) == Size(f, j) + n)
            && Size(f, j) <= Size(g, j) <= Size(f, j) + n
    decreases n
  {
    if n > 0 {
      BlueKeeps(env, f, j, n - 1, refs);
      var (g, ok) := BlueTo(env, f, j, n - 1);
      if ok {
        PlaceEffect(env, g, j);
        var h := Place(env, g, j).0;
        forall k | k != j ensures Same(f.s.placed, h.s.placed, k) {
          assert Same(f.s.placed, g.s.placed, k) && Same(g.s.placed, h.s.placed, k);
        }
        forall a ensures Count(h.s.placed, a, j) >= RefsOn(refs, a) {
          assert Count(g.s.placed, a, j) >= RefsOn(refs, a);
        }
      }
    }
  }

  lemma {:induction false} BlueMatches(env: Env, f: Fleet, j: JobName, n: nat, refs: seq<Ref>)
    requires BooksMatch(f, j) && StillRunning(f, refs) && Distinct(f.s.agents)
    ensures var (g, ok) := BlueTo(env, f, j, n); BooksMatch(g, j) && StillRunning(g, refs) && g.s.agents == f.s.agents
    decreases n
  {
    if n > 0 {
      BlueMatches(env, f, j, n - 1, refs);
      var (g, ok) := BlueTo(env, f, j, n - 1);
      if ok {
        PlaceEffect(env, g, j);
        PlaceMatches(env, g, j, refs);
      }
    }
  }

  lemma {:induction false} GreenKeeps(f: Fleet, j: JobName, oldTasks: seq<Ref>, i: nat)
    requires i <= |oldTasks| && Covers(f, j, oldTasks) && BooksMatch(f, j) && StillRunning(f, oldTasks)
    ensures var g := GreenTo(f, j, oldTasks, i);
            && OthersKept(f, g, j) && Covers(g, j, oldTasks[i..]) && Size(g, j) == Size(f, j) - i
            && BooksMatch(g, j) && StillRunning(g, oldTasks[i..])
    decreases i
  {
    if i == 0 {
      assert oldTasks[0..] == oldTasks;
    } else {
      GreenKeeps(f, j, oldTasks, i - 1);
      var g := GreenTo(f, j, oldTasks, i - 1);
      assert oldTasks[i - 1..] == [oldTasks[i - 1]] + oldTasks[i..];
      StopOldEffect(g, j, oldTasks[i - 1], oldTasks[i..]);
      StopOldMatches(g, j, oldTasks[i - 1], oldTasks[i..]);
      var h := StopOld(g, j, oldTasks[i - 1]);
      forall k | k != j ensures Same(f.s.placed, h.s.placed, k) {
        assert Same(f.s.placed, g.s.placed, k) && Same(g.s.placed, h.s.placed, k);
      }
    }
  }

  /** Blue-green: a failed update leaves every old instance running; a completed one
      ends with exactly the desired number; the total never falls below the smaller of
      start and desired; no other job is touched; the books keep counting the tasks. */
  lemma BlueGreenKeepsEnough(env: Env, f: Fleet, j: JobName, count: nat, oldTasks: seq<Ref>, i: nat)
    requires i <= |oldTasks| && Covers(f, j, oldTasks) && Size(f, j) == |oldTasks|
    requires BooksMatch(f, j) && StillRunning(f, oldTasks)
    ensures var (g, ok) := BlueTo(env, f, j, count);
            var h := GreenTo(g, j, oldTasks, i);
            && OthersKept(f, g, j) && BooksMatch(g, j) && StillRunning(g, oldTasks) && Size(g, j) >= |oldTasks|
            && (ok ==> OthersKept(f, h, j) && BooksMatch(h, j) && Size(h, j) == |oldTasks| - i + count)
  {
    BlueKeeps(env, f, j, count, oldTasks);
    BlueMatches(env, f, j, count, oldTasks);
    var (g, ok) := BlueTo(env, f, j, count);
    GreenKeeps(g, j, oldTasks, i);
    var h := GreenTo(g, j, oldTasks, i);
    forall k | k != j ensures Same(f.s.placed, h.s.placed, k) {
      assert Same(f.s.placed, g.s.placed, k) && Same(g.s.placed, h.s.placed, k);
    }
  }

  // ---- the update as the leader performs it ----

  function Unlock(f: Fleet, j: JobName): Fleet {
    f.(s := f.s.(dispatching := f.s.dispatching - {j}))
  }

  function RollingSpec(env: Env, f: Fleet, j: JobName, count: int, oldTasks: seq<Ref>): (Fleet, bool) {
    var (g, ok) := RollTo(env, f, j, DesiredCount(count), oldTasks, |oldTasks|);
    (Unlock(g, j), ok)
  }

  function BlueGreenSpec(env: Env, f: Fleet, j: JobName, count: int, oldTasks: seq<Ref>): (Fleet, bool) {
    var (g, ok) := BlueTo(env, f, j, DesiredCount(count));
    (Unlock(if ok then GreenTo(g, j, oldTasks, |oldTasks|) else g, j), ok)
  }

  lemma {:induction false} RollStaysFailed(env: Env, f: Fleet, j: JobName, count: nat, oldTasks: seq<Ref>, i: nat,
                                           k: nat)
    requires i <= k <= |oldTasks| && !RollTo(env, f, j, count, oldTasks, i).1
    ensures RollTo(env, f, j, count, oldTasks, k) == RollTo(env, f, j, count, oldTasks, i)
    decreases k
  {
    if i < k {
      RollStaysFailed(env, f, j, count, oldTasks, i, k - 1);
    }
  }

  lemma {:induction false} BlueStaysFailed(env: Env, f: Fleet, j: JobName, i: nat, k: nat)
    requires i <= k && !BlueTo(env, f, j, i).1
    ensures BlueTo(env, f, j, k) == BlueTo(env, f, j, i)
    decreases k
  {
    if i < k {
      BlueStaysFailed(env, f, j, i, k - 1);
    }
  }

  // No policy means rolling; the recreate policy is an operation of `LeaderState.Leader`.
  datatype Policy = Unset | Rolling | BlueGreen | Unknown

  datatype Report = NotFound | BadPolicy | Locked | Completed | Aborted

  // `deploying` says that a rollout of the job is in progress or was not completed.
  datatype Definition = Definition(count: int, priority: Option<int>, deploying: bool)

  function Claimed(f: Fleet, j: JobName): Fleet {
    f.(s := f.s.(dispatching := f.s.dispatching + {j}))
  }

  function UpdateSpec(env: Env, policy: Policy, f: Fleet, j: JobName, desired: int, oldTasks: seq<Ref>): (Fleet, bool) {
    if policy.BlueGreen? then BlueGreenSpec(env, f, j, desired, oldTasks) else RollingSpec(env, f, j, desired, oldTasks)
  }

  /** The leader together with what runs on its agents. */
  class Cluster {
    const leader: Leader
    var jobs: map<JobName, Definition>
    ghost var tasks: map<AgentId, set<nat>>
    ghost var next: nat

    ghost function View(): Fleet
      reads this, leader
    {
      Fleet(leader.View(), tasks, next)
    }

    constructor (leader: Leader)
      ensures this.leader == leader && jobs == map[] && View() == Fleet(leader.View(), map[], 0)
    {
      this.leader, jobs := leader, map[];
      tasks, next := map[], 0;
    }

    method DispatchWithoutPreemption(env: Env, j: JobName) returns (ok: bool, noCapacity: bool)
      requires j in leader.dispatching
      modifies this`tasks, this`next, leader`placed, leader`roundRobin, leader`requests
      ensures View() == Place(env, old(View()), j).0
      ensures ok == Place(env, old(View()), j).1.Placed? && noCapacity == Place(env, old(View()), j).1.AllFull?
    {
      ghost var f := View();
      ok, noCapacity := leader.DispatchJob(env, map[], Job(j, 0, 1), false);
      ghost var (s, r) := FirstPass(env, f.s, j, |f.s.agents|, []);
      if ok {
        ghost var g := Start(f.(s := s), r.agent);
        tasks, next := g.tasks, g.next;
      }
    }

    method StopOldTask(j: JobName, ref: Ref)
      modifies this`tasks, leader`placed
      ensures View() == StopOld(old(View()), j, ref)
    {
      if ref.agent !in leader.agentsSorted {
        return;
      }
      tasks := tasks[ref.agent := Tasks(View(), ref.agent) - {ref.task}];
      if ref.agent in leader.placed && j in leader.placed[ref.agent] && leader.placed[ref.agent][j] > 0 {
        var row := leader.placed[ref.agent];
        row := row[j := row[j] - 1];
        leader.placed := leader.placed[ref.agent := row];
      }
    }

    method SendReplace(env: Env, j: JobName, a: AgentId) returns (ok: bool)
      requires j in leader.dispatching
      modifies this`tasks, this`next, leader`requests
      ensures ok == env.answer(old(leader.requests)).Accepted?
      ensures var f := old(View()).(s := old(leader.View()).(requests := old(leader.requests) + 1));
              View() == if ok then Swap(f, a) else f
    {
      var answer := leader.SendJob(env, j);
      ok := answer.Accepted?;
      if ok {
        tasks, next := tasks[a := {next}], next + 1;
      }
    }

    /** One old instance: dispatch its successor (or have the agent swap it in place)
        before it is stopped; an excess one is only stopped. */
    method UpdateOne(env: Env, j: JobName, excess: bool, ref: Ref) returns (ok: bool)
      requires j in leader.dispatching
      modifies this`tasks, this`next, leader`placed, leader`roundRobin, leader`requests
      ensures var (g, how) := RollStep(env, old(View()), j, excess, ref); View() == g && ok == !how.Failed?
    {
      var replaced := false;
      if !excess {
        var noCapacity;
        ok, noCapacity := DispatchWithoutPreemption(env, j);
        if noCapacity && ref.agent in leader.agentsSorted {
          ok := SendReplace(env, j, ref.agent);
          replaced := ok;
        }
        if !ok {
          return;
        }
      }
      if !replaced {
        StopOldTask(j, ref);
      }
      ok := true;
    }

    method UpdateRolling(env: Env, j: JobName, job: Definition, oldTasks: seq<Ref>) returns (ok: bool)
      requires j in leader.dispatching
      modifies this, leader
      ensures (View(), ok) == RollingSpec(env, old(View()), j, job.count, oldTasks)
      ensures jobs == old(jobs)[j := job]
    {
      var count: nat := if job.count <= 0 then 1 else job.count;
      jobs := jobs[j := job];
      ok := true;
      ghost var f := View();
      for i := 0 to |oldTasks|
        invariant ok && (View(), true) == RollTo(env, f, j, count, oldTasks, i)
        invariant j in leader.dispatching
        invariant jobs == old(jobs)[j := job]
      {
        ok := UpdateOne(env, j, i >= count, oldTasks[i]);
        if !ok {
          RollStaysFailed(env, f, j, count, oldTasks, i + 1, |oldTasks|);
          break;
        }
      }
      leader.dispatching := leader.dispatching - {j};
    }

    method UpdateBlueGreen(env: Env, j: JobName, job: Definition, oldTasks: seq<Ref>) returns (ok: bool)
      requires j in leader.dispatching
      modifies this, leader
      ensures (View(), ok) == BlueGreenSpec(env, old(View()), j, job.count, oldTasks)
      ensures jobs == old(jobs)[j := job]
    {
      var count: nat := if job.count <= 0 then 1 else job.count;
      jobs := jobs[j := job];
      ghost var f := View();
      for i := 0 to count
        invariant (View(), true) == BlueTo(env, f, j, i)
        invariant j in leader.dispatching
        invariant jobs == old(jobs)[j := job]
      {
        var noCapacity;
        ok, noCapacity := DispatchWithoutPreemption(env, j);
        if !ok {
          BlueStaysFailed(env, f, j, i + 1, count);
          leader.dispatching := leader.dispatching - {j};
          return;
        }
      }
      ghost var g := View();
      for i := 0 to |oldTasks|
        invariant View() == GreenTo(g, j, oldTasks, i)
        invariant jobs == old(jobs)[j := job]
      {
        StopOldTask(j, oldTasks[i]);
      }
      leader.dispatching := leader.dispatching - {j};
      ok := true;
    }

    method RunPolicy(env: Env, policy: Policy, j: JobName, job: Definition, oldTasks: seq<Ref>) returns (ok: bool)
      requires j in leader.dispatching
      modifies this, leader
      ensures (View(), ok) == UpdateSpec(env, policy, old(View()), j, job.count, oldTasks)
      ensures jobs == old(jobs)[j := job]
    {
      if policy.BlueGreen? {
        ok := UpdateBlueGreen(env, j, job, oldTasks);
      } else {
        ok := UpdateRolling(env, j, job, oldTasks);
      }
    }

    /** An unknown name, an unknown policy or a claim that is taken refuses the update and
        changes nothing. Otherwise the update runs under the claim, and the claim is gone
        afterwards, failed or not. The record is the new one from the first dispatch on,
        with the old priority unless a new one is given; it says that a rollout is in
        progress all along, and afterwards exactly if the update was aborted. */
    method UpdateJob(env: Env, policy: Policy, j: JobName, job: Definition, oldTasks: seq<Ref>) returns (r: Report)
      modifies this, leader
      ensures r == if j !in old(jobs) then NotFound
                   else if policy.Unknown? then BadPolicy
                   else if j in old(leader.dispatching) then Locked
                   else if UpdateSpec(env, policy, Claimed(old(View()), j), j, job.count, oldTasks).1 then Completed
                   else Aborted
      ensures !r.Completed? && !r.Aborted? ==> View() == old(View()) && jobs == old(jobs)
      ensures r.Completed? || r.Aborted? ==>
                && View() == UpdateSpec(env, policy, Claimed(old(View()), j), j, job.count, oldTasks).0
                && jobs == old(jobs)[j := job.(priority := if job.priority.None? then old(jobs)[j].priority
                                                           else job.priority, deploying := r.Aborted?)]
    {
      if j !in jobs {
        return NotFound;
      }
      var stored := job.(priority := if job.priority.None? then jobs[j].priority else job.priority, deploying := true);
      if policy.Unknown? {
        return BadPolicy;
      }
      if j in leader.dispatching {
        return Locked;
      }
      leader.dispatching := leader.dispatching + {j};
      var ok := RunPolicy(env, policy, j, stored, oldTasks);
      if ok {
        jobs := jobs[j := stored.(deploying := false)];
      }
      r := if ok then Completed else Aborted;
    }
  }

  lemma {:induction false} RollKeepsClaims(env: Env, f: Fleet, j: JobName, count: nat, oldTasks: seq<Ref>, i: nat)
    requires i <= |oldTasks|
    ensures RollTo(env, f, j, count, oldTasks, i).0.s.dispatching == f.s.dispatching
    decreases i
  {
    if i > 0 {
      RollKeepsClaims(env, f, j, count, oldTasks, i - 1);
      var g := RollTo(env, f, j, count, oldTasks, i - 1).0;
      FirstPassEffect(env, g.s, j, |g.s.agents|, []);
    }
  }

  lemma {:induction false} BlueGreenKeepsClaims(env: Env, f: Fleet, j: JobName, n: nat, oldTasks: seq<Ref>, i: nat)
    requires i <= |oldTasks|
    ensures BlueTo(env, f, j, n).0.s.dispatching == f.s.dispatching
    ensures GreenTo(f, j, oldTasks, i).s.dispatching == f.s.dispatching
    decreases n + i
  {
    if n > 0 {
      BlueGreenKeepsClaims(env, f, j, n - 1, oldTasks, i);
      var g := BlueTo(env, f, j, n - 1).0;
      FirstPassEffect(env, g.s, j, |g.s.agents|, []);
    }
    if i > 0 {
      BlueGreenKeepsClaims(env, f, j, n, oldTasks, i - 1);
    }
  }

  /** Whatever happens during an update, the claims afterwards are those from before:
      no path leaves the job locked. */
  lemma UpdateReleasesItsClaim(env: Env, policy: Policy, f: Fleet, j: JobName, desired: int, oldTasks: seq<Ref>)
    requires j !in f.s.dispatching
    ensures UpdateSpec(env, policy, Claimed(f, j), j, desired, oldTasks).0.s.dispatching == f.s.dispatching
  {
    var claimed := Claimed(f, j);
    RollKeepsClaims(env, claimed, j, DesiredCount(desired), oldTasks, |oldTasks|);
    BlueGreenKeepsClaims(env, claimed, j, DesiredCount(desired), oldTasks, |oldTasks|);
    BlueGreenKeepsClaims(env, BlueTo(env, claimed, j, DesiredCount(desired)).0, j, 0, oldTasks, |oldTasks|);
  }
}
