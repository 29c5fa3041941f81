/** Where the capacity claim of `Admission` stops: a replace whose sharegroup pool grew,
    and the restart of a predecessor that a replace has already marked. */
module AdmissionLimits {
  import opened Usage
  import opened Admission

  // ---- a replace with a larger pool ----

  lemma PoolChangeElsewhere(tasks: Tasks, pool: map<string, nat>, g: string, size: nat)
    requires g !in Groups(tasks)
    ensures Cpu(tasks, pool[g := size]) == Cpu(tasks, pool)
  {
    assert PoolsOf(Groups(tasks), pool[g := size]) == PoolsOf(Groups(tasks), pool);
  }

  lemma OnlyCarriers(s: State, job: string, g: string)
    requires g != "" && forall id | id in s.tasks :: (s.tasks[id].group == g) == (s.tasks[id].job == job)
    requires job != ""
    ensures g !in Groups(Counted(s.tasks, job))
    ensures Unmarked(s.tasks, TasksOf(s.tasks, job)) == Counted(s.tasks, job)
  {
    assert forall id | id in Counted(s.tasks, job) :: s.tasks[id].job != job;
  }

  /** When only the replaced job carries the sharegroup, its pool is in neither half of the
      check. What the node runs once the predecessors are gone then fits exactly when the
      counted usage plus the new pool does; the check asks for the counted usage alone. */
  lemma GrownPoolFitsIff(s: State, e: Event, pool: map<string, nat>)
    requires Inv(s, pool) && s.marked == {} && e.EvRun? && e.job != "" && e.replace && Enabled(s, e) && Admits(s, e)
    requires e.spec.group != ""
    requires forall id | id in s.tasks :: (s.tasks[id].group == e.spec.group) == (s.tasks[id].job == e.job)
    requires forall id | id in s.tasks :: s.tasks[id].job in s.jobs
    ensures var s' := Apply(s, e);
            Cpu(Unmarked(s'.tasks, s'.marked), pool[e.spec.group := e.spec.cpu]) <= s.effCpu <==>
            Walk(Viewed(s.tasks, s.jobs), e.job, e.order, {}) + e.spec.cpu <= s.effCpu
  {
    LeftAfterReplace(s, e);
    CountedByReplace(s, e, pool);
    OnlyCarriers(s, e.job, e.spec.group);
    var others := Counted(s.tasks, e.job);
    PoolChangeElsewhere(others, pool, e.spec.group, e.spec.cpu);
    assert e.id !in others;
    AddTask(others, e.id, Born(e.job, e.spec), pool[e.spec.group := e.spec.cpu]);
  }

  lemma LeftAfterReplace(s: State, e: Event)
    requires s.marked == {} && IdsOk(s) && e.EvRun? && e.job != "" && e.replace && Enabled(s, e) && Admits(s, e)
    ensures var s' := Apply(s, e); Unmarked(s'.tasks, s'.marked) == Counted(s.tasks, e.job)[e.id := Born(e.job, e.spec)]
  {
    var olds := TasksOf(s.tasks, e.job);
    assert {} + olds == olds && e.id !in olds;
    KeptAfterAdd(s.tasks, olds, e.id, Born(e.job, e.spec));
    assert Unmarked(s.tasks, olds) == Counted(s.tasks, e.job);
  }

  lemma CountedByReplace(s: State, e: Event, pool: map<string, nat>)
    requires Inv(s, pool) && e.EvRun? && Enabled(s, e) && forall id | id in s.tasks :: s.tasks[id].job in s.jobs
    ensures Walk(Viewed(s.tasks, s.jobs), e.job, e.order, {}) == Cpu(Counted(s.tasks, e.job), pool)
  {
    TaskTags(s);
    assert Viewed(s.tasks, s.jobs) == s.tasks;
    PooledPart(Counted(s.tasks, e.job), s.tasks, pool);
    UsageIsOrderFree(s.tasks, e.job, e.order, pool);
  }

  // Two cores; task 0 carries the group's pool of one, task 1 is an app of its own.
  const WEB := Task("web", "g", 1024, 0)
  const DB := Task("db", "", 1024, 0)
  const WEB_SPEC := Spec("g", 1024, 0)
  const DB_SPEC := Spec("", 1024, 0)
  const POOL_OF_ONE: map<string, nat> := map["g" := 1024]

  function Node(cores: nat): State {
    State(cores * 1024, 0, map[], map[], {}, {}, map[], {})
  }

  function Busy(): State {
    State(2048, 0, map[0 := WEB, 1 := DB], map["web" := WEB_SPEC, "db" := DB_SPEC], {}, {}, map[], {0, 1})
  }

  // The first task of a node: admitted, and reserved at once.
  lemma FirstRun(cores: nat, job: string, spec: Spec)
    requires spec.cpu <= cores * 1024 && spec.mem == 0
    ensures var s, e := Node(cores), EvRun(0, job, spec, false, true, []);
            && Enabled(s, e) && KeepsTags(s, job, spec)
            && Apply(s, e) == s.(tasks := map[0 := Born(job, spec)], jobs := map[job := spec],
                                 starting := map[0 := Born(job, spec)], used := {0})
  {
    var s, e := Node(cores), EvRun(0, job, spec, false, true, []);
    assert IsOrder(s.tasks, []) && Viewed(s.tasks, s.jobs).Keys == {};
    assert Walk(Viewed(s.tasks, s.jobs), "", [], {}) == 0;
    assert Admits(s, e);
    assert s.stopping + {} == {} && s.used + {0} == {0};
  }

  lemma OneWebStarts() returns (s: State)
    ensures s ==
            Node(2).(tasks := map[0 := WEB], jobs := map["web" := WEB_SPEC], starting := map[0 := WEB], used := {0})
    ensures Reachable(s, POOL_OF_ONE)
  {
    var run := EvRun(0, "web", WEB_SPEC, false, true, []);
    ReachInit(Node(2), POOL_OF_ONE);
    FirstRun(2, "web", WEB_SPEC);
    ReachStep(Node(2), run, POOL_OF_ONE);
    s := Apply(Node(2), run);
  }

  lemma OneWeb() returns (s: State)
    ensures s == Node(2).(tasks := map[0 := WEB], jobs := map["web" := WEB_SPEC], used := {0})
    ensures Reachable(s, POOL_OF_ONE)
  {
    s := OneWebStarts();
    ReachStep(s, EvStartDone(0), POOL_OF_ONE);
    s := Apply(s, EvStartDone(0));
    assert s.tasks == map[0 := WEB] && s.starting.Keys == {};
  }

  lemma DbFits(s: State)
    requires s == Node(2).(tasks := map[0 := WEB], jobs := map["web" := WEB_SPEC], used := {0})
    ensures var e := EvRun(1, "db", DB_SPEC, false, true, [0]);
            && Enabled(s, e) && Polite(s, e, POOL_OF_ONE) && Admits(s, e)
  {
    var order := [0];
    assert order[1..] == [] && order[0] == 0 && IsOrder(s.tasks, order);
    var view := Viewed(s.tasks, s.jobs);
    assert view[0] == WEB;
    assert Walk(view, "", order, {}) == 1024;
  }

  lemma BusyIsReachable()
    ensures Reachable(Busy(), POOL_OF_ONE)
  {
    var s := OneWeb();
    var run := EvRun(1, "db", DB_SPEC, false, true, [0]);
    DbFits(s);
    ReachStep(s, run, POOL_OF_ONE);
    var t := Apply(s, run);
    assert t == Busy().(starting := map[1 := DB]) by {
      assert s.tasks[1 := DB] == Busy().tasks && s.jobs["db" := DB_SPEC] == Busy().jobs && s.used + {1} == {0, 1};
      assert s.stopping + {} == {} && s.marked + {} == {} && s.starting[1 := DB] == map[1 := DB];
    }
    ReachStep(t, EvStartDone(1), POOL_OF_ONE);
    assert Apply(t, EvStartDone(1)) == Busy() by {
      assert t.starting - {1} == map[] && t.tasks[1 := DB] == t.tasks;
    }
  }

  const GROWN := EvRun(2, "web", Spec("g", 2048, 0), true, true, [0, 1])

  lemma WalkOfTwo(tasks: Tasks, exclude: string, a: Id, b: Id, seen: set<string>)
    requires a in tasks && b in tasks && tasks[b].job != exclude && tasks[b].group !in seen + {tasks[a].group}
    ensures Walk(tasks, exclude, [a, b], seen) ==
            tasks[b].cpu +
            if (exclude != "" && tasks[a].job == exclude) || (tasks[a].group != "" && tasks[a].group in seen) then 0
            else tasks[a].cpu
  {
    var order := [a, b];
    assert order[1..] == [b] && order[1..][1..] == [];
    assert Walk(tasks, exclude, order[1..], seen) == tasks[b].cpu;
    assert Walk(tasks, exclude, order[1..], seen + {tasks[a].group}) == tasks[b].cpu;
  }

  lemma BusyView()
    ensures Viewed(Busy().tasks, Busy().jobs) == Busy().tasks && GroupRuns(Busy().tasks, "g")
    ensures IsOrder(Busy().tasks, [0, 1])
  {
    var tasks, view := Busy().tasks, Viewed(Busy().tasks, Busy().jobs);
    assert tasks[0] == WEB && tasks[1] == DB && view[0] == WEB && view[1] == DB;
    assert forall id | id in tasks :: id == 0 || id == 1;
  }

  lemma GrownIsAdmitted()
    ensures Enabled(Busy(), GROWN) && Admits(Busy(), GROWN)
  {
    BusyView();
    WalkOfTwo(Busy().tasks, "web", 0, 1, {});
  }

  // What counts after the replace: the other app and the new pool.
  function Grown(): Tasks {
    Counted(Busy().tasks, "web")[2 := Born("web", GROWN.spec)]
  }

  lemma GrownWalk()
    ensures IsOrder(Grown(), [1, 2]) && Walk(Grown(), "", [1, 2], {}) == 3072
  {
    assert Grown()[1] == DB && Grown()[2].group == "g" && Grown().Keys == {1, 2};
    WalkOfTwo(Grown(), "", 1, 2, {});
  }

  /** On a node filled by two ordinary starts, growing the pool from one core to two is
      admitted; the app of one core and the pool of two that then count do not fit the two
      cores. */
  lemma GrownPoolOvercommits()
    ensures Reachable(Busy(), POOL_OF_ONE) && Enabled(Busy(), GROWN) && Admits(Busy(), GROWN)
    ensures var s' := Apply(Busy(), GROWN); Unmarked(s'.tasks, s'.marked) == Grown()
    ensures IsOrder(Grown(), [1, 2]) && Walk(Grown(), "", [1, 2], {}) == 3072 > Busy().effCpu
  {
    BusyIsReachable();
    GrownIsAdmitted();
    LeftAfterReplace(Busy(), GROWN);
    GrownWalk();
  }

  // ---- the restart of a marked predecessor ----

  /** The swap of a restart does not ask whether a replace has marked the task, and its
      replacement is not marked: what counts grows by that task once more. So capacity
      holds afterwards exactly when there was room for it once more: for its memory, and
      for its CPU unless its sharegroup is reserved by others that count. */
  lemma SwapOfMarkedFitsIff(s: State, id: Id, newId: Id, spec: Spec, pool: map<string, nat>)
    requires Inv(s, pool) && Enabled(s, EvSwap(id, newId, spec)) && id in s.tasks && id in s.marked
    requires Born(s.tasks[id].job, spec) == s.tasks[id]
    ensures var left, s' := Unmarked(s.tasks, s.marked), Apply(s, EvSwap(id, newId, spec));
            var more := if spec.group != "" && spec.group in Groups(left) then 0 else spec.cpu;
            && (Cpu(Unmarked(s'.tasks, s'.marked), pool) <= s.effCpu <==> Cpu(left, pool) + more <= s.effCpu)
            && (Mem(Unmarked(s'.tasks, s'.marked)) <= s.effMem <==> Mem(left) + spec.mem <= s.effMem)
  {
    LeftAfterSwap(s.tasks, s.marked, id, newId, s.tasks[id]);
    AddTask(Unmarked(s.tasks, s.marked), newId, s.tasks[id], pool);
  }

  lemma LeftAfterSwap(tasks: Tasks, marked: set<Id>, id: Id, newId: Id, t: Task)
    requires id in marked && newId !in marked
    ensures Unmarked((tasks - {id})[newId := t], marked) == Unmarked(tasks, marked)[newId := t]
  {
  }

  const APP := Task("web", "", 1024, 0)
  const APP_SPEC := Spec("", 1024, 0)

  // A node of one core: task 0 failed to start and was replaced by task 1 before its
  // restart came round.
  function Replaced(): State {
    State(1024, 0, map[0 := APP, 1 := APP], map["web" := APP_SPEC], {0}, {0}, map[1 := APP], {0, 1})
  }

  lemma StartFails() returns (s: State)
    ensures s == Node(1).(tasks := map[0 := APP], jobs := map["web" := APP_SPEC], used := {0})
    ensures Reachable(s, map[])
  {
    var run := EvRun(0, "web", APP_SPEC, false, true, []);
    ReachInit(Node(1), map[]);
    FirstRun(1, "web", APP_SPEC);
    ReachStep(Node(1), run, map[]);
    s := Apply(Node(1), run);
    ReachStep(s, EvStartFailed(0), map[]);
    s := Apply(s, EvStartFailed(0));
    assert s.starting.Keys == {};
  }

  lemma ReplaceFits(s: State)
    requires s == Node(1).(tasks := map[0 := APP], jobs := map["web" := APP_SPEC], used := {0})
    ensures var e := EvRun(1, "web", APP_SPEC, true, true, [0]);
            && Enabled(s, e) && Polite(s, e, map[]) && Admits(s, e) && TasksOf(s.tasks, "web") == {0}
  {
    var order := [0];
    assert order[1..] == [] && order[0] == 0 && IsOrder(s.tasks, order);
    var view := Viewed(s.tasks, s.jobs);
    assert view[0] == APP;
    assert Walk(view, "web", order, {}) == 0;
  }

  lemma ReplacedIsReachable()
    ensures Reachable(Replaced(), map[])
  {
    var s := StartFails();
    var run := EvRun(1, "web", APP_SPEC, true, true, [0]);
    ReplaceFits(s);
    ReachStep(s, run, map[]);
    assert Apply(s, run) == Replaced() by {
      assert s.tasks[1 := APP] == Replaced().tasks && s.jobs["web" := APP_SPEC] == Replaced().jobs;
      assert s.used + {1} == {0, 1};
      assert s.stopping + {0} == {0} && s.marked + {0} == {0} && s.starting[1 := APP] == map[1 := APP];
    }
  }

  lemma OneCounts(tasks: Tasks)
    requires tasks.Keys == {1} && tasks[1] == APP
    ensures Cpu(tasks, map[]) == 1024 && Groups(tasks) == {}
  {
    TakeTask(tasks, 1, map[]);
    NothingUsesNothing(tasks - {1}, map[]);
  }

  /** An app whose start failed is replaced, and then its restart comes round: the swap is
      enabled with the very limits the task was started with, and two cores are handed out
      of one. */
  lemma RestartOfReplacedOvercommits()
    ensures Reachable(Replaced(), map[]) && Enabled(Replaced(), EvSwap(0, 2, APP_SPEC))
    ensures Born(Replaced().tasks[0].job, APP_SPEC) == Replaced().tasks[0]
    ensures var s' := Apply(Replaced(), EvSwap(0, 2, APP_SPEC)); Cpu(Unmarked(s'.tasks, s'.marked), map[]) > s'.effCpu
  {
    ReplacedIsReachable();
    ReachableInv(Replaced(), map[]);
    OneCounts(Unmarked(Replaced().tasks, Replaced().marked));
    SwapOfMarkedFitsIff(Replaced(), 0, 2, APP_SPEC, map[]);
  }
}
