/** Admission and everything else that changes an agent's task map: what runs never adds
    up to more than the node has. Presence in the map is the reservation. */
module Admission {
  import opened Usage
  import opened Sums

  // What a job record says about sharegroup and limits.
  datatype Spec = Spec(group: string, cpu: nat, mem: nat)

  // `tasks` is the task map, each task with the sharegroup it was born into; `marked` are
  // the predecessors a replace is about to stop; `starting` are the tasks in the hands
  // of a start routine; `used` are all IDs ever handed out.
  datatype State = State(effCpu: nat, effMem: nat, tasks: Tasks, jobs: map<string, Spec>,
                         stopping: set<Id>, marked: set<Id>, starting: map<Id, Task>, used: set<Id>)

  datatype Event =
    | EvRun(id: Id, job: string, spec: Spec, replace: bool, fits: bool, order: seq<Id>)
    | EvStartBegin(id: Id)
    | EvStartDone(id: Id)
    | EvStartFailed(id: Id)
    | EvHandBack(id: Id)
    | EvMarkStopping(ids: set<Id>)
    | EvRemove(ids: set<Id>)
    | EvSwap(id: Id, newId: Id, spec: Spec)
    | EvDeleteJob(job: string)
    | EvStoreJob(job: string, spec: Spec)

  function Born(job: string, spec: Spec): Task {
    Task(job, spec.group, spec.cpu, spec.mem)
  }

  // The job's record, written back by the start routine of one of its tasks.
  function Recorded(jobs: map<string, Spec>, t: Task): map<string, Spec> {
    jobs[t.job := Spec(t.group, t.cpu, t.mem)]
  }

  function GroupNow(jobs: map<string, Spec>, t: Task): string {
    if t.job in jobs then jobs[t.job].group else ""
  }

  // The tasks with the sharegroup their job record gives them now.
  function Viewed(tasks: Tasks, jobs: map<string, Spec>): Tasks {
    map id | id in tasks :: tasks[id].(group := GroupNow(jobs, tasks[id]))
  }

  lemma ViewedIs(tasks: Tasks, jobs: map<string, Spec>)
    ensures var view := Viewed(tasks, jobs);
            && view.Keys == tasks.Keys
            && forall id | id in tasks ::
                 view[id] == tasks[id].(group := if tasks[id].job in jobs then jobs[tasks[id].job].group else "")
  {
  }

  predicate GroupRuns(view: Tasks, group: string) {
    exists id | id in view :: view[id].group == group
  }

  predicate Admits(s: State, e: Event)
    requires e.EvRun? && IsOrder(s.tasks, e.order)
  {
    var view, exclude := Viewed(s.tasks, s.jobs), if e.replace then e.job else "";
    var newCpu := if e.spec.group != "" && GroupRuns(view, e.spec.group) then 0 else e.spec.cpu;
    && (e.spec.cpu > 0 ==> Walk(view, exclude, e.order, {}) + newCpu <= s.effCpu)
    && (e.spec.mem > 0 ==> WalkMem(view, exclude, e.order) + e.spec.mem <= s.effMem)
    && (e.spec.mem > 0 && !e.replace ==> e.fits)
  }

  function TasksOf(tasks: Tasks, job: string): set<Id> {
    set id | id in tasks && tasks[id].job == job
  }

  ghost predicate Enabled(s: State, e: Event) {
    match e
    case EvRun(id, _, _, _, _, order) => id !in s.used && IsOrder(s.tasks, order)
    case EvStartBegin(id) => id in s.starting
    case EvStartDone(id) => id in s.starting
    case EvStartFailed(id) => id in s.starting
    case EvHandBack(id) => id in s.used
    case EvMarkStopping(ids) => ids <= s.tasks.Keys
    case EvRemove(ids) => ids <= s.stopping
    case EvSwap(id, newId, _) => id in s.used && id !in s.starting && newId !in s.used
    case EvDeleteJob(_) => true
    case EvStoreJob(_, _) => true
  }

  ghost function Apply(s: State, e: Event): State
    requires Enabled(s, e)
  {
    match e
    case EvRun(id, job, spec, replace, _, _) =>
      if !Admits(s, e) then s
      else
        var olds := if replace then TasksOf(s.tasks, job) else {};
        s.(tasks := s.tasks[id := Born(job, spec)], jobs := s.jobs[job := spec],
           stopping := s.stopping + olds, marked := s.marked + olds,
           starting := s.starting[id := Born(job, spec)], used := s.used + {id})
    case EvStartBegin(id) =>
      var t := s.starting[id];
      if id in s.stopping then s.(starting := s.starting - {id})
      else s.(jobs := Recorded(s.jobs, t))
    // A record that is still there is written once more, also for a task that was stopped.
    case EvStartDone(id) =>
      var t := s.starting[id];
      var after := s.(starting := s.starting - {id}, jobs := if t.job in s.jobs then Recorded(s.jobs, t) else s.jobs);
      if t.job !in s.jobs || id in s.stopping then after.(tasks := s.tasks - {id})
      else after.(tasks := s.tasks[id := t])
    case EvStartFailed(id) => s.(starting := s.starting - {id})
    case EvHandBack(id) => s.(starting := s.starting - {id}, tasks := s.tasks - {id})
    case EvMarkStopping(ids) => s.(stopping := s.stopping + ids)
    case EvRemove(ids) => s.(tasks := s.tasks - ids)
    case EvSwap(id, newId, spec) =>
      if id !in s.tasks then s
      else s.(tasks := (s.tasks - {id})[newId := Born(s.tasks[id].job, spec)], used := s.used + {newId})
    case EvDeleteJob(job) => s.(jobs := s.jobs - {job}, stopping := s.stopping + TasksOf(s.tasks, job))
    case EvStoreJob(job, spec) => s.(jobs := s.jobs[job := spec])
  }

  // ---- what the runs are assumed to keep to ----

  // Tags are not rewritten while tasks of the job live.
  ghost predicate KeepsTags(s: State, job: string, spec: Spec) {
    forall id | id in Live(s) && Live(s)[id].job == job :: Live(s)[id].group == spec.group
  }

  ghost function Live(s: State): Tasks {
    s.tasks + s.starting
  }

  // A sharegroup has one pool size, a job's tags stay put while it has tasks, and the
  // restart of a task finds the limits it was started with and is not one that a replace
  // has marked.
  ghost predicate Polite(s: State, e: Event, pool: map<string, nat>) {
    match e
    case EvRun(_, job, spec, _, _, _) =>
      KeepsTags(s, job, spec) && (spec.group != "" ==> spec.group in pool && spec.cpu == pool[spec.group])
    case EvSwap(id, _, spec) =>
      id in s.tasks ==> Born(s.tasks[id].job, spec) == s.tasks[id] && id !in s.marked
    case EvStoreJob(job, spec) => KeepsTags(s, job, spec)
    case _ => true
  }

  // ---- invariant ----

  ghost function Unmarked(tasks: Tasks, marked: set<Id>): Tasks {
    tasks - marked
  }

  // Marked members of a sharegroup keep its pool reserved.
  ghost function Kept(tasks: Tasks, marked: set<Id>): Tasks {
    map id | id in tasks && (id !in marked || tasks[id].group != "") :: tasks[id]
  }

  ghost predicate WithinCapacity(s: State, pool: map<string, nat>) {
    Cpu(Kept(s.tasks, s.marked), pool) <= s.effCpu && Mem(Unmarked(s.tasks, s.marked)) <= s.effMem
  }

  ghost predicate TagsOk(tasks: Tasks, jobs: map<string, Spec>) {
    forall id | id in tasks && tasks[id].job in jobs :: jobs[tasks[id].job].group == tasks[id].group
  }

  // All live tasks of one job share its tag, also while its record is gone.
  ghost predicate SameTags(live: Tasks) {
    forall a, b | a in live && b in live && live[a].job == live[b].job :: live[a].group == live[b].group
  }

  // Whoever is starting and not being stopped has its reservation.
  ghost predicate StartsOk(tasks: Tasks, starting: map<Id, Task>, stopping: set<Id>) {
    && (forall id | id in starting && id !in stopping :: id in tasks)
    && (forall id | id in starting && id in tasks :: tasks[id] == starting[id])
  }

  ghost predicate IdsOk(s: State) {
    s.tasks.Keys <= s.used && s.starting.Keys <= s.used && s.stopping <= s.used && s.marked <= s.stopping
  }

  ghost predicate Inv(s: State, pool: map<string, nat>) {
    && IdsOk(s)
    && Pooled(s.tasks, pool)
    && TagsOk(Live(s), s.jobs) && SameTags(Live(s))
    && StartsOk(s.tasks, s.starting, s.stopping)
    && WithinCapacity(s, pool)
  }

  // ---- sums ----

  ghost predicate Part(a: Tasks, b: Tasks) {
    a.Keys <= b.Keys && forall id | id in a :: a[id] == b[id]
  }

  lemma PartUsesLess(a: Tasks, b: Tasks, pool: map<string, nat>)
    requires Part(a, b)
    ensures Cpu(a, pool) <= Cpu(b, pool) && Mem(a) <= Mem(b)
  {
    SumMonotone(Mems(a), Mems(b));
    SumMonotone(Ungrouped(a), Ungrouped(b));
    forall g | g in Groups(a) ensures g in Groups(b) {
      var id :| id in a && a[id].group != "" && a[id].group == g;
      assert b[id].group == g;
    }
    SumMonotone(PoolsOf(Groups(a), pool), PoolsOf(Groups(b), pool));
  }

  lemma PooledPart(a: Tasks, b: Tasks, pool: map<string, nat>)
    requires Part(a, b) && Pooled(b, pool)
    ensures Pooled(a, pool)
  {
    forall id | id in a ensures a[id] == b[id] {
    }
  }

  lemma TaskTags(s: State)
    requires TagsOk(Live(s), s.jobs) && StartsOk(s.tasks, s.starting, s.stopping)
    ensures TagsOk(s.tasks, s.jobs)
    ensures forall id | id in s.tasks :: id in Live(s) && Live(s)[id] == s.tasks[id]
  {
    forall id | id in s.tasks ensures id in Live(s) && Live(s)[id] == s.tasks[id] {
    }
  }

  // Some sharegroups are lost from view.
  ghost predicate ViewOf(view: Tasks, tasks: Tasks) {
    view.Keys == tasks.Keys &&
    forall id | id in tasks :: view[id] == tasks[id] || view[id] == tasks[id].(group := "")
  }

  lemma ViewHasFewerGroups(view: Tasks, tasks: Tasks)
    requires ViewOf(view, tasks)
    ensures Groups(view) <= Groups(tasks) && Mems(view) == Mems(tasks)
  {
    forall g | g in Groups(view) ensures g in Groups(tasks) {
      var i :| i in view && view[i].group != "" && view[i].group == g;
      assert tasks[i].group == g;
    }
  }

  lemma ViewIsPooled(view: Tasks, tasks: Tasks, pool: map<string, nat>)
    requires ViewOf(view, tasks) && Pooled(tasks, pool)
    ensures Pooled(view, pool)
  {
    forall id | id in view && view[id].group != ""
      ensures view[id].group in pool && view[id].cpu == pool[view[id].group]
    {
      assert view[id] == tasks[id];
    }
  }

  /** Losing sight of a sharegroup, because its job record is gone, can only make the
      agent count more. */
  lemma {:induction false} ViewCountsNoLess(view: Tasks, tasks: Tasks, pool: map<string, nat>)
    requires ViewOf(view, tasks) && Pooled(tasks, pool)
    ensures Cpu(view, pool) >= Cpu(tasks, pool)
    decreases |tasks|
  {
    if tasks.Keys == {} {
      NothingUsesNothing(tasks, pool);
      NothingUsesNothing(view, pool);
    } else {
      var id :| id in tasks.Keys;
      var v, t := view - {id}, tasks - {id};
      assert t.Keys == tasks.Keys - {id};
      assert |t.Keys| < |tasks.Keys|;
      assert ViewOf(v, t) && Part(t, tasks);
      PooledPart(t, tasks, pool);
      ViewCountsNoLess(v, t, pool);
      ViewIsPooled(view, tasks, pool);
      ViewHasFewerGroups(v, t);
      TakeTask(tasks, id, pool);
      TakeTask(view, id, pool);
    }
  }

  // What the admission check counts is at least what is there.
  lemma CheckCounts(s: State, exclude: string, order: seq<Id>, pool: map<string, nat>)
    requires Pooled(s.tasks, pool) && TagsOk(Live(s), s.jobs) && IsOrder(s.tasks, order)
    requires StartsOk(s.tasks, s.starting, s.stopping)
    ensures Walk(Viewed(s.tasks, s.jobs), exclude, order, {}) >= Cpu(Counted(s.tasks, exclude), pool)
    ensures WalkMem(Viewed(s.tasks, s.jobs), exclude, order) == Mem(Counted(s.tasks, exclude))
  {
    var view, counted := Viewed(s.tasks, s.jobs), Counted(s.tasks, exclude);
    TaskTags(s);
    forall id | id in s.tasks ensures view[id] == s.tasks[id] || view[id] == s.tasks[id].(group := "") {
    }
    assert ViewOf(Counted(view, exclude), counted);
    PooledPart(counted, s.tasks, pool);
    ViewCountsNoLess(Counted(view, exclude), counted, pool);
    ViewIsPooled(Counted(view, exclude), counted, pool);
    ViewHasFewerGroups(Counted(view, exclude), counted);
    UsageIsOrderFree(view, exclude, order, pool);
    WalkMemIsSum(view, exclude, order);
  }

  /** Where members of a sharegroup are charged alike, the walk over the tasks in whatever
      order decides by these sums: the others' usage, the newcomer's share (nothing if its
      sharegroup runs), the capacity, and for a new partition the free hole. */
  lemma AdmitsIff(s: State, e: Event, pool: map<string, nat>)
    requires e.EvRun? && IsOrder(s.tasks, e.order) && Pooled(Viewed(s.tasks, s.jobs), pool)
    ensures var view := Viewed(s.tasks, s.jobs);
            var others := Counted(view, if e.replace then e.job else "");
            Admits(s, e) <==>
              && (e.spec.cpu > 0 ==> Cpu(others, pool) + Share(view, e.spec) <= s.effCpu)
              && (e.spec.mem > 0 ==> Mem(others) + e.spec.mem <= s.effMem)
              && (e.spec.mem > 0 && !e.replace ==> e.fits)
  {
    var view, exclude := Viewed(s.tasks, s.jobs), if e.replace then e.job else "";
    PooledPart(Counted(view, exclude), view, pool);
    UsageIsOrderFree(view, exclude, e.order, pool);
    WalkMemIsSum(view, exclude, e.order);
  }

  // What a newcomer adds: nothing exactly if it joins a sharegroup that runs.
  ghost function Share(view: Tasks, spec: Spec): nat {
    if spec.group != "" && exists id | id in view :: view[id].group == spec.group then 0 else spec.cpu
  }

  // ---- every step keeps it ----

  lemma KeptPart(tasks: Tasks, marked: set<Id>)
    ensures Part(Kept(tasks, marked), tasks) && Part(Unmarked(tasks, marked), Kept(tasks, marked))
    ensures Groups(Kept(tasks, marked)) == Groups(tasks)
  {
    var kept := Kept(tasks, marked);
    forall g | g in Groups(tasks) ensures g in Groups(kept) {
      var id :| id in tasks && tasks[id].group != "" && tasks[id].group == g;
      assert kept[id].group == g;
    }
    forall g | g in Groups(kept) ensures g in Groups(tasks) {
      var id :| id in kept && kept[id].group != "" && kept[id].group == g;
      assert tasks[id].group == g;
    }
  }

  // Fewer tasks with no fewer marks stay within capacity.
  lemma ShrinkWithin(s: State, tasks: Tasks, marked: set<Id>, pool: map<string, nat>)
    requires Part(tasks, s.tasks) && s.marked <= marked && WithinCapacity(s, pool)
    ensures Cpu(Kept(tasks, marked), pool) <= s.effCpu && Mem(Unmarked(tasks, marked)) <= s.effMem
  {
    PartUsesLess(Kept(tasks, marked), Kept(s.tasks, s.marked), pool);
    PartUsesLess(Unmarked(tasks, marked), Unmarked(s.tasks, s.marked), pool);
  }

  // A sharegroup that the check sees running has its pool counted.
  lemma RunningGroupIsCounted(s: State, group: string)
    requires TagsOk(s.tasks, s.jobs) && group != "" && GroupRuns(Viewed(s.tasks, s.jobs), group)
    ensures group in Groups(s.tasks)
  {
    var view := Viewed(s.tasks, s.jobs);
    var id :| id in view && view[id].group == group;
    assert s.tasks[id].group == group;
  }

  // Adding the admitted task to what is left of the others once `olds` are marked.
  lemma AdmittedCpu(s: State, e: Event, pool: map<string, nat>)
    requires Inv(s, pool) && e.EvRun? && Enabled(s, e) && Polite(s, e, pool) && Admits(s, e)
    ensures var t, olds := Born(e.job, e.spec), if e.replace then TasksOf(s.tasks, e.job) else {};
            Cpu(Kept(s.tasks, s.marked + olds)[e.id := t], pool) <= s.effCpu
  {
    var t, olds := Born(e.job, e.spec), if e.replace then TasksOf(s.tasks, e.job) else {};
    var exclude := if e.replace then e.job else "";
    var left := Kept(s.tasks, s.marked + olds);
    KeptPart(s.tasks, s.marked + olds);
    ShrinkWithin(s, s.tasks, s.marked + olds, pool);
    AddTask(left, e.id, t, pool);
    if t.cpu > 0 && (t.group == "" || t.group !in Groups(s.tasks)) {
      TaskTags(s);
      if t.group != "" && GroupRuns(Viewed(s.tasks, s.jobs), t.group) {
        RunningGroupIsCounted(s, t.group);
      }
      CheckCounts(s, exclude, e.order, pool);
      NoneOfTheJob(s, e, left);
      PartUsesLess(left, Counted(s.tasks, exclude), pool);
    }
  }

  // If the newcomer's pool is not reserved yet, nothing that stays counted is of its job.
  lemma NoneOfTheJob(s: State, e: Event, left: Tasks)
    requires e.EvRun? && KeepsTags(s, e.job, e.spec) && StartsOk(s.tasks, s.starting, s.stopping)
    requires e.spec.group == "" || e.spec.group !in Groups(s.tasks)
    requires left == Kept(s.tasks, s.marked + if e.replace then TasksOf(s.tasks, e.job) else {})
    ensures Part(left, Counted(s.tasks, if e.replace then e.job else ""))
  {
    forall id | id in left && e.replace ensures left[id].job != e.job {
      assert id in Live(s) && Live(s)[id] == s.tasks[id];
      assert s.tasks[id].group != "" ==> s.tasks[id].group in Groups(s.tasks);
    }
  }

  lemma AdmittedMem(s: State, e: Event, pool: map<string, nat>)
    requires Inv(s, pool) && e.EvRun? && Enabled(s, e) && Admits(s, e)
    ensures var t, olds := Born(e.job, e.spec), if e.replace then TasksOf(s.tasks, e.job) else {};
            Mem(Unmarked(s.tasks, s.marked + olds)[e.id := t]) <= s.effMem
  {
    var t, olds := Born(e.job, e.spec), if e.replace then TasksOf(s.tasks, e.job) else {};
    var exclude := if e.replace then e.job else "";
    var left := Unmarked(s.tasks, s.marked + olds);
    ShrinkWithin(s, s.tasks, s.marked + olds, pool);
    MemAfter(left, e.id, t);
    if t.mem > 0 {
      CheckCounts(s, exclude, e.order, pool);
      PartUsesLess(left, Counted(s.tasks, exclude), pool);
    }
  }

  lemma TagsAfter(live: Tasks, jobs: map<string, Spec>, id: Id, t: Task)
    requires TagsOk(live, jobs) && SameTags(live)
    requires forall i | i in live && live[i].job == t.job :: live[i].group == t.group
    requires t.job in jobs ==> jobs[t.job].group == t.group
    ensures TagsOk(live[id := t], jobs) && SameTags(live[id := t])
  {
  }

  lemma TagsAfterRecord(live: Tasks, jobs: map<string, Spec>, job: string, spec: Spec)
    requires TagsOk(live, jobs) && forall i | i in live && live[i].job == job :: live[i].group == spec.group
    ensures TagsOk(live, jobs[job := spec])
  {
  }

  lemma TagsPart(live: Tasks, whole: Tasks, jobs: map<string, Spec>, jobs': map<string, Spec>)
    requires Part(live, whole) && TagsOk(whole, jobs) && SameTags(whole)
    requires jobs'.Keys <= jobs.Keys && forall j | j in jobs' :: jobs'[j] == jobs[j]
    ensures TagsOk(live, jobs') && SameTags(live)
  {
  }

  lemma KeptAfterAdd(tasks: Tasks, marked: set<Id>, id: Id, t: Task)
    requires id !in marked
    ensures Kept(tasks[id := t], marked) == Kept(tasks, marked)[id := t]
    ensures Unmarked(tasks[id := t], marked) == Unmarked(tasks, marked)[id := t]
  {
  }

  lemma KeptAfterTake(tasks: Tasks, marked: set<Id>, id: Id)
    ensures Kept(tasks - {id}, marked) == Kept(tasks, marked) - {id}
    ensures Unmarked(tasks - {id}, marked) == Unmarked(tasks, marked) - {id}
  {
  }

  lemma PooledAfterAdd(tasks: Tasks, id: Id, t: Task, pool: map<string, nat>)
    requires Pooled(tasks, pool) && (t.group != "" ==> t.group in pool && t.cpu == pool[t.group])
    ensures Pooled(tasks[id := t], pool)
  {
  }

  lemma RunWithin(s: State, e: Event, pool: map<string, nat>)
    requires Inv(s, pool) && e.EvRun? && Enabled(s, e) && Polite(s, e, pool) && Admits(s, e)
    ensures WithinCapacity(Apply(s, e), pool)
  {
    var olds := if e.replace then TasksOf(s.tasks, e.job) else {};
    AdmittedCpu(s, e, pool);
    AdmittedMem(s, e, pool);
    KeptAfterAdd(s.tasks, s.marked + olds, e.id, Born(e.job, e.spec));
  }

  lemma RunInv(s: State, e: Event, pool: map<string, nat>)
    requires Inv(s, pool) && e.EvRun? && Enabled(s, e) && Polite(s, e, pool)
    ensures Inv(Apply(s, e), pool)
  {
    if Admits(s, e) {
      var s' := Apply(s, e);
      RunWithin(s, e, pool);
      RunTables(s, s', e, Born(e.job, e.spec), pool);
      StoppingMore(s'.tasks, s'.starting, s.stopping, s'.stopping);
      assert IdsOk(s');
    }
  }

  lemma StoppingMore(tasks: Tasks, starting: map<Id, Task>, stopping: set<Id>, more: set<Id>)
    requires StartsOk(tasks, starting, stopping) && stopping <= more
    ensures StartsOk(tasks, starting, more)
  {
  }

  lemma RunTables(s: State, s': State, e: Event, t: Task, pool: map<string, nat>)
    requires Inv(s, pool) && e.EvRun? && Enabled(s, e) && Polite(s, e, pool) && t == Born(e.job, e.spec)
    requires s'.tasks == s.tasks[e.id := t] && s'.starting == s.starting[e.id := t]
             && s'.jobs == s.jobs[e.job := e.spec]
    ensures Pooled(s'.tasks, pool) && TagsOk(Live(s'), s'.jobs) && SameTags(Live(s'))
    ensures StartsOk(s'.tasks, s'.starting, s.stopping)
  {
    PooledAfterAdd(s.tasks, e.id, t, pool);
    LiveAfterAdd(s.tasks, s.starting, e.id, t);
    TagsAfterRecord(Live(s), s.jobs, e.job, e.spec);
    TagsAfter(Live(s), s'.jobs, e.id, t);
  }

  lemma LiveAfterAdd(tasks: Tasks, starting: Tasks, id: Id, t: Task)
    ensures tasks[id := t] + starting[id := t] == (tasks + starting)[id := t]
  {
  }

  // Taking a task out and putting an equal one in changes no sum.
  lemma Exchange(tasks: Tasks, id: Id, newId: Id, pool: map<string, nat>)
    requires id in tasks && newId !in tasks && Pooled(tasks, pool)
    ensures var after := (tasks - {id})[newId := tasks[id]];
            Cpu(after, pool) == Cpu(tasks, pool) && Mem(after) == Mem(tasks) && Pooled(after, pool)
  {
    TakeTask(tasks, id, pool);
    AddTask(tasks - {id}, newId, tasks[id], pool);
  }

  lemma SwapInv(s: State, id: Id, newId: Id, spec: Spec, pool: map<string, nat>)
    requires Inv(s, pool) && Enabled(s, EvSwap(id, newId, spec)) && Polite(s, EvSwap(id, newId, spec), pool)
    ensures Inv(Apply(s, EvSwap(id, newId, spec)), pool)
  {
    if id in s.tasks {
      var s' := Apply(s, EvSwap(id, newId, spec));
      SwapWithin(s, s', id, newId, pool);
      Exchange(s.tasks, id, newId, pool);
      SwapTags(s, s', id, newId);
    }
  }

  lemma SwapWithin(s: State, s': State, id: Id, newId: Id, pool: map<string, nat>)
    requires Inv(s, pool) && id in s.tasks && newId !in s.used && id !in s.marked
    requires s'.tasks == (s.tasks - {id})[newId := s.tasks[id]] && s'.marked == s.marked
    requires s'.effCpu == s.effCpu && s'.effMem == s.effMem
    ensures WithinCapacity(s', pool)
  {
    var kept, unmarked := Kept(s.tasks, s.marked), Unmarked(s.tasks, s.marked);
    KeptPart(s.tasks, s.marked);
    PooledPart(kept, s.tasks, pool);
    PooledPart(unmarked, s.tasks, pool);
    Exchange(kept, id, newId, pool);
    Exchange(unmarked, id, newId, pool);
    KeptAfterTake(s.tasks, s.marked, id);
    KeptAfterAdd(s.tasks - {id}, s.marked, newId, s.tasks[id]);
  }

  lemma SwapTags(s: State, s': State, id: Id, newId: Id)
    requires TagsOk(Live(s), s.jobs) && SameTags(Live(s)) && StartsOk(s.tasks, s.starting, s.stopping)
    requires id in s.tasks && id !in s.starting && newId !in Live(s)
    requires s'.tasks == (s.tasks - {id})[newId := s.tasks[id]] && s'.starting == s.starting && s'.jobs == s.jobs
    ensures TagsOk(Live(s'), s'.jobs) && SameTags(Live(s'))
  {
    var t := s.tasks[id];
    assert Live(s)[id] == t;
    TagsAfter(Live(s), s.jobs, newId, t);
    assert Part(Live(s'), Live(s)[newId := t]);
    TagsPart(Live(s'), Live(s)[newId := t], s.jobs, s.jobs);
  }

  // Everything else only takes tasks and start routines away, or marks tasks.
  lemma LeaveInv(s: State, s': State, pool: map<string, nat>)
    requires Inv(s, pool) && s'.effCpu == s.effCpu && s'.effMem == s.effMem && s'.used == s.used
    requires Part(s'.tasks, s.tasks) && Part(s'.starting, s.starting)
    requires s'.marked == s.marked && s.stopping <= s'.stopping <= s.used
    requires forall id | id in s'.starting && id in s.tasks && id !in s'.stopping :: id in s'.tasks
    requires s'.jobs.Keys <= s.jobs.Keys && forall j | j in s'.jobs :: s'.jobs[j] == s.jobs[j]
    ensures Inv(s', pool)
  {
    ShrinkWithin(s, s'.tasks, s'.marked, pool);
    PooledPart(s'.tasks, s.tasks, pool);
    assert Part(Live(s'), Live(s)) by {
      TaskTags(s);
    }
    TagsPart(Live(s'), Live(s), s.jobs, s'.jobs);
  }

  // Records may be rewritten as long as they keep the tags.
  lemma RecordInv(s: State, job: string, spec: Spec, pool: map<string, nat>)
    requires Inv(s, pool) && KeepsTags(s, job, spec)
    ensures Inv(s.(jobs := s.jobs[job := spec]), pool)
  {
    TagsAfterRecord(Live(s), s.jobs, job, spec);
  }

  lemma RegisterInv(s: State, id: Id, pool: map<string, nat>)
    requires Inv(s, pool) && id in s.starting
    ensures Inv(s.(jobs := Recorded(s.jobs, s.starting[id])), pool)
  {
    var t := s.starting[id];
    assert id in Live(s) && Live(s)[id] == t;
    assert KeepsTags(s, t.job, Spec(t.group, t.cpu, t.mem));
    RecordInv(s, t.job, Spec(t.group, t.cpu, t.mem), pool);
  }

  lemma StartBeginInv(s: State, id: Id, pool: map<string, nat>)
    requires Inv(s, pool) && Enabled(s, EvStartBegin(id))
    ensures Inv(Apply(s, EvStartBegin(id)), pool)
  {
    if id in s.stopping {
      LeaveInv(s, Apply(s, EvStartBegin(id)), pool);
    } else {
      RegisterInv(s, id, pool);
    }
  }

  lemma StartDoneInv(s: State, id: Id, pool: map<string, nat>)
    requires Inv(s, pool) && Enabled(s, EvStartDone(id))
    ensures Inv(Apply(s, EvStartDone(id)), pool)
  {
    var s' := Apply(s, EvStartDone(id));
    if s'.tasks != s.tasks - {id} {
      assert s'.tasks == s.tasks;
    }
    if s.starting[id].job in s.jobs {
      RegisterInv(s, id, pool);
      LeaveInv(s.(jobs := Recorded(s.jobs, s.starting[id])), s', pool);
    } else {
      LeaveInv(s, s', pool);
    }
  }

  lemma StepInv(s: State, e: Event, pool: map<string, nat>)
    requires Inv(s, pool) && Enabled(s, e) && Polite(s, e, pool)
    ensures Inv(Apply(s, e), pool)
    ensures Apply(s, e).effCpu == s.effCpu && Apply(s, e).effMem == s.effMem
  {
    match e
    case EvRun(_, _, _, _, _, _) => RunInv(s, e, pool);
    case EvStartBegin(id) => StartBeginInv(s, id, pool);
    case EvStartDone(id) => StartDoneInv(s, id, pool);
    case EvSwap(id, newId, spec) => SwapInv(s, id, newId, spec, pool);
    case EvStoreJob(job, spec) => RecordInv(s, job, spec, pool);
    case _ => LeaveInv(s, Apply(s, e), pool);
  }

  // ---- runs ----

  ghost predicate Init(s: State) {
    s.tasks.Keys == {} && s.starting.Keys == {} && s.stopping == {} && s.marked == {}
  }

  ghost predicate IsRun(states: seq<State>, events: seq<Event>, pool: map<string, nat>) {
    && |states| == |events| + 1 && Init(states[0])
    && forall i {:trigger events[i]} | 0 <= i < |events| ::
         && Enabled(states[i], events[i]) && Polite(states[i], events[i], pool)
         && states[i + 1] == Apply(states[i], events[i])
  }

  ghost predicate Reachable(s: State, pool: map<string, nat>) {
    exists states, events :: IsRun(states, events, pool) && s == states[|events|]
  }

  lemma ReachInit(s: State, pool: map<string, nat>)
    requires Init(s)
    ensures Reachable(s, pool)
  {
    var states, events: seq<Event> := [s], [];
    assert IsRun(states, events, pool) && states[|events|] == s;
  }

  lemma ReachStep(s: State, e: Event, pool: map<string, nat>)
    requires Reachable(s, pool) && Enabled(s, e) && Polite(s, e, pool)
    ensures Reachable(Apply(s, e), pool)
  {
    var states, events :| IsRun(states, events, pool) && s == states[|events|];
    Longer(states, events, Apply(s, e), e, pool);
  }

  lemma Longer(states: seq<State>, events: seq<Event>, s: State, e: Event, pool: map<string, nat>)
    requires IsRun(states, events, pool) && Enabled(states[|events|], e) && Polite(states[|events|], e, pool)
    requires s == Apply(states[|events|], e)
    ensures Reachable(s, pool)
  {
    var longer, more := states + [s], events + [e];
    forall i {:trigger more[i]} | 0 <= i < |more|
      ensures Enabled(longer[i], more[i]) && Polite(longer[i], more[i], pool)
              && longer[i + 1] == Apply(longer[i], more[i])
    {
      assert i < |events| ==> more[i] == events[i] && longer[i + 1] == states[i + 1];
    }
    assert IsRun(longer, more, pool) && longer[|more|] == s;
  }

  lemma InitInv(s: State, pool: map<string, nat>)
    requires Init(s)
    ensures Inv(s, pool)
  {
    NothingUsesNothing(Kept(s.tasks, s.marked), pool);
    NothingUsesNothing(Unmarked(s.tasks, s.marked), pool);
  }

  lemma {:induction false} RunsInv(states: seq<State>, events: seq<Event>, pool: map<string, nat>, n: nat)
    requires IsRun(states, events, pool) && n < |states|
    ensures Inv(states[n], pool)
    ensures states[n].effCpu == states[0].effCpu && states[n].effMem == states[0].effMem
  {
    if n == 0 {
      InitInv(states[0], pool);
    } else {
      RunsInv(states, events, pool, n - 1);
      StepInv(states[n - 1], events[n - 1], pool);
    }
  }

  lemma ReachableInv(s: State, pool: map<string, nat>)
    requires Reachable(s, pool)
    ensures Inv(s, pool)
  {
    var states, events :| IsRun(states, events, pool) && s == states[|events|];
    RunsInv(states, events, pool, |events|);
  }

  /** Over every run of accepts, replaces, starts that fail or are handed back, restarts,
      stops and deletes: the tasks of the agent, leaving out predecessors marked by a
      replace, never use more CPU (one pool per sharegroup) or memory than it has. */
  lemma CapacityHolds(states: seq<State>, events: seq<Event>, pool: map<string, nat>, n: nat)
    requires IsRun(states, events, pool) && n < |states|
    ensures var left := Unmarked(states[n].tasks, states[n].marked);
            Cpu(left, pool) <= states[0].effCpu && Mem(left) <= states[0].effMem
  {
    RunsInv(states, events, pool, n);
    KeptPart(states[n].tasks, states[n].marked);
    PartUsesLess(Unmarked(states[n].tasks, states[n].marked), Kept(states[n].tasks, states[n].marked), pool);
  }

  /** With no replace in progress that is all of them. */
  lemma CapacityHoldsForAll(states: seq<State>, events: seq<Event>, pool: map<string, nat>, n: nat)
    requires IsRun(states, events, pool) && n < |states|
    requires states[n].marked !! states[n].tasks.Keys
    ensures Cpu(states[n].tasks, pool) <= states[0].effCpu && Mem(states[n].tasks) <= states[0].effMem
  {
    CapacityHolds(states, events, pool, n);
    assert Unmarked(states[n].tasks, states[n].marked) == states[n].tasks;
  }
}
