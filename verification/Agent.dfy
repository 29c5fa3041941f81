/** The agent's task and job maps as an object: admission, start, restart swap, stop and
    delete, each proved to be the step `Admission` reasons about. */
module AgentState {
  import opened Usage
  import opened Admission

  const CORE: nat := 1024
  const BLOCK: nat := 2 * 1024 * 1024

  datatype Answer = Accepted | AffinityMismatch | NoCapacity

  function RoundUp(x: nat, unit: nat): nat
    requires unit > 0
  {
    (x + unit - 1) / unit * unit
  }

  // On HopOS a task costs whole cores, at least one, and memory in whole blocks.
  function Cost(asked: Spec, hop: bool): Spec {
    if !hop then asked
    else Spec(asked.group, if asked.cpu == 0 then CORE else RoundUp(asked.cpu, CORE), RoundUp(asked.mem, BLOCK))
  }

  lemma NextMultiple(q: nat, r: nat, unit: nat, x: nat, k: nat)
    requires 0 <= r < unit && q * unit + r == x + unit - 1
    ensures k < q ==> k * unit < x
  {
    if k < q {
      assert (k + 1) * unit <= q * unit;
      assert (k + 1) * unit == k * unit + unit;
    }
  }

  lemma RoundUpIsLeast(x: nat, unit: nat, k: nat)
    requires unit > 0
    ensures x <= RoundUp(x, unit) < x + unit
    ensures k * unit >= x ==> k * unit >= RoundUp(x, unit)
  {
    var q, r := (x + unit - 1) / unit, (x + unit - 1) % unit;
    assert q * unit + r == x + unit - 1;
    if k * unit >= x {
      NextMultiple(q, r, unit, x, k);
      assert k * unit >= q * unit;
    }
  }

  lemma WholeCores(x: nat)
    ensures RoundUp(x, CORE) % CORE == 0
  {
  }

  lemma WholeBlocks(x: nat)
    ensures RoundUp(x, BLOCK) % BLOCK == 0
  {
  }

  /** What a HopOS task is charged is what it was given: at least what it asked for, in
      whole cores and blocks, and with no whole unit to spare. */
  lemma CostCoversWithLeastUnits(asked: Spec, k: nat)
    ensures var cost := Cost(asked, true);
            && cost.cpu >= CORE && asked.cpu <= cost.cpu && asked.mem <= cost.mem < asked.mem + BLOCK
            && (asked.cpu > 0 ==> cost.cpu < asked.cpu + CORE)
            && (asked.mem <= k * BLOCK ==> cost.mem <= k * BLOCK)
            && cost.cpu % CORE == 0 && cost.mem % BLOCK == 0
            && (asked.cpu == 0 ==> cost.cpu == CORE)
            && cost.group == asked.group && Cost(asked, false) == asked
  {
    RoundUpIsLeast(asked.cpu, CORE, 1);
    RoundUpIsLeast(asked.mem, BLOCK, k);
    WholeCores(asked.cpu);
    WholeBlocks(asked.mem);
  }

  function Effective(detected: nat, cap: nat): (r: nat)
    ensures r <= detected && (0 < cap ==> r <= cap) && (r == detected || r == cap)
  {
    if 0 < cap < detected then cap else detected
  }

  class Agent {
    const effCpu: nat
    const effMem: nat
    var tasks: Tasks
    var jobs: map<string, Spec>
    var stopping: set<Id>
    var starting: map<Id, Task>
    ghost var marked: set<Id>
    ghost var used: set<Id>

    ghost function View(): State
      reads this
    {
      State(effCpu, effMem, tasks, jobs, stopping, marked, starting, used)
    }

    constructor (cores: nat, memory: nat, capCpu: nat, capMem: nat)
      ensures Init(View()) && effCpu == Effective(cores * CORE, capCpu) && effMem == Effective(memory, capMem)
    {
      effCpu, effMem := Effective(cores * CORE, capCpu), Effective(memory, capMem);
      tasks, jobs, stopping, starting, marked, used := map[], map[], {}, map[], {}, {};
    }

    method SharegroupRunning(group: string) returns (r: bool)
      ensures r == GroupRuns(Viewed(tasks, jobs), group)
      ensures group != "" ==>
                (r <==> exists id | id in tasks :: tasks[id].job in jobs && jobs[tasks[id].job].group == group)
    {
      var left := tasks.Keys;
      while left != {}
        invariant left <= tasks.Keys
        invariant forall id | id in tasks && id !in left :: GroupNow(jobs, tasks[id]) != group
        decreases |left|
      {
        var id :| id in left;
        left := left - {id};
        if GroupNow(jobs, tasks[id]) == group {
          assert Viewed(tasks, jobs)[id].group == group;
          return true;
        }
      }
      return false;
    }

    lemma AcceptedIff(e: Event)
      requires e.EvRun? && IsOrder(tasks, e.order)
      ensures forall pool | Pooled(Viewed(tasks, jobs), pool) ::
                var view := Viewed(tasks, jobs);
                var others := Counted(view, if e.replace then e.job else "");
                Admits(View(), e) <==>
                  && (e.spec.cpu > 0 ==> Cpu(others, pool) + Share(view, e.spec) <= effCpu)
                  && (e.spec.mem > 0 ==> Mem(others) + e.spec.mem <= effMem)
                  && (e.spec.mem > 0 && !e.replace ==> e.fits)
    {
      forall pool | Pooled(Viewed(tasks, jobs), pool) {
        AdmitsIff(View(), e, pool);
      }
    }

    /** The admission decision; nothing is changed by it. */
    method Fits(job: string, spec: Spec, replace: bool, room: bool, order: seq<Id>) returns (r: bool)
      requires IsOrder(tasks, order)
      ensures forall id :: r == Admits(View(), EvRun(id, job, spec, replace, room, order))
      ensures forall pool | Pooled(Viewed(tasks, jobs), pool) ::
                var view := Viewed(tasks, jobs);
                var others := Counted(view, if replace then job else "");
                r <==>
                  && (spec.cpu > 0 ==> Cpu(others, pool) + Share(view, spec) <= effCpu)
                  && (spec.mem > 0 ==> Mem(others) + spec.mem <= effMem)
                  && (spec.mem > 0 && !replace ==> room)
    {
      AcceptedIff(EvRun(0, job, spec, replace, room, order));
      var exclude := if replace then job else "";
      var cpu, mem := ResourceUsageExcluding(Viewed(tasks, jobs), exclude, order);
      var newCpu := spec.cpu;
      if spec.group != "" {
        var running := SharegroupRunning(spec.group);
        if running {
          newCpu := 0;
        }
      }
      if spec.cpu > 0 && cpu + newCpu > effCpu {
        return false;
      }
      if spec.mem > 0 && mem + spec.mem > effMem {
        return false;
      }
      return spec.mem == 0 || replace || room;
    }

    /** A request to run a job. A refusal, also of a replace, changes nothing at all; an
        accepted one reserves in the same step, and a replace then marks its
        predecessors. `largest` is the largest free hole, 0 if unknown. */
    method HandleRun(id: Id, job: string, asked: Spec, hop: bool, replace: bool, matches: bool, largest: nat,
                     order: seq<Id>)
      returns (answer: Answer)
      requires id !in used && IsOrder(tasks, order)
      modifies this
      ensures answer.AffinityMismatch? <==> !matches
      ensures !answer.Accepted? ==> View() == old(View())
      ensures var cost := Cost(asked, hop);
              var e := EvRun(id, job, cost, replace, !(hop && 0 < largest < cost.mem), order);
              matches ==> View() == Apply(old(View()), e) && answer.Accepted? == Admits(old(View()), e)
      ensures forall pool | Pooled(Viewed(old(tasks), old(jobs)), pool) ::
                var view, cost := Viewed(old(tasks), old(jobs)), Cost(asked, hop);
                var others := Counted(view, if replace then job else "");
                answer.Accepted? <==>
                  && matches
                  && (cost.cpu > 0 ==> Cpu(others, pool) + Share(view, cost) <= effCpu)
                  && (cost.mem > 0 ==> Mem(others) + cost.mem <= effMem)
                  && (hop && cost.mem > 0 && !replace && largest > 0 ==> cost.mem <= largest)
      ensures answer.Accepted? && hop && Cost(asked, hop).mem > 0 && !replace && largest > 0 ==>
                Cost(asked, hop).mem <= largest
      ensures answer.Accepted? ==>
                var t := Task(job, asked.group, Cost(asked, hop).cpu, Cost(asked, hop).mem);
                && tasks == old(tasks)[id := t] && starting == old(starting)[id := t]
                && jobs == old(jobs)[job := Cost(asked, hop)]
                && stopping == old(stopping) + if replace then TasksOf(old(tasks), job) else {}
    {
      if !matches {
        return AffinityMismatch;
      }
      var cost := Cost(asked, hop);
      var ok := Fits(job, cost, replace, !(hop && 0 < largest < cost.mem), order);
      if !ok {
        return NoCapacity;
      }
      Take(id, job, cost, replace);
      return Accepted;
    }

    // Marks the predecessors a replace will stop, and reserves for the newcomer.
    method Take(id: Id, job: string, cost: Spec, replace: bool)
      modifies this
      ensures var olds := if replace then TasksOf(old(tasks), job) else {};
              && tasks == old(tasks)[id := Born(job, cost)] && starting == old(starting)[id := Born(job, cost)]
              && jobs == old(jobs)[job := cost] && used == old(used) + {id}
              && stopping == old(stopping) + olds && marked == old(marked) + olds
    {
      if replace {
        var olds := JobTasks(job);
        stopping, marked := stopping + olds, marked + olds;
      } else {
        assert stopping + {} == stopping && marked + {} == marked;
      }
      jobs := jobs[job := cost];
      tasks := tasks[id := Born(job, cost)];
      starting := starting[id := Born(job, cost)];
      used := used + {id};
    }

    method JobTasks(job: string) returns (ids: set<Id>)
      ensures ids == TasksOf(tasks, job)
      ensures forall id :: id in ids <==> id in tasks && tasks[id].job == job
    {
      ids := {};
      var left := tasks.Keys;
      while left != {}
        invariant left <= tasks.Keys
        invariant forall id :: id in ids <==> id in tasks && id !in left && tasks[id].job == job
        decreases |left|
      {
        var id :| id in left;
        left := left - {id};
        if tasks[id].job == job {
          ids := ids + {id};
        }
      }
    }

    /** First step of a start: registers the job again, unless the task was stopped. */
    method StartJob(id: Id) returns (go: bool)
      requires id in starting
      modifies this
      ensures View() == Apply(old(View()), EvStartBegin(id)) && go == (id !in stopping)
      ensures stopping == old(stopping) && tasks == old(tasks)
      ensures var t := old(starting)[id];
              && jobs == (if go then old(jobs)[t.job := Spec(t.group, t.cpu, t.mem)] else old(jobs))
              && starting == (if go then old(starting) else old(starting) - {id})
    {
      if id in stopping {
        starting := starting - {id};
        return false;
      }
      var t := starting[id];
      jobs := Recorded(jobs, t);
      return true;
    }

    /** Last step of a start: the task is running and its job's record is written back,
        unless the job was swept away in the meantime, or the task was; then it is stopped
        again. */
    method Started(id: Id) returns (alive: bool)
      requires id in starting
      modifies this
      ensures View() == Apply(old(View()), EvStartDone(id))
      ensures stopping == old(stopping) && starting == old(starting) - {id}
      ensures var t := old(starting)[id];
              && jobs == (if t.job in old(jobs) then old(jobs)[t.job := Spec(t.group, t.cpu, t.mem)] else old(jobs))
              && tasks == (if alive then old(tasks)[id := t] else old(tasks) - {id})
      ensures alive == (old(starting)[id].job in jobs && id !in stopping)
    {
      var t := starting[id];
      starting := starting - {id};
      if t.job !in jobs {
        tasks := tasks - {id};
        return false;
      }
      jobs := Recorded(jobs, t);
      if id in stopping {
        tasks := tasks - {id};
        return false;
      }
      tasks := tasks[id := t];
      return true;
    }

    method ReleaseUnplaceable(id: Id)
      requires id in used
      modifies this
      ensures View() == Apply(old(View()), EvHandBack(id))
      ensures tasks == old(tasks) - {id} && starting == old(starting) - {id} && jobs == old(jobs)
    {
      starting := starting - {id};
      tasks := tasks - {id};
    }

    /** The swap of a restart: out and in are one step, so the reservation never lapses. */
    method SwapTask(id: Id, newId: Id, spec: Spec) returns (swapped: bool)
      requires id in used && id !in starting && newId !in used
      modifies this
      ensures View() == Apply(old(View()), EvSwap(id, newId, spec)) && swapped == (id in old(tasks))
      ensures tasks == if swapped
                       then (old(tasks) - {id})[newId := Task(old(tasks)[id].job, spec.group, spec.cpu, spec.mem)]
                       else old(tasks)
    {
      if id !in tasks {
        return false;
      }
      var t := Born(tasks[id].job, spec);
      tasks := (tasks - {id})[newId := t];
      used := used + {newId};
      return true;
    }

    /** Marks a job's tasks; with `forget` also drops its record, in the same step. */
    method MarkJob(job: string, forget: bool) returns (ids: set<Id>)
      modifies this
      ensures ids == TasksOf(old(tasks), job)
      ensures View() == Apply(old(View()), if forget then EvDeleteJob(job) else EvMarkStopping(ids))
      ensures stopping == old(stopping) + ids && tasks == old(tasks)
      ensures jobs == if forget then old(jobs) - {job} else old(jobs)
    {
      ids := JobTasks(job);
      stopping := stopping + ids;
      if forget {
        jobs := jobs - {job};
      }
    }

    method StopTasks(ids: set<Id>)
      requires ids <= stopping
      modifies this
      ensures View() == Apply(old(View()), EvRemove(ids))
      ensures tasks == old(tasks) - ids && jobs == old(jobs) && stopping == old(stopping)
    {
      var left := ids;
      while left != {}
        invariant left <= ids
        invariant View() == old(View()).(tasks := old(tasks) - (ids - left))
        decreases |left|
      {
        var id :| id in left;
        left := left - {id};
        tasks := tasks - {id};
        assert tasks == old(tasks) - (ids - left);
      }
      assert ids - {} == ids;
    }

    /** Stopping (or deleting) a job leaves none of the tasks it had. */
    method StopJobTasks(job: string, forget: bool) returns (n: nat)
      modifies this
      ensures tasks == old(tasks) - TasksOf(old(tasks), job)
      ensures stopping == old(stopping) + TasksOf(old(tasks), job)
      ensures forall id :: id in tasks <==> id in old(tasks) && old(tasks)[id].job != job
      ensures TasksOf(tasks, job) == {} && n == |TasksOf(old(tasks), job)|
      ensures jobs == if forget then old(jobs) - {job} else old(jobs)
    {
      var ids := MarkJob(job, forget);
      StopTasks(ids);
      n := |ids|;
    }
  }
}
