/** Finite sums over the values of a map. */
module Sums {
  ghost function Sum<K(!new)>(m: map<K, int>): int {
    if m.Keys == {} then 0
    else
      var k :| k in m.Keys;
      m[k] + Sum(m - {k})
  }

  lemma {:induction false} SumTakesOut<K(!new)>(m: map<K, int>, k: K)
    requires k in m
    ensures Sum(m) == m[k] + Sum(m - {k})
    decreases |m|
  {
    assert m.Keys != {};
    var c :| c in m.Keys && Sum(m) == m[c] + Sum(m - {c});
    if c != k {
      Smaller(m, c);
      Smaller(m, k);
      SumTakesOut(m - {c}, k);
      SumTakesOut(m - {k}, c);
      assert m - {c} - {k} == m - {k} - {c};
    }
  }

  lemma Smaller<K(!new)>(m: map<K, int>, k: K)
    requires k in m
    ensures |m - {k}| < |m|
  {
    assert (m - {k}).Keys == m.Keys - {k};
    assert |m.Keys - {k}| < |m.Keys|;
  }

  lemma SumPutsIn<K(!new)>(m: map<K, int>, k: K, v: int)
    requires k !in m
    ensures Sum(m[k := v]) == Sum(m) + v
  {
    SumTakesOut(m[k := v], k);
    assert m[k := v] - {k} == m;
  }

  // Fewer entries and smaller ones add up to less.
  lemma {:induction false} SumMonotone<K(!new)>(m: map<K, int>, n: map<K, int>)
    requires m.Keys <= n.Keys
    requires forall k | k in m :: m[k] <= n[k]
    requires forall k | k in n && k !in m :: n[k] >= 0
    ensures Sum(m) <= Sum(n)
    decreases |n|
  {
    if n.Keys != {} {
      var k :| k in n.Keys;
      Smaller(n, k);
      SumTakesOut(n, k);
      SumMonotone(m - {k}, n - {k});
      if k in m {
        SumTakesOut(m, k);
      } else {
        assert m - {k} == m;
      }
    }
  }
}

/** What the tasks of an agent use: the loop over the task map, in whatever order it
    comes, against a sum that knows no order. */
module Usage {
  import opened Sums

  type Id = nat

  // `group` is what the job record says now ("" for no sharegroup, or no record).
  datatype Task = Task(job: string, group: string, cpu: nat, mem: nat)

  type Tasks = map<Id, Task>

  function Counted(tasks: Tasks, exclude: string): Tasks {
    map id | id in tasks && (exclude == "" || tasks[id].job != exclude) :: tasks[id]
  }

  ghost function Ungrouped(tasks: Tasks): map<Id, int> {
    map id | id in tasks && tasks[id].group == "" :: tasks[id].cpu
  }

  ghost function Groups(tasks: Tasks): set<string> {
    set id | id in tasks && tasks[id].group != "" :: tasks[id].group
  }

  ghost function PoolsOf(groups: set<string>, pool: map<string, nat>): map<string, int> {
    map g | g in pool && g in groups :: pool[g]
  }

  // Every member of a sharegroup carries the size of its pool.
  ghost predicate Pooled(tasks: Tasks, pool: map<string, nat>) {
    forall id | id in tasks && tasks[id].group != "" ::
        tasks[id].group in pool && tasks[id].cpu == pool[tasks[id].group]
  }

  /** All ungrouped tasks, and one pool for every sharegroup. */
  ghost function Cpu(tasks: Tasks, pool: map<string, nat>): int {
    Sum(Ungrouped(tasks)) + Sum(PoolsOf(Groups(tasks), pool))
  }

  ghost function Mems(tasks: Tasks): map<Id, int> {
    map id | id in tasks :: tasks[id].mem
  }

  ghost function Mem(tasks: Tasks): int {
    Sum(Mems(tasks))
  }

  lemma MemAfter(tasks: Tasks, id: Id, t: Task)
    requires id !in tasks
    ensures Mem(tasks[id := t]) == Mem(tasks) + t.mem
  {
    SumPutsIn(Mems(tasks), id, t.mem);
    assert Mems(tasks[id := t]) == Mems(tasks)[id := t.mem];
  }

  lemma UngroupedAfter(tasks: Tasks, id: Id, t: Task)
    requires id !in tasks
    ensures Sum(Ungrouped(tasks[id := t])) == Sum(Ungrouped(tasks)) + if t.group == "" then t.cpu else 0
  {
    if t.group == "" {
      SumPutsIn(Ungrouped(tasks), id, t.cpu);
      assert Ungrouped(tasks[id := t]) == Ungrouped(tasks)[id := t.cpu];
    } else {
      assert Ungrouped(tasks[id := t]) == Ungrouped(tasks);
    }
  }

  lemma PoolsAfter(groups: set<string>, g: string, pool: map<string, nat>)
    requires g in pool && g !in groups
    ensures Sum(PoolsOf(groups + {g}, pool)) == Sum(PoolsOf(groups, pool)) + pool[g]
  {
    SumPutsIn(PoolsOf(groups, pool), g, pool[g]);
    assert PoolsOf(groups + {g}, pool) == PoolsOf(groups, pool)[g := pool[g]];
  }

  lemma AddTask(tasks: Tasks, id: Id, t: Task, pool: map<string, nat>)
    requires id !in tasks && (t.group != "" ==> t.group in pool && t.cpu == pool[t.group])
    ensures Cpu(tasks[id := t], pool) ==
            Cpu(tasks, pool) + if t.group != "" && t.group in Groups(tasks) then 0 else t.cpu
    ensures Mem(tasks[id := t]) == Mem(tasks) + t.mem
  {
    MemAfter(tasks, id, t);
    UngroupedAfter(tasks, id, t);
    GroupsAfter(tasks, id, t);
    if t.group != "" {
      if t.group in Groups(tasks) {
        assert Groups(tasks) + {t.group} == Groups(tasks);
      } else {
        PoolsAfter(Groups(tasks), t.group, pool);
      }
    }
  }

  lemma GroupsAfter(tasks: Tasks, id: Id, t: Task)
    requires id !in tasks
    ensures Groups(tasks[id := t]) == if t.group == "" then Groups(tasks) else Groups(tasks) + {t.group}
  {
    var after := tasks[id := t];
    assert forall i | i in tasks :: after[i] == tasks[i];
    assert after[id] == t;
    forall g | g in Groups(tasks) ensures g in Groups(after) {
      var i :| i in tasks && tasks[i].group != "" && tasks[i].group == g;
      assert after[i].group == g;
    }
  }

  lemma TakeTask(tasks: Tasks, id: Id, pool: map<string, nat>)
    requires id in tasks && Pooled(tasks, pool)
    ensures var rest, t := tasks - {id}, tasks[id];
            && Cpu(tasks, pool) == Cpu(rest, pool) + (if t.group != "" && t.group in Groups(rest) then 0 else t.cpu)
            && Mem(tasks) == Mem(rest) + t.mem
  {
    var rest, t := tasks - {id}, tasks[id];
    assert tasks == rest[id := t];
    AddTask(rest, id, t, pool);
  }

  // ---- the loop ----

  /** The CPU the loop adds up from here on, having seen some groups. */
  function Walk(tasks: Tasks, exclude: string, order: seq<Id>, seen: set<string>): (cpu: nat)
    requires forall id | id in order :: id in tasks
    decreases |order|
  {
    if order == [] then 0
    else
      var t := tasks[order[0]];
      if exclude != "" && t.job == exclude then Walk(tasks, exclude, order[1..], seen)
      else if t.group == "" then t.cpu + Walk(tasks, exclude, order[1..], seen)
      else if t.group in seen then Walk(tasks, exclude, order[1..], seen)
      else t.cpu + Walk(tasks, exclude, order[1..], seen + {t.group})
  }

  function WalkMem(tasks: Tasks, exclude: string, order: seq<Id>): (mem: nat)
    requires forall id | id in order :: id in tasks
    decreases |order|
  {
    if order == [] then 0
    else
      var t := tasks[order[0]];
      (if exclude != "" && t.job == exclude then 0 else t.mem) + WalkMem(tasks, exclude, order[1..])
  }

  ghost predicate IsOrder(tasks: Tasks, order: seq<Id>) {
    && (forall i, k | 0 <= i < k < |order| :: order[i] != order[k])
    && (forall id :: id in order <==> id in tasks)
  }

  method ResourceUsageExcluding(tasks: Tasks, exclude: string, order: seq<Id>) returns (cpu: nat, mem: nat)
    requires IsOrder(tasks, order)
    ensures cpu == Walk(tasks, exclude, order, {}) && mem == WalkMem(tasks, exclude, order)
    ensures mem == Mem(Counted(tasks, exclude))
    ensures forall pool :: Pooled(Counted(tasks, exclude), pool) ==> cpu == Cpu(Counted(tasks, exclude), pool)
  {
    cpu, mem := 0, 0;
    var seen: set<string> := {};
    var i := 0;
    while i < |order|
      invariant 0 <= i <= |order|
      invariant cpu + Walk(tasks, exclude, order[i..], seen) == Walk(tasks, exclude, order, {})
      invariant mem + WalkMem(tasks, exclude, order[i..]) == WalkMem(tasks, exclude, order)
    {
      assert order[i..][1..] == order[i + 1..];
      var t := tasks[order[i]];
      i := i + 1;
      if exclude != "" && t.job == exclude {
        continue;
      }
      mem := mem + t.mem;
      if t.group != "" {
        if t.group in seen {
          continue;
        }
        seen := seen + {t.group};
      }
      cpu := cpu + t.cpu;
    }
    WalkMemIsSum(tasks, exclude, order);
    forall pool | Pooled(Counted(tasks, exclude), pool) ensures cpu == Cpu(Counted(tasks, exclude), pool) {
      UsageIsOrderFree(tasks, exclude, order, pool);
    }
  }

  // The tasks an order lists, as far as they count.
  function Listed(tasks: Tasks, exclude: string, order: seq<Id>): Tasks {
    map id | id in tasks && id in order && (exclude == "" || tasks[id].job != exclude) :: tasks[id]
  }

  lemma ListedTail(tasks: Tasks, exclude: string, order: seq<Id>)
    requires order != [] && order[0] in tasks && order[0] !in order[1..]
    ensures var rest, t := Listed(tasks, exclude, order[1..]), tasks[order[0]];
            Listed(tasks, exclude, order) == if exclude != "" && t.job == exclude then rest else rest[order[0] := t]
  {
    assert forall id :: id in order <==> id == order[0] || id in order[1..];
  }

  lemma {:induction false} WalkMemIs(tasks: Tasks, exclude: string, order: seq<Id>)
    requires forall i, k | 0 <= i < k < |order| :: order[i] != order[k]
    requires forall id | id in order :: id in tasks
    ensures WalkMem(tasks, exclude, order) == Mem(Listed(tasks, exclude, order))
    decreases |order|
  {
    if order == [] {
      assert Mems(Listed(tasks, exclude, order)).Keys == {};
    } else {
      WalkMemIs(tasks, exclude, order[1..]);
      ListedTail(tasks, exclude, order);
      var rest, t := Listed(tasks, exclude, order[1..]), tasks[order[0]];
      if exclude == "" || t.job != exclude {
        MemAfter(rest, order[0], t);
      }
    }
  }

  lemma WalkMemIsSum(tasks: Tasks, exclude: string, order: seq<Id>)
    requires IsOrder(tasks, order)
    ensures WalkMem(tasks, exclude, order) == Mem(Counted(tasks, exclude))
  {
    WalkMemIs(tasks, exclude, order);
    assert Listed(tasks, exclude, order) == Counted(tasks, exclude);
  }

  // What is left to add once some groups have been seen: the ungrouped tasks and the
  // pools of the other groups.
  ghost function Rest(tasks: Tasks, seen: set<string>, pool: map<string, nat>): int {
    Sum(Ungrouped(tasks)) + Sum(PoolsOf(Groups(tasks) - seen, pool))
  }

  ghost predicate Lists(tasks: Tasks, order: seq<Id>) {
    && (forall i, k | 0 <= i < k < |order| :: order[i] != order[k])
    && (forall id | id in order :: id in tasks)
  }

  lemma WalkUnfolds(tasks: Tasks, exclude: string, order: seq<Id>, seen: set<string>)
    requires Lists(tasks, order) && order != []
    ensures Lists(tasks, order[1..]) && order[0] in tasks && order[0] !in order[1..]
    ensures var t := tasks[order[0]];
            Walk(tasks, exclude, order, seen) ==
            if exclude != "" && t.job == exclude then Walk(tasks, exclude, order[1..], seen)
            else (if t.group != "" && t.group in seen then 0 else t.cpu)
                 + Walk(tasks, exclude, order[1..], if t.group == "" then seen else seen + {t.group})
  {
    var t := tasks[order[0]];
    if t.group in seen {
      assert seen + {t.group} == seen;
    }
  }

  lemma RestOfNothing(tasks: Tasks, seen: set<string>, pool: map<string, nat>)
    requires tasks.Keys == {}
    ensures Rest(tasks, seen, pool) == 0
  {
    assert Ungrouped(tasks).Keys == {};
    assert PoolsOf(Groups(tasks) - seen, pool).Keys == {};
  }

  lemma NothingUsesNothing(tasks: Tasks, pool: map<string, nat>)
    requires tasks.Keys == {}
    ensures Cpu(tasks, pool) == 0 && Mem(tasks) == 0
  {
    assert Ungrouped(tasks).Keys == {} && Mems(tasks).Keys == {};
    assert PoolsOf(Groups(tasks), pool).Keys == {};
  }

  lemma {:induction false} WalkIs(tasks: Tasks, exclude: string, order: seq<Id>, seen: set<string>,
                                  pool: map<string, nat>)
    requires Lists(tasks, order) && Pooled(Listed(tasks, exclude, order), pool)
    ensures Walk(tasks, exclude, order, seen) == Rest(Listed(tasks, exclude, order), seen, pool)
    decreases |order|
  {
    if order == [] {
      RestOfNothing(Listed(tasks, exclude, order), seen, pool);
    } else {
      WalkUnfolds(tasks, exclude, order, seen);
      ListedTail(tasks, exclude, order);
      var id, tail, t := order[0], order[1..], tasks[order[0]];
      var rest := Listed(tasks, exclude, tail);
      if exclude != "" && t.job == exclude {
        WalkIs(tasks, exclude, tail, seen, pool);
      } else {
        PooledTail(rest, id, t, pool);
        WalkIs(tasks, exclude, tail, if t.group == "" then seen else seen + {t.group}, pool);
        RestStep(rest, id, t, seen, pool);
      }
    }
  }

  lemma PooledTail(rest: Tasks, id: Id, t: Task, pool: map<string, nat>)
    requires id !in rest && Pooled(rest[id := t], pool)
    ensures Pooled(rest, pool) && (t.group != "" ==> t.group in pool && t.cpu == pool[t.group])
  {
    var listed := rest[id := t];
    assert listed[id] == t;
    forall i | i in rest ensures listed[i] == rest[i] {
    }
  }

  lemma RestStep(rest: Tasks, id: Id, t: Task, seen: set<string>, pool: map<string, nat>)
    requires id !in rest && (t.group != "" ==> t.group in pool && t.cpu == pool[t.group])
    ensures Rest(rest[id := t], seen, pool) ==
            Rest(rest, if t.group == "" then seen else seen + {t.group}, pool)
            + if t.group != "" && t.group in seen then 0 else t.cpu
  {
    GroupsAfter(rest, id, t);
    UngroupedAfter(rest, id, t);
    if t.group != "" {
      var left := Groups(rest) - (seen + {t.group});
      if t.group in seen {
        assert Groups(rest) + {t.group} - seen == left;
      } else {
        PoolsAfter(left, t.group, pool);
        assert Groups(rest) + {t.group} - seen == left + {t.group};
      }
    }
  }

  /** With equal pools inside each group, every iteration order gives the same sum: all
      ungrouped tasks plus one pool per group. */
  lemma UsageIsOrderFree(tasks: Tasks, exclude: string, order: seq<Id>, pool: map<string, nat>)
    requires IsOrder(tasks, order) && Pooled(Counted(tasks, exclude), pool)
    ensures Walk(tasks, exclude, order, {}) == Cpu(Counted(tasks, exclude), pool)
  {
    assert Listed(tasks, exclude, order) == Counted(tasks, exclude);
    WalkIs(tasks, exclude, order, {}, pool);
    assert Groups(Counted(tasks, exclude)) - {} == Groups(Counted(tasks, exclude));
  }

  // ---- and only then ----

  ghost predicate Uniform(tasks: Tasks) {
    forall a, b | a in tasks && b in tasks && tasks[a].group != "" && tasks[a].group == tasks[b].group ::
        tasks[a].cpu == tasks[b].cpu
  }

  ghost predicate OrderFree(tasks: Tasks, exclude: string) {
    forall o, p | IsOrder(tasks, o) && IsOrder(tasks, p) :: Walk(tasks, exclude, o, {}) == Walk(tasks, exclude, p, {})
  }

  lemma {:induction false} UniformHasPools(tasks: Tasks) returns (pool: map<string, nat>)
    requires Uniform(tasks)
    ensures Pooled(tasks, pool) && pool.Keys == Groups(tasks)
    decreases |tasks|
  {
    if tasks.Keys == {} {
      pool := map[];
    } else {
      var id :| id in tasks.Keys;
      var rest, t := tasks - {id}, tasks[id];
      assert rest.Keys == tasks.Keys - {id};
      assert |rest.Keys| < |tasks.Keys|;
      assert tasks == rest[id := t];
      GroupsAfter(rest, id, t);
      pool := UniformHasPools(rest);
      if t.group != "" {
        pool := pool[t.group := t.cpu];
      }
      forall i | i in tasks && tasks[i].group != ""
        ensures tasks[i].group in pool && tasks[i].cpu == pool[tasks[i].group]
      {
        assert i != id ==> i in rest && rest[i] == tasks[i] && rest[i].group in Groups(rest);
      }
    }
  }

  lemma {:induction false} Enumerate(ids: set<Id>) returns (order: seq<Id>)
    ensures forall i, k | 0 <= i < k < |order| :: order[i] != order[k]
    ensures forall id :: id in order <==> id in ids
    decreases ids
  {
    if ids == {} {
      order := [];
    } else {
      var id :| id in ids;
      var rest := Enumerate(ids - {id});
      order := [id] + rest;
    }
  }

  lemma BothFirst(tasks: Tasks, exclude: string, a: Id, b: Id, rest: seq<Id>)
    requires forall id | id in [a, b] + rest :: id in tasks
    requires a in Counted(tasks, exclude) && b in Counted(tasks, exclude)
    requires tasks[a].group != "" && tasks[a].group == tasks[b].group
    ensures Walk(tasks, exclude, [a, b] + rest, {}) == tasks[a].cpu + Walk(tasks, exclude, rest, {tasks[a].group})
  {
    var order := [a, b] + rest;
    assert order[1..] == [b] + rest && order[1..][1..] == rest;
    assert {} + {tasks[a].group} == {tasks[a].group};
  }

  lemma Prepended(tasks: Tasks, a: Id, b: Id, rest: seq<Id>)
    requires a in tasks && b in tasks && a != b
    requires forall i, k | 0 <= i < k < |rest| :: rest[i] != rest[k]
    requires forall id :: id in rest <==> id in tasks && id != a && id != b
    ensures IsOrder(tasks, [a, b] + rest)
  {
    var order := [a, b] + rest;
    assert forall i | 2 <= i < |order| :: order[i] == rest[i - 2] && order[i] in rest;
    forall id ensures id in order <==> id in tasks {
    }
  }

  lemma TwoOrders(tasks: Tasks, a: Id, b: Id) returns (o: seq<Id>, p: seq<Id>, rest: seq<Id>)
    requires a in tasks && b in tasks && a != b
    ensures IsOrder(tasks, o) && IsOrder(tasks, p) && o == [a, b] + rest && p == [b, a] + rest
  {
    rest := Enumerate(tasks.Keys - {a, b});
    o, p := [a, b] + rest, [b, a] + rest;
    Prepended(tasks, a, b, rest);
    Prepended(tasks, b, a, rest);
  }

  lemma Disagree(tasks: Tasks, exclude: string, a: Id, b: Id)
    requires a in Counted(tasks, exclude) && b in Counted(tasks, exclude)
    requires tasks[a].group != "" && tasks[a].group == tasks[b].group && tasks[a].cpu != tasks[b].cpu
    ensures !OrderFree(tasks, exclude)
  {
    var o, p, rest := TwoOrders(tasks, a, b);
    BothFirst(tasks, exclude, a, b, rest);
    BothFirst(tasks, exclude, b, a, rest);
    assert Walk(tasks, exclude, o, {}) != Walk(tasks, exclude, p, {});
  }

  /** The result is independent of the iteration order exactly when the counted members of
      each sharegroup carry equal shares. */
  lemma OrderFreeIffUniform(tasks: Tasks, exclude: string)
    ensures OrderFree(tasks, exclude) <==> Uniform(Counted(tasks, exclude))
  {
    if Uniform(Counted(tasks, exclude)) {
      var pool := UniformHasPools(Counted(tasks, exclude));
      forall o, p | IsOrder(tasks, o) && IsOrder(tasks, p)
        ensures Walk(tasks, exclude, o, {}) == Walk(tasks, exclude, p, {})
      {
        UsageIsOrderFree(tasks, exclude, o, pool);
        UsageIsOrderFree(tasks, exclude, p, pool);
      }
    } else {
      var counted := Counted(tasks, exclude);
      var a, b :| a in counted && b in counted && counted[a].group != "" && counted[a].group == counted[b].group
                  && counted[a].cpu != counted[b].cpu;
      Disagree(tasks, exclude, a, b);
    }
  }
}
