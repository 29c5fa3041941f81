/** Priority numbering of the jobs: normalisation to 0..N-1 before every reconcile and
    moving one job to a given place. */
module Priorities {
  import opened Wrappers
  import Dispatch
  import Reconcile

  const MAX_INT := 0x7FFF_FFFF_FFFF_FFFF

  // `spec` stands for everything else in a job definition.
  datatype Job = Job(name: string, priority: Option<int>, spec: int)

  function EffectivePriority(p: Option<int>): int {
    if p.None? then MAX_INT else p.value
  }

  predicate NameLess(a: string, b: string) {
    if b == "" then false
    else if a == "" then true
    else a[0] < b[0] || (a[0] == b[0] && NameLess(a[1..], b[1..]))
  }

  predicate Less(j: Job, k: Job) {
    var p, q := EffectivePriority(j.priority), EffectivePriority(k.priority);
    p < q || (p == q && NameLess(j.name, k.name))
  }

  lemma {:induction false} NameOrder(a: string, b: string)
    ensures NameLess(a, b) ==> !NameLess(b, a)
    ensures a == b || NameLess(a, b) || NameLess(b, a)
    ensures !NameLess(a, a)
  {
    if a != "" {
      NameOrder(a[1..], if b != "" then b[1..] else "");
      assert a == [a[0]] + a[1..];
      assert b != "" ==> b == [b[0]] + b[1..];
    }
  }

  lemma {:induction false} NameTransitive(a: string, b: string, c: string)
    requires NameLess(a, b) && NameLess(b, c)
    ensures NameLess(a, c)
  {
    if a != "" && a[0] == b[0] == c[0] {
      NameTransitive(a[1..], b[1..], c[1..]);
    }
  }

  lemma LessTransitive(j: Job, k: Job, l: Job)
    requires Less(j, k) && Less(k, l)
    ensures Less(j, l)
  {
    if NameLess(j.name, k.name) && NameLess(k.name, l.name) {
      NameTransitive(j.name, k.name, l.name);
    }
  }

  // What the store hands out, in whatever order: one record per name.
  ghost predicate Keyed(m: multiset<Job>) {
    (forall j | j in m :: m[j] == 1) && forall j, k | j in m && k in m && j.name == k.name :: j == k
  }

  ghost predicate Sorted(jobs: seq<Job>) {
    forall i, k | 0 <= i < k < |jobs| :: Less(jobs[i], jobs[k])
  }

  function Insert(j: Job, jobs: seq<Job>): (r: seq<Job>)
    ensures multiset(r) == multiset{j} + multiset(jobs)
  {
    if jobs == [] || Less(j, jobs[0]) then [j] + jobs
    else
      assert jobs == [jobs[0]] + jobs[1..];
      [jobs[0]] + Insert(j, jobs[1..])
  }

  function Sort(jobs: seq<Job>): (r: seq<Job>)
    ensures multiset(r) == multiset(jobs)
  {
    if jobs == [] then []
    else
      assert jobs == [jobs[0]] + jobs[1..];
      Insert(jobs[0], Sort(jobs[1..]))
  }

  lemma {:induction false} InsertSorted(j: Job, jobs: seq<Job>)
    requires Sorted(jobs) && forall k | k in jobs :: k.name != j.name
    ensures Sorted(Insert(j, jobs))
  {
    if jobs != [] {
      NameOrder(j.name, jobs[0].name);
      assert jobs[0] in jobs;
      if Less(j, jobs[0]) {
        forall k | 0 < k < |jobs| ensures Less(j, jobs[k]) {
          LessTransitive(j, jobs[0], jobs[k]);
        }
      } else {
        assert Less(jobs[0], j);
        InsertSorted(j, jobs[1..]);
        var rest := Insert(j, jobs[1..]);
        forall k | 0 <= k < |rest| ensures Less(jobs[0], rest[k]) {
          assert rest[k] in multiset(rest);
          assert rest[k] == j || rest[k] in jobs[1..];
        }
      }
    }
  }

  lemma {:induction false} SortSorts(jobs: seq<Job>)
    requires Keyed(multiset(jobs))
    ensures Sorted(Sort(jobs))
  {
    if jobs != [] {
      var rest := jobs[1..];
      assert jobs == [jobs[0]] + rest;
      assert multiset(jobs) == multiset{jobs[0]} + multiset(rest);
      assert Keyed(multiset(rest)) by {
        forall j | j in multiset(rest) ensures multiset(rest)[j] == 1 {
          assert multiset(jobs)[j] == 1;
        }
      }
      SortSorts(rest);
      forall k | k in Sort(rest) ensures k.name != jobs[0].name {
        assert k in multiset(Sort(rest));
        assert multiset(jobs)[k] == 1 && jobs[0] in multiset(jobs);
      }
      InsertSorted(jobs[0], Sort(rest));
    }
  }

  lemma LessAntisymmetric(j: Job, k: Job)
    ensures !Less(j, k) || !Less(k, j)
  {
    NameOrder(j.name, k.name);
  }

  lemma SameHead(a: seq<Job>, b: seq<Job>)
    requires Sorted(a) && Sorted(b) && multiset(a) == multiset(b) && a != [] && b != []
    ensures a[0] == b[0]
  {
    assert a[0] in multiset(b) && b[0] in multiset(a);
    LessAntisymmetric(a[0], b[0]);
  }

  /** There is one way to sort: whatever the algorithm and the order the store hands the
      jobs out in, the result is the same. */
  lemma {:induction false} SortedUnique(a: seq<Job>, b: seq<Job>)
    requires Sorted(a) && Sorted(b) && multiset(a) == multiset(b)
    ensures a == b
    decreases |a|
  {
    assert |a| == |multiset(a)| == |multiset(b)| == |b|;
    if a != [] {
      SameHead(a, b);
      assert a == [a[0]] + a[1..] && b == [b[0]] + b[1..];
      assert multiset(a[1..]) == multiset(a) - multiset{a[0]};
      assert multiset(b[1..]) == multiset(b) - multiset{b[0]};
      SortedUnique(a[1..], b[1..]);
    }
  }

  function Renumbered(jobs: seq<Job>): (r: seq<Job>)
    ensures |r| == |jobs|
    ensures forall i | 0 <= i < |r| :: r[i] == jobs[i].(priority := Some(i))
  {
    seq(|jobs|, i requires 0 <= i < |jobs| => jobs[i].(priority := Some(i)))
  }

  function Normalise(jobs: seq<Job>): seq<Job> {
    Renumbered(Sort(jobs))
  }

  ghost predicate NamesDistinct(jobs: seq<Job>) {
    forall i, k | 0 <= i < k < |jobs| :: jobs[i].name != jobs[k].name
  }

  lemma RepeatCountsTwice(jobs: seq<Job>, i: nat, k: nat)
    requires i < k < |jobs|
    ensures jobs[i] == jobs[k] ==> multiset(jobs)[jobs[k]] >= 2
  {
    var head, tail := jobs[..k], jobs[k..];
    assert jobs == head + tail;
    assert head[i] == jobs[i] && tail[0] == jobs[k];
    assert jobs[i] in multiset(head) && jobs[k] in multiset(tail);
  }

  lemma KeyedNames(jobs: seq<Job>)
    requires Keyed(multiset(jobs))
    ensures NamesDistinct(jobs)
  {
    forall i, k | 0 <= i < k < |jobs| ensures jobs[i].name != jobs[k].name {
      RepeatCountsTwice(jobs, i, k);
      assert jobs[i] in multiset(jobs) && jobs[k] in multiset(jobs);
    }
  }

  lemma OneMoreKeyed(m: multiset<Job>, first: Job)
    requires Keyed(m) && forall j: Job | j in m :: j.name != first.name
    ensures Keyed(multiset{first} + m)
  {
    forall j: Job | j in multiset{first} + m ensures (multiset{first} + m)[j] == 1 {
      assert j == first || j in m;
    }
  }

  lemma OtherNames(jobs: seq<Job>)
    requires jobs != [] && NamesDistinct(jobs)
    ensures forall j: Job | j in multiset(jobs[1..]) :: j.name != jobs[0].name
  {
    var rest := jobs[1..];
    forall j: Job | j in multiset(rest) ensures j.name != jobs[0].name {
      var k :| 0 <= k < |rest| && rest[k] == j;
      assert jobs[k + 1] == j;
    }
  }

  lemma {:induction false} DistinctNamesKeyed(jobs: seq<Job>)
    requires NamesDistinct(jobs)
    ensures Keyed(multiset(jobs))
  {
    if jobs != [] {
      var first, rest := jobs[0], jobs[1..];
      DistinctNamesKeyed(rest);
      OtherNames(jobs);
      OneMoreKeyed(multiset(rest), first);
      assert jobs == [first] + rest;
      assert multiset(jobs) == multiset{first} + multiset(rest);
    }
  }

  /** Normalisation numbers the jobs 0..N-1 without losing, changing or reordering any: the
      job at place i carries priority i, and the old records in that order are exactly
      the given ones, from most to least important. */
  lemma NormaliseIsDenseAndKeepsOrder(jobs: seq<Job>)
    requires Keyed(multiset(jobs))
    ensures var r, order := Normalise(jobs), Sort(jobs);
            && |r| == |jobs| && multiset(order) == multiset(jobs) && Sorted(order) && NamesDistinct(r)
            && forall i | 0 <= i < |r| :: r[i].priority == Some(i) && r[i] == order[i].(priority := Some(i))
  {
    SortSorts(jobs);
    assert |Sort(jobs)| == |multiset(Sort(jobs))| == |multiset(jobs)|;
    KeyedNames(Sort(jobs));
  }

  // A smaller number comes first, any number before none at all, and equal ones by name.
  predicate NotAfter(j: Job, k: Job) {
    && (j.priority.Some? && k.priority.Some? && j.priority.value != k.priority.value ==>
          j.priority.value < k.priority.value)
    && (j.priority == k.priority ==> NameLess(j.name, k.name))
    && (j.priority.None? && k.priority.Some? ==> k.priority.value >= 0x7FFF_FFFF_FFFF_FFFF)
  }

  /** That is what "more important" means. */
  lemma SortOrdersByPriority(jobs: seq<Job>, i: nat, k: nat)
    requires Keyed(multiset(jobs)) && i < k < |jobs|
    ensures |Sort(jobs)| == |jobs| && NotAfter(Sort(jobs)[i], Sort(jobs)[k])
  {
    SortSorts(jobs);
    assert |Sort(jobs)| == |multiset(Sort(jobs))| == |multiset(jobs)|;
    assert Less(Sort(jobs)[i], Sort(jobs)[k]);
  }

  /** The result does not depend on the order in which the store hands out its jobs. */
  lemma NormaliseIgnoresOrder(a: seq<Job>, b: seq<Job>)
    requires Keyed(multiset(a)) && multiset(a) == multiset(b)
    ensures Normalise(a) == Normalise(b)
  {
    SortSorts(a);
    SortSorts(b);
    SortedUnique(Sort(a), Sort(b));
  }

  /** Jobs numbered 0..N-1 stay exactly as they are, in whatever order they come back. */
  lemma DenseIsFixed(jobs: seq<Job>, again: seq<Job>)
    requires NamesDistinct(jobs) && Renumbered(jobs) == jobs && multiset(again) == multiset(jobs)
    ensures Normalise(again) == jobs
  {
    DistinctNamesKeyed(jobs);
    assert Sorted(jobs) by {
      forall i | 0 <= i < |jobs| ensures EffectivePriority(jobs[i].priority) == i {
        assert Renumbered(jobs)[i] == jobs[i];
      }
    }
    SortSorts(again);
    SortedUnique(Sort(again), jobs);
  }

  lemma NormaliseIsIdempotent(jobs: seq<Job>, again: seq<Job>)
    requires Keyed(multiset(jobs)) && multiset(again) == multiset(Normalise(jobs))
    ensures Normalise(again) == Normalise(jobs)
  {
    NormaliseIsDenseAndKeepsOrder(jobs);
    DenseIsFixed(Normalise(jobs), again);
  }

  // ---- moving one job ----

  function Clamp(x: int, hi: nat): nat {
    if x < 0 then 0 else if x > hi then hi else x
  }

  function IndexOf(jobs: seq<Job>, name: string): (i: nat)
    ensures i <= |jobs|
    ensures i < |jobs| ==> jobs[i].name == name
    ensures forall k | 0 <= k < i :: jobs[k].name != name
  {
    if jobs == [] || jobs[0].name == name then 0 else 1 + IndexOf(jobs[1..], name)
  }

  function Without(jobs: seq<Job>, i: nat): (r: seq<Job>)
    ensures |r| == if i < |jobs| then |jobs| - 1 else |jobs|
    ensures forall k | 0 <= k < |r| :: r[k] == jobs[if k < i then k else k + 1]
  {
    var n := if i < |jobs| then |jobs| - 1 else |jobs|;
    seq(n, k requires 0 <= k < n => jobs[if k < i then k else k + 1])
  }

  function Inserted(rest: seq<Job>, t: nat, job: Job): (r: seq<Job>)
    requires t <= |rest|
    ensures |r| == |rest| + 1 && r[t] == job
    ensures forall k | 0 <= k < |rest| :: r[if k < t then k else k + 1] == rest[k]
  {
    seq(|rest| + 1, k requires 0 <= k <= |rest| => if k < t then rest[k] else if k == t then job else rest[k - 1])
  }

  function Moved(jobs: seq<Job>, job: Job, target: int): seq<Job> {
    var rest := Without(Sort(jobs), IndexOf(Sort(jobs), job.name));
    Inserted(rest, Clamp(target, |rest|), job)
  }

  function Patched(jobs: seq<Job>, job: Job, target: int): seq<Job> {
    Renumbered(Moved(jobs, job, target))
  }

  // Where the job was in sorted order.
  lemma WhereItWas(jobs: seq<Job>, job: Job) returns (i: nat)
    requires Keyed(multiset(jobs)) && job in jobs
    ensures i == IndexOf(Sort(jobs), job.name) && i < |Sort(jobs)| == |jobs| && Sort(jobs)[i] == job
  {
    var s := Sort(jobs);
    assert |s| == |multiset(s)| == |multiset(jobs)| == |jobs|;
    assert job in multiset(s);
    KeyedNames(s);
    i :| 0 <= i < |s| && s[i] == job;
  }

  lemma {:induction false} NotBeforeNorAfter(s: seq<Job>, name: string)
    requires NamesDistinct(s)
    ensures var rest := Without(s, IndexOf(s, name));
            NamesDistinct(rest) && forall k | 0 <= k < |rest| :: rest[k].name != name
  {
    var i := IndexOf(s, name);
    var rest := Without(s, i);
    forall k | 0 <= k < |rest| ensures rest[k] == s[if k < i then k else k + 1] && rest[k].name != name {
      assert i < |s| && k >= i ==> s[i].name != s[k + 1].name;
    }
  }

  // Holds as well when the job left the store after it was looked up.
  lemma MovedNames(jobs: seq<Job>, job: Job, target: int)
    requires Keyed(multiset(jobs))
    ensures NamesDistinct(Moved(jobs, job, target))
  {
    KeyedNames(Sort(jobs));
    NotBeforeNorAfter(Sort(jobs), job.name);
    var rest := Without(Sort(jobs), IndexOf(Sort(jobs), job.name));
    InsertedNames(rest, Clamp(target, |rest|), job);
  }

  lemma InsertedNames(rest: seq<Job>, t: nat, job: Job)
    requires t <= |rest| && NamesDistinct(rest) && forall k | 0 <= k < |rest| :: rest[k].name != job.name
    ensures NamesDistinct(Inserted(rest, t, job))
  {
    var r := Inserted(rest, t, job);
    forall i | 0 <= i < |r| && i != t ensures r[i] == rest[if i < t then i else i - 1] {
    }
  }

  // The k-th of the others, before and after the move from place i to place t.
  predicate KeptAt(before: seq<Job>, after: seq<Job>, i: nat, t: nat, k: nat) {
    var from, to := (if k < i then k else k + 1), (if k < t then k else k + 1);
    from < |before| && to < |after| && after[to] == before[from].(priority := Some(to))
  }

  /** The job of place i is at place t, and the others are as they were around it. */
  ghost predicate OneMoved(before: seq<Job>, after: seq<Job>, i: nat, t: nat, job: Job) {
    && i < |before| == |after| && t < |after| && before[i] == job && after[t] == job.(priority := Some(t))
    && forall k | 0 <= k < |after| - 1 :: KeptAt(before, after, i, t, k)
  }

  lemma OthersKept(s: seq<Job>, i: nat, t: nat)
    requires i < |s| && t < |s|
    ensures OneMoved(s, Renumbered(Inserted(Without(s, i), t, s[i])), i, t, s[i])
  {
    var rest := Without(s, i);
    forall k | 0 <= k < |s| - 1 ensures KeptAt(s, Renumbered(Inserted(rest, t, s[i])), i, t, k) {
      assert Inserted(rest, t, s[i])[if k < t then k else k + 1] == rest[k];
    }
  }

  /** Moving a job puts it at the asked place (cut off at both ends), leaves the others in
      the order they had and numbers everything 0..N-1. */
  lemma PatchMovesOneJob(jobs: seq<Job>, job: Job, target: int)
    requires Keyed(multiset(jobs)) && job in jobs
    ensures |jobs| > 0
    ensures OneMoved(Sort(jobs), Patched(jobs, job, target), IndexOf(Sort(jobs), job.name),
                     if target < 0 then 0 else if target > |jobs| - 1 then |jobs| - 1 else target, job)
  {
    var i := WhereItWas(jobs, job);
    PatchedIs(jobs, job, target, i);
    OthersKept(Sort(jobs), i, Clamp(target, |jobs| - 1));
  }

  lemma PatchedIs(jobs: seq<Job>, job: Job, target: int, i: nat)
    requires i == IndexOf(Sort(jobs), job.name) && i < |Sort(jobs)| == |jobs|
    ensures Patched(jobs, job, target) == Renumbered(Inserted(Without(Sort(jobs), i), Clamp(target, |jobs| - 1), job))
  {
    assert |Without(Sort(jobs), i)| == |jobs| - 1;
  }

  /** A normalisation afterwards changes nothing, in whatever order the jobs come back. */
  lemma PatchIsNormalised(jobs: seq<Job>, job: Job, target: int, again: seq<Job>)
    requires Keyed(multiset(jobs)) && multiset(again) == multiset(Patched(jobs, job, target))
    ensures Normalise(again) == Patched(jobs, job, target)
  {
    MovedNames(jobs, job, target);
    DenseIsFixed(Patched(jobs, job, target), again);
  }

  // ---- what a reconcile pass relies on ----

  function Snapshot(jobs: seq<Job>): (r: seq<Dispatch.Job>)
    ensures |r| == |jobs|
    ensures forall i | 0 <= i < |jobs| ::
              r[i] == Dispatch.Job(jobs[i].name, EffectivePriority(jobs[i].priority), jobs[i].spec)
  {
    seq(|jobs|,
        i requires 0 <= i < |jobs| => Dispatch.Job(jobs[i].name, EffectivePriority(jobs[i].priority), jobs[i].spec))
  }

  // The priorities preemption looks up are those of the given jobs.
  ghost predicate Ranks(store: map<string, int>, jobs: seq<Job>) {
    && (forall i | 0 <= i < |jobs| ::
         jobs[i].name in store && store[jobs[i].name] == EffectivePriority(jobs[i].priority))
    && (forall n | n in store :: exists i | 0 <= i < |jobs| :: jobs[i].name == n)
  }

  /** A pass over a normalised store meets what `Reconcile` asks of its jobs, and no two
      jobs tie for victim. */
  lemma NormalisedPass(jobs: seq<Job>, store: map<string, int>)
    requires Keyed(multiset(jobs)) && Ranks(store, Normalise(jobs))
    ensures Reconcile.Normalised(store, Snapshot(Normalise(jobs))) && Dispatch.Ranked(store)
  {
    NormaliseIsDenseAndKeepsOrder(jobs);
    DenseRanks(Normalise(jobs), store);
  }

  lemma DenseRanks(r: seq<Job>, store: map<string, int>)
    requires Ranks(store, r) && forall i | 0 <= i < |r| :: r[i].priority == Some(i)
    ensures Reconcile.Normalised(store, Snapshot(r)) && Dispatch.Ranked(store)
  {
    forall u, v | u in store && v in store && store[u] == store[v] ensures u == v {
      var i :| 0 <= i < |r| && r[i].name == u;
      var k :| 0 <= k < |r| && r[k].name == v;
      assert store[u] == i && store[v] == k;
    }
  }

  // ---- the store and the two rewrites ----

  // The store after the first `i` jobs of the list got the number of their place: all of
  // them, or only those that had another.
  function Rewritten(store: map<string, Job>, jobs: seq<Job>, i: nat, all: bool): map<string, Job>
    requires i <= |jobs|
  {
    if i == 0 then store
    else
      var before, job := Rewritten(store, jobs, i - 1, all), jobs[i - 1];
      if job.name in before && (all || job.priority != Some(i - 1))
      then before[job.name := job.(priority := Some(i - 1))]
      else before
  }

  /** A rewrite from a snapshot never brings a name back that left the store, leaves names
      outside the snapshot alone, and gives every job that is still there its number,
      unless it had it already. */
  lemma {:induction false} RewriteOnlyOverwrites(store: map<string, Job>, jobs: seq<Job>, i: nat, all: bool)
    requires i <= |jobs| && NamesDistinct(jobs)
    ensures var after := Rewritten(store, jobs, i, all);
            && after.Keys == store.Keys
            && (forall k | 0 <= k < i && jobs[k].name in store ::
                  after[jobs[k].name] ==
                  if all || jobs[k].priority != Some(k) then jobs[k].(priority := Some(k)) else store[jobs[k].name])
            && (forall n | n in store && (forall k | 0 <= k < i :: jobs[k].name != n) :: after[n] == store[n])
  {
    if i > 0 {
      RewriteOnlyOverwrites(store, jobs, i - 1, all);
    }
  }

  class Rewriter {
    var store: map<string, Job>

    constructor ()
      ensures store == map[]
    {
      store := map[];
    }

    /** Writes over a record that exists, and never adds one. */
    method UpdateJob(job: Job) returns (ok: bool)
      modifies this
      ensures ok == (job.name in old(store))
      ensures store == if ok then old(store)[job.name := job] else old(store)
    {
      ok := job.name in store;
      if ok {
        store := store[job.name := job];
      }
    }

    /** Renumbers the snapshot in place, and rewrites in the store what the numbering
        changed. */
    method NormalizePriorities(snapshot: seq<Job>) returns (jobs: seq<Job>)
      modifies this
      ensures jobs == Normalise(snapshot)
      ensures store == Rewritten(old(store), Sort(snapshot), |Sort(snapshot)|, false)
    {
      var sorted := Sort(snapshot);
      jobs := sorted;
      for i := 0 to |jobs|
        invariant |jobs| == |sorted|
        invariant forall k | 0 <= k < |jobs| :: jobs[k] == if k < i then sorted[k].(priority := Some(k)) else sorted[k]
        invariant store == Rewritten(old(store), sorted, i, false)
      {
        if jobs[i].priority != Some(i) {
          var updated := jobs[i].(priority := Some(i));
          var written := UpdateJob(updated);
          jobs := jobs[i := updated];
        }
      }
      assert jobs == Normalise(snapshot);
    }

    static method Find(jobs: seq<Job>, name: string) returns (i: nat)
      ensures i == IndexOf(jobs, name)
    {
      i := 0;
      while i < |jobs|
        invariant 0 <= i <= |jobs|
        invariant forall k | 0 <= k < i :: jobs[k].name != name
      {
        if jobs[i].name == name {
          return;
        }
        i := i + 1;
      }
    }

    static method TakeOut(jobs: seq<Job>, i: nat) returns (r: seq<Job>)
      ensures r == Without(jobs, i)
    {
      r := jobs;
      if i < |jobs| {
        r := jobs[..i] + jobs[i + 1..];
      }
    }

    static method PutBack(rest: seq<Job>, target: int, job: Job) returns (r: seq<Job>)
      ensures r == Inserted(rest, Clamp(target, |rest|), job)
    {
      var t := if target < 0 then 0 else if target > |rest| then |rest| else target;
      r := rest[..t] + [job] + rest[t..];
    }

    method RewriteAll(jobs: seq<Job>)
      modifies this
      ensures store == Rewritten(old(store), jobs, |jobs|, true)
    {
      for k := 0 to |jobs|
        invariant store == Rewritten(old(store), jobs, k, true)
      {
        var written := UpdateJob(jobs[k].(priority := Some(k)));
      }
    }

    /** Nothing when the name is unknown; otherwise every job still in the store gets the
        number of its place after the move. */
    method PatchJobPriority(snapshot: seq<Job>, name: string, target: int) returns (ok: bool)
      requires forall n | n in store :: store[n].name == n
      modifies this
      ensures ok == (name in old(store))
      ensures !ok ==> store == old(store)
      ensures ok ==> var moved := Moved(snapshot, old(store)[name], target);
                     store == Rewritten(old(store), moved, |moved|, true)
    {
      if name !in store {
        return false;
      }
      var job := store[name];
      var jobs := Sort(snapshot);
      var i := Find(jobs, name);
      jobs := TakeOut(jobs, i);
      jobs := PutBack(jobs, target, job);
      assert jobs == Moved(snapshot, job, target);
      RewriteAll(jobs);
      ok := true;
    }
  }
}
