/** The debounced committer of the job store: mutators, the agent's operation queue, the
    dirty token and the flush loop, interleaved step by step. */
module Persist {
  import opened Wrappers

  type Jobs = map<string, int>

  // What is queued at the state loop that owns the job map. `Read` is the flusher's query.
  datatype Op = Sync(jobs: Jobs) | Delete(name: string) | Update(name: string, spec: int) | Read

  datatype Flusher = Idle | Debouncing | Reading | Saving(snapshot: Jobs)

  // `toMark` counts mutators that have written and not yet marked the state dirty.
  datatype State = State(queue: seq<Op>, store: Jobs, dirty: bool, toMark: nat, flusher: Flusher, saved: Option<Jobs>)

  datatype Event =
    | EvSubmit(op: Op)
    | EvUpdate(name: string, spec: int)
    | EvProcess
    | EvMark
    | EvTakeToken
    | EvQuery
    | EvSaved
    | EvSaveFails(stored: bool)
    | EvMarshalFails

  function Effect(store: Jobs, op: Op): Jobs {
    match op
    case Sync(jobs) => store + jobs
    case Delete(name) => store - {name}
    case Update(name, spec) => if name in store then store[name := spec] else store
    case Read => store
  }

  predicate Enabled(s: State, e: Event) {
    match e
    case EvSubmit(op) => op.Sync? || op.Delete?
    case EvUpdate(_, _) => true
    case EvProcess => s.queue != [] && (s.queue[0].Read? ==> s.flusher.Reading?)
    case EvMark => s.toMark > 0
    case EvTakeToken => s.flusher.Idle? && s.dirty
    case EvQuery => s.flusher.Debouncing?
    case EvSaved => s.flusher.Saving?
    case EvSaveFails(_) => s.flusher.Saving?
    case EvMarshalFails => s.flusher.Saving?
  }

  function Writes(store: Jobs, op: Op): bool {
    op.Update? && op.name in store
  }

  function Apply(s: State, e: Event): State
    requires Enabled(s, e)
  {
    match e
    // Store, delete and sync are queued without waiting, then marked.
    case EvSubmit(op) => s.(queue := s.queue + [op], toMark := s.toMark + 1)
    // An update waits for its answer and marks only if it wrote.
    case EvUpdate(name, spec) => s.(queue := s.queue + [Update(name, spec)])
    case EvProcess =>
      var op := s.queue[0];
      s.(queue := s.queue[1..], store := Effect(s.store, op),
         toMark := if Writes(s.store, op) then s.toMark + 1 else s.toMark,
         flusher := if op.Read? then Saving(s.store) else s.flusher)
    case EvMark => s.(toMark := s.toMark - 1, dirty := true)
    case EvTakeToken => s.(dirty := false, flusher := Debouncing)
    case EvQuery => s.(queue := s.queue + [Read], flusher := Reading)
    case EvSaved => s.(saved := Some(s.flusher.snapshot), flusher := Idle)
    // A failed save may have been stored all the same; the token is put back.
    case EvSaveFails(stored) =>
      s.(saved := if stored then Some(s.flusher.snapshot) else s.saved, dirty := true, flusher := Idle)
    // Not with the plain names, numbers, flags and maps a snapshot holds.
    case EvMarshalFails => s.(flusher := Idle)
  }

  // ---- what no step loses ----

  // The store once everything queued has been applied.
  function Eventually(queue: seq<Op>, store: Jobs): Jobs {
    if queue == [] then store else Eventually(queue[1..], Effect(store, queue[0]))
  }

  // What the flusher's query will see, if one is queued.
  function WillRead(queue: seq<Op>, store: Jobs): Option<Jobs> {
    if queue == [] then None
    else if queue[0].Read? then Some(store)
    else WillRead(queue[1..], Effect(store, queue[0]))
  }

  // Queued updates that will find their record, and so still have to mark.
  function WillMark(queue: seq<Op>, store: Jobs): nat {
    if queue == [] then 0
    else (if Writes(store, queue[0]) then 1 else 0) + WillMark(queue[1..], Effect(store, queue[0]))
  }

  function Reads(queue: seq<Op>): nat {
    if queue == [] then 0 else (if queue[0].Read? then 1 else 0) + Reads(queue[1..])
  }

  // A flush under way whose snapshot is all there will be.
  predicate WillCover(s: State) {
    match s.flusher
    case Idle => s.saved == Some(Eventually(s.queue, s.store))
    case Debouncing => true
    case Reading => WillRead(s.queue, s.store) == Some(Eventually(s.queue, s.store))
    case Saving(snapshot) => snapshot == Eventually(s.queue, s.store)
  }

  predicate NothingLost(s: State) {
    s.dirty || s.toMark > 0 || WillMark(s.queue, s.store) > 0 || WillCover(s)
  }

  predicate OneQuery(s: State) {
    Reads(s.queue) == if s.flusher.Reading? then 1 else 0
  }

  predicate Inv(s: State) {
    NothingLost(s) && OneQuery(s)
  }

  lemma {:induction false} Append(queue: seq<Op>, store: Jobs, op: Op)
    ensures Eventually(queue + [op], store) == Effect(Eventually(queue, store), op)
    ensures WillMark(queue + [op], store) ==
            WillMark(queue, store) + if Writes(Eventually(queue, store), op) then 1 else 0
    ensures WillRead(queue + [op], store) ==
            if WillRead(queue, store).Some? then WillRead(queue, store)
            else if op.Read? then Some(Eventually(queue, store)) else None
    ensures Reads(queue + [op]) == Reads(queue) + if op.Read? then 1 else 0
    decreases |queue|
  {
    if queue == [] {
      assert queue + [op] == [op] && [op][1..] == [];
    } else {
      assert (queue + [op])[1..] == queue[1..] + [op];
      Append(queue[1..], Effect(store, queue[0]), op);
    }
  }

  lemma {:induction false} NoReadLeft(queue: seq<Op>, store: Jobs)
    ensures WillRead(queue, store).Some? <==> Reads(queue) > 0
    decreases |queue|
  {
    if queue != [] {
      NoReadLeft(queue[1..], Effect(store, queue[0]));
    }
  }

  lemma StepInv(s: State, e: Event)
    requires Inv(s) && Enabled(s, e) && !e.EvMarshalFails?
    ensures Inv(Apply(s, e))
  {
    match e
    case EvSubmit(op) => Append(s.queue, s.store, op);
    case EvUpdate(name, spec) => Append(s.queue, s.store, Update(name, spec));
    case EvQuery =>
      Append(s.queue, s.store, Read);
      NoReadLeft(s.queue, s.store);
    case _ =>
  }

  // ---- runs ----

  // Right after a load (which marks), or with a store that is what was saved.
  predicate Init(s: State) {
    s.queue == [] && s.toMark == 0 && s.flusher.Idle? && (s.dirty || s.saved == Some(s.store))
  }

  ghost predicate IsRun(states: seq<State>, events: seq<Event>) {
    && |states| == |events| + 1 && Init(states[0])
    && forall i {:trigger events[i]} | 0 <= i < |events| ::
         Enabled(states[i], events[i]) && states[i + 1] == Apply(states[i], events[i])
  }

  /** In every interleaving, also across failed saves: the token is set, a mutator has
      still to mark, a flush is under way that will cover everything queued, or the saved
      snapshot is what the store will be. */
  lemma {:induction false} NoMutationIsLost(states: seq<State>, events: seq<Event>, n: nat)
    requires IsRun(states, events) && n < |states|
    requires forall i | 0 <= i < n :: !events[i].EvMarshalFails?
    ensures Inv(states[n])
  {
    if n > 0 {
      NoMutationIsLost(states, events, n - 1);
      StepInv(states[n - 1], events[n - 1]);
    }
  }

  /** Once everything has come to rest, the committed snapshot is the store. */
  lemma AtRestAllIsCommitted(states: seq<State>, events: seq<Event>, n: nat)
    requires IsRun(states, events) && n < |states|
    requires forall i | 0 <= i < n :: !events[i].EvMarshalFails?
    requires var s := states[n]; s.queue == [] && s.toMark == 0 && !s.dirty && s.flusher.Idle?
    ensures states[n].saved == Some(states[n].store)
  {
    NoMutationIsLost(states, events, n);
  }

  // ---- the decorated store ----

  // Jobs as a list, later entries overriding earlier ones of the same name.
  function Listed(jobs: seq<(string, int)>): Jobs {
    if jobs == [] then map[] else Listed(jobs[..|jobs| - 1])[jobs[|jobs| - 1].0 := jobs[|jobs| - 1].1]
  }

  lemma {:induction false} ListedNames(jobs: seq<(string, int)>, n: string)
    ensures n in Listed(jobs) <==> exists k | 0 <= k < |jobs| :: jobs[k].0 == n
    decreases |jobs|
  {
    if jobs != [] {
      var last := |jobs| - 1;
      var front := jobs[..last];
      ListedNames(front, n);
      if n in Listed(front) {
        var k :| 0 <= k < |front| && front[k].0 == n;
        assert jobs[k].0 == n;
      }
      if k :| 0 <= k < |jobs| && jobs[k].0 == n {
        assert k < last ==> front[k].0 == n;
        assert k == last ==> n == jobs[last].0;
      }
      assert jobs[last].0 in Listed(jobs);
    }
  }

  /** That map holds exactly the listed names, each with its last entry. */
  lemma {:induction false} ListedHoldsLast(jobs: seq<(string, int)>, i: nat)
    requires i < |jobs|
    ensures forall n :: n in Listed(jobs) <==> exists k | 0 <= k < |jobs| :: jobs[k].0 == n
    ensures jobs[i].0 in Listed(jobs)
    ensures (forall k | i < k < |jobs| :: jobs[k].0 != jobs[i].0) ==> Listed(jobs)[jobs[i].0] == jobs[i].1
    decreases |jobs|
  {
    forall n ensures n in Listed(jobs) <==> exists k | 0 <= k < |jobs| :: jobs[k].0 == n {
      ListedNames(jobs, n);
    }
    var last := |jobs| - 1;
    if i < last {
      assert jobs[..last][i] == jobs[i];
      ListedHoldsLast(jobs[..last], i);
    }
  }

  datatype Loaded = NoPersister | LoadFailed | CleanBoot | Corrupt | Snapshot(jobs: seq<(string, int)>)

  class CommittedStore {
    var jobs: Jobs
    var dirty: bool

    constructor (jobs: Jobs)
      ensures this.jobs == jobs && !dirty
    {
      this.jobs, dirty := jobs, false;
    }

    /** Every mutation marks; an update that finds no record is none. */
    method StoreJob(name: string, spec: int)
      modifies this
      ensures jobs == old(jobs)[name := spec] && dirty
      ensures jobs == Effect(old(jobs), Sync(map[name := spec]))
    {
      jobs := jobs[name := spec];
      dirty := true;
      assert jobs == old(jobs) + map[name := spec];
    }

    method DeleteJob(name: string)
      modifies this
      ensures jobs == old(jobs) - {name} && dirty
      ensures jobs == Effect(old(jobs), Delete(name))
    {
      jobs := jobs - {name};
      dirty := true;
    }

    method UpdateJob(name: string, spec: int) returns (ok: bool)
      modifies this
      ensures ok == (name in old(jobs))
      ensures jobs == if ok then old(jobs)[name := spec] else old(jobs)
      ensures dirty == (old(dirty) || ok)
      ensures jobs == Effect(old(jobs), Update(name, spec)) && ok == Writes(old(jobs), Update(name, spec))
    {
      ok := name in jobs;
      if ok {
        jobs := jobs[name := spec];
        dirty := true;
      }
    }

    method SyncJobs(list: seq<(string, int)>)
      modifies this
      ensures jobs == old(jobs) + Listed(list) && dirty
      ensures jobs == Effect(old(jobs), Sync(Listed(list)))
    {
      for i := 0 to |list|
        invariant jobs == old(jobs) + Listed(list[..i])
      {
        assert list[..i + 1][..i] == list[..i];
        jobs := jobs[list[i].0 := list[i].1];
      }
      assert list[..|list|] == list;
      dirty := true;
    }

    /** Loading a snapshot leaves exactly its jobs, whatever the store held; without a
        usable one the store is untouched. */
    method LoadCommittedState(source: Loaded) returns (loaded: bool, failed: bool)
      modifies this
      ensures loaded == source.Snapshot? && failed == (source.LoadFailed? || source.Corrupt?)
      ensures jobs == if source.Snapshot? then Listed(source.jobs) else old(jobs)
      ensures dirty == (old(dirty) || source.Snapshot?)
    {
      if !source.Snapshot? {
        return false, source.LoadFailed? || source.Corrupt?;
      }
      var inSnapshot := Names(source.jobs);
      DropOthers(inSnapshot);
      SyncJobs(source.jobs);
      assert jobs == Listed(source.jobs);
      return true, false;
    }

    method DropOthers(names: set<string>)
      modifies this
      ensures jobs.Keys <= names && jobs.Keys <= old(jobs).Keys
      ensures old(dirty) ==> dirty
    {
      var left := jobs.Keys;
      while left != {}
        invariant left <= old(jobs).Keys && jobs.Keys <= old(jobs).Keys
        invariant jobs.Keys <= left + names
        invariant old(dirty) ==> dirty
        decreases |left|
      {
        var n :| n in left;
        left := left - {n};
        if n !in names {
          DeleteJob(n);
        }
      }
    }

    static method Names(list: seq<(string, int)>) returns (names: set<string>)
      ensures names == Listed(list).Keys
    {
      names := {};
      for i := 0 to |list|
        invariant names == Listed(list[..i]).Keys
      {
        assert list[..i + 1][..i] == list[..i];
        names := names + {list[i].0};
      }
      assert list[..|list|] == list;
    }
  }
}
