/** The cage allocator of the HopOS runner: the search for a run of contiguous
    free cages that every start performs before it downloads anything. */
module SlotAllocator {
  import opened Wrappers

  /** What one start asks for. A sharegroup member takes a single cage above the
      physical range; an SMP app takes `cores` adjacent ones. */
  datatype Request = Request(coreClass: string, cores: int, shared: bool) {
    // The shapes `run` builds: at least one cage, and exactly one when shared.
    predicate Valid() {
      1 <= cores && (shared ==> cores == 1)
    }

    // Searches for SMP or class-bound apps stop at the last physical core.
    predicate Bounded() {
      !shared && (coreClass != "" || cores > 1)
    }

    function First(numCores: nat): int {
      if shared then numCores + 1 else 1
    }
  }

  /** The node's answers during one search. `canPlace` is None on a driver that
      does not implement the optional placement question. */
  datatype Probe = Probe(numCores: nat, coreOn: set<int>, classOf: map<int, string>,
                         canPlace: Option<set<(int, int)>>)

  function ClassOf(p: Probe, c: int): string {
    if c in p.classOf then p.classOf[c] else ""
  }

  predicate CageFree(q: Request, p: Probe, inUse: map<int, string>, c: int) {
    && c !in inUse
    && c !in p.coreOn
    && (!q.shared && q.coreClass != "" ==> ClassOf(p, c) == q.coreClass)
  }

  predicate PlacementAllows(q: Request, p: Probe, slot: int) {
    !q.shared && slot + q.cores - 1 <= p.numCores && p.canPlace.Some? ==>
      (slot, q.cores) in p.canPlace.value
  }

  /** A run starting at `slot` that the request could be given. */
  ghost predicate Feasible(q: Request, p: Probe, inUse: map<int, string>, slot: int) {
    && q.First(p.numCores) <= slot
    && (q.Bounded() ==> slot + q.cores - 1 <= p.numCores)
    && PlacementAllows(q, p, slot)
    && forall c | slot <= c < slot + q.cores :: CageFree(q, p, inUse, c)
  }

  /** The allocator's promise: the least feasible run, and an error only when
      there is none at all. */
  ghost predicate IsAllocation(q: Request, p: Probe, inUse: map<int, string>, r: Option<int>) {
    match r
    case Some(slot) =>
      && Feasible(q, p, inUse, slot)
      && forall x | x < slot :: !Feasible(q, p, inUse, x)
    case None =>
      forall x :: !Feasible(q, p, inUse, x)
  }

  /** Pigeonhole: among |busy| + 1 consecutive cages one is not busy. */
  lemma {:induction false} FreeCageAbove(lo: int, busy: set<int>) returns (c: int)
    ensures lo <= c <= lo + |busy| && c !in busy
    decreases |busy|
  {
    if lo in busy {
      c := FreeCageAbove(lo + 1, busy - {lo});
    } else {
      c := lo;
    }
  }

  /** A search without an upper limit always has somewhere to stop, at the latest
      one past the physical range plus one cage per busy one. */
  lemma UnlimitedSearchEnds(q: Request, p: Probe, inUse: map<int, string>) returns (slot: int)
    requires q.Valid() && !q.Bounded()
    ensures Feasible(q, p, inUse, slot)
    ensures p.numCores + 1 <= slot <= p.numCores + 1 + |inUse.Keys + p.coreOn|
  {
    slot := FreeCageAbove(p.numCores + 1, inUse.Keys + p.coreOn);
    assert CageFree(q, p, inUse, slot);
  }

  /** What a result says about placement: shared cages never take a physical ID,
      SMP and class-bound ones never leave the physical range, only bounded
      searches can fail, and an unlimited one stays within its pigeonhole bound. */
  lemma AllocationPlacement(q: Request, p: Probe, inUse: map<int, string>, r: Option<int>)
    requires q.Valid() && IsAllocation(q, p, inUse, r)
    ensures r.Some? && q.shared ==> r.value > p.numCores
    ensures r.Some? && q.Bounded() ==> 1 <= r.value && r.value + q.cores - 1 <= p.numCores
    ensures r.None? ==> q.Bounded()
    ensures r.Some? && !q.Bounded() ==> r.value <= p.numCores + 1 + |inUse.Keys + p.coreOn|
    ensures r.Some? ==>
              forall c | r.value <= c < r.value + q.cores ::
                c >= 1 && c !in inUse && c !in p.coreOn
  {
    if !q.Bounded() {
      var slot := UnlimitedSearchEnds(q, p, inUse);
    }
    if r.Some? {
      forall c | r.value <= c < r.value + q.cores
        ensures c >= 1 && c !in inUse && c !in p.coreOn
      {
        assert CageFree(q, p, inUse, c);
      }
    }
  }

  /** The answer is unique: any two searches over the same books agree. */
  lemma AllocationUnique(q: Request, p: Probe, inUse: map<int, string>, r: Option<int>, r': Option<int>)
    requires IsAllocation(q, p, inUse, r) && IsAllocation(q, p, inUse, r')
    ensures r == r'
  {
    if r.Some? && r'.Some? {
      assert !(r.value < r'.value) && !(r'.value < r.value);
    }
  }

  /** `allocateSlotLocked`: the nested scan, with -1 as "no limit". */
  method AllocateSlot(q: Request, p: Probe, inUse: map<int, string>) returns (r: Option<int>)
    requires q.Valid()
    ensures IsAllocation(q, p, inUse, r)
  {
    var first: int, limit: int := 1, -1;
    if q.shared {
      first := p.numCores + 1;
    } else if q.coreClass != "" || q.cores > 1 {
      limit := p.numCores;
    }
    ghost var stop := p.numCores + 1;
    if !q.Bounded() {
      stop := UnlimitedSearchEnds(q, p, inUse);
    }
    var slot := first;
    while limit < 0 || slot + q.cores - 1 <= limit
      invariant first <= slot
      invariant forall x | x < slot :: !Feasible(q, p, inUse, x)
      decreases stop - slot
    {
      var mayAsk := !q.shared && slot + q.cores - 1 <= p.numCores && p.canPlace.Some?;
      if mayAsk && (slot, q.cores) !in p.canPlace.value {
        assert !PlacementAllows(q, p, slot);
        slot := slot + 1;
        continue;
      }
      var ok := true;
      var c := slot;
      while c < slot + q.cores
        invariant slot <= c <= slot + q.cores
        invariant ok ==> forall k | slot <= k < c :: CageFree(q, p, inUse, k)
        invariant !ok ==> exists k | slot <= k < slot + q.cores :: !CageFree(q, p, inUse, k)
      {
        if c in inUse || c in p.coreOn || (!q.shared && q.coreClass != "" && ClassOf(p, c) != q.coreClass) {
          assert !CageFree(q, p, inUse, c);
          ok := false;
          break;
        }
        assert CageFree(q, p, inUse, c);
        c := c + 1;
      }
      if ok {
        return Some(slot);
      }
      slot := slot + 1;
    }
    return None;
  }
}
