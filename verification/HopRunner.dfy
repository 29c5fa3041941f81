/** The runner object: the same books as mutable maps, and the lock sections of
    its methods, each tied to the step of the protocol it performs. */
module HopRunner {
  import opened Wrappers
  import SB = SlotBooks
  import opened SlotAllocator
  import opened SlotBooks

  lemma NonEmpty(s: set<int>)
    ensures s == {} || exists c :: c in s
  {
    if forall c :: c !in s {
      assert s == {};
    }
  }

  class Runner {
    var slots: map<TaskId, int>
    var inUse: map<int, TaskId>
    var stopping: set<TaskId>
    var cancels: set<TaskId>
    var dones: set<TaskId>
    var armed: map<TaskId, bool>
    var cancelled: set<TaskId>

    ghost function View(): Books
      reads this
    {
      Books(slots, inUse, stopping, cancels, dones, armed, cancelled)
    }

    constructor ()
      ensures View() == EMPTY
    {
      slots, inUse, stopping, cancels, dones, armed, cancelled := map[], map[], {}, {}, {}, map[], {};
    }

    method RecordCages(slot: int, cores: nat, t: TaskId)
      modifies this`inUse
      ensures inUse == old(inUse) + Extent(slot, cores).Fill(t)
    {
      for i := 0 to cores
        invariant inUse == old(inUse) + Extent(slot, i).Fill(t)
      {
        inUse := inUse[slot + i := t];
      }
    }

    // The first lock section of `run`: allocate and record, or refuse untouched.
    method Reserve(t: TaskId, q: Request, p: Probe) returns (r: Option<int>)
      requires q.Valid()
      modifies this
      ensures IsAllocation(q, p, old(inUse), r)
      ensures View() == match r
                        case Some(slot) => SB.Reserve(old(View()), t, Extent(slot, q.cores))
                        case None => old(View())
    {
      r := AllocateSlot(q, p, inUse);
      if r.None? {
        return;
      }
      RecordCages(r.value, q.cores, t);
      slots := slots[t := r.value];
      cancels := cancels + {t};
      dones := dones + {t};
      armed := armed[t := false];
    }

    // The lock section of `Stop`. None: not this runner's task.
    method BeginStop(t: TaskId) returns (slot: Option<int>, hasCancel: bool)
      modifies this
      ensures View() == MarkStopping(old(View()), t)
      ensures slot == if t in old(slots) then Some(old(slots)[t]) else None
      ensures hasCancel == (t in old(slots) && t in old(cancels))
    {
      if t !in slots {
        return None, false;
      }
      stopping := stopping + {t};
      return Some(slots[t]), t in cancels;
    }

    // The last lock section of runViaStream.
    method ArmTask(t: TaskId) returns (wasStopping: bool)
      modifies this
      ensures View() == Arm(old(View()), t)
      ensures wasStopping == (t in old(stopping))
    {
      armed := armed[t := true];
      wasStopping := t in stopping;
    }

    // What stopOwned reads after its wait; an adopted task has no start to ask.
    method IsArmed(t: TaskId, hasCancel: bool) returns (r: bool)
      ensures r == (hasCancel ==> Armed(View(), t))
    {
      r := true;
      if hasCancel {
        r := t in armed && armed[t];
      }
    }

    /** The publishing lock section of `run`: the process id, or 0 when a Stop has marked
        the task or released its slot meanwhile. */
    method Publish(t: TaskId, slot: int) returns (pid: int)
      requires slot >= 1
      ensures pid == slot <==> t !in stopping && t in slots && slots[t] == slot
      ensures pid == slot || pid == 0
      ensures pid == slot <==> MayPublish(View(), t, slot)
    {
      var recorded := if t in slots then slots[t] else 0;
      if t in stopping || recorded != slot {
        return 0;
      }
      return slot;
    }

    // Takes the task's cages, wherever they are, off the books.
    method DropCages(t: TaskId)
      modifies this`inUse
      ensures inUse == map c | c in old(inUse) && old(inUse)[c] != t :: old(inUse)[c]
    {
      var todo := inUse.Keys;
      while todo != {}
        invariant todo <= old(inUse).Keys
        invariant inUse == map c | c in old(inUse) && (c in todo || old(inUse)[c] != t) :: old(inUse)[c]
        decreases todo
      {
        NonEmpty(todo);
        var c :| c in todo;
        if c in inUse && inUse[c] == t {
          inUse := inUse - {c};
        }
        todo := todo - {c};
      }
    }

    method ReleaseTask(t: TaskId)
      modifies this
      ensures View() == Release(old(View()), t)
    {
      if t in cancels {
        cancelled := cancelled + {t};
      }
      DropCages(t);
      slots := slots - {t};
      stopping := stopping - {t};
      cancels := cancels - {t};
      dones := dones - {t};
      armed := armed - {t};
    }

    // AdoptRunning, over tasks in whatever order the map yields them.
    method AdoptRunning(claims: map<TaskId, Extent>) returns (ghost order: seq<TaskId>)
      modifies this
      ensures (forall t :: t in order <==> t in claims)
              && (forall i, j :: 0 <= i < j < |order| ==> order[i] != order[j])
      ensures View() == AdoptAll(old(View()), order, claims)
    {
      order := [];
      var todo := claims.Keys;
      while todo != {}
        invariant todo <= claims.Keys
        invariant forall t :: t in order <==> t in claims && t !in todo
        invariant forall i, j :: 0 <= i < j < |order| ==> order[i] != order[j]
        invariant View() == AdoptAll(old(View()), order, claims)
        decreases todo
      {
        var t :| t in todo;
        AdoptOne(t, claims[t]);
        assert (order + [t])[..|order|] == order;
        order := order + [t];
        todo := todo - {t};
      }
    }

    method AdoptOne(t: TaskId, e: Extent)
      modifies this
      ensures View() == Adopt(old(View()), t, e)
      ensures e.slot < 1 || t in old(slots) ==> View() == old(View())
    {
      if e.slot < 1 || t in slots {
        return;
      }
      slots := slots[t := e.slot];
      var c := e.slot;
      while c < e.slot + e.width
        invariant e.slot <= c && (c <= e.slot + e.width || c == e.slot)
        invariant forall x :: x in inUse <==> x in old(inUse) || e.slot <= x < c
        invariant forall x :: x in inUse ==> inUse[x] == if x in old(inUse) then old(inUse)[x] else t
        invariant slots == old(slots)[t := e.slot] && stopping == old(stopping) && cancels == old(cancels)
        invariant dones == old(dones) && armed == old(armed) && cancelled == old(cancelled)
      {
        if c !in inUse {
          inUse := inUse[c := t];
        }
        c := c + 1;
      }
      assert inUse == e.Fill(t) + old(inUse);
    }
  }

  ghost function AdoptAll(b: Books, order: seq<TaskId>, claims: map<TaskId, Extent>): Books
    requires forall t :: t in order ==> t in claims
  {
    if order == [] then b
    else
      var last := order[|order| - 1];
      Adopt(AdoptAll(b, order[..|order| - 1], claims), last, claims[last])
  }

  // A task that may later be stopped without touching a neighbour's cages.
  ghost predicate Owns(b: Books, t: TaskId, e: Extent) {
    t in b.slots && b.slots[t] == e.slot && forall c :: e.Has(c) ==> c in b.inUse && b.inUse[c] == t
  }

  ghost predicate DisjointClaims(inUse: map<int, TaskId>, order: seq<TaskId>, claims: map<TaskId, Extent>)
    requires forall t :: t in order ==> t in claims
  {
    && (forall t, c :: t in order && claims[t].Has(c) ==> c !in inUse)
    && (forall t, u, c :: t in order && u in order && claims[t].Has(c) && claims[u].Has(c) ==> t == u)
  }

  // Tasks this runner has never heard of, with slots the node filled in.
  ghost predicate Newcomers(b: Books, order: seq<TaskId>, claims: map<TaskId, Extent>) {
    && (forall t :: t in order ==> t in claims && t !in b.slots && claims[t].slot >= 1)
    && (forall t, c :: t in order && c in b.inUse ==> b.inUse[c] != t)
    && (forall i, j :: 0 <= i < j < |order| ==> order[i] != order[j])
  }

  // Adoption only ever adds.
  lemma {:induction false} AdoptionKeeps(b: Books, order: seq<TaskId>, claims: map<TaskId, Extent>)
    requires Newcomers(b, order, claims)
    ensures var r := AdoptAll(b, order, claims);
            && (forall c :: c in b.inUse ==> c in r.inUse && r.inUse[c] == b.inUse[c])
            && (forall t :: t in r.slots <==> t in b.slots || t in order)
            && (forall t :: t in order ==> r.slots[t] == claims[t].slot)
            && (forall c :: c in r.inUse ==> c in b.inUse || (r.inUse[c] in order && claims[r.inUse[c]].Has(c)))
  {
    if order != [] {
      var front, last := order[..|order| - 1], order[|order| - 1];
      assert last !in front;
      assert forall t :: t in front ==> t in order;
      AdoptionKeeps(b, front, claims);
      assert forall t :: t in order <==> t in front || t == last;
    }
  }

  /** Whatever is claimed: adoption moves no task and no cage that is in the books, takes
      in exactly the tasks with a slot, and records each cage for somebody who claims it. */
  lemma {:induction false} AdoptionOnlyAdds(b: Books, order: seq<TaskId>, claims: map<TaskId, Extent>)
    requires forall t :: t in order ==> t in claims
    ensures var r := AdoptAll(b, order, claims);
            && (forall t :: t in b.slots ==> t in r.slots && r.slots[t] == b.slots[t])
            && (forall c :: c in b.inUse ==> c in r.inUse && r.inUse[c] == b.inUse[c])
            && (forall t :: t in r.slots <==> t in b.slots || (t in order && claims[t].slot >= 1))
            && (forall c :: c in r.inUse ==> c in b.inUse || (r.inUse[c] in order && claims[r.inUse[c]].Has(c)))
            && r == b.(slots := r.slots, inUse := r.inUse)
  {
    if order != [] {
      var front, last := order[..|order| - 1], order[|order| - 1];
      assert forall t :: t in front ==> t in order;
      AdoptionOnlyAdds(b, front, claims);
      assert forall t :: t in order <==> t in front || t == last;
    }
  }

  // With disjoint claims every newcomer gets all of its cages.
  lemma {:induction false} DisjointClaimsOwn(b: Books, order: seq<TaskId>, claims: map<TaskId, Extent>)
    requires Newcomers(b, order, claims) && DisjointClaims(b.inUse, order, claims)
    ensures forall t :: t in order ==> Owns(AdoptAll(b, order, claims), t, claims[t])
  {
    if order != [] {
      var front, last := order[..|order| - 1], order[|order| - 1];
      assert last !in front;
      DisjointClaimsOwn(b, front, claims);
      AdoptionKeeps(b, front, claims);
      var r := AdoptAll(b, front, claims);
      forall t | t in order ensures Owns(AdoptAll(b, order, claims), t, claims[t]) {
        if t != last {
          assert t in front && Owns(r, t, claims[t]);
        } else {
          forall c | claims[last].Has(c) ensures c !in r.inUse {
            assert last in order && c !in b.inUse;
          }
        }
      }
    }
  }

  lemma OwnersAreDisjoint(b: Books, order: seq<TaskId>, claims: map<TaskId, Extent>)
    requires Newcomers(b, order, claims)
    requires forall t :: t in order ==> Owns(AdoptAll(b, order, claims), t, claims[t])
    ensures DisjointClaims(b.inUse, order, claims)
  {
    AdoptionKeeps(b, order, claims);
    var r := AdoptAll(b, order, claims);
    forall t, c | t in order && claims[t].Has(c) ensures c !in b.inUse {
      assert Owns(r, t, claims[t]);
    }
    forall t, u, c | t in order && u in order && claims[t].Has(c) && claims[u].Has(c) ensures t == u {
      assert Owns(r, t, claims[t]);
      assert Owns(r, u, claims[u]);
    }
  }

  /** After a kernel flip every adopted task owns all the cages it claims, in
      whatever order the map is walked, if and only if the claims are disjoint from
      each other and from the cages already handed out. */
  lemma AdoptionOwnsIffDisjoint(b: Books, order: seq<TaskId>, claims: map<TaskId, Extent>)
    requires Newcomers(b, order, claims)
    ensures (forall t :: t in order ==> Owns(AdoptAll(b, order, claims), t, claims[t]))
       <==> DisjointClaims(b.inUse, order, claims)
  {
    if DisjointClaims(b.inUse, order, claims) {
      DisjointClaimsOwn(b, order, claims);
    }
    if forall t :: t in order ==> Owns(AdoptAll(b, order, claims), t, claims[t]) {
      OwnersAreDisjoint(b, order, claims);
    }
  }

  // The width a restored task claims: its CPU shares in whole cores.
  function RestoredWidth(cpuShares: nat): int {
    if cpuShares / 1024 > 1 then cpuShares / 1024 else 1
  }

  /** The claims are not always disjoint. A sharegroup member holds one cage, but its
      CPU shares are the size of the pool; so two members of a pool of two or more
      cores in neighbouring cages never both come out as owners, and the second
      one's cage is recorded for the first. */
  lemma SharegroupNeighboursOverlap(a: TaskId, c: TaskId, slot: int, cpuShares: nat, order: seq<TaskId>,
                                    claims: map<TaskId, Extent>)
    requires a != c && slot >= 1 && cpuShares >= 2048
    requires claims == map[a := Extent(slot, RestoredWidth(cpuShares)), c := Extent(slot + 1, RestoredWidth(cpuShares))]
    requires order == [a, c] || order == [c, a]
    ensures Newcomers(EMPTY, order, claims)
    ensures exists t :: t in order && !Owns(AdoptAll(EMPTY, order, claims), t, claims[t])
    ensures order == [a, c] ==> slot + 1 in AdoptAll(EMPTY, order, claims).inUse &&
                                AdoptAll(EMPTY, order, claims).inUse[slot + 1] == a
  {
    assert claims[a].Has(slot + 1) && claims[c].Has(slot + 1);
    assert a in order && c in order;
    AdoptionOwnsIffDisjoint(EMPTY, order, claims);
    if order == [a, c] {
      assert order[..1] == [a] && [a][..0] == [];
      assert AdoptAll(EMPTY, [a], claims) == Adopt(EMPTY, a, claims[a]);
      assert AdoptAll(EMPTY, order, claims) == Adopt(Adopt(EMPTY, a, claims[a]), c, claims[c]);
    }
  }
}
