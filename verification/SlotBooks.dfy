/** The runner's own books about cages: the maps HopRunner keeps under its mutex,
    and what each lock section does to them. */
module SlotBooks {
  type TaskId = string

  /** The run of cages one task holds: the primary and, for SMP, the next ones. */
  datatype Extent = Extent(slot: int, width: int) {
    predicate Has(c: int) { slot <= c < slot + width }

    function Fill<T>(o: T): map<int, T> {
      map c | slot <= c < slot + width && Has(c) :: o
    }
  }

  /** `cancelled` holds the tasks whose context has been cancelled; it outlives
      the `cancels` entry the way a context outlives its cancel function. */
  datatype Books = Books(
    slots: map<TaskId, int>,
    inUse: map<int, TaskId>,
    stopping: set<TaskId>,
    cancels: set<TaskId>,
    dones: set<TaskId>,
    armed: map<TaskId, bool>,
    cancelled: set<TaskId>)

  const EMPTY := Books(map[], map[], {}, {}, {}, map[], {})

  // The lock section of `run`: the start owns its cages before anyone can see it.
  function Reserve(b: Books, t: TaskId, e: Extent): Books {
    b.(slots := b.slots[t := e.slot],
       inUse := b.inUse + e.Fill(t),
       cancels := b.cancels + {t},
       dones := b.dones + {t},
       armed := b.armed[t := false])
  }

  // The lock section of `Stop`.
  function MarkStopping(b: Books, t: TaskId): Books {
    if t in b.slots then b.(stopping := b.stopping + {t}) else b
  }

  function Cancel(b: Books, t: TaskId): Books {
    b.(cancelled := b.cancelled + {t})
  }

  function Arm(b: Books, t: TaskId): Books {
    b.(armed := b.armed[t := true])
  }

  predicate Armed(b: Books, t: TaskId) {
    t in b.armed && b.armed[t]
  }

  // The test before a start publishes its slot number as the task's process id.
  predicate MayPublish(b: Books, t: TaskId, slot: int) {
    t !in b.stopping && t in b.slots && b.slots[t] == slot
  }

  function Release(b: Books, t: TaskId): Books {
    Books(
      slots := b.slots - {t},
      inUse := map c | c in b.inUse && b.inUse[c] != t :: b.inUse[c],
      stopping := b.stopping - {t},
      cancels := b.cancels - {t},
      dones := b.dones - {t},
      armed := b.armed - {t},
      cancelled := if t in b.cancels then b.cancelled + {t} else b.cancelled)
  }

  // One iteration of AdoptRunning's loop; a cage already handed out stays put.
  function Adopt(b: Books, t: TaskId, e: Extent): Books {
    if e.slot < 1 || t in b.slots then b
    else b.(slots := b.slots[t := e.slot], inUse := e.Fill(t) + b.inUse)
  }

  /** Releasing twice is releasing once, and no release touches a cage recorded
      for another task. */
  lemma ReleaseIsIdempotent(b: Books, t: TaskId)
    ensures Release(Release(b, t), t) == Release(b, t)
    ensures forall c :: c in b.inUse && b.inUse[c] != t ==>
                          c in Release(b, t).inUse && Release(b, t).inUse[c] == b.inUse[c]
  {
    var once := Release(b, t);
    var twice := Release(once, t);
    assert twice.slots == once.slots;
    assert twice.inUse == once.inUse;
    assert twice.armed == once.armed;
  }

  /** A release takes back exactly what a reservation by a new task wrote. */
  lemma ReleaseUndoesReserve(b: Books, t: TaskId, e: Extent)
    requires t !in b.slots && t !in b.stopping && t !in b.cancels && t !in b.dones && t !in b.armed
    requires forall c :: c in b.inUse ==> b.inUse[c] != t
    requires forall c :: e.Has(c) ==> c !in b.inUse
    ensures Release(Reserve(b, t, e), t) == b.(cancelled := b.cancelled + {t})
  {
    var r := Release(Reserve(b, t, e), t);
    assert r.slots == b.slots;
    assert r.inUse == b.inUse;
    assert r.armed == b.armed;
  }
}
