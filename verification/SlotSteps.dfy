/** Every step of the start/stop handshake keeps its invariant: one lemma per
    kind of step, over a few frame lemmas about what a step leaves alone. */
module SlotSteps {
  import opened Wrappers
  import opened SlotAllocator
  import opened SlotBooks
  import opened SlotProtocol

  // The books say the same about `u`.
  predicate SameFor(b: Books, b': Books, u: TaskId) {
    && (u in b.slots <==> u in b'.slots)
    && (u in b.cancelled <==> u in b'.cancelled)
    && (u in b.stopping <==> u in b'.stopping)
    && (u in b.armed <==> u in b'.armed)
    && (Armed(b, u) <==> Armed(b', u))
  }

  predicate SameWorld(s: State, s': State) {
    s'.extent == s.extent && s'.foreign == s.foreign && s'.adopted == s.adopted
  }

  predicate NeverReopens(s: State, s': State) {
    && s'.starts.Keys == s.starts.Keys
    && forall u :: u in s.starts && s.starts[u].Closed() ==> s'.starts[u].Closed()
  }

  lemma FrameTasks(s: State, s': State, t: TaskId)
    requires TasksOk(s)
    requires s'.starts.Keys <= s.starts.Keys + {t}
    requires forall u :: u in s'.starts && u != t ==>
               s'.starts[u] == s.starts[u] && SameFor(s.books, s'.books, u) && (u in s.turns ==> u in s'.turns)
    requires t in s'.starts ==> TaskOk(s', t)
    ensures TasksOk(s')
  {
    forall u | u in s'.starts ensures TaskOk(s', u) {
      if u != t { assert TaskOk(s, u); }
    }
  }

  lemma FrameCages(s: State, s': State)
    requires CagesOk(s) && SameWorld(s, s')
    requires s'.cage == s.cage
    requires s'.books.slots == s.books.slots && s'.books.inUse == s.books.inUse
    requires forall u :: Armed(s.books, u) ==> Armed(s'.books, u)
    requires s'.starts.Keys == s.starts.Keys
    requires forall u :: u in s.starts && !Idle(s, u) ==>
               s'.starts[u] == s.starts[u] || (Armed(s'.books, u) && !s.starts[u].Streaming?)
    ensures CagesOk(s')
  {
    forall c | c in s'.cage ensures CageOk(s', c) {
      assert CageOk(s, c);
      assert WholeExtent(s, c);
    }
  }

  lemma FrameStops(s: State, s': State, k: nat)
    requires StopsOk(s) && SameWorld(s, s') && NeverReopens(s, s')
    requires s'.stops.Keys == s.stops.Keys + {k}
    requires forall j :: j in s.stops && j != k ==> s'.stops[j] == s.stops[j]
    requires s'.cage == s.cage
    requires s'.books.slots == s.books.slots && s.books.stopping <= s'.books.stopping
    requires s'.releasedByStop == s.releasedByStop
    requires k in s'.stops ==> StopOk(s', k)
    ensures StopsOk(s')
  {
    forall j | j in s'.stops ensures StopOk(s', j) {
      if j != k {
        assert StopOk(s, j);
        assert Idle(s, s.stops[j].task) ==> Idle(s', s.stops[j].task);
      }
    }
  }

  lemma FrameStopsOnly(s: State, s': State)
    requires StopsOk(s) && SameWorld(s, s') && NeverReopens(s, s')
    requires s'.stops == s.stops
    requires s'.cage == s.cage
    requires s'.books.slots == s.books.slots && s.books.stopping <= s'.books.stopping
    requires s'.releasedByStop == s.releasedByStop
    ensures StopsOk(s')
  {
    forall j | j in s'.stops ensures StopOk(s', j) {
      assert StopOk(s, j);
      assert Idle(s, s.stops[j].task) ==> Idle(s', s.stops[j].task);
    }
  }

  // The stops only move on, and none of them is confirmed away.
  lemma StillAnswered(s: State, s': State)
    requires MarksOk(s)
    requires s'.books.stopping == s.books.stopping
    requires forall k :: k in s.stops ==> k in s'.stops && s'.stops[k].task == s.stops[k].task
    requires forall k :: k in s.stops && s.stops[k].InFlight() ==>
               s'.stops[k].InFlight() || s'.stops[k].pc.result.Quarantined? || s'.stops[k].pc.result.Unconfirmed?
    requires forall k :: k in s.stops && s.stops[k].pc.Ended? ==> s'.stops[k] == s.stops[k]
    ensures MarksOk(s')
  {
    forall u | u in s'.books.stopping ensures Answered(s', u) {
      assert Answered(s, u);
      var k :| k in s.stops && s.stops[k].task == u &&
               (s.stops[k].InFlight() || s.stops[k].pc.result.Quarantined? || s.stops[k].pc.result.Unconfirmed?);
      assert k in s'.stops && s'.stops[k].task == u;
    }
  }

  // A start that only moves on: no books, no cages.
  lemma KeepMove(s: State, t: TaskId, pc: StartPc, turns: set<TaskId>)
    requires Inv(s) && t in s.starts
    requires |turns| <= MAX_DOWNLOADS
    requires forall u :: u in s.turns && u != t ==> u in turns
    requires s.starts[t].Closed() ==> pc.Closed()
    requires Idle(s, t) || (Armed(s.books, t) && !s.starts[t].Streaming?)
    requires TaskOk(s.(starts := s.starts[t := pc], turns := turns), t)
    ensures Inv(s.(starts := s.starts[t := pc], turns := turns))
  {
    var s' := s.(starts := s.starts[t := pc], turns := turns);
    assert s'.starts.Keys == s.starts.Keys;
    FrameTasks(s, s', t);
    FrameCages(s, s');
    FrameStopsOnly(s, s');
    StillAnswered(s, s');
  }

  lemma CancelTasks(s: State, t: TaskId)
    requires TasksOk(s) && t in s.starts
    requires s.starts[t].Closed() || t !in s.books.slots || t in s.books.stopping
    ensures TasksOk(s.(books := Cancel(s.books, t)))
  {
    assert TaskOk(s, t);
    FrameTasks(s, s.(books := Cancel(s.books, t)), t);
  }

  // Cancelling a context is harmless once the start is over, or once a Stop has
  // raised its flag.
  lemma KeepCancelled(s: State, t: TaskId)
    requires Inv(s) && t in s.starts
    requires s.starts[t].Closed() || t !in s.books.slots || t in s.books.stopping
    ensures Inv(s.(books := Cancel(s.books, t)))
  {
    var s' := s.(books := Cancel(s.books, t));
    CancelTasks(s, t);
    FrameCages(s, s');
    FrameStopsOnly(s, s');
    StillAnswered(s, s');
  }

  // A Stop that only moves on.
  lemma KeepStopMove(s: State, k: nat, pc: StopPc, misdirected: bool)
    requires Inv(s) && k in s.stops && s.stops[k].InFlight()
    requires pc.Ended? ==> pc.result.Quarantined? || pc.result.Unconfirmed?
    requires StopOk(StopGoto(s, k, pc), k)
    ensures Inv(StopGoto(s, k, pc).(misdirected := misdirected))
  {
    var s' := StopGoto(s, k, pc).(misdirected := misdirected);
    assert s'.stops.Keys == s.stops.Keys + {k};
    FrameTasks(s, s', s.stops[k].task) by {
      if s.stops[k].task in s.starts { assert TaskOk(s, s.stops[k].task); }
    }
    FrameCages(s, s');
    assert StopOk(s', k) by { assert Idle(StopGoto(s, k, pc), s.stops[k].task) ==> Idle(s', s.stops[k].task); }
    FrameStops(s, s', k);
    StillAnswered(s, s');
  }

  // Before its arming step a start occupies no cage unless it is streaming.
  lemma IdleBeforePlacement(s: State, t: TaskId)
    requires Inv(s) && t in s.starts
    requires !Armed(s.books, t) && !s.starts[t].Streaming? && !s.starts[t].Placed?
    ensures Idle(s, t)
  {
    forall c | c in s.cage ensures s.cage[c].task != t {
      assert CageOk(s, c);
    }
  }

  ghost predicate FreshExtent(s: State, t: TaskId, e: Extent) {
    && t !in s.extent
    && e.slot >= 1 && e.width >= 1
    && forall c :: e.Has(c) ==> c !in s.books.inUse && c !in LiveCages(s.cage)
  }

  ghost predicate Reserving(s: State, s': State, t: TaskId, e: Extent) {
    && FreshExtent(s, t, e)
    && s' == s.(books := Reserve(s.books, t, e), extent := s.extent[t := e], starts := s.starts[t := Reserved])
  }

  lemma ReserveMaps(s: State, t: TaskId, e: Extent)
    requires FreshExtent(s, t, e)
    requires MapsOk(s.books.slots, s.books.inUse, s.extent)
    ensures MapsOk(s.books.slots[t := e.slot], s.books.inUse + e.Fill(t), s.extent[t := e])
  {
  }

  lemma ReserveFlags(s: State, t: TaskId, e: Extent)
    requires FlagsOk(s.books, s.starts.Keys)
    ensures FlagsOk(Reserve(s.books, t, e), s.starts.Keys + {t})
  {
    var b, b' := s.books, Reserve(s.books, t, e);
    assert b'.slots.Keys == b.slots.Keys + {t};
    assert b'.armed.Keys == b.armed.Keys + {t};
    assert (b.slots.Keys + {t}) * (s.starts.Keys + {t}) == b.slots.Keys * s.starts.Keys + {t};
  }

  lemma ReserveExtents(s: State, t: TaskId, e: Extent)
    requires FreshExtent(s, t, e)
    requires ExtentsOk(s.extent, s.starts.Keys, s.foreign)
    ensures ExtentsOk(s.extent[t := e], s.starts.Keys + {t}, s.foreign)
  {
    assert s.extent[t := e].Keys == s.extent.Keys + {t};
  }

  lemma ReserveHistory(recorded: set<TaskId>, started: set<TaskId>, foreign: set<TaskId>,
                       adopted: set<TaskId>, released: set<TaskId>, t: TaskId)
    requires t !in started && t !in foreign
    requires HistoryOk(recorded, started, foreign, adopted, released)
    ensures HistoryOk(recorded + {t}, started + {t}, foreign, adopted, released)
  {
  }

  lemma ReserveCages(s: State, s': State, t: TaskId, e: Extent)
    requires Reserving(s, s', t, e) && CagesOk(s)
    ensures CagesOk(s')
  {
    forall c | c in s'.cage ensures CageOk(s', c) {
      assert CageOk(s, c) && WholeExtent(s, c);
      assert s.cage[c].task != t;
      if s.cage[c].task !in s.books.slots {
        assert c in LiveCages(s.cage);
      }
    }
  }

  lemma ReserveTasks(s: State, s': State, t: TaskId, e: Extent)
    requires Reserving(s, s', t, e) && TasksOk(s)
    requires t !in s.starts && t !in s.books.cancelled
    ensures TasksOk(s')
  {
    ReservedIsOk(s, s', t, e);
    forall u | u in s'.starts && u != t ensures SameFor(s.books, s'.books, u) && s'.starts[u] == s.starts[u] {
    }
    FrameTasks(s, s', t);
  }

  lemma ReservedIsOk(s: State, s': State, t: TaskId, e: Extent)
    requires Reserving(s, s', t, e) && t !in s.starts && t !in s.books.cancelled
    ensures TaskOk(s', t)
  {
  }

  lemma ReserveStops(s: State, s': State, t: TaskId, e: Extent)
    requires Reserving(s, s', t, e) && StopsOk(s)
    requires ExtentsOk(s.extent, s.starts.Keys, s.foreign)
    ensures StopsOk(s')
  {
    assert t !in s.starts;
    forall k | k in s'.stops ensures StopOk(s', k) {
      assert StopOk(s, k);
      assert Idle(s, s.stops[k].task) ==> Idle(s', s.stops[k].task);
    }
  }

  lemma KeepReserve(s: State, s': State, t: TaskId, e: Extent)
    requires Inv(s) && Reserving(s, s', t, e)
    ensures Inv(s')
  {
    assert t !in s.starts.Keys && t !in s.foreign;
    assert s'.starts.Keys == s.starts.Keys + {t};
    assert s'.books.slots.Keys == s.books.slots.Keys + {t};
    ReserveMaps(s, t, e);
    ReserveFlags(s, t, e);
    ReserveExtents(s, t, e);
    ReserveHistory(s.books.slots.Keys, s.starts.Keys, s.foreign, s.adopted, s.releasedByStop, t);
    ReserveCages(s, s', t, e);
    ReserveTasks(s, s', t, e);
    ReserveStops(s, s', t, e);
    StillAnswered(s, s');
  }

  // What the allocator hands out is neither recorded nor running.
  lemma AllocationIsFresh(s: State, t: TaskId, q: Request, p: Probe, slot: int)
    requires t !in s.extent && q.Valid() && p.coreOn == LiveCages(s.cage)
    requires IsAllocation(q, p, s.books.inUse, Some(slot))
    ensures FreshExtent(s, t, Extent(slot, q.cores))
  {
    AllocationPlacement(q, p, s.books.inUse, Some(slot));
    assert forall c :: Extent(slot, q.cores).Has(c) ==> slot <= c < slot + q.cores;
  }

  // Emptying a whole cage run: a crash, a failed stream, a confirmed stop.
  lemma KeepVacate(s: State, t: TaskId)
    requires Inv(s)
    ensures Inv(s.(cage := Vacate(s.cage, t)))
  {
    var s' := s.(cage := Vacate(s.cage, t));
    VacateCages(s, t);
    VacateStops(s, t);
    FrameTasks(s, s', t) by {
      if t in s.starts { assert TaskOk(s, t); }
    }
    StillAnswered(s, s');
  }

  lemma VacateCages(s: State, t: TaskId)
    requires CagesOk(s)
    ensures CagesOk(s.(cage := Vacate(s.cage, t)))
  {
    var s' := s.(cage := Vacate(s.cage, t));
    forall c | c in s'.cage ensures CageOk(s', c) {
      assert CageOk(s, c) && WholeExtent(s, c);
    }
  }

  lemma VacateStops(s: State, t: TaskId)
    requires StopsOk(s)
    ensures StopsOk(s.(cage := Vacate(s.cage, t)))
  {
    var s' := s.(cage := Vacate(s.cage, t));
    forall k | k in s'.stops ensures StopOk(s', k) {
      assert StopOk(s, k);
      assert Idle(s, s.stops[k].task) ==> Idle(s', s.stops[k].task);
    }
  }

  // A start takes its own recorded cages: StartStream begins, or succeeds.
  lemma KeepOccupy(s: State, t: TaskId, pc: StartPc, o: Occupant)
    requires Inv(s) && t in s.starts && t in s.extent
    requires (s.starts[t].Fetching? && pc.Streaming? && o == Stream(t))
             || (s.starts[t].Streaming? && pc.Placed? && o == Live(t))
    ensures Inv(s.(starts := s.starts[t := pc], cage := Occupy(s.cage, s.extent[t], o)))
  {
    var s' := s.(starts := s.starts[t := pc], cage := Occupy(s.cage, s.extent[t], o));
    assert s'.starts.Keys == s.starts.Keys;
    assert TaskOk(s, t);
    FrameTasks(s, s', t);
    OccupyCages(s, s', t, o);
    OccupyStops(s, s', t);
    StillAnswered(s, s');
  }

  // An occupant elsewhere shares no cage with a task in the books.
  lemma NoOverlap(s: State, t: TaskId, c: int)
    requires CagesOk(s) && MapsOk(s.books.slots, s.books.inUse, s.extent)
    requires t in s.books.slots && c in s.cage && CageOk(s, c) && !s.extent[t].Has(c)
    ensures s.cage[c].task != t
    ensures forall d :: s.extent[s.cage[c].task].Has(d) ==> !s.extent[t].Has(d)
  {
    var u := s.cage[c].task;
    assert forall d :: s.extent[u].Has(d) ==> d in s.cage && s.cage[d] == s.cage[c];
    forall d | s.extent[u].Has(d) ensures !s.extent[t].Has(d) {
      assert CageOk(s, d);
      assert u !in s.books.slots ==> d !in s.books.inUse;
      assert u in s.books.slots ==> d in s.books.inUse && s.books.inUse[d] == u;
    }
  }

  lemma OccupyCages(s: State, s': State, t: TaskId, o: Occupant)
    requires CagesOk(s) && MapsOk(s.books.slots, s.books.inUse, s.extent)
    requires t in s.starts && t in s.books.slots && o.task == t
    requires s'.starts.Keys == s.starts.Keys
    requires s'.cage == Occupy(s.cage, s.extent[t], o)
    requires SameWorld(s, s') && s'.books == s.books
    requires forall u :: u in s.starts && u != t ==> s'.starts[u] == s.starts[u]
    requires if o.Stream? then s'.starts[t].Streaming? else s'.starts[t].Placed?
    ensures CagesOk(s')
  {
    forall c | c in s'.cage ensures CageOk(s', c) {
      if s.extent[t].Has(c) {
        assert s'.cage[c] == o;
      } else {
        assert CageOk(s, c) && WholeExtent(s, c);
        NoOverlap(s, t, c);
      }
    }
  }

  lemma OccupyStops(s: State, s': State, t: TaskId)
    requires StopsOk(s) && t in s.starts && !s.starts[t].Closed() && t in s.extent
    requires SameWorld(s, s') && NeverReopens(s, s') && s'.stops == s.stops && s'.books == s.books
    requires s'.releasedByStop == s.releasedByStop
    requires forall c :: c in s'.cage ==> s'.cage[c].task == t || (c in s.cage && s'.cage[c] == s.cage[c])
    ensures StopsOk(s')
  {
    forall k | k in s'.stops ensures StopOk(s', k) {
      assert StopOk(s, k);
      assert Idle(s, s.stops[k].task) && s.stops[k].task != t ==> Idle(s', s.stops[k].task);
    }
  }

  // Giving back the cages of a task that occupies none of them.
  ghost predicate Released(s: State, s': State, t: TaskId) {
    && Idle(s, t)
    && s'.books == Release(s.books, t)
    && SameWorld(s, s') && s'.cage == s.cage
    && s'.starts.Keys == s.starts.Keys
    && (forall u :: u in s.starts && u != t ==> s'.starts[u] == s.starts[u])
  }

  lemma ReleaseMaps(b: Books, extent: map<TaskId, Extent>, t: TaskId)
    requires MapsOk(b.slots, b.inUse, extent)
    ensures MapsOk(Release(b, t).slots, Release(b, t).inUse, extent)
  {
  }

  lemma ReleaseFlags(b: Books, started: set<TaskId>, t: TaskId)
    requires FlagsOk(b, started)
    ensures FlagsOk(Release(b, t), started)
  {
    assert (b.slots - {t}).Keys == b.slots.Keys - {t};
    assert (b.armed - {t}).Keys == b.armed.Keys - {t};
    assert b.slots.Keys * started - {t} == (b.slots.Keys - {t}) * started;
  }

  lemma ReleaseCages(s: State, s': State, t: TaskId)
    requires CagesOk(s) && Released(s, s', t)
    ensures CagesOk(s')
  {
    forall c | c in s'.cage ensures CageOk(s', c) {
      assert CageOk(s, c) && WholeExtent(s, c);
    }
  }

  lemma ReleaseTasks(s: State, s': State, t: TaskId)
    requires TasksOk(s) && Released(s, s', t)
    requires forall u :: u in s.turns && u != t ==> u in s'.turns
    requires t in s'.starts ==> TaskOk(s', t)
    ensures TasksOk(s')
  {
    assert forall u :: u != t ==> SameFor(s.books, s'.books, u);
    FrameTasks(s, s', t);
  }

  // A failing start releases its own cages; no Stop can be past its wait yet.
  lemma KeepFailRelease(s: State, t: TaskId)
    requires Inv(s) && At(s, t, Failing)
    ensures Inv(Leave(s, t, false, true).(books := Release(s.books, t)))
  {
    var s' := Leave(s, t, false, true).(books := Release(s.books, t));
    FailReleases(s, s', t);
    FailReleaseBooks(s, s', t);
    ReleaseCages(s, s', t);
    FailReleaseTasks(s, s', t);
    FailReleaseStops(s, s', t);
    FailReleaseMarks(s, s', t);
  }

  lemma FailReleases(s: State, s': State, t: TaskId)
    requires Inv(s) && At(s, t, Failing)
    requires s' == Leave(s, t, false, true).(books := Release(s.books, t))
    ensures Released(s, s', t) && t !in s.foreign
  {
    assert TaskOk(s, t);
    IdleBeforePlacement(s, t);
    assert s'.starts.Keys == s.starts.Keys;
  }

  lemma FailReleaseTasks(s: State, s': State, t: TaskId)
    requires TasksOk(s) && Released(s, s', t) && At(s, t, Failing)
    requires s' == Leave(s, t, false, true).(books := Release(s.books, t))
    ensures TasksOk(s')
  {
    assert TaskOk(s, t);
    ReleaseTasks(s, s', t);
  }

  lemma FailReleaseBooks(s: State, s': State, t: TaskId)
    requires Inv(s) && At(s, t, Failing)
    requires s' == Leave(s, t, false, true).(books := Release(s.books, t))
    ensures MapsOk(s'.books.slots, s'.books.inUse, s'.extent)
    ensures FlagsOk(s'.books, s'.starts.Keys)
    ensures ExtentsOk(s'.extent, s'.starts.Keys, s'.foreign)
    ensures HistoryOk(s'.books.slots.Keys, s'.starts.Keys, s'.foreign, s'.adopted, s'.releasedByStop)
  {
    assert TaskOk(s, t);
    assert s'.starts.Keys == s.starts.Keys;
    assert s'.books.slots.Keys == s.books.slots.Keys - {t};
    ReleaseMaps(s.books, s.extent, t);
    ReleaseFlags(s.books, s.starts.Keys, t);
  }

  lemma FailReleaseStops(s: State, s': State, t: TaskId)
    requires StopsOk(s) && Released(s, s', t) && t in s.starts && !s.starts[t].Closed() && t !in s.foreign
    requires NeverReopens(s, s') && s'.stops == s.stops && s'.releasedByStop == s.releasedByStop
    ensures StopsOk(s')
  {
    forall k | k in s'.stops ensures StopOk(s', k) {
      assert StopOk(s, k);
      assert Idle(s, s.stops[k].task) ==> Idle(s', s.stops[k].task);
    }
  }

  lemma FailReleaseMarks(s: State, s': State, t: TaskId)
    requires MarksOk(s) && s'.books == Release(s.books, t) && s'.stops == s.stops
    ensures MarksOk(s')
  {
    forall u | u in s'.books.stopping ensures Answered(s', u) {
      assert Answered(s, u);
    }
  }

  lemma KeepArm(s: State, s': State, t: TaskId, started: bool)
    requires Inv(s) && At(s, t, Placed) && started == (t !in s.books.stopping)
    requires s' == Leave(s, t, started, false).(books := Arm(s.books, t))
    ensures Inv(s')
  {
    assert TaskOk(s, t);
    assert s'.starts.Keys == s.starts.Keys;
    assert s'.books.armed.Keys == s.books.armed.Keys + {t};
    ArmTasks(s, s', t, started);
    ArmCagesAndStops(s, s', t, started);
    StillAnswered(s, s');
  }

  lemma ArmCagesAndStops(s: State, s': State, t: TaskId, started: bool)
    requires Inv(s) && At(s, t, Placed) && started == (t !in s.books.stopping)
    requires s' == Leave(s, t, started, false).(books := Arm(s.books, t))
    ensures CagesOk(s') && StopsOk(s')
  {
    assert TaskOk(s, t);
    assert s'.starts.Keys == s.starts.Keys;
    FrameCages(s, s');
    FrameStopsOnly(s, s');
  }

  lemma ArmTasks(s: State, s': State, t: TaskId, started: bool)
    requires TasksOk(s) && At(s, t, Placed) && started == (t !in s.books.stopping)
    requires s' == Leave(s, t, started, false).(books := Arm(s.books, t))
    ensures TasksOk(s')
  {
    assert TaskOk(s, t);
    FrameTasks(s, s', t);
  }

  lemma KeepBeginStop(s: State, s': State, k: nat, t: TaskId, hasCancel: bool)
    requires Inv(s) && k !in s.stops && t in s.books.slots && hasCancel == (t in s.books.cancels)
    requires s' == s.(stops := s.stops[k := StopCall(t, s.books.slots[t], hasCancel, Begun)],
                      books := MarkStopping(s.books, t))
    ensures Inv(s')
  {
    BeginStopTasks(s, s', t);
    FrameCages(s, s');
    assert StopOk(s', k);
    FrameStops(s, s', k);
    BeginStopMarks(s, s', k, t);
  }

  lemma BeginStopTasks(s: State, s': State, t: TaskId)
    requires TasksOk(s) && s'.starts == s.starts && s'.turns == s.turns
    requires s'.books == MarkStopping(s.books, t)
    ensures TasksOk(s')
  {
    if t in s.starts { assert TaskOk(s, t); }
    FrameTasks(s, s', t);
  }

  lemma BeginStopMarks(s: State, s': State, k: nat, t: TaskId)
    requires MarksOk(s) && k !in s.stops && s'.books == MarkStopping(s.books, t)
    requires s'.stops.Keys == s.stops.Keys + {k} && s'.stops[k].task == t && s'.stops[k].InFlight()
    requires forall j :: j in s.stops ==> s'.stops[j] == s.stops[j]
    ensures MarksOk(s')
  {
    forall u | u in s'.books.stopping ensures Answered(s', u) {
      if u == t {
        assert s'.stops[k].task == u;
      } else {
        assert Answered(s, u);
        var j :| j in s.stops && s.stops[j].task == u &&
                 (s.stops[j].InFlight() || s.stops[j].pc.result.Quarantined? || s.stops[j].pc.result.Unconfirmed?);
        assert s'.stops[j].task == u;
      }
    }
  }

  // A Stop of a task the runner does not know ends at once.
  lemma KeepUnknownStop(s: State, k: nat, t: TaskId)
    requires Inv(s) && k !in s.stops && t !in s.books.slots
    ensures Inv(s.(stops := s.stops[k := StopCall(t, 0, false, Ended(Unknown))]))
  {
    var s' := s.(stops := s.stops[k := StopCall(t, 0, false, Ended(Unknown))]);
    BeginStopTasks(s, s', t);
    FrameCages(s, s');
    FrameStops(s, s', k);
    StillAnswered(s, s');
  }

  // Releasing a task that is not in the books changes nothing.
  lemma ReleaseUnknown(b: Books, extent: map<TaskId, Extent>, started: set<TaskId>, t: TaskId)
    requires MapsOk(b.slots, b.inUse, extent) && FlagsOk(b, started) && t !in b.slots
    ensures Release(b, t) == b
  {
    var r := Release(b, t);
    assert r.slots == b.slots;
    assert forall c :: c in b.inUse ==> b.inUse[c] in b.slots;
    assert r.inUse == b.inUse;
    assert r.armed == b.armed;
  }

  lemma KeepReleaseStop(s: State, s': State, k: nat, t: TaskId)
    requires Inv(s) && StopAt(s, k, Releasing) && t == s.stops[k].task && t in s.books.slots
    requires s' == StopGoto(s, k, Ended(SlotProtocol.Released)).(
                     books := Release(s.books, t), releasedByStop := s.releasedByStop + {t})
    ensures Inv(s')
  {
    assert StopOk(s, k);
    assert Idle(s, t);
    assert s'.books.slots.Keys == s.books.slots.Keys - {t};
    ReleaseMaps(s.books, s.extent, t);
    ReleaseFlags(s.books, s.starts.Keys, t);
    ReleaseCages(s, s', t);
    ReleaseTasks(s, s', t) by {
      if t in s.starts { assert TaskOk(s, t); }
    }
    ReleaseHistory(s.books.slots.Keys, s.starts.Keys, s.foreign, s.adopted, s.releasedByStop, t);
    ReleaseStops(s, s', k, t);
    ReleaseMarks(s, s', k, t);
  }

  lemma ReleaseHistory(recorded: set<TaskId>, started: set<TaskId>, foreign: set<TaskId>,
                       adopted: set<TaskId>, released: set<TaskId>, t: TaskId)
    requires HistoryOk(recorded, started, foreign, adopted, released)
    requires t in started + adopted
    ensures HistoryOk(recorded - {t}, started, foreign, adopted, released + {t})
  {
  }

  lemma ReleaseStops(s: State, s': State, k: nat, t: TaskId)
    requires StopsOk(s) && Released(s, s', t) && StopAt(s, k, Releasing)
    requires s'.starts == s.starts
    requires s'.stops == s.stops[k := s.stops[k].(pc := Ended(SlotProtocol.Released))]
    requires s'.releasedByStop == s.releasedByStop + {t}
    ensures StopsOk(s')
  {
    forall j | j in s'.stops ensures StopOk(s', j) {
      assert StopOk(s, j);
      assert Idle(s, s.stops[j].task) ==> Idle(s', s.stops[j].task);
    }
  }

  lemma ReleaseMarks(s: State, s': State, k: nat, t: TaskId)
    requires MarksOk(s) && k in s.stops && s.stops[k].task == t && s'.books == Release(s.books, t)
    requires s'.stops.Keys == s.stops.Keys
    requires forall j :: j in s.stops && j != k ==> s'.stops[j] == s.stops[j]
    ensures MarksOk(s')
  {
    forall u | u in s'.books.stopping ensures Answered(s', u) {
      assert Answered(s, u);
      var j :| j in s.stops && s.stops[j].task == u &&
               (s.stops[j].InFlight() || s.stops[j].pc.result.Quarantined? || s.stops[j].pc.result.Unconfirmed?);
      assert s'.stops[j].task == u;
    }
  }

  // Reading the armed flag after the wait: not armed means nothing was placed.
  lemma UnarmedIsIdle(s: State, k: nat)
    requires Inv(s) && StopAt(s, k, Woken) && !Armed(s.books, s.stops[k].task)
    ensures Idle(s, s.stops[k].task)
  {
    var t := s.stops[k].task;
    assert StopOk(s, k);
    forall c | c in s.cage ensures s.cage[c].task != t {
      assert CageOk(s, c);
    }
  }

  // A confirmed sm.Stop empties every cage of the task that owns the slot.
  lemma ConfirmedStopIsIdle(s: State, k: nat, s': State)
    requires Inv(s) && StopAt(s, k, InCall) && s.stops[k].task in s.books.slots
    requires s'.cage == (if s.stops[k].slot in s.cage then Vacate(s.cage, s.cage[s.stops[k].slot].task) else s.cage)
    ensures Idle(s', s.stops[k].task)
  {
    var t := s.stops[k].task;
    assert StopOk(s, k);
    assert s.extent[t].Has(s.stops[k].slot);
    forall c | c in s'.cage ensures s'.cage[c].task != t {
      assert CageOk(s, c) && WholeExtent(s, c);
    }
  }

  lemma KeepAdopt(s: State, s': State, t: TaskId)
    requires Inv(s) && Enabled(s, EvAdopt(t))
    requires s' == s.(books := Adopt(s.books, t, s.extent[t]), adopted := s.adopted + {t})
    ensures Inv(s')
  {
    AdoptBooks(s, s', t);
    AdoptCages(s, s', t);
    AdoptTasks(s, s', t);
    AdoptStops(s, s', t);
    StillAnswered(s, s');
  }

  lemma AdoptTasks(s: State, s': State, t: TaskId)
    requires Inv(s) && Enabled(s, EvAdopt(t))
    requires s' == s.(books := Adopt(s.books, t, s.extent[t]), adopted := s.adopted + {t})
    ensures TasksOk(s')
  {
    FrameTasks(s, s', t);
  }

  lemma AdoptBooks(s: State, s': State, t: TaskId)
    requires Inv(s) && Enabled(s, EvAdopt(t))
    requires s' == s.(books := Adopt(s.books, t, s.extent[t]), adopted := s.adopted + {t})
    ensures MapsOk(s'.books.slots, s'.books.inUse, s'.extent)
    ensures FlagsOk(s'.books, s'.starts.Keys)
    ensures HistoryOk(s'.books.slots.Keys, s'.starts.Keys, s'.foreign, s'.adopted, s'.releasedByStop)
  {
    var b := s.books;
    assert s'.books.slots.Keys == b.slots.Keys + {t};
    assert (b.slots.Keys + {t}) * s.starts.Keys == b.slots.Keys * s.starts.Keys;
    AdoptMaps(b, s.extent, t);
    AdoptHistory(b.slots.Keys, s.starts.Keys, s.foreign, s.adopted, s.releasedByStop, t);
  }

  lemma AdoptMaps(b: Books, extent: map<TaskId, Extent>, t: TaskId)
    requires MapsOk(b.slots, b.inUse, extent) && t in extent && t !in b.slots && extent[t].slot >= 1
    requires forall c :: extent[t].Has(c) ==> c !in b.inUse
    ensures MapsOk(Adopt(b, t, extent[t]).slots, Adopt(b, t, extent[t]).inUse, extent)
  {
  }

  lemma AdoptHistory(recorded: set<TaskId>, started: set<TaskId>, foreign: set<TaskId>,
                     adopted: set<TaskId>, released: set<TaskId>, t: TaskId)
    requires HistoryOk(recorded, started, foreign, adopted, released)
    requires t in foreign && t !in adopted && t !in started
    ensures HistoryOk(recorded + {t}, started, foreign, adopted + {t}, released)
  {
  }

  lemma AdoptCages(s: State, s': State, t: TaskId)
    requires CagesOk(s) && t in s.foreign && s.foreign <= s.extent.Keys && Disjoint(s.extent, s.foreign)
    requires s.extent[t].slot >= 1
    requires s' == s.(books := Adopt(s.books, t, s.extent[t]), adopted := s.adopted + {t})
    ensures CagesOk(s')
  {
    forall c | c in s'.cage ensures CageOk(s', c) {
      assert CageOk(s, c) && WholeExtent(s, c);
    }
  }

  lemma AdoptStops(s: State, s': State, t: TaskId)
    requires StopsOk(s) && t in s.foreign && t !in s.adopted && t in s.extent
    requires s' == s.(books := Adopt(s.books, t, s.extent[t]), adopted := s.adopted + {t})
    ensures StopsOk(s')
  {
    forall k | k in s'.stops ensures StopOk(s', k) {
      assert StopOk(s, k);
      assert Idle(s, s.stops[k].task) ==> Idle(s', s.stops[k].task);
    }
  }
}
