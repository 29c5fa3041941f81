/** The invariant is kept by every event of the handshake. */
module SlotInvariant {
  import opened SlotBooks
  import opened SlotProtocol
  import opened SlotSteps

  // The steps of a start before it has placed anything.
  lemma EarlyMove(s: State, t: TaskId, pc: StartPc)
    requires Inv(s) && t in s.starts
    requires s.starts[t].Reserved? || s.starts[t].Queued? || s.starts[t].Fetching? || s.starts[t].FetchFailed?
             || s.starts[t].StreamFailed?
    requires match pc
             case Queued => true
             case Fetching => |s.turns| < MAX_DOWNLOADS
             case FetchFailed => s.starts[t].HoldsTurn()
             case Failing => s.starts[t].HoldsTurn()
             case Returning(started, failed) => !started && !failed && t in s.books.cancelled
             case _ => false
    ensures pc.Returning? ==> Inv(Leave(s, t, false, false))
    ensures pc.Fetching? ==> Inv(Goto(s, t, pc).(turns := s.turns + {t}))
    ensures !pc.Returning? && !pc.Fetching? ==> Inv(Goto(s, t, pc))
  {
    assert TaskOk(s, t);
    IdleBeforePlacement(s, t);
    var turns := if pc.Returning? then s.turns - {t} else if pc.Fetching? then s.turns + {t} else s.turns;
    KeepMove(s, t, pc, turns);
  }

  // A failed stream first empties its cages.
  lemma StreamErrorStep(s: State, t: TaskId)
    requires Inv(s) && At(s, t, Streaming)
    ensures Inv(Goto(s, t, StreamFailed).(cage := Vacate(s.cage, t)))
  {
    assert TaskOk(s, t);
    KeepVacate(s, t);
    KeepMove(s.(cage := Vacate(s.cage, t)), t, StreamFailed, s.turns);
  }

  lemma CloseDoneStep(s: State, t: TaskId, pc: StartPc)
    requires Inv(s) && t in s.starts && s.starts[t].Returning?
    requires pc == if s.starts[t].started then Publishing else Done(if s.starts[t].failed then Failed else NotStarted)
    ensures Inv(Goto(s, t, pc).(books := Cancel(s.books, t)))
  {
    assert TaskOk(s, t);
    PlacedIsArmed(s, t);
    KeepMove(s, t, pc, s.turns);
    KeepCancelled(Goto(s, t, pc), t);
  }

  lemma PublishStep(s: State, t: TaskId, o: Outcome)
    requires Inv(s) && At(s, t, Publishing) && t in s.extent
    requires o == if MayPublish(s.books, t, s.extent[t].slot) then Running else NotStarted
    ensures Inv(Goto(s, t, Done(o)))
  {
    assert TaskOk(s, t);
    PlacedIsArmed(s, t);
    KeepMove(s, t, Done(o), s.turns);
  }

  lemma PlacedIsArmed(s: State, t: TaskId)
    requires Inv(s) && t in s.starts && (s.starts[t].Publishing? || s.starts[t].Returning?)
    ensures Idle(s, t) || Armed(s.books, t)
  {
    forall c | c in s.cage && s.cage[c].task == t ensures Armed(s.books, t) {
      assert CageOk(s, c);
    }
  }

  lemma CancelStep(s: State, k: nat)
    requires Inv(s) && StopAt(s, k, Begun)
    ensures s.stops[k].hasCancel ==> Inv(StopGoto(s, k, Waiting).(books := Cancel(s.books, s.stops[k].task)))
    ensures !s.stops[k].hasCancel ==> Inv(StopGoto(s, k, Issuing))
  {
    assert StopOk(s, k);
    if s.stops[k].hasCancel {
      KeepStopMove(s, k, Waiting, s.misdirected);
      KeepCancelled(StopGoto(s, k, Waiting), s.stops[k].task);
    } else {
      KeepStopMove(s, k, Issuing, s.misdirected);
    }
  }

  lemma ReadArmedStep(s: State, k: nat, pc: StopPc)
    requires Inv(s) && StopAt(s, k, Woken)
    requires pc == if Armed(s.books, s.stops[k].task) then Issuing else Releasing
    ensures Inv(StopGoto(s, k, pc))
  {
    assert StopOk(s, k);
    if !Armed(s.books, s.stops[k].task) {
      UnarmedIsIdle(s, k);
    }
    KeepStopMove(s, k, pc, s.misdirected);
  }

  lemma StopReturnsStep(s: State, k: nat, cage: map<int, Occupant>)
    requires Inv(s) && StopAt(s, k, InCall)
    requires cage == if s.stops[k].slot in s.cage then Vacate(s.cage, s.cage[s.stops[k].slot].task) else s.cage
    ensures Inv(StopGoto(s, k, Releasing).(cage := cage))
  {
    var v := s.(cage := cage);
    if s.stops[k].slot in s.cage {
      KeepVacate(s, s.cage[s.stops[k].slot].task);
    }
    assert Inv(v);
    assert StopOk(v, k);
    if s.stops[k].task in s.books.slots {
      ConfirmedStopIsIdle(s, k, v);
    }
    KeepStopMove(v, k, Releasing, v.misdirected);
  }

  lemma ReleaseStopStep(s: State, k: nat, t: TaskId, released: set<TaskId>)
    requires Inv(s) && StopAt(s, k, Releasing) && t == s.stops[k].task
    requires released == if t in s.books.slots then s.releasedByStop + {t} else s.releasedByStop
    ensures Inv(StopGoto(s, k, Ended(SlotProtocol.Released)).(books := Release(s.books, t), releasedByStop := released))
  {
    var s' := StopGoto(s, k, Ended(SlotProtocol.Released)).(books := Release(s.books, t), releasedByStop := released);
    if t in s.books.slots {
      KeepReleaseStop(s, s', k, t);
    } else {
      ReleaseUnknown(s.books, s.extent, s.starts.Keys, t);
      KeepReleasedAlready(s, s', k);
    }
  }

  // The Stop whose task somebody else released: only its own record moves.
  lemma KeepReleasedAlready(s: State, s': State, k: nat)
    requires Inv(s) && StopAt(s, k, Releasing) && s.stops[k].task !in s.books.slots
    requires s' == StopGoto(s, k, Ended(SlotProtocol.Released))
    ensures Inv(s')
  {
    assert StopOk(s, k);
    FrameTasks(s, s', s.stops[k].task) by {
      if s.stops[k].task in s.starts { assert TaskOk(s, s.stops[k].task); }
    }
    FrameCages(s, s');
    FrameStops(s, s', k);
    forall u | u in s'.books.stopping ensures Answered(s', u) {
      assert Answered(s, u);
      var j :| j in s.stops && s.stops[j].task == u &&
               (s.stops[j].InFlight() || s.stops[j].pc.result.Quarantined? || s.stops[j].pc.result.Unconfirmed?);
      assert s'.stops[j] == s.stops[j];
    }
  }

  lemma StartEventInv(s: State, e: Event)
    requires Inv(s) && Enabled(s, e)
    requires e.EvReserve? || e.EvCheckContext? || e.EvTakeTurn? || e.EvAbandonQueue? || e.EvFetchError?
             || e.EvBadResponse?
    ensures Inv(Apply(s, e))
  {
    match e
    case EvReserve(t, q, p, slot) =>
      AllocationIsFresh(s, t, q, p, slot);
      KeepReserve(s, Apply(s, e), t, Extent(slot, q.cores));
    case EvCheckContext(t) => EarlyMove(s, t, if t in s.books.cancelled then Returning(false, false) else Queued);
    case EvTakeTurn(t) => EarlyMove(s, t, Fetching);
    case EvAbandonQueue(t) => EarlyMove(s, t, Returning(false, false));
    case EvFetchError(t) => EarlyMove(s, t, FetchFailed);
    case EvBadResponse(t) => EarlyMove(s, t, Failing);
  }

  lemma StreamEventInv(s: State, e: Event)
    requires Inv(s) && Enabled(s, e)
    requires e.EvBeginStream? || e.EvStreamError? || e.EvStreamDone?
    ensures Inv(Apply(s, e))
  {
    match e
    case EvBeginStream(t) => KeepOccupy(s, t, Streaming, Stream(t));
    case EvStreamError(t) => StreamErrorStep(s, t);
    case EvStreamDone(t) => KeepOccupy(s, t, Placed, Live(t));
  }

  lemma OutcomeEventInv(s: State, e: Event)
    requires Inv(s) && Enabled(s, e)
    requires e.EvCheckAbort? || e.EvFailRelease? || e.EvArm?
    ensures Inv(Apply(s, e))
  {
    match e
    case EvCheckAbort(t) => EarlyMove(s, t, if t in s.books.cancelled then Returning(false, false) else Failing);
    case EvFailRelease(t) => KeepFailRelease(s, t);
    case EvArm(t) => KeepArm(s, Apply(s, e), t, t !in s.books.stopping);
  }

  lemma LateEventInv(s: State, e: Event)
    requires Inv(s) && Enabled(s, e)
    requires e.EvCloseDone? || e.EvPublish? || e.EvCrash?
    ensures Inv(Apply(s, e))
  {
    match e
    case EvCloseDone(t) =>
      CloseDoneStep(s, t,
                    if s.starts[t].started then Publishing
                    else Done(if s.starts[t].failed then Failed else NotStarted));
    case EvPublish(t) =>
      PublishStep(s, t, if MayPublish(s.books, t, s.extent[t].slot) then Running else NotStarted);
    case EvCrash(t) => KeepVacate(s, t);
  }

  lemma ClaimEventInv(s: State, e: Event)
    requires Inv(s) && Enabled(s, e) && (e.EvBeginStop? || e.EvAdopt?)
    ensures Inv(Apply(s, e))
  {
    match e
    case EvBeginStop(k, t) =>
      if t in s.books.slots { KeepBeginStop(s, Apply(s, e), k, t, t in s.books.cancels); }
      else { KeepUnknownStop(s, k, t); }
    case EvAdopt(t) => KeepAdopt(s, Apply(s, e), t);
  }

  lemma StopEventInv(s: State, e: Event)
    requires Inv(s) && Enabled(s, e) && (e.EvCancel? || e.EvReadArmed?)
    ensures Inv(Apply(s, e))
  {
    match e
    case EvCancel(k) =>
      assert StopOk(s, k);
      CancelStep(s, k);
    case EvReadArmed(k) => ReadArmedStep(s, k, if Armed(s.books, s.stops[k].task) then Issuing else Releasing);
  }

  lemma StopWaitInv(s: State, e: Event)
    requires Inv(s) && Enabled(s, e) && (e.EvWaitDone? || e.EvWaitTimeout?)
    ensures Inv(Apply(s, e))
  {
    assert StopOk(s, e.k);
    match e
    case EvWaitDone(k) => KeepStopMove(s, k, Woken, s.misdirected);
    case EvWaitTimeout(k) => KeepStopMove(s, k, Ended(Quarantined), s.misdirected);
  }

  lemma IssueStopInv(s: State, k: nat)
    requires Inv(s) && Enabled(s, EvIssueStop(k))
    ensures Inv(Apply(s, EvIssueStop(k)))
  {
    assert StopOk(s, k);
    KeepStopMove(s, k, InCall, s.misdirected || !Owned(s, k));
  }

  lemma StopReturnsInv(s: State, k: nat, ok: bool)
    requires Inv(s) && Enabled(s, EvStopReturns(k, ok))
    ensures Inv(Apply(s, EvStopReturns(k, ok)))
  {
    assert StopOk(s, k);
    if ok {
      StopReturnsStep(s, k, Apply(s, EvStopReturns(k, ok)).cage);
    } else {
      KeepStopMove(s, k, Ended(Unconfirmed), s.misdirected);
    }
  }

  lemma ReleaseStopInv(s: State, k: nat)
    requires Inv(s) && Enabled(s, EvReleaseStop(k))
    ensures Inv(Apply(s, EvReleaseStop(k)))
  {
    ReleaseStopStep(s, k, s.stops[k].task, Apply(s, EvReleaseStop(k)).releasedByStop);
  }

  predicate OfStop(e: Event) {
    || e.EvCancel? || e.EvReadArmed? || e.EvWaitDone? || e.EvWaitTimeout? || e.EvIssueStop? || e.EvStopReturns?
    || e.EvReleaseStop?
  }

  lemma StopStepInv(s: State, e: Event)
    requires Inv(s) && Enabled(s, e) && OfStop(e)
    ensures Inv(Apply(s, e))
  {
    if e.EvCancel? || e.EvReadArmed? {
      StopEventInv(s, e);
    } else if e.EvStopReturns? {
      StopReturnsInv(s, e.k, e.ok);
    } else if e.EvReleaseStop? {
      ReleaseStopInv(s, e.k);
    } else if e.EvIssueStop? {
      IssueStopInv(s, e.k);
    } else {
      StopWaitInv(s, e);
    }
  }

  lemma StartStepInv(s: State, e: Event)
    requires Inv(s) && Enabled(s, e) && !OfStop(e)
    ensures Inv(Apply(s, e))
  {
    if e.EvReserve? || e.EvCheckContext? || e.EvTakeTurn? || e.EvAbandonQueue? || e.EvFetchError? || e.EvBadResponse? {
      StartEventInv(s, e);
    } else if e.EvBeginStream? || e.EvStreamError? || e.EvStreamDone? {
      StreamEventInv(s, e);
    } else if e.EvCheckAbort? || e.EvFailRelease? || e.EvArm? {
      OutcomeEventInv(s, e);
    } else if e.EvBeginStop? || e.EvAdopt? {
      ClaimEventInv(s, e);
    } else {
      LateEventInv(s, e);
    }
  }

  /** Every step of every start and Stop keeps the invariant. */
  lemma StepInv(s: State, e: Event)
    requires Inv(s) && Enabled(s, e)
    ensures Inv(Apply(s, e))
  {
    if OfStop(e) {
      StopStepInv(s, e);
    } else {
      StartStepInv(s, e);
    }
  }
}
