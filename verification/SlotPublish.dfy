/** What a start finds when it publishes, and what a Stop may rely on while it waits. */
module SlotPublish {
  import opened SlotBooks
  import opened SlotProtocol
  import opened SlotInvariant
  import opened SlotSafety

  // The steps of a start up to its stream.
  predicate Early(e: Event) {
    || e.EvReserve? || e.EvCheckContext? || e.EvTakeTurn? || e.EvAbandonQueue? || e.EvFetchError? || e.EvBadResponse?
    || e.EvBeginStream?
  }

  // What no step but a few changes: nobody else is about to publish, no task leaves the
  // books, no Stop and no cancellation is undone.
  ghost predicate Quiet(s: State, s': State) {
    && (forall t :: At(s', t, Publishing) ==> At(s, t, Publishing))
    && s.books.slots.Keys <= s'.books.slots.Keys && s'.releasedByStop == s.releasedByStop
    && s.books.cancelled <= s'.books.cancelled && s'.stops == s.stops
  }

  lemma EarlyIsQuiet(s: State, e: Event)
    requires Enabled(s, e) && Early(e)
    ensures Quiet(s, Apply(s, e))
  {
  }

  lemma LateIsQuiet(s: State, e: Event)
    requires Enabled(s, e) && !Early(e) && !OfStop(e)
    requires !e.EvFailRelease? && !e.EvCloseDone? && !e.EvBeginStop?
    ensures Quiet(s, Apply(s, e))
  {
  }

  predicate WaitOk(cancelled: set<TaskId>, call: StopCall) {
    call.pc.Waiting? || call.pc.Woken? ==> call.task in cancelled
  }

  // A Stop that moves on: it only gets to wait by cancelling the start.
  predicate Moved(s: State, s': State, k: nat) {
    && s'.starts == s.starts && s'.books.slots == s.books.slots && s'.releasedByStop == s.releasedByStop
    && s.books.cancelled <= s'.books.cancelled
    && k in s.stops && k in s'.stops && s'.stops == s.stops[k := s'.stops[k]] && s'.stops[k].task == s.stops[k].task
    && (WaitOk(s.books.cancelled, s.stops[k]) ==> WaitOk(s'.books.cancelled, s'.stops[k]))
  }

  lemma CancelMoves(s: State, k: nat)
    requires Enabled(s, EvCancel(k))
    ensures Moved(s, Apply(s, EvCancel(k)), k)
  {
  }

  lemma WaiterMoves(s: State, e: Event)
    requires Enabled(s, e) && (e.EvWaitDone? || e.EvWaitTimeout? || e.EvReadArmed?)
    ensures Moved(s, Apply(s, e), e.k)
  {
  }

  lemma IssueMoves(s: State, k: nat)
    requires Enabled(s, EvIssueStop(k))
    ensures Moved(s, Apply(s, EvIssueStop(k)), k)
  {
  }

  lemma ReturnMoves(s: State, k: nat, ok: bool)
    requires Enabled(s, EvStopReturns(k, ok))
    ensures Moved(s, Apply(s, EvStopReturns(k, ok)), k)
  {
  }

  lemma StopMoves(s: State, e: Event)
    requires Enabled(s, e) && OfStop(e) && !e.EvReleaseStop?
    ensures Moved(s, Apply(s, e), e.k)
  {
    if e.EvCancel? {
      CancelMoves(s, e.k);
    } else if e.EvIssueStop? {
      IssueMoves(s, e.k);
    } else if e.EvStopReturns? {
      ReturnMoves(s, e.k, e.ok);
    } else {
      WaiterMoves(s, e);
    }
  }

  // ---- a start that publishes ----

  // A start that is about to publish and lost its cages lost them to a Stop.
  predicate LostToStop(s: State, t: TaskId) {
    At(s, t, Publishing) ==> t in s.books.slots || t in s.releasedByStop
  }

  lemma FailLostToStop(s: State, u: TaskId, t: TaskId)
    requires Enabled(s, EvFailRelease(u)) && LostToStop(s, t)
    ensures LostToStop(Apply(s, EvFailRelease(u)), t)
  {
  }

  lemma CloseLostToStop(s: State, u: TaskId, t: TaskId)
    requires Enabled(s, EvCloseDone(u)) && TaskOk(s, u) && LostToStop(s, t)
    ensures LostToStop(Apply(s, EvCloseDone(u)), t)
  {
  }

  lemma BeginLostToStop(s: State, k: nat, u: TaskId, t: TaskId)
    requires Enabled(s, EvBeginStop(k, u)) && LostToStop(s, t)
    ensures LostToStop(Apply(s, EvBeginStop(k, u)), t)
  {
  }

  lemma ReleaseLostToStop(s: State, k: nat, t: TaskId)
    requires Enabled(s, EvReleaseStop(k)) && LostToStop(s, t)
    ensures LostToStop(Apply(s, EvReleaseStop(k)), t)
  {
  }

  lemma StepLostToStop(s: State, e: Event, t: TaskId)
    requires TasksOk(s) && Enabled(s, e) && LostToStop(s, t)
    ensures LostToStop(Apply(s, e), t)
  {
    if e.EvFailRelease? {
      FailLostToStop(s, e.t, t);
    } else if e.EvCloseDone? {
      CloseLostToStop(s, e.t, t);
    } else if e.EvBeginStop? {
      BeginLostToStop(s, e.k, e.t, t);
    } else if e.EvReleaseStop? {
      ReleaseLostToStop(s, e.k, t);
    } else if OfStop(e) {
      StopMoves(s, e);
    } else if Early(e) {
      EarlyIsQuiet(s, e);
    } else {
      LateIsQuiet(s, e);
    }
  }

  lemma {:induction false} RunLostToStop(states: seq<State>, events: seq<Event>, n: nat, t: TaskId)
    requires IsRun(states, events) && n < |states|
    ensures LostToStop(states[n], t)
  {
    if n > 0 {
      RunLostToStop(states, events, n - 1, t);
      RunInv(states, events, n - 1);
      assert Next(states[n - 1], events[n - 1], states[n]);
      StepLostToStop(states[n - 1], events[n - 1], t);
    }
  }

  lemma Published(s: State, t: TaskId)
    requires Enabled(s, EvPublish(t))
    ensures At(Apply(s, EvPublish(t)), t, Done(Running)) <==>
            t !in s.books.stopping && t in s.books.slots && s.books.slots[t] == s.extent[t].slot
  {
  }

  lemma PublishedOwner(s: State, t: TaskId)
    requires TasksOk(s) && At(s, t, Publishing) && t in s.books.slots
    requires MapsOk(s.books.slots, s.books.inUse, s.extent)
    ensures t in s.extent && s.books.slots[t] == s.extent[t].slot && Armed(s.books, t)
    ensures forall c :: s.extent[t].Has(c) ==> c in s.books.inUse && s.books.inUse[c] == t
  {
    assert TaskOk(s, t);
    OwnerHasItAll(s.books.slots, s.books.inUse, s.extent, t);
  }

  lemma ReachableLostToStop(s: State, t: TaskId)
    requires Reachable(s)
    ensures LostToStop(s, t)
  {
    var states, events :| IsRun(states, events) && states[|events|] == s;
    RunLostToStop(states, events, |events|, t);
  }

  // Marks and releases exclude each other, and marks are answered for.
  lemma MarkedOrReleased(s: State, t: TaskId)
    requires Inv(s)
    ensures t in s.releasedByStop ==> t !in s.books.slots
    ensures t in s.books.stopping ==> Answered(s, t) && t in s.books.slots
  {
  }

  /** The publishing step of a start ends "running" if and only if no Stop has marked the
      task or released it; and then every cage of the task is in the books for it alone,
      and armed. Otherwise a Stop released it, or one answers for it. */
  lemma PublishesIffNotStopped(s: State, t: TaskId)
    requires Reachable(s) && Enabled(s, EvPublish(t))
    ensures At(Apply(s, EvPublish(t)), t, Done(Running)) <==> t !in s.books.stopping && t !in s.releasedByStop
    ensures At(Apply(s, EvPublish(t)), t, Done(Running)) <==>
            t !in s.books.stopping && t in s.books.slots && s.books.slots[t] == s.extent[t].slot
    ensures At(Apply(s, EvPublish(t)), t, Done(Running)) ==>
              Armed(s.books, t) && forall c :: s.extent[t].Has(c) ==> c in s.books.inUse && s.books.inUse[c] == t
    ensures !At(Apply(s, EvPublish(t)), t, Done(Running)) ==>
              t in s.releasedByStop || (t in s.books.slots && Answered(s, t))
  {
    Published(s, t);
    ReachableInv(s);
    ReachableLostToStop(s, t);
    MarkedOrReleased(s, t);
    if t in s.books.slots {
      PublishedOwner(s, t);
    }
  }

  // ---- a Stop that waits ----

  ghost predicate WaitsOk(s: State) {
    forall k :: k in s.stops ==> WaitOk(s.books.cancelled, s.stops[k])
  }

  lemma FailWaits(s: State, t: TaskId)
    requires Enabled(s, EvFailRelease(t)) && WaitsOk(s)
    ensures WaitsOk(Apply(s, EvFailRelease(t)))
  {
    var s' := Apply(s, EvFailRelease(t));
    assert s.books.cancelled <= s'.books.cancelled && s'.stops == s.stops;
  }

  lemma CloseWaits(s: State, t: TaskId)
    requires Enabled(s, EvCloseDone(t)) && WaitsOk(s)
    ensures WaitsOk(Apply(s, EvCloseDone(t)))
  {
    var s' := Apply(s, EvCloseDone(t));
    assert s.books.cancelled <= s'.books.cancelled && s'.stops == s.stops;
  }

  lemma BeginWaits(s: State, k: nat, t: TaskId)
    requires Enabled(s, EvBeginStop(k, t)) && WaitsOk(s)
    ensures WaitsOk(Apply(s, EvBeginStop(k, t)))
  {
    var s' := Apply(s, EvBeginStop(k, t));
    assert s'.books.cancelled == s.books.cancelled && s'.stops == s.stops[k := s'.stops[k]];
  }

  lemma ReleaseWaits(s: State, k: nat)
    requires Enabled(s, EvReleaseStop(k)) && WaitsOk(s)
    ensures WaitsOk(Apply(s, EvReleaseStop(k)))
  {
    var s' := Apply(s, EvReleaseStop(k));
    assert s.books.cancelled <= s'.books.cancelled && s'.stops == s.stops[k := s'.stops[k]];
  }

  lemma StepWaits(s: State, e: Event)
    requires Enabled(s, e) && WaitsOk(s)
    ensures WaitsOk(Apply(s, e))
  {
    if e.EvFailRelease? {
      FailWaits(s, e.t);
    } else if e.EvCloseDone? {
      CloseWaits(s, e.t);
    } else if e.EvBeginStop? {
      BeginWaits(s, e.k, e.t);
    } else if e.EvReleaseStop? {
      ReleaseWaits(s, e.k);
    } else if OfStop(e) {
      StopMoves(s, e);
      assert WaitOk(s.books.cancelled, s.stops[e.k]);
    } else if Early(e) {
      EarlyIsQuiet(s, e);
    } else {
      LateIsQuiet(s, e);
    }
  }

  lemma {:induction false} RunWaits(states: seq<State>, events: seq<Event>, n: nat)
    requires IsRun(states, events) && n < |states|
    ensures WaitsOk(states[n])
  {
    if n > 0 {
      RunWaits(states, events, n - 1);
      assert Next(states[n - 1], events[n - 1], states[n]);
      StepWaits(states[n - 1], events[n - 1]);
    }
  }

  /** A Stop that waits for a start has cancelled it, so the start it waits for can leave
      the queue without a turn, and no failure of its download is reported as one. */
  lemma WaitingStopHasCancelled(s: State, k: nat)
    requires Reachable(s) && StopAt(s, k, Waiting)
    ensures var t := s.stops[k].task;
            && t in s.books.cancelled
            && (At(s, t, Queued) ==> Enabled(s, EvAbandonQueue(t)))
            && (At(s, t, FetchFailed) || At(s, t, StreamFailed) ==>
                  At(Apply(s, EvCheckAbort(t)), t, Returning(false, false)))
  {
    var states, events :| IsRun(states, events) && states[|events|] == s;
    RunWaits(states, events, |events|);
    assert WaitOk(s.books.cancelled, s.stops[k]);
  }
}
