/** HopRunner's start/stop handshake as a state machine over atomic steps: any
    number of starts and stops of any number of tasks, interleaved, over a node
    whose cages are tracked by a ghost record of who streams into or runs in each. */
module SlotProtocol {
  import opened Wrappers
  import opened SlotAllocator
  import opened SlotBooks

  const MAX_DOWNLOADS := 4

  datatype Outcome = Running | NotStarted | Failed

  /** Where a start is. Everything up to and including Returning is before the
      deferred close of the done channel. */
  datatype StartPc =
    | Reserved
    | Queued
    | Fetching
    | FetchFailed
    | Streaming
    | StreamFailed
    | Failing
    | Placed
    | Returning(started: bool, failed: bool)
    | Publishing
    | Done(outcome: Outcome)
  {
    predicate Closed() { Publishing? || Done? }
    predicate HoldsTurn() {
      Fetching? || FetchFailed? || Streaming? || StreamFailed? || Failing? || Placed?
    }
  }

  datatype StopResult = Released | Quarantined | Unconfirmed | Unknown

  datatype StopPc = Begun | Waiting | Woken | Issuing | InCall | Releasing | Ended(result: StopResult)

  datatype StopCall = StopCall(task: TaskId, slot: int, hasCancel: bool, pc: StopPc) {
    predicate InFlight() { !pc.Ended? }
  }

  datatype Occupant = Stream(task: TaskId) | Live(task: TaskId)

  /** `foreign` are the tasks of before a kernel flip, `adopted` those handed to
      this runner since; `releasedByStop` and `misdirected` are history. */
  datatype State = State(
    books: Books,
    extent: map<TaskId, Extent>,
    starts: map<TaskId, StartPc>,
    stops: map<nat, StopCall>,
    cage: map<int, Occupant>,
    turns: set<TaskId>,
    foreign: set<TaskId>,
    adopted: set<TaskId>,
    releasedByStop: set<TaskId>,
    misdirected: bool)

  datatype Event =
    | EvReserve(t: TaskId, q: Request, p: Probe, slot: int)
    | EvCheckContext(t: TaskId)
    | EvTakeTurn(t: TaskId)
    | EvAbandonQueue(t: TaskId)
    | EvFetchError(t: TaskId)
    | EvBadResponse(t: TaskId)
    | EvBeginStream(t: TaskId)
    | EvStreamError(t: TaskId)
    | EvStreamDone(t: TaskId)
    | EvCheckAbort(t: TaskId)
    | EvFailRelease(t: TaskId)
    | EvArm(t: TaskId)
    | EvCloseDone(t: TaskId)
    | EvPublish(t: TaskId)
    | EvCrash(t: TaskId)
    | EvBeginStop(k: nat, t: TaskId)
    | EvCancel(k: nat)
    | EvWaitDone(k: nat)
    | EvWaitTimeout(k: nat)
    | EvReadArmed(k: nat)
    | EvIssueStop(k: nat)
    | EvStopReturns(k: nat, ok: bool)
    | EvReleaseStop(k: nat)
    | EvAdopt(t: TaskId)

  function Occupy(cage: map<int, Occupant>, e: Extent, o: Occupant): map<int, Occupant> {
    cage + e.Fill(o)
  }

  function Vacate(cage: map<int, Occupant>, t: TaskId): map<int, Occupant> {
    map c | c in cage && cage[c].task != t :: cage[c]
  }

  // The cages whose core the node reports on.
  function LiveCages(cage: map<int, Occupant>): set<int> {
    set c | c in cage && cage[c].Live?
  }

  predicate At(s: State, t: TaskId, pc: StartPc) {
    t in s.starts && s.starts[t] == pc
  }

  predicate StopAt(s: State, k: nat, pc: StopPc) {
    k in s.stops && s.stops[k].pc == pc
  }

  function Goto(s: State, t: TaskId, pc: StartPc): State {
    s.(starts := s.starts[t := pc])
  }

  // Leaving runViaStream gives the download turn back.
  function Leave(s: State, t: TaskId, started: bool, failed: bool): State {
    s.(starts := s.starts[t := Returning(started, failed)], turns := s.turns - {t})
  }

  function StopGoto(s: State, k: nat, pc: StopPc): State
    requires k in s.stops
  {
    s.(stops := s.stops[k := s.stops[k].(pc := pc)])
  }

  predicate Owned(s: State, k: nat)
    requires k in s.stops
  {
    s.stops[k].task in s.books.slots && s.books.slots[s.stops[k].task] == s.stops[k].slot
  }

  ghost predicate Enabled(s: State, e: Event) {
    match e
    case EvReserve(t, q, p, slot) =>
      && t !in s.extent
      && q.Valid()
      && p.coreOn == LiveCages(s.cage)
      && IsAllocation(q, p, s.books.inUse, Some(slot))
    case EvCheckContext(t) => At(s, t, Reserved)
    case EvTakeTurn(t) => At(s, t, Queued) && |s.turns| < MAX_DOWNLOADS
    case EvAbandonQueue(t) => At(s, t, Queued) && t in s.books.cancelled
    case EvFetchError(t) => At(s, t, Fetching)
    case EvBadResponse(t) => At(s, t, Fetching)
    case EvBeginStream(t) => At(s, t, Fetching) && t in s.extent
    case EvStreamError(t) => At(s, t, Streaming)
    case EvStreamDone(t) => At(s, t, Streaming) && t in s.extent
    case EvCheckAbort(t) => At(s, t, FetchFailed) || At(s, t, StreamFailed)
    case EvFailRelease(t) => At(s, t, Failing)
    case EvArm(t) => At(s, t, Placed)
    case EvCloseDone(t) => t in s.starts && s.starts[t].Returning?
    case EvPublish(t) => At(s, t, Publishing) && t in s.extent
    case EvCrash(t) => exists c :: c in s.cage && s.cage[c] == Live(t)
    case EvBeginStop(k, t) => k !in s.stops
    case EvCancel(k) => StopAt(s, k, Begun)
    case EvWaitDone(k) =>
      StopAt(s, k, Waiting) && s.stops[k].task in s.starts && s.starts[s.stops[k].task].Closed()
    case EvWaitTimeout(k) => StopAt(s, k, Waiting)
    case EvReadArmed(k) => StopAt(s, k, Woken)
    case EvIssueStop(k) => StopAt(s, k, Issuing)
    case EvStopReturns(k, _) => StopAt(s, k, InCall)
    case EvReleaseStop(k) => StopAt(s, k, Releasing)
    case EvAdopt(t) =>
      && t in s.foreign && t !in s.adopted && t in s.extent && t !in s.books.slots
      && forall c :: s.extent[t].Has(c) ==> c !in s.books.inUse
  }

  function Apply(s: State, e: Event): State
    requires Enabled(s, e)
  {
    match e
    case EvReserve(t, q, _, slot) =>
      s.(books := Reserve(s.books, t, Extent(slot, q.cores)),
         extent := s.extent[t := Extent(slot, q.cores)],
         starts := s.starts[t := Reserved])
    case EvCheckContext(t) =>
      if t in s.books.cancelled then Leave(s, t, false, false) else Goto(s, t, Queued)
    case EvTakeTurn(t) => Goto(s, t, Fetching).(turns := s.turns + {t})
    case EvAbandonQueue(t) => Leave(s, t, false, false)
    case EvFetchError(t) => Goto(s, t, FetchFailed)
    case EvBadResponse(t) => Goto(s, t, Failing)
    case EvBeginStream(t) =>
      Goto(s, t, Streaming).(cage := Occupy(s.cage, s.extent[t], Stream(t)))
    case EvStreamError(t) => Goto(s, t, StreamFailed).(cage := Vacate(s.cage, t))
    case EvStreamDone(t) =>
      Goto(s, t, Placed).(cage := Occupy(s.cage, s.extent[t], Live(t)))
    case EvCheckAbort(t) =>
      if t in s.books.cancelled then Leave(s, t, false, false) else Goto(s, t, Failing)
    case EvFailRelease(t) => Leave(s, t, false, true).(books := Release(s.books, t))
    case EvArm(t) =>
      Leave(s, t, t !in s.books.stopping, false).(books := Arm(s.books, t))
    case EvCloseDone(t) =>
      var pc := s.starts[t];
      var next := if pc.started then Publishing else Done(if pc.failed then Failed else NotStarted);
      Goto(s, t, next).(books := Cancel(s.books, t))
    case EvPublish(t) =>
      Goto(s, t, Done(if MayPublish(s.books, t, s.extent[t].slot) then Running else NotStarted))
    case EvCrash(t) => s.(cage := Vacate(s.cage, t))
    case EvBeginStop(k, t) =>
      if t in s.books.slots then
        s.(stops := s.stops[k := StopCall(t, s.books.slots[t], t in s.books.cancels, Begun)],
           books := MarkStopping(s.books, t))
      else
        s.(stops := s.stops[k := StopCall(t, 0, false, Ended(Unknown))])
    case EvCancel(k) =>
      if s.stops[k].hasCancel
      then StopGoto(s, k, Waiting).(books := Cancel(s.books, s.stops[k].task))
      else StopGoto(s, k, Issuing)
    case EvWaitDone(k) => StopGoto(s, k, Woken)
    case EvWaitTimeout(k) => StopGoto(s, k, Ended(Quarantined))
    case EvReadArmed(k) =>
      StopGoto(s, k, if Armed(s.books, s.stops[k].task) then Issuing else Releasing)
    case EvIssueStop(k) =>
      StopGoto(s, k, InCall).(misdirected := s.misdirected || !Owned(s, k))
    case EvStopReturns(k, ok) =>
      if !ok then StopGoto(s, k, Ended(Unconfirmed))
      else StopGoto(s, k, Releasing).(
           cage := if s.stops[k].slot in s.cage then Vacate(s.cage, s.cage[s.stops[k].slot].task) else s.cage)
    case EvReleaseStop(k) =>
      var t := s.stops[k].task;
      StopGoto(s, k, Ended(Released)).(
        books := Release(s.books, t),
        releasedByStop := if t in s.books.slots then s.releasedByStop + {t} else s.releasedByStop)
    case EvAdopt(t) =>
      s.(books := Adopt(s.books, t, s.extent[t]),
         adopted := s.adopted + {t})
  }

  /** A runner just created, on a node that may still run the tasks of a previous
      kernel in pairwise disjoint cages. */
  ghost predicate Init(s: State) {
    && s.books == EMPTY
    && s.starts == map[] && s.stops == map[] && s.turns == {} && s.adopted == {} && s.releasedByStop == {}
    && !s.misdirected
    && s.extent.Keys == s.foreign
    && ExtentsOk(s.extent, {}, s.foreign)
    && (forall c :: c in s.cage ==>
          s.cage[c].Live? && s.cage[c].task in s.foreign && WholeExtent(s, c))
  }

  // An occupant sits in its whole extent, and only there.
  ghost predicate WholeExtent(s: State, c: int)
    requires c in s.cage
  {
    var t := s.cage[c].task;
    t in s.extent && s.extent[t].Has(c) &&
    forall d :: s.extent[t].Has(d) ==> d in s.cage && s.cage[d] == s.cage[c]
  }

  // Exactly the cages of the tasks in `slots` are in use, each for its own task.
  ghost predicate MapsOk(slots: map<TaskId, int>, inUse: map<int, TaskId>, extent: map<TaskId, Extent>) {
    && (forall t :: t in slots ==> t in extent && slots[t] == extent[t].slot)
    && (forall t, c :: t in slots && extent[t].Has(c) ==> c in inUse && inUse[c] == t)
    && (forall c :: c in inUse ==> inUse[c] in slots && extent[inUse[c]].Has(c))
  }

  ghost predicate FlagsOk(b: Books, started: set<TaskId>) {
    && b.armed.Keys <= b.slots.Keys
    && b.stopping <= b.slots.Keys
    && b.cancels == b.dones == b.slots.Keys * started
    && b.cancelled <= started
  }

  ghost predicate Disjoint(extent: map<TaskId, Extent>, foreign: set<TaskId>)
    requires foreign <= extent.Keys
  {
    forall t, u, c :: t in foreign && u in foreign && extent[t].Has(c) && extent[u].Has(c) ==> t == u
  }

  ghost predicate ExtentsOk(extent: map<TaskId, Extent>, started: set<TaskId>, foreign: set<TaskId>) {
    && started + foreign == extent.Keys
    && started !! foreign
    && (forall t :: t in extent ==> extent[t].slot >= 1 && extent[t].width >= 1)
    && Disjoint(extent, foreign)
  }

  // A foreign task is only in the books once adopted, and nobody returns after
  // a Stop has released it.
  ghost predicate HistoryOk(recorded: set<TaskId>, started: set<TaskId>, foreign: set<TaskId>,
                            adopted: set<TaskId>, released: set<TaskId>)
  {
    && adopted <= foreign
    && foreign * recorded <= adopted
    && released !! recorded
    && released <= started + adopted
    && adopted <= recorded + released
  }

  ghost predicate TaskOk(s: State, t: TaskId)
    requires t in s.starts
  {
    var pc := s.starts[t];
    var b := s.books;
    && (!pc.Closed() ==> (t in b.slots <==> !(pc.Returning? && pc.failed)))
    && (pc.Returning? && pc.failed ==> !pc.started)
    && (!pc.Closed() && t in b.cancelled && t in b.slots ==> t in b.stopping)
    && (pc == Returning(false, false) ==> t in b.stopping)
    && (t in b.slots ==> t in b.armed)
    && (!pc.Closed() && !pc.Returning? ==> !Armed(b, t))
    && (pc == Returning(true, false) || pc.Publishing? ==> t in b.slots ==> Armed(b, t))
    && (pc.Done? && pc.outcome.Failed? ==> t !in b.slots)
    && (pc.Done? && pc.outcome.NotStarted? && t in b.slots ==> t in b.stopping)
    && (pc.HoldsTurn() ==> t in s.turns)
  }

  ghost predicate CageOk(s: State, c: int)
    requires c in s.cage
  {
    var t := s.cage[c].task;
    && WholeExtent(s, c)
    && (t in s.books.slots || (t in s.foreign && t !in s.adopted && s.cage[c].Live? && c !in s.books.inUse))
    && (s.cage[c].Stream? ==> At(s, t, Streaming))
    && (s.cage[c].Live? && t in s.starts ==> s.starts[t] == Placed || Armed(s.books, t))
  }

  ghost predicate Idle(s: State, t: TaskId) {
    forall c :: c in s.cage ==> s.cage[c].task != t
  }

  ghost predicate StopOk(s: State, k: nat)
    requires k in s.stops
  {
    var call := s.stops[k];
    var t := call.task;
    call.pc == Ended(Unknown) || (
      && t in s.extent
      && call.slot == s.extent[t].slot
      && (call.hasCancel <==> t in s.starts)
      && (t in s.foreign ==> t in s.adopted)
      && (call.InFlight() && t in s.books.slots ==> t in s.books.stopping)
      && (call.pc.Waiting? || call.pc.Woken? ==> call.hasCancel)
      && (call.pc.Woken? || call.pc.Issuing? || call.pc.InCall? || call.pc.Releasing? ==>
            t in s.starts ==> s.starts[t].Closed())
      && (call.pc.Issuing? || call.pc.InCall? ==> (t in s.books.slots <==> t !in s.releasedByStop))
      && (call.pc.Releasing? && t in s.books.slots ==> Idle(s, t)))
  }

  // Whoever is marked as stopping has a Stop that still answers for it.
  ghost predicate Answered(s: State, t: TaskId) {
    exists k :: k in s.stops && s.stops[k].task == t &&
                (s.stops[k].InFlight() || s.stops[k].pc.result.Quarantined? || s.stops[k].pc.result.Unconfirmed?)
  }

  ghost predicate TasksOk(s: State) { forall t :: t in s.starts ==> TaskOk(s, t) }
  ghost predicate CagesOk(s: State) { forall c :: c in s.cage ==> CageOk(s, c) }
  ghost predicate StopsOk(s: State) { forall k :: k in s.stops ==> StopOk(s, k) }
  ghost predicate MarksOk(s: State) { forall t :: t in s.books.stopping ==> Answered(s, t) }

  ghost predicate Inv(s: State) {
    && MapsOk(s.books.slots, s.books.inUse, s.extent)
    && FlagsOk(s.books, s.starts.Keys)
    && ExtentsOk(s.extent, s.starts.Keys, s.foreign)
    && HistoryOk(s.books.slots.Keys, s.starts.Keys, s.foreign, s.adopted, s.releasedByStop)
    && |s.turns| <= MAX_DOWNLOADS
    && TasksOk(s)
    && CagesOk(s)
    && StopsOk(s)
    && MarksOk(s)
  }

  lemma InitInv(s: State)
    requires Init(s)
    ensures Inv(s)
  {
  }
}
