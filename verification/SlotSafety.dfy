/** What holds in every run of the start/stop handshake, and the one place where
    it depends on its callers: two overlapping Stops of the same task. */
module SlotSafety {
  import opened Wrappers
  import opened SlotAllocator
  import opened SlotBooks
  import opened SlotProtocol
  import opened SlotInvariant

  ghost predicate Next(s: State, e: Event, s': State) {
    Enabled(s, e) && s' == Apply(s, e)
  }

  ghost predicate IsRun(states: seq<State>, events: seq<Event>) {
    && |states| == |events| + 1
    && Init(states[0])
    && forall i {:trigger events[i]} | 0 <= i < |events| :: Next(states[i], events[i], states[i + 1])
  }

  ghost predicate Reachable(s: State) {
    exists states, events :: IsRun(states, events) && states[|events|] == s
  }

  lemma ReachStart(s: State)
    requires Init(s)
    ensures Reachable(s)
  {
    assert IsRun([s], []);
  }

  lemma ReachStep(s: State, e: Event)
    requires Reachable(s) && Enabled(s, e)
    ensures Reachable(Apply(s, e))
  {
    var states, events :| IsRun(states, events) && states[|events|] == s;
    Longer(states, events, Apply(s, e), e);
  }

  lemma Longer(states: seq<State>, events: seq<Event>, s: State, e: Event)
    requires IsRun(states, events) && Next(states[|events|], e, s)
    ensures Reachable(s)
  {
    var longer, more := states + [s], events + [e];
    forall i {:trigger more[i]} | 0 <= i < |more| ensures Next(longer[i], more[i], longer[i + 1]) {
      assert i < |events| ==> more[i] == events[i] && longer[i + 1] == states[i + 1];
    }
    assert IsRun(longer, more) && longer[|more|] == s;
  }

  lemma {:induction false} RunInv(states: seq<State>, events: seq<Event>, n: nat)
    requires IsRun(states, events) && n < |states|
    ensures Inv(states[n])
  {
    if n == 0 {
      InitInv(states[0]);
    } else {
      RunInv(states, events, n - 1);
      StepInv(states[n - 1], events[n - 1]);
    }
  }

  lemma ReachableInv(s: State)
    requires Reachable(s)
    ensures Inv(s)
  {
    var states, events :| IsRun(states, events) && states[|events|] == s;
    RunInv(states, events, |events|);
  }

  lemma OccupantOwns(s: State, c: int)
    requires CagesOk(s) && c in s.cage
    ensures var t := s.cage[c].task;
            && t in s.extent && s.extent[t].Has(c)
            && (t in s.books.slots || (t in s.foreign && t !in s.adopted && c !in s.books.inUse))
  {
    assert CageOk(s, c) && WholeExtent(s, c);
  }

  lemma OwnerHasItAll(slots: map<TaskId, int>, inUse: map<int, TaskId>, extent: map<TaskId, Extent>, t: TaskId)
    requires MapsOk(slots, inUse, extent) && t in slots
    ensures t in extent && slots[t] == extent[t].slot
    ensures forall d :: extent[t].Has(d) ==> d in inUse && inUse[d] == t
  {
  }

  /** In every run: a cage that is streamed into or whose program is live is in the
      books, with all its neighbours of the same run, for exactly that task. The
      only exception is a survivor of a kernel flip not adopted yet, whose cage is
      in nobody's books. */
  lemma OccupiedIsRecorded(s: State, c: int)
    requires Reachable(s) && c in s.cage
    ensures var t := s.cage[c].task;
            t in s.extent && s.extent[t].Has(c) &&
            if t in s.foreign && t !in s.adopted
            then c !in s.books.inUse
            else t in s.books.slots && s.books.slots[t] == s.extent[t].slot &&
                 forall d :: s.extent[t].Has(d) ==> d in s.books.inUse && s.books.inUse[d] == t
  {
    ReachableInv(s);
    OccupantOwns(s, c);
    if s.cage[c].task in s.books.slots {
      OwnerHasItAll(s.books.slots, s.books.inUse, s.extent, s.cage[c].task);
    }
  }

  /** Nothing is ever streamed onto an occupied cage. */
  lemma StreamsIntoEmptyCages(s: State, t: TaskId)
    requires Reachable(s) && Enabled(s, EvBeginStream(t))
    ensures forall c :: s.extent[t].Has(c) ==> c !in s.cage
  {
    ReachableInv(s);
    NotYetThere(s, t);
    OccupantsAreOwners(s, t);
  }

  lemma OccupantsAreOwners(s: State, t: TaskId)
    requires CagesOk(s) && MapsOk(s.books.slots, s.books.inUse, s.extent) && t in s.books.slots && t in s.extent
    ensures forall c :: s.extent[t].Has(c) && c in s.cage ==> s.cage[c].task == t
  {
    OwnerHasItAll(s.books.slots, s.books.inUse, s.extent, t);
    forall c | s.extent[t].Has(c) && c in s.cage ensures s.cage[c].task == t {
      OccupantIsOwner(s, t, c);
    }
  }

  // Before it streams a task sits in no cage, but owns some.
  lemma NotYetThere(s: State, t: TaskId)
    requires TasksOk(s) && CagesOk(s) && At(s, t, Fetching)
    ensures Idle(s, t) && t in s.books.slots
  {
    assert TaskOk(s, t);
    forall c | c in s.cage ensures s.cage[c].task != t {
      assert CageOk(s, c);
    }
  }

  lemma OccupantIsOwner(s: State, t: TaskId, c: int)
    requires CagesOk(s) && MapsOk(s.books.slots, s.books.inUse, s.extent)
    requires c in s.cage && c in s.books.inUse && s.books.inUse[c] == t
    ensures s.cage[c].task == t
  {
    OccupantOwns(s, c);
    OwnerHasItAll(s.books.slots, s.books.inUse, s.extent, s.cage[c].task);
  }

  /** No cage leaks: a recorded cage belongs to a start that is not over, to a
      published task, to an adopted one, or to one that some Stop has marked and
      not confirmed released. */
  lemma NoCageLeaks(s: State, c: int)
    requires Reachable(s) && c in s.books.inUse
    ensures var t := s.books.inUse[c];
            || t in s.adopted
            || (t in s.starts && (!s.starts[t].Done? || s.starts[t] == Done(Running)))
            || (t in s.books.stopping && Answered(s, t))
  {
    ReachableInv(s);
    var t := s.books.inUse[c];
    assert t in s.books.slots;
    if t in s.starts {
      assert TaskOk(s, t);
    }
  }

  /** A start about to return "not started" without an error still owns its cages
      and has a Stop in flight, or one that put the cages in quarantine. */
  lemma NotStartedMeansStopped(s: State, t: TaskId)
    requires Reachable(s) && At(s, t, Returning(false, false))
    ensures t in s.books.slots && t in s.books.stopping && Answered(s, t)
  {
    ReachableInv(s);
    assert TaskOk(s, t);
  }

  /** A task that was stopped but not confirmed released keeps its cages: as long as
      it is in the books, which is until some later Stop succeeds, no allocation
      can return one of them. */
  lemma QuarantineHolds(s: State, t: TaskId, q: Request, p: Probe, slot: int)
    requires Reachable(s) && t in s.books.slots
    requires q.Valid() && IsAllocation(q, p, s.books.inUse, Some(slot))
    ensures t in s.extent && forall c :: slot <= c < slot + q.cores ==> !s.extent[t].Has(c)
  {
    ReachableInv(s);
    AllocationAvoids(s.books.slots, s.books.inUse, s.extent, t, q, p, slot);
  }

  lemma AllocationAvoids(slots: map<TaskId, int>, inUse: map<int, TaskId>, extent: map<TaskId, Extent>, t: TaskId,
                         q: Request, p: Probe, slot: int)
    requires MapsOk(slots, inUse, extent) && t in slots
    requires q.Valid() && IsAllocation(q, p, inUse, Some(slot))
    ensures forall c :: slot <= c < slot + q.cores ==> !extent[t].Has(c)
  {
    AllocationPlacement(q, p, inUse, Some(slot));
    forall c | slot <= c < slot + q.cores ensures !extent[t].Has(c) {
      assert extent[t].Has(c) ==> c in inUse;
    }
  }

  /** However many starts there are, at most four tasks stream at once. */
  lemma AtMostFourStreams(s: State, streaming: set<TaskId>)
    requires Reachable(s)
    requires forall t :: t in streaming ==> At(s, t, Streaming)
    ensures |streaming| <= MAX_DOWNLOADS
  {
    ReachableInv(s);
    forall t | t in streaming ensures t in s.turns {
      assert TaskOk(s, t);
    }
    SubsetSize(streaming, s.turns);
  }

  lemma {:induction false} SubsetSize<T>(a: set<T>, b: set<T>)
    requires a <= b
    ensures |a| <= |b|
    decreases |a|
  {
    if a != {} {
      var x :| x in a;
      SubsetSize(a - {x}, b - {x});
    }
  }

  /** In every run, whatever the callers do: a Stop about to call sm.Stop owns the
      slot if and only if no Stop has released its task in the meantime. A start
      that failed and released first never gets it there. */
  lemma StopOwnsItsSlot(s: State, k: nat)
    requires Reachable(s) && StopAt(s, k, Issuing)
    ensures Owned(s, k) <==> s.stops[k].task !in s.releasedByStop
  {
    ReachableInv(s);
    assert StopOk(s, k);
  }

  // Callers that never have two Stops of one task in flight.
  predicate Polite(s: State, e: Event) {
    e.EvBeginStop? ==> forall k :: k in s.stops && s.stops[k].InFlight() ==> s.stops[k].task != e.t
  }

  ghost predicate OneEach(stops: map<nat, StopCall>, released: set<TaskId>) {
    && (forall k :: k in stops && stops[k].InFlight() ==> stops[k].task !in released)
    && (forall k, j :: k in stops && j in stops && stops[k].InFlight() && stops[j].InFlight() ==>
          stops[k].task == stops[j].task ==> k == j)
  }

  ghost predicate SingleFlight(s: State) {
    OneEach(s.stops, s.releasedByStop) && !s.misdirected
  }

  // A Stop that moves on, or ends while its task counts as released.
  lemma OneEachMoves(stops: map<nat, StopCall>, stops': map<nat, StopCall>, k: nat, released: set<TaskId>,
                     released': set<TaskId>)
    requires OneEach(stops, released) && k in stops && stops[k].InFlight()
    requires k in stops' && stops' == stops[k := stops'[k]] && stops'[k].task == stops[k].task
    requires released' == released || (released' == released + {stops[k].task} && !stops'[k].InFlight())
    ensures OneEach(stops', released')
  {
  }

  lemma OneEachBegins(stops: map<nat, StopCall>, k: nat, call: StopCall, released: set<TaskId>)
    requires OneEach(stops, released) && k !in stops
    requires call.InFlight() ==>
               call.task !in released && forall j :: j in stops && stops[j].InFlight() ==> stops[j].task != call.task
    ensures OneEach(stops[k := call], released)
  {
  }

  // The steps of starts, of adoption and of the node touch no Stop.
  lemma StartSingleFlight(s: State, e: Event)
    requires SingleFlight(s) && Enabled(s, e) && !OfStop(e) && !e.EvBeginStop?
    ensures SingleFlight(Apply(s, e))
  {
    assert Apply(s, e).stops == s.stops && Apply(s, e).releasedByStop == s.releasedByStop;
  }

  lemma BeginSingleFlight(s: State, k: nat, t: TaskId)
    requires SingleFlight(s) && Enabled(s, EvBeginStop(k, t)) && Polite(s, EvBeginStop(k, t))
    requires s.releasedByStop !! s.books.slots.Keys
    ensures SingleFlight(Apply(s, EvBeginStop(k, t)))
  {
    OneEachBegins(s.stops, k, Apply(s, EvBeginStop(k, t)).stops[k], s.releasedByStop);
  }

  lemma ReleaseSingleFlight(s: State, k: nat)
    requires SingleFlight(s) && Enabled(s, EvReleaseStop(k))
    ensures SingleFlight(Apply(s, EvReleaseStop(k)))
  {
    var s' := Apply(s, EvReleaseStop(k));
    OneEachMoves(s.stops, s'.stops, k, s.releasedByStop, s'.releasedByStop);
  }

  // A Stop that moves on without releasing.
  lemma MoveSingleFlight(s: State, e: Event)
    requires SingleFlight(s) && Enabled(s, e) && OfStop(e) && !e.EvReleaseStop?
    requires e.EvIssueStop? ==> Owned(s, e.k) || s.stops[e.k].task in s.releasedByStop
    ensures SingleFlight(Apply(s, e))
  {
    var s' := Apply(s, e);
    assert s'.releasedByStop == s.releasedByStop && s'.stops == s.stops[e.k := s'.stops[e.k]];
    OneEachMoves(s.stops, s'.stops, e.k, s.releasedByStop, s.releasedByStop);
  }

  lemma StepSingleFlight(s: State, e: Event)
    requires SingleFlight(s) && Enabled(s, e) && Polite(s, e)
    requires s.releasedByStop !! s.books.slots.Keys
    requires e.EvIssueStop? ==> Owned(s, e.k) || s.stops[e.k].task in s.releasedByStop
    ensures SingleFlight(Apply(s, e))
  {
    if e.EvBeginStop? {
      BeginSingleFlight(s, e.k, e.t);
    } else if e.EvReleaseStop? {
      ReleaseSingleFlight(s, e.k);
    } else if OfStop(e) {
      MoveSingleFlight(s, e);
    } else {
      StartSingleFlight(s, e);
    }
  }

  // The invariant's part of the argument, at one state.
  lemma IssuingIsHonest(s: State, e: Event)
    requires Inv(s) && Enabled(s, e)
    ensures s.releasedByStop !! s.books.slots.Keys
    ensures e.EvIssueStop? ==> Owned(s, e.k) || s.stops[e.k].task in s.releasedByStop
  {
    assert e.EvIssueStop? ==> StopOk(s, e.k);
  }

  lemma MisdirectedStep(s: State, e: Event, s': State)
    requires Inv(s) && SingleFlight(s) && Next(s, e, s') && Polite(s, e)
    ensures SingleFlight(s')
  {
    IssuingIsHonest(s, e);
    StepSingleFlight(s, e);
  }

  lemma StartsSingleFlight(s: State)
    requires Init(s)
    ensures SingleFlight(s)
  {
  }

  ghost predicate PoliteRun(states: seq<State>, events: seq<Event>) {
    && IsRun(states, events)
    && forall i {:trigger events[i]} | 0 <= i < |events| :: Polite(states[i], events[i])
  }

  lemma MisdirectedRunStep(states: seq<State>, events: seq<Event>, i: nat)
    requires PoliteRun(states, events) && i < |events| && SingleFlight(states[i])
    ensures SingleFlight(states[i + 1])
  {
    RunInv(states, events, i);
    MisdirectedStep(states[i], events[i], states[i + 1]);
  }

  lemma MisdirectedRunStart(states: seq<State>, events: seq<Event>)
    requires PoliteRun(states, events)
    ensures SingleFlight(states[0])
  {
    StartsSingleFlight(states[0]);
  }

  /** With one Stop per task in flight no run ever stops a cage that its caller
      does not own. */
  lemma {:induction false} NeverMisdirected(states: seq<State>, events: seq<Event>, n: nat)
    requires PoliteRun(states, events) && n < |states|
    ensures SingleFlight(states[n])
  {
    if n == 0 {
      MisdirectedRunStart(states, events);
    } else {
      NeverMisdirected(states, events, n - 1);
      MisdirectedRunStep(states, events, n - 1);
    }
  }

  // The states of a run in which two Stops of the adopted task "a" overlap.
  const EXTENT_A := map["a" := Extent(1, 1)]
  const LIVE_A := map[1 := Live("a")]
  const IDLE_BOOKS := Books(map["a" := 1], map[1 := "a"], {}, {}, {}, map[], {})
  const STOP_BOOKS := IDLE_BOOKS.(stopping := {"a"})
  const FLIPPED := State(EMPTY, EXTENT_A, map[], map[], LIVE_A, {}, {"a"}, {}, {}, false)

  function Overlap(b: Books, stops: map<nat, StopCall>, cage: map<int, Occupant>): State {
    State(b, EXTENT_A, map[], stops, cage, {}, {"a"}, {"a"}, {}, false)
  }

  function StopOfA(pc: StopPc): StopCall {
    StopCall("a", 1, false, pc)
  }

  // The first Stop has released the task, the second one is about to call sm.Stop.
  const AFTER_RELEASE := Overlap(EMPTY, map[0 := StopOfA(Ended(SlotProtocol.Released)), 1 := StopOfA(Issuing)], map[])
    .(releasedByStop := {"a"})

  predicate GoneWrong(s: State) {
    && s.misdirected && s.books.inUse == map[1 := "b"]
    && s.stops.Keys == {0, 1} && s.stops[0].task == s.stops[1].task == "a"
  }

  lemma OverlapInit()
    ensures Init(FLIPPED)
  {
  }

  lemma OverlapAdopts()
    ensures Enabled(FLIPPED, EvAdopt("a")) && Apply(FLIPPED, EvAdopt("a")) == Overlap(IDLE_BOOKS, map[], LIVE_A)
  {
    assert Extent(1, 1).Fill("a") + map[] == map[1 := "a"];
  }

  lemma OverlapBegins(k: nat, stops: map<nat, StopCall>, stopping: set<TaskId>)
    requires k !in stops && stopping <= {"a"}
    ensures var s := Overlap(IDLE_BOOKS.(stopping := stopping), stops, LIVE_A);
            Enabled(s, EvBeginStop(k, "a")) &&
            Apply(s, EvBeginStop(k, "a")) == Overlap(STOP_BOOKS, stops[k := StopOfA(Begun)], LIVE_A)
  {
    assert stopping + {"a"} == {"a"};
  }

  lemma OverlapCancels(k: nat, stops: map<nat, StopCall>)
    requires k in stops && stops[k] == StopOfA(Begun)
    ensures var s := Overlap(STOP_BOOKS, stops, LIVE_A);
            && Enabled(s, EvCancel(k))
            && Apply(s, EvCancel(k)) == Overlap(STOP_BOOKS, stops[k := StopOfA(Issuing)], LIVE_A)
  {
  }

  lemma OverlapIssues(stops: map<nat, StopCall>)
    requires 0 in stops && stops[0] == StopOfA(Issuing)
    ensures var s := Overlap(STOP_BOOKS, stops, LIVE_A);
            && Enabled(s, EvIssueStop(0))
            && Apply(s, EvIssueStop(0)) == Overlap(STOP_BOOKS, stops[0 := StopOfA(InCall)], LIVE_A)
  {
  }

  lemma OverlapReturns(stops: map<nat, StopCall>)
    requires 0 in stops && stops[0] == StopOfA(InCall)
    ensures var s := Overlap(STOP_BOOKS, stops, LIVE_A);
            Enabled(s, EvStopReturns(0, true)) &&
            Apply(s, EvStopReturns(0, true)) == Overlap(STOP_BOOKS, stops[0 := StopOfA(Releasing)], map[])
  {
    assert Vacate(LIVE_A, "a") == map[];
  }

  lemma OverlapReleases(stops: map<nat, StopCall>)
    requires stops.Keys == {0, 1} && stops[0] == StopOfA(Releasing) && stops[1] == StopOfA(Issuing)
    ensures var s := Overlap(STOP_BOOKS, stops, map[]);
            Enabled(s, EvReleaseStop(0)) && Apply(s, EvReleaseStop(0)) == AFTER_RELEASE
  {
    var r := Release(STOP_BOOKS, "a");
    assert r.slots == map[] && r.inUse == map[] && r.stopping == {} && r == EMPTY;
    assert stops[0 := StopOfA(Ended(SlotProtocol.Released))] == AFTER_RELEASE.stops;
  }

  lemma OverlapMisdirects(q: Request, p: Probe)
    requires q == Request("", 1, false) && p == Probe(4, {}, map[], None)
    ensures Enabled(AFTER_RELEASE, EvReserve("b", q, p, 1))
    ensures var s := Apply(AFTER_RELEASE, EvReserve("b", q, p, 1));
            Enabled(s, EvIssueStop(1)) && GoneWrong(Apply(s, EvIssueStop(1)))
  {
    assert IsAllocation(q, p, map[], Some(1)) by {
      assert forall x :: x < 1 ==> !Feasible(q, p, map[], x);
    }
    assert map[] + Extent(1, 1).Fill("b") == map[1 := "b"];
  }

  lemma OverlapEnds(stops: map<nat, StopCall>) returns (s: State)
    requires stops.Keys == {0, 1} && stops[0] == stops[1] == StopOfA(Begun)
    requires Reachable(Overlap(STOP_BOOKS, stops, LIVE_A))
    ensures Reachable(s) && GoneWrong(s)
  {
    OverlapCancels(0, stops);
    ReachStep(Overlap(STOP_BOOKS, stops, LIVE_A), EvCancel(0));
    var stops1 := stops[0 := StopOfA(Issuing)];
    OverlapCancels(1, stops1);
    ReachStep(Overlap(STOP_BOOKS, stops1, LIVE_A), EvCancel(1));
    var stops2 := stops1[1 := StopOfA(Issuing)];
    OverlapIssues(stops2);
    ReachStep(Overlap(STOP_BOOKS, stops2, LIVE_A), EvIssueStop(0));
    s := OverlapFinishes(stops2[0 := StopOfA(InCall)]);
  }

  lemma OverlapMisdirected() returns (s: State)
    requires Reachable(AFTER_RELEASE)
    ensures Reachable(s) && GoneWrong(s)
  {
    var q, p := Request("", 1, false), Probe(4, {}, map[], None);
    OverlapMisdirects(q, p);
    ReachStep(AFTER_RELEASE, EvReserve("b", q, p, 1));
    s := Apply(AFTER_RELEASE, EvReserve("b", q, p, 1));
    ReachStep(s, EvIssueStop(1));
    s := Apply(s, EvIssueStop(1));
  }

  lemma OverlapFinishes(stops3: map<nat, StopCall>) returns (s: State)
    requires stops3.Keys == {0, 1} && stops3[0] == StopOfA(InCall) && stops3[1] == StopOfA(Issuing)
    requires Reachable(Overlap(STOP_BOOKS, stops3, LIVE_A))
    ensures Reachable(s) && GoneWrong(s)
  {
    OverlapReturns(stops3);
    ReachStep(Overlap(STOP_BOOKS, stops3, LIVE_A), EvStopReturns(0, true));
    var stops4 := stops3[0 := StopOfA(Releasing)];
    OverlapReleases(stops4);
    ReachStep(Overlap(STOP_BOOKS, stops4, map[]), EvReleaseStop(0));
    s := OverlapMisdirected();
  }

  /** Without that discipline it does happen: the first Stop finishes and releases,
      task "b" is given the same cage, and the second Stop then stops "b"'s cage. */
  lemma OverlappingStopsMisdirect() returns (s: State)
    ensures Reachable(s) && GoneWrong(s)
  {
    OverlapStarts();
    s := OverlapEnds(map[0 := StopOfA(Begun), 1 := StopOfA(Begun)]);
  }

  lemma OverlapStarts()
    ensures Reachable(Overlap(STOP_BOOKS, map[0 := StopOfA(Begun), 1 := StopOfA(Begun)], LIVE_A))
  {
    var b := StopOfA(Begun);
    OverlapInit();
    ReachStart(FLIPPED);
    OverlapAdopts();
    ReachStep(FLIPPED, EvAdopt("a"));
    OverlapBegins(0, map[], {});
    ReachStep(Overlap(IDLE_BOOKS, map[], LIVE_A), EvBeginStop(0, "a"));
    OverlapBegins(1, map[0 := b], {"a"});
    ReachStep(Overlap(STOP_BOOKS, map[0 := b], LIVE_A), EvBeginStop(1, "a"));
    assert map[0 := b][1 := b] == map[0 := b, 1 := b];
  }
}
