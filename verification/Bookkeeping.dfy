/** Accepts, placement tracking, hand-backs and stops arriving at the leader in any
    order: what the leader's books say against what the agents hold. */
module Bookkeeping {
  import opened Dispatch

  datatype Key = Key(agent: AgentId, job: JobName)

  // Per agent and job: accepts whose tracking is still under way, tasks held and settled,
  // tasks held and being started or restarted, starts whose task was stopped meanwhile, hand-backs
  // under way.
  datatype Side = Side(untracked: nat, settled: nat, starting: nat, orphaned: nat, handBacks: nat)

  const NOTHING := Side(0, 0, 0, 0, 0)

  datatype State = State(placed: Books, sides: map<Key, Side>)

  datatype Event =
    | EvAccept(k: Key)
    | EvTrack(k: Key)
    | EvStarted(k: Key)
    | EvRestarts(k: Key)
    | EvUnplaceable(k: Key)
    | EvStopStarting(k: Key)
    | EvStopSettled(k: Key)
    | EvOrphanEnds(k: Key, unplaceable: bool)
    | EvHandBackArrives(k: Key)

  function At(s: State, k: Key): Side {
    if k in s.sides then s.sides[k] else NOTHING
  }

  function Placed(s: State, k: Key): nat {
    Count(s.placed, k.agent, k.job)
  }

  predicate Enabled(s: State, e: Event) {
    var d := At(s, e.k);
    match e
    case EvAccept(_) => true
    case EvTrack(_) => d.untracked > 0
    case EvStarted(_) => d.starting > 0
    case EvRestarts(_) => d.settled > 0
    case EvUnplaceable(_) => d.starting > 0
    case EvStopStarting(_) => d.starting > 0
    case EvStopSettled(_) => d.settled > 0
    case EvOrphanEnds(_, _) => d.orphaned > 0
    case EvHandBackArrives(_) => d.handBacks > 0
  }

  function BookOff(s: State, k: Key, d: Side): State {
    State(Untrack(s.placed, k.agent, k.job), s.sides[k := d])
  }

  function Apply(s: State, e: Event): State
    requires Enabled(s, e)
  {
    var k, d := e.k, At(s, e.k);
    match e
    case EvAccept(_) => s.(sides := s.sides[k := d.(untracked := d.untracked + 1, starting := d.starting + 1)])
    case EvTrack(_) => State(Track(s.placed, k.agent, k.job), s.sides[k := d.(untracked := d.untracked - 1)])
    case EvStarted(_) => s.(sides := s.sides[k := d.(starting := d.starting - 1, settled := d.settled + 1)])
    // A restart may turn out unplaceable, or be stopped, like a first start.
    case EvRestarts(_) => s.(sides := s.sides[k := d.(settled := d.settled - 1, starting := d.starting + 1)])
    case EvUnplaceable(_) => s.(sides := s.sides[k := d.(starting := d.starting - 1, handBacks := d.handBacks + 1)])
    // A stop of one task: the agent drops the record, the leader books it off.
    case EvStopStarting(_) => BookOff(s, k, d.(starting := d.starting - 1, orphaned := d.orphaned + 1))
    case EvStopSettled(_) => BookOff(s, k, d.(settled := d.settled - 1))
    // The hand-back does not ask whether the record was still there.
    case EvOrphanEnds(_, unplaceable) =>
      s.(sides := s.sides[k := d.(orphaned := d.orphaned - 1, handBacks := d.handBacks + if unplaceable then 1 else 0)])
    case EvHandBackArrives(_) => BookOff(s, k, d.(handBacks := d.handBacks - 1))
  }

  function Held(s: State, k: Key): nat {
    At(s, k).settled + At(s, k).starting
  }

  /** By how much the books over-count (or, below zero, under-count) what is held or on
      its way back. */
  function Gap(s: State, k: Key): int {
    Placed(s, k) + At(s, k).untracked - Held(s, k) - At(s, k).handBacks
  }

  // A hand-back for a task that was stopped while it was starting.
  predicate Phantom(e: Event, k: Key) {
    e.EvOrphanEnds? && e.unplaceable && e.k == k
  }

  predicate BooksOff(e: Event) {
    e.EvStopStarting? || e.EvStopSettled? || e.EvHandBackArrives?
  }

  // A booking-off that finds the books at zero.
  predicate Missed(s: State, e: Event, k: Key) {
    BooksOff(e) && e.k == k && Placed(s, k) == 0
  }

  lemma GapElsewhere(s: State, e: Event, k: Key)
    requires Enabled(s, e) && e.k != k
    ensures Gap(Apply(s, e), k) == Gap(s, k)
  {
    assert At(Apply(s, e), k) == At(s, k);
    assert Placed(Apply(s, e), k) == Placed(s, k);
  }

  /** What one step does to the gap: a phantom hand-back takes one off, a booking-off that
      finds the books at zero adds one, and nothing else changes it. */
  lemma StepGap(s: State, e: Event, k: Key)
    requires Enabled(s, e)
    ensures Gap(Apply(s, e), k) == Gap(s, k) - (if Phantom(e, k) then 1 else 0) + (if Missed(s, e, k) then 1 else 0)
  {
    if e.k != k {
      GapElsewhere(s, e, k);
    } else {
      assert Placed(Apply(s, e), k) == if e.EvTrack? then Placed(s, k) + 1
                                       else if BooksOff(e) && Placed(s, k) > 0 then Placed(s, k) - 1 else Placed(s, k);
    }
  }

  ghost predicate IsRun(states: seq<State>, events: seq<Event>) {
    && |states| == |events| + 1 && states[0] == State(map[], map[])
    && forall i {:trigger events[i]} | 0 <= i < |events| ::
         Enabled(states[i], events[i]) && states[i + 1] == Apply(states[i], events[i])
  }

  function Phantoms(events: seq<Event>, n: nat, k: Key): nat
    requires n <= |events|
  {
    if n == 0 then 0 else Phantoms(events, n - 1, k) + if Phantom(events[n - 1], k) then 1 else 0
  }

  function Misses(states: seq<State>, events: seq<Event>, n: nat, k: Key): nat
    requires n <= |events| < |states|
  {
    if n == 0 then 0 else Misses(states, events, n - 1, k) + if Missed(states[n - 1], events[n - 1], k) then 1 else 0
  }

  /** The conservation law of the books, per agent and job, over every run: the gap is the
      bookings-off that found nothing minus the phantom hand-backs. So the books over-count
      exactly when the former prevail, and under-count exactly when the latter do. */
  lemma {:induction false} BooksBalance(states: seq<State>, events: seq<Event>, n: nat, k: Key)
    requires IsRun(states, events) && n <= |events|
    ensures Gap(states[n], k) == Misses(states, events, n, k) - Phantoms(events, n, k)
    ensures Gap(states[n], k) > 0 <==> Misses(states, events, n, k) > Phantoms(events, n, k)
    ensures Gap(states[n], k) < 0 <==> Misses(states, events, n, k) < Phantoms(events, n, k)
  {
    if n > 0 {
      BooksBalance(states, events, n - 1, k);
      StepGap(states[n - 1], events[n - 1], k);
    }
  }

  // The first `n` steps held neither a phantom hand-back nor a booking-off at zero.
  ghost predicate Exact(states: seq<State>, events: seq<Event>, n: nat, k: Key)
    requires n <= |events| < |states|
  {
    forall i | 0 <= i < n :: !Phantom(events[i], k) && !Missed(states[i], events[i], k)
  }

  lemma NotBoth(s: State, e: Event, k: Key)
    ensures !(Phantom(e, k) && Missed(s, e, k))
  {
  }

  /** The books are right all along a run exactly when it holds neither. Both can be seen
      at the step: whether the task was still there when its hand-back was sent, and
      whether there is something to book off. */
  lemma {:induction false} AlwaysRightIff(states: seq<State>, events: seq<Event>, n: nat, k: Key)
    requires IsRun(states, events) && n <= |events|
    ensures (forall i | 0 <= i <= n :: Gap(states[i], k) == 0) <==> Exact(states, events, n, k)
  {
    if n > 0 {
      AlwaysRightIff(states, events, n - 1, k);
      StepGap(states[n - 1], events[n - 1], k);
      NotBoth(states[n - 1], events[n - 1], k);
      if forall i | 0 <= i <= n :: Gap(states[i], k) == 0 {
        assert Gap(states[n - 1], k) == 0 && Gap(states[n], k) == 0;
        assert Exact(states, events, n - 1, k);
      }
      if Exact(states, events, n, k) {
        assert Exact(states, events, n - 1, k);
      }
    } else {
      assert Gap(states[0], k) == 0;
    }
  }

  lemma {:induction false} NoStopsNoPhantoms(states: seq<State>, events: seq<Event>, n: nat, k: Key)
    requires IsRun(states, events) && n <= |events|
    requires forall i | 0 <= i < n :: !events[i].EvStopStarting?
    ensures At(states[n], k).orphaned == 0 && Phantoms(events, n, k) == 0
  {
    if n > 0 {
      NoStopsNoPhantoms(states, events, n - 1, k);
      NoStopsNoPhantoms(states, events, n - 1, events[n - 1].k);
    }
  }

  /** As long as no task is stopped while it is still starting, the books never
      under-count, whatever the order in which tracking and hand-backs arrive. */
  lemma NeverUnderCounts(states: seq<State>, events: seq<Event>, n: nat, k: Key)
    requires IsRun(states, events) && n <= |events|
    requires forall i | 0 <= i < n :: !events[i].EvStopStarting?
    ensures Placed(states[n], k) + At(states[n], k).untracked >= Held(states[n], k) + At(states[n], k).handBacks
  {
    BooksBalance(states, events, n, k);
    NoStopsNoPhantoms(states, events, n, k);
  }

  /** And then a booking-off finds the books at zero only if it has overtaken the tracking
      of an accept that is still under way. */
  lemma MissesAreOvertakings(states: seq<State>, events: seq<Event>, i: nat, k: Key)
    requires IsRun(states, events) && i < |events| && Missed(states[i], events[i], k)
    requires forall x | 0 <= x < i :: !events[x].EvStopStarting?
    ensures At(states[i], k).untracked > 0
  {
    NeverUnderCounts(states, events, i, k);
    assert Enabled(states[i], events[i]);
  }

  const WEB := Key("a", "web")

  ghost predicate Reachable(s: State) {
    exists states, events :: IsRun(states, events) && s == states[|events|]
  }

  lemma ReachStep(s: State, e: Event)
    requires Reachable(s) && Enabled(s, e)
    ensures Reachable(Apply(s, e))
  {
    var states, events :| IsRun(states, events) && s == states[|events|];
    var longer, more := states + [Apply(s, e)], events + [e];
    forall i {:trigger more[i]} | 0 <= i < |more|
      ensures Enabled(longer[i], more[i]) && longer[i + 1] == Apply(longer[i], more[i])
    {
      assert i < |events| ==> more[i] == events[i] && longer[i + 1] == states[i + 1];
    }
    assert IsRun(longer, more) && longer[|more|] == Apply(s, e);
  }

  lemma AcceptAndTrack(s: State) returns (t: State)
    requires Reachable(s) && At(s, WEB).untracked == 0
    ensures Reachable(t) && Placed(t, WEB) == Placed(s, WEB) + 1
    ensures At(t, WEB) == At(s, WEB).(starting := At(s, WEB).starting + 1)
  {
    ReachStep(s, EvAccept(WEB));
    t := Apply(s, EvAccept(WEB));
    ReachStep(t, EvTrack(WEB));
    t := Apply(t, EvTrack(WEB));
  }

  lemma EmptyIsReachable()
    ensures Reachable(State(map[], map[]))
  {
    var states, events: seq<Event> := [State(map[], map[])], [];
    assert IsRun(states, events) && states[|events|] == State(map[], map[]);
  }

  /** A hand-back that overtakes the tracking of its own accept leaves the books at one
      with no task and nothing under way that would correct them: no reconcile will
      dispatch that instance. */
  lemma OvertakenHandBackIsNeverRetried()
    ensures exists s :: Reachable(s) && Placed(s, WEB) == 1 && At(s, WEB) == NOTHING
  {
    EmptyIsReachable();
    var s := State(map[], map[]);
    ReachStep(s, EvAccept(WEB));
    s := Apply(s, EvAccept(WEB));
    ReachStep(s, EvUnplaceable(WEB));
    s := Apply(s, EvUnplaceable(WEB));
    assert Placed(s, WEB) == 0 && At(s, WEB) == NOTHING.(untracked := 1, handBacks := 1);
    ReachStep(s, EvHandBackArrives(WEB));
    s := Apply(s, EvHandBackArrives(WEB));
    ReachStep(s, EvTrack(WEB));
    s := Apply(s, EvTrack(WEB));
  }

  lemma StopWhileStarting(s: State) returns (t: State)
    requires Reachable(s) && Placed(s, WEB) == 1 && At(s, WEB) == NOTHING.(starting := 1)
    ensures Reachable(t) && Placed(t, WEB) == 0 && At(t, WEB) == NOTHING.(handBacks := 1)
  {
    ReachStep(s, EvStopStarting(WEB));
    t := Apply(s, EvStopStarting(WEB));
    ReachStep(t, EvOrphanEnds(WEB, true));
    t := Apply(t, EvOrphanEnds(WEB, true));
  }

  /** A task stopped while starting, whose start then turns out unplaceable, is booked
      off twice: here one task is held and the books say none. */
  lemma PhantomHandBackUnderCounts()
    ensures exists s :: Reachable(s) && Placed(s, WEB) == 0 && Held(s, WEB) == 1 && At(s, WEB).handBacks == 0
  {
    EmptyIsReachable();
    var s := AcceptAndTrack(State(map[], map[]));
    s := StopWhileStarting(s);
    s := AcceptAndTrack(s);
    ReachStep(s, EvHandBackArrives(WEB));
    s := Apply(s, EvHandBackArrives(WEB));
  }
}
