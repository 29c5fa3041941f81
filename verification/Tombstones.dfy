/** Deleting a job while reconciles, priority rewrites and dispatches that still hold a
    copy of it are under way. One name; no re-submit and no update of it. */
module Tombstones {
  import opened Wrappers

  const TTL: nat := 120

  // The life of one copy of the job in the hands of a reconcile or a dispatch. Steps are
  // positions in the run, `when` is the clock, `onLeaderNode` is whether the agent that
  // accepted the copy shares its job map with the leader.
  datatype Copy =
    | Holding
    | Checked(step: nat, when: nat)
    | Refused
    | Accepted(step: nat, when: nat, acceptStep: nat, acceptedAt: nat, onLeaderNode: bool)

  // `record` is the job's record (its priority) in the leader's job store, which is the task agent's own map
  // on its node. Of the deletion we remember when the last tombstone was set (`stoned`,
  // step and clock), whether the record was removed since, and which copies put it back.
  datatype State = State(now: nat, step: nat, stone: Option<nat>, record: Option<int>, copies: map<nat, Copy>,
                         stoned: Option<(nat, nat)>, removed: bool, revivedBy: set<nat>)

  datatype Event =
    | EvTick(elapsed: nat)
    | EvTombstone
    | EvPrune
    | EvStoreDelete
    | EvCopy(id: nat)
    | EvRewrite(id: nat, prio: int)
    | EvCheck(id: nat)
    | EvAccept(id: nat, onLeaderNode: bool, prio: int)
    | EvStart(id: nat, prio: int)

  predicate Dead(s: State) {
    s.stone.Some? && s.now - s.stone.value <= TTL
  }

  predicate Enabled(s: State, e: Event) {
    match e
    case EvTick(_) => true
    case EvTombstone => true
    // Stones are pruned by other deletions, and only when expired.
    case EvPrune => s.stone.Some? && s.now - s.stone.value > TTL
    // The removal follows its tombstone, and so does every later sweep.
    case EvStoreDelete => s.stoned.Some?
    case EvCopy(id) => id !in s.copies && s.record.Some?
    case EvRewrite(id, _) => id in s.copies
    case EvCheck(id) => id in s.copies && s.copies[id].Holding?
    case EvAccept(id, _, _) => id in s.copies && s.copies[id].Checked?
    // The removal takes the record only, so the start of a task accepted before it still follows.
    case EvStart(id, _) => id in s.copies && s.copies[id].Accepted? && s.copies[id].onLeaderNode
  }

  // UpdateJob: existence check and write in one step, over a record that exists only.
  function UpdateRecord(record: Option<int>, prio: int): Option<int> {
    if record.None? then None else Some(prio)
  }

  function Effect(s: State, e: Event): State
    requires Enabled(s, e)
  {
    match e
    case EvTick(d) => s.(now := s.now + d)
    case EvTombstone => s.(stone := Some(s.now), stoned := Some((s.step, s.now)), removed := false, revivedBy := {})
    case EvPrune => s.(stone := None)
    case EvStoreDelete => s.(record := None, removed := true, revivedBy := {})
    case EvCopy(id) => s.(copies := s.copies[id := Holding])
    case EvRewrite(_, prio) => s.(record := UpdateRecord(s.record, prio))
    case EvCheck(id) => s.(copies := s.copies[id := if Dead(s) then Refused else Checked(s.step, s.now)])
    case EvAccept(id, onLeaderNode, prio) =>
      var c := s.copies[id];
      var after := s.(copies := s.copies[id := Accepted(c.step, c.when, s.step, s.now, onLeaderNode)]);
      if onLeaderNode then Registered(after, id, prio) else after
    case EvStart(id, prio) => Registered(s, id, prio)
  }

  // An agent on the leader's node writes the job map directly, whether the record is there or not.
  function Registered(s: State, id: nat, prio: int): State {
    s.(record := Some(prio), revivedBy := if s.removed then s.revivedBy + {id} else s.revivedBy)
  }

  function Apply(s: State, e: Event): State
    requires Enabled(s, e)
  {
    Effect(s, e).(step := s.step + 1)
  }

  // ---- invariant ----

  // Whoever passed the check after the tombstone did so once it had expired.
  predicate LateCheckIsExpired(stoned: Option<(nat, nat)>, c: Copy) {
    (c.Checked? || c.Accepted?) && stoned.Some? && c.step >= stoned.value.0 ==> c.when > stoned.value.1 + TTL
  }

  predicate InThePast(s: State, c: Copy) {
    && (c.Checked? || c.Accepted? ==> c.step < s.step && c.when <= s.now)
    && (c.Accepted? ==> c.step < c.acceptStep < s.step && c.when <= c.acceptedAt <= s.now)
  }

  ghost predicate Inv(s: State) {
    && (s.stone.Some? ==> s.stoned.Some? && s.stoned.value.1 == s.stone.value)
    && (s.stoned.Some? ==> s.stoned.value.0 < s.step && s.stoned.value.1 <= s.now)
    && (s.stoned.Some? && s.stone.None? ==> s.now > s.stoned.value.1 + TTL)
    && (s.removed ==> s.stoned.Some?)
    && (s.removed && s.revivedBy == {} ==> s.record.None?)
    && CopiesOk(s)
    && RevivedOk(s.revivedBy, s.copies)
  }

  ghost predicate CopiesOk(s: State) {
    forall id | id in s.copies :: InThePast(s, s.copies[id]) && LateCheckIsExpired(s.stoned, s.copies[id])
  }

  ghost predicate RevivedOk(revivedBy: set<nat>, copies: map<nat, Copy>) {
    forall id | id in revivedBy :: id in copies && copies[id].Accepted? && copies[id].onLeaderNode
  }

  // What one step makes of one copy.
  lemma StepCopy(s: State, e: Event, id: nat)
    requires Enabled(s, e) && id in Apply(s, e).copies
    requires s.stone.Some? ==> s.stoned.Some? && s.stoned.value.1 == s.stone.value
    requires s.stoned.Some? && s.stone.None? ==> s.now > s.stoned.value.1 + TTL
    requires id in s.copies ==> InThePast(s, s.copies[id]) && LateCheckIsExpired(s.stoned, s.copies[id])
    ensures InThePast(Apply(s, e), Apply(s, e).copies[id])
    ensures LateCheckIsExpired(Apply(s, e).stoned, Apply(s, e).copies[id])
  {
  }

  lemma StepCopies(s: State, e: Event)
    requires Inv(s) && Enabled(s, e)
    ensures CopiesOk(Apply(s, e))
  {
    var s' := Apply(s, e);
    forall id | id in s'.copies ensures InThePast(s', s'.copies[id]) && LateCheckIsExpired(s'.stoned, s'.copies[id]) {
      StepCopy(s, e, id);
    }
  }

  lemma StepRevived(s: State, e: Event)
    requires Inv(s) && Enabled(s, e)
    ensures RevivedOk(Apply(s, e).revivedBy, Apply(s, e).copies)
  {
  }

  lemma StepInv(s: State, e: Event)
    requires Inv(s) && Enabled(s, e)
    ensures Inv(Apply(s, e))
  {
    StepCopies(s, e);
    StepRevived(s, e);
    if ((e.EvAccept? && e.onLeaderNode) || e.EvStart?) && s.removed {
      assert e.id in Apply(s, e).revivedBy;
    }
  }

  // ---- runs ----

  ghost predicate Init(s: State) {
    s.stone == None && s.stoned == None && s.copies == map[] && !s.removed && s.revivedBy == {}
  }

  ghost predicate IsRun(states: seq<State>, events: seq<Event>) {
    && |states| == |events| + 1 && Init(states[0])
    && forall i {:trigger events[i]} | 0 <= i < |events| ::
         Enabled(states[i], events[i]) && states[i + 1] == Apply(states[i], events[i])
  }

  lemma {:induction false} RunInv(states: seq<State>, events: seq<Event>, n: nat)
    requires IsRun(states, events) && n < |states|
    ensures Inv(states[n])
  {
    if n > 0 {
      RunInv(states, events, n - 1);
      StepInv(states[n - 1], events[n - 1]);
    }
  }

  /** Within the tombstone's lifetime every acceptance after the deletion comes from a
      dispatch that made its check before it. */
  lemma LateAcceptsWereCheckedBefore(states: seq<State>, events: seq<Event>, n: nat, id: nat)
    requires IsRun(states, events) && n < |states|
    requires states[n].stoned.Some? && id in states[n].copies && states[n].copies[id].Accepted?
    requires states[n].copies[id].acceptedAt <= states[n].stoned.value.1 + TTL
    ensures states[n].copies[id].step < states[n].stoned.value.0
  {
    RunInv(states, events, n);
  }

  /** Reconciles and priority rewrites never put the record back, however stale their
      copies. If it is back after its removal, then an agent on the leader's own node has
      since accepted a copy or started a task it had accepted, and within the tombstone's
      lifetime that copy was checked before the tombstone. */
  lemma OnlyEarlyDispatchesRevive(states: seq<State>, events: seq<Event>, n: nat)
    requires IsRun(states, events) && n < |states|
    requires states[n].removed && states[n].record.Some?
    ensures states[n].stoned.Some? && states[n].revivedBy != {}
    ensures forall id | id in states[n].revivedBy ::
              id in states[n].copies && states[n].copies[id].Accepted? && states[n].copies[id].onLeaderNode
    ensures states[n].now <= states[n].stoned.value.1 + TTL ==>
              forall id | id in states[n].revivedBy :: states[n].copies[id].step < states[n].stoned.value.0
  {
    RunInv(states, events, n);
    forall id | id in states[n].revivedBy && states[n].now <= states[n].stoned.value.1 + TTL
      ensures states[n].copies[id].step < states[n].stoned.value.0
    {
      assert InThePast(states[n], states[n].copies[id]);
    }
  }

  const LATE_START := [EvCopy(0), EvCheck(0), EvAccept(0, true, 1), EvTombstone, EvStoreDelete, EvStart(0, 1)]

  lemma AcceptedEarly() returns (states: seq<State>)
    ensures IsRun(states, LATE_START[..3])
    ensures states[3] == State(0, 3, None, Some(1), map[0 := Accepted(1, 0, 2, 0, true)], None, false, {})
  {
    var s0 := State(0, 0, None, Some(1), map[], None, false, {});
    var s1 := Apply(s0, EvCopy(0));
    assert s1.copies[0] == Holding;
    var s2 := Apply(s1, EvCheck(0));
    assert s2.copies[0] == Checked(1, 0);
    states := [s0, s1, s2, Apply(s2, EvAccept(0, true, 1))];
    assert states[3].copies == map[0 := Accepted(1, 0, 2, 0, true)];
  }

  /** A start can do so although its accept came before the tombstone. */
  lemma LateStartRevives() returns (states: seq<State>)
    ensures IsRun(states, LATE_START) && states[6].removed && states[6].record == Some(1)
    ensures states[6].stoned == Some((3, 0)) && states[6].copies == map[0 := Accepted(1, 0, 2, 0, true)]
  {
    var early := AcceptedEarly();
    var s4 := Apply(early[3], EvTombstone);
    var s5 := Apply(s4, EvStoreDelete);
    states := early + [s4, s5, Apply(s5, EvStart(0, 1))];
    forall i {:trigger LATE_START[i]} | 0 <= i < 6
      ensures Enabled(states[i], LATE_START[i]) && states[i + 1] == Apply(states[i], LATE_START[i])
    {
      assert i < 3 ==> LATE_START[..3][i] == LATE_START[i];
    }
  }

  /** A copy gets past the check after a deletion exactly when the tombstone has expired
      (or was pruned, which only happens once it has). */
  lemma PassesIffExpired(states: seq<State>, events: seq<Event>, n: nat, id: nat)
    requires IsRun(states, events) && n < |states|
    requires Enabled(states[n], EvCheck(id)) && states[n].stoned.Some?
    ensures Apply(states[n], EvCheck(id)).copies[id].Checked? <==> states[n].now > states[n].stoned.value.1 + TTL
  {
    RunInv(states, events, n);
  }
}
