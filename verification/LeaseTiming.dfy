/** Election under a tick schedule: the store answers and every loop that leads or
    claims ticks in time. And the other side: exactly when a second leader appears. */
module LeaseTiming {
  import opened Wrappers
  import opened Lease
  import opened LeaseSafety

  predicate InClaim(p: Phase) {
    p.DidRead? || p.Claiming? || p.Stamped? || p.Won?
  }

  predicate Started(s: State, e: Event, n: Node) {
    e.Read? && e.n == n
  }

  /** When node `n` last began a tick's claim, before step `i` of a run. */
  ghost function LastTick(states: seq<State>, events: seq<Event>, i: nat, n: Node): int
    requires i <= |events| < |states|
  {
    if i == 0 then states[0].now
    else if Started(states[i - 1], events[i - 1], n) then states[i - 1].now
    else LastTick(states, events, i - 1, n)
  }

  // The clock does not pass the moment by which a claim in flight has finished, nor the
  // one by which an idle leader begins its next tick.
  predicate DueLater(ns: NodeState, tick: int, to: int, interval: nat, delay: nat) {
    && (InClaim(ns.phase) ==> to <= tick + delay)
    && (ns.running && ns.phase.Idle? ==> to <= tick + interval)
  }

  ghost predicate OnTime(states: seq<State>, events: seq<Event>, i: nat, interval: nat, delay: nat)
    requires i < |events| < |states|
  {
    match events[i]
    case Unreachable(_, _) => false
    case Advance(to) =>
      forall n | n in states[i].nodes ::
        DueLater(states[i].nodes[n], LastTick(states, events, i, n), to, interval, delay)
    case _ => true
  }

  /** A run in which the store is reachable, every leader begins a tick at most `interval`
      after the one before, and every claim is through within `delay`. A loop's ticks do
      not overlap, so the interval is no shorter than the claim it contains. */
  ghost predicate TimelyRun(states: seq<State>, events: seq<Event>, interval: nat, delay: nat) {
    && IsRun(states, events) && delay <= interval
    && forall i | 0 <= i < |events| :: OnTime(states, events, i, interval, delay)
  }

  // What a node's last confirmed claim and its last tick have to do with each other.
  predicate Punctual(ns: NodeState, ttl: nat, now: int, tick: int, interval: nat, delay: nat) {
    && tick <= now
    && (InClaim(ns.phase) ==> now <= tick + delay)
    && (ns.running && ns.phase.Idle? ==> now <= tick + interval && tick + ttl <= ns.until)
    && (ns.running && InClaim(ns.phase) ==> tick - interval + ttl <= ns.until)
    && (ns.phase.Stamped? ==> tick + ttl <= ns.phase.expires)
    && (ns.phase.Won? ==> tick + ttl <= ns.until)
    && (ns.phase.ToRelease? ==> !ns.running)
  }

  lemma StepPunctual(s: State, e: Event, n: Node, tick: int, interval: nat, delay: nat)
    requires Enabled(s, e) && n in s.nodes && delay <= interval
    requires Punctual(s.nodes[n], s.ttl, s.now, tick, interval, delay)
    requires !e.Unreachable?
    requires e.Advance? ==> DueLater(s.nodes[n], tick, e.to, interval, delay)
    ensures var s' := Apply(s, e);
            && n in s'.nodes && s'.ttl == s.ttl
            && Punctual(s'.nodes[n], s'.ttl, s'.now, if Started(s, e, n) then s.now else tick, interval, delay)
  {
  }

  lemma {:induction false} RunPunctual(states: seq<State>, events: seq<Event>, i: nat, n: Node, interval: nat,
                                       delay: nat)
    requires TimelyRun(states, events, interval, delay) && i <= |events| && n in states[0].nodes
    ensures n in states[i].nodes && states[i].ttl == states[0].ttl
    ensures Punctual(states[i].nodes[n], states[i].ttl, states[i].now, LastTick(states, events, i, n), interval, delay)
  {
    if i > 0 {
      RunPunctual(states, events, i - 1, n, interval, delay);
      assert Next(states[i - 1], events[i - 1], states[i]);
      assert OnTime(states, events, i - 1, interval, delay);
      StepPunctual(states[i - 1], events[i - 1], n, LastTick(states, events, i - 1, n), interval, delay);
    }
  }

  lemma {:induction false} NodesStay(states: seq<State>, events: seq<Event>, i: nat)
    requires IsRun(states, events) && i <= |events|
    ensures states[i].nodes.Keys == states[0].nodes.Keys
  {
    if i > 0 {
      NodesStay(states, events, i - 1);
      assert Next(states[i - 1], events[i - 1], states[i]);
    }
  }

  /** The schedule keeps every leader, and every node that has just won, inside its
      window. */
  lemma TimelyTicksRenew(states: seq<State>, events: seq<Event>, i: nat, n: Node, interval: nat, delay: nat)
    requires TimelyRun(states, events, interval, delay) && i <= |events|
    requires n in states[i].nodes && (states[i].nodes[n].running || states[i].nodes[n].phase.Won?)
    ensures states[i].now <= states[i].nodes[n].until - states[i].ttl + interval + delay
  {
    NodesStay(states, events, i);
    RunPunctual(states, events, i, n, interval, delay);
    RunInv(states, events, i);
    assert NodeOk(states[i], n);
  }

  /** If the store is reachable and ticks come and finish in time, with interval and claim
      together shorter than the lease, at most one node leads in every state of every
      run. */
  lemma TimelyTicksMeanOneLeader(states: seq<State>, events: seq<Event>, i: nat, n: Node, m: Node, interval: nat,
                                 delay: nat)
    requires TimelyRun(states, events, interval, delay) && i <= |events| && interval + delay < states[i].ttl
    requires n in states[i].nodes && m in states[i].nodes && states[i].nodes[n].running && states[i].nodes[m].running
    ensures n == m
  {
    RunInv(states, events, i);
    TimelyTicksRenew(states, events, i, n, interval, delay);
    TimelyTicksRenew(states, events, i, m, interval, delay);
    assert NodeOk(states[i], n) && NodeOk(states[i], m);
  }

  // A node on its own: one claim, and then time passes until the next tick is due.
  function Alone(ttl: nat): State {
    State(ttl, 0, None, 0, map[0 := NodeState(Idle, None, false, 0)], {}, [])
  }

  const FIRST_CLAIM := [Read(0), Decide(0), Stamp(0), Write(0), StartLeader(0), Advance(1)]

  /** Such runs exist, with a leader and with time passing. */
  lemma TimelyRunsExist(ttl: nat) returns (states: seq<State>)
    ensures TimelyRun(states, FIRST_CLAIM, 1, 0)
    ensures states[6].nodes.Keys == {0} && states[6].nodes[0].running && states[6].now == 1
  {
    var s0 := Alone(ttl);
    var s1 := Apply(s0, Read(0));
    var s2 := Apply(s1, Decide(0));
    var s3 := Apply(s2, Stamp(0));
    var s4 := Apply(s3, Write(0));
    var s5 := Apply(s4, StartLeader(0));
    var s6 := Apply(s5, Advance(1));
    states := [s0, s1, s2, s3, s4, s5, s6];
    assert IsRun(states, FIRST_CLAIM);
    assert LastTick(states, FIRST_CLAIM, 1, 0) == 0;
    assert LastTick(states, FIRST_CLAIM, 3, 0) == 0;
    assert LastTick(states, FIRST_CLAIM, 5, 0) == 0;
    assert OnTime(states, FIRST_CLAIM, 5, 1, 0);
  }

  // ---- a second leader ----

  /** Node `m` makes one claim with nobody in between, and starts its leader if it wins. */
  function ClaimAlone(s: State, m: Node): State
    requires m in s.nodes && s.nodes[m].phase.Idle?
  {
    var read := Apply(s, Read(m));
    var decided := Apply(read, Decide(m));
    if !decided.nodes[m].phase.Claiming? then decided
    else
      var written := Apply(Apply(decided, Stamp(m)), Write(m));
      if written.nodes[m].phase.Won? then Apply(written, StartLeader(m)) else written
  }

  /** Beside a leader another node's claim makes a second one exactly when the record it
      reads is gone, its own, or expired; which cannot be as long as the leader is inside
      its window. */
  lemma SecondLeaderIff(s: State, n: Node, m: Node)
    requires Reachable(s) && n in s.nodes && m in s.nodes && n != m
    requires s.nodes[n].running && s.nodes[m].phase.Idle? && !s.nodes[m].running
    ensures var s' := ClaimAlone(s, m); var r := s.record;
            s'.nodes[n].running && s'.nodes[m].running <==> r.None? || r.value.owner == m || s.now > r.value.expires
    ensures s.now <= s.nodes[n].until ==> s.record.Some? && s.record.value.owner == n && s.now <= s.record.value.expires
  {
    ReachableInv(s);
    assert NodeOk(s, n);
  }

  // ---- displaced nodes ----

  // The store has just confirmed a write of `n`, and told it so.
  predicate Confirmed(s: State, e: Event, n: Node) {
    e == Write(n) && Enabled(s, e) && Current(s, s.nodes[n].phase.prev)
  }

  predicate Out(ns: NodeState) {
    !ns.running && !ns.phase.Won?
  }

  lemma OutUntilConfirmed(s: State, e: Event, n: Node)
    requires Enabled(s, e) && n in s.nodes && Out(s.nodes[n])
    ensures n in Apply(s, e).nodes && (Out(Apply(s, e).nodes[n]) || Confirmed(s, e, n))
  {
  }

  /** A node that is out (it never led, was told it was displaced, or stepped down) leads
      again only after a write of its own was confirmed in between, which made the record
      its own. */
  lemma {:induction false} LeadsAgainOnlyByClaim(states: seq<State>, events: seq<Event>, i: nat, j: nat, n: Node)
    returns (k: nat)
    requires IsRun(states, events) && i <= j <= |events| && n in states[i].nodes && Out(states[i].nodes[n])
    requires n in states[j].nodes && !Out(states[j].nodes[n])
    ensures i <= k < j && Confirmed(states[k], events[k], n)
    ensures states[k + 1].record.Some? && states[k + 1].record.value.owner == n
    decreases j
  {
    NodesStay(states, events, i);
    NodesStay(states, events, j - 1);
    assert Next(states[j - 1], events[j - 1], states[j]);
    if Out(states[j - 1].nodes[n]) {
      OutUntilConfirmed(states[j - 1], events[j - 1], n);
      k := j - 1;
    } else {
      k := LeadsAgainOnlyByClaim(states, events, i, j - 1, n);
    }
  }

  /** Told "displaced" (a live lease of somebody else, or a conditional write that came too
      late), a node is out from the next step on, and has not touched the record. */
  lemma DisplacedIsOut(states: seq<State>, events: seq<Event>, i: nat, n: Node)
    requires IsRun(states, events) && i < |events| && n in states[i].nodes
    requires (events[i] == Decide(n) && Decision(states[i].nodes[n].phase.snap, n, states[i].now).None?)
             || (events[i].Write? && events[i].n == n && !Current(states[i], states[i].nodes[n].phase.prev))
    ensures n in states[i + 1].nodes && Out(states[i + 1].nodes[n]) && states[i + 1].record == states[i].record
  {
    assert Next(states[i], events[i], states[i + 1]);
  }
}
