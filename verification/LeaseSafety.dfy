/** What every run of the election keeps, and the one situation in which two nodes
    lead at once. */
module LeaseSafety {
  import opened Wrappers
  import opened Lease

  predicate Next(s: State, e: Event, s': State) {
    Enabled(s, e) && s' == Apply(s, e)
  }

  ghost predicate IsRun(states: seq<State>, events: seq<Event>) {
    && |states| == |events| + 1
    && Init(states[0])
    && forall i {:trigger events[i]} | 0 <= i < |events| :: Next(states[i], events[i], states[i + 1])
  }

  ghost predicate Reachable(s: State) {
    exists states, events :: IsRun(states, events) && states[|events|] == s
  }

  lemma ReachStart(s: State)
    requires Init(s)
    ensures Reachable(s)
  {
    assert IsRun([s], []);
  }

  lemma ReachStep(s: State, e: Event)
    requires Reachable(s) && Enabled(s, e)
    ensures Reachable(Apply(s, e))
  {
    var states, events :| IsRun(states, events) && states[|events|] == s;
    assert IsRun(states + [Apply(s, e)], events + [e]);
  }

  lemma {:induction false} RunInv(states: seq<State>, events: seq<Event>, n: nat)
    requires IsRun(states, events) && n < |states|
    ensures Inv(states[n])
  {
    if n > 0 {
      RunInv(states, events, n - 1);
      assert Next(states[n - 1], events[n - 1], states[n]);
      StepInv(states[n - 1], events[n - 1]);
    }
  }

  lemma ReachableInv(s: State)
    requires Reachable(s)
    ensures Inv(s)
  {
    var states, events :| IsRun(states, events) && states[|events|] == s;
    RunInv(states, events, |events|);
  }

  /** The window of a write starts only after every earlier window of another owner
      is over, unless that owner released its lease in between. */
  lemma WindowsNeverOverlap(s: State, i: nat, j: nat)
    requires Reachable(s) && i < j < |s.history|
    requires s.history[i].Wrote? && s.history[j].Wrote? && s.history[i].owner != s.history[j].owner
    requires forall k | i < k < j :: s.history[k].Wrote? || s.history[k].who != s.history[i].owner
    ensures s.history[i].expires < s.history[j].at
  {
    ReachableInv(s);
    OwnerOrLater(s.history, i, j);
  }

  // Until its owner releases, a window either still belongs to a run of renewals
  // or is over.
  lemma {:induction false} OwnerOrLater(h: seq<HEvent>, i: nat, j: nat)
    requires HistoryOk(h) && i <= j < |h| && h[i].Wrote?
    requires forall k | i < k < j :: h[k].Wrote? || h[k].who != h[i].owner
    requires h[j].Wrote? || h[j].who != h[i].owner
    ensures (h[j].Wrote? && h[j].owner == h[i].owner && h[i].expires <= h[j].expires) || h[i].expires < h[j].at
    decreases j
  {
    if i < j {
      OwnerOrLater(h, i, j - 1);
      assert Follows(h[j - 1], h[j]);
    }
  }

  function OwnerChanges(h: seq<HEvent>, i: nat, j: nat): nat
    requires i <= j < |h|
    requires forall k | i <= k <= j :: h[k].Wrote?
    decreases j
  {
    if i == j then 0 else OwnerChanges(h, i, j - 1) + if h[j].owner != h[j - 1].owner then 1 else 0
  }

  /** Between two deletions the generation counts the changes of owner exactly, and
      it starts at one. */
  lemma GenerationCountsOwners(s: State, i: nat, j: nat)
    requires Reachable(s) && i <= j < |s.history|
    requires forall k | i <= k <= j :: s.history[k].Wrote?
    ensures s.history[j].gen == s.history[i].gen + OwnerChanges(s.history, i, j)
    ensures i == 0 || s.history[i - 1].Deleted? ==> s.history[i].gen == 1
  {
    ReachableInv(s);
    assert i > 0 ==> Follows(s.history[i - 1], s.history[i]);
    CountOwners(s.history, i, j);
  }

  lemma {:induction false} CountOwners(h: seq<HEvent>, i: nat, j: nat)
    requires HistoryOk(h) && i <= j < |h| && forall k | i <= k <= j :: h[k].Wrote?
    ensures h[j].gen == h[i].gen + OwnerChanges(h, i, j)
    decreases j
  {
    if i < j {
      CountOwners(h, i, j - 1);
      assert Follows(h[j - 1], h[j]);
    }
  }

  /** A release, whether it is answered or lands long after its sender gave up, never
      removes a successor's lease, and never that of a sender that leads again. */
  lemma ReleaseIsOwnAndLate(s: State, e: Event)
    requires Reachable(s) && Enabled(s, e) && (e.Delete? || (e.Land? && e.r.LateDelete?))
    ensures var n := if e.Delete? then e.n else e.r.sender;
            Apply(s, e).record != s.record ==>
              n in s.nodes && !s.nodes[n].running && s.record.Some? && s.record.value.owner == n
    ensures e.Delete? ==> !s.nodes[e.n].running
  {
    ReachableInv(s);
    if e.Delete? {
      assert NodeOk(s, e.n);
    } else if Current(s, Some(e.r.target)) {
      LateDeleteFindsNoLeader(s, e.r);
      assert RequestOk(s, e.r);
    }
  }

  /** In every run, with any delays, lost replies, late requests and outages: of all nodes that lead
      or have just won, at most one is still inside its own lease window, and the
      store's record is its lease. */
  lemma OneLeaderInsideItsWindow(s: State, n: Node, m: Node)
    requires Reachable(s) && n in s.nodes && m in s.nodes
    requires s.nodes[n].running || s.nodes[n].phase.Won?
    requires s.nodes[m].running || s.nodes[m].phase.Won?
    requires s.now <= s.nodes[n].until && s.now <= s.nodes[m].until
    ensures n == m && s.record.Some? && s.record.value.owner == n
  {
    ReachableInv(s);
    assert NodeOk(s, n) && NodeOk(s, m);
  }

  // One node claims the lease from start to finish.
  lemma Claims(s: State, n: Node) returns (s': State)
    requires Reachable(s) && n in s.nodes && s.nodes[n].phase.Idle? && Decision(s.record, n, s.now).Some?
    ensures Reachable(s') && s'.now == s.now && s'.ttl == s.ttl
    ensures s'.record.Some? && s'.record.value.owner == n && s'.record.value.expires == s.now + s.ttl
    ensures s'.nodes.Keys == s.nodes.Keys && forall m :: m in s.nodes && m != n ==> s'.nodes[m] == s.nodes[m]
    ensures s'.nodes[n].running && s'.nodes[n].phase.Idle? && s'.nodes[n].until == s.now + s.ttl
  {
    ReachStep(s, Read(n));
    var s1 := Apply(s, Read(n));
    ReachStep(s1, Decide(n));
    var s2 := Apply(s1, Decide(n));
    ReachStep(s2, Stamp(n));
    var s3 := Apply(s2, Stamp(n));
    assert Current(s3, s3.nodes[n].phase.prev);
    ReachStep(s3, Write(n));
    var s4 := Apply(s3, Write(n));
    ReachStep(s4, StartLeader(n));
    s' := Apply(s4, StartLeader(n));
  }

  /** Without timely renewal two nodes do lead at once: the first one loses the store
      but still sees an agent, so it stays leader past its window; the second one
      reaches the store and takes the expired lease over. */
  lemma OutageMakesTwoLeaders(ttl: nat, agents: nat) returns (s: State)
    requires agents > 0
    ensures Reachable(s) && s.nodes.Keys == {0, 1} && s.nodes[0].running && s.nodes[1].running
    ensures s.nodes[0].until < s.now
  {
    var fresh0 := NodeState(Idle, None, false, 0);
    var s0 := State(ttl, 0, None, 0, map[0 := fresh0, 1 := fresh0], {}, []);
    ReachStart(s0);
    var s1 := Claims(s0, 0);
    ReachStep(s1, Advance(ttl + 1));
    var s2 := Apply(s1, Advance(ttl + 1));
    ReachStep(s2, Read(0));
    var s3 := Apply(s2, Read(0));
    ReachStep(s3, Unreachable(0, agents));
    s := Claims(Apply(s3, Unreachable(0, agents)), 1);
  }
}
