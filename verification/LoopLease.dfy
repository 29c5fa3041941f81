/** The tick loop on top of the election: what a call does to the loop's fields and what
    it does to the lease are two views of the same steps. */
module LoopLease {
  import A = AgentLoop
  import opened Lease
  import opened LeaseSafety
  import opened LeaseTiming

  predicate Of(e: Event, n: Node) {
    !e.Advance? && !e.Land? && e.n == n
  }

  /** The steps of node `n` among the events from `i` to `j`, in order. */
  function Own(events: seq<Event>, i: nat, j: nat, n: Node): seq<Event>
    requires i <= j <= |events|
    decreases j
  {
    if i == j then []
    else Own(events, i, j - 1, n) + if Of(events[j - 1], n) then [events[j - 1]] else []
  }

  predicate AsksStore(s: A.LoopState, c: A.Call, self: string) {
    var effects := A.CallSpec(s, c, self).1;
    A.Renew in effects || A.TryClaim in effects
  }

  // One claim from its read on, whatever becomes of it.
  predicate Attempt(own: seq<Event>) {
    own != [] && own[0].Read? && forall k | 0 < k < |own| :: !own[k].Read? && !own[k].StopLeader?
  }

  // How the claim of a call ended is what its last step shows.
  predicate Answers(s: A.LoopState, c: A.Call, last: Event) {
    match c
    case Ends => false
    case BecomesLeaderNow(w) => w.claimOk == last.StartLeader?
    case Ticks(w) =>
      if !s.leading then w.claimOk == last.StartLeader?
      else match w.renewal
           case Renewed => last.StartLeader?
           case Displaced => last.Decide? || last.Write?
           case StoreUnreachable => last.Unreachable? && last.agents == w.agents
  }

  /** The steps `own` of a node are those of the call `c` of its loop. */
  predicate Carried(s: A.LoopState, c: A.Call, self: string, own: seq<Event>) {
    if c.Ends? && s.leading then |own| == 2 && own[0].StopLeader? && own[1].Delete?
    else if AsksStore(s, c, self) then Attempt(own) && Answers(s, c, own[|own| - 1])
    else own == []
  }

  // How far the steps of one call have brought a node that led before it, or did not.
  predicate Reached(own: seq<Event>, before: bool, ns: NodeState) {
    if own == [] then ns.phase.Idle? && ns.running == before
    else
      match own[|own| - 1]
      case Read(_) => ns.phase.DidRead? && ns.running == before
      case Decide(_) => (ns.phase.Claiming? && ns.running == before) || (ns.phase.Idle? && !ns.running)
      case Stamp(_) => ns.phase.Stamped? && ns.running == before
      case Write(_) => (ns.phase.Won? && ns.running == before) || (ns.phase.Idle? && !ns.running)
      case Unreachable(_, agents) => ns.phase.Idle? && ns.running == (before && agents > 0)
      case StartLeader(_) => ns.phase.Idle? && ns.running
      case StopLeader(_) => ns.phase.ToRelease? && !ns.running
      case Delete(_, _) => ns.phase.Idle? && !ns.running
      case _ => false
  }

  // Reads and stops begin a call, everything else continues one.
  predicate OneCall(own: seq<Event>) {
    forall k | 0 < k < |own| :: !own[k].Read? && !own[k].StopLeader?
  }

  lemma StepReached(own: seq<Event>, before: bool, s: State, e: Event, n: Node)
    requires n in s.nodes && Reached(own, before, s.nodes[n]) && Enabled(s, e) && Of(e, n)
    requires e.Read? || e.StopLeader? ==> own == []
    ensures n in Apply(s, e).nodes && Reached(own + [e], before, Apply(s, e).nodes[n])
  {
  }

  lemma StepOfOthers(s: State, e: Event, n: Node)
    requires n in s.nodes && Enabled(s, e) && !Of(e, n)
    ensures n in Apply(s, e).nodes && Apply(s, e).nodes[n] == s.nodes[n]
  {
  }

  lemma {:induction false} StretchReached(states: seq<State>, events: seq<Event>, i: nat, j: nat, n: Node)
    requires IsRun(states, events) && i <= j <= |events| && OneCall(Own(events, i, j, n))
    requires n in states[i].nodes && states[i].nodes[n].phase.Idle?
    ensures n in states[j].nodes && Reached(Own(events, i, j, n), states[i].nodes[n].running, states[j].nodes[n])
    decreases j
  {
    if i < j {
      var earlier, all, e := Own(events, i, j - 1, n), Own(events, i, j, n), events[j - 1];
      assert forall k | 0 <= k < |earlier| :: all[k] == earlier[k];
      StretchReached(states, events, i, j - 1, n);
      assert Next(states[j - 1], e, states[j]);
      if Of(e, n) {
        assert all[|earlier|] == e;
        StepReached(earlier, states[i].nodes[n].running, states[j - 1], e, n);
      } else {
        StepOfOthers(states[j - 1], e, n);
      }
    }
  }

  /** Whatever other nodes do meanwhile: if a node has a local leader exactly if its loop
      says so, and the node's steps are those of one call, then the same holds after it. */
  lemma CallKeepsAgreement(states: seq<State>, events: seq<Event>, i: nat, j: nat, n: Node,
                           s: A.LoopState, c: A.Call, self: string)
    requires IsRun(states, events) && i <= j <= |events| && Carried(s, c, self, Own(events, i, j, n))
    requires n in states[i].nodes && states[i].nodes[n].phase.Idle? && states[i].nodes[n].running == s.leading
    requires n in states[j].nodes && states[j].nodes[n].phase.Idle?
    ensures states[j].nodes[n].running == A.CallSpec(s, c, self).0.leading
  {
    StretchReached(states, events, i, j, n);
    EndOfCall(Own(events, i, j, n), states[j].nodes[n], s, c, self);
  }

  lemma EndOfCall(own: seq<Event>, ns: NodeState, s: A.LoopState, c: A.Call, self: string)
    requires Carried(s, c, self, own) && Reached(own, s.leading, ns) && ns.phase.Idle?
    ensures ns.running == A.CallSpec(s, c, self).0.leading
  {
  }

  /** A loop on a node: call number k takes the events from `cuts[k]` to `cuts[k + 1]`. */
  datatype Part = Part(n: Node, self: string, calls: seq<A.Call>, cuts: seq<nat>)

  function LoopAt(p: Part, k: nat): A.LoopState
    requires k <= |p.calls|
  {
    A.After(A.FRESH, p.calls, p.self, k)
  }

  /** The run carries the loop `p`. */
  ghost predicate Carries(states: seq<State>, events: seq<Event>, p: Part) {
    && IsRun(states, events) && p.n in states[0].nodes
    && |p.cuts| == |p.calls| + 1 && p.cuts[0] == 0
    && forall k {:trigger p.calls[k]} | 0 <= k < |p.calls| ::
         && p.cuts[k] <= p.cuts[k + 1] <= |events|
         && p.n in states[p.cuts[k + 1]].nodes && states[p.cuts[k + 1]].nodes[p.n].phase.Idle?
         && Carried(LoopAt(p, k), p.calls[k], p.self, Own(events, p.cuts[k], p.cuts[k + 1], p.n))
  }

  /** Over whole runs: between any two calls a node has a local leader if and only if the
      field of its loop says so. */
  lemma {:induction false} LoopsTellTheTruth(states: seq<State>, events: seq<Event>, p: Part, k: nat)
    requires Carries(states, events, p) && k <= |p.calls|
    ensures p.cuts[k] <= |events| && p.n in states[p.cuts[k]].nodes && states[p.cuts[k]].nodes[p.n].phase.Idle?
    ensures states[p.cuts[k]].nodes[p.n].running <==> LoopAt(p, k).leading
  {
    if k > 0 {
      LoopsTellTheTruth(states, events, p, k - 1);
      A.AfterCall(A.FRESH, p.calls, p.self, k - 1);
      CallKeepsAgreement(states, events, p.cuts[k - 1], p.cuts[k], p.n, LoopAt(p, k - 1), p.calls[k - 1], p.self);
    }
  }

  /** So under the tick schedule at most one loop leads. */
  lemma OneLoopLeads(states: seq<State>, events: seq<Event>, interval: nat, delay: nat,
                     p: Part, q: Part, k: nat, l: nat)
    requires TimelyRun(states, events, interval, delay) && interval + delay < states[0].ttl
    requires Carries(states, events, p) && k <= |p.calls| && Carries(states, events, q) && l <= |q.calls|
    requires p.cuts[k] == q.cuts[l] && LoopAt(p, k).leading && LoopAt(q, l).leading
    ensures p.n == q.n
  {
    LoopsTellTheTruth(states, events, p, k);
    LoopsTellTheTruth(states, events, q, l);
    RunPunctual(states, events, p.cuts[k], p.n, interval, delay);
    TimelyTicksMeanOneLeader(states, events, p.cuts[k], p.n, q.n, interval, delay);
  }

  const ALL_WELL := A.World("", A.Renewed, 0, A.BeatOk, true, true)
  const FIRST := Part(0, "a", [A.BecomesLeaderNow(ALL_WELL)], [0, 5])

  /** Such loops exist, and one comes to lead. */
  lemma LeadingLoopsExist(ttl: nat) returns (states: seq<State>)
    ensures Carries(states, FIRST_CLAIM, FIRST) && LoopAt(FIRST, 1).leading
  {
    states := TimelyRunsExist(ttl);
    assert 0 in states[5].nodes && states[5].nodes[0].phase.Idle? by {
      NodesStay(states, FIRST_CLAIM, 6);
      OwnFirst();
      StretchReached(states, FIRST_CLAIM, 0, 5, 0);
    }
    NodesStay(states, FIRST_CLAIM, 6);
    OwnFirst();
    FirstIsCarried();
    A.AfterCall(A.FRESH, FIRST.calls, "a", 0);
  }

  lemma FirstIsCarried()
    ensures Carried(A.FRESH, FIRST.calls[0], "a", FIRST_CLAIM[..5])
  {
    assert A.CallSpec(A.FRESH, FIRST.calls[0], "a").1[0] == A.TryClaim;
  }

  lemma OwnFirst()
    ensures Own(FIRST_CLAIM, 0, 5, 0) == FIRST_CLAIM[..5]
  {
    assert Own(FIRST_CLAIM, 0, 0, 0) == [];
    assert Own(FIRST_CLAIM, 0, 1, 0) == FIRST_CLAIM[..1];
    assert Own(FIRST_CLAIM, 0, 2, 0) == FIRST_CLAIM[..2];
    assert Own(FIRST_CLAIM, 0, 3, 0) == FIRST_CLAIM[..3];
    assert Own(FIRST_CLAIM, 0, 4, 0) == FIRST_CLAIM[..4];
  }
}
