/** Leader election over one lease record: any number of nodes, each with separate
    read, decide, stamp and conditional-write steps, a common clock, releases, and
    requests that their sender has given up and that land later, again, or never. The
    store is assumed to hand out fresh handles, to accept a write only against the
    current handle, and to delete only by it. */
module Lease {
  import opened Wrappers

  type Node = nat
  type Handle = nat

  datatype Record = Record(owner: Node, gen: int, expires: int, handle: Handle)

  /** One tryClaim in flight. `prev` is the handle the write will be conditional
      on; None stands for the empty handle, which creates a record. */
  datatype Phase =
    | Idle
    | DidRead(snap: Option<Record>)
    | Claiming(prev: Option<Handle>, gen: int)
    | Stamped(prev: Option<Handle>, gen: int, expires: int)
    | Won
    | ToRelease

  /** `handle` is Discovery's cached handle; `running` that the loop has a local
      leader; `until` the end of the last window this node was told it has. */
  datatype NodeState = NodeState(phase: Phase, handle: Option<Handle>, running: bool, until: int)

  datatype HEvent =
    | Wrote(owner: Node, at: int, expires: int, gen: int)
    | Deleted(who: Node, at: int)

  /** A request whose sender has stopped waiting for the answer. */
  datatype Request =
    | LateWrite(sender: Node, prev: Option<Handle>, gen: int, expires: int)
    | LateDelete(sender: Node, target: Handle)

  datatype State = State(
    ttl: nat,
    now: int,
    record: Option<Record>,
    nextHandle: Handle,
    nodes: map<Node, NodeState>,
    late: set<Request>,
    history: seq<HEvent>)

  datatype Event =
    | Advance(to: int)
    | Read(n: Node)
    | Decide(n: Node)
    | Stamp(n: Node)
    | Write(n: Node)
    | Unreachable(n: Node, agents: nat)
    | StartLeader(n: Node)
    | StopLeader(n: Node)
    | Delete(n: Node, reached: bool)
    | Land(r: Request)

  function Put(s: State, n: Node, ns: NodeState): State {
    s.(nodes := s.nodes[n := ns])
  }

  predicate Current(s: State, h: Option<Handle>) {
    match h
    case None => s.record.None?
    case Some(x) => s.record.Some? && s.record.value.handle == x
  }

  /** tryClaim's decision on what it read: what to write, or None for "somebody
      else holds a live lease". */
  function Decision(snap: Option<Record>, me: Node, now: int): Option<Phase> {
    match snap
    case None => Some(Claiming(None, 1))
    case Some(r) =>
      if r.owner == me then Some(Claiming(Some(r.handle), r.gen))
      else if now > r.expires then Some(Claiming(Some(r.handle), r.gen + 1))
      else None
  }

  // A loop that is told it was displaced stops its leader and keeps the lease alone.
  function Displaced(ns: NodeState): NodeState {
    ns.(phase := Idle, running := false)
  }

  predicate Enabled(s: State, e: Event) {
    match e
    case Advance(to) => to >= s.now
    case Read(n) => n in s.nodes && s.nodes[n].phase.Idle?
    case Decide(n) => n in s.nodes && s.nodes[n].phase.DidRead?
    case Stamp(n) => n in s.nodes && s.nodes[n].phase.Claiming?
    case Write(n) => n in s.nodes && s.nodes[n].phase.Stamped?
    case Unreachable(n, _) => n in s.nodes && InFlight(s.nodes[n].phase)
    case StartLeader(n) => n in s.nodes && s.nodes[n].phase.Won?
    case StopLeader(n) => n in s.nodes && s.nodes[n].phase.Idle? && s.nodes[n].running
    case Delete(n, _) => n in s.nodes && s.nodes[n].phase.ToRelease?
    case Land(r) => r in s.late
  }

  predicate InFlight(p: Phase) {
    p.DidRead? || p.Claiming? || p.Stamped?
  }

  // The store accepts a write of `n`.
  function Written(s: State, n: Node, gen: int, expires: int): State {
    s.(record := Some(Record(n, gen, expires, s.nextHandle)), nextHandle := s.nextHandle + 1,
       history := s.history + [Wrote(n, s.now, expires, gen)])
  }

  // The store carries out a delete of `n`.
  function Erased(s: State, n: Node): State {
    s.(record := None, history := s.history + [Deleted(n, s.now)])
  }

  function Landed(s: State, r: Request): State {
    match r
    case LateWrite(n, prev, gen, expires) => if Current(s, prev) then Written(s, n, gen, expires) else s
    case LateDelete(n, h) => if Current(s, Some(h)) then Erased(s, n) else s
  }

  // A claim that is given up may have sent its write.
  function GaveUp(n: Node, p: Phase): set<Request> {
    if p.Stamped? then {LateWrite(n, p.prev, p.gen, p.expires)} else {}
  }

  function Apply(s: State, e: Event): State
    requires Enabled(s, e)
  {
    match e
    case Advance(to) => s.(now := to)
    case Read(n) => Put(s, n, s.nodes[n].(phase := DidRead(s.record)))
    case Decide(n) =>
      (match Decision(s.nodes[n].phase.snap, n, s.now)
       case Some(p) => Put(s, n, s.nodes[n].(phase := p))
       case None => Put(s, n, Displaced(s.nodes[n])))
    case Stamp(n) =>
      var p := s.nodes[n].phase;
      Put(s, n, s.nodes[n].(phase := Stamped(p.prev, p.gen, s.now + s.ttl)))
    case Write(n) =>
      var p := s.nodes[n].phase;
      if Current(s, p.prev)
      then Put(Written(s, n, p.gen, p.expires), n,
               s.nodes[n].(phase := Won, handle := Some(s.nextHandle), until := p.expires))
      else Put(s, n, Displaced(s.nodes[n]))
    case Unreachable(n, agents) =>
      var ns := s.nodes[n];
      Put(s.(late := s.late + GaveUp(n, ns.phase)), n, ns.(phase := Idle, running := ns.running && agents > 0))
    case StartLeader(n) => Put(s, n, s.nodes[n].(phase := Idle, running := true))
    case StopLeader(n) => Put(s, n, s.nodes[n].(phase := ToRelease, running := false))
    case Delete(n, reached) =>
      var h, ns := s.nodes[n].handle, s.nodes[n].(phase := Idle, handle := None);
      if h.None? then Put(s, n, ns)
      else if reached then Put(Landed(s, LateDelete(n, h.value)), n, ns)
      else Put(s.(late := s.late + {LateDelete(n, h.value)}), n, ns)
    case Land(r) => Landed(s, r)
  }

  predicate Init(s: State) {
    && s.record.None? && s.history == [] && s.late == {}
    && forall n :: n in s.nodes ==> s.nodes[n].phase.Idle? && s.nodes[n].handle.None? && !s.nodes[n].running
  }

  // What a claim in flight may rely on if the record it was based on is still current.
  predicate ClaimOk(s: State, n: Node, prev: Option<Handle>, gen: int) {
    && (prev.None? ==> gen == 1)
    && (Current(s, prev) ==>
      match s.record
      case None => gen == 1
      case Some(r) => if r.owner == n then gen == r.gen else s.now > r.expires && gen == r.gen + 1)
  }

  // Handles are never reused, so no stale handle can become current again.
  predicate Old(s: State, h: Option<Handle>) {
    h.Some? ==> h.value < s.nextHandle
  }

  predicate WriteOk(s: State, n: Node, prev: Option<Handle>, gen: int, expires: int) {
    && Old(s, prev) && ClaimOk(s, n, prev, gen) && expires <= s.now + s.ttl
    && (Current(s, prev) && s.record.Some? ==> s.record.value.expires <= expires)
  }

  // What a release of `n` was sent for is not what `n` has won since.
  predicate Outlives(handle: Option<Handle>, late: set<Request>, n: Node) {
    handle.Some? && forall r | r in late && r.LateDelete? && r.sender == n :: r.target < handle.value
  }

  predicate NodeOk(s: State, n: Node)
    requires n in s.nodes
  {
    var ns := s.nodes[n];
    && Old(s, ns.handle)
    && (ns.handle.Some? && Current(s, ns.handle) ==> s.record.value.owner == n)
    && (match ns.phase
        case DidRead(snap) =>
          snap.Some? ==> snap.value.handle < s.nextHandle &&
                         (s.record.Some? && s.record.value.handle == snap.value.handle ==> s.record == snap)
        case Claiming(prev, gen) => Old(s, prev) && ClaimOk(s, n, prev, gen)
        case Stamped(prev, gen, expires) => WriteOk(s, n, prev, gen, expires)
        case _ => true)
    && (ns.phase.ToRelease? ==> !ns.running)
    && (ns.running || ns.phase.Won? ==> Outlives(ns.handle, s.late, n))
    && ((ns.running || ns.phase.Won?) && s.now <= ns.until ==>
          s.record.Some? && s.record.value.owner == n && ns.until <= s.record.value.expires)
  }

  predicate RequestOk(s: State, r: Request) {
    match r
    case LateWrite(n, prev, gen, expires) => WriteOk(s, n, prev, gen, expires)
    case LateDelete(n, h) =>
      n in s.nodes && h < s.nextHandle && (Current(s, Some(h)) ==> s.record.value.owner == n)
  }

  // The last event is what the record shows.
  predicate Shown(s: State) {
    (s.history != [] ==> s.history[|s.history| - 1].at <= s.now) &&
    match s.record
    case None => s.history == [] || s.history[|s.history| - 1].Deleted?
    case Some(r) =>
      s.history != [] &&
      match s.history[|s.history| - 1]
      case Wrote(owner, at, expires, gen) => owner == r.owner && expires == r.expires && gen == r.gen
      case Deleted(_, _) => false
  }

  /** How one event of the record's history may follow another. */
  predicate Follows(a: HEvent, b: HEvent) {
    match b
    case Wrote(owner, at, expires, gen) =>
      a.at <= at &&
      (match a
       case Deleted(_, _) => gen == 1
       case Wrote(owner', at', expires', gen') =>
         && expires' <= expires
         && (owner == owner' ==> gen == gen')
         && (owner != owner' ==> expires' < at && gen == gen' + 1))
    case Deleted(who, at) => a.at <= at && a.Wrote? && a.owner == who
  }

  predicate HistoryOk(h: seq<HEvent>) {
    && (h != [] ==> h[0].Wrote? && h[0].gen == 1)
    && (forall i | 0 < i < |h| :: Follows(h[i - 1], h[i]))
  }

  // Every write gets the next handle, so what is stored has the last one.
  predicate RecordOk(s: State) {
    && (s.record.Some? ==> s.record.value.handle == s.nextHandle - 1 && s.record.value.expires <= s.now + s.ttl)
    && Shown(s)
    && HistoryOk(s.history)
  }

  predicate NodesOk(s: State) {
    forall n :: n in s.nodes ==> NodeOk(s, n)
  }

  predicate LateOk(s: State) {
    forall r :: r in s.late ==> RequestOk(s, r)
  }

  predicate Inv(s: State) {
    RecordOk(s) && NodesOk(s) && LateOk(s)
  }

  // A step of one node that leaves the record alone.
  lemma KeepLocal(s: State, n: Node, ns: NodeState)
    requires Inv(s) && n in s.nodes && NodeOk(Put(s, n, ns), n)
    ensures Inv(Put(s, n, ns))
  {
    var s' := Put(s, n, ns);
    forall m | m in s'.nodes ensures NodeOk(s', m) {
      assert m != n ==> NodeOk(s, m);
    }
    forall r | r in s'.late ensures RequestOk(s', r) {
      assert RequestOk(s, r);
    }
  }

  lemma KeepAdvance(s: State, to: int)
    requires Inv(s) && to >= s.now
    ensures Inv(s.(now := to))
  {
    var s' := s.(now := to);
    forall m | m in s'.nodes ensures NodeOk(s', m) {
      assert NodeOk(s, m);
    }
    forall r | r in s'.late ensures RequestOk(s', r) {
      assert RequestOk(s, r);
    }
  }

  // A write of `n`, answered or late: whoever else relied on the old record finds its
  // handle no longer current.
  lemma KeepWritten(s: State, n: Node, prev: Option<Handle>, gen: int, expires: int)
    requires Inv(s) && Current(s, prev) && WriteOk(s, n, prev, gen, expires)
    ensures Inv(Written(s, n, gen, expires))
  {
    var s' := Written(s, n, gen, expires);
    forall m | m in s'.nodes ensures NodeOk(s', m) {
      assert NodeOk(s, m);
    }
    forall r | r in s'.late ensures RequestOk(s', r) {
      assert RequestOk(s, r);
    }
    forall i | 0 < i < |s'.history| ensures Follows(s'.history[i - 1], s'.history[i]) {
      assert i < |s.history| ==> Follows(s.history[i - 1], s.history[i]);
    }
  }

  lemma KeepErased(s: State, n: Node)
    requires Inv(s) && n in s.nodes && s.record.Some? && s.record.value.owner == n
    requires !s.nodes[n].running && !s.nodes[n].phase.Won?
    ensures Inv(Erased(s, n))
  {
    var s' := Erased(s, n);
    forall m | m in s'.nodes ensures NodeOk(s', m) {
      assert NodeOk(s, m);
    }
    forall r | r in s'.late ensures RequestOk(s', r) {
      assert RequestOk(s, r);
    }
    forall i | 0 < i < |s'.history| ensures Follows(s'.history[i - 1], s'.history[i]) {
      assert i < |s.history| ==> Follows(s.history[i - 1], s.history[i]);
    }
  }

  // A release that still finds its handle current finds its sender not leading.
  lemma KeepLanded(s: State, r: Request)
    requires Inv(s) && RequestOk(s, r)
    requires r.LateDelete? && Current(s, Some(r.target)) ==> !s.nodes[r.sender].running && !s.nodes[r.sender].phase.Won?
    ensures Inv(Landed(s, r))
  {
    match r
    case LateWrite(n, prev, gen, expires) => if Current(s, prev) { KeepWritten(s, n, prev, gen, expires); }
    case LateDelete(n, h) => if Current(s, Some(h)) { KeepErased(s, n); }
  }

  lemma LateDeleteFindsNoLeader(s: State, r: Request)
    requires Inv(s) && r in s.late && r.LateDelete? && Current(s, Some(r.target))
    ensures r.sender in s.nodes && !s.nodes[r.sender].running && !s.nodes[r.sender].phase.Won?
  {
    assert RequestOk(s, r) && NodeOk(s, r.sender);
  }

  lemma KeepGivenUp(s: State, added: set<Request>)
    requires Inv(s) && forall r | r in added :: RequestOk(s, r)
    requires forall r | r in added && r.LateDelete? ::
               r.sender in s.nodes && !s.nodes[r.sender].running && !s.nodes[r.sender].phase.Won?
    ensures Inv(s.(late := s.late + added))
  {
    var s' := s.(late := s.late + added);
    forall m | m in s'.nodes ensures NodeOk(s', m) {
      assert NodeOk(s, m);
    }
    forall r | r in s'.late ensures RequestOk(s', r) {
      assert RequestOk(s, r);
    }
  }

  lemma KeepWrite(s: State, n: Node)
    requires Inv(s) && Enabled(s, Write(n))
    ensures Inv(Apply(s, Write(n)))
  {
    var p, s' := s.nodes[n].phase, Apply(s, Write(n));
    assert NodeOk(s, n);
    if Current(s, p.prev) {
      KeepWritten(s, n, p.prev, p.gen, p.expires);
      forall r | r in s.late && r.LateDelete? && r.sender == n ensures r.target < s.nextHandle {
        assert RequestOk(s, r);
      }
      KeepLocal(Written(s, n, p.gen, p.expires), n, s'.nodes[n]);
    } else {
      KeepLocal(s, n, Displaced(s.nodes[n]));
    }
  }

  lemma KeepUnreachable(s: State, n: Node, agents: nat)
    requires Inv(s) && Enabled(s, Unreachable(n, agents))
    ensures Inv(Apply(s, Unreachable(n, agents)))
  {
    var added := GaveUp(n, s.nodes[n].phase);
    assert NodeOk(s, n);
    KeepGivenUp(s, added);
    var after := s.(late := s.late + added);
    assert NodeOk(after, n);
    KeepLocal(after, n, Apply(s, Unreachable(n, agents)).nodes[n]);
  }

  lemma KeepDelete(s: State, n: Node, reached: bool)
    requires Inv(s) && Enabled(s, Delete(n, reached))
    ensures Inv(Apply(s, Delete(n, reached)))
  {
    var h, ns := s.nodes[n].handle, s.nodes[n].(phase := Idle, handle := None);
    assert NodeOk(s, n);
    if h.None? {
      KeepLocal(s, n, ns);
    } else {
      var r := LateDelete(n, h.value);
      assert RequestOk(s, r);
      var after := if reached then Landed(s, r) else s.(late := s.late + {r});
      if reached {
        KeepLanded(s, r);
      } else {
        KeepGivenUp(s, {r});
      }
      assert NodeOk(after, n);
      KeepLocal(after, n, ns);
    }
  }

  lemma KeepDecide(s: State, n: Node)
    requires Inv(s) && Enabled(s, Decide(n))
    ensures Inv(Apply(s, Decide(n)))
  {
    assert NodeOk(s, n);
    KeepLocal(s, n, Apply(s, Decide(n)).nodes[n]);
  }

  // A claim that reads, stamps or starts, a leader that stops.
  lemma KeepOwn(s: State, e: Event)
    requires Inv(s) && Enabled(s, e) && (e.Read? || e.Stamp? || e.StartLeader? || e.StopLeader?)
    ensures Inv(Apply(s, e))
  {
    assert NodeOk(s, e.n);
    KeepLocal(s, e.n, Apply(s, e).nodes[e.n]);
  }

  /** Every step of every node, and every request that lands late, keeps the invariant. */
  lemma StepInv(s: State, e: Event)
    requires Inv(s) && Enabled(s, e)
    ensures Inv(Apply(s, e))
  {
    match e
    case Advance(to) => KeepAdvance(s, to);
    case Decide(n) => KeepDecide(s, n);
    case Write(n) => KeepWrite(s, n);
    case Unreachable(n, agents) => KeepUnreachable(s, n, agents);
    case Delete(n, reached) => KeepDelete(s, n, reached);
    case Land(r) =>
      assert RequestOk(s, r);
      if r.LateDelete? && Current(s, Some(r.target)) {
        LateDeleteFindsNoLeader(s, r);
      }
      KeepLanded(s, r);
    case _ => KeepOwn(s, e);
  }
}
