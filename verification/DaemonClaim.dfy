/** Any number of reconcilers of one daemon job, interleaved step by step. All of them
    talk to the state loop through one first-in first-out queue of operations. */
module DaemonClaim {
  import opened Wrappers
  import opened Dispatch
  import opened Reconcile

  datatype Op = ClaimQuery(who: nat) | MissingQuery(who: nat) | TrackOp(agent: AgentId) | UnlockOp(who: nat)

  datatype Phase =
    | Idle
    | Claiming(agents: seq<AgentId>)
    | Granted(agents: seq<AgentId>)
    | Waiting(agents: seq<AgentId>)
    | Sending(need: seq<AgentId>, at: nat)
    | Tracking(need: seq<AgentId>, at: nat)
    | Leaving

  // `holder`, `accepts` and `losses` are history: who was granted the claim, how often
  // each agent accepted the job, and how often the books lost a placement there: to a
  // hand-back, a preemption, the agent's removal or a deletion of the job.
  datatype State = State(job: JobName, queue: seq<Op>, claimed: bool, placed: Books, phases: map<nat, Phase>,
                         holder: Option<nat>, accepts: map<AgentId, nat>, losses: map<AgentId, nat>)

  datatype Event =
    | EvStart(who: nat, agents: seq<AgentId>)
    | EvProcess
    | EvAsk(who: nat)
    | EvSend(who: nat, accepted: bool)
    | EvTrack(who: nat)
    | EvLeave(who: nat)
    | EvHandBack(agent: AgentId)
    | EvForget(agent: AgentId)
    | EvWipe
    | EvClearClaim

  function PhaseOf(s: State, p: nat): Phase {
    PhaseIn(s.phases, p)
  }

  function PhaseIn(phases: map<nat, Phase>, p: nat): Phase {
    if p in phases then phases[p] else Idle
  }

  function Get(m: map<AgentId, nat>, a: AgentId): nat {
    if a in m then m[a] else 0
  }

  function Bump(m: map<AgentId, nat>, a: AgentId): map<AgentId, nat> {
    m[a := Get(m, a) + 1]
  }

  predicate Enabled(s: State, e: Event) {
    match e
    case EvStart(p, agents) => PhaseOf(s, p).Idle? && Distinct(agents)
    case EvProcess => s.queue != []
    case EvAsk(p) => PhaseOf(s, p).Granted?
    case EvSend(p, _) => var f := PhaseOf(s, p); f.Sending? && f.at < |f.need|
    case EvTrack(p) => PhaseOf(s, p).Tracking?
    case EvLeave(p) => var f := PhaseOf(s, p); f.Sending? && f.at >= |f.need|
    case EvHandBack(_) => true
    case EvForget(_) => true
    case EvWipe => true
    case EvClearClaim => true
  }

  function Processed(s: State, op: Op): State {
    match op
    case ClaimQuery(p) =>
      var f := PhaseOf(s, p);
      if !f.Claiming? then s
      else if s.claimed then s.(phases := s.phases[p := Idle])
      else s.(claimed := true, holder := Some(p), phases := s.phases[p := Granted(f.agents)])
    case MissingQuery(p) =>
      var f := PhaseOf(s, p);
      if !f.Waiting? then s
      else s.(phases := s.phases[p := Sending(Missing(s.placed, f.agents, s.job), 0)])
    case TrackOp(a) => s.(placed := Track(s.placed, a, s.job))
    case UnlockOp(p) => s.(claimed := false, holder := None, phases := s.phases[p := Idle])
  }

  function Lost(s: State, a: AgentId): map<AgentId, nat> {
    if Count(s.placed, a, s.job) > 0 then Bump(s.losses, a) else s.losses
  }

  function Apply(s: State, e: Event): State
    requires Enabled(s, e)
  {
    match e
    case EvStart(p, agents) => s.(queue := s.queue + [ClaimQuery(p)], phases := s.phases[p := Claiming(agents)])
    case EvProcess => Processed(s.(queue := s.queue[1..]), s.queue[0])
    case EvAsk(p) => s.(queue := s.queue + [MissingQuery(p)], phases := s.phases[p := Waiting(PhaseOf(s, p).agents)])
    case EvSend(p, accepted) =>
      var f := PhaseOf(s, p);
      if accepted
      then s.(accepts := Bump(s.accepts, f.need[f.at]), phases := s.phases[p := Tracking(f.need, f.at)])
      else s.(phases := s.phases[p := Sending(f.need, f.at + 1)])
    case EvTrack(p) =>
      var f := PhaseOf(s, p);
      if f.at < |f.need|
      then s.(queue := s.queue + [TrackOp(f.need[f.at])], phases := s.phases[p := Sending(f.need, f.at + 1)])
      else s
    case EvLeave(p) => s.(queue := s.queue + [UnlockOp(p)], phases := s.phases[p := Leaving])
    // A hand-back that finds nothing booked loses nothing.
    case EvHandBack(a) => s.(placed := Untrack(s.placed, a, s.job), losses := Lost(s, a))
    // A preemption, or the removal of the agent's whole row, as far as this job goes.
    case EvForget(a) => s.(placed := Forget(s.placed, a, s.job), losses := Lost(s, a))
    // The two steps of a deletion: the job leaves every row, and the claim is cleared,
    // whoever holds it.
    case EvWipe =>
      s.(placed := map a | a in s.placed :: s.placed[a] - {s.job},
         losses := map a | a in s.losses.Keys + s.placed.Keys ::
                     Get(s.losses, a) + if Count(s.placed, a, s.job) > 0 then 1 else 0)
    case EvClearClaim => s.(claimed := false, holder := None)
  }

  // ---- invariant ----

  predicate Holds(f: Phase) {
    f.Granted? || f.Waiting? || f.Sending? || f.Tracking? || f.Leaving?
  }

  function HolderPhase(s: State): Phase {
    if s.holder.Some? then PhaseOf(s, s.holder.value) else Idle
  }

  ghost predicate HolderOk(s: State) {
    && s.claimed == s.holder.Some?
    && (s.holder.Some? ==> Holds(PhaseOf(s, s.holder.value)))
    && OneHolder(s.phases, s.holder)
    && ListsDistinct(s.phases)
  }

  ghost predicate OneHolder(phases: map<nat, Phase>, holder: Option<nat>) {
    forall p: nat :: Holds(PhaseIn(phases, p)) ==> holder == Some(p)
  }

  ghost predicate ListsDistinct(phases: map<nat, Phase>) {
    forall p: nat :: ListDistinct(PhaseIn(phases, p))
  }

  predicate ListDistinct(f: Phase) {
    f.Claiming? || f.Granted? || f.Waiting? ==> Distinct(f.agents)
  }

  lemma PhaseChange(phases: map<nat, Phase>, p: nat, g: Phase, holder: Option<nat>, holder': Option<nat>)
    requires OneHolder(phases, holder) && ListsDistinct(phases) && ListDistinct(g)
    requires holder' == holder || holder == None || holder == Some(p)
    requires Holds(g) ==> holder' == Some(p)
    requires holder == None ==> holder' == None || holder' == Some(p)
    ensures OneHolder(phases[p := g], holder') && ListsDistinct(phases[p := g])
  {
    var after := phases[p := g];
    assert forall q: nat :: PhaseIn(after, q) == if q == p then g else PhaseIn(phases, q);
    forall q: nat | Holds(PhaseIn(after, q)) ensures holder' == Some(q) {
      assert q != p ==> Holds(PhaseIn(phases, q));
    }
  }

  // Tracks are queued by a holder that has started sending, and always ahead of its unlock.
  ghost predicate QueueOk(queue: seq<Op>, holder: Option<nat>, f: Phase) {
    && (forall i | 0 <= i < |queue| :: queue[i].TrackOp? ==> f.Sending? || f.Tracking? || f.Leaving?)
    && (forall i | 0 <= i < |queue| :: queue[i].UnlockOp? ==> f.Leaving? && holder == Some(queue[i].who))
    && (forall i, k | 0 <= i < k < |queue| :: queue[i].UnlockOp? ==> !queue[k].TrackOp? && !queue[k].UnlockOp?)
  }

  function Queued(queue: seq<Op>, a: AgentId): nat {
    if queue == [] then 0 else (if queue[0] == TrackOp(a) then 1 else 0) + Queued(queue[1..], a)
  }

  // Whom the holder still has to ask is neither booked nor about to be.
  ghost predicate NeedOk(placed: Books, j: JobName, queue: seq<Op>, f: Phase) {
    f.Sending? || f.Tracking? ==>
      && f.at <= |f.need| && Distinct(f.need) && (f.Tracking? ==> f.at < |f.need|)
      && forall k | f.at <= k < |f.need| :: Count(placed, f.need[k], j) == 0 && Queued(queue, f.need[k]) == 0
  }

  predicate Accepting(f: Phase, a: AgentId) {
    f.Tracking? && f.at < |f.need| && f.need[f.at] == a
  }

  function Load(placed: Books, j: JobName, queue: seq<Op>, f: Phase, a: AgentId): nat {
    Count(placed, a, j) + Queued(queue, a) + if Accepting(f, a) then 1 else 0
  }

  ghost predicate CountOk(s: State) {
    forall a :: AgentOk(s, a)
  }

  predicate AgentOk(s: State, a: AgentId) {
    var load := Load(s.placed, s.job, s.queue, HolderPhase(s), a);
    load <= 1 && Get(s.accepts, a) <= load + Get(s.losses, a)
  }

  ghost predicate Inv(s: State) {
    && HolderOk(s)
    && QueueOk(s.queue, s.holder, HolderPhase(s))
    && NeedOk(s.placed, s.job, s.queue, HolderPhase(s))
    && CountOk(s)
  }

  lemma {:induction false} QueuedAppend(queue: seq<Op>, op: Op, a: AgentId)
    ensures Queued(queue + [op], a) == Queued(queue, a) + if op == TrackOp(a) then 1 else 0
  {
    if queue == [] {
      assert [op][1..] == [];
      assert queue + [op] == [op];
    } else {
      QueuedAppend(queue[1..], op, a);
      assert (queue + [op])[1..] == queue[1..] + [op];
    }
  }

  lemma {:induction false} NoTracksNoneQueued(queue: seq<Op>, a: AgentId)
    requires forall i | 0 <= i < |queue| :: !queue[i].TrackOp?
    ensures Queued(queue, a) == 0
  {
    if queue != [] {
      assert !queue[0].TrackOp?;
      forall i | 0 <= i < |queue[1..]| ensures !queue[1..][i].TrackOp? {
        assert queue[1..][i] == queue[i + 1];
      }
      NoTracksNoneQueued(queue[1..], a);
    }
  }

  lemma QueueTail(queue: seq<Op>, holder: Option<nat>, f: Phase)
    requires queue != [] && QueueOk(queue, holder, f)
    ensures QueueOk(queue[1..], holder, f)
    ensures queue[0].UnlockOp? ==>
              forall i | 0 <= i < |queue[1..]| :: !queue[1..][i].TrackOp? && !queue[1..][i].UnlockOp?
  {
    var rest := queue[1..];
    assert forall i | 0 <= i < |rest| :: rest[i] == queue[i + 1];
  }

  lemma ClaimInv(s: State, p: nat)
    requires Inv(s) && s.queue != [] && s.queue[0] == ClaimQuery(p)
    ensures Inv(Apply(s, EvProcess))
  {
    var s' := Apply(s, EvProcess);
    QueueTail(s.queue, s.holder, HolderPhase(s));
    forall a ensures AgentOk(s', a) {
      assert AgentOk(s, a);
    }
    assert ListDistinct(PhaseOf(s, p));
    if PhaseOf(s, p).Claiming? {
      PhaseChange(s.phases, p, PhaseOf(s', p), s.holder, s'.holder);
      assert HolderPhase(s') == if s.claimed then HolderPhase(s) else Granted(PhaseOf(s, p).agents);
    }
  }

  lemma MissingInv(s: State, p: nat)
    requires Inv(s) && s.queue != [] && s.queue[0] == MissingQuery(p)
    ensures Inv(Apply(s, EvProcess))
  {
    var s' := Apply(s, EvProcess);
    QueueTail(s.queue, s.holder, HolderPhase(s));
    forall a ensures AgentOk(s', a) {
      assert AgentOk(s, a);
    }
    var f := PhaseOf(s, p);
    assert ListDistinct(f);
    if f.Waiting? {
      PhaseChange(s.phases, p, PhaseOf(s', p), s.holder, s'.holder);
      MissingOnes(s.placed, f.agents, s.job);
      assert forall i | 0 <= i < |s.queue| :: !s.queue[i].TrackOp?;
      forall a ensures Queued(s'.queue, a) == 0 {
        NoTracksNoneQueued(s.queue[1..], a);
      }
      forall k | 0 <= k < |HolderPhase(s').need| ensures Count(s.placed, HolderPhase(s').need[k], s.job) == 0 {
        assert HolderPhase(s').need[k] in Missing(s.placed, f.agents, s.job);
      }
    }
  }

  lemma TrackInv(s: State, t: AgentId)
    requires Inv(s) && s.queue != [] && s.queue[0] == TrackOp(t)
    ensures Inv(Apply(s, EvProcess))
  {
    var s' := Apply(s, EvProcess);
    QueueTail(s.queue, s.holder, HolderPhase(s));
    assert HolderPhase(s') == HolderPhase(s);
    forall a ensures AgentOk(s', a) {
      assert AgentOk(s, a);
    }
    assert Queued(s.queue, t) > 0;
  }

  lemma UnlockInv(s: State, p: nat)
    requires Inv(s) && s.queue != [] && s.queue[0] == UnlockOp(p)
    ensures Inv(Apply(s, EvProcess))
  {
    var s' := Apply(s, EvProcess);
    QueueTail(s.queue, s.holder, HolderPhase(s));
    PhaseChange(s.phases, p, Idle, s.holder, None);
    forall a ensures AgentOk(s', a) {
      assert AgentOk(s, a);
    }
  }

  lemma QueueAppend(queue: seq<Op>, op: Op, holder: Option<nat>, f: Phase, g: Phase)
    requires QueueOk(queue, holder, f) && !f.Leaving?
    requires (f.Sending? || f.Tracking?) ==> (g.Sending? || g.Tracking? || g.Leaving?)
    requires op.TrackOp? ==> g.Sending? || g.Tracking?
    requires op.UnlockOp? ==> g.Leaving? && holder == Some(op.who)
    ensures QueueOk(queue + [op], holder, g)
  {
    var all := queue + [op];
    assert forall i | 0 <= i < |queue| :: all[i] == queue[i] && !queue[i].UnlockOp?;
  }

  // Queries change neither books nor tracks, whoever queues them.
  lemma QueueQuery(queue: seq<Op>, op: Op, holder: Option<nat>, f: Phase)
    requires QueueOk(queue, holder, f) && !op.TrackOp? && !op.UnlockOp?
    ensures QueueOk(queue + [op], holder, f)
  {
    var all := queue + [op];
    assert forall i | 0 <= i < |queue| :: all[i] == queue[i];
  }

  lemma StartInv(s: State, p: nat, agents: seq<AgentId>)
    requires Inv(s) && Enabled(s, EvStart(p, agents))
    ensures Inv(Apply(s, EvStart(p, agents)))
  {
    var s' := Apply(s, EvStart(p, agents));
    PhaseChange(s.phases, p, PhaseOf(s', p), s.holder, s'.holder);
    assert HolderPhase(s') == HolderPhase(s);
    QueueQuery(s.queue, ClaimQuery(p), s.holder, HolderPhase(s));
    forall a ensures Queued(s'.queue, a) == Queued(s.queue, a) && AgentOk(s', a) {
      QueuedAppend(s.queue, ClaimQuery(p), a);
      assert AgentOk(s, a);
    }
  }

  lemma AskInv(s: State, p: nat)
    requires Inv(s) && Enabled(s, EvAsk(p))
    ensures Inv(Apply(s, EvAsk(p)))
  {
    var s' := Apply(s, EvAsk(p));
    assert ListDistinct(PhaseOf(s, p));
    PhaseChange(s.phases, p, PhaseOf(s', p), s.holder, s'.holder);
    QueueAppend(s.queue, MissingQuery(p), s.holder, HolderPhase(s), HolderPhase(s'));
    forall a ensures AgentOk(s', a) {
      QueuedAppend(s.queue, MissingQuery(p), a);
      assert AgentOk(s, a);
    }
  }

  lemma SendInv(s: State, p: nat, accepted: bool)
    requires Inv(s) && Enabled(s, EvSend(p, accepted))
    ensures Inv(Apply(s, EvSend(p, accepted)))
  {
    var s' := Apply(s, EvSend(p, accepted));
    PhaseChange(s.phases, p, PhaseOf(s', p), s.holder, s'.holder);
    var f := PhaseOf(s, p);
    assert s.holder == Some(p) && HolderPhase(s) == f && HolderPhase(s') == PhaseOf(s', p);
    forall a ensures AgentOk(s', a) {
      assert AgentOk(s, a);
    }
  }

  lemma TrackingInv(s: State, p: nat)
    requires Inv(s) && Enabled(s, EvTrack(p))
    ensures Inv(Apply(s, EvTrack(p)))
  {
    var s' := Apply(s, EvTrack(p));
    PhaseChange(s.phases, p, PhaseOf(s', p), s.holder, s'.holder);
    var f := PhaseOf(s, p);
    assert s.holder == Some(p) && HolderPhase(s) == f;
    var op := TrackOp(f.need[f.at]);
    QueueAppend(s.queue, op, s.holder, f, HolderPhase(s'));
    forall a ensures Queued(s'.queue, a) == Queued(s.queue, a) + (if a == op.agent then 1 else 0) && AgentOk(s', a) {
      QueuedAppend(s.queue, op, a);
      assert AgentOk(s, a);
    }
  }

  lemma LeaveInv(s: State, p: nat)
    requires Inv(s) && Enabled(s, EvLeave(p))
    ensures Inv(Apply(s, EvLeave(p)))
  {
    var s' := Apply(s, EvLeave(p));
    PhaseChange(s.phases, p, PhaseOf(s', p), s.holder, s'.holder);
    assert s.holder == Some(p);
    QueueAppend(s.queue, UnlockOp(p), s.holder, HolderPhase(s), HolderPhase(s'));
    forall a ensures AgentOk(s', a) {
      QueuedAppend(s.queue, UnlockOp(p), a);
      assert AgentOk(s, a);
    }
  }

  lemma HandBackInv(s: State, b: AgentId)
    requires Inv(s)
    ensures Inv(Apply(s, EvHandBack(b)))
  {
    var s' := Apply(s, EvHandBack(b));
    assert HolderPhase(s') == HolderPhase(s);
    forall a ensures AgentOk(s', a) {
      assert AgentOk(s, a);
    }
  }

  lemma ForgetInv(s: State, b: AgentId)
    requires Inv(s)
    ensures Inv(Apply(s, EvForget(b)))
  {
    var s' := Apply(s, EvForget(b));
    assert HolderPhase(s') == HolderPhase(s);
    forall a ensures AgentOk(s', a) {
      assert AgentOk(s, a);
    }
  }

  lemma WipeInv(s: State)
    requires Inv(s)
    ensures Inv(Apply(s, EvWipe))
  {
    var s' := Apply(s, EvWipe);
    assert HolderPhase(s') == HolderPhase(s);
    forall a ensures Count(s'.placed, a, s.job) == 0 && AgentOk(s', a) {
      assert AgentOk(s, a);
    }
  }

  /** Clearing the claim, the last step of a deletion, keeps the invariant exactly when
      nobody holds it. */
  lemma ClearClaimKeepsIff(s: State)
    requires Inv(s)
    ensures Inv(Apply(s, EvClearClaim)) <==> !s.claimed
  {
    var s' := Apply(s, EvClearClaim);
    if s.claimed {
      assert Holds(PhaseOf(s', s.holder.value));
    } else {
      assert s' == s;
    }
  }

  lemma StepInv(s: State, e: Event)
    requires Inv(s) && Enabled(s, e) && (e.EvClearClaim? ==> !s.claimed)
    ensures Inv(Apply(s, e))
  {
    match e
    case EvStart(p, agents) => StartInv(s, p, agents);
    case EvProcess =>
      match s.queue[0] {
        case ClaimQuery(p) => ClaimInv(s, p);
        case MissingQuery(p) => MissingInv(s, p);
        case TrackOp(a) => TrackInv(s, a);
        case UnlockOp(p) => UnlockInv(s, p);
      }
    case EvAsk(p) => AskInv(s, p);
    case EvSend(p, accepted) => SendInv(s, p, accepted);
    case EvTrack(p) => TrackingInv(s, p);
    case EvLeave(p) => LeaveInv(s, p);
    case EvHandBack(a) => HandBackInv(s, a);
    case EvForget(a) => ForgetInv(s, a);
    case EvWipe => WipeInv(s);
    case EvClearClaim => ClearClaimKeepsIff(s);
  }

  // ---- runs ----

  // A leader that knows of nothing yet; every earlier placement is in `placed`, at most
  // one per agent.
  ghost predicate Init(s: State) {
    && s.queue == [] && !s.claimed && s.holder == None && s.phases == map[]
    && s.accepts == map[] && s.losses == map[]
    && forall a :: Count(s.placed, a, s.job) <= 1
  }

  ghost predicate IsRun(states: seq<State>, events: seq<Event>) {
    && |states| == |events| + 1 && Init(states[0])
    && forall i {:trigger events[i]} | 0 <= i < |events| ::
         Enabled(states[i], events[i]) && states[i + 1] == Apply(states[i], events[i])
  }

  // Deletions clear the claim only when nobody holds it.
  ghost predicate PoliteRun(states: seq<State>, events: seq<Event>) {
    && IsRun(states, events)
    && forall i {:trigger events[i]} | 0 <= i < |events| :: events[i].EvClearClaim? ==> !states[i].claimed
  }

  lemma {:induction false} RunInv(states: seq<State>, events: seq<Event>, n: nat)
    requires PoliteRun(states, events) && n < |states|
    ensures Inv(states[n])
  {
    if n == 0 {
      forall a ensures AgentOk(states[0], a) {
        assert Count(states[0].placed, a, states[0].job) <= 1;
      }
    } else {
      RunInv(states, events, n - 1);
      StepInv(states[n - 1], events[n - 1]);
    }
  }

  /** However reconciles of a daemon interleave with hand-backs, preemptions, removals of
      agents and deletions that find the claim free, an agent accepts it at most once, plus
      once for every placement the books lost there; only the holder of the claim is past
      it, and at most one instance is booked. */
  lemma AcceptedAtMostOnce(states: seq<State>, events: seq<Event>, n: nat, a: AgentId)
    requires PoliteRun(states, events) && n < |states|
    ensures Get(states[n].accepts, a) <= 1 + Get(states[n].losses, a)
    ensures Count(states[n].placed, a, states[n].job) <= 1
    ensures forall p: nat, q: nat :: Holds(PhaseOf(states[n], p)) && Holds(PhaseOf(states[n], q)) ==> p == q
  {
    RunInv(states, events, n);
    assert AgentOk(states[n], a);
  }

  // ---- a deletion of the name ----

  ghost predicate Leads(s: State, t: State) {
    exists events :: Plays(s, events) == Some(t)
  }

  function Plays(s: State, events: seq<Event>): Option<State>
    decreases |events|
  {
    if events == [] then Some(s)
    else if !Enabled(s, events[0]) then None
    else Plays(Apply(s, events[0]), events[1..])
  }

  lemma {:induction false} PlaysThen(s: State, first: seq<Event>, rest: seq<Event>)
    requires Plays(s, first).Some?
    ensures Plays(s, first + rest) == Plays(Plays(s, first).value, rest)
    decreases |first|
  {
    if first == [] {
      assert first + rest == rest;
    } else {
      assert (first + rest)[1..] == first[1..] + rest;
      PlaysThen(Apply(s, first[0]), first[1..], rest);
    }
  }

  lemma OneMore(s: State, t: State, e: Event)
    requires Leads(s, t) && Enabled(t, e)
    ensures Leads(s, Apply(t, e))
  {
    var events :| Plays(s, events) == Some(t);
    PlaysThen(s, events, [e]);
    assert [e][1..] == [];
    assert Plays(t, [e]) == Some(Apply(t, e));
  }

  lemma GetsClaim(s: State, p: nat, a: AgentId) returns (t: State)
    requires s.queue == [] && !s.claimed && PhaseOf(s, p).Idle?
    ensures Leads(s, t)
    ensures t == s.(claimed := true, holder := Some(p), phases := s.phases[p := Granted([a])])
  {
    assert Plays(s, []) == Some(s);
    OneMore(s, s, EvStart(p, [a]));
    t := Apply(s, EvStart(p, [a]));
    OneMore(s, t, EvProcess);
    t := Apply(t, EvProcess);
  }

  /** What breaks is mutual exclusion itself: cleared under its holder, with nothing queued
      and another reconcile to come, the claim is granted a second time while the first
      holder is still past it. */
  lemma ClearedClaimIsGrantedTwice(s: State, q: nat, a: AgentId) returns (t: State)
    requires Inv(s) && s.claimed && s.queue == [] && PhaseOf(s, q).Idle?
    ensures Leads(s, t) && s.holder.Some? && s.holder.value != q
    ensures Holds(PhaseOf(t, s.holder.value)) && Holds(PhaseOf(t, q))
    ensures t.holder == Some(q) && t.placed == s.placed
  {
    assert Plays(s, []) == Some(s);
    OneMore(s, s, EvClearClaim);
    var cleared := Apply(s, EvClearClaim);
    t := GetsClaim(cleared, q, a);
    LeadsThen(s, cleared, t);
  }

  // A reconcile that finds the claim free and nothing of the job on `a` gets it there.
  lemma ReconcileAccepts(s: State, p: nat, a: AgentId) returns (t: State)
    requires s.queue == [] && !s.claimed && PhaseOf(s, p).Idle? && Count(s.placed, a, s.job) == 0
    ensures Leads(s, t)
    ensures t == s.(claimed := true, holder := Some(p), phases := t.phases, accepts := Bump(s.accepts, a))
    ensures PhaseOf(t, p) == Tracking([a], 0) && forall q: nat | q != p :: PhaseOf(t, q) == PhaseOf(s, q)
  {
    t := GetsClaim(s, p, a);
    OneMore(s, t, EvAsk(p));
    t := Apply(t, EvAsk(p));
    OneMore(s, t, EvProcess);
    t := Apply(t, EvProcess);
    assert [a][1..] == [] && Missing(s.placed, [a], s.job) == [a];
    OneMore(s, t, EvSend(p, true));
    t := Apply(t, EvSend(p, true));
  }

  /** A deletion in the middle of a reconcile, followed by a new submission of the name:
      the claim is cleared under its holder, whose acceptance is not in the books yet,
      and the same agent accepts twice although no placement of it was ever lost. */
  lemma DeletionBreaksTheClaim(s: State, a: AgentId) returns (t: State)
    requires Init(s) && Count(s.placed, a, s.job) == 0
    ensures Leads(s, t) && Get(t.accepts, a) == 2 && Get(t.losses, a) == 0
    ensures PhaseOf(t, 0).Tracking? && PhaseOf(t, 1).Tracking?
  {
    var s1 := ReconcileAccepts(s, 0, a);
    OneMore(s, s1, EvWipe);
    var s2 := Apply(s1, EvWipe);
    OneMore(s, s2, EvClearClaim);
    var s3 := Apply(s2, EvClearClaim);
    assert PhaseOf(s3, 1) == PhaseOf(s1, 1) == PhaseOf(s, 1) && PhaseOf(s3, 1).Idle?;
    t := ReconcileAccepts(s3, 1, a);
    LeadsThen(s, s3, t);
    assert PhaseOf(t, 0) == PhaseOf(s3, 0);
  }

  lemma LeadsThen(s: State, m: State, t: State)
    requires Leads(s, m) && Leads(m, t)
    ensures Leads(s, t)
  {
    var first :| Plays(s, first) == Some(m);
    var rest :| Plays(m, rest) == Some(t);
    PlaysThen(s, first, rest);
  }
}
