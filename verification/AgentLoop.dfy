/** The tick loop of a node: election attempts, heartbeats and the isolation guard,
    as an object whose every call is tied to a function of its fields. */
module AgentLoop {
  import opened Wrappers

  datatype Renewal = Renewed | Displaced | StoreUnreachable
  datatype Beat = BeatOk | NotRegistered | BeatFailed

  /** The answers of the outside world during one tick; each is asked at most once. */
  datatype World = World(leader: string, renewal: Renewal, agents: nat, beat: Beat,
                         registerOk: bool, claimOk: bool)

  datatype Effect =
    | StartLeader | StopLeader | ReleaseLease | StopAllTasks | TryClaim | Renew
    | Register(addr: string) | Heartbeat(addr: string)

  datatype LoopState = LoopState(leading: bool, failCount: nat, selfBeatFails: nat, registered: bool,
                                 lastLeaderAddr: string)

  const FRESH := LoopState(false, 0, 0, false, "")

  function StepDown(s: LoopState, release: bool): (LoopState, seq<Effect>) {
    (s.(leading := false, registered := false, lastLeaderAddr := ""),
     if !s.leading then [] else if release then [StopLeader, ReleaseLease] else [StopLeader])
  }

  function TakeOver(s: LoopState, w: World): (LoopState, seq<Effect>) {
    if w.claimOk
    then (s.(lastLeaderAddr := "", leading := true, failCount := 0), [TryClaim, StartLeader])
    else (s.(lastLeaderAddr := ""), [TryClaim])
  }

  function LeaderFailed(s: LoopState, w: World): (LoopState, seq<Effect>) {
    var counted := s.(failCount := s.failCount + 1);
    var (after, effects) := if counted.failCount >= 4 then TakeOver(counted, w) else (counted, []);
    if after.failCount >= 7
    then (after.(failCount := 4), effects + [StopAllTasks])
    else (after, effects)
  }

  // A leader's heartbeat to itself, which keeps its own agent registered.
  function SelfBeat(s: LoopState, w: World, self: string): (LoopState, seq<Effect>) {
    if w.beat.BeatOk? then (s.(selfBeatFails := 0), [Heartbeat(self)])
    else if w.beat.NotRegistered? && w.registerOk then (s.(selfBeatFails := 0), [Heartbeat(self), Register(self)])
    else (s.(selfBeatFails := s.selfBeatFails + 1),
          if w.beat.NotRegistered? then [Heartbeat(self), Register(self)] else [Heartbeat(self)])
  }

  function LeaderTick(s: LoopState, w: World, self: string): (LoopState, seq<Effect>) {
    var (after, effects) :=
      if w.renewal.Displaced? || (w.renewal.StoreUnreachable? && w.agents == 0) then StepDown(s, false)
      else SelfBeat(if w.renewal.Renewed? then s.(failCount := 0) else s, w, self);
    (after, [Renew] + effects)
  }

  function FollowerTick(s: LoopState, w: World, addr: string): (LoopState, seq<Effect>) {
    if addr == "" then LeaderFailed(s, w)
    else if !s.registered then
      if w.registerOk
      then (s.(registered := true, failCount := 0, lastLeaderAddr := addr), [Register(addr)])
      else var (s', effects) := LeaderFailed(s, w); (s', [Register(addr)] + effects)
    else
      match w.beat
      case BeatOk => (s.(failCount := 0, lastLeaderAddr := addr), [Heartbeat(addr)])
      case NotRegistered => (s.(registered := false, lastLeaderAddr := ""), [Heartbeat(addr)])
      case BeatFailed => var (s', effects) := LeaderFailed(s, w); (s', [Heartbeat(addr)] + effects)
  }

  function TickSpec(s: LoopState, w: World, self: string): (LoopState, seq<Effect>) {
    if s.leading then LeaderTick(s, w, self)
    else FollowerTick(s, w, if s.lastLeaderAddr == "" then w.leader else s.lastLeaderAddr)
  }

  function BecomeLeaderSpec(s: LoopState, w: World): (LoopState, seq<Effect>) {
    if s.leading then (s, [])
    else if w.claimOk then (s.(leading := true, failCount := 0), [TryClaim, StartLeader])
    else (s, [TryClaim])
  }

  /** The loop object. `effects` records, in order, what it asked of the world. */
  class Loop {
    const self: string
    var leading: bool
    var failCount: nat
    var selfBeatFails: nat
    var registered: bool
    var lastLeaderAddr: string
    ghost var effects: seq<Effect>

    ghost function View(): LoopState
      reads this
    {
      LoopState(leading, failCount, selfBeatFails, registered, lastLeaderAddr)
    }

    constructor (self: string)
      ensures View() == FRESH && effects == [] && this.self == self
    {
      this.self := self;
      leading, failCount, selfBeatFails, registered, lastLeaderAddr := false, 0, 0, false, "";
      effects := [];
    }

    method BecomeLeaderNow(w: World) returns (r: bool)
      modifies this
      ensures View() == BecomeLeaderSpec(old(View()), w).0
      ensures effects == old(effects) + BecomeLeaderSpec(old(View()), w).1
      ensures r == leading
    {
      if leading {
        return true;
      }
      effects := effects + [TryClaim];
      if !w.claimOk {
        return false;
      }
      leading := true;
      effects := effects + [StartLeader];
      failCount := 0;
      return true;
    }

    method DoStepDown(release: bool)
      modifies this
      ensures View() == StepDown(old(View()), release).0
      ensures effects == old(effects) + StepDown(old(View()), release).1
      ensures !leading && !registered && lastLeaderAddr == ""
      ensures effects == old(effects) + if !old(leading) then []
                                        else if release then [StopLeader, ReleaseLease] else [StopLeader]
    {
      var stop := leading;
      leading := false;
      registered := false;
      lastLeaderAddr := "";
      if !stop {
        return;
      }
      effects := effects + [StopLeader];
      if release {
        effects := effects + [ReleaseLease];
      }
    }

    method TryTakeOver(w: World)
      modifies this
      ensures View() == TakeOver(old(View()), w).0
      ensures effects == old(effects) + TakeOver(old(View()), w).1
    {
      lastLeaderAddr := "";
      effects := effects + [TryClaim];
      if w.claimOk {
        leading := true;
        effects := effects + [StartLeader];
        failCount := 0;
      }
    }

    method OnLeaderFailed(w: World)
      modifies this
      ensures View() == LeaderFailed(old(View()), w).0
      ensures effects == old(effects) + LeaderFailed(old(View()), w).1
    {
      failCount := failCount + 1;
      if failCount >= 4 {
        TryTakeOver(w);
      }
      if failCount >= 7 {
        effects := effects + [StopAllTasks];
        failCount := 4;
      }
    }

    method Tick(w: World)
      modifies this
      ensures View() == TickSpec(old(View()), w, self).0
      ensures effects == old(effects) + TickSpec(old(View()), w, self).1
    {
      var addr := lastLeaderAddr;
      if addr == "" {
        addr := w.leader;
      }
      if leading {
        TickAsLeader(w);
      } else if addr != "" {
        if !registered {
          effects := effects + [Register(addr)];
          if !w.registerOk {
            OnLeaderFailed(w);
          } else {
            registered := true;
            failCount := 0;
            lastLeaderAddr := addr;
          }
          return;
        }
        effects := effects + [Heartbeat(addr)];
        match w.beat
        case NotRegistered =>
          registered := false;
          lastLeaderAddr := "";
        case BeatFailed => OnLeaderFailed(w);
        case BeatOk =>
          failCount := 0;
          lastLeaderAddr := addr;
      } else {
        OnLeaderFailed(w);
      }
    }

    method TickAsLeader(w: World)
      requires leading
      modifies this
      ensures View() == LeaderTick(old(View()), w, self).0
      ensures effects == old(effects) + LeaderTick(old(View()), w, self).1
    {
      effects := effects + [Renew];
      match w.renewal {
        case Renewed => failCount := 0;
        case Displaced =>
          DoStepDown(false);
          return;
        case StoreUnreachable =>
          if w.agents == 0 {
            DoStepDown(false);
            return;
          }
      }
      BeatSelf(w);
    }

    method BeatSelf(w: World)
      modifies this
      ensures View() == SelfBeat(old(View()), w, self).0
      ensures effects == old(effects) + SelfBeat(old(View()), w, self).1
    {
      effects := effects + [Heartbeat(self)];
      if w.beat.BeatOk? {
        if selfBeatFails > 0 {
          selfBeatFails := 0;
        }
        return;
      }
      if w.beat.NotRegistered? {
        effects := effects + [Register(self)];
        if w.registerOk {
          selfBeatFails := 0;
          return;
        }
      }
      selfBeatFails := selfBeatFails + 1;
    }
  }

  datatype Call = Ticks(w: World) | BecomesLeaderNow(w: World) | Ends

  function CallSpec(s: LoopState, c: Call, self: string): (LoopState, seq<Effect>) {
    match c
    case Ticks(w) => TickSpec(s, w, self)
    case BecomesLeaderNow(w) => BecomeLeaderSpec(s, w)
    case Ends => StepDown(s, true)
  }

  function CallsSpec(s: LoopState, calls: seq<Call>, self: string): (LoopState, seq<Effect>)
    decreases |calls|
  {
    if calls == [] then (s, [])
    else
      var k := |calls| - 1;
      var (before, effects) := CallsSpec(s, calls[..k], self);
      var (after, last) := CallSpec(before, calls[k], self);
      (after, effects + last)
  }

  /** Replays the leader part of a list of effects. None if a leader was started
      while one ran, stopped while none ran, or the lease released while one ran or
      without one having just been stopped. */
  function Replay(effects: seq<Effect>, running: bool, stopped: bool): Option<bool> {
    if effects == [] then Some(running)
    else if !Allowed(effects[0], running, stopped) then None
    else Replay(effects[1..], NowRunning(effects[0], running), effects[0].StopLeader?)
  }

  predicate Allowed(e: Effect, running: bool, stopped: bool) {
    match e
    case StartLeader => !running
    case StopLeader => running
    case ReleaseLease => !running && stopped
    case _ => true
  }

  function NowRunning(e: Effect, running: bool): bool {
    if e.StartLeader? then true else if e.StopLeader? then false else running
  }

  lemma {:induction false} ReplayAppend(a: seq<Effect>, b: seq<Effect>, running: bool, stopped: bool)
    requires Replay(a, running, stopped).Some? && (b != [] ==> b[0] != ReleaseLease)
    ensures Replay(a + b, running, stopped) == Replay(b, Replay(a, running, stopped).value, false)
  {
    if a == [] {
      assert a + b == b;
    } else {
      assert (a + b)[0] == a[0] && (a + b)[1..] == a[1..] + b;
      ReplayAppend(a[1..], b, NowRunning(a[0], running), a[0].StopLeader?);
    }
  }

  // No call has more than three effects.
  lemma ReplayShort(effects: seq<Effect>, running: bool)
    requires |effects| <= 3
    requires |effects| >= 1 ==> Allowed(effects[0], running, false)
    requires |effects| >= 2 ==> Allowed(effects[1], NowRunning(effects[0], running), effects[0].StopLeader?)
    requires |effects| == 3 ==>
               Allowed(effects[2], NowRunning(effects[1], NowRunning(effects[0], running)), effects[1].StopLeader?)
    ensures Replay(effects, running, false) ==
            Some(if |effects| == 0 then running
                 else if |effects| == 1 then NowRunning(effects[0], running)
                 else if |effects| == 2 then NowRunning(effects[1], NowRunning(effects[0], running))
                 else NowRunning(effects[2], NowRunning(effects[1], NowRunning(effects[0], running))))
  {
    if |effects| >= 2 {
      assert effects[1..][1..] == effects[2..];
      var running1 := NowRunning(effects[0], running);
      assert Replay(effects[1..], running1, effects[0].StopLeader?) ==
             Replay(effects[2..], NowRunning(effects[1], running1), effects[1].StopLeader?);
    }
  }

  lemma CallReplays(s: LoopState, c: Call, self: string)
    ensures var (s', effects) := CallSpec(s, c, self);
            Replay(effects, s.leading, false) == Some(s'.leading) && (effects != [] ==> effects[0] != ReleaseLease)
  {
    var effects := CallSpec(s, c, self).1;
    assert |effects| <= 3;
    ReplayShort(effects, s.leading);
  }

  /** Over any sequence of calls, from any state: leaders are started and stopped in
      turn, the lease is only ever released by the effect right after the stop of the
      local leader, and the loop's own idea of leading is what the replay says. */
  lemma {:induction false} LeaderStartsAndStopsAlternate(s: LoopState, calls: seq<Call>, self: string)
    ensures var (s', effects) := CallsSpec(s, calls, self);
            Replay(effects, s.leading, false) == Some(s'.leading) && (effects != [] ==> effects[0] != ReleaseLease)
    decreases |calls|
  {
    if calls != [] {
      var k := |calls| - 1;
      LeaderStartsAndStopsAlternate(s, calls[..k], self);
      var (before, effects) := CallsSpec(s, calls[..k], self);
      CallReplays(before, calls[k], self);
      ReplayAppend(effects, CallSpec(before, calls[k], self).1, s.leading, false);
    }
  }

  // The state after the first `n` calls.
  function After(s: LoopState, calls: seq<Call>, self: string, n: nat): LoopState
    requires n <= |calls|
  {
    CallsSpec(s, calls[..n], self).0
  }

  // What ends a leadership: being displaced, losing store and agents, or the end of the loop.
  predicate Drops(c: Call) {
    match c
    case Ticks(w) => w.renewal.Displaced? || (w.renewal.StoreUnreachable? && w.agents == 0)
    case BecomesLeaderNow(_) => false
    case Ends => true
  }

  predicate WonAt(s: LoopState, calls: seq<Call>, self: string, i: nat)
    requires i < |calls|
  {
    StartLeader in CallSpec(After(s, calls, self, i), calls[i], self).1
  }

  // Which of the calls won a claim.
  function Wins(s: LoopState, calls: seq<Call>, self: string): (r: seq<bool>)
    ensures |r| == |calls| && forall i | 0 <= i < |calls| :: r[i] == WonAt(s, calls, self, i)
  {
    seq(|calls|, i requires 0 <= i < |calls| => WonAt(s, calls, self, i))
  }

  function Dropped(calls: seq<Call>): (r: seq<bool>)
    ensures |r| == |calls| && forall i | 0 <= i < |calls| :: r[i] == Drops(calls[i])
  {
    seq(|calls|, i requires 0 <= i < |calls| => Drops(calls[i]))
  }

  // Whether something was set by one of the first `n` calls and cleared by none after it.
  ghost predicate Since(sets: seq<bool>, clears: seq<bool>, n: nat)
    requires n <= |sets| == |clears|
  {
    exists i | 0 <= i < n :: sets[i] && NoneSince(clears, i, n)
  }

  ghost predicate NoneSince(clears: seq<bool>, i: nat, n: nat)
    requires n <= |clears|
  {
    forall k | i < k < n :: !clears[k]
  }

  lemma SinceStep(sets: seq<bool>, clears: seq<bool>, n: nat)
    requires n < |sets| == |clears|
    ensures Since(sets, clears, n + 1) <==> sets[n] || (Since(sets, clears, n) && !clears[n])
  {
    if Since(sets, clears, n) && !clears[n] {
      var i :| 0 <= i < n && sets[i] && NoneSince(clears, i, n);
      assert NoneSince(clears, i, n + 1);
    }
    if Since(sets, clears, n + 1) && !sets[n] {
      var i :| 0 <= i < n + 1 && sets[i] && NoneSince(clears, i, n + 1);
      assert NoneSince(clears, i, n);
    }
    assert NoneSince(clears, n, n + 1);
  }

  lemma {:induction false} SinceIs(flags: seq<bool>, sets: seq<bool>, clears: seq<bool>, n: nat)
    requires n <= |clears| == |sets| && |flags| == |sets| + 1 && !flags[0]
    requires forall i | 0 <= i < |sets| :: flags[i + 1] == (sets[i] || (flags[i] && !clears[i]))
    ensures flags[n] <==> Since(sets, clears, n)
    decreases n
  {
    if n > 0 {
      SinceIs(flags, sets, clears, n - 1);
      SinceStep(sets, clears, n - 1);
      assert flags[n - 1 + 1] == (sets[n - 1] || (flags[n - 1] && !clears[n - 1]));
    }
  }

  // Whether the loop leads before each call, and at the end.
  function Leads(s: LoopState, calls: seq<Call>, self: string): (r: seq<bool>)
    ensures |r| == |calls| + 1 && forall i | 0 <= i <= |calls| :: r[i] == After(s, calls, self, i).leading
  {
    seq(|calls| + 1, i requires 0 <= i <= |calls| => After(s, calls, self, i).leading)
  }

  /** A loop leads exactly if one of its calls won a claim and none since was told
      "displaced", lost both store and agents, or ended it. In particular a node told
      "displaced" does not lead, however many ticks later, until it wins again. */
  lemma LeadsIffWonAndNotDroppedSince(s: LoopState, calls: seq<Call>, self: string)
    requires !s.leading
    ensures CallsSpec(s, calls, self).0.leading <==> Since(Wins(s, calls, self), Dropped(calls), |calls|)
  {
    var leads, wins := Leads(s, calls, self), Wins(s, calls, self);
    forall i | 0 <= i < |calls| ensures leads[i + 1] == (wins[i] || (leads[i] && !Drops(calls[i]))) {
      LeadingStep(s, calls, self, i);
    }
    SinceIs(leads, wins, Dropped(calls), |calls|);
    assert calls[..|calls|] == calls;
  }

  lemma AfterCall(s: LoopState, calls: seq<Call>, self: string, n: nat)
    requires n < |calls|
    ensures After(s, calls, self, n + 1) == CallSpec(After(s, calls, self, n), calls[n], self).0
  {
    assert calls[..n + 1][..n] == calls[..n];
  }

  lemma LeadingStep(s: LoopState, calls: seq<Call>, self: string, n: nat)
    requires n < |calls|
    ensures After(s, calls, self, n + 1).leading <==>
            Wins(s, calls, self)[n] || (After(s, calls, self, n).leading && !Drops(calls[n]))
  {
    AfterCall(s, calls, self, n);
    OneCall(After(s, calls, self, n), calls[n], self);
  }

  lemma OneCall(s: LoopState, c: Call, self: string)
    ensures var (s', effects) := CallSpec(s, c, self);
            && (s.leading ==> s'.leading == !Drops(c) && StartLeader !in effects)
            && (!s.leading ==> s'.leading == (StartLeader in effects))
  {
  }

  function Count(effects: seq<Effect>, e: Effect): nat {
    if effects == [] then 0 else (if effects[0] == e then 1 else 0) + Count(effects[1..], e)
  }

  lemma {:induction false} CountAppend(a: seq<Effect>, b: seq<Effect>, e: Effect)
    ensures Count(a + b, e) == Count(a, e) + Count(b, e)
  {
    if a == [] {
      assert a + b == b;
    } else {
      assert (a + b)[0] == a[0] && (a + b)[1..] == a[1..] + b;
      CountAppend(a[1..], b, e);
    }
  }

  function One(effects: seq<Effect>, i: nat, e: Effect): nat {
    if i < |effects| && effects[i] == e then 1 else 0
  }

  lemma CountShort(effects: seq<Effect>, e: Effect)
    requires |effects| <= 3
    ensures Count(effects, e) == One(effects, 0, e) + One(effects, 1, e) + One(effects, 2, e)
  {
    if |effects| >= 1 {
      assert Count(effects, e) == One(effects, 0, e) + Count(effects[1..], e);
    }
    if |effects| >= 2 {
      assert Count(effects[1..], e) == One(effects, 1, e) + Count(effects[1..][1..], e);
    }
  }

  // A tick of a follower that reaches no leader and wins no election.
  predicate Failing(s: LoopState, w: World) {
    var addr := if s.lastLeaderAddr == "" then w.leader else s.lastLeaderAddr;
    && !s.leading && !w.claimOk
    && (addr == "" || (!s.registered && !w.registerOk) || (s.registered && w.beat.BeatFailed?))
  }

  lemma FailingTick(s: LoopState, w: World, self: string)
    requires Failing(s, w)
    ensures var (s', effects) := TickSpec(s, w, self);
            && s'.failCount == (if s.failCount + 1 >= 7 then 4 else s.failCount + 1)
            && Count(effects, StopAllTasks) == (if s.failCount + 1 >= 7 then 1 else 0)
            && Count(effects, TryClaim) == (if s.failCount + 1 >= 4 then 1 else 0)
  {
    var effects := TickSpec(s, w, self).1;
    assert |effects| <= 3;
    CountShort(effects, StopAllTasks);
    CountShort(effects, TryClaim);
  }

  predicate AllFailing(s: LoopState, calls: seq<Call>, self: string) {
    forall i | 0 <= i < |calls| :: calls[i].Ticks? && Failing(After(s, calls, self, i), calls[i].w)
  }

  predicate OnSchedule(k: nat, failCount: int, stops: int, claims: int) {
    && failCount == (if k < 7 then k else 4 + (k - 7) % 3)
    && stops == (if k < 7 then 0 else 1 + (k - 7) / 3)
    && claims == (if k < 4 then 0 else k - 3)
  }

  lemma ScheduleStep(k: nat, failCount: int, stops: int, claims: int)
    requires OnSchedule(k, failCount, stops, claims)
    ensures OnSchedule(k + 1, if failCount + 1 >= 7 then 4 else failCount + 1,
                       stops + (if failCount + 1 >= 7 then 1 else 0), claims + (if failCount + 1 >= 4 then 1 else 0))
  {
  }

  /** The isolation guard in closed form. After k failing ticks in a row the node has
      asked for the lease on every tick from the fourth on, and has stopped all its
      tasks on the seventh and on every third one after it. */
  lemma {:induction false} IsolationSchedule(s: LoopState, calls: seq<Call>, self: string)
    requires s.failCount == 0 && AllFailing(s, calls, self)
    ensures var (s', effects) := CallsSpec(s, calls, self);
            OnSchedule(|calls|, s'.failCount, Count(effects, StopAllTasks), Count(effects, TryClaim))
    decreases |calls|
  {
    if calls != [] {
      var k := |calls| - 1;
      EarlierFailing(s, calls, self, k);
      IsolationSchedule(s, calls[..k], self);
      var (before, effects) := CallsSpec(s, calls[..k], self);
      assert before == After(s, calls, self, k);
      FailingTick(before, calls[k].w, self);
      var last := CallSpec(before, calls[k], self).1;
      CountAppend(effects, last, StopAllTasks);
      CountAppend(effects, last, TryClaim);
      ScheduleStep(k, before.failCount, Count(effects, StopAllTasks), Count(effects, TryClaim));
    }
  }

  lemma EarlierFailing(s: LoopState, calls: seq<Call>, self: string, k: nat)
    requires AllFailing(s, calls, self) && k <= |calls|
    ensures AllFailing(s, calls[..k], self)
  {
    forall i | 0 <= i < k ensures calls[..k][i].Ticks? && Failing(After(s, calls[..k], self, i), calls[..k][i].w) {
      assert calls[..k][..i] == calls[..i];
    }
  }

  lemma CallKeepsBelowSeven(s: LoopState, c: Call, self: string)
    requires s.failCount <= 6
    ensures CallSpec(s, c, self).0.failCount <= 6
  {
  }

  /** Between ticks the failure count never leaves 0..6. */
  lemma {:induction false} FailCountStaysBelowSeven(s: LoopState, calls: seq<Call>, self: string)
    requires s.failCount <= 6
    ensures CallsSpec(s, calls, self).0.failCount <= 6
    decreases |calls|
  {
    if calls != [] {
      var k := |calls| - 1;
      FailCountStaysBelowSeven(s, calls[..k], self);
      CallKeepsBelowSeven(CallsSpec(s, calls[..k], self).0, calls[k], self);
    }
  }
}
