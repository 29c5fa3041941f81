/** Whom the tick loop talks to: registrations, heartbeats and the leader's address, over
    any list of calls. */
module LoopContact {
  import opened Wrappers
  import opened AgentLoop

  predicate Talks(e: Effect) {
    e.Register? || e.Heartbeat?
  }

  // The address a follower's tick turns to: the one it knows, or the one the store names.
  function Target(s: LoopState, w: World): string {
    if s.lastLeaderAddr == "" then w.leader else s.lastLeaderAddr
  }

  /** A follower with somebody to turn to sends one request there, first thing: a heartbeat
      if it is registered and a registration if not. Otherwise it sends none. */
  lemma FollowerSends(s: LoopState, w: World, self: string)
    requires !s.leading
    ensures var effects, addr := TickSpec(s, w, self).1, Target(s, w);
            && (addr != "" ==> effects != [] && effects[0] == if s.registered then Heartbeat(addr) else Register(addr))
            && forall k | 0 <= k < |effects| && Talks(effects[k]) :: k == 0 && addr != ""
  {
  }

  /** A leader that keeps leading sends itself one heartbeat, and registers again right away
      if that finds it forgotten; one that steps down sends nothing. */
  lemma LeaderSends(s: LoopState, w: World, self: string)
    requires s.leading
    ensures var effects := TickSpec(s, w, self).1;
            && (forall k | 0 <= k < |effects| && Talks(effects[k]) :: !Drops(Ticks(w)) && effects[k].addr == self)
            && (!Drops(Ticks(w)) ==>
                  && |effects| >= 2 && effects[1] == Heartbeat(self)
                  && (w.beat.NotRegistered? <==> Register(self) in effects)
                  && forall k | 2 <= k < |effects| :: effects[k] == Register(self))
  {
  }

  // ---- what was answered ----

  // The request a follower's tick made, if it made one.
  function Sent(s: LoopState, c: Call, self: string): Option<Effect> {
    var effects := CallSpec(s, c, self).1;
    if c.Ticks? && !s.leading && effects != [] && Talks(effects[0]) then Some(effects[0]) else None
  }

  predicate Registers(s: LoopState, c: Call, self: string) {
    var sent := Sent(s, c, self);
    sent.Some? && sent.value.Register? && c.w.registerOk
  }

  predicate BeatAnswered(s: LoopState, c: Call, self: string) {
    var sent := Sent(s, c, self);
    sent.Some? && sent.value.Heartbeat? && c.w.beat.BeatOk?
  }

  // The follower was told that the leader does not know it.
  predicate ToldUnknown(s: LoopState, c: Call, self: string) {
    var sent := Sent(s, c, self);
    sent.Some? && sent.value.Heartbeat? && c.w.beat.NotRegistered?
  }

  // Where a tick reached the leader.
  function Contact(s: LoopState, c: Call, self: string): Option<string> {
    if Registers(s, c, self) || BeatAnswered(s, c, self) then Some(Sent(s, c, self).value.addr) else None
  }

  predicate SteppedDown(s: LoopState, c: Call, self: string) {
    c.Ends? || StopLeader in CallSpec(s, c, self).1
  }

  predicate TriedTakeOver(s: LoopState, c: Call, self: string) {
    c.Ticks? && TryClaim in CallSpec(s, c, self).1
  }

  predicate LosesAddress(s: LoopState, c: Call, self: string) {
    ToldUnknown(s, c, self) || SteppedDown(s, c, self) || TriedTakeOver(s, c, self)
  }

  lemma OneCallRegistered(s: LoopState, c: Call, self: string)
    ensures CallSpec(s, c, self).0.registered <==>
            Registers(s, c, self) || (s.registered && !(ToldUnknown(s, c, self) || SteppedDown(s, c, self)))
  {
  }

  lemma OneCallAddress(s: LoopState, c: Call, self: string, a: string)
    requires a != ""
    ensures CallSpec(s, c, self).0.lastLeaderAddr == a <==>
            || Contact(s, c, self) == Some(a)
            || (s.lastLeaderAddr == a && Contact(s, c, self).None? && !LosesAddress(s, c, self))
  {
    if c.Ticks? && !s.leading {
      FollowerTickAddress(s, c.w, self);
    } else {
      OtherCallAddress(s, c, self);
    }
  }

  lemma FollowerTickAddress(s: LoopState, w: World, self: string)
    requires !s.leading
    ensures var c, addr := Ticks(w), TickSpec(s, w, self).0.lastLeaderAddr;
            && (Contact(s, c, self).Some? ==> addr == Contact(s, c, self).value && !LosesAddress(s, c, self))
            && (Contact(s, c, self).None? ==> addr == if LosesAddress(s, c, self) then "" else s.lastLeaderAddr)
  {
  }

  lemma OtherCallAddress(s: LoopState, c: Call, self: string)
    requires !c.Ticks? || s.leading
    ensures Contact(s, c, self).None?
    ensures CallSpec(s, c, self).0.lastLeaderAddr == if LosesAddress(s, c, self) then "" else s.lastLeaderAddr
  {
  }

  predicate Resets(s: LoopState, c: Call, self: string) {
    || (c.Ticks? && s.leading && c.w.renewal.Renewed?)
    || Contact(s, c, self).Some? || StartLeader in CallSpec(s, c, self).1
  }

  predicate Fails(s: LoopState, c: Call, self: string) {
    c.Ticks? && !s.leading && !Resets(s, c, self) && !ToldUnknown(s, c, self)
  }

  /** The failure count is zero after a call that renewed, reached the leader or won; every
      other tick of a follower counts, unless the leader answered that it does not know
      it; nothing else changes it. */
  lemma FailCountIs(s: LoopState, c: Call, self: string)
    ensures CallSpec(s, c, self).0.failCount ==
            if Resets(s, c, self) then 0
            else if !Fails(s, c, self) then s.failCount
            else if s.failCount + 1 >= 7 then 4 else s.failCount + 1
  {
  }

  /** The failures of the heartbeat to itself are counted by a leader that stays one, and
      forgotten when the heartbeat or the registration after it is answered. */
  lemma SelfBeatFailsIs(s: LoopState, c: Call, self: string)
    ensures CallSpec(s, c, self).0.selfBeatFails ==
            if !c.Ticks? || !s.leading || Drops(c) then s.selfBeatFails
            else if c.w.beat.BeatOk? || (c.w.beat.NotRegistered? && c.w.registerOk) then 0
            else s.selfBeatFails + 1
  {
  }

  // A follower's tick that did not reach a leader.
  predicate Unreached(s: LoopState, c: Call, self: string) {
    c.Ticks? && !s.leading && Contact(s, c, self).None? && !ToldUnknown(s, c, self)
  }

  ghost predicate EffectsOf(s: LoopState, c: Call, self: string) {
    var effects := CallSpec(s, c, self).1;
    && (Renew in effects <==> c.Ticks? && s.leading)
    && (TryClaim in effects <==> (c.BecomesLeaderNow? && !s.leading) || (Unreached(s, c, self) && s.failCount >= 3))
    && (StartLeader in effects <==> TryClaim in effects && c.w.claimOk)
    && (StopAllTasks in effects <==> Unreached(s, c, self) && s.failCount >= 6 && !c.w.claimOk)
    && (StopLeader in effects <==> s.leading && Drops(c))
    && (ReleaseLease in effects <==> s.leading && c.Ends?)
  }

  lemma LeaderTickEffects(s: LoopState, w: World, self: string)
    requires s.leading
    ensures EffectsOf(s, Ticks(w), self)
  {
  }

  lemma FollowerTickEffects(s: LoopState, w: World, self: string)
    requires !s.leading
    ensures EffectsOf(s, Ticks(w), self)
  {
  }

  /** What a call asks of the lease and of the agent: only leaders renew, at every tick; a
      claim is tried when asked for or from the fourth failure on, and a leader starts
      exactly if it succeeds; from the seventh on the node's tasks are stopped unless it
      does; and a lease is given back only at the end of a loop that leads. */
  lemma EffectsIff(s: LoopState, c: Call, self: string)
    ensures EffectsOf(s, c, self)
  {
    if c.Ticks? {
      if s.leading {
        LeaderTickEffects(s, c.w, self);
      } else {
        FollowerTickEffects(s, c.w, self);
      }
    }
  }

  // ---- over lists of calls ----

  function Registrations(s: LoopState, calls: seq<Call>, self: string): (r: seq<bool>)
    ensures |r| == |calls|
    ensures forall i | 0 <= i < |calls| :: r[i] == Registers(After(s, calls, self, i), calls[i], self)
  {
    seq(|calls|, i requires 0 <= i < |calls| => Registers(After(s, calls, self, i), calls[i], self))
  }

  function Forgotten(s: LoopState, calls: seq<Call>, self: string): (r: seq<bool>)
    ensures |r| == |calls|
    ensures forall i | 0 <= i < |calls| ::
              var t := After(s, calls, self, i);
              r[i] == (ToldUnknown(t, calls[i], self) || SteppedDown(t, calls[i], self))
  {
    seq(|calls|, i requires 0 <= i < |calls| =>
      var t := After(s, calls, self, i);
      ToldUnknown(t, calls[i], self) || SteppedDown(t, calls[i], self))
  }

  function RegisteredBefore(s: LoopState, calls: seq<Call>, self: string): (r: seq<bool>)
    ensures |r| == |calls| + 1 && forall i | 0 <= i <= |calls| :: r[i] == After(s, calls, self, i).registered
  {
    seq(|calls| + 1, i requires 0 <= i <= |calls| => After(s, calls, self, i).registered)
  }

  /** A loop is registered if and only if one of its registrations succeeded and it has not
      been told since that the leader does not know it, nor stepped down or ended. */
  lemma RegisteredIff(s: LoopState, calls: seq<Call>, self: string)
    requires !s.registered
    ensures CallsSpec(s, calls, self).0.registered <==>
            Since(Registrations(s, calls, self), Forgotten(s, calls, self), |calls|)
  {
    var flags := RegisteredBefore(s, calls, self);
    var sets, clears := Registrations(s, calls, self), Forgotten(s, calls, self);
    forall i | 0 <= i < |calls| ensures flags[i + 1] == (sets[i] || (flags[i] && !clears[i])) {
      AfterCall(s, calls, self, i);
      OneCallRegistered(After(s, calls, self, i), calls[i], self);
    }
    SinceIs(flags, sets, clears, |calls|);
    assert calls[..|calls|] == calls;
  }

  function ContactsWith(s: LoopState, calls: seq<Call>, self: string, a: string): (r: seq<bool>)
    ensures |r| == |calls|
    ensures forall i | 0 <= i < |calls| :: r[i] == (Contact(After(s, calls, self, i), calls[i], self) == Some(a))
  {
    seq(|calls|, i requires 0 <= i < |calls| => Contact(After(s, calls, self, i), calls[i], self) == Some(a))
  }

  function AddressChanges(s: LoopState, calls: seq<Call>, self: string): (r: seq<bool>)
    ensures |r| == |calls|
    ensures forall i | 0 <= i < |calls| ::
              var t := After(s, calls, self, i);
              r[i] == (Contact(t, calls[i], self).Some? || LosesAddress(t, calls[i], self))
  {
    seq(|calls|, i requires 0 <= i < |calls| =>
      var t := After(s, calls, self, i);
      Contact(t, calls[i], self).Some? || LosesAddress(t, calls[i], self))
  }

  function KnownBefore(s: LoopState, calls: seq<Call>, self: string, a: string): (r: seq<bool>)
    ensures |r| == |calls| + 1 && forall i | 0 <= i <= |calls| :: r[i] == (After(s, calls, self, i).lastLeaderAddr == a)
  {
    seq(|calls| + 1, i requires 0 <= i <= |calls| => After(s, calls, self, i).lastLeaderAddr == a)
  }

  /** The address a loop knows is the one where it last reached the leader; it is forgotten
      when the leader does not know the agent, with a step-down, and with every attempt to
      take over. */
  lemma AddressIsLastContact(s: LoopState, calls: seq<Call>, self: string, a: string)
    requires s.lastLeaderAddr == "" && a != ""
    ensures CallsSpec(s, calls, self).0.lastLeaderAddr == a <==>
            Since(ContactsWith(s, calls, self, a), AddressChanges(s, calls, self), |calls|)
  {
    var flags := KnownBefore(s, calls, self, a);
    var sets, clears := ContactsWith(s, calls, self, a), AddressChanges(s, calls, self);
    forall i | 0 <= i < |calls| ensures flags[i + 1] == (sets[i] || (flags[i] && !clears[i])) {
      AfterCall(s, calls, self, i);
      OneCallAddress(After(s, calls, self, i), calls[i], self, a);
    }
    SinceIs(flags, sets, clears, |calls|);
    assert calls[..|calls|] == calls;
  }

  // ---- is it the leader it registered with? ----

  /** Where the loop registered last, and whether it tried to take over since. */
  function LastRegistration(s: LoopState, calls: seq<Call>, self: string): (string, bool)
    decreases |calls|
  {
    if calls == [] then ("", false)
    else
      var k := |calls| - 1;
      var (addr, tried) := LastRegistration(s, calls[..k], self);
      var before := CallsSpec(s, calls[..k], self).0;
      if Registers(before, calls[k], self) then (Sent(before, calls[k], self).value.addr, false)
      else (addr, tried || TriedTakeOver(before, calls[k], self))
  }

  lemma OneCallLoyal(s: LoopState, c: Call, self: string)
    requires CallSpec(s, c, self).0.registered && !TriedTakeOver(s, c, self)
    ensures var s' := CallSpec(s, c, self).0;
            if Registers(s, c, self) then s'.lastLeaderAddr == Sent(s, c, self).value.addr != ""
            else s.registered && (s.lastLeaderAddr != "" ==> s'.lastLeaderAddr == s.lastLeaderAddr)
  {
  }

  /** A registered follower turns to the leader it registered with, as long as it has not
      tried to take over since. */
  lemma {:induction false} HeartbeatsWhereRegistered(s: LoopState, calls: seq<Call>, self: string, w: World)
    requires !s.registered
    requires CallsSpec(s, calls, self).0.registered && !LastRegistration(s, calls, self).1
    ensures var addr, after := LastRegistration(s, calls, self).0, CallsSpec(s, calls, self).0;
            after.lastLeaderAddr == addr != "" && Target(after, w) == addr
    decreases |calls|
  {
    if calls != [] {
      var k := |calls| - 1;
      var before := CallsSpec(s, calls[..k], self).0;
      if Registers(before, calls[k], self) {
        RegistersKnows(before, calls[k], self);
      } else {
        OneCallLoyal(before, calls[k], self);
        HeartbeatsWhereRegistered(s, calls[..k], self, w);
      }
    }
  }

  lemma RegistersKnows(s: LoopState, c: Call, self: string)
    requires Registers(s, c, self)
    ensures CallSpec(s, c, self).0.lastLeaderAddr == Sent(s, c, self).value.addr != ""
  {
  }

  /** After a failed attempt the loop still counts as registered and knows no address: its
      next heartbeat goes where it registered if and only if the store names that leader. */
  lemma AfterTakeOverIff(s: LoopState, w: World, next: World, self: string, addr: string)
    requires TriedTakeOver(s, Ticks(w), self) && !w.claimOk && s.registered && addr != ""
    ensures var s' := TickSpec(s, w, self).0;
            && s'.registered && !s'.leading
            && (TickSpec(s', next, self).1[..1] == [Heartbeat(addr)] <==> next.leader == addr)
  {
    EffectsIff(s, Ticks(w), self);
    var s' := TickSpec(s, w, self).0;
    assert s' == s.(failCount := s'.failCount, lastLeaderAddr := "");
    FollowerSends(s', next, self);
    var effects := TickSpec(s', next, self).1;
    assert next.leader != "" ==> effects[0] == Heartbeat(next.leader) && effects[..1] == [effects[0]];
    assert effects[..1] == [Heartbeat(addr)] ==> effects[0] == Heartbeat(addr) && Talks(effects[0]);
  }

  const LOST := World("b", Renewed, 0, BeatFailed, true, false)

  /** After a failed attempt to take over it may not be: here the next heartbeat goes to the
      leader the store names, where the agent never registered. */
  lemma TakeOverForgetsTheLeader(self: string)
    ensures var s := LoopState(false, 3, 0, true, "a");
            var s' := TickSpec(s, LOST, self).0;
            s'.registered && TickSpec(s', LOST, self).1[..1] == [Heartbeat("b")]
  {
    var s' := TickSpec(LoopState(false, 3, 0, true, "a"), LOST, self).0;
    assert s' == LoopState(false, 4, 0, true, "");
    assert TickSpec(s', LOST, self).1[0] == Heartbeat("b");
  }
}
