/** The log broadcaster: a ring of the last lines and a bounded channel per listener,
    against the full history of what was written. */
module LogRing {
  import opened Wrappers

  const TAIL: nat := 50
  const CAPACITY: nat := 100

  function LastLines(history: seq<string>): seq<string> {
    history[|history| - Min(TAIL, |history|)..]
  }

  predicate IsSubsequence(a: seq<string>, b: seq<string>) {
    a == [] || (b != [] && (IsSubsequence(a, b[1..]) || (a[0] == b[0] && IsSubsequence(a[1..], b[1..]))))
  }

  /** Which lines of the history a channel was sent, by position: the lines there were
      when it joined at `at`, back to back, and after that some of the later ones, in
      order and each at most once. */
  ghost predicate FeedOk(history: seq<string>, at: nat, feed: seq<nat>, sent: seq<string>) {
    && at <= |history| && |feed| == |sent| && Min(TAIL, at) <= |feed|
    && (forall i | 0 <= i < Min(TAIL, at) :: feed[i] == at - Min(TAIL, at) + i)
    && (forall i | Min(TAIL, at) <= i < |feed| :: at <= feed[i])
    && (forall i | 0 <= i < |feed| :: feed[i] < |history| && sent[i] == history[feed[i]])
    && (forall i, k | 0 <= i < k < |feed| :: feed[i] < feed[k])
  }

  lemma FeedGrows(history: seq<string>, at: nat, feed: seq<nat>, sent: seq<string>, line: string)
    requires FeedOk(history, at, feed, sent)
    ensures FeedOk(history + [line], at, feed, sent)
    ensures FeedOk(history + [line], at, feed + [|history|], sent + [line])
  {
  }

  lemma {:induction false} PickedIsSubsequence(history: seq<string>, from: nat, feed: seq<nat>, sent: seq<string>)
    requires from <= |history| && |feed| == |sent|
    requires forall i | 0 <= i < |feed| :: from <= feed[i] < |history| && sent[i] == history[feed[i]]
    requires forall i, k | 0 <= i < k < |feed| :: feed[i] < feed[k]
    ensures IsSubsequence(sent, history[from..])
    decreases |history| - from
  {
    if feed != [] {
      assert from <= feed[0] < |history|;
      var rest := history[from..];
      assert rest[0] == history[from] && rest[1..] == history[from + 1..];
      if feed[0] == from {
        PickedIsSubsequence(history, from + 1, feed[1..], sent[1..]);
      } else {
        assert forall i | 0 <= i < |feed| :: from + 1 <= feed[i];
        PickedIsSubsequence(history, from + 1, feed, sent);
      }
    }
  }

  /** So a subscriber is sent the tail there was when it joined, followed by a subsequence
      of the lines written later. */
  lemma StreamIsTailThenSubsequence(history: seq<string>, at: nat, feed: seq<nat>, sent: seq<string>)
    requires FeedOk(history, at, feed, sent)
    ensures LastLines(history[..at]) <= sent
    ensures IsSubsequence(sent[Min(TAIL, at)..], history[at..])
  {
    var n := Min(TAIL, at);
    assert LastLines(history[..at]) == sent[..n] by {
      forall i | 0 <= i < n ensures LastLines(history[..at])[i] == sent[i] {
        assert sent[i] == history[feed[i]];
      }
    }
    PickedIsSubsequence(history, at, feed[n..], sent[n..]);
  }

  /** A buffered channel. `sent` and `received` are its whole past; `at` and `feed` say
      where in the history its lines come from. */
  class Channel {
    var buffer: seq<string>
    var closed: bool
    ghost var sent: seq<string>
    ghost var received: seq<string>
    ghost const at: nat
    ghost var feed: seq<nat>

    ghost predicate Valid()
      reads this
    {
      sent == received + buffer && |buffer| <= CAPACITY
    }

    constructor (ghost at: nat)
      ensures Valid() && sent == [] && received == [] && !closed && this.at == at && feed == []
    {
      buffer, closed, sent, received, feed := [], false, [], [], [];
      this.at := at;
    }

    /** Takes the oldest line, if any. What was sent does not change. */
    method Receive() returns (got: bool, line: string)
      requires Valid()
      modifies this`buffer, this`received
      ensures Valid() && got == (old(buffer) != [])
      ensures got ==> line == old(buffer)[0] && buffer == old(buffer)[1..] && received == old(received) + [line]
      ensures !got ==> buffer == old(buffer) && received == old(received)
    {
      if |buffer| == 0 {
        return false, "";
      }
      got, line := true, buffer[0];
      received, buffer := received + [buffer[0]], buffer[1..];
    }

    /** Sends without waiting: a full channel drops the line. */
    method TrySend(line: string, ghost position: nat) returns (ok: bool)
      requires Valid() && !closed
      modifies this`buffer, this`sent, this`feed
      ensures Valid() && ok == (|old(buffer)| < CAPACITY)
      ensures buffer == if ok then old(buffer) + [line] else old(buffer)
      ensures sent == if ok then old(sent) + [line] else old(sent)
      ensures feed == if ok then old(feed) + [position] else old(feed)
    {
      ok := |buffer| < CAPACITY;
      if ok {
        buffer := buffer + [line];
        sent, feed := sent + [line], feed + [position];
      }
    }

    // Closing twice would be a crash.
    method Close()
      requires !closed
      modifies this`closed
      ensures closed
    {
      closed := true;
    }
  }

  class LogBroadcaster {
    const tail: array<string>
    var tailPos: nat
    var tailCount: nat
    var listeners: seq<Channel>
    var closed: bool
    ghost var history: seq<string>

    ghost predicate RingOk()
      reads this, tail
    {
      && tail.Length == TAIL && tailPos == |history| && tailCount == Min(TAIL, |history|)
      && forall k | |history| - tailCount <= k < |history| :: tail[k % TAIL] == history[k]
    }

    ghost predicate Listening(ch: Channel)
      reads this, ch
    {
      ch.Valid() && !ch.closed && FeedOk(history, ch.at, ch.feed, ch.sent)
    }

    ghost predicate Valid()
      reads this, tail, listeners
    {
      && RingOk()
      && (forall i, k | 0 <= i < k < |listeners| :: listeners[i] != listeners[k])
      && (forall i | 0 <= i < |listeners| :: Listening(listeners[i]))
      && (closed ==> listeners == [])
    }

    constructor ()
      ensures Valid() && history == [] && listeners == [] && !closed && fresh(tail)
    {
      tail := new string[TAIL](_ => "");
      tailPos, tailCount, listeners, closed, history := 0, 0, [], false, [];
    }

    /** The last lines written, at most 50, oldest first. */
    method Tail() returns (lines: seq<string>)
      requires RingOk()
      ensures lines == LastLines(history)
    {
      lines := [];
      var start := tailPos - tailCount;
      for i := 0 to tailCount
        invariant lines == LastLines(history)[..i]
      {
        assert tail[(start + i) % TAIL] == history[start + i];
        lines := lines + [tail[(start + i) % TAIL]];
      }
    }

    method Push(line: string)
      requires RingOk()
      modifies this`tailPos, this`tailCount, this`history, tail
      ensures RingOk() && history == old(history) + [line]
    {
      SlotsDiffer(tailPos);
      tail[tailPos % TAIL] := line;
      tailPos := tailPos + 1;
      if tailCount < TAIL {
        tailCount := tailCount + 1;
      }
      history := history + [line];
    }

    // Offers the line just pushed to one listener.
    method Offer(ch: Channel, line: string, ghost before: seq<string>)
      requires ch.Valid() && !ch.closed && history == before + [line] && FeedOk(before, ch.at, ch.feed, ch.sent)
      modifies ch`buffer, ch`sent, ch`feed
      ensures Listening(ch)
      ensures ch.sent == old(ch.sent) + if |old(ch.buffer)| < CAPACITY then [line] else []
    {
      FeedGrows(before, ch.at, ch.feed, ch.sent, line);
      var ok := ch.TrySend(line, |before|);
    }

    // Offers it to all of them.
    method OfferAll(line: string, ghost before: seq<string>)
      requires RingOk() && history == before + [line]
      requires forall i, k | 0 <= i < k < |listeners| :: listeners[i] != listeners[k]
      requires forall i | 0 <= i < |listeners| ::
                 var ch := listeners[i]; ch.Valid() && !ch.closed && FeedOk(before, ch.at, ch.feed, ch.sent)
      modifies listeners
      ensures RingOk() && forall i | 0 <= i < |listeners| :: Listening(listeners[i])
      ensures forall i | 0 <= i < |listeners| ::
                listeners[i].sent == old(listeners[i].sent) +
                                     if |old(listeners[i].buffer)| < CAPACITY then [line] else []
    {
      for i := 0 to |listeners|
        invariant RingOk()
        invariant forall k | 0 <= k < i :: Listening(listeners[k])
        invariant forall k | 0 <= k < i ::
                    listeners[k].sent == old(listeners[k].sent) +
                                         if |old(listeners[k].buffer)| < CAPACITY then [line] else []
        invariant forall k | i <= k < |listeners| :: unchanged(listeners[k])
      {
        Offer(listeners[i], line, before);
      }
    }

    /** Every line is remembered; each listener gets it unless its channel is full. */
    method Write(line: string)
      requires Valid()
      modifies this`tailPos, this`tailCount, this`history, tail, listeners
      ensures Valid() && history == old(history) + [line]
      ensures forall i | 0 <= i < |listeners| ::
                listeners[i].sent == old(listeners[i].sent) +
                                     if |old(listeners[i].buffer)| < CAPACITY then [line] else []
    {
      ghost var before := history;
      assert forall i | 0 <= i < |listeners| :: Listening(listeners[i]);
      Push(line);
      OfferAll(line, before);
    }

    // The i-th line of the tail is in its slot.
    lemma TailAt(i: nat)
      requires RingOk() && i < tailCount
      ensures tail[(tailPos - tailCount + i) % TAIL] == LastLines(history)[i] == history[tailPos - tailCount + i]
      ensures LastLines(history)[..i + 1] == LastLines(history)[..i] + [LastLines(history)[i]]
    {
      assert tail[(tailPos - tailCount + i) % TAIL] == history[tailPos - tailCount + i];
    }

    // Pushes the whole tail into a new channel, which is large enough never to block.
    method Replay(ch: Channel)
      requires RingOk() && ch.Valid() && !ch.closed && ch.sent == ch.buffer == [] && ch.feed == [] && ch.at == |history|
      modifies ch`buffer, ch`sent, ch`feed
      ensures Listening(ch) && ch.sent == ch.buffer == LastLines(history)
    {
      var start := tailPos - tailCount;
      for i := 0 to tailCount
        invariant ch.Valid() && ch.sent == ch.buffer == LastLines(history)[..i]
        invariant |ch.feed| == i && forall k | 0 <= k < i :: ch.feed[k] == start + k
      {
        TailAt(i);
        var ok := ch.TrySend(tail[(start + i) % TAIL], start + i);
        assert ok;
      }
    }

    /** A new listener first gets the tail, all of it: the channel cannot fill up on it. On
        a finished log its channel is closed right after. */
    method Subscribe() returns (ch: Channel)
      requires Valid()
      modifies this`listeners
      ensures Valid() && fresh(ch) && ch.at == |history|
      ensures ch.Valid() && ch.sent == ch.buffer == LastLines(history) && FeedOk(history, ch.at, ch.feed, ch.sent)
      ensures ch.closed == closed
      ensures listeners == if closed then old(listeners) else old(listeners) + [ch]
    {
      ch := new Channel(|history|);
      Replay(ch);
      if closed {
        ch.Close();
      } else {
        listeners := listeners + [ch];
      }
    }

    /** Closes the channel of a listener and forgets it; anything else is left alone, so no
        channel is closed twice. */
    method Unsubscribe(ch: Channel)
      requires Valid()
      modifies this`listeners, ch`closed
      ensures Valid()
      ensures ch !in listeners && (ch in old(listeners) ==> ch.closed)
              && (ch !in old(listeners) ==> ch.closed == old(ch.closed))
      ensures forall c | c != ch :: c in listeners <==> c in old(listeners)
    {
      for i := 0 to |listeners|
        invariant forall k | 0 <= k < i :: listeners[k] != ch
        invariant Valid() && listeners == old(listeners) && ch.closed == old(ch.closed)
      {
        if listeners[i] == ch {
          listeners := listeners[..i] + listeners[i + 1..];
          ch.Close();
          return;
        }
      }
    }

    /** No more lines will come; what was remembered stays readable. */
    method Close()
      requires Valid()
      modifies this`listeners, this`closed, listeners
      ensures Valid() && closed && listeners == []
      ensures forall ch | ch in old(listeners) :: ch.closed && ch.sent == old(ch.sent) && ch.buffer == old(ch.buffer)
    {
      var all := listeners;
      for i := 0 to |all|
        invariant forall k | 0 <= k < i ::
                    all[k].closed && all[k].sent == old(all[k].sent) && all[k].buffer == old(all[k].buffer)
        invariant forall k | i <= k < |all| :: unchanged(all[k])
        invariant RingOk()
      {
        assert old(Listening(all[i]));
        all[i].Close();
      }
      listeners := [];
      closed := true;
    }
  }

  // The slots of the last 50 lines are all different.
  lemma SlotsDiffer(pos: nat)
    ensures forall k: nat | k < pos && pos - k < TAIL :: k % TAIL != pos % TAIL
  {
  }
}
