/** The restart loop of a failed task. Everything it asks of the outside is an answer by
    the number of the iteration. */
module Restart {
  import opened Wrappers

  datatype Run = Runs | Fails | NoCapacity

  // `gone`: somebody removed the record before the count was read; `goneLater`: before the
  // swap; `sweptAway`: somebody removed or stopped the replacement while it was being started.
  datatype Env = Env(job: nat -> bool, gone: nat -> bool, uptime: nat -> bool, waits: nat -> bool,
                     resolves: nat -> bool, ports: nat -> bool, shutdown: nat -> bool, goneLater: nat -> bool,
                     shutdownLater: nat -> bool, outcome: nat -> Run, sweptAway: nat -> bool)

  // `count` is the restart count in the task's record, while there is one. The last four
  // are history: runner starts, failed ones, resets of the count and cleanups.
  datatype Progress = Progress(count: Option<nat>, ran: bool, needsCleanup: bool,
                               starts: nat, failures: nat, resets: nat, cleanups: nat)

  datatype End = NoJob | GaveUp | Interrupted | Unresolved | Disappeared | HandedBack | StoppedAgain | Started

  datatype Next = Again(s: Progress) | Ended(s: Progress, how: End)

  function Entry(count: Option<nat>, ran: bool): Progress {
    Progress(count, ran, true, 0, 0, 0, 0)
  }

  // The count an iteration decides by, after a reset that genuine uptime has earned.
  function Counted(env: Env, s: Progress, i: nat): Progress {
    if env.gone(i) || s.count.None? then s.(count := None)
    else if s.ran && env.uptime(i) then s.(count := Some(0), resets := s.resets + 1)
    else s
  }

  function Count(s: Progress): nat {
    if s.count.Some? then s.count.value else 0
  }

  function Iterate(env: Env, limit: int, s0: Progress, i: nat): Next {
    var s := if s0.needsCleanup then s0.(needsCleanup := false, cleanups := s0.cleanups + 1) else s0;
    if !env.job(i) then Ended(s.(count := None), NoJob)
    else
      var s := Counted(env, s, i);
      if limit >= 0 && Count(s) >= limit then Ended(s, GaveUp)
      else if Count(s) > 0 && !env.waits(i) then Ended(s, Interrupted)
      else if !env.resolves(i) then Ended(s, Unresolved)
      else if !env.ports(i) then
        Again(s.(count := if s.count.Some? then Some(s.count.value + 1) else None, ran := false))
      else if env.shutdown(i) then Ended(s, Interrupted)
      else if env.goneLater(i) || s.count.None? then Ended(s.(count := None), Disappeared)
      else
        var s := s.(count := Some(s.count.value + 1));
        if env.shutdownLater(i) then Ended(s.(count := None), Interrupted)
        else
          var s := s.(starts := s.starts + 1);
          match env.outcome(i)
          case NoCapacity => Ended(s.(count := None), HandedBack)
          case Fails => Again(s.(ran := false, needsCleanup := true, failures := s.failures + 1))
          case Runs =>
            if env.sweptAway(i) then Ended(s.(count := None, cleanups := s.cleanups + 1), StoppedAgain)
            else Ended(s, Started)
  }

  /** Where the loop is after `n` iterations, or where it ended before. */
  function Iterations(env: Env, limit: int, s: Progress, n: nat): Next {
    if n == 0 then Again(s)
    else
      var before := Iterations(env, limit, s, n - 1);
      if before.Ended? then before else Iterate(env, limit, before.s, n - 1)
  }

  // ---- bounds that hold for any number of iterations ----

  // The budget that is left: what the limit leaves above the current count.
  function Budget(limit: int, s: Progress): nat {
    if limit > Count(s) then limit - Count(s) else 0
  }

  // A vanished record counts as zero, but no start can follow.
  function Left(limit: int, s: Progress): nat {
    if s.count.None? then 0 else Budget(limit, s)
  }

  ghost predicate Spent(limit: int, bound: int, s: Progress) {
    s.starts + Left(limit, s) <= bound
  }

  lemma IterateSpends(env: Env, limit: int, bound: int, s: Progress, i: nat)
    requires limit >= 0 && Spent(limit, bound, s) && !s.ran
    ensures var n := Iterate(env, limit, s, i);
            && n.s.starts <= bound && n.s.resets == s.resets
            && (n.Again? ==> Spent(limit, bound, n.s) && !n.s.ran)
  {
  }

  lemma FirstSpends(env: Env, limit: int, s: Progress)
    requires limit >= 0 && s.starts == 0
    ensures var n, c := Iterate(env, limit, s, 0), if s.ran && env.uptime(0) then 0 else Count(s);
            && n.s.starts <= Max(0, limit - c) && n.s.resets <= s.resets + 1
            && (n.Again? ==> Spent(limit, Max(0, limit - c), n.s) && !n.s.ran)
            && (n.s.resets > s.resets ==> s.ran && env.uptime(0))
  {
  }

  /** However the world answers and however long the loop runs: with limit M and entry
      count c (0 if uptime earned a clean slate) the runner is called at most
      max(0, M - c) times; the count is reset at most once, and only if the attempt
      before the loop really ran. */
  lemma {:induction false} StartsAndResetsAreBounded(env: Env, limit: int, count: Option<nat>, ran: bool, n: nat)
    requires limit >= 0
    ensures var s := Iterations(env, limit, Entry(count, ran), n).s;
            var c := if (ran && env.uptime(0)) || count.None? then 0 else count.value;
            && s.starts <= Max(0, limit - c) && s.resets <= 1
            && (s.resets == 1 ==> ran && env.uptime(0))
            && (n > 0 && Iterations(env, limit, Entry(count, ran), n).Again? ==>
                  !s.ran && Spent(limit, Max(0, limit - c), s))
  {
    if n == 1 {
      FirstSpends(env, limit, Entry(count, ran));
    } else if n > 1 {
      StartsAndResetsAreBounded(env, limit, count, ran, n - 1);
      var before := Iterations(env, limit, Entry(count, ran), n - 1);
      if before.Again? {
        var c := if (ran && env.uptime(0)) || count.None? then 0 else count.value;
        IterateSpends(env, limit, Max(0, limit - c), before.s, n - 1);
      }
    }
  }

  predicate Clean(next: Next) {
    && next.s.cleanups + (if next.s.needsCleanup then 1 else 0)
       == next.s.failures + 1 + (if next.Ended? && next.how.StoppedAgain? then 1 else 0)
    && (next.Ended? ==> !next.s.needsCleanup)
  }

  lemma IterateCleansUp(env: Env, limit: int, s: Progress, i: nat)
    requires Clean(Again(s))
    ensures Clean(Iterate(env, limit, s, i))
  {
  }

  /** Every attempt gets its one cleanup call before the loop decides what to do next:
      when it ends, giving up included, the failed task and each failed start had theirs,
      and so had a replacement that was swept away while it started. Whether a cleanup
      succeeded is not asked. */
  lemma {:induction false} AttemptsAreCleanedUp(env: Env, limit: int, entry: Progress, n: nat)
    requires Clean(Again(entry))
    ensures Clean(Iterations(env, limit, entry, n))
  {
    if n == 0 {
      assert Iterations(env, limit, entry, 0) == Again(entry);
    } else {
      AttemptsAreCleanedUp(env, limit, entry, n - 1);
      var before := Iterations(env, limit, entry, n - 1);
      if before.Again? {
        IterateCleansUp(env, limit, before.s, n - 1);
      }
    }
  }

  // ---- the budget is spent, and no more ----

  // The count an iteration decides by: a reset that the attempt before the loop has earned
  // is in, and a record that is gone counts as zero.
  function Current(env: Env, s: Progress, i: nat): nat {
    if env.gone(i) || s.count.None? || (s.ran && env.uptime(i)) then 0 else s.count.value
  }

  /** The loop gives up exactly if that count has reached the limit. */
  lemma GivesUpIff(env: Env, limit: int, s: Progress, i: nat)
    ensures var next := Iterate(env, limit, s, i);
            next.Ended? && next.how.GaveUp? <==>
            && env.job(i) && limit >= 0
            && limit <= Current(env, s, i)
  {
  }

  // An iteration that gets as far as asking for ports.
  predicate AsksPorts(env: Env, limit: int, s: Progress, i: nat) {
    && env.job(i) && (limit < 0 || Current(env, s, i) < limit)
    && (Current(env, s, i) > 0 ==> env.waits(i)) && env.resolves(i)
  }

  // One that gets as far as the runner.
  predicate CallsRunner(env: Env, limit: int, s: Progress, i: nat) {
    && AsksPorts(env, limit, s, i) && env.ports(i)
    && !env.shutdown(i) && !env.shutdownLater(i) && !env.goneLater(i) && !env.gone(i) && s.count.Some?
  }

  /** When an iteration starts the runner, with which count, and when another one follows:
      after a failed start, and after failed ports, which count as well. */
  lemma IterationIff(env: Env, limit: int, s: Progress, i: nat)
    ensures var next := Iterate(env, limit, s, i);
            && next.s.starts == s.starts + (if CallsRunner(env, limit, s, i) then 1 else 0)
            && (next.Again? <==> if CallsRunner(env, limit, s, i) then env.outcome(i).Fails?
                                 else AsksPorts(env, limit, s, i) && !env.ports(i))
            && (next.Again? ==> !next.s.ran && (next.s.needsCleanup <==> env.ports(i)))
            && (next.Again? && next.s.count.Some? ==> next.s.count.value == Current(env, s, i) + 1)
            && (next.Ended? && next.how.Started? <==>
                  CallsRunner(env, limit, s, i) && env.outcome(i).Runs? && !env.sweptAway(i))
            && (next.Ended? && next.how.Started? ==> next.s.count == Some(Current(env, s, i) + 1))
            && (next.Ended? && next.how.HandedBack? <==> CallsRunner(env, limit, s, i) && env.outcome(i).NoCapacity?)
  {
  }

  // Nothing but the runner itself gets in the way.
  ghost predicate Undisturbed(env: Env) {
    forall i ::
      && env.job(i) && env.waits(i) && env.resolves(i) && env.ports(i)
      && !env.gone(i) && !env.goneLater(i) && !env.shutdown(i) && !env.shutdownLater(i) && !env.sweptAway(i)
  }

  // The count the loop starts from.
  function Earned(env: Env, count: nat, ran: bool): nat {
    if ran && env.uptime(0) then 0 else count
  }

  lemma {:induction false} EveryFailureIsRetried(env: Env, limit: int, count: nat, ran: bool, n: nat)
    requires Undisturbed(env) && forall i | 0 <= i < n :: env.outcome(i).Fails?
    requires limit < 0 || n == 0 || Earned(env, count, ran) + n <= limit
    ensures var next := Iterations(env, limit, Entry(Some(count), ran), n);
            && next.Again? && next.s.starts == n && next.s.failures == n
            && (n > 0 ==> next.s.count == Some(Earned(env, count, ran) + n) && !next.s.ran)
            && next.s.resets == (if n > 0 && ran && env.uptime(0) then 1 else 0)
  {
    if n == 0 {
      assert Iterations(env, limit, Entry(Some(count), ran), 0) == Again(Entry(Some(count), ran));
    } else {
      EveryFailureIsRetried(env, limit, count, ran, n - 1);
      var before := Iterations(env, limit, Entry(Some(count), ran), n - 1);
      assert Iterations(env, limit, Entry(Some(count), ran), n) == Iterate(env, limit, before.s, n - 1);
      assert env.job(n - 1);
    }
  }

  /** Where nothing else gets in the way and every start fails, a limit M and a count c at
      entry mean exactly max(0, M - c) starts, and then the loop gives up; uptime that
      earned a reset gives the whole budget back. */
  lemma BudgetIsSpentExactly(env: Env, limit: nat, count: nat, ran: bool)
    requires Undisturbed(env) && forall i :: env.outcome(i).Fails?
    ensures var c := if ran && env.uptime(0) then 0 else count;
            var n := Max(0, limit - c);
            var end := Iterations(env, limit, Entry(Some(count), ran), n + 1);
            end.Ended? && end.how.GaveUp? && end.s.starts == n
  {
    var n := Max(0, limit - Earned(env, count, ran));
    EveryFailureIsRetried(env, limit, count, ran, n);
    var before := Iterations(env, limit, Entry(Some(count), ran), n);
    assert n == 0 ==> before == Again(Entry(Some(count), ran));
    assert env.job(n);
    GivesUpIff(env, limit, before.s, n);
    assert Iterations(env, limit, Entry(Some(count), ran), n + 1) == Iterate(env, limit, before.s, n);
  }

  /** And if start number k + 1 is the first to succeed, within the budget or without a
      limit, the task runs, with the count k + 1 up. */
  lemma FirstSuccessEndsIt(env: Env, limit: int, count: nat, ran: bool, k: nat)
    requires Undisturbed(env) && (forall i | 0 <= i < k :: env.outcome(i).Fails?) && env.outcome(k).Runs?
    requires limit < 0 || (if ran && env.uptime(0) then 0 else count) + k < limit
    ensures var c := if ran && env.uptime(0) then 0 else count;
            var end := Iterations(env, limit, Entry(Some(count), ran), k + 1);
            end.Ended? && end.how.Started? && end.s.starts == k + 1 && end.s.count == Some(c + k + 1)
  {
    EveryFailureIsRetried(env, limit, count, ran, k);
    var before := Iterations(env, limit, Entry(Some(count), ran), k);
    assert k == 0 ==> before == Again(Entry(Some(count), ran));
    assert env.job(k);
    assert Iterations(env, limit, Entry(Some(count), ran), k + 1) == Iterate(env, limit, before.s, k);
  }

  // ---- when it ends, and when it does not ----

  ghost predicate Forever(env: Env, limit: int, entry: Progress) {
    forall n: nat :: Iterations(env, limit, entry, n).Again?
  }

  predicate Stuck(env: Env, i: nat) {
    env.job(i) && env.resolves(i) && !env.ports(i)
  }

  // From iteration `k` on the record is gone, and the ports stay taken.
  ghost predicate SpinsFrom(env: Env, limit: int, entry: Progress, k: nat) {
    var next := Iterations(env, limit, entry, k);
    next.Again? && next.s.count.None? && forall i | k <= i :: Stuck(env, i)
  }

  lemma {:induction false} StaysAgain(env: Env, limit: int, entry: Progress, n: nat, m: nat)
    requires n <= m && Iterations(env, limit, entry, m).Again?
    ensures Iterations(env, limit, entry, n).Again?
    decreases m
  {
    if n < m {
      StaysAgain(env, limit, entry, n, m - 1);
    }
  }

  // Without a record an iteration goes on exactly if the job is there and the ports fail.
  lemma WithoutRecord(env: Env, limit: int, s: Progress, i: nat)
    requires s.count.None?
    ensures var next := Iterate(env, limit, s, i);
            (next.Again? <==> limit != 0 && Stuck(env, i)) && (next.Again? ==> next.s.count.None?)
  {
  }

  // With a record an iteration that goes on and keeps it uses up some of the budget.
  lemma WithRecord(env: Env, limit: int, s: Progress, i: nat)
    requires limit >= 0 && s.count.Some?
    ensures var next := Iterate(env, limit, s, i);
            next.Again? && next.s.count.Some? ==>
              Budget(limit, next.s) < (if s.ran then limit else Budget(limit, s)) && !next.s.ran
  {
  }

  lemma RecordNeverReturns(env: Env, limit: int, s: Progress, i: nat)
    ensures var next := Iterate(env, limit, s, i); next.Again? && next.s.count.Some? ==> s.count.Some?
  {
  }

  lemma {:induction false} RecordLastsAtMostLimit(env: Env, limit: int, entry: Progress, n: nat)
    requires limit >= 0 && Iterations(env, limit, entry, n).Again? && Iterations(env, limit, entry, n).s.count.Some?
    ensures n <= limit && Budget(limit, Iterations(env, limit, entry, n).s) <= limit - n
    ensures n > 0 ==> !Iterations(env, limit, entry, n).s.ran
  {
    if n == 0 {
      assert Iterations(env, limit, entry, 0) == Again(entry);
    } else {
      var before := Iterations(env, limit, entry, n - 1);
      assert Iterations(env, limit, entry, n) == Iterate(env, limit, before.s, n - 1);
      RecordNeverReturns(env, limit, before.s, n - 1);
      RecordLastsAtMostLimit(env, limit, entry, n - 1);
      WithRecord(env, limit, before.s, n - 1);
    }
  }

  // No iteration finds both the record gone and the ports taken.
  ghost predicate Steady(env: Env) {
    forall i :: env.gone(i) ==> env.ports(i)
  }

  lemma {:induction false} SteadyKeepsRecord(env: Env, limit: int, entry: Progress, n: nat)
    requires Steady(env) && entry.count.Some? && Iterations(env, limit, entry, n).Again?
    ensures Iterations(env, limit, entry, n).s.count.Some?
  {
    if n == 0 {
      assert Iterations(env, limit, entry, 0) == Again(entry);
    } else {
      SteadyKeepsRecord(env, limit, entry, n - 1);
      assert env.gone(n - 1) ==> env.ports(n - 1);
    }
  }

  /** With a limit M, and no iteration in which the record is gone and the ports fail as
      well, the loop ends within M + 1 iterations. */
  lemma RestartEnds(env: Env, limit: int, count: nat, ran: bool)
    requires limit >= 0 && Steady(env)
    ensures Iterations(env, limit, Entry(Some(count), ran), limit + 1).Ended?
  {
    var entry := Entry(Some(count), ran);
    if Iterations(env, limit, entry, limit + 1).Again? {
      SteadyKeepsRecord(env, limit, entry, limit + 1);
      RecordLastsAtMostLimit(env, limit, entry, limit + 1);
    }
  }

  lemma {:induction false} SpinningStays(env: Env, limit: int, entry: Progress, k: nat, n: nat)
    requires limit != 0 && SpinsFrom(env, limit, entry, k) && k <= n
    ensures Iterations(env, limit, entry, n).Again? && Iterations(env, limit, entry, n).s.count.None?
    decreases n
  {
    if k < n {
      SpinningStays(env, limit, entry, k, n - 1);
      WithoutRecord(env, limit, Iterations(env, limit, entry, n - 1).s, n - 1);
      assert Stuck(env, n - 1);
    }
  }

  lemma {:induction false} GoneStaysGone(env: Env, limit: int, entry: Progress, k: nat, n: nat)
    requires k <= n && Iterations(env, limit, entry, k).Again? && Iterations(env, limit, entry, k).s.count.None?
    requires Forever(env, limit, entry)
    ensures Iterations(env, limit, entry, n).s.count.None?
    decreases n
  {
    if k < n {
      GoneStaysGone(env, limit, entry, k, n - 1);
      var before := Iterations(env, limit, entry, n - 1);
      assert before.Again? && Iterations(env, limit, entry, n).Again?;
      WithoutRecord(env, limit, before.s, n - 1);
    }
  }

  lemma NoRecordAfterLimit(env: Env, limit: int, entry: Progress)
    requires limit >= 0 && Iterations(env, limit, entry, limit + 1).Again?
    ensures Iterations(env, limit, entry, limit + 1).s.count.None?
  {
    if Iterations(env, limit, entry, limit + 1).s.count.Some? {
      RecordLastsAtMostLimit(env, limit, entry, limit + 1);
    }
  }

  lemma ForeverSpins(env: Env, limit: int, entry: Progress)
    requires limit >= 0 && Forever(env, limit, entry)
    ensures limit > 0 && SpinsFrom(env, limit, entry, limit + 1)
  {
    var k := limit + 1;
    assert Iterations(env, limit, entry, k).Again?;
    NoRecordAfterLimit(env, limit, entry);
    forall i: nat | k <= i ensures Stuck(env, i) && limit != 0 {
      GoneStaysGone(env, limit, entry, k, i);
      assert Iterations(env, limit, entry, i).Again? && Iterations(env, limit, entry, i + 1).Again?;
      WithoutRecord(env, limit, Iterations(env, limit, entry, i).s, i);
    }
    assert Stuck(env, k);
  }

  /** With a limit M the loop goes on for ever if and only if M is not 0 and, after at most
      M + 1 iterations, the record is gone, the job is still there and the ports never
      come free again. Nothing is slept, counted or started then: it spins. */
  lemma GoesOnForeverIff(env: Env, limit: int, entry: Progress)
    requires limit >= 0
    ensures Forever(env, limit, entry) <==>
            limit > 0 && exists k: nat | k <= limit + 1 :: SpinsFrom(env, limit, entry, k)
  {
    if Forever(env, limit, entry) {
      ForeverSpins(env, limit, entry);
    }
    if limit > 0 && exists k: nat | k <= limit + 1 :: SpinsFrom(env, limit, entry, k) {
      var k: nat :| k <= limit + 1 && SpinsFrom(env, limit, entry, k);
      forall n: nat ensures Iterations(env, limit, entry, n).Again? {
        if k <= n {
          SpinningStays(env, limit, entry, k, n);
        } else {
          StaysAgain(env, limit, entry, n, k);
        }
      }
    }
  }

  // A world in which the record is removed before the first look and no port is ever free.
  const ABANDONED :=
    Env(_ => true, _ => true, _ => false, _ => true, _ => true, _ => false, _ => false, _ => false, _ => false,
        _ => Fails, _ => false)

  /** There is such a world: a task stopped while its restart was due, on a node with no
      free port. */
  lemma AbandonedTaskSpins(limit: int, count: nat)
    requires limit > 0
    ensures Forever(ABANDONED, limit, Entry(Some(count), false))
  {
    var entry := Entry(Some(count), false);
    assert Iterations(ABANDONED, limit, entry, 0) == Again(entry);
    assert Iterations(ABANDONED, limit, entry, 1) == Iterate(ABANDONED, limit, entry, 0);
    assert SpinsFrom(ABANDONED, limit, entry, 1);
    GoesOnForeverIff(ABANDONED, limit, entry);
  }

  // ---- the loop itself ----

  /** The loop, under no other condition than that it ends: any limit, unlimited ones
      included, and any world. */
  method RestartTask(env: Env, limit: int, count: Option<nat>, ranBefore: bool) returns (s: Progress, how: End)
    requires !Forever(env, limit, Entry(count, ranBefore))
    ensures exists n: nat :: Iterations(env, limit, Entry(count, ranBefore), n) == Ended(s, how)
  {
    s := Entry(count, ranBefore);
    ghost var last: nat :| Iterations(env, limit, Entry(count, ranBefore), last).Ended?;
    var i: nat := 0;
    while true
      invariant Iterations(env, limit, Entry(count, ranBefore), i) == Again(s)
      invariant i <= last
      decreases last - i
    {
      if last <= i {
        EndedStays(env, limit, Entry(count, ranBefore), last, i);
      }
      var over;
      over, s, how := Attempt(env, limit, s, i);
      i := i + 1;
      if over {
        assert Iterations(env, limit, Entry(count, ranBefore), i) == Ended(s, how);
        return;
      }
      if last < i {
        EndedStays(env, limit, Entry(count, ranBefore), last, i);
      }
    }
  }

  lemma {:induction false} EndedStays(env: Env, limit: int, entry: Progress, n: nat, m: nat)
    requires n <= m && Iterations(env, limit, entry, n).Ended?
    ensures Iterations(env, limit, entry, m) == Iterations(env, limit, entry, n)
    decreases m
  {
    if n < m {
      EndedStays(env, limit, entry, n, m - 1);
    }
  }

  // One turn of the loop.
  method Attempt(env: Env, limit: int, s0: Progress, i: nat) returns (over: bool, s: Progress, how: End)
    ensures Iterate(env, limit, s0, i) == if over then Ended(s, how) else Again(s)
  {
    s := s0;
    if s.needsCleanup {
      s := s.(needsCleanup := false, cleanups := s.cleanups + 1);
    }
    if !env.job(i) {
      return true, s.(count := None), NoJob;
    }
    s := Counted(env, s, i);
    if limit >= 0 && Count(s) >= limit {
      return true, s, GaveUp;
    }
    if Count(s) > 0 && !env.waits(i) {
      return true, s, Interrupted;
    }
    if !env.resolves(i) {
      return true, s, Unresolved;
    }
    if !env.ports(i) {
      return false, s.(count := if s.count.Some? then Some(s.count.value + 1) else None, ran := false), Started;
    }
    if env.shutdown(i) {
      return true, s, Interrupted;
    }
    if env.goneLater(i) || s.count.None? {
      return true, s.(count := None), Disappeared;
    }
    var outcome;
    s, how, outcome := SwapAndRun(env, s, i);
    over := !outcome.Fails? || env.shutdownLater(i);
  }

  // The replacement takes over the count, one up, and is started.
  method SwapAndRun(env: Env, s0: Progress, i: nat) returns (s: Progress, how: End, outcome: Run)
    requires s0.count.Some?
    ensures var swapped := s0.(count := Some(s0.count.value + 1));
            var started := swapped.(starts := s0.starts + 1);
            && outcome == env.outcome(i)
            && (if env.shutdownLater(i) then s == swapped.(count := None) && how == Interrupted
                else match outcome
                     case NoCapacity => s == started.(count := None) && how == HandedBack
                     case Fails => s == started.(ran := false, needsCleanup := true, failures := s0.failures + 1)
                     case Runs =>
                       if env.sweptAway(i)
                       then s == started.(count := None, cleanups := s0.cleanups + 1) && how == StoppedAgain
                       else s == started && how == Started)
  {
    s := s0.(count := Some(s0.count.value + 1));
    outcome := env.outcome(i);
    how := Started;
    if env.shutdownLater(i) {
      return s.(count := None), Interrupted, outcome;
    }
    s := s.(starts := s.starts + 1);
    match outcome {
      case NoCapacity =>
        s := s.(count := None);
        how := HandedBack;
      case Fails =>
        s := s.(ran := false, needsCleanup := true, failures := s.failures + 1);
      case Runs =>
        if env.sweptAway(i) {
          s := s.(count := None, cleanups := s.cleanups + 1);
          how := StoppedAgain;
        }
    }
  }
}
