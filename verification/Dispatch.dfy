/** The leader's placement books and one dispatch: a round over all agents, then
    preemption of less important jobs on the agents that were full. Agents are
    oracles: whatever they answer, everything proved here holds. */
module Dispatch {
  import opened Wrappers

  type AgentId = string
  type JobName = string
  type Books = map<AgentId, map<JobName, nat>>

  datatype Answer = Accepted | NoCapacity | Refused

  /** The agents' answers, by the number of the request, and the order in which the keys
      of a map come out of an iteration. A tombstoned or unreachable dispatch is a
      Refused one. */
  datatype Env = Env(answer: nat -> Answer, stopOk: nat -> bool, order: (nat, set<JobName>) -> seq<JobName>)

  // A smaller `prio` is more important; an unset one is the largest there is.
  datatype Job = Job(name: JobName, prio: int, count: int)

  datatype Sched = Sched(agents: seq<AgentId>, placed: Books, roundRobin: nat, dispatching: set<JobName>, requests: nat)

  datatype Outcome = Placed(agent: AgentId) | AllFull(full: seq<AgentId>) | NoneAccepted

  function Count(placed: Books, a: AgentId, j: JobName): nat {
    if a in placed && j in placed[a] then placed[a][j] else 0
  }

  function Track(placed: Books, a: AgentId, j: JobName): Books {
    var row: map<JobName, nat> := (if a in placed then placed[a] else map[])[j := Count(placed, a, j) + 1];
    placed[a := row]
  }

  // MarkUnplaced and the stop of an old instance: never below zero.
  function Untrack(placed: Books, a: AgentId, j: JobName): Books {
    if Count(placed, a, j) == 0 then placed
    else
      var row: map<JobName, nat> := placed[a][j := Count(placed, a, j) - 1];
      placed[a := row]
  }

  function Forget(placed: Books, a: AgentId, j: JobName): Books {
    if a in placed then placed[a := placed[a] - {j}] else placed
  }

  function Total(placed: Books, agents: seq<AgentId>, j: JobName): nat {
    if agents == [] then 0 else Count(placed, agents[0], j) + Total(placed, agents[1..], j)
  }

  predicate Distinct<T(==)>(s: seq<T>) {
    forall i, k | 0 <= i < k < |s| :: s[i] != s[k]
  }

  // ---- the round over all agents ----

  function FirstPass(env: Env, s: Sched, j: JobName, n: nat, full: seq<AgentId>): (Sched, Outcome)
    decreases n
  {
    if n == 0 || s.agents == [] then (s, if full == [] then NoneAccepted else AllFull(full))
    else
      var a := s.agents[s.roundRobin % |s.agents|];
      var asked := s.(roundRobin := s.roundRobin + 1, requests := s.requests + 1);
      match env.answer(s.requests)
      case Accepted => (asked.(placed := Track(s.placed, a, j)), Placed(a))
      case NoCapacity => FirstPass(env, asked, j, n - 1, full + [a])
      case Refused => FirstPass(env, asked, j, n - 1, full)
  }

  // ---- preemption ----

  predicate Candidate(placed: Books, store: map<JobName, int>, a: AgentId, prio: int, v: JobName) {
    Count(placed, a, v) > 0 && v in store && store[v] > prio
  }

  ghost predicate IsVictim(placed: Books, store: map<JobName, int>, a: AgentId, prio: int, v: JobName) {
    && Count(placed, a, v) > 0 && v in store && store[v] > prio
    && forall u | u in store && Count(placed, a, u) > 0 :: store[u] <= store[v]
  }

  ghost predicate IsVictimChoice(placed: Books, store: map<JobName, int>, a: AgentId, prio: int, v: Option<JobName>) {
    match v
    case Some(x) => IsVictim(placed, store, a, prio, x)
    case None => forall u | u in store && Count(placed, a, u) > 0 :: store[u] <= prio
  }

  // The scan of one agent's row, in iteration order: a later job replaces the victim
  // only when it is strictly less important.
  function Scan(placed: Books, store: map<JobName, int>, a: AgentId, order: seq<JobName>,
                worst: int, victim: Option<JobName>): (r: Option<JobName>)
    ensures r == victim || (r.Some? && Candidate(placed, store, a, worst, r.value))
    decreases |order|
  {
    if order == [] then victim
    else if Candidate(placed, store, a, worst, order[0]) then
      Scan(placed, store, a, order[1..], store[order[0]], Some(order[0]))
    else Scan(placed, store, a, order[1..], worst, victim)
  }

  function Row(placed: Books, a: AgentId): set<JobName> {
    if a in placed then placed[a].Keys else {}
  }

  function VictimOf(env: Env, request: nat, placed: Books, store: map<JobName, int>, a: AgentId, prio: int)
    : Option<JobName>
  {
    Scan(placed, store, a, env.order(request, Row(placed, a)), prio, None)
  }

  lemma {:induction false} ScanFindsLeastImportant(placed: Books, store: map<JobName, int>, a: AgentId,
                                                   order: seq<JobName>, worst: int, victim: Option<JobName>)
    ensures var r := Scan(placed, store, a, order, worst, victim);
            || (r == victim && forall u | u in order :: !Candidate(placed, store, a, worst, u))
            || (r.Some? && Candidate(placed, store, a, worst, r.value)
                && forall u | u in order && Candidate(placed, store, a, worst, u) :: store[u] <= store[r.value])
    decreases |order|
  {
    if order != [] {
      assert order == [order[0]] + order[1..];
      if Candidate(placed, store, a, worst, order[0]) {
        forall u | u in order && Candidate(placed, store, a, worst, u)
                   && !Candidate(placed, store, a, store[order[0]], u)
          ensures store[u] <= store[order[0]]
        {
        }
        ScanFindsLeastImportant(placed, store, a, order[1..], store[order[0]], Some(order[0]));
      } else {
        ScanFindsLeastImportant(placed, store, a, order[1..], worst, victim);
      }
    }
  }

  /** In whatever order the row is iterated, the victim is a least important job among
      those strictly less important than the newcomer, and there is one if any exists. */
  lemma VictimIsLeastImportant(env: Env, request: nat, placed: Books, store: map<JobName, int>, a: AgentId, prio: int)
    requires forall u | u in Row(placed, a) :: u in env.order(request, Row(placed, a))
    ensures IsVictimChoice(placed, store, a, prio, VictimOf(env, request, placed, store, a, prio))
  {
    var order := env.order(request, Row(placed, a));
    ScanFindsLeastImportant(placed, store, a, order, prio, None);
    forall u | u in store && Count(placed, a, u) > 0 ensures u in order {
      assert u in Row(placed, a);
    }
    forall u | u in store && Count(placed, a, u) > 0 && !Candidate(placed, store, a, prio, u) ensures store[u] <= prio {
    }
  }

  predicate Ranked(store: map<JobName, int>) {
    forall u, v | u in store && v in store && store[u] == store[v] :: u == v
  }

  /** With unique priorities, which normalisation provides, the order does not matter. */
  lemma VictimIsUnique(placed: Books, store: map<JobName, int>, a: AgentId, prio: int, v: Option<JobName>,
                       w: Option<JobName>)
    requires Ranked(store)
    requires IsVictimChoice(placed, store, a, prio, v) && IsVictimChoice(placed, store, a, prio, w)
    ensures v == w
  {
    if v.Some? && w.Some? {
      assert store[v.value] <= store[w.value] && store[w.value] <= store[v.value];
    }
  }

  function SecondPass(env: Env, s: Sched, store: map<JobName, int>, job: Job, full: seq<AgentId>): (Sched, bool)
    decreases |full|
  {
    if full == [] then (s, false)
    else
      var a := full[0];
      match VictimOf(env, s.requests, s.placed, store, a, job.prio)
      case None => SecondPass(env, s, store, job, full[1..])
      case Some(v) =>
        if !env.stopOk(s.requests) then SecondPass(env, s.(requests := s.requests + 1), store, job, full[1..])
        else
          var cleared := s.(placed := Forget(s.placed, a, v), requests := s.requests + 2);
          if env.answer(s.requests + 1).Accepted?
          then (cleared.(placed := Track(cleared.placed, a, job.name)), true)
          else SecondPass(env, cleared, store, job, full[1..])
  }

  function DispatchOne(env: Env, s: Sched, store: map<JobName, int>, job: Job): (Sched, bool) {
    var (s', r) := FirstPass(env, s, job.name, |s.agents|, []);
    match r
    case Placed(_) => (s', true)
    case AllFull(full) => SecondPass(env, s', store, job, full)
    case NoneAccepted => (s', false)
  }

  // ---- what a dispatch does to the books ----

  // Only less important jobs lose, they lose all they have on an agent, and nobody
  // but the job itself gains.
  ghost predicate OnlyLessImportantLose(before: Books, after: Books, store: map<JobName, int>, job: Job) {
    forall a, j | j != job.name ::
      Count(after, a, j) == Count(before, a, j) ||
      (Count(after, a, j) == 0 && j in store && store[j] > job.prio)
  }

  ghost predicate GainsOne(before: Books, after: Books, a: AgentId, j: JobName) {
    Count(after, a, j) == Count(before, a, j) + 1 && forall b | b != a :: Count(after, b, j) == Count(before, b, j)
  }

  ghost predicate Same(before: Books, after: Books, j: JobName) {
    forall a :: Count(after, a, j) == Count(before, a, j)
  }

  lemma {:induction false} FirstPassEffect(env: Env, s: Sched, j: JobName, n: nat, full: seq<AgentId>)
    ensures var (s', r) := FirstPass(env, s, j, n, full);
            && s'.agents == s.agents && s'.dispatching == s.dispatching
            && (forall i | i != j :: Same(s.placed, s'.placed, i))
            && (r.Placed? ==> r.agent in s.agents && GainsOne(s.placed, s'.placed, r.agent, j))
            && (!r.Placed? ==> s'.placed == s.placed)
            && (r.AllFull? ==> forall a | a in r.full :: a in full || a in s.agents)
    decreases n
  {
    if n > 0 && s.agents != [] && !env.answer(s.requests).Accepted? {
      var a := s.agents[s.roundRobin % |s.agents|];
      var asked := s.(roundRobin := s.roundRobin + 1, requests := s.requests + 1);
      FirstPassEffect(env, asked, j, n - 1, if env.answer(s.requests).NoCapacity? then full + [a] else full);
    }
  }

  lemma {:induction false} SecondPassEffect(env: Env, s: Sched, store: map<JobName, int>, job: Job, full: seq<AgentId>)
    requires job.name in store ==> store[job.name] <= job.prio
    requires forall a | a in full :: a in s.agents
    ensures var (s', ok) := SecondPass(env, s, store, job, full);
            && s'.agents == s.agents && s'.dispatching == s.dispatching && s'.roundRobin == s.roundRobin
            && OnlyLessImportantLose(s.placed, s'.placed, store, job)
            && (ok ==> exists a | a in s.agents :: GainsOne(s.placed, s'.placed, a, job.name))
            && (!ok ==> Same(s.placed, s'.placed, job.name))
    decreases |full|
  {
    if full != [] {
      var a := full[0];
      match VictimOf(env, s.requests, s.placed, store, a, job.prio)
      case None => SecondPassEffect(env, s, store, job, full[1..]);
      case Some(v) =>
        if !env.stopOk(s.requests) {
          SecondPassEffect(env, s.(requests := s.requests + 1), store, job, full[1..]);
        } else {
          var cleared := s.(placed := Forget(s.placed, a, v), requests := s.requests + 2);
          assert Candidate(s.placed, store, a, job.prio, v);
          if env.answer(s.requests + 1).Accepted? {
            assert GainsOne(s.placed, Track(cleared.placed, a, job.name), a, job.name);
          } else {
            SecondPassEffect(env, cleared, store, job, full[1..]);
          }
        }
    }
  }

  /** One dispatch, whatever the agents answer: success places exactly one instance on
      one agent; failure leaves the job's own placements alone; and any other job
      that lost placements is strictly less important. */
  lemma DispatchEffect(env: Env, s: Sched, store: map<JobName, int>, job: Job)
    requires job.name in store ==> store[job.name] <= job.prio
    ensures var (s', ok) := DispatchOne(env, s, store, job);
            && s'.agents == s.agents && s'.dispatching == s.dispatching
            && OnlyLessImportantLose(s.placed, s'.placed, store, job)
            && (ok ==> exists a | a in s.agents :: GainsOne(s.placed, s'.placed, a, job.name))
            && (!ok ==> Same(s.placed, s'.placed, job.name))
  {
    FirstPassEffect(env, s, job.name, |s.agents|, []);
    var (s', r) := FirstPass(env, s, job.name, |s.agents|, []);
    assert OnlyLessImportantLose(s.placed, s'.placed, store, job) by {
      forall a, j | j != job.name ensures Count(s'.placed, a, j) == Count(s.placed, a, j) {
        assert Same(s.placed, s'.placed, j);
      }
    }
    assert !r.Placed? ==> s'.placed == s.placed;
    match r
    case Placed(a) => assert GainsOne(s.placed, s'.placed, a, job.name);
    case AllFull(full) => SecondPassEffect(env, s', store, job, full);
    case NoneAccepted => assert Same(s.placed, s'.placed, job.name);
  }

  /** A dispatch without preemption takes nothing from anybody. */
  lemma WithoutPreemptionNobodyLoses(env: Env, s: Sched, j: JobName, i: JobName, a: AgentId)
    ensures Count(FirstPass(env, s, j, |s.agents|, []).0.placed, a, i) >= Count(s.placed, a, i)
  {
    FirstPassEffect(env, s, j, |s.agents|, []);
    assert i != j ==> Same(s.placed, FirstPass(env, s, j, |s.agents|, []).0.placed, i);
  }

  // The agents a round asks, in order, from any cursor.
  function Asked(agents: seq<AgentId>, roundRobin: nat, n: nat): (r: seq<AgentId>)
    requires agents != []
    ensures |r| == n
  {
    seq(n, i requires 0 <= i => agents[(roundRobin + i) % |agents|])
  }

  lemma Wraps(r: nat, i: nat, n: nat)
    requires i < n
    ensures (r + i) % n == if r % n + i < n then r % n + i else r % n + i - n
  {
    var q := r / n;
    assert r == q * n + r % n;
    if r % n + i < n {
      Remainder(q, n, r % n + i);
    } else {
      assert r + i == (q + 1) * n + (r % n + i - n);
      Remainder(q + 1, n, r % n + i - n);
    }
  }

  lemma Remainder(q: nat, n: nat, x: nat)
    requires x < n
    ensures (q * n + x) % n == x
  {
    var d: int, m: int := (q * n + x) / n, (q * n + x) % n;
    assert d * n + m == q * n + x;
    Multiple(q - d, n);
    assert (q - d) * n == m - x;
  }

  // There is no multiple of n strictly between -n and n but zero.
  lemma Multiple(k: int, n: nat)
    ensures k >= 1 ==> k * n >= n
    ensures k <= -1 ==> k * n + n <= 0
  {
  }

  /** A full round asks every agent exactly once, wherever the round-robin cursor was
      left by earlier dispatches. */
  lemma RoundAsksEachAgentOnce(agents: seq<AgentId>, roundRobin: nat)
    requires agents != [] && Distinct(agents)
    ensures Distinct(Asked(agents, roundRobin, |agents|))
    ensures forall a :: a in Asked(agents, roundRobin, |agents|) <==> a in agents
  {
    var n, asked := |agents|, Asked(agents, roundRobin, |agents|);
    forall i, k | 0 <= i < k < n ensures asked[i] != asked[k] {
      Wraps(roundRobin, i, n);
      Wraps(roundRobin, k, n);
    }
    forall x | 0 <= x < n ensures agents[x] in asked {
      var c := roundRobin % n;
      var i := if c <= x then x - c else x - c + n;
      Wraps(roundRobin, i, n);
      assert asked[i] == agents[x];
    }
  }

  lemma AskedTail(agents: seq<AgentId>, roundRobin: nat, n: nat)
    requires agents != [] && n > 0
    ensures Asked(agents, roundRobin, n)[0] == agents[roundRobin % |agents|]
    ensures Asked(agents, roundRobin, n)[1..] == Asked(agents, roundRobin + 1, n - 1)
  {
    var all, rest := Asked(agents, roundRobin, n), Asked(agents, roundRobin + 1, n - 1);
    forall i | 0 <= i < n - 1 ensures all[1..][i] == rest[i] {
      assert roundRobin + (i + 1) == roundRobin + 1 + i;
    }
  }

  /** If no agent accepts, the round asked exactly the agents in rotation order and
      reports precisely those that answered "no capacity", in that order. */
  lemma {:induction false} FirstPassAsksInOrder(env: Env, s: Sched, j: JobName, n: nat, full: seq<AgentId>)
    requires s.agents != [] && !FirstPass(env, s, j, n, full).1.Placed?
    ensures var (s', r) := FirstPass(env, s, j, n, full);
            && s'.requests == s.requests + n && s'.roundRobin == s.roundRobin + n
            && Reported(r) == full + FullOnes(env, Asked(s.agents, s.roundRobin, n), s.requests)
    decreases n
  {
    if n > 0 {
      var a := s.agents[s.roundRobin % |s.agents|];
      var asked := s.(roundRobin := s.roundRobin + 1, requests := s.requests + 1);
      var first := if env.answer(s.requests).NoCapacity? then [a] else [];
      assert full + [] == full;
      assert FirstPass(env, s, j, n, full) == FirstPass(env, asked, j, n - 1, full + first);
      FirstPassAsksInOrder(env, asked, j, n - 1, full + first);
      FullOnesTail(env, s.agents, s.roundRobin, n, s.requests, full);
    } else {
      assert full + [] == full;
    }
  }

  function Reported(r: Outcome): seq<AgentId> {
    if r.AllFull? then r.full else []
  }

  lemma FullOnesTail(env: Env, agents: seq<AgentId>, roundRobin: nat, n: nat, request: nat, full: seq<AgentId>)
    requires agents != [] && n > 0
    ensures var first := if env.answer(request).NoCapacity? then [agents[roundRobin % |agents|]] else [];
            full + FullOnes(env, Asked(agents, roundRobin, n), request) ==
            full + first + FullOnes(env, Asked(agents, roundRobin + 1, n - 1), request + 1)
  {
    AskedTail(agents, roundRobin, n);
  }

  function FullOnes(env: Env, asked: seq<AgentId>, request: nat): seq<AgentId> {
    if asked == [] then []
    else (if env.answer(request).NoCapacity? then [asked[0]] else []) + FullOnes(env, asked[1..], request + 1)
  }

  // ---- totals ----

  lemma {:induction false} TotalSame(before: Books, after: Books, agents: seq<AgentId>, j: JobName)
    requires forall a | a in agents :: Count(after, a, j) == Count(before, a, j)
    ensures Total(after, agents, j) == Total(before, agents, j)
  {
    if agents != [] {
      TotalSame(before, after, agents[1..], j);
    }
  }

  lemma {:induction false} TotalAtMost(before: Books, after: Books, agents: seq<AgentId>, j: JobName)
    requires forall a | a in agents :: Count(after, a, j) <= Count(before, a, j)
    ensures Total(after, agents, j) <= Total(before, agents, j)
  {
    if agents != [] {
      TotalAtMost(before, after, agents[1..], j);
    }
  }

  lemma {:induction false} TotalGainsOne(before: Books, after: Books, agents: seq<AgentId>, a: AgentId, j: JobName)
    requires Distinct(agents) && a in agents && GainsOne(before, after, a, j)
    ensures Total(after, agents, j) == Total(before, agents, j) + 1
  {
    if agents[0] == a {
      TotalSame(before, after, agents[1..], j);
    } else {
      TotalGainsOne(before, after, agents[1..], a, j);
    }
  }
}
