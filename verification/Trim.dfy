/** Trimming an agent that returns with the tasks it kept: what it holds on top of
    what the others already cover is dropped. `rows` lists the agents the books know. */
module Trim {
  import opened Wrappers
  import opened Dispatch
  import opened Reconcile

  predicate Redundant(placed: Books, rows: seq<AgentId>, counts: map<JobName, int>, a: AgentId, j: JobName) {
    && Count(placed, a, j) > 0
    && j in counts && counts[j] != DAEMON
    && Total(placed, rows, j) - Count(placed, a, j) >= DesiredCount(counts[j])
  }

  function Surplus(placed: Books, rows: seq<AgentId>, counts: map<JobName, int>, a: AgentId): set<JobName> {
    set j | j in Row(placed, a) && Redundant(placed, rows, counts, a, j)
  }

  function Drop(placed: Books, a: AgentId, names: set<JobName>): Books {
    if a in placed then placed[a := placed[a] - names] else placed
  }

  lemma {:induction false} DroppedTotal(placed: Books, rows: seq<AgentId>, a: AgentId, names: set<JobName>, j: JobName)
    requires Distinct(rows)
    ensures Total(Drop(placed, a, names), rows, j) ==
            Total(placed, rows, j) - if j in names && a in rows then Count(placed, a, j) else 0
  {
    if rows != [] {
      DroppedTotal(placed, rows[1..], a, names, j);
      assert rows[0] !in rows[1..];
    }
  }

  /** A trim never takes a job below the smaller of what it had and what is desired, it
      touches no other agent and no daemon, and afterwards nothing on the agent is
      surplus any more. */
  lemma TrimKeepsEnough(placed: Books, rows: seq<AgentId>, counts: map<JobName, int>, a: AgentId, j: JobName)
    requires Distinct(rows) && a in rows
    ensures var after := Drop(placed, a, Surplus(placed, rows, counts, a));
            && (Total(after, rows, j) == Total(placed, rows, j)
                || (j in counts && counts[j] != DAEMON && Total(after, rows, j) >= DesiredCount(counts[j])))
            && (forall b | b != a :: Count(after, b, j) == Count(placed, b, j))
            && !Redundant(after, rows, counts, a, j)
  {
    DroppedTotal(placed, rows, a, Surplus(placed, rows, counts, a), j);
  }

  /** Decision and drop are two steps of the state loop, so two agents that return at
      the same time both decide on the books before either drop. Between them they
      leave enough exactly when the rest of the cluster covers whatever both drop. */
  lemma OverlappingTrims(placed: Books, rows: seq<AgentId>, counts: map<JobName, int>, a: AgentId, b: AgentId,
                         j: JobName)
    requires Distinct(rows) && a in rows && b in rows && a != b
    requires Redundant(placed, rows, counts, a, j) && Redundant(placed, rows, counts, b, j)
    ensures var after := Drop(Drop(placed, a, Surplus(placed, rows, counts, a)), b, Surplus(placed, rows, counts, b));
            Total(after, rows, j) >= DesiredCount(counts[j]) <==>
            Total(placed, rows, j) >= DesiredCount(counts[j]) + Count(placed, a, j) + Count(placed, b, j)
  {
    var first := Drop(placed, a, Surplus(placed, rows, counts, a));
    DroppedTotal(placed, rows, a, Surplus(placed, rows, counts, a), j);
    DroppedTotal(first, rows, b, Surplus(placed, rows, counts, b), j);
    assert Count(first, b, j) == Count(placed, b, j);
  }

  lemma OverlappingTrimsCanDropEverything()
    ensures exists placed: Books, rows, counts: map<JobName, int>, a, b, j ::
              && Distinct(rows) && Redundant(placed, rows, counts, a, j) && Redundant(placed, rows, counts, b, j)
              && Total(Drop(Drop(placed, a, Surplus(placed, rows, counts, a)), b, Surplus(placed, rows, counts, b)),
                        rows, j) == 0
  {
    var placed: Books := map["a" := map["web" := 1], "b" := map["web" := 1]];
    var rows, counts := ["a", "b"], map["web" := 1];
    assert rows[0] == "a" && rows[1] == "b" && rows[1..] == ["b"];
    assert Count(placed, "a", "web") == 1 && Count(placed, "b", "web") == 1;
    assert Total(placed, rows[1..], "web") == 1;
    assert Total(placed, rows, "web") == 2;
    assert Redundant(placed, rows, counts, "a", "web") && Redundant(placed, rows, counts, "b", "web");
    var first := Drop(placed, "a", Surplus(placed, rows, counts, "a"));
    DroppedTotal(placed, rows, "a", Surplus(placed, rows, counts, "a"), "web");
    DroppedTotal(first, rows, "b", Surplus(placed, rows, counts, "b"), "web");
    assert Count(first, "b", "web") == 1;
  }

  // ---- what the live agents keep ----

  function Live(rows: seq<AgentId>, live: set<AgentId>): seq<AgentId> {
    if rows == [] then []
    else if rows[0] in live then [rows[0]] + Live(rows[1..], live)
    else Live(rows[1..], live)
  }

  lemma {:induction false} LiveOnes(rows: seq<AgentId>, live: set<AgentId>)
    requires Distinct(rows)
    ensures Distinct(Live(rows, live)) && forall a :: a in Live(rows, live) <==> a in rows && a in live
  {
    if rows != [] {
      LiveOnes(rows[1..], live);
      assert rows == [rows[0]] + rows[1..] && rows[0] !in rows[1..];
    }
  }

  /** The trim counts every row of the books, also one of an agent no longer registered.
      What it leaves on live agents is enough exactly when the live agents alone cover
      the job without the returning one. */
  lemma TrimKeepsEnoughLiveIff(placed: Books, rows: seq<AgentId>, live: set<AgentId>, counts: map<JobName, int>,
                               a: AgentId, j: JobName)
    requires Distinct(rows) && a in rows && a in live && Redundant(placed, rows, counts, a, j)
    ensures var after := Drop(placed, a, Surplus(placed, rows, counts, a));
            Total(after, Live(rows, live), j) >= DesiredCount(counts[j]) <==>
            Total(placed, Live(rows, live), j) >= DesiredCount(counts[j]) + Count(placed, a, j)
  {
    LiveOnes(rows, live);
    DroppedTotal(placed, Live(rows, live), a, Surplus(placed, rows, counts, a), j);
  }

  // ---- how such a row comes about ----

  /** The registered agents, the books, and the accepts still to be tracked. */
  datatype Registry = Registry(live: set<AgentId>, placed: Books, untracked: seq<(AgentId, JobName)>)

  datatype Step =
    | Registers(a: AgentId, reported: map<JobName, nat>)
    | Removed(a: AgentId)
    | Accepts(a: AgentId, j: JobName)
    | Tracks

  predicate Enabled(c: Registry, e: Step) {
    match e
    case Registers(_, _) => true
    case Removed(a) => a in c.live
    case Accepts(a, _) => a in c.live
    case Tracks => c.untracked != []
  }

  function Apply(c: Registry, e: Step): Registry
    requires Enabled(c, e)
  {
    match e
    case Registers(a, reported) => c.(live := c.live + {a}, placed := c.placed[a := reported])
    case Removed(a) => c.(live := c.live - {a}, placed := c.placed - {a})
    case Accepts(a, j) => c.(untracked := c.untracked + [(a, j)])
    case Tracks => c.(placed := Track(c.placed, c.untracked[0].0, c.untracked[0].1), untracked := c.untracked[1..])
  }

  function Plays(c: Registry, steps: seq<Step>): Option<Registry>
    decreases |steps|
  {
    if steps == [] then Some(c)
    else if !Enabled(c, steps[0]) then None
    else Plays(Apply(c, steps[0]), steps[1..])
  }

  const NEWBORN := Registry({}, map[], [])

  // Every row of the books belongs to a live agent.
  predicate RowsLive(c: Registry) {
    c.placed.Keys <= c.live
  }

  /** Books without dead rows stay so through any step but one: tracking an accept of an
      agent removed in between. That one makes a dead row, whatever the job. */
  lemma DeadRowIffLateTracking(c: Registry, e: Step)
    requires RowsLive(c) && Enabled(c, e)
    ensures RowsLive(Apply(c, e)) <==> !(e.Tracks? && c.untracked[0].0 !in c.live)
  {
  }

  lemma {:induction false} PlaysThen(c: Registry, first: seq<Step>, rest: seq<Step>)
    requires Plays(c, first).Some?
    ensures Plays(c, first + rest) == Plays(Plays(c, first).value, rest)
    decreases |first|
  {
    if first == [] {
      assert first + rest == rest;
    } else {
      assert (first + rest)[1..] == first[1..] + rest;
      PlaysThen(Apply(c, first[0]), first[1..], rest);
    }
  }

  ghost predicate Reachable(c: Registry) {
    exists steps :: Plays(NEWBORN, steps) == Some(c)
  }

  lemma OneMore(c: Registry, e: Step)
    requires Reachable(c) && Enabled(c, e)
    ensures Reachable(Apply(c, e))
  {
    var steps :| Plays(NEWBORN, steps) == Some(c);
    PlaysThen(NEWBORN, steps, [e]);
    assert [e][1..] == [] && Plays(c, [e]) == Some(Apply(c, e));
  }

  lemma LateTracking() returns (c: Registry)
    ensures Reachable(c) && c.live == {"a"} && c.placed.Keys == {"a", "dead"}
    ensures Count(c.placed, "a", "web") == 1 && Count(c.placed, "dead", "web") == 1
  {
    assert Plays(NEWBORN, []) == Some(NEWBORN);
    OneMore(NEWBORN, Registers("dead", map[]));
    c := Apply(NEWBORN, Registers("dead", map[]));
    OneMore(c, Accepts("dead", "web"));
    c := Apply(c, Accepts("dead", "web"));
    OneMore(c, Removed("dead"));
    c := Apply(c, Removed("dead"));
    OneMore(c, Registers("a", map["web" := 1]));
    c := Apply(c, Registers("a", map["web" := 1]));
    OneMore(c, Tracks);
    c := Apply(c, Tracks);
  }

  /** An agent accepts, is declared dead and only then tracked; another one returns with
      the same job, and the trim drops the only live instance. */
  lemma GhostRowMisleadsTrim() returns (c: Registry, rows: seq<AgentId>, counts: map<JobName, int>)
    ensures Reachable(c) && Distinct(rows) && forall a :: a in rows <==> a in c.placed
    ensures "a" in c.live && Redundant(c.placed, rows, counts, "a", "web")
    ensures Total(Drop(c.placed, "a", Surplus(c.placed, rows, counts, "a")), Live(rows, c.live), "web") == 0
  {
    c := LateTracking();
    rows, counts := ["a", "dead"], map["web" := 1];
    assert rows[0] == "a" && rows[1] == "dead" && rows[1..] == ["dead"] && rows[1..][1..] == [];
    assert Total(c.placed, rows[1..], "web") == 1;
    assert Total(c.placed, rows, "web") == 2;
    var after := Drop(c.placed, "a", Surplus(c.placed, rows, counts, "a"));
    assert Live(rows[1..], c.live) == [];
    assert Live(rows, c.live) == ["a"] && ["a"][1..] == [];
    assert Count(after, "a", "web") == 0;
  }
}
