# hop, verified

A Dafny model of the state machines inside hop, a cluster orchestrator: one leader
places jobs on agents, every agent runs tasks, and on HopOS nodes a task lives in a
cage of contiguous cores. Each component is owned by one goroutine and driven by many
concurrent callers; what is proved here is what no single function shows.

| component | files |
|---|---|
| cage allocator, start/stop handshake, adoption | `SlotAllocator`, `SlotBooks`, `SlotProtocol`, `SlotSteps`, `SlotInvariant`, `SlotSafety`, `SlotPublish`, `HopRunner` |
| lease election and tick loop | `Lease`, `LeaseSafety`, `LeaseTiming`, `Discovery`, `AgentLoop`, `LoopContact`, `LoopLease` |
| leader scheduler | `Dispatch`, `Reconcile`, `Filling`, `Trim`, `Leader`, `RollingUpdate`, `UpdateOutcome`, `DaemonClaim`, `Tombstones`, `Bookkeeping`, `Priorities` |
| agent admission and restart | `Usage`, `Admission`, `AdmissionLimits`, `Agent`, `Restart` |
| committer and log ring | `Persist`, `LogRing` |

Two forms are used side by side. Sequential code is a class with the source's fields,
loops and maps; each method is proved equal to a function of the old state. Concurrent
code is a state machine over atomic steps (lock sections, operations of a state loop,
messages); theorems about it range over every run, that is every list of enabled
events from an initial state. Everything outside hop (agents' answers, the lease
store, the node, the clock, map iteration order) is an argument, so every answer is
covered.

## What is assumed

- Task IDs are fresh. A failed `StartStream` has cleaned up on the node when it
  returns, and tasks of before a kernel flip sit in disjoint cages
  (`HopRunner.AdoptionOwnsIffDisjoint` says when adoption preserves that).
- One Stop per task is in flight, where `SlotSafety.NeverMisdirected` says so; the
  other theorems about the handshake need no such discipline.
- The lease store hands out fresh handles, writes only against the current handle and
  deletes only by it; a request whose sender gave up may land later, again, or never.
  Nodes have distinct names and a common clock. A single leader at
  any time is claimed for runs with a reachable store in which leaders tick and claims
  finish in time (`LeaseTiming.TimelyRun`).
- Iterating a map yields all of its keys, in any order (`Filling.Lists`).
- Books equal tasks after a rolling update if every replacement in place hits an agent
  with one instance (`UpdateOutcome.SwapsOne`, see `RollingUpdate.SwapMatchesIffOne`).
- Requests to agents are answered reliably where books are compared with tasks.
- Members of one sharegroup carry equal CPU shares, a job's tags are not rewritten while
  it has tasks, a restart finds the limits its task was started with, and it is not the
  restart of a task that a replace has marked (`Admission.Polite`). What happens
  without the last, or when a replace changes the size of a pool, is in
  `AdmissionLimits`. A job record and its tasks need not go in one step.
- The agents of a daemon do not re-register during a run of `DaemonClaim`.
- A snapshot of the jobs can be encoded; it holds names, numbers, flags and maps only.
- No re-submit or update of a deleted name.

## Where the code does not do what one would expect

Each of these is a lemma with a concrete run or state. Beside it stands the condition
under which the code does keep the property, as an if-and-only-if wherever the table
below says so.

- Two overlapping Stops of one task can stop another task's cage.
- Sharegroup members restored after a kernel flip claim a whole pool of cages each.
- The comment at internal/agentloop/loop.go:172-176 promises no split brain when the
  lock store is unreachable; a node that is cut off alone keeps leading while another
  one takes the expired lease over.
- After a failed attempt to take over, an agent sends heartbeats to a leader it never
  registered with.
- Two agents that return at the same time can both drop the last instances of a job,
  and a row left for a dead agent misleads the trim.
- A deletion clears the claim of a reconcile that is under way.
- On the leader's node the start of a task accepted before a deletion puts the job record
  back until the agent's own delete or a sweep comes.
- A replace in place on an agent with several instances stops them all, booked as one
  for one.
- A hand-back that overtakes its own tracking leaves a placement nobody holds, and a
  hand-back for a task already stopped is booked off twice.
- Growing the pool of a sharegroup by a replace is admitted without counting the pool.
- The restart of a predecessor that a replace has marked survives the replace.
- A restart loop whose record is gone spins as long as no port is free.

Where documentation and code differ the code is followed: SEQUENCES.md:157-174 describes
take-over after three failures and jobs carried by heartbeats, the code takes over at
the fourth and heartbeats carry liveness only; a failed state commit is retried after
the next debounce, not only "on next change" as its log line says.

## Model

| member | source | states |
|---|---|---|
| SlotAllocator.AllocateSlot | internal/runner/hopos.go:410-461 | returns the least feasible run of contiguous cages, and an error only when there is none at all; the nested scan terminates although it has no upper limit |
| SlotAllocator.UnlimitedSearchEnds | internal/runner/hopos.go:414-423 | an unlimited scan finds a free cage at the latest at NumCores + 1 + the number of busy cages (pigeonhole) |
| SlotAllocator.AllocationPlacement | internal/runner/hopos.go:411-456 | shared cages lie above NumCores, SMP and class-bound runs wholly inside 1..NumCores, only those searches can fail, no allocated cage is in use or powered |
| SlotAllocator.AllocationUnique | internal/runner/hopos.go:410-461 | the specification has one answer, so any two correct searches agree |
| SlotBooks.ReleaseIsIdempotent | internal/runner/hopos.go:511-531 | releasing twice is releasing once, and never frees a cage recorded for another task |
| SlotBooks.ReleaseUndoesReserve | internal/runner/hopos.go:186-204 | a release takes back exactly what the reservation of a new task wrote |
| HopRunner.Runner.Reserve | internal/runner/hopos.go:184-205 | the first lock section of a start: allocate and record all cages, or refuse and leave the books untouched |
| HopRunner.Runner.BeginStop | internal/runner/hopos.go:267-285 | the lock section of Stop: an unknown task is not touched, a known one is marked before anything blocks |
| HopRunner.Runner.ArmTask | internal/runner/hopos_stream.go:171-174 | arming and reading the stopping flag are one section |
| HopRunner.Runner.Publish | internal/runner/hopos.go:222-231 | the process id is published if and only if the task is not marked as stopping and is still recorded at that very slot |
| HopRunner.Runner.ReleaseTask | internal/runner/hopos.go:511-531 | the loop over all cages and the six deletes equal the abstract release of that task alone |
| HopRunner.Runner.AdoptRunning | internal/runner/hopos.go:478-508 | adoption in any iteration order equals the fold of single adoptions |
| HopRunner.AdoptionOwnsIffDisjoint | internal/runner/hopos.go:478-499 | every adopted task owns all the cages it claims if and only if the claims are disjoint from each other and from cages handed out already |
| HopRunner.AdoptionOnlyAdds | internal/runner/hopos.go:478-499 | whatever is claimed: adoption moves nothing that is in the books, takes in exactly the tasks with a slot, and gives each new cage to somebody who claims it |
| HopRunner.SharegroupNeighboursOverlap | internal/agent/handoff.go:117-129 | the claims built from CPU shares are not always disjoint: neighbouring members of a sharegroup with a pool of two or more cores never both become owners |
| SlotInvariant.StepInv | internal/runner/hopos.go:184-322 | every step of every start and Stop, in any interleaving over any number of tasks, keeps the invariant on books, cages, starts, Stops and download turns |
| SlotSafety.OccupiedIsRecorded | internal/runner/hopos.go:186-205 | in every run a cage that is streamed into or live is recorded in slots and inUse for exactly its task, with all its neighbours of the same run |
| SlotSafety.StreamsIntoEmptyCages | internal/runner/hopos_stream.go:133-156 | no stream ever starts onto an occupied cage |
| SlotSafety.NoCageLeaks | internal/runner/hopos.go:212-231 | every recorded cage belongs to a start in progress, a running task, an adopted one, or one that a Stop marked and did not confirm released |
| SlotSafety.NotStartedMeansStopped | internal/runner/hopos_stream.go:70-83 | a start that answers 'not started' without an error still owns its cages and a Stop is in flight or has quarantined them |
| SlotPublish.PublishesIffNotStopped | internal/runner/hopos.go:222-231 | in every run the publishing step ends 'running' if and only if no Stop has marked or released the task, and then all its cages are in the books for it and armed; otherwise a Stop released it or one answers for it |
| SlotPublish.WaitingStopHasCancelled | internal/runner/hopos.go:288-306 | a Stop that waits has cancelled the start it waits for, which can therefore leave the queue and reports no failure of its own |
| SlotSafety.QuarantineHolds | internal/runner/hopos.go:294-306 | cages of an unconfirmed Stop are never allocated again while they are in the books |
| SlotSafety.AtMostFourStreams | internal/runner/hopos_stream.go:76-83 | at most four tasks stream at once |
| SlotSafety.StopOwnsItsSlot | internal/runner/hopos.go:288-322 | in every run, whatever the callers do: a Stop about to call sm.Stop owns the slot if and only if no Stop released its task in the meantime; a failing start that released first never gets it there |
| SlotSafety.NeverMisdirected | internal/runner/hopos.go:267-322 | with one Stop per task in flight, sm.Stop is only ever issued on a cage its caller still owns |
| SlotSafety.OverlappingStopsMisdirect | internal/runner/hopos.go:267-322 | without that discipline a reachable run stops another task's cage |
| Lease.StepInv | internal/discovery/discovery.go:296-385 | every read, decision, stamp, conditional write, release and clock step of any number of nodes, and every write or release that lands after its sender gave up, keeps the election invariant |
| LeaseSafety.WindowsNeverOverlap | internal/discovery/discovery.go:296-310 | the windows from write to expiry of distinct owners never overlap unless the first owner released |
| LeaseSafety.GenerationCountsOwners | internal/discovery/discovery.go:300-306 | between deletions the generation grows by exactly the number of owner changes and starts at one |
| LeaseSafety.ReleaseIsOwnAndLate | internal/discovery/discovery.go:347-361 | a release, answered or landing late, removes only the record of its own sender, and only while that sender does not lead |
| LeaseSafety.OneLeaderInsideItsWindow | internal/discovery/discovery.go:296-310 | in every run, whatever is delayed, lost or lands late: of all nodes that lead or just won, at most one is inside its own window, and then the record is its lease |
| LeaseTiming.TimelyTicksRenew | internal/agentloop/loop.go:86-107 | in every run with a reachable store, ticks at most `interval` apart and claims through within `delay`, each leader's last confirmed claim was stamped at most interval + delay ago |
| LeaseTiming.TimelyTicksMeanOneLeader | internal/agentloop/loop.go:86-164 | if that sum is shorter than the lease, at most one node leads in every state of every such run |
| LeaseTiming.LeadsAgainOnlyByClaim | internal/agentloop/loop.go:159-171 | a node that is out (told 'displaced', stepped down, or never leading) leads again only after a conditional write of its own was confirmed in between |
| LeaseTiming.SecondLeaderIff | internal/discovery/discovery.go:296-310 | beside a running leader another node's claim makes a second one if and only if the record it reads is gone, its own, or expired; never while the leader is inside its window |
| LeaseSafety.OutageMakesTwoLeaders | internal/agentloop/loop.go:172-185 | a run in which that happens: a leader cut off from the store that still sees an agent stays past its window |
| Discovery.Client.TryClaim | internal/discovery/discovery.go:296-310 | an undisturbed claim is the abstract decision plus one conditional write; held and store errors change nothing |
| Discovery.Client.Refresh | internal/discovery/discovery.go:368-386 | the handle is cached only when the write went through |
| Discovery.Client.RenewLease | internal/discovery/discovery.go:332-343 | displaced is told apart from an unreachable store, exactly |
| Discovery.Client.ReleaseLeadership | internal/discovery/discovery.go:347-361 | deletes by the cached handle only, and forgets it whatever the store answers |
| AgentLoop.Loop.Tick | internal/agentloop/loop.go:152-254 | one tick, with all its effects in order, equals its specification function |
| AgentLoop.Loop.OnLeaderFailed | internal/agentloop/loop.go:139-150 | the failure counter, the take-over attempt and the isolation guard in one failing tick |
| AgentLoop.Loop.DoStepDown | internal/agentloop/loop.go:113-126 | the local leader is stopped before the lease is released; stepping down twice is harmless |
| AgentLoop.LeaderStartsAndStopsAlternate | internal/agentloop/loop.go:113-137 | over any sequence of calls leaders are started and stopped in turn, and a lease is released only right after the stop of the local leader |
| AgentLoop.LeadsIffWonAndNotDroppedSince | internal/agentloop/loop.go:152-185 | after any sequence of calls the loop leads if and only if one of them won a claim and none since was told 'displaced', lost both store and agents, or ended the loop |
| AgentLoop.IsolationSchedule | internal/agentloop/loop.go:139-150 | after k failing ticks in a row: claims on every tick from the fourth, all tasks stopped on the seventh and every third one after it |
| AgentLoop.FailCountStaysBelowSeven | internal/agentloop/loop.go:139-150 | between calls the failure count stays within 0..6 |
| LoopContact.FollowerSends | internal/agentloop/loop.go:222-254 | a follower's tick with an address sends exactly one request, to that address: a registration if it is not registered and a heartbeat if it is |
| LoopContact.LeaderSends | internal/agentloop/loop.go:186-221 | a leader that stays one sends itself one heartbeat, and registers again right away if and only if that finds it forgotten |
| LoopContact.RegisteredIff | internal/agentloop/loop.go:222-249 | after any sequence of calls a loop is registered if and only if one of its registrations succeeded and none since was told 'not registered', stepped down or ended |
| LoopContact.AddressIsLastContact | internal/agentloop/loop.go:222-249 | the known address is the one of the last contact, unless it was forgotten since by 'not registered', a step-down or an attempt to take over |
| LoopContact.HeartbeatsWhereRegistered | internal/agentloop/loop.go:222-249 | a registered follower turns to the leader it registered with as long as it has not tried to take over since |
| LoopContact.AfterTakeOverIff | internal/agentloop/loop.go:128-137 | after a failed attempt the next heartbeat goes where the agent registered if and only if the store names that leader |
| LoopContact.TakeOverForgetsTheLeader | internal/agentloop/loop.go:128-137 | after a failed attempt to take over the next heartbeat can go to a leader the agent never registered with |
| LoopContact.FailCountIs | internal/agentloop/loop.go:139-150 | which calls reset the failure count, which count, and that nothing else changes it |
| LoopContact.EffectsIff | internal/agentloop/loop.go:113-185 | exactly when a call renews, claims, starts or stops a leader, gives the lease back or stops the node's tasks |
| LoopLease.CallKeepsAgreement | internal/agentloop/loop.go:113-164 | whatever other nodes do meanwhile: if a node leads in the election exactly if its loop's field says so, and the node's election steps are those of one call, the same holds after the call |
| LoopLease.LoopsTellTheTruth | internal/agentloop/loop.go:86-164 | over whole runs, between any two calls, a node has a local leader if and only if its loop's field says so |
| LoopLease.OneLoopLeads | internal/agentloop/loop.go:86-164 | under the tick schedule at most one of all the loops leads |
| LeaderState.Leader.RegisterAgent | internal/leader/leader.go:270-299 | what the books had for the agent is replaced by what it reports, nobody else's row changes, and a name taken by a live agent is refused untouched |
| LeaderState.Leader.RemoveAgents | internal/leader/health.go:63-83 | dead agents leave the list and the books, everybody else's rows stay |
| LeaderState.OrderedListIsUnique | internal/leader/leader.go:71-79 | the cached agent list is determined by the set of agents and lists none twice |
| LeaderState.Leader.NextAgent | internal/leader/dispatch.go:401-410 | round-robin cursor over the sorted agents |
| LeaderState.Leader.TrackPlacement | internal/leader/dispatch.go:105-112 | one more instance on that agent, nothing else in the books changes |
| LeaderState.Leader.MarkUnplaced | internal/leader/dispatch.go:120-128 | one instance less, never below zero, nothing else changes |
| LeaderState.Leader.FindVictim | internal/leader/dispatch.go:281-300 | in whatever order the map is walked, a least important job among those strictly less important than the newcomer, and none only if there is none |
| LeaderState.Leader.DispatchJob | internal/leader/dispatch.go:220-277 | both passes over the agents equal the specification; without preemption the answer tells 'full' from 'refused' |
| LeaderState.Leader.DispatchInstances | internal/leader/dispatch.go:77-102 | a taken claim changes nothing; otherwise dispatches up to the first failure, and the claim is given back |
| Dispatch.VictimIsLeastImportant | internal/leader/dispatch.go:281-300 | the scan finds a victim exactly when some job on the agent is strictly less important, and takes one of the least important |
| Dispatch.VictimIsUnique | internal/leader/dispatch.go:281-300 | with unique priorities the iteration order does not matter |
| Dispatch.RoundAsksEachAgentOnce | internal/leader/dispatch.go:228-245 | a round asks every agent exactly once from any cursor |
| Dispatch.FirstPassAsksInOrder | internal/leader/dispatch.go:226-245 | if none accepts, the agents that answered 'no capacity' are reported, in rotation order |
| Dispatch.DispatchEffect | internal/leader/dispatch.go:220-277 | success places exactly one instance on one agent, failure leaves the job's own placements alone, and whoever lost is strictly less important |
| Dispatch.WithoutPreemptionNobodyLoses | internal/leader/dispatch.go:246-254 | a dispatch without preemption takes nothing from any job |
| Filling.FirstPassIff | internal/leader/dispatch.go:227-245 | a round places the job if and only if one of its agents accepts, and then on the first that does, in rotation order |
| Filling.FullAgentsAre | internal/leader/dispatch.go:237-239 | the agents preemption turns to are exactly those that answered 'no capacity' in the round |
| Filling.SecondPassTries | internal/leader/dispatch.go:257-276 | preemption tries the full agents in that order until one has a victim, stops it and accepts; it gives up only when every one was hopeless |
| Filling.FailsOnlyIfRefusedByAll | internal/leader/dispatch.go:220-279 | a dispatch fails only after every agent was asked once and refused, and preemption was hopeless on every full one |
| LeaderState.Leader.ReconcileJob | internal/leader/health.go:146-218 | claimed jobs are skipped, daemons and regular jobs get their turn: the method is the turn that Filling.FilledUnlessRefused and Filling.DaemonReachesEveryAgent are about |
| LeaderState.Leader.ReconcileJobs | internal/leader/health.go:118-143 | a whole pass equals the fold of the turns; no jobs or no agents changes nothing |
| Reconcile.ReconcileEffect | internal/leader/health.go:146-216 | a turn never takes from its own job, never lifts it above max(start, desired), and takes only from strictly less important jobs |
| Filling.FilledUnlessRefused | internal/leader/health.go:193-217 | the turn of an unclaimed regular job ends with exactly the larger of its start and what is desired, or one of its dispatches was refused by all, as the answers show |
| Filling.FilledWhenAccepted | internal/leader/health.go:193-217 | with agents that accept everything it ends with exactly that number |
| Filling.DaemonReachesEveryAgent | internal/leader/health.go:153-190 | the turn of an unclaimed daemon asks every agent without it once; each has one afterwards if and only if it accepted, and nobody else's count changes |
| Filling.PassFillsUnlessRefused | internal/leader/health.go:118-143 | at the end of a pass every unclaimed job has what is desired, or one of its dispatches was refused by all |
| Filling.PassFillsWhenAccepted | internal/leader/health.go:118-143 | where every request is accepted, one pass leaves every unclaimed job filled and every unclaimed daemon on every agent |
| Filling.PassIgnoresCursor | internal/leader/health.go:132-133 | a pass starts at the first agent wherever the cursor was left |
| Reconcile.SettledAfterItsTurn | internal/leader/health.go:135-142 | after its turn a job's placements do not change for the rest of the pass |
| Reconcile.FilledStaysFilled | internal/leader/health.go:135-142 | a job filled at its turn is filled at the end of the pass |
| Reconcile.NeverAboveDesired | internal/leader/health.go:192-215 | a pass never lifts a job above max(its start, desired); a daemon never gets a second instance on an agent |
| Reconcile.LosersLostToMoreImportant | internal/leader/health.go:135-142 | whoever has fewer instances on an agent than before the pass lost them all there, in the turn of a strictly more important job |
| LeaderState.Leader.TrimReturningAgentSurplus | internal/leader/dispatch.go:144-200 | drops exactly the jobs of a returning agent that the other rows of the books cover |
| Trim.TrimKeepsEnough | internal/leader/dispatch.go:144-191 | no job falls below min(what it had, desired), daemons and other agents are untouched, and nothing redundant is left on the agent |
| Trim.OverlappingTrims | internal/leader/dispatch.go:151-191 | two trims that decide before either drops leave enough if and only if the rest of the cluster covers what both drop |
| Trim.OverlappingTrimsCanDropEverything | internal/leader/dispatch.go:151-191 | books in which that condition fails and nothing is left |
| Trim.TrimKeepsEnoughLiveIff | internal/leader/dispatch.go:156-175 | what a trim leaves on live agents is enough if and only if the live agents cover the job without the returning one; rows of dead agents count in the decision |
| Trim.DeadRowIffLateTracking | internal/leader/dispatch.go:105-110 | books without rows of dead agents keep that through any step but the tracking of an accept whose agent was removed in between |
| Trim.GhostRowMisleadsTrim | internal/leader/dispatch.go:105-110 | a run of registration, accept, removal and late tracking after which the trim drops the only live instance |
| RollingUpdate.Cluster.UpdateOne | internal/leader/update.go:112-150 | one old instance: place the successor first, swap in place only when all is full, keep the old one on failure |
| RollingUpdate.Cluster.UpdateRolling | internal/leader/update.go:102-173 | the loop over the old instances under the claim, released on every path, with the new record stored first: the update that UpdateOutcome.CompletedMeansReplaced is about |
| RollingUpdate.Cluster.UpdateBlueGreen | internal/leader/update.go:203-238 | all new ones first, all old ones afterwards, equal to its specification |
| RollingUpdate.Cluster.StopOldTask | internal/leader/update.go:243-254 | stops one task and books one placement off, never below zero |
| RollingUpdate.Cluster.UpdateJob | internal/leader/update.go:45-98 | an unknown name, an unknown policy or a locked job is refused and nothing changes; otherwise the update runs under the claim, the new record keeps the old priority unless one is given, and it is marked as deploying afterwards if and only if the update was aborted |
| RollingUpdate.RollingKeepsEnough | internal/leader/update.go:102-177 | at every point the job's placed total is at least min(start, count), a completed loop ends at exactly that, a failed one leaves the total as it was, and no other job's placements change |
| RollingUpdate.RollingMatches | internal/leader/update.go:112-150 | as long as each in-place replacement hits an agent with one instance, the books count the running tasks and every old instance not yet dealt with still runs, also after a failure |
| RollingUpdate.SwapMatchesIffOne | internal/agent/handlers.go:352-392 | a replace keeps books and tasks equal if and only if the agent ran one instance of the job |
| RollingUpdate.ReplaceOfTwoLosesOne | internal/leader/update.go:121-140 | two old instances on one full agent become one task booked as two |
| RollingUpdate.BlueGreenKeepsEnough | internal/leader/update.go:203-238 | a failed update keeps every old instance running, a completed one ends at the desired number, no other job is touched |
| UpdateOutcome.CompletedMeansReplaced | internal/leader/update.go:45-98 | after a completed update no old instance runs, exactly the desired number of new ones does (for a rolling one at most as many as there were old ones), books equal tasks, and no other job is touched |
| UpdateOutcome.AbortedMeansNoFewer | internal/leader/update.go:45-98 | after an aborted one the job has no fewer instances than before, and for blue-green all old ones run |
| UpdateOutcome.AbortsOnlyIfAllRefuse | internal/leader/update.go:115-144 | it is aborted only after a whole round of agents refused, and a rolling one only if replacement in place was refused too where it was to be tried |
| UpdateOutcome.CompletesWhenAccepted | internal/leader/update.go:45-98 | where every request is accepted it completes, with books equal to tasks |
| RollingUpdate.UpdateReleasesItsClaim | internal/leader/update.go:60-98 | whatever the policy and whatever happens, the claims after an update are those from before |
| LeaderState.Leader.UpdateRecreate | internal/leader/update.go:180-200 | the recreate policy equals its specification: forget and stop all, give the claim back, dispatch |
| Reconcile.RecreateEffect | internal/leader/update.go:180-200 | from any books a recreate ends with at most the desired number, and whoever else lost instances is strictly less important |
| Filling.RecreateFillsUnlessRefused | internal/leader/update.go:176-200 | a recreate asks every holder to stop, and ends with exactly the desired number unless a dispatch was refused by all |
| Filling.RecreateReachesEveryAgent | internal/leader/update.go:176-200 | a daemon is recreated with exactly one on every agent that accepts |
| DaemonClaim.StepInv | internal/leader/health.go:153-190 | every step of any number of concurrent reconciles, every operation the state loop takes from its queue, and hand-backs, preemptions, removals of agents and deletions in between keep the claim invariant |
| DaemonClaim.AcceptedAtMostOnce | internal/leader/health.go:153-190 | an agent accepts a daemon at most once, plus once for every booked placement that was lost there (hand-back, preemption, removal, deletion), as long as deletions find the claim free; at most one reconcile is past the claim |
| DaemonClaim.ClearClaimKeepsIff | internal/leader/dispatch.go:392-394 | clearing the claim at the end of a deletion keeps the invariant if and only if nobody holds it |
| DaemonClaim.ClearedClaimIsGrantedTwice | internal/leader/dispatch.go:392-394 | cleared under its holder, with nothing queued, the claim is granted to any other idle reconcile while the first is still past it |
| DaemonClaim.DeletionBreaksTheClaim | internal/leader/dispatch.go:392-394 | a run in which it is held: after a new submission the same agent accepts twice although no placement of it was lost |
| Tombstones.StepInv | internal/leader/dispatch.go:325-335 | tombstone, removal, pruning, stale copies, rewrites, checks, accepts and the starts of accepted tasks keep the deletion invariant |
| Tombstones.LateAcceptsWereCheckedBefore | internal/leader/dispatch.go:426-437 | within the tombstone's lifetime every acceptance after the deletion comes from a dispatch that checked before it |
| Tombstones.OnlyEarlyDispatchesRevive | internal/agent/handlers.go:539-549 | rewrites from stale snapshots never bring the record back; only an accept, or the start of an accepted task, on the leader's own node can, and within the lifetime only for a dispatch that checked before the tombstone |
| Tombstones.LateStartRevives | internal/agent/handlers.go:539-549 | a run in which the start of a task accepted before the tombstone brings the removed record back |
| Tombstones.PassesIffExpired | internal/leader/dispatch.go:431-437 | a stale copy passes the check if and only if the tombstone has expired |
| Bookkeeping.StepGap | internal/leader/dispatch.go:105-128 | what one step does to the gap between books and tasks: a hand-back for a task already stopped takes one off, a booking-off that finds zero adds one, nothing else changes it |
| Bookkeeping.BooksBalance | internal/leader/dispatch.go:105-128 | over every run the gap is the latter minus the former, per agent and job, so the books over-count or under-count exactly when one of them prevails |
| Bookkeeping.AlwaysRightIff | internal/leader/dispatch.go:105-128 | the books are right all along a run if and only if it holds neither |
| Bookkeeping.MissesAreOvertakings | internal/leader/dispatch.go:120-125 | with no task stopped while it is started or restarted, a booking-off finds zero only when it overtakes the tracking of an accept still under way |
| Bookkeeping.NeverUnderCounts | internal/agent/handlers.go:654-658 | in every run of accepts, starts, restarts, hand-backs and stops in which no task is stopped while it is started or restarted, placed + untracked is at least held + hand-backs under way |
| Bookkeeping.PhantomHandBackUnderCounts | internal/agent/handlers.go:654-658 | a reachable state in which one task is held and the books say none |
| Bookkeeping.OvertakenHandBackIsNeverRetried | internal/leader/dispatch.go:120-125 | a reachable state with nothing held, nothing under way and one booked |
| Priorities.NormaliseIsDenseAndKeepsOrder | internal/leader/health.go:95-115 | priorities become 0..N-1 on the same records in the order of the old priorities, ties by name, unset last |
| Priorities.SortOrdersByPriority | internal/leader/health.go:95-104 | smaller numbers come first, any number before none at all, ties go by name |
| Priorities.NormaliseIgnoresOrder | internal/leader/health.go:95-102 | the result does not depend on the order in which the store yields its jobs |
| Priorities.SortedUnique | internal/leader/health.go:96-102 | there is one sorted order, whatever the sorting algorithm |
| Priorities.NormaliseIsIdempotent | internal/leader/health.go:95-115 | normalising again changes nothing, in whatever order the jobs come back |
| Priorities.PatchMovesOneJob | internal/leader/leader.go:366-403 | the job lands at the clamped index, the others keep their order, and all are numbered 0..N-1 |
| Priorities.PatchIsNormalised | internal/leader/leader.go:366-403 | a normalisation after the move changes nothing, in whatever order the jobs come back |
| Priorities.RewriteOnlyOverwrites | internal/leader/leader.go:396-403 | rewriting from a snapshot never adds a name that left the store and touches no name outside the snapshot |
| Priorities.NormalisedPass | internal/leader/health.go:129-142 | a normalised snapshot meets what the pass theorems ask of their jobs |
| Priorities.Rewriter.NormalizePriorities | internal/leader/health.go:95-115 | the in-place loop returns the normalised list and rewrites in the store what changed |
| Priorities.Rewriter.PatchJobPriority | internal/leader/leader.go:366-407 | an unknown name changes nothing, otherwise every job still there gets the number of its place |
| Usage.ResourceUsageExcluding | internal/agent/agent.go:583-605 | for every iteration order: memory is the plain sum, and with equal pools CPU is the ungrouped sum plus one pool per sharegroup |
| Usage.UsageIsOrderFree | internal/agent/agent.go:583-605 | the walk over any order equals the order-free sum |
| Usage.OrderFreeIffUniform | internal/agent/agent.go:590-604 | the result is independent of the iteration order if and only if the members of each group carry equal shares |
| Admission.StepInv | internal/agent/handlers.go:282-366 | accept, replace, start, failure, hand-back, stop, restart swap, delete and record rewrites keep the capacity invariant |
| Admission.CapacityHolds | internal/agent/handlers.go:282-366 | over every run CPU (one pool per group) and memory of all tasks, leaving out predecessors marked by a replace, stay within the effective capacity |
| Admission.CapacityHoldsForAll | internal/agent/handlers.go:282-366 | with no replace in progress that is all tasks |
| Admission.ViewCountsNoLess | internal/agent/agent.go:609-614 | a sharegroup whose job record is gone can only make the agent count more |
| Admission.AdmitsIff | internal/agent/handlers.go:318-350 | the admission check says yes if and only if the others' CPU plus the newcomer's share (nothing if its sharegroup runs) and their memory plus its own fit, and a new partition fits the hole |
| AdmissionLimits.GrownPoolFitsIff | internal/agent/handlers.go:313-324 | a replace that changes the size of a pool only its own job carries ends within capacity if and only if the counted usage plus the new pool fits; the check asks for the counted usage alone |
| AdmissionLimits.GrownPoolOvercommits | internal/agent/handlers.go:313-324 | on a node filled by two ordinary starts a replace is admitted after which three cores are handed out of two |
| AdmissionLimits.SwapOfMarkedFitsIff | internal/agent/handlers.go:763-776 | the restart swap of a predecessor marked by a replace keeps CPU capacity if and only if there is room for its shares once more (none needed if its sharegroup is reserved by others that count), and memory capacity if and only if there is room for its memory once more |
| AdmissionLimits.RestartOfReplacedOvercommits | internal/agent/handlers.go:763-776 | a run of start, failed start and replace after which that swap hands out two cores of one |
| AgentState.CostCoversWithLeastUnits | internal/agent/handlers.go:282-306 | HopOS costs are whole cores (at least one) and whole 2 MB blocks, at least what was asked and with no unit to spare |
| AgentState.Agent.HandleRun | internal/agent/handlers.go:250-380 | accepted if and only if affinity matches, the sums fit and the largest hole is large enough; a refusal, also of a replace, changes nothing, and an acceptance reserves, registers and marks in one step |
| AgentState.Agent.StartJob | internal/agent/handlers.go:539-549 | a start registers its job again, with what the task was started with, unless the task was stopped |
| AgentState.Agent.Started | internal/agent/handlers.go:578-598 | a task swept away while it started, or whose job was, is not put back; a record that is still there is written back, one that is gone is not |
| AgentState.Agent.ReleaseUnplaceable | internal/agent/handlers.go:654-658 | drops the reservation of an unplaceable task |
| AgentState.Agent.SwapTask | internal/agent/handlers.go:763-780 | out and in are one step; a task that disappeared is not replaced |
| AgentState.Agent.StopJobTasks | internal/agent/handlers.go:486-501 | exactly the job's tasks are marked and then removed, with or without its record |
| Restart.RestartTask | internal/agent/handlers.go:663-839 | for any limit and any world in which the loop ends, it ends in the state its specification says, a replacement swept away while it started included |
| Restart.StartsAndResetsAreBounded | internal/agent/handlers.go:695-720 | for any number of iterations: at most max(0, M - c) runner starts, at most one reset of the count, and only if the attempt before really ran |
| Restart.AttemptsAreCleanedUp | internal/agent/handlers.go:664-675 | the failed task, every failed start and a replacement swept away while it started had exactly one cleanup call before the loop ends, giving up included |
| Restart.GivesUpIff | internal/agent/handlers.go:695-720 | the loop gives up if and only if the count it decides by (after an earned reset) has reached the limit |
| Restart.IterationIff | internal/agent/handlers.go:675-839 | exactly when an iteration starts the runner, with which count, and exactly when another one follows |
| Restart.BudgetIsSpentExactly | internal/agent/handlers.go:695-720 | where every start fails and nothing else interferes: exactly max(0, M - c) starts, and then the loop gives up |
| Restart.FirstSuccessEndsIt | internal/agent/handlers.go:763-834 | the first start that succeeds within the budget ends the loop with the task running and its count one up per start |
| Restart.RestartEnds | internal/agent/handlers.go:663-839 | the loop ends within M + 1 iterations unless the record is gone while the ports fail |
| Restart.GoesOnForeverIff | internal/agent/handlers.go:695-754 | with a limit M the loop goes on for ever if and only if M > 0 and after at most M + 1 iterations the record is gone, the job stays and the ports never come free |
| Restart.AbandonedTaskSpins | internal/agent/handlers.go:743-754 | a world in which it does, for every M > 0 |
| Persist.NoMutationIsLost | internal/leader/persist.go:117-171 | in every interleaving, across failed saves: the token is set, a mutator has still to mark, a flush is under way that will cover everything queued, or the saved snapshot is what the store will be |
| Persist.AtRestAllIsCommitted | internal/leader/persist.go:117-147 | once everything has come to rest the committed snapshot is the store |
| Persist.CommittedStore.LoadCommittedState | internal/leader/persist.go:68-103 | loading leaves exactly the snapshot's jobs; without a usable snapshot the store is untouched |
| Persist.ListedHoldsLast | internal/agent/agent.go:549-558 | a list of records stored one by one leaves each name with its last entry |
| Persist.CommittedStore.UpdateJob | internal/leader/persist.go:161-167 | writes the new record over an existing one and then marks; does neither where there is none |
| LogRing.LogBroadcaster.Write | internal/runner/logs.go:31-49 | the ring keeps refining the full history, and every listener gets the line unless its channel is full; nothing is ever sent on a closed channel |
| LogRing.LogBroadcaster.Tail | internal/runner/logs.go:52-62 | exactly the last min(50, n) lines of the history, in order |
| LogRing.LogBroadcaster.Subscribe | internal/runner/logs.go:71-88 | the new channel holds exactly the tail, which never fills it; on a finished log it is closed after that |
| LogRing.LogBroadcaster.Unsubscribe | internal/runner/logs.go:91-102 | closes and forgets that listener only; no channel is closed twice |
| LogRing.LogBroadcaster.Close | internal/runner/logs.go:105-116 | every listener is closed, what it was sent stays readable |
| LogRing.StreamIsTailThenSubsequence | internal/runner/logs.go:71-88 | a subscriber is sent the tail at joining followed by a subsequence of the later lines |

## Left out

- Lease.StepInv: the lock backends themselves (in memory, S3, hoplock server) are not part of this model; only the conditional record they offer is.
- Persist.NoMutationIsLost: a snapshot that cannot be encoded is excluded, see above; an accepted run on the leader's own node writes the job map without going through the decorated store, so it does not mark; only mutations through the store are covered.
- Restart.RestartTask: the back-off delays and their jitter are not modelled.
- Restart.AttemptsAreCleanedUp: a cleanup call that fails is only logged by the source; whether one succeeded is not part of the model.
- Admission.CapacityHolds: negative CPU shares, which the decoder does not refuse, and sums beyond the machine integers are not modelled.
- AgentState.Agent.HandleRun: affinity is a yes or no and the fragmentation of the memory pool is the largest free hole given as an argument.
- DaemonClaim.AcceptedAtMostOnce: a re-registration, which replaces an agent's row by what it reports, is not a step of the model.
- Reconcile.NeverAboveDesired: a sequential statement; the count of a regular job is taken before its claim, so concurrent reconciles may exceed it.
- RollingUpdate.RollingKeepsEnough: sequential with respect to the job's books; cancelling the leader during the pause between instances is every state of the loop, not a step of its own.
- RollingUpdate.Cluster.UpdateJob: the recreate policy is a method of its own, `LeaderState.Leader.UpdateRecreate`, without a comparison of books and tasks; the renumbering after an update is that of `Priorities`; of a definition only count, priority and the deploying mark are kept.
- Tombstones.OnlyEarlyDispatchesRevive: the bounded sweep after a deletion is a removal that may happen again at any time.
- Priorities.NormaliseIsDenseAndKeepsOrder: sort.Slice is any sort (there is one result); priorities are unbounded integers.
- LogRing.LogBroadcaster.Write: overflow of the write counter is not modelled, and the retention of finished logs is left out.
- SlotInvariant.StepInv: logs, progress reports, download stall timers and fault logging of a start are left out; they do not touch the books.
- HTTP handlers, proxying, event streams, signing, the CLI, configuration, init jobs and job construction.
- The docker and process runners, downloads and extraction.
- Health probes, usage measurement and nice levels.
- Heartbeats, agent timeouts and the settle period after a start: they decide when agents are removed and when a pass runs, which here may happen at any time.
