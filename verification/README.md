# A verified model of the Agentworks controller

This project models the controller that runs a set of stories with a team of agents, and proves what the
controller is for. The controller plans actions from a snapshot (assign a writer or a reviewer, merge,
clean up, complete), carries them out against Git and an agent launcher, merges its result with concurrent
commits, and advances stories when child agents report. Around it stand a framed protocol, a bound check
on untrusted JSON, the pane grid of the agents' terminal tab, the protected-branch patterns, a notification
cache, the executor's operation queue and two Git output parsers.

To verify the project, run `dafny verify dfyconfig.toml` in this directory.

## What is proved

- **Ordering and scheduling.** Kahn's ordering answers exactly for acyclic plans without repeated
  dependencies, and its ties are settled by levels that the dependencies and the input order determine. A refused
  plan gets exactly the list of its faults. The scheduler reports a deadlock exactly when every pending story has a
  path to a failed one, so an accepted plan without failures always completes.
- **Ticks and drains.** In every reachable state a tick whose external effects succeed carries out all it
  admitted: no transition is invalid and no guard of its own fires. Under the stated cooperation of the
  outside world a drain is quiet by its third tick, or one tick later for each agent that a launch recovers instead
  of creating, for any number of stories in any mode. The default limit is never reached, and the agents never take
  more slots than the mode has.
- **Whole runs.** Under every interleaving of ticks, child messages, parent controls, agent commits and
  story controls, merged work carries exactly the writer, reviewer and heads of its last approving review,
  the reviewer is not the writer, a story with a writer has all its dependencies merged, and merged work is
  final.
- **Outcomes.** For every state transition, tick, effect, child message, parent control and supervision pass: exactly
  when it takes effect, and exactly which records it leaves, read off statuses and fields alone. A rejected plan is
  planned again, a rejected story starts again, a merge waits for a closed reviewer, a nudge goes to its own pane.
- **Agents.** The attention fields of every reachable agent follow its status; child messages stay within
  their bounds; recorded nudges are bounded in number and in time.
- **Supporting algorithms.** Chunking never changes what a byte stream decodes to; an explicit stack decides
  exactly the recursive size, depth and content bounds; split plans introduce every slot once; the tiling check
  is exact; compiled globs keep their meaning; the notification cache refines an unbounded log; executor
  operations exclude each other in order; the porcelain parsers invert their printers.

## Where the code and a natural reading differ

Each of these is stated by a lemma named here.

- A dependency listed twice makes an acyclic plan unorderable, because the count starts at the length of the
  list but drops once per distinct dependency (`StoryPlanning.DuplicateDependencyIsNotOrdered`). The plan
  schema (`src/domain/initial-story-plan.ts:29`) excludes such lists.
- A pause or a close that is committed while a tick awaits its effects is overwritten when the tick commits. It
  survives exactly when an effect fails or another commit lands between the tick's reload and its second attempt
  (`ParentControl.HaltDuringTickSurvivesIff`; `TickExamples.PauseDuringTickIsLost` is a concrete pause). The code
  does not wait between those two, so that second commit needs another process.
- A writer lease is released before Git is asked for the candidate and before the snapshot is committed, and is not
  given back. The writer is left without it exactly when the clock, Git or a blank head fails the candidate, or
  when another commit got in first (`AgentLifecycle.CandidateStrandsWriterIff`), and is then refused every further
  candidate, start and heartbeat (`AgentLifecycle.LacksLeaseIsRefused`), although the error for the second case
  asks for a retry (`AgentLifecycle.StaleCandidateStrandsWriter`: a parent control that lands while the role is
  looked up).
- Launch capacity reserves a slot for every launch, but a launch that recovers an agent takes none. A launch held
  back for it is made up for in a later tick (`TickExamples.RecoveringTickLeavesALaunch` is a concrete tick, and
  `DrainQuiescence.DrainBound` what it adds to a drain).
- An idle agent's next nudge or escalation waits from its last activity only until its first nudge, and from its last
  nudge ever after, however recently it has worked (`IdleSupervision.ActivityPostponesIffNeverNudged`, and for a
  single operation `IdleSupervision.OperationPostponesIffNeverNudged`).
- A nudge is sent before it is recorded. When another commit lands while Herdr is asked, the pane has received a nudge
  that is not counted (`IdleSupervision.OvertakenNudgeIsNotCounted` is a concrete pass); the number sent is the number
  counted exactly when no commit landed like that (`IdleSupervision.SentIsCountedIffNotOvertaken`, whose steps are
  what a pass does to the stored record by `IdleSupervision.PassIsOneStep`).
- `**` compiles to `.*`, which stops at a line terminator, so compiled patterns agree with the glob meaning
  exactly on branches of one line (`BranchProtection.AgreementIffSingleLine`).
- For three to six panes the returned splits are fixed and do not build the rows and columns that the same
  plan lists (`PaneGrid.PlanMatchesItsCellsIff`). The product documentation promises a 2x2 and a 2x3 grid
  for four and six panes; the model follows the code.

## Hypotheses

The outside world enters as parameters. A Git or launcher call answers with a value or fails; every clock
reading is a parameter; a snapshot that other writers commit during a tick is a parameter. The repository is
the contract "commit iff the expected revision is current, then advance it". The drain theorem
(`DrainQuiescence.FavourableDrain`) asks of every tick that effects succeed; that a launch returns the agent on
record under its own id, still holding its slot in the role asked for, or one not seen before; and that nothing else
commits except launchers recording those agents. Ids per launch are distinct because the agent factory derives them
from run, story, kind and role (`src/application/launch/controller-agent-factory.ts:33-46`).

The whole-run theorems allow any concurrent commit that leaves the stories alone, and take reviewers' ids to survive
trimming: an approval stores the id trimmed but compares it with the writer's untrimmed
(`RunSafety.ReviewerDiffersIffTrimmedDiffers` is the exact condition). Every id of the agent factory meets this
(`RunSafety.FactoryIdsSurviveTrimming`). Time is taken to move forward only where a lemma says so.

## Model

| member | source | states |
|---|---|---|
| StoryPlanning.TopologicalOrder | src/domain/story-planning.ts:129-163 | An order is found iff the dependencies are acyclic and no list repeats one; it is a permutation with dependencies first, the one that repeated passes over the input leave, and an ordered plan comes back unchanged |
| StoryLevels.TiesBreakByLevel | src/domain/story-planning.ts:123-163 | What the passes leave is sorted by level and then by input position, where a level is the least that lets all dependencies come first |
| StoryLevels.LevelsAreDetermined | src/domain/story-planning.ts:123-163 | Dependencies and input order leave no choice of levels, so the order is determined |
| StoryPlanning.OrderPass | src/domain/story-planning.ts:140-155 | One pass keeps the ordered prefix valid and every remaining count exact, and makes no progress only when nothing is ready |
| StoryPlanning.ReleaseDependents | src/domain/story-planning.ts:143-151 | Ordering a story leaves every remaining count equal to the dependencies still undone |
| StoryPlanning.ValidateAndOrderStories | src/domain/story-planning.ts:80-127 | Refuses an empty plan, then with all faults in order, then a cycle; accepts iff the plan is acceptable, acyclic and its lists are duplicate-free, with the order the passes leave |
| StoryPlanning.IssuesAreTheFaults | src/domain/story-planning.ts:83-118 | A complaint is listed iff the plan has the fault it names |
| StoryPlanning.AcceptableIffNoIssues | src/domain/story-planning.ts:83-118 | Nothing is listed iff ids are distinct slugs, dependencies known and not their own story, and something is writable |
| StoryPlanning.SlugIffHyphenated | src/domain/story-planning.ts:72 | An id is a slug iff it is non-empty groups of lower-case letters and digits joined by single hyphens |
| StoryPlanning.OrderedIsAcyclic | src/domain/story-planning.ts:129-163 | A plan that can be ordered has no dependency cycle |
| StoryPlanning.StuckIsCyclic | src/domain/story-planning.ts:129-163 | Stories left when no count is zero contain a cycle |
| StoryPlanning.DuplicateDependencyIsNotOrdered | src/domain/story-planning.ts:133-136 | A concrete acyclic plan that fails only because one dependency is listed twice |
| Scheduling.ScheduleStories | src/domain/scheduling.ts:92-146 | Decides iff ids are unique and dependencies known; startable, blocked, counts, capacity and the deadlock flag are the specified ones |
| Scheduling.DeadlockedIffFailureReached | src/domain/scheduling.ts:117-146 | With acyclic dependencies, pending work and nothing running, deadlocked iff every pending story has a path through pending stories to a failed one |
| Scheduling.RoundAdvances | src/domain/scheduling.ts:92-146 | With no failures and work pending, starting and finishing what is startable completes at least one story |
| Scheduling.AcceptedPlanCompletes | src/domain/story-planning.ts:80-127 | Repeated rounds complete every story of an accepted plan under any concurrency cap |
| Scheduling.StoryConcurrencyCap | src/domain/scheduling.ts:82-84 | The cap leaves room for a manager and a reviewer and is at least one |
| SchedulingProgress.NothingStartableAfterStart | src/domain/scheduling.ts:92-146 | Once everything startable has been started, nothing further is startable |
| Orchestration.ReserveAgentLaunchCapacity | src/domain/orchestration.ts:50-82 | Admits every other action and exactly the first launches that fit the free slots |
| Orchestration.PlanOrchestration | src/domain/orchestration.ts:109-150 | Plans iff the stories can be scheduled, and then exactly the needed actions that fit the agent limit |
| Orchestration.NeededIffWarranted | src/domain/orchestration.ts:109-150 | An action is planned exactly when some story's state calls for it |
| Orchestration.StatusDecidesAction | src/domain/orchestration.ts:84-140 | A story's status determines the only action that may name it |
| Orchestration.OneActionPerStory | src/domain/orchestration.ts:109-150 | Two planned changes of one story are the same action |
| Orchestration.NeededIsIndependent | src/domain/orchestration.ts:109-150 | A plan never changes a story twice and completes the run last |
| Orchestration.AdmitKeepsIndependence | src/domain/orchestration.ts:50-82 | Dropping launches for lack of slots keeps a plan independent |
| OrchestrationEffects.ExecuteFrame | src/application/orchestration/controller-orchestration-effects.ts:54-122 | An effect keeps the stories' identity and order and touches only the story it names |
| OrchestrationEffects.StoryChangeSucceeds | src/application/orchestration/controller-orchestration-effects.ts:146-336 | A permitted action on a story with its evidence in place succeeds, does what it is for, and leaves the other stories alone |
| OrchestrationEffects.EnabledActionsSucceed | src/application/orchestration/controller-orchestration-effects.ts:146-361 | Independent actions enabled when planned all succeed in sequence, each story showing its own action's effect only |
| OrchestrationEffects.LaunchesGrow | src/application/orchestration/controller-orchestration-effects.ts:97-105 | A tick's launches keep every agent in its place, append one record per agent created, and put every returned agent on record once |
| EffectOutcomes.WriterIsAssigned | src/application/orchestration/controller-orchestration-effects.ts:146-177 | Succeeds iff the writer launched, its id is no blank, and the story is ready or was sent back; nothing of a rejected attempt stays on record |
| EffectOutcomes.ReviewerIsAssigned | src/application/orchestration/controller-orchestration-effects.ts:179-213 | The launched reviewer is put on record at once, and nothing else of the story changes |
| EffectOutcomes.StoryIsMerged | src/application/orchestration/controller-orchestration-effects.ts:215-277 | Merges iff the story is approved with all four pieces of evidence and Git answers a commit; without evidence Git is not asked |
| EffectOutcomes.StoryIsCleaned | src/application/orchestration/controller-orchestration-effects.ts:279-336 | Marks the workspace cleaned iff the story has its merge evidence and Git succeeded |
| EffectOutcomes.RunIsCompleted | src/application/orchestration/controller-orchestration-effects.ts:338-361 | Completes iff the run is active, every story is merged and the clock is not behind |
| EffectOutcomes.UnknownStoriesFail | src/application/orchestration/controller-orchestration-effects.ts:80-86 | An action about an unknown story fails before anything is launched or asked of Git |
| ControllerRepository.Repository.CommitSnapshot | src/application/ports/controller-repository.ts:263 | Commits iff the expected revision is current, and advances it |
| OrchestrationLoop.MergeAgentLists | src/application/orchestration/orchestration-loop.ts:51-69 | The loops compute the merge of the two agent lists |
| AgentMerging.MergeKeepsNewest | src/application/orchestration/orchestration-loop.ts:51-69 | A merge loses and invents no agent and keeps the newest record of each, the committed one on a tie |
| OrchestrationLoop.Loop.RunEffects | src/application/orchestration/orchestration-loop.ts:251-260 | Threads the changing snapshot through the effects, confirming launches, and stops at the first failure |
| OrchestrationLoop.Loop.Prepare | src/application/orchestration/orchestration-loop.ts:174-249 | Decides before any effect whether the tick rests, has nothing to do, or works, and on what |
| OrchestrationLoop.Loop.CommitIntended | src/application/orchestration/orchestration-loop.ts:262-306 | Commits on the revision read, or merges with what was committed meanwhile and tries once more |
| OrchestrationLoop.Loop.ExecuteTick | src/application/orchestration/orchestration-loop.ts:174-306 | The method refines the tick function: same result, snapshot and confirmed launches |
| OrchestrationLoop.Drain | src/application/orchestration/orchestration-loop.ts:110-142 | Returns after the first tick without actions with all actions and commits of the ticks run, or fails at the limit or at the first failing tick |
| TickOutcomes.MergeRequestedIff | src/application/orchestration/orchestration-loop.ts:71-89 | A tick requests a merge iff some story of that id is approved and the agent on record as its reviewer is closed |
| TickOutcomes.CleanupRequestedIff | src/domain/orchestration.ts:116-120 | A tick requests a cleanup iff some story of that id is merged and not yet cleaned |
| TickOutcomes.ReviewerWantedIff | src/domain/orchestration.ts:126-130 | A reviewer is wanted iff some story of that id awaits review without one |
| TickOutcomes.CompletionRequestedIff | src/domain/orchestration.ts:142-147 | A tick completes the run iff there are stories and all of them are merged |
| TickOutcomes.StartsTheFirst | src/domain/orchestration.ts:84-140 | The stories started are the first ready or sent-back ones with merged dependencies, as many as the cap leaves over the stories in flight; failed and blocked stories hold no place |
| TickOutcomes.StartedWhenPlaced | src/domain/orchestration.ts:84-140 | A story that may start is started when fewer stories before it may than there are places left |
| TickOutcomes.TeamWantedIff | src/application/orchestration/orchestration-loop.ts:213-239 | A team member is wanted iff nobody in the role is past launching or confirmed |
| TickOutcomes.RestsUnlessReadyOrActive | src/application/orchestration/orchestration-loop.ts:174-186 | A tick leaves a run alone iff it is neither ready nor active |
| TickOutcomes.WorksOnStartedRun | src/application/orchestration/orchestration-loop.ts:188-249 | A tick on a ready or active run starts it first, and works iff the clock and the dependencies allow and something is due |
| TickOutcomes.SlotsAreHeldUntilClosed | src/domain/scheduling.ts:23-31 | The occupied slots are the number of agents that have yet to close |
| TickOutcomes.CommitAdvancesOnce | src/application/orchestration/orchestration-loop.ts:262-306 | A commit advances the revision it found by one and takes run and stories from the tick alone |
| DrainQuiescence.AdmittedShape | src/domain/orchestration.ts:50-150 | What a tick admits is independent, and each part is a team launch or called for by a story |
| DrainQuiescence.AdmittedActionsSucceed | src/application/orchestration/orchestration-loop.ts:174-260 | On a workable snapshot every admitted action succeeds when its turn comes |
| DrainQuiescence.TickLeaves | src/application/orchestration/orchestration-loop.ts:174-306 | A favourable tick leaves exactly its effects, merged with the agents its launchers recorded |
| DrainQuiescence.TickMerges | src/domain/orchestration.ts:109-150 | After one tick no merge is pending |
| DrainQuiescence.TickCleans | src/domain/orchestration.ts:109-150 | Once no merge is pending, one tick leaves no cleanup pending |
| DrainQuiescence.TickSettlesLaunches | src/domain/orchestration.ts:50-150 | After one tick no launch is both wanted and possible, unless the tick recovered an agent |
| TickExamples.RecoveringTickLeavesALaunch | src/domain/orchestration.ts:50-82 | A concrete tick that holds a launch back although the launch it admits takes no slot |
| DrainQuiescence.RecoveriesAreUsedUp | src/application/launch/controller-agent-factory.ts:52-100 | A tick never leaves more agents to recover than it found, and fewer when it recovers one |
| DrainQuiescence.RecoverableHoldSlots | src/domain/scheduling.ts:27-31 | No more launches can recover an agent than agents hold slots |
| DrainQuiescence.SoundKept | src/application/orchestration/orchestration-loop.ts:174-306 | A favourable tick keeps ids unique, dependencies closed and evidence in place |
| DrainQuiescence.EmptyWithinBound | src/application/orchestration/orchestration-loop.ts:110-142 | For any number of stories in any mode, one of the first three ticks is empty, or one tick later for each agent to recover, of which there are fewer than slots |
| DrainQuiescence.EmptyWithinThreeTicks | src/application/orchestration/orchestration-loop.ts:110-142 | When no outstanding launch has its agent on record already, the third tick at the latest is empty |
| DrainQuiescence.DrainConverges | src/application/orchestration/orchestration-loop.ts:110-142 | A drain returns within that bound under any limit that is no smaller, the default among them: non-convergence is unreachable |
| DrainQuiescence.TickStaysWithinLimit | src/domain/orchestration.ts:50-82 | Whatever its launches recover or create, a tick never takes more slots than the mode has |
| DrainQuiescence.DrainStaysWithinLimit | src/application/orchestration/orchestration-loop.ts:110-142 | However many ticks a drain takes, none fails and the occupied slots stay within the limit |
| AgentLifecycle.ControllerAgentLifecycle.Handle | src/application/orchestration/controller-agent-lifecycle.ts:92-143 | Handling a message carries out the decided verdict on repository and leases |
| AgentLifecycle.ControllerAgentLifecycle.HandleCandidate | src/application/orchestration/controller-agent-lifecycle.ts:449-566 | The lease is released before Git is asked; the candidate is committed only if the snapshot is still current |
| AgentLifecycle.ControllerAgentLifecycle.HandleShutdown | src/application/orchestration/controller-agent-lifecycle.ts:694-776 | Only a settled agent is closed, completed first if still active |
| AgentLifecycle.ControllerAgentLifecycle.Commit | src/application/orchestration/controller-agent-lifecycle.ts:254-283 | A handler's records are stored iff the snapshot it loaded is current |
| AgentLifecycle.CandidateStrandsWriterIff | src/application/orchestration/controller-agent-lifecycle.ts:449-566 | A candidate that released its lease leaves the writer without one iff the clock, Git or a blank head fails it, or another commit got in first |
| AgentLifecycle.LacksLeaseIsRefused | src/application/orchestration/controller-agent-lifecycle.ts:303-500 | A writer without its lease is refused every candidate, start and heartbeat |
| AgentLifecycle.StaleCandidateStrandsWriter | src/application/orchestration/controller-agent-lifecycle.ts:275-281 | A concrete candidate that a parent control, committed while the role is looked up, makes stale, and whose retry is refused |
| LifecycleOutcomes.StartIsWritten | src/application/orchestration/controller-agent-lifecycle.ts:342-383 | A start is written iff its writer holds the lease and the story is assigned or complete; the story is then worked on, with no candidate or review left |
| LifecycleOutcomes.CompletionIsWritten | src/application/orchestration/controller-agent-lifecycle.ts:385-447 | A success is written iff its writer has the story assigned or in work; the story is then complete |
| LifecycleOutcomes.CandidateIsWritten | src/application/orchestration/controller-agent-lifecycle.ts:449-566 | A candidate is written iff authority, lease, worktrees, Git and clock allow it; the story then awaits review at the heads Git answered, without a reviewer |
| LifecycleOutcomes.ReviewIsWritten | src/application/orchestration/controller-agent-lifecycle.ts:568-692 | A review is written iff the reviewer on record judges the live heads; the story is then approved or sent back as it says, and everything else is unchanged |
| LifecycleOutcomes.RejectedStartsAgain | src/domain/orchestration.ts:84-140 | A story sent back gives up its place, and is assigned again once its dependencies are merged and a place is left |
| LifecycleOutcomes.ShutdownIsWritten | src/application/orchestration/controller-agent-lifecycle.ts:694-776 | A shutdown is written iff the story has settled for the agent and it can end; the agent is then closed without a pane, and everything else is unchanged |
| LifecycleOutcomes.HeartbeatRenewsLease | src/application/orchestration/controller-agent-lifecycle.ts:303-340 | Progress and heartbeats renew the lease of a writer with its story in hand, are refused without it, and change nothing otherwise |
| LifecycleOutcomes.RepeatedReview | src/application/orchestration/controller-agent-lifecycle.ts:586-607 | A review is accepted without effect iff its reviewer has decided the same about the same heads |
| LifecycleOutcomes.AuthorityIsMissingIff | src/application/orchestration/controller-agent-lifecycle.ts:99-115 | A candidate or review is refused for authority iff the role may not submit it or the agent is not active |
| LifecycleOutcomes.CandidateRefusals | src/application/orchestration/controller-agent-lifecycle.ts:449-566 | Every refusal of a candidate names what is wrong with it |
| LifecycleOutcomes.ReviewRefusals | src/application/orchestration/controller-agent-lifecycle.ts:568-645 | Every refusal of a review names what is wrong with it |
| ParentControl.ExecuteParentControl | src/controller/process-entry.ts:970-1327 | A control is decided on the stored snapshot with the events it records, committed iff there is one, and answered with the revision, run status and agent |
| ParentControl.ApproveOne | src/controller/process-entry.ts:1050-1093 | Approving one waiting story approves the run exactly when no other is left waiting |
| ParentControl.OneByOneEqualsAtOnce | src/controller/process-entry.ts:1014-1093 | Approving the waiting stories one at a time in any order equals approving the run at once |
| ParentControl.PauseThenResumeIsReady | src/domain/controller-state.ts:600-618 | Whatever the pause message, resuming returns the run to ready |
| ControlOutcomes.RejectedPlan | src/controller/process-entry.ts:1094-1129 | A rejected plan is planned again with the stories that awaited approval; nothing else changes and no tick starts it |
| ControlOutcomes.ApprovedPlan | src/controller/process-entry.ts:1014-1049 | An approved plan is ready with the stories that awaited approval, and nothing else changes |
| ControlOutcomes.PlanIsDecided | src/controller/process-entry.ts:1014-1129 | A decision is accepted iff the plan waits for it or it was made before, and recorded iff there is something to move |
| ControlOutcomes.RejectedThenPrepared | src/domain/controller-state.ts:557-582 | A plan rejected and prepared again waits for approval as before |
| ControlOutcomes.StoryIsApproved | src/controller/process-entry.ts:1050-1093 | One waiting story of a waiting run is approved, and the run with it iff all others are ready |
| ControlOutcomes.PausedRun | src/controller/process-entry.ts:1130-1152 | A ready or active run is blocked with the parent's reason, a blocked one stays, any other is refused |
| ControlOutcomes.ResumedByParent | src/controller/process-entry.ts:1153-1171 | A blocked run is active again, or ready if a parent paused it; a ready or active one stays, any other is refused |
| ControlOutcomes.RestartedAgent | src/controller/process-entry.ts:1172-1206 | An agent that has not ended is disconnected without its pane, and nothing else changes |
| ControlOutcomes.DismissedRun | src/controller/process-entry.ts:1207-1243 | A run that may be quit is cancelled unless it has completed or been cancelled |
| ControlOutcomes.ClosedRun | src/controller/process-entry.ts:1244-1273 | A run that has not ended is cancelled with the parent's reason |
| ControlOutcomes.HaltingControls | src/controller/process-entry.ts:1130-1273 | A pause, close or dismissal that changes the run leaves it blocked or cancelled, and no tick starts it |
| ControlOutcomes.AgentControlsAreRecorded | src/controller/process-entry.ts:1244-1295 | Steering, focusing and closing an agent only move the revision on |
| ControlOutcomes.UnknownTargetsAreRefused | src/controller/process-entry.ts:990-1011 | A control is refused for an unknown target iff it names one, the agent being looked up first |
| ControlOutcomes.ResponseTellsWhatIsStored | src/controller/process-entry.ts:1298-1326 | The parent is told the revision and run status that are stored afterwards |
| ParentControl.HaltDuringTickSurvivesIff | src/application/orchestration/orchestration-loop.ts:51-69 | A run paused or closed during a working tick stays so iff an effect fails or yet another commit lands before the tick's second attempt |
| TickExamples.PauseDuringTickIsLost | src/application/orchestration/orchestration-loop.ts:251-306 | A concrete pause, committed while the tick awaits its launch, that the tick undoes |
| RunSafety.TickAffects | src/application/orchestration/orchestration-loop.ts:251-260 | Through a tick each story shows exactly the effect of the one action that names it |
| RunSafety.AdmittedSuits | src/domain/orchestration.ts:84-140 | An admitted action suits its story, and an assignment comes after all dependencies are merged |
| RunSafety.ApprovalSucceeds | src/application/orchestration/controller-agent-lifecycle.ts:568-692 | An approval records exactly the heads the reviewer named, by someone other than the writer |
| RunSafety.StepKeepsSafe | src/application/orchestration/controller-agent-lifecycle.ts:92-143 | Every kind of step keeps the run invariant and leaves merged work alone |
| RunSafety.RunsAreSafe | src/domain/controller-state.ts:699-930 | Every state of every run from an initial one satisfies the run invariant |
| RunSafety.ReachableRuns | src/application/orchestration/controller-agent-lifecycle.ts:449-692 | Merged stories carry their last approval with writer and reviewer apart, dependencies come first, and no candidate commit or merge is ever half done |
| RunSafety.MergedWorkIsFinal | src/domain/controller-state.ts:699-930 | Nothing later in a run changes merged work except cleaning its workspace |
| RunSafety.ReachableTicksSucceed | src/application/orchestration/orchestration-loop.ts:174-306 | In every reachable state a tick whose external effects succeed carries out all it admitted |
| RunSafety.ReviewerDiffersIffTrimmedDiffers | src/application/orchestration/controller-agent-lifecycle.ts:568-692 | An approval names a reviewer other than the writer exactly when trimming leaves the ids different |
| RunSafety.UntrimmedReviewerIsTheWriter | src/domain/controller-state.ts:813-847 | The transition alone would store the writer as reviewer under an id that differs in white space |
| RunSafety.FactoryIdsSurviveTrimming | src/application/launch/controller-agent-factory.ts:33-46 | Ids of the characters the factory uses are unchanged by trimming |
| StateOutcomes.RunTransitionsFollowEdges | src/domain/controller-state.ts:550-656 | A run transition succeeds iff it is on its edge, in time and has what it asks for; it then changes the status, the reason and the time alone |
| StateOutcomes.StoryTransitionsFollowEdges | src/domain/controller-state.ts:699-930 | A story transition succeeds iff it is on its edge, in time and has what it asks for; it then writes exactly its evidence |
| StateOutcomes.AgentTransitionsFollowEdges | src/domain/controller-state.ts:976-1175 | An agent transition succeeds iff it is on its edge, in time and has what it asks for |
| StateOutcomes.ClockIsBlamedIff | src/domain/controller-state.ts:511-532 | Every transition is refused for its clock iff the clock is behind the record |
| StateOutcomes.OffTheEdgeIsInvalid | src/domain/controller-state.ts:689-697 | On a clock that is not behind, a story transition off its edge is invalid whatever its texts |
| StateOutcomes.AgentKeeps | src/domain/controller-state.ts:976-1175 | What each agent transition does to pane, session, nudges and clocks |
| StateOutcomes.AgentTells | src/domain/controller-state.ts:976-1175 | What each agent transition does to the operation, the waiting reason and the blocking reason |
| StateOutcomes.ResumedStory | src/domain/controller-state.ts:886-917 | Blocking a story and resuming it brings it back as it was |
| StateOutcomes.RestoredAgent | src/domain/controller-state.ts:1126-1152 | An agent that loses its pane and is restored is idle in the new one, with its nudges and its task |
| StateOutcomes.NonEmptyUnlessBlank | src/domain/controller-state.ts:503-509 | A text is refused iff it is blank, and kept without the white space around it |
| Recovery.AssessStartupRecovery | src/domain/recovery.ts:27-70 | Ready iff no reason is found; the reasons are those of the agents and then of the stories, in order |
| Recovery.ReasonsFollowStatuses | src/domain/recovery.ts:34-66 | Which agent status and run status give which agent code, and which story status which story code |
| Recovery.ReachableAgentInvariant | src/domain/controller-state.ts:976-1175 | An operation exactly in the interrupted statuses, a waiting reason exactly when waiting, nothing while idle |
| Recovery.MessagesStayInBounds | src/domain/agent-message-state.ts:27-132 | No messages move an agent into completed, closed or disconnected, change its pane or its nudges, or break its invariant |
| MessageOutcomes.SessionMakesIdle | src/domain/agent-message-state.ts:39-55 | A session makes a launching agent idle in it; without a path, or repeated, it changes nothing |
| MessageOutcomes.OperationMakesWorking | src/domain/agent-message-state.ts:56-64 | An operation is accepted iff the agent is idle, and is then in hand |
| MessageOutcomes.SuccessMakesIdle | src/domain/agent-message-state.ts:70-92 | A finished operation leaves a working, reviewing or blocked agent idle |
| MessageOutcomes.BlockerIsReportedOnce | src/domain/agent-message-state.ts:98-110 | The first blocker of an active agent counts, and a repetition changes nothing |
| Recovery.ReadyIffNothingInterrupted | src/domain/recovery.ts:25-66 | Recovery has nothing to report iff no agent has an operation and no story is mid-commit |
| IdleSupervision.IdleAgentSupervisor.Supervise | src/application/orchestration/idle-agent-supervisor.ts:44-155 | Acts on the first agent that calls for it, on no other, and commits that change alone, unless another commit got in while Herdr was asked |
| IdleSupervision.AttentionStateUnreachable | src/domain/controller-state.ts:1197-1212 | The attention answer and the missing pane of a nudged agent cannot occur |
| SupervisionOutcomes.StepIsDueIff | src/domain/controller-state.ts:1192-1242 | Only an unoccupied agent is due; each nudge waits out its own delay and escalation the last |
| SupervisionOutcomes.NudgesGoToTheOwnPane | src/application/orchestration/idle-agent-supervisor.ts:51-79 | A nudge goes only into the pane with the agent's own tokens; a due agent whose pane is missing or another's loses it and is not nudged |
| SupervisionOutcomes.EscalatedAgentIsBlocked | src/application/orchestration/idle-agent-supervisor.ts:80-97 | An agent that used up its nudges is blocked with the reason |
| SupervisionOutcomes.StoredAfterAPass | src/application/orchestration/idle-agent-supervisor.ts:44-155 | What a pass stores for the first agent that is due: the nudge its own pane took, or the lost pane, and no other change |
| IdleSupervision.NudgingIsBounded | src/domain/controller-state.ts:1192-1242 | At most one nudge recorded per back-off, and no escalation before the quiet period and all back-offs have passed |
| IdleSupervision.SentIsCountedIffNotOvertaken | src/application/orchestration/idle-agent-supervisor.ts:67-78 | As many nudges are sent as counted iff no commit landed while Herdr was asked to pass one on |
| IdleSupervision.PassIsOneStep | src/application/orchestration/idle-agent-supervisor.ts:44-155 | What a pass does to the stored record of the agent it picks is one step of that agent's history, and of no other's |
| IdleSupervision.OvertakenNudgeIsNotCounted | src/application/orchestration/idle-agent-supervisor.ts:67-78 | A concrete nudge that a parent control keeps from being recorded |
| IdleSupervision.ActivityPostponesIffNeverNudged | src/domain/controller-state.ts:1214-1240 | Whatever an agent does between nudges, its next step is due from its last nudge, or from its last activity if it was never nudged |
| FrameDecoder.WriteUInt32 | src/application/protocol/controller-protocol.ts:292-294 | Four big-endian bytes read back as the length they hold |
| FrameDecoder.EncodesIff | src/application/protocol/controller-protocol.ts:268-304 | A payload is encoded iff it is not empty and fits limit and length field; each refusal has its own condition |
| FrameDecoder.ControllerFrameDecoder.Push | src/application/protocol/controller-protocol.ts:322-354 | Messages, error and remaining buffer of a push are those of the reference parse under both limits |
| FrameDecoder.TakeFrames | src/application/protocol/controller-protocol.ts:331-352 | The loop takes complete frames exactly as the recursive parse does, including where each failure leaves the buffer |
| FrameDecoder.NewDecoder | src/application/protocol/controller-protocol.ts:311-320 | A decoder exists iff both limits are positive |
| FrameDecoder.ChunkIndependence | src/application/protocol/controller-protocol.ts:322-354 | However a stream is cut, successful pushes give the one-shot messages and residue |
| FrameDecoder.ResidueIsIncomplete | src/application/protocol/controller-protocol.ts:331-340 | What remains holds no complete frame and is shorter than the longest one |
| FrameDecoder.PushSucceedsIff | src/application/protocol/controller-protocol.ts:322-354 | A push succeeds iff the bytes fit, are well-formed, and complete no more frames than may be queued |
| FrameDecoder.RoundTrip | src/application/protocol/controller-protocol.ts:268-354 | Encoded messages come out again in order with nothing left over, however cut |
| FrameDecoder.BytewiseSucceedsIffClean | src/application/protocol/controller-protocol.ts:322-354 | Fed byte by byte, a stream is accepted iff the one-shot parse finds no fault |
| BoundedJson.AssertBoundedJsonValue | src/application/protocol/controller-protocol.ts:153-226 | Accepts iff node count, depth and content are within bounds; each refusal names a true reason |
| BoundedJson.PushedChildren | src/application/protocol/controller-protocol.ts:204-220 | Replacing a stacked value by its children accounts for all of it but its own node |
| PaneGrid.PlanPaneGrid | src/domain/pane-grid.ts:76-150 | Plans iff the size is 1 to 16, with the specified rows, cells and splits |
| PaneGrid.BuildGrid | src/domain/pane-grid.ts:92-140 | The loops build the row splits, then each row's column splits, and every cell |
| PaneGrid.RowsShareEvenly | src/domain/pane-grid.ts:85-92 | Row sizes add up to n, differ by at most one, and fit the column count |
| PaneGrid.GridGrows | src/domain/pane-grid.ts:99-140 | The construction introduces every slot but the first exactly once, its parent present |
| PaneGrid.PlannedSplitsGrow | src/domain/pane-grid.ts:34-74 | So do the splits of every returned plan, the fixed small ones included |
| PaneGrid.StableLayouts | src/domain/pane-grid.ts:34-74 | The rectangles that two to six panes get on any area |
| PaneGrid.GridIsEven | src/domain/pane-grid.ts:99-140 | On any rectangle the construction gives rows of equal height and equal widths within a row |
| PaneGrid.PlanMatchesItsCellsIff | src/domain/pane-grid.ts:34-74 | A returned plan's splits build its own cells iff it has fewer than three or more than six panes |
| PaneLayout.FillSlots | src/application/herdr/agents-tab-lifecycle.ts:271-318 | The loop keeps owned panes, skips filled slots and stops at the first missing parent, assignment or pane |
| PaneLayout.GridIsCompleted | src/application/herdr/agents-tab-lifecycle.ts:271-323 | From any owned slots with the root, every slot is filled, every owned pane kept, and exactly the missing ones created |
| PaneLayout.AssertBalancedLayout | src/application/herdr/agents-tab-lifecycle.ts:569-608 | Accepts iff panes are inside, apart, of the right total area, with balanced ratios |
| PaneLayout.PlannedSplitsAreBalanced | src/application/herdr/agents-tab-lifecycle.ts:604-608 | Every split of every plan lies within the ratios that the check of the finished layout allows |
| PaneLayout.PassesIffTiles | src/application/herdr/agents-tab-lifecycle.ts:569-603 | The geometric check holds iff every unit cell of the tab is covered exactly once and nothing else is |
| BranchProtection.CompilePattern | src/domain/branch-protection.ts:29-67 | Accepts exactly the valid patterns, and the index loop emits the specified expression |
| BranchProtection.AcceptedIff | src/domain/branch-protection.ts:21-42 | A pattern is accepted iff it has 1 to 240 characters, no control or reserved one, no leading hyphen, no two dots and no three stars in a row |
| BranchProtection.BodyReadsBack | src/domain/branch-protection.ts:44-67 | Emitted text reads back as the pattern's own atoms |
| BranchProtection.ReadPrintsBack | src/domain/branch-protection.ts:44-67 | Nothing but printed tokens is read as an expression: what is read prints as the text it was read from |
| BranchProtection.CompilationPreservesMeaning | src/domain/branch-protection.ts:48-67 | A compiled pattern matches only what the glob does, and on one line exactly that |
| BranchProtection.AgreementIffSingleLine | src/domain/branch-protection.ts:48-67 | All accepted patterns agree with their glob on a branch iff it has no line terminator |
| BranchProtection.WildcardFreeProtectsItself | src/domain/branch-protection.ts:48-67 | A pattern without wildcards protects exactly the branch of that name |
| BranchProtection.WideningProtectsMore | src/domain/branch-protection.ts:48-67 | Widening one star to two only protects more |
| BranchProtection.AssessBranchProtection | src/domain/branch-protection.ts:69-96 | Protected iff the default branch or a matching pattern; reasons are listed once each in order; a bad pattern fails it |
| NotificationGateway.DeduplicatingNotificationGateway.NotifySerial | src/application/notifications/deduplicating-notification-gateway.ts:130-185 | Result and entries are the specified ones, and the cache stays bounded with one entry per key |
| NotificationGateway.DeduplicatingNotificationGateway.RemoveExpired | src/application/notifications/deduplicating-notification-gateway.ts:204-208 | Exactly the expired entries go, the rest keep their order |
| NotificationGateway.HistoriesAreSound | src/application/notifications/deduplicating-notification-gateway.ts:130-185 | After any calls the cache is within bounds and holds only last deliveries |
| NotificationGateway.SuppressionIsJustified | src/application/notifications/deduplicating-notification-gateway.ts:147-161 | A suppressed alert repeats the last delivery under its key, whose window is still open |
| NotificationGateway.CacheRefinesLog | src/application/notifications/deduplicating-notification-gateway.ts:130-185 | With a clock that never goes back and room for the live keys, outcomes equal those of an unbounded log |
| NotificationGateway.EvictionForgets | src/application/notifications/deduplicating-notification-gateway.ts:169-178 | For every capacity, a full cache that delivers under a new key delivers its oldest alert again inside its window, which the log suppresses |
| NotificationGateway.FingerprintsAgreeIff | src/application/notifications/deduplicating-notification-gateway.ts:85-95 | The digested text tells alerts apart by severity, title, body and position, and by nothing else |
| NotificationGateway.RefusedIff | src/application/notifications/deduplicating-notification-gateway.ts:130-146 | Refused iff key, title or body breaks its rule, then for the clock, then for a window outside one day |
| NotificationGateway.AnswerSaysWhatHappened | src/application/notifications/deduplicating-notification-gateway.ts:151-184 | A suppressed alert is answered as a duplicate, any other with what the delivery said |
| NotificationGateway.SoundFollowsSeverity | src/application/notifications/deduplicating-notification-gateway.ts:52-59 | Information is silent, a success has its own sound, attention and failure ask for somebody |
| ExecutorQueue.Executor.EnqueueExecutorOperation | src/controller/process-entry.ts:371-387 | An operation is queued behind the current tail and becomes the tail |
| ExecutorQueue.Executor.ExecuteCommittedAgentMessage | src/controller/process-entry.ts:447-480 | A request id in flight shares its operation; a new one is queued and tabled |
| ExecutorQueue.Executor.ResumeDeferredInitialOrchestration | src/controller/process-entry.ts:678-755 | One deferred resume at a time, queued behind the tail |
| ExecutorQueue.MutualExclusion | src/controller/process-entry.ts:362-387 | Under every interleaving at most one operation runs |
| ExecutorQueue.FirstInFirstOut | src/controller/process-entry.ts:371-387 | No operation starts before all enqueued ahead of it have settled |
| ExecutorQueue.AbsentTailMeansIdle | src/controller/process-entry.ts:380-385 | Without a tail every operation has settled |
| ExecutorQueue.InFlightOnce | src/controller/process-entry.ts:447-480 | A request id never has two unsettled operations, nor is there more than one unsettled resume |
| ExecutorQueue.Progress | src/controller/process-entry.ts:371-387 | The earliest unsettled operation can start or is running |
| ExecutorQueue.SettledForGood | src/controller/process-entry.ts:371-387 | An operation that has settled stays as it is whatever happens later |
| ExecutorQueue.EarliestSettles | src/controller/process-entry.ts:371-387 | Starting and settling the earliest unsettled operation is always possible and settles it |
| GitPorcelain.FieldAfterSpaces | src/infrastructure/git/git-cli-workspace-gateway.ts:99-108 | The offset loop returns what follows the first n spaces, or fails when there are fewer |
| GitPorcelain.ParseChangedPaths | src/infrastructure/git/git-cli-workspace-gateway.ts:110-155 | The index loop over records computes the recursive reading of them |
| GitPorcelain.StatusRoundTrip | src/infrastructure/git/git-cli-workspace-gateway.ts:110-155 | Printed status entries parse to all their paths, both sides of renames, or to the first conflict or submodule change |
| GitPorcelain.ParseWorktrees | src/infrastructure/git/git-cli-workspace-gateway.ts:157-226 | The field loop computes the recursive reading of the records |
| GitPorcelain.WorktreeRoundTrip | src/infrastructure/git/git-cli-workspace-gateway.ts:157-226 | Printed worktree records parse back to the same worktrees in order |

## Left out

- Persistence, fencing tokens and idempotency replay: only the revision check of a commit is modelled.
- Git, Herdr, sockets, hashing and the launcher themselves: their answers are parameters, and a SHA-256 digest
  is stood for by the text it digests.
- JSON text and message schemas: frames are bytes with an abstract parse, and the bound check works on trees, so
  a cyclic object graph is not modelled.
- Lease expiry times and tokens: a lease has an owner and either an expiry or none.
- Story titles, paths, branch names and event payloads, which no modelled decision reads.
- Numbers beyond the safe integers, and the difference between UTF-16 units and code points in length limits.
- Sorting of the changed paths: they are a set.
- Deferred-resume eligibility, pane restoration, terminal rendering, management quit rules, role packs and team
  composition.
- OrchestrationLoop.Loop.ExecuteTick: the events a tick hands to the commit, which no modelled decision reads.
- ParentControl.ExecuteParentControl: event payloads and times, the idempotency key, and quit readiness, which is the
  caller's answer.
- ExecutorQueue.InFlightOnce: promise callbacks are steps in any order; microtask timing is not modelled.
