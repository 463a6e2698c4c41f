/** One orchestration tick over the repository, and the drain that repeats it until nothing is left to do. */
module OrchestrationLoop {
  import opened Wrappers
  import opened ControllerState
  import opened ControllerRepository
  import opened Scheduling
  import opened Orchestration
  import opened OrchestrationEffects

  // ---------------------------------------------------------------- projection

  type Dependencies = map<string, seq<string>>

  function FindAgent(agents: seq<AgentState>, id: string): (r: Option<AgentState>)
    ensures r.Some? ==> r.value in agents && r.value.id == id
    ensures r.None? ==> forall agent | agent in agents :: agent.id != id
  {
    if agents == [] then None
    else if agents[0].id == id then Some(agents[0])
    else FindAgent(agents[1..], id)
  }

  predicate ReviewerClosed(story: StoryState, agents: seq<AgentState>) {
    && story.reviewerAgentId.Some?
    && var reviewer := FindAgent(agents, story.reviewerAgentId.value);
       reviewer.Some? && reviewer.value.status == AgentStatus.Closed
  }

  function DependenciesOf(dependencies: Dependencies, id: string): seq<string> {
    if id in dependencies then dependencies[id] else []
  }

  function ProjectStory(story: StoryState, agents: seq<AgentState>, dependencies: Dependencies): OrchestrationStory {
    OrchestrationStory(story.id, story.status, DependenciesOf(dependencies, story.id),
                       story.reviewerAgentId.Some?, ReviewerClosed(story, agents), story.workspaceCleaned)
  }

  function Project(s: Snapshot, dependencies: Dependencies): (r: seq<OrchestrationStory>)
    ensures |r| == |s.stories|
  {
    seq(|s.stories|, i requires 0 <= i < |s.stories| => ProjectStory(s.stories[i], s.agents, dependencies))
  }

  // ---------------------------------------------------------------- the initial team

  datatype InitialTeam = InitialTeam(projectManagerRole: string, advisorRole: Option<string>)

  /** A launching agent counts only once its process launch has been confirmed. */
  predicate HoldsRole(agents: seq<AgentState>, confirmed: set<string>, role: string) {
    exists agent | agent in agents :: agent.roleRuntimeId == role && CountsAsLaunched(agent, confirmed)
  }

  predicate CountsAsLaunched(agent: AgentState, confirmed: set<string>) {
    agent.status != AgentStatus.Launching || agent.id in confirmed
  }

  function TeamActions(s: Snapshot, team: Option<InitialTeam>, confirmed: set<string>): seq<OrchestrationAction> {
    if team.None? || s.stories == [] then []
    else
      (if HoldsRole(s.agents, confirmed, team.value.projectManagerRole) then []
       else [AssignProjectManager(s.stories[0].id)])
      + (if team.value.advisorRole.None? || HoldsRole(s.agents, confirmed, team.value.advisorRole.value) then []
         else [AssignAdvisor(s.stories[0].id)])
  }

  // ---------------------------------------------------------------- one tick

  /** The run configuration a loop is built with. */
  datatype LoopConfig = LoopConfig(dependencies: Dependencies, team: Option<InitialTeam>)

  /**
   What the outside world does during one tick: its clock, its answers to the
   actions, and the snapshots other writers have committed by the time the tick
   gives up or makes its first commit attempt, and by the time of its second. The
   loop awaits only its effects, so its own process commits in between only when
   the tick has an action, and never between the two attempts.
   */
  datatype TickEnv = TickEnv(
    now: nat, answers: Answers, latest: Option<Snapshot>, latestAgain: Option<Snapshot>)

  datatype LoopError =
    | Unschedulable
    | Effect(error: EffectError)
    | RunTransition(transitionError: TransitionError)
    | StaleRevision

  datatype TickResult = TickResult(actions: seq<OrchestrationAction>, committed: bool)

  predicate RestsIn(status: RunStatus) {
    IsTerminal(status) || status in {RunStatus.Planning, RunStatus.AwaitingApproval, RunStatus.Blocked}
  }

  function Started(s: Snapshot, now: nat): Result<Snapshot, LoopError> {
    if s.run.status == RunStatus.Ready then
      match TransitionRun(s.run, RunStarted(now, true))
      case Ok(active) => Ok(s.(run := active))
      case Err(error) => Err(RunTransition(error))
    else Ok(s)
  }

  function CandidateActions(s: Snapshot, config: LoopConfig, confirmed: set<string>): seq<OrchestrationAction> {
    TeamActions(s, config.team, confirmed)
    + PlannedActions(Project(s, config.dependencies), s.run.complexity, 0)
  }

  function AdmittedActions(s: Snapshot, config: LoopConfig, confirmed: set<string>): seq<OrchestrationAction> {
    Admit(CandidateActions(s, config, confirmed),
          AvailableSlots(s.run.complexity, CountOccupiedAgentSlots(s.agents)))
  }

  function CanSchedule(s: Snapshot, config: LoopConfig): bool {
    Schedulable(Schedulables(Project(s, config.dependencies)))
  }

  /** What a tick has decided before it touches the outside world. */
  datatype TickPlan = AtRest | NothingToDo | Work(started: Snapshot, actions: seq<OrchestrationAction>)

  function PlanTick(s: Option<Snapshot>, config: LoopConfig, confirmed: set<string>, now: nat)
    : Result<TickPlan, LoopError>
  {
    if s.None? || RestsIn(s.value.run.status) then Ok(AtRest)
    else
      var started :- Started(s.value, now);
      if !CanSchedule(started, config) then Err(Unschedulable)
      else
        var actions := AdmittedActions(started, config, confirmed);
        if actions == [] && s.value.run.status != RunStatus.Ready then Ok(NothingToDo)
        else Ok(Work(started, actions))
  }

  // ---------------------------------------------------------------- merging concurrent commits

  function Newest(candidate: AgentState, latest: seq<AgentState>): AgentState {
    match FindAgent(latest, candidate.id)
    case None => candidate
    case Some(current) => if current.updatedAt >= candidate.updatedAt then current else candidate
  }

  function AppendMissing(agents: seq<AgentState>, latest: seq<AgentState>): seq<AgentState> {
    if latest == [] then agents
    else
      var sofar, last := AppendMissing(agents, latest[..|latest| - 1]), latest[|latest| - 1];
      if HasAgent(sofar, last.id) then sofar else sofar + [last]
  }

  function NewestOf(intended: seq<AgentState>, latest: seq<AgentState>): seq<AgentState>
  {
    seq(|intended|, i requires 0 <= i < |intended| => Newest(intended[i], latest))
  }

  function MergeAgents(latest: seq<AgentState>, intended: seq<AgentState>): seq<AgentState> {
    AppendMissing(NewestOf(intended, latest), latest)
  }

  /** Run and stories come from the tick; each agent comes from whichever side changed it last. */
  function MergeAfterConcurrentChildMessage(latest: Snapshot, intended: Snapshot): Snapshot {
    Snapshot(latest.revision, intended.run, intended.stories, MergeAgents(latest.agents, intended.agents))
  }

  predicate SameContents(a: Snapshot, b: Snapshot) {
    a.run == b.run && a.stories == b.stories && a.agents == b.agents
  }

  // ---------------------------------------------------------------- commit

  datatype CommitOutcome = CommitOutcome(result: Result<bool, LoopError>, snapshot: Snapshot)

  function Interfere(current: Snapshot, latest: Option<Snapshot>): Snapshot {
    if latest.Some? then latest.value else current
  }

  /** Commit once on the revision the tick read; after a stale revision, merge and commit once more. */
  function CommitTick(read: Snapshot, intended: Snapshot, env: TickEnv): CommitOutcome {
    var current := Interfere(read, env.latest);
    if current.revision == read.revision then
      CommitOutcome(Ok(true), intended.(revision := read.revision + 1))
    else
      var merged := MergeAfterConcurrentChildMessage(current, intended);
      if SameContents(current, merged) then CommitOutcome(Ok(false), current)
      else
        var again := Interfere(current, env.latestAgain);
        if again.revision == current.revision then
          CommitOutcome(Ok(true), merged.(revision := current.revision + 1))
        else CommitOutcome(Err(StaleRevision), again)
  }

  datatype TickOutcome = TickOutcome(
    result: Result<TickResult, LoopError>, snapshot: Option<Snapshot>, confirmed: set<string>)

  function Tick(s: Option<Snapshot>, config: LoopConfig, confirmed: set<string>, env: TickEnv): TickOutcome {
    match PlanTick(s, config, confirmed, env.now)
    case Err(error) => TickOutcome(Err(error), s, confirmed)
    case Ok(AtRest) => TickOutcome(Ok(TickResult([], false)), s, confirmed)
    case Ok(NothingToDo) => TickOutcome(Ok(TickResult([], false)), s, confirmed)
    case Ok(Work(started, actions)) =>
      match ExecuteAll(actions, started, env.answers)
      case Err(error) =>
        TickOutcome(Err(Effect(error)), Some(Interfere(s.value, env.latest)),
                    confirmed + ConfirmedBy(actions, env.answers))
      case Ok(intended) =>
        var commit := CommitTick(s.value, intended, env);
        TickOutcome(
          match commit.result
          case Ok(committed) => Ok(TickResult(actions, committed))
          case Err(error) => Err(error),
          Some(commit.snapshot), confirmed + ConfirmedBy(actions, env.answers))
  }

  // ---------------------------------------------------------------- the loop

  method MergeAgentLists(latest: seq<AgentState>, intended: seq<AgentState>) returns (agents: seq<AgentState>)
    ensures agents == MergeAgents(latest, intended)
  {
    agents := seq(|intended|, i requires 0 <= i < |intended| => Newest(intended[i], latest));
    ghost var mapped := agents;
    for i := 0 to |latest|
      invariant agents == AppendMissing(mapped, latest[..i])
    {
      assert latest[..i + 1][..i] == latest[..i];
      if !HasAgent(agents, latest[i].id) {
        agents := agents + [latest[i]];
      }
    }
    assert latest[..|latest|] == latest;
  }

  lemma ConfirmedByStep(actions: seq<OrchestrationAction>, answers: Answers, i: nat)
    requires i < |actions|
    ensures ConfirmedBy(actions[..i + 1], answers) == ConfirmedBy(actions[..i], answers) +
              if IsAgentLaunch(actions[i]) && answers(actions[i]).launch.Some?
              then {answers(actions[i]).launch.value.id} else {}
  {
    assert actions[..i + 1] == actions[..i] + [actions[i]];
  }

  lemma ConfirmedByPrefix(actions: seq<OrchestrationAction>, answers: Answers, n: nat)
    requires n <= |actions|
    ensures ConfirmedBy(actions[..n], answers) <= ConfirmedBy(actions, answers)
  {
    assert forall a :: a in actions[..n] ==> a in actions;
  }

  lemma ExecuteAllStep(actions: seq<OrchestrationAction>, s: Snapshot, answers: Answers, i: nat, current: Snapshot)
    requires i < |actions| && ExecuteAll(actions[..i], s, answers) == Ok(current)
    ensures ExecuteAll(actions[..i + 1], s, answers) == Execute(actions[i], current, answers(actions[i]))
  {
    assert actions[..i + 1][..i] == actions[..i];
  }

  class Loop {
    const repository: Repository
    const config: LoopConfig

    constructor (repository: Repository, config: LoopConfig)
      ensures this.repository == repository && this.config == config
    {
      this.repository := repository;
      this.config := config;
    }

    /** The effects of the admitted actions, threaded through the changing snapshot. */
    method RunEffects(started: Snapshot, actions: seq<OrchestrationAction>, answers: Answers)
      returns (r: Result<Snapshot, EffectError>)
      modifies repository`confirmed
      ensures r == ExecuteAll(actions, started, answers)
      ensures r.Ok? ==> repository.confirmed == old(repository.confirmed) + ConfirmedBy(actions, answers)
      ensures r.Err? ==>
        old(repository.confirmed) <= repository.confirmed <= old(repository.confirmed) + ConfirmedBy(actions, answers)
    {
      var current := started;
      for i := 0 to |actions|
        invariant ExecuteAll(actions[..i], started, answers) == Ok(current)
        invariant repository.confirmed == old(repository.confirmed) + ConfirmedBy(actions[..i], answers)
      {
        var action := actions[i];
        ConfirmedByStep(actions, answers, i);
        ExecuteAllStep(actions, started, answers, i, current);
        if IsAgentLaunch(action) && answers(action).launch.Some? {
          repository.confirmed := repository.confirmed + {answers(action).launch.value.id};
        }
        var result := Execute(action, current, answers(action));
        if result.Err? {
          FailureStops(actions, started, answers, i + 1);
          ConfirmedByPrefix(actions, answers, i + 1);
          return Err(result.error);
        }
        current := result.value;
      }
      assert actions[..|actions|] == actions;
      return Ok(current);
    }

    /** Everything a tick decides from the repository before any effect. */
    method Prepare(now: nat) returns (r: Result<TickPlan, LoopError>)
      ensures r == PlanTick(repository.snapshot, config, repository.confirmed, now)
    {
      var snapshot := repository.snapshot;
      if snapshot.None? || RestsIn(snapshot.value.run.status) {
        return Ok(AtRest);
      }
      var current :- Started(snapshot.value, now);
      var actions := TeamActions(current, config.team, repository.confirmed);
      var planned := PlanOrchestration(Project(current, config.dependencies), current.run.complexity, 0);
      if planned.Err? {
        return Err(Unschedulable);
      }
      actions := actions + planned.value;
      var decision := ReserveAgentLaunchCapacity(actions, current.run.complexity,
                                                 CountOccupiedAgentSlots(current.agents));
      if decision.actions == [] && snapshot.value.run.status != RunStatus.Ready {
        return Ok(NothingToDo);
      }
      return Ok(Work(current, decision.actions));
    }

    /** Persist the tick's result over whatever other writers committed meanwhile. */
    method CommitIntended(read: Snapshot, intended: Snapshot, env: TickEnv) returns (r: Result<bool, LoopError>)
      requires repository.snapshot == Some(read)
      modifies repository`snapshot
      ensures CommitOutcome(r, Interfere(read, repository.snapshot)) == CommitTick(read, intended, env)
      ensures repository.snapshot.Some?
    {
      repository.snapshot := Some(Interfere(read, env.latest));
      var committed := repository.CommitSnapshot(read.revision, intended);
      if !committed {
        var latest := repository.snapshot.value;
        var agents := MergeAgentLists(latest.agents, intended.agents);
        var merged := Snapshot(latest.revision, intended.run, intended.stories, agents);
        if !SameContents(latest, merged) {
          repository.snapshot := Some(Interfere(latest, env.latestAgain));
          committed := repository.CommitSnapshot(latest.revision, merged);
          if !committed {
            return Err(StaleRevision);
          }
        }
      }
      return Ok(committed);
    }

    method ExecuteTick(env: TickEnv) returns (r: Result<TickResult, LoopError>)
      modifies repository`snapshot, repository`confirmed
      ensures var expected := Tick(old(repository.snapshot), config, old(repository.confirmed), env);
        && r == expected.result
        && repository.snapshot == expected.snapshot
        && (r.Ok? ==> repository.confirmed == expected.confirmed)
        && old(repository.confirmed) <= repository.confirmed <= expected.confirmed
    {
      var plan :- Prepare(env.now);
      match plan
      case AtRest => return Ok(TickResult([], false));
      case NothingToDo => return Ok(TickResult([], false));
      case Work(started, actions) =>
        var effects := RunEffects(started, actions, env.answers);
        if effects.Err? {
          repository.snapshot := Some(Interfere(repository.snapshot.value, env.latest));
          return Err(Effect(effects.error));
        }
        var committed :- CommitIntended(repository.snapshot.value, effects.value, env);
        return Ok(TickResult(actions, committed));
    }
  }

  // ---------------------------------------------------------------- the drain

  const MAX_ORCHESTRATION_DRAIN_TICKS: nat := 32

  datatype DrainError = InvalidLimit | TickFailed(error: LoopError) | DidNotQuiesce

  datatype DrainResult = DrainResult(ticks: nat, actions: seq<OrchestrationAction>, committed: bool)

  /** The outside world over a whole drain, tick by tick. */
  type World = nat -> TickEnv

  /** The repository after `k` ticks that all succeeded. */
  function AfterTicks(s: Option<Snapshot>, config: LoopConfig, confirmed: set<string>, world: World, k: nat)
    : TickOutcome
  {
    if k == 0 then TickOutcome(Ok(TickResult([], false)), s, confirmed)
    else
      var before := AfterTicks(s, config, confirmed, world, k - 1);
      if before.result.Err? then before else Tick(before.snapshot, config, before.confirmed, world(k - 1))
  }

  predicate BusyTick(tick: TickOutcome) {
    tick.result.Ok? && tick.result.value.actions != []
  }

  predicate EmptyTick(tick: TickOutcome) {
    tick.result.Ok? && tick.result.value.actions == []
  }

  /** The outcomes of the successive ticks of one drain. */
  type Trace = nat -> TickOutcome

  ghost predicate IsTrace(trace: Trace, s: Option<Snapshot>, config: LoopConfig, confirmed: set<string>, world: World) {
    forall k: nat {:trigger AfterTicks(s, config, confirmed, world, k)} ::
      trace(k) == AfterTicks(s, config, confirmed, world, k)
  }

  /** Every action of the first `k` ticks, and whether one of them committed. */
  ghost function Totals(trace: Trace, k: nat): (seq<OrchestrationAction>, bool) {
    if k == 0 then ([], false)
    else
      var before := Totals(trace, k - 1);
      if trace(k).result.Err? then before
      else (before.0 + trace(k).result.value.actions, before.1 || trace(k).result.value.committed)
  }

  /** The first `k` ticks of the drain all had actions. */
  ghost predicate BusyThrough(trace: Trace, k: int) {
    forall j: nat :: 1 <= j <= k ==> BusyTick(trace(j))
  }

  ghost predicate RepositoryAt(loop: Loop, tick: TickOutcome)
    reads loop.repository
  {
    && tick.result.Ok? && loop.repository.snapshot == tick.snapshot && loop.repository.confirmed == tick.confirmed
  }

  /** One tick of the drain takes the repository from the state after k ticks to the state after k + 1. */
  method DrainTick(loop: Loop, world: World, k: nat, ghost trace: Trace,
                   ghost s: Option<Snapshot>, ghost confirmed: set<string>)
    returns (r: Result<TickResult, LoopError>)
    requires IsTrace(trace, s, loop.config, confirmed, world) && RepositoryAt(loop, trace(k))
    modifies loop.repository
    ensures r == trace(k + 1).result
    ensures r.Ok? ==> RepositoryAt(loop, trace(k + 1))
  {
    assert trace(k) == AfterTicks(s, loop.config, confirmed, world, k);
    assert trace(k + 1) == AfterTicks(s, loop.config, confirmed, world, k + 1);
    r := loop.ExecuteTick(world(k));
  }

  /** What a drain that returned promises about the ticks it ran. */
  ghost predicate DrainedTo(trace: Trace, result: DrainResult, final: Option<Snapshot>) {
    && result.ticks >= 1
    && BusyThrough(trace, result.ticks - 1)
    && EmptyTick(trace(result.ticks))
    && (result.actions, result.committed) == Totals(trace, result.ticks)
    && final == trace(result.ticks).snapshot
  }

  /** The drain's whole contract, in terms of the trace of its ticks. */
  ghost predicate Drained(trace: Trace, maximumTicks: int, r: Result<DrainResult, DrainError>,
                          final: Option<Snapshot>) {
    if maximumTicks < 1 then r == Err(InvalidLimit)
    else
      match r
      case Ok(result) => result.ticks <= maximumTicks && DrainedTo(trace, result, final)
      case Err(DidNotQuiesce) => BusyThrough(trace, maximumTicks)
      case Err(TickFailed(error)) =>
        exists k: nat :: 1 <= k <= maximumTicks && trace(k).result == Err(error) && BusyThrough(trace, k - 1)
      case Err(InvalidLimit) => false
  }

  /** Tick until a tick has nothing to do; fail closed when the limit is reached first. */
  method Drain(loop: Loop, world: World, maximumTicks: int, ghost trace: Trace)
    returns (r: Result<DrainResult, DrainError>)
    requires IsTrace(trace, loop.repository.snapshot, loop.config, loop.repository.confirmed, world)
    modifies loop.repository
    ensures Drained(trace, maximumTicks, r, loop.repository.snapshot)
    ensures maximumTicks < 1 ==> unchanged(loop.repository)
  {
    if maximumTicks < 1 {
      return Err(InvalidLimit);
    }
    ghost var s, confirmed := loop.repository.snapshot, loop.repository.confirmed;
    StartOfTrace(trace, s, loop.config, confirmed, world);
    var actions: seq<OrchestrationAction> := [];
    var committed := false;
    for tick := 1 to maximumTicks + 1
      invariant RepositoryAt(loop, trace(tick - 1))
      invariant BusyThrough(trace, tick - 1)
      invariant (actions, committed) == Totals(trace, tick - 1)
    {
      var result := DrainTick(loop, world, tick - 1, trace, s, confirmed);
      if result.Err? {
        return Err(TickFailed(result.error));
      }
      actions := actions + result.value.actions;
      committed := committed || result.value.committed;
      if result.value.actions == [] {
        return Ok(DrainResult(tick, actions, committed));
      }
    }
    return Err(DidNotQuiesce);
  }

  lemma StartOfTrace(trace: Trace, s: Option<Snapshot>, config: LoopConfig, confirmed: set<string>, world: World)
    requires IsTrace(trace, s, config, confirmed, world)
    ensures trace(0) == TickOutcome(Ok(TickResult([], false)), s, confirmed)
  {
    assert trace(0) == AfterTicks(s, config, confirmed, world, 0);
  }
}
