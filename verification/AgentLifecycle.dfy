/**
 Child signals turned into story, lease and terminal-agent changes. A handler
 decides on the snapshot it loaded, may release a writer lease on the way, and
 commits only if that snapshot is still current.
 */
module AgentLifecycle {
  import opened Wrappers
  import opened Complexity
  import opened ControllerState
  import opened ControllerRepository
  import opened AgentMessages
  import opened OrchestrationEffects
  import opened OrchestrationLoop
  import PC = ParentControl

  datatype LifecycleAction =
    | NoAction
    | WriterLeaseRenewed
    | StoryWorkStartedAction
    | StoryWorkCompletedAction
    | CandidateCreatedAction
    | ReviewApprovedAction
    | ReviewChangesRequestedAction
    | AgentClosedAction

  datatype LifecycleError =
    | UnknownAgent
    | LacksAuthority
    | NoStoryAssignment
    | NotAssignedWriter
    | NotAcceptingCandidate
    | MissingWriterLease
    | WorktreeEvidence
    | CandidateFailed
    | WriterCannotReview
    | NotAssignedReviewer
    | ReviewDiffers
    | NotAwaitingReview
    | StaleReview
    | HeadsChanged
    | CannotClose
    | SnapshotChanged
    | Invalid(error: TransitionError)

  datatype Candidate = Candidate(commit: string, integrationHead: string)

  /**
   What Git, the role catalogue and the clock report while a handler runs. A
   missing head stands for absent or unsafe worktree evidence.
   */
  datatype LifecycleEnv = LifecycleEnv(
    authorized: bool,
    storyHead: Option<string>,
    integrationHead: Option<string>,
    candidate: Option<Candidate>,
    firstReading: nat,
    secondReading: nat,
    thirdReading: nat)

  /** What a handler wants persisted. */
  datatype Verdict =
    | Keep(action: LifecycleAction)
    | Refuse(error: LifecycleError)
    | Write(stories: seq<StoryState>, agents: seq<AgentState>, action: LifecycleAction)

  /** A verdict, and the story whose writer lease is released before it is reached. */
  datatype Decision = Decision(released: Option<string>, verdict: Verdict)

  function StoryForTask(s: Snapshot, agent: AgentState): Option<StoryState> {
    if agent.taskId.None? then None else FindStory(s.stories, agent.taskId.value)
  }

  function ReplaceAgent(agents: seq<AgentState>, updated: AgentState): (r: seq<AgentState>)
    ensures |r| == |agents|
  {
    seq(|agents|, i requires 0 <= i < |agents| => if agents[i].id == updated.id then updated else agents[i])
  }

  function WriteStory(s: Snapshot, updated: Result<StoryState, TransitionError>, action: LifecycleAction): Verdict {
    match updated
    case Ok(story) => Write(ReplaceStory(s.stories, story), s.agents, action)
    case Err(error) => Refuse(Invalid(error))
  }

  // ---------------------------------------------------------------- writers

  predicate WritesStory(story: Option<StoryState>, agent: AgentState) {
    story.Some? && story.value.assignedAgentId == Some(agent.id)
  }

  function RenewWriterLease(s: Snapshot, leases: Leases, agent: AgentState): Verdict {
    var story := StoryForTask(s, agent);
    if !WritesStory(story, agent)
       || story.value.status !in {StoryStatus.Assigned, StoryStatus.Working, StoryStatus.WorkComplete}
    then Keep(NoAction)
    else if !Holds(leases, story.value.id, agent.id) then Refuse(MissingWriterLease)
    else Keep(WriterLeaseRenewed)
  }

  function StartWriterWork(s: Snapshot, leases: Leases, agent: AgentState, env: LifecycleEnv): Verdict {
    var story := StoryForTask(s, agent);
    if !WritesStory(story, agent) || story.value.status !in {StoryStatus.Assigned, StoryStatus.WorkComplete}
    then RenewWriterLease(s, leases, agent)
    else if RenewWriterLease(s, leases, agent).Refuse? then RenewWriterLease(s, leases, agent)
    else WriteStory(s, TransitionStory(story.value, StoryWorkStarted(env.firstReading)), StoryWorkStartedAction)
  }

  function BeginIfAssigned(story: StoryState, at: nat): Result<StoryState, TransitionError> {
    if story.status == StoryStatus.Assigned then TransitionStory(story, StoryWorkStarted(at)) else Ok(story)
  }

  function CompletedStory(story: StoryState, env: LifecycleEnv): Result<StoryState, TransitionError> {
    var working :- BeginIfAssigned(story, env.firstReading);
    TransitionStory(working, StoryWorkCompleted(env.secondReading))
  }

  function CompleteWriterWork(s: Snapshot, agent: AgentState, env: LifecycleEnv): Verdict {
    var story := StoryForTask(s, agent);
    if !WritesStory(story, agent) || story.value.status !in {StoryStatus.Assigned, StoryStatus.Working}
    then Keep(NoAction)
    else WriteStory(s, CompletedStory(story.value, env), StoryWorkCompletedAction)
  }

  // ---------------------------------------------------------------- candidates

  datatype CandidateResult = CandidateRefused(error: LifecycleError) | CandidateMade(story: StoryState)

  /** Both candidate transitions happen around one Git commit, before anything is persisted. */
  function CandidateStory(working: StoryState, env: LifecycleEnv): CandidateResult {
    match TransitionStory(working, CandidateRequested(env.secondReading, true))
    case Err(error) => CandidateRefused(Invalid(error))
    case Ok(awaiting) =>
      if env.candidate.None? then CandidateRefused(CandidateFailed)
      else
        match TransitionStory(awaiting, CandidateCreated(env.thirdReading, env.candidate.value.commit,
                                                         env.candidate.value.integrationHead))
        case Err(error) => CandidateRefused(Invalid(error))
        case Ok(story) => CandidateMade(story)
  }

  /** What a candidate asks to be written once its lease is released. */
  function CandidateVerdict(s: Snapshot, working: StoryState, env: LifecycleEnv): Verdict {
    match CandidateStory(working, env)
    case CandidateRefused(error) => Refuse(error)
    case CandidateMade(candidate) => Write(ReplaceStory(s.stories, candidate), s.agents, CandidateCreatedAction)
  }

  function CreateCandidate(s: Snapshot, leases: Leases, agent: AgentState, env: LifecycleEnv): Decision {
    var found := StoryForTask(s, agent);
    if found.None? then Decision(None, Refuse(NoStoryAssignment))
    else
      var story := found.value;
      if story.assignedAgentId != Some(agent.id) then Decision(None, Refuse(NotAssignedWriter))
      else if story.status == StoryStatus.AwaitingReview && story.candidateStoryHead.Some?
              && story.reviewedIntegrationHead.Some?
      then Decision(None, Keep(NoAction))
      else
        match BeginIfAssigned(story, env.firstReading)
        case Err(error) => Decision(None, Refuse(Invalid(error)))
        case Ok(working) =>
          if working.status !in {StoryStatus.Working, StoryStatus.WorkComplete}
          then Decision(None, Refuse(NotAcceptingCandidate))
          else if !Holds(leases, story.id, agent.id) then Decision(None, Refuse(MissingWriterLease))
          else if env.storyHead.None? || env.integrationHead.None? then Decision(None, Refuse(WorktreeEvidence))
          else
            Decision(Some(story.id), CandidateVerdict(s, working, env))
  }

  // ---------------------------------------------------------------- reviews

  predicate AlreadyRecorded(story: StoryState, outcome: ReviewOutcome) {
    match outcome
    case ApprovedOutcome => story.status in {StoryStatus.Approved, StoryStatus.Merging, StoryStatus.Merged}
    case ChangesRequestedOutcome => story.status == StoryStatus.ChangesRequested
  }

  predicate MatchesEvidence(story: StoryState, message: MessageBody)
    requires message.ReviewSubmitted?
  {
    && story.candidateStoryHead == Some(message.candidateStoryHead)
    && story.reviewedIntegrationHead == Some(message.integrationHead)
  }

  function RecordReview(s: Snapshot, agent: AgentState, message: MessageBody, env: LifecycleEnv): Verdict
    requires message.ReviewSubmitted?
  {
    var found := StoryForTask(s, agent);
    if found.None? then Refuse(NoStoryAssignment)
    else
      var story := found.value;
      if story.assignedAgentId == Some(agent.id) then Refuse(WriterCannotReview)
      else if story.reviewerAgentId != Some(agent.id) then Refuse(NotAssignedReviewer)
      else if AlreadyRecorded(story, message.outcome) then
        if MatchesEvidence(story, message) then Keep(NoAction) else Refuse(ReviewDiffers)
      else if story.status != StoryStatus.AwaitingReview || story.candidateStoryHead.None?
              || story.reviewedIntegrationHead.None?
      then Refuse(NotAwaitingReview)
      else if !MatchesEvidence(story, message) then Refuse(StaleReview)
      else if env.storyHead.None? || env.integrationHead.None? then Refuse(WorktreeEvidence)
      else if env.storyHead != story.candidateStoryHead || env.integrationHead != story.reviewedIntegrationHead
      then Refuse(HeadsChanged)
      else if message.outcome == ApprovedOutcome then
        WriteStory(s, TransitionStory(story, ReviewApproved(env.firstReading, agent.id, env.storyHead.value,
                                                            env.integrationHead.value, true)),
                   ReviewApprovedAction)
      else
        WriteStory(s, TransitionStory(story, ReviewChangesRequested(env.firstReading, agent.id)),
                   ReviewChangesRequestedAction)
  }

  // ---------------------------------------------------------------- settled agents

  predicate IsSettledWriter(story: StoryState, agent: AgentState, leases: Leases) {
    && story.assignedAgentId == Some(agent.id)
    && story.status in {StoryStatus.AwaitingReview, StoryStatus.Approved, StoryStatus.Merging, StoryStatus.Merged}
    && Unowned(leases, story.id)
  }

  predicate IsSettledReviewer(story: StoryState, agent: AgentState) {
    && story.reviewerAgentId == Some(agent.id)
    && story.status in {StoryStatus.ChangesRequested, StoryStatus.Approved, StoryStatus.Merging, StoryStatus.Merged}
  }

  function ClosedAgent(agent: AgentState, env: LifecycleEnv): Result<AgentState, LifecycleError> {
    var completed :=
      if agent.status in {AgentStatus.Idle, AgentStatus.Working, AgentStatus.Reviewing}
      then TransitionAgent(agent, AgentCompleted(env.firstReading)) else Ok(agent);
    match completed
    case Err(error) => Err(Invalid(error))
    case Ok(terminal) =>
      if terminal.status !in {AgentStatus.Completed, AgentStatus.Failed, AgentStatus.Disconnected}
      then Err(CannotClose)
      else
        match TransitionAgent(terminal, AgentClosed(env.secondReading, true))
        case Err(error) => Err(Invalid(error))
        case Ok(closed) => Ok(closed)
  }

  function CloseSettledAgent(s: Snapshot, leases: Leases, agent: AgentState, env: LifecycleEnv): Verdict {
    var story := StoryForTask(s, agent);
    if agent.status == AgentStatus.Closed || story.None? then Keep(NoAction)
    else if !IsSettledWriter(story.value, agent, leases) && !IsSettledReviewer(story.value, agent) then Keep(NoAction)
    else
      match ClosedAgent(agent, env)
      case Err(error) => Refuse(error)
      case Ok(closed) => Write(s.stories, ReplaceAgent(s.agents, closed), AgentClosedAction)
  }

  // ---------------------------------------------------------------- dispatch

  /** Candidate and review submissions need a role that may make them, from an active status. */
  predicate MayProceed(agent: AgentState, body: MessageBody, env: LifecycleEnv) {
    && (body.CandidateReady? ==> env.authorized && agent.status in {AgentStatus.Idle, AgentStatus.Working})
    && (body.ReviewSubmitted? ==>
          env.authorized && agent.status in {AgentStatus.Idle, AgentStatus.Working, AgentStatus.Reviewing})
  }

  function Decide(s: Snapshot, leases: Leases, message: AgentMessage, env: LifecycleEnv): Decision {
    var found := FindAgent(s.agents, message.agentId);
    if found.None? then Decision(None, Refuse(UnknownAgent))
    else
      var agent := found.value;
      if !MayProceed(agent, message.body, env) then Decision(None, Refuse(LacksAuthority))
      else
        match message.body
        case OperationStartedReport(_) => Decision(None, StartWriterWork(s, leases, agent, env))
        case OperationProgress => Decision(None, RenewWriterLease(s, leases, agent))
        case HeartbeatReport => Decision(None, RenewWriterLease(s, leases, agent))
        case OperationCompleted(success) =>
          Decision(None, if success then CompleteWriterWork(s, agent, env) else Keep(NoAction))
        case CandidateReady => CreateCandidate(s, leases, agent, env)
        case ReviewSubmitted(_, _, _) => Decision(None, RecordReview(s, agent, message.body, env))
        case SessionShutdown => Decision(None, CloseSettledAgent(s, leases, agent, env))
        case _ => Decision(None, Keep(NoAction))
  }

  /** The leases once a decision has released what it releases. */
  function LeasesAfter(leases: Leases, decision: Decision): Leases {
    if decision.released.None? then leases else leases[decision.released.value := WriterLease(None, false)]
  }

  /** The repository's snapshot once a decision made on `loaded` has been carried out on `current`. */
  function Carried(loaded: Snapshot, current: Snapshot, verdict: Verdict): Snapshot {
    if verdict.Write? && current.revision == loaded.revision
    then Snapshot(loaded.revision + 1, loaded.run, verdict.stories, verdict.agents)
    else current
  }

  function Answer(loaded: Snapshot, current: Snapshot, verdict: Verdict): Result<LifecycleAction, LifecycleError> {
    match verdict
    case Keep(action) => Ok(action)
    case Refuse(error) => Err(error)
    case Write(_, _, action) => if current.revision == loaded.revision then Ok(action) else Err(SnapshotChanged)
  }

  class ControllerAgentLifecycle {
    const repository: Repository

    constructor (repository: Repository)
      ensures this.repository == repository
    {
      this.repository := repository;
    }

    /** Persist a handler's stories and agents, or report that the snapshot moved on. */
    method Commit(loaded: Snapshot, stories: seq<StoryState>, agents: seq<AgentState>, action: LifecycleAction)
      returns (r: Result<LifecycleAction, LifecycleError>)
      requires repository.snapshot.Some?
      modifies repository`snapshot
      ensures r == Answer(loaded, old(repository.snapshot).value, Write(stories, agents, action))
      ensures repository.snapshot
              == Some(Carried(loaded, old(repository.snapshot).value, Write(stories, agents, action)))
    {
      var accepted := repository.CommitSnapshot(loaded.revision,
        Snapshot(loaded.revision, loaded.run, stories, agents));
      r := if accepted then Ok(action) else Err(SnapshotChanged);
    }

    /** Commit a writer's candidate: its lease is released before Git is asked, and stays released if Git fails. */
    method HandleCandidate(loaded: Snapshot, agent: AgentState, env: LifecycleEnv)
      returns (r: Result<LifecycleAction, LifecycleError>)
      requires repository.snapshot.Some?
      modifies repository`snapshot, repository`leases
      ensures var decision := CreateCandidate(loaded, old(repository.leases), agent, env);
        && r == Answer(loaded, old(repository.snapshot).value, decision.verdict)
        && repository.snapshot == Some(Carried(loaded, old(repository.snapshot).value, decision.verdict))
        && repository.leases == LeasesAfter(old(repository.leases), decision)
    {
      var found := StoryForTask(loaded, agent);
      if found.None? {
        return Err(NoStoryAssignment);
      }
      var story := found.value;
      if story.assignedAgentId != Some(agent.id) {
        return Err(NotAssignedWriter);
      }
      if story.status == StoryStatus.AwaitingReview && story.candidateStoryHead.Some?
         && story.reviewedIntegrationHead.Some? {
        return Ok(NoAction);
      }
      var working := story;
      if working.status == StoryStatus.Assigned {
        var begun := TransitionStory(working, StoryWorkStarted(env.firstReading));
        if begun.Err? {
          return Err(Invalid(begun.error));
        }
        working := begun.value;
      }
      if working.status !in {StoryStatus.Working, StoryStatus.WorkComplete} {
        return Err(NotAcceptingCandidate);
      }
      if !Holds(repository.leases, story.id, agent.id) {
        return Err(MissingWriterLease);
      }
      if env.storyHead.None? || env.integrationHead.None? {
        return Err(WorktreeEvidence);
      }
      repository.ReleaseWriterLease(story.id);
      r := MakeCandidate(loaded, working, env);
    }

    /** Ask Git for the candidate between its two transitions, and commit the story. */
    method MakeCandidate(loaded: Snapshot, working: StoryState, env: LifecycleEnv)
      returns (r: Result<LifecycleAction, LifecycleError>)
      requires repository.snapshot.Some?
      modifies repository`snapshot
      ensures var verdict := CandidateVerdict(loaded, working, env);
        && r == Answer(loaded, old(repository.snapshot).value, verdict)
        && repository.snapshot == Some(Carried(loaded, old(repository.snapshot).value, verdict))
    {
      var awaiting := TransitionStory(working, CandidateRequested(env.secondReading, true));
      if awaiting.Err? {
        return Err(Invalid(awaiting.error));
      }
      if env.candidate.None? {
        return Err(CandidateFailed);
      }
      var created := TransitionStory(awaiting.value, CandidateCreated(env.thirdReading, env.candidate.value.commit,
                                                                      env.candidate.value.integrationHead));
      if created.Err? {
        return Err(Invalid(created.error));
      }
      r := Commit(loaded, ReplaceStory(loaded.stories, created.value), loaded.agents, CandidateCreatedAction);
    }

    /** Close an agent whose work is settled, completing it first if it is still active. */
    method HandleShutdown(loaded: Snapshot, agent: AgentState, env: LifecycleEnv)
      returns (r: Result<LifecycleAction, LifecycleError>)
      requires repository.snapshot.Some?
      modifies repository`snapshot
      ensures var verdict := CloseSettledAgent(loaded, old(repository.leases), agent, env);
        && r == Answer(loaded, old(repository.snapshot).value, verdict)
        && repository.snapshot == Some(Carried(loaded, old(repository.snapshot).value, verdict))
    {
      if agent.status == AgentStatus.Closed {
        return Ok(NoAction);
      }
      var story := StoryForTask(loaded, agent);
      if story.None? || (!IsSettledWriter(story.value, agent, repository.leases)
                         && !IsSettledReviewer(story.value, agent)) {
        return Ok(NoAction);
      }
      var terminal := agent;
      if terminal.status in {AgentStatus.Idle, AgentStatus.Working, AgentStatus.Reviewing} {
        var completed := TransitionAgent(terminal, AgentCompleted(env.firstReading));
        if completed.Err? {
          return Err(Invalid(completed.error));
        }
        terminal := completed.value;
      }
      if terminal.status !in {AgentStatus.Completed, AgentStatus.Failed, AgentStatus.Disconnected} {
        return Err(CannotClose);
      }
      var closed := TransitionAgent(terminal, AgentClosed(env.secondReading, true));
      if closed.Err? {
        return Err(Invalid(closed.error));
      }
      r := Commit(loaded, loaded.stories, ReplaceAgent(loaded.agents, closed.value), AgentClosedAction);
    }

    method Settle(loaded: Snapshot, verdict: Verdict) returns (r: Result<LifecycleAction, LifecycleError>)
      requires repository.snapshot.Some?
      modifies repository`snapshot
      ensures r == Answer(loaded, old(repository.snapshot).value, verdict)
      ensures repository.snapshot == Some(Carried(loaded, old(repository.snapshot).value, verdict))
    {
      match verdict
      case Keep(action) => return Ok(action);
      case Refuse(error) => return Err(error);
      case Write(stories, agents, action) => r := Commit(loaded, stories, agents, action);
    }

    /** Handle one child message against the snapshot that was loaded for it. */
    method Handle(loaded: Snapshot, message: AgentMessage, env: LifecycleEnv)
      returns (r: Result<LifecycleAction, LifecycleError>)
      requires repository.snapshot.Some?
      modifies repository`snapshot, repository`leases
      ensures var decision := Decide(loaded, old(repository.leases), message, env);
        && r == Answer(loaded, old(repository.snapshot).value, decision.verdict)
        && repository.snapshot == Some(Carried(loaded, old(repository.snapshot).value, decision.verdict))
        && repository.leases == LeasesAfter(old(repository.leases), decision)
    {
      var found := FindAgent(loaded.agents, message.agentId);
      if found.None? {
        return Err(UnknownAgent);
      }
      var agent := found.value;
      if !MayProceed(agent, message.body, env) {
        return Err(LacksAuthority);
      }
      match message.body
      case CandidateReady => r := HandleCandidate(loaded, agent, env);
      case SessionShutdown => r := HandleShutdown(loaded, agent, env);
      case OperationStartedReport(_) =>
        r := Settle(loaded, StartWriterWork(loaded, repository.leases, agent, env));
      case OperationProgress => r := Settle(loaded, RenewWriterLease(loaded, repository.leases, agent));
      case HeartbeatReport => r := Settle(loaded, RenewWriterLease(loaded, repository.leases, agent));
      case OperationCompleted(success) =>
        r := Settle(loaded, if success then CompleteWriterWork(loaded, agent, env) else Keep(NoAction));
      case ReviewSubmitted(_, _, _) => r := Settle(loaded, RecordReview(loaded, agent, message.body, env));
      case _ => r := Ok(NoAction);
    }
  }

  // ---------------------------------------------------------------- leases across messages

  /** The writer's story is still in its hands, but its lease is not. */
  predicate LacksLease(s: Snapshot, leases: Leases, agent: AgentState) {
    var story := StoryForTask(s, agent);
    && WritesStory(story, agent)
    && story.value.status in {StoryStatus.Assigned, StoryStatus.Working, StoryStatus.WorkComplete}
    && !Holds(leases, story.value.id, agent.id)
  }

  /** A writer without its lease is refused every candidate, start and heartbeat, whatever Git and the clock answer. */
  lemma LacksLeaseIsRefused(s: Snapshot, leases: Leases, agent: AgentState, env: LifecycleEnv)
    requires LacksLease(s, leases, agent)
    ensures CreateCandidate(s, leases, agent, env).verdict.Refuse?
      && CreateCandidate(s, leases, agent, env).released.None?
    ensures RenewWriterLease(s, leases, agent) == Refuse(MissingWriterLease)
    ensures StartWriterWork(s, leases, agent, env) == Refuse(MissingWriterLease)
  {
  }

  /** What goes wrong behind the released lease: the clock, Git, or a head that is blank. */
  predicate CandidateGoesWrong(story: StoryState, env: LifecycleEnv) {
    || env.secondReading < (if story.status == StoryStatus.Assigned then env.firstReading else story.updatedAt)
    || env.thirdReading < env.secondReading
    || env.candidate.None?
    || NonEmpty(env.candidate.value.commit).Err?
    || NonEmpty(env.candidate.value.integrationHead).Err?
  }

  lemma ReleasedByItsWriter(s: Snapshot, leases: Leases, agent: AgentState, env: LifecycleEnv)
    requires CreateCandidate(s, leases, agent, env).released.Some?
    ensures WritesStory(StoryForTask(s, agent), agent)
    ensures CreateCandidate(s, leases, agent, env).released == Some(StoryForTask(s, agent).value.id)
    ensures StoryForTask(s, agent).value.status in {StoryStatus.Assigned, StoryStatus.Working, StoryStatus.WorkComplete}
  {
  }

  /** A candidate whose lease was released is refused exactly when something goes wrong behind the release. */
  lemma RefusedBehindLeaseIff(s: Snapshot, leases: Leases, agent: AgentState, env: LifecycleEnv)
    requires CreateCandidate(s, leases, agent, env).released.Some?
    ensures CreateCandidate(s, leases, agent, env).verdict.Refuse?
            <==> CandidateGoesWrong(StoryForTask(s, agent).value, env)
  {
  }

  lemma {:induction false} FindReplaced(stories: seq<StoryState>, updated: StoryState)
    requires FindStory(stories, updated.id).Some?
    ensures FindStory(ReplaceStory(stories, updated), updated.id) == Some(updated)
  {
    if stories[0].id != updated.id {
      FindReplaced(stories[1..], updated);
      assert ReplaceStory(stories, updated)[1..] == ReplaceStory(stories[1..], updated);
    }
  }

  lemma MadeAwaitsReview(story: StoryState, env: LifecycleEnv)
    requires BeginIfAssigned(story, env.firstReading).Ok?
    requires CandidateStory(BeginIfAssigned(story, env.firstReading).value, env).CandidateMade?
    ensures var made := CandidateStory(BeginIfAssigned(story, env.firstReading).value, env).story;
      made.id == story.id && made.status == StoryStatus.AwaitingReview
  {
  }

  /** A candidate that is written moves its story on to review. */
  lemma WrittenAwaitsReview(s: Snapshot, leases: Leases, agent: AgentState, env: LifecycleEnv)
    requires CreateCandidate(s, leases, agent, env).verdict.Write?
    ensures var verdict := CreateCandidate(s, leases, agent, env).verdict;
      var story := FindStory(verdict.stories, StoryForTask(s, agent).value.id);
      story.Some? && story.value.status == StoryStatus.AwaitingReview
  {
    var story := StoryForTask(s, agent).value;
    var made := CandidateStory(BeginIfAssigned(story, env.firstReading).value, env).story;
    MadeAwaitsReview(story, env);
    FindReplaced(s.stories, made);
  }

  /**
   A candidate releases its writer's lease before Git is asked and before the
   snapshot is committed. It leaves the writer without a lease exactly when
   something goes wrong behind the release or another commit got in first.
   */
  lemma CandidateStrandsWriterIff(s: Snapshot, current: Snapshot, leases: Leases, agent: AgentState, env: LifecycleEnv)
    requires CreateCandidate(s, leases, agent, env).released.Some?
    requires current.revision == s.revision ==> current == s
    requires StoryForTask(current, agent) == StoryForTask(s, agent)
    ensures var decision := CreateCandidate(s, leases, agent, env);
      LacksLease(Carried(s, current, decision.verdict), LeasesAfter(leases, decision), agent)
      <==> CandidateGoesWrong(StoryForTask(s, agent).value, env) || current.revision != s.revision
  {
    ReleasedByItsWriter(s, leases, agent, env);
    RefusedBehindLeaseIff(s, leases, agent, env);
    if CreateCandidate(s, leases, agent, env).verdict.Write? {
      WrittenAwaitsReview(s, leases, agent, env);
    }
  }

  // A story in the hands of a working writer who holds its lease.
  const EXAMPLE_WRITER := CreateAgentState("w", "r", "writer", Some("s"), 0).(status := AgentStatus.Working)
  const EXAMPLE_STORY := CreateStoryState("s", 0).(status := StoryStatus.Working, assignedAgentId := Some("w"))
  const EXAMPLE_RUN := Snapshot(0, RunState("r", LOW, RunStatus.Active, None, 0), [EXAMPLE_STORY], [EXAMPLE_WRITER])
  const EXAMPLE_LEASES: Leases := map["s" := WriterLease(Some("w"), true)]
  const EXAMPLE_ENV := LifecycleEnv(true, Some("a"), Some("i"), Some(Candidate("c", "i")), 0, 0, 0)

  lemma ExampleReleases()
    ensures StoryForTask(EXAMPLE_RUN, EXAMPLE_WRITER) == Some(EXAMPLE_STORY)
    ensures CreateCandidate(EXAMPLE_RUN, EXAMPLE_LEASES, EXAMPLE_WRITER, EXAMPLE_ENV).released == Some("s")
    ensures !CandidateGoesWrong(EXAMPLE_STORY, EXAMPLE_ENV)
  {
    assert TrimStart("c") == "c" && TrimStart("i") == "i";
  }

  /** A parent control committed while the writer's role is looked up costs it both the candidate and its lease. */
  lemma StaleCandidateStrandsWriter(later: LifecycleEnv)
    ensures var focus := PC.Control(PC.Focus, Some("w"), None, None);
      var current := PC.AfterControl(EXAMPLE_RUN, PC.Decide(EXAMPLE_RUN, focus, 0, false));
      var decision := CreateCandidate(EXAMPLE_RUN, EXAMPLE_LEASES, EXAMPLE_WRITER, EXAMPLE_ENV);
      && Answer(EXAMPLE_RUN, current, decision.verdict) == Err(SnapshotChanged)
      && CreateCandidate(current, LeasesAfter(EXAMPLE_LEASES, decision), EXAMPLE_WRITER, later).verdict.Refuse?
  {
    var focus := PC.Control(PC.Focus, Some("w"), None, None);
    var current := PC.AfterControl(EXAMPLE_RUN, PC.Decide(EXAMPLE_RUN, focus, 0, false));
    var decision := CreateCandidate(EXAMPLE_RUN, EXAMPLE_LEASES, EXAMPLE_WRITER, EXAMPLE_ENV);
    assert current == EXAMPLE_RUN.(revision := 1);
    ExampleReleases();
    RefusedBehindLeaseIff(EXAMPLE_RUN, EXAMPLE_LEASES, EXAMPLE_WRITER, EXAMPLE_ENV);
    CandidateStrandsWriterIff(EXAMPLE_RUN, current, EXAMPLE_LEASES, EXAMPLE_WRITER, EXAMPLE_ENV);
    LacksLeaseIsRefused(current, LeasesAfter(EXAMPLE_LEASES, decision), EXAMPLE_WRITER, later);
  }
}
