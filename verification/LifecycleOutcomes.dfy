/**
 What child messages leave behind: for each message, when the handler writes
 anything and what exactly it writes, read off the stored stories, agents and
 leases; and that a rejected story is started again.
 */
module LifecycleOutcomes {
  import opened Wrappers
  import opened Graph
  import opened ControllerState
  import opened ControllerRepository
  import opened AgentMessages
  import opened AgentLifecycle
  import opened Orchestration
  import opened OrchestrationEffects
  import opened OrchestrationLoop
  import opened DrainQuiescence
  import opened StateOutcomes
  import opened TickOutcomes

  // ---------------------------------------------------------------- who reports about what

  /** Agent k sent the message, and story i is its task. */
  ghost predicate Reports(s: Snapshot, message: AgentMessage, k: nat, i: nat) {
    && Distinct(AgentIds(s.agents)) && Distinct(StoryIds(s.stories))
    && k < |s.agents| && s.agents[k].id == message.agentId
    && i < |s.stories| && s.agents[k].taskId == Some(s.stories[i].id)
  }

  /** Story i is the agent's task. */
  ghost predicate IsTask(s: Snapshot, agent: AgentState, i: nat) {
    Distinct(StoryIds(s.stories)) && i < |s.stories| && agent.taskId == Some(s.stories[i].id)
  }

  lemma TaskFound(s: Snapshot, agent: AgentState, i: nat)
    requires IsTask(s, agent, i)
    ensures StoryForTask(s, agent) == Some(s.stories[i])
  {
    FindUnique(s.stories, i);
  }

  /** A message reaches its handler unless its sender may not make such a submission. */
  lemma Dispatched(s: Snapshot, leases: Leases, message: AgentMessage, env: LifecycleEnv, k: nat, i: nat)
    requires Reports(s, message, k, i)
    ensures var agent, decision := s.agents[k], Decide(s, leases, message, env);
      if !MayProceed(agent, message.body, env) then decision == Decision(None, Refuse(LacksAuthority))
      else
        match message.body
        case OperationStartedReport(_) => decision == Decision(None, StartWriterWork(s, leases, agent, env))
        case CandidateReady => decision == CreateCandidate(s, leases, agent, env)
        case ReviewSubmitted(_, _, _) => decision == Decision(None, RecordReview(s, agent, message.body, env))
        case SessionShutdown => decision == Decision(None, CloseSettledAgent(s, leases, agent, env))
        case OperationCompleted(true) => decision == Decision(None, CompleteWriterWork(s, agent, env))
        case OperationProgress => decision == Decision(None, RenewWriterLease(s, leases, agent))
        case HeartbeatReport => decision == Decision(None, RenewWriterLease(s, leases, agent))
        case _ => decision == Decision(None, Keep(NoAction))
  {
    FindAt(s.agents, k);
  }

  predicate LeaseHeld(leases: Leases, storyId: string, agentId: string) {
    storyId in leases && leases[storyId] == WriterLease(Some(agentId), true)
  }

  predicate IsWriter(story: StoryState, agent: AgentState) {
    story.assignedAgentId == Some(agent.id)
  }

  // ---------------------------------------------------------------- starting and finishing work

  lemma StartVerdict(s: Snapshot, leases: Leases, agent: AgentState, env: LifecycleEnv, i: nat)
    requires IsTask(s, agent, i)
    ensures var story, verdict := s.stories[i], StartWriterWork(s, leases, agent, env);
      && (verdict.Write? <==>
            && IsWriter(story, agent) && LeaseHeld(leases, story.id, agent.id) && story.updatedAt <= env.firstReading
            && (story.status == StoryStatus.Assigned || story.status == StoryStatus.WorkComplete))
      && (verdict.Write? ==>
            verdict ==
              Write(s.stories[i := WithoutReview(story).(status := StoryStatus.Working, updatedAt := env.firstReading)],
                    s.agents, StoryWorkStartedAction))
  {
    TaskFound(s, agent, i);
    if StartWriterWork(s, leases, agent, env).Write? {
      ReplaceAt(s.stories, i, TransitionStory(s.stories[i], StoryWorkStarted(env.firstReading)).value);
    }
  }

  /** A started story is in its writer's hands again, without anything left of an earlier candidate or review. */
  lemma StartIsWritten(s: Snapshot, leases: Leases, message: AgentMessage, env: LifecycleEnv, k: nat, i: nat)
    requires Reports(s, message, k, i) && message.body.OperationStartedReport?
    ensures var story, agent, decision := s.stories[i], s.agents[k], Decide(s, leases, message, env);
      && decision.released.None?
      && (decision.verdict.Write? <==>
            && IsWriter(story, agent) && LeaseHeld(leases, story.id, agent.id) && story.updatedAt <= env.firstReading
            && (story.status == StoryStatus.Assigned || story.status == StoryStatus.WorkComplete))
      && (decision.verdict.Write? ==>
            decision.verdict ==
              Write(s.stories[i := WithoutReview(story).(status := StoryStatus.Working, updatedAt := env.firstReading)],
                    s.agents, StoryWorkStartedAction))
  {
    Dispatched(s, leases, message, env, k, i);
    StartVerdict(s, leases, s.agents[k], env, i);
  }

  /** What a first operation, or a completion without one, makes of an assigned story. */
  function Begun(story: StoryState): StoryState {
    if story.status == StoryStatus.Assigned then WithoutReview(story) else story
  }

  lemma CompletionVerdict(s: Snapshot, agent: AgentState, env: LifecycleEnv, i: nat)
    requires IsTask(s, agent, i)
    ensures var story, verdict := s.stories[i], CompleteWriterWork(s, agent, env);
      && (verdict.Write? <==>
            && IsWriter(story, agent)
            && ((story.status == StoryStatus.Assigned && story.updatedAt <= env.firstReading <= env.secondReading)
                || (story.status == StoryStatus.Working && story.updatedAt <= env.secondReading)))
      && (verdict.Write? ==>
            verdict ==
              Write(s.stories[i := Begun(story).(status := StoryStatus.WorkComplete, updatedAt := env.secondReading)],
                    s.agents, StoryWorkCompletedAction))
  {
    TaskFound(s, agent, i);
    if CompleteWriterWork(s, agent, env).Write? {
      ReplaceAt(s.stories, i, CompletedStory(s.stories[i], env).value);
    }
  }

  /** A successful operation of a story's writer completes the work in hand. */
  lemma CompletionIsWritten(s: Snapshot, leases: Leases, message: AgentMessage, env: LifecycleEnv, k: nat, i: nat)
    requires Reports(s, message, k, i) && message.body.OperationCompleted?
    ensures var story, agent, decision := s.stories[i], s.agents[k], Decide(s, leases, message, env);
      && decision.released.None?
      && (decision.verdict.Write? <==>
            && message.body.success && IsWriter(story, agent)
            && ((story.status == StoryStatus.Assigned && story.updatedAt <= env.firstReading <= env.secondReading)
                || (story.status == StoryStatus.Working && story.updatedAt <= env.secondReading)))
      && (decision.verdict.Write? ==>
            decision.verdict ==
              Write(s.stories[i := Begun(story).(status := StoryStatus.WorkComplete, updatedAt := env.secondReading)],
                    s.agents, StoryWorkCompletedAction))
  {
    Dispatched(s, leases, message, env, k, i);
    CompletionVerdict(s, s.agents[k], env, i);
  }

  // ---------------------------------------------------------------- candidates

  /** Everything a candidate needs before its writer's lease is released. */
  ghost predicate CandidateFits(story: StoryState, agent: AgentState, leases: Leases, env: LifecycleEnv) {
    && IsWriter(story, agent) && LeaseHeld(leases, story.id, agent.id)
    && env.storyHead.Some? && env.integrationHead.Some?
    && ((story.status == StoryStatus.Assigned && story.updatedAt <= env.firstReading)
        || story.status == StoryStatus.Working || story.status == StoryStatus.WorkComplete)
  }

  /** What has to go well behind the release. */
  ghost predicate CandidateGoesWell(story: StoryState, env: LifecycleEnv) {
    && (if story.status == StoryStatus.Assigned then env.firstReading else story.updatedAt) <= env.secondReading
    && env.secondReading <= env.thirdReading
    && env.candidate.Some? && !IsBlank(env.candidate.value.commit) && !IsBlank(env.candidate.value.integrationHead)
  }

  /** The story under review, with the heads that Git answered. */
  function CandidateOf(story: StoryState, env: LifecycleEnv): StoryState
    requires env.candidate.Some?
  {
    story.(status := StoryStatus.AwaitingReview, candidateStoryHead := Some(Trim(env.candidate.value.commit)),
           reviewedIntegrationHead := Some(Trim(env.candidate.value.integrationHead)),
           reviewerAgentId := None, updatedAt := env.thirdReading)
  }

  lemma CandidateIsMade(story: StoryState, env: LifecycleEnv)
    requires story.status in {StoryStatus.Assigned, StoryStatus.Working, StoryStatus.WorkComplete}
    requires story.status == StoryStatus.Assigned ==> story.updatedAt <= env.firstReading
    ensures BeginIfAssigned(story, env.firstReading).Ok?
    ensures var made := CandidateStory(BeginIfAssigned(story, env.firstReading).value, env);
      && (made.CandidateMade? <==> CandidateGoesWell(story, env))
      && (made.CandidateMade? ==>
            made.story == CandidateOf(story, env))
  {
    if env.candidate.Some? {
      NonEmptyUnlessBlank(env.candidate.value.commit);
      NonEmptyUnlessBlank(env.candidate.value.integrationHead);
    }
  }

  lemma CandidateDecision(s: Snapshot, leases: Leases, agent: AgentState, env: LifecycleEnv, i: nat)
    requires IsTask(s, agent, i)
    ensures var story, decision := s.stories[i], CreateCandidate(s, leases, agent, env);
      && decision.released == (if CandidateFits(story, agent, leases, env) then Some(story.id) else None)
      && (decision.verdict.Write? <==> CandidateFits(story, agent, leases, env) && CandidateGoesWell(story, env))
      && (decision.verdict.Write? ==>
            decision.verdict == Write(s.stories[i := CandidateOf(story, env)], s.agents, CandidateCreatedAction))
  {
    TaskFound(s, agent, i);
    var story := s.stories[i];
    if CandidateFits(story, agent, leases, env) {
      CandidateIsMade(story, env);
      if CandidateGoesWell(story, env) {
        ReplaceAt(s.stories, i, CandidateOf(story, env));
      }
    }
  }

  /** A candidate carries the heads that Git answered, has no reviewer, and is written once its lease is released. */
  lemma CandidateIsWritten(s: Snapshot, leases: Leases, message: AgentMessage, env: LifecycleEnv, k: nat, i: nat)
    requires Reports(s, message, k, i) && message.body.CandidateReady?
    ensures var story, agent, decision := s.stories[i], s.agents[k], Decide(s, leases, message, env);
      var fits := env.authorized && (agent.status == AgentStatus.Idle || agent.status == AgentStatus.Working)
                  && CandidateFits(story, agent, leases, env);
      && decision.released == (if fits then Some(story.id) else None)
      && (decision.verdict.Write? <==> fits && CandidateGoesWell(story, env))
      && (decision.verdict.Write? ==>
            decision.verdict == Write(s.stories[i := CandidateOf(story, env)], s.agents, CandidateCreatedAction))
  {
    Dispatched(s, leases, message, env, k, i);
    CandidateDecision(s, leases, s.agents[k], env, i);
  }

  // ---------------------------------------------------------------- reviews

  /** The reviewer on record, not the writer, judges the heads that are still the live ones. */
  ghost predicate ReviewFits(story: StoryState, agent: AgentState, body: MessageBody, env: LifecycleEnv)
    requires body.ReviewSubmitted?
  {
    && !IsWriter(story, agent) && story.reviewerAgentId == Some(agent.id) && !IsBlank(agent.id)
    && story.status == StoryStatus.AwaitingReview
    && story.candidateStoryHead == Some(body.candidateStoryHead) && env.storyHead == Some(body.candidateStoryHead)
    && story.reviewedIntegrationHead == Some(body.integrationHead) && env.integrationHead == Some(body.integrationHead)
    && story.updatedAt <= env.firstReading
  }

  function Reviewed(story: StoryState, agent: AgentState, outcome: ReviewOutcome, at: nat): StoryState {
    story.(status := if outcome == ApprovedOutcome then StoryStatus.Approved else StoryStatus.ChangesRequested,
           reviewerAgentId := Some(Trim(agent.id)), updatedAt := at)
  }

  lemma ReviewVerdict(s: Snapshot, agent: AgentState, body: MessageBody, env: LifecycleEnv, i: nat)
    requires IsTask(s, agent, i) && body.ReviewSubmitted?
    ensures var story, verdict := s.stories[i], RecordReview(s, agent, body, env);
      && (verdict.Write? <==> ReviewFits(story, agent, body, env))
      && (verdict.Write? ==>
            verdict ==
              Write(s.stories[i := Reviewed(story, agent, body.outcome, env.firstReading)], s.agents,
                    if body.outcome == ApprovedOutcome then ReviewApprovedAction else ReviewChangesRequestedAction))
  {
    TaskFound(s, agent, i);
    NonEmptyUnlessBlank(agent.id);
    if ReviewFits(s.stories[i], agent, body, env) {
      ReplaceAt(s.stories, i, Reviewed(s.stories[i], agent, body.outcome, env.firstReading));
    }
  }

  /** A review that is written approves its story or sends it back for changes, as it says, and touches nothing else. */
  lemma ReviewIsWritten(s: Snapshot, leases: Leases, message: AgentMessage, env: LifecycleEnv, k: nat, i: nat)
    requires Reports(s, message, k, i) && message.body.ReviewSubmitted?
    ensures var story, agent, decision := s.stories[i], s.agents[k], Decide(s, leases, message, env);
      && decision.released.None?
      && (decision.verdict.Write? <==>
            && env.authorized && Busy(agent.status) && ReviewFits(story, agent, message.body, env))
      && (decision.verdict.Write? ==>
            decision.verdict ==
              Write(s.stories[i := Reviewed(story, agent, message.body.outcome, env.firstReading)], s.agents,
                    if message.body.outcome == ApprovedOutcome then ReviewApprovedAction
                    else ReviewChangesRequestedAction))
  {
    Dispatched(s, leases, message, env, k, i);
    ReviewVerdict(s, s.agents[k], message.body, env, i);
  }

  // ---------------------------------------------------------------- settled agents

  /** Nothing is left for the agent to do on its story. */
  ghost predicate IsSettled(story: StoryState, agent: AgentState, leases: Leases) {
    || (&& IsWriter(story, agent) && (story.id in leases ==> leases[story.id].owner.None?)
        && (story.status == StoryStatus.AwaitingReview || story.status == StoryStatus.Approved
            || story.status == StoryStatus.Merging || story.status == StoryStatus.Merged))
    || (&& story.reviewerAgentId == Some(agent.id)
        && (story.status == StoryStatus.ChangesRequested || story.status == StoryStatus.Approved
            || story.status == StoryStatus.Merging || story.status == StoryStatus.Merged))
  }

  /** The agent ends through a completion, or has ended already. */
  ghost predicate MayClose(agent: AgentState, env: LifecycleEnv) {
    || (Busy(agent.status) && agent.updatedAt <= env.firstReading <= env.secondReading)
    || (&& (agent.status == AgentStatus.Completed || agent.status == AgentStatus.Failed
            || agent.status == AgentStatus.Disconnected)
        && agent.updatedAt <= env.secondReading)
  }

  /** Closed, out of its pane, and, if it was still active, completed first. */
  function Closed(agent: AgentState, env: LifecycleEnv): AgentState {
    var ended := if Busy(agent.status)
                 then agent.(waitingReason := None, blockedReason := None, lastMeaningfulActivityAt := env.firstReading)
                 else agent;
    ended.(status := AgentStatus.Closed, paneId := None, currentOperation := None, updatedAt := env.secondReading)
  }

  lemma ReplaceAgentAt(agents: seq<AgentState>, k: nat, updated: AgentState)
    requires Distinct(AgentIds(agents)) && k < |agents| && updated.id == agents[k].id
    ensures ReplaceAgent(agents, updated) == agents[k := updated]
  {
    assert forall j :: 0 <= j < |agents| && j != k ==> AgentIds(agents)[j] != AgentIds(agents)[k];
  }

  lemma ClosedWhenItMay(agent: AgentState, env: LifecycleEnv)
    ensures ClosedAgent(agent, env).Ok? <==> MayClose(agent, env)
    ensures MayClose(agent, env) ==> ClosedAgent(agent, env) == Ok(Closed(agent, env))
  {
  }

  lemma SettledEither(story: StoryState, agent: AgentState, leases: Leases)
    ensures IsSettled(story, agent, leases) <==>
            IsSettledWriter(story, agent, leases) || IsSettledReviewer(story, agent)
  {
  }

  /** The shutdown of an agent whose story has settled closes that agent, and touches nothing else. */
  lemma ShutdownIsWritten(s: Snapshot, leases: Leases, message: AgentMessage, env: LifecycleEnv, k: nat, i: nat)
    requires Reports(s, message, k, i) && message.body.SessionShutdown?
    ensures var story, agent, decision := s.stories[i], s.agents[k], Decide(s, leases, message, env);
      && decision.released.None?
      && (decision.verdict.Write? <==> IsSettled(story, agent, leases) && MayClose(agent, env))
      && (decision.verdict.Write? ==>
            decision.verdict == Write(s.stories, s.agents[k := Closed(agent, env)], AgentClosedAction))
  {
    var agent := s.agents[k];
    Dispatched(s, leases, message, env, k, i);
    TaskFound(s, agent, i);
    ClosedWhenItMay(agent, env);
    SettledEither(s.stories[i], agent, leases);
    if MayClose(agent, env) {
      ReplaceAgentAt(s.agents, k, Closed(agent, env));
    }
  }

  // ---------------------------------------------------------------- everything else

  /** The writer still has the story in hand. */
  predicate InHand(story: StoryState, agent: AgentState) {
    && IsWriter(story, agent)
    && (story.status == StoryStatus.Assigned || story.status == StoryStatus.Working
        || story.status == StoryStatus.WorkComplete)
  }

  lemma RenewalVerdict(s: Snapshot, leases: Leases, agent: AgentState, i: nat)
    requires IsTask(s, agent, i)
    ensures RenewWriterLease(s, leases, agent) ==
            if !InHand(s.stories[i], agent) then Keep(NoAction)
            else if LeaseHeld(leases, s.stories[i].id, agent.id) then Keep(WriterLeaseRenewed)
            else Refuse(MissingWriterLease)
  {
    TaskFound(s, agent, i);
  }

  /** Progress and heartbeats of a writer renew its lease, or are refused without one; others' change nothing. */
  lemma HeartbeatRenewsLease(s: Snapshot, leases: Leases, message: AgentMessage, env: LifecycleEnv, k: nat, i: nat)
    requires Reports(s, message, k, i) && (message.body.OperationProgress? || message.body.HeartbeatReport?)
    ensures var story, agent := s.stories[i], s.agents[k];
      Decide(s, leases, message, env)
      == Decision(None, if !InHand(story, agent) then Keep(NoAction)
                        else if LeaseHeld(leases, story.id, agent.id) then Keep(WriterLeaseRenewed)
                        else Refuse(MissingWriterLease))
  {
    Dispatched(s, leases, message, env, k, i);
    RenewalVerdict(s, leases, s.agents[k], i);
  }

  /** A start that writes nothing is a heartbeat, if its clock is not behind. */
  lemma OtherStartsRenew(s: Snapshot, leases: Leases, agent: AgentState, env: LifecycleEnv, i: nat)
    requires IsTask(s, agent, i) && !StartWriterWork(s, leases, agent, env).Write?
    ensures StartWriterWork(s, leases, agent, env) == RenewWriterLease(s, leases, agent)
            || (StartWriterWork(s, leases, agent, env) == Refuse(Invalid(ClockMovedBackwards))
                && env.firstReading < s.stories[i].updatedAt)
  {
    TaskFound(s, agent, i);
  }

  /** No other message changes anything, whoever on record sends it. */
  lemma OthersAreKept(s: Snapshot, leases: Leases, message: AgentMessage, env: LifecycleEnv)
    requires message.body.SessionStarted? || message.body.BlockedReport? || message.body.UnblockedReport?
             || message.body.SupervisorNudge? || message.body.SupervisorCompletion? || message.body.SupervisorError?
             || message.body == OperationCompleted(false)
    ensures Decide(s, leases, message, env)
            == Decision(None, if exists agent :: agent in s.agents && agent.id == message.agentId
                              then Keep(NoAction) else Refuse(UnknownAgent))
  {
  }

  /** An agent without a story has nothing to hand in, and none of its other messages changes anything. */
  lemma WithoutAStory(s: Snapshot, leases: Leases, message: AgentMessage, env: LifecycleEnv, k: nat)
    requires Distinct(AgentIds(s.agents)) && k < |s.agents| && s.agents[k].id == message.agentId
    requires forall story :: story in s.stories ==> s.agents[k].taskId != Some(story.id)
    ensures Decide(s, leases, message, env)
            == Decision(None, if !message.body.CandidateReady? && !message.body.ReviewSubmitted? then Keep(NoAction)
                              else if MayProceed(s.agents[k], message.body, env) then Refuse(NoStoryAssignment)
                              else Refuse(LacksAuthority))
  {
    FindAt(s.agents, k);
    assert StoryForTask(s, s.agents[k]).None?;
  }

  /** A candidate is a repetition exactly when its story awaits review with heads on record. */
  lemma RepeatedCandidate(s: Snapshot, leases: Leases, agent: AgentState, env: LifecycleEnv, i: nat)
    requires IsTask(s, agent, i)
    ensures var story, verdict := s.stories[i], CreateCandidate(s, leases, agent, env).verdict;
      && (verdict.Keep? ==> verdict == Keep(NoAction))
      && (verdict.Keep? <==> IsWriter(story, agent) && story.status == StoryStatus.AwaitingReview
                             && story.candidateStoryHead.Some? && story.reviewedIntegrationHead.Some?)
  {
    TaskFound(s, agent, i);
  }

  predicate MatchesStory(story: StoryState, body: MessageBody)
    requires body.ReviewSubmitted?
  {
    && story.candidateStoryHead == Some(body.candidateStoryHead)
    && story.reviewedIntegrationHead == Some(body.integrationHead)
  }

  /** The review has had its effect on the story already. */
  ghost predicate IsRecorded(story: StoryState, body: MessageBody)
    requires body.ReviewSubmitted?
  {
    if body.outcome == ApprovedOutcome
    then story.status == StoryStatus.Approved || story.status == StoryStatus.Merging
         || story.status == StoryStatus.Merged
    else story.status == StoryStatus.ChangesRequested
  }

  /** A review is a repetition exactly when its reviewer has decided the same about the same heads. */
  lemma RepeatedReview(s: Snapshot, agent: AgentState, body: MessageBody, env: LifecycleEnv, i: nat)
    requires IsTask(s, agent, i) && body.ReviewSubmitted?
    ensures var story, verdict := s.stories[i], RecordReview(s, agent, body, env);
      && (verdict.Keep? ==> verdict == Keep(NoAction))
      && (verdict.Keep? <==>
            && !IsWriter(story, agent) && story.reviewerAgentId == Some(agent.id)
            && IsRecorded(story, body) && MatchesStory(story, body))
  {
    TaskFound(s, agent, i);
  }

  /** A shutdown leaves everything alone exactly when the agent is closed, or has something left to do. */
  lemma IdleShutdown(s: Snapshot, leases: Leases, agent: AgentState, env: LifecycleEnv, i: nat)
    requires IsTask(s, agent, i)
    ensures var verdict := CloseSettledAgent(s, leases, agent, env);
      && (verdict.Keep? ==> verdict == Keep(NoAction))
      && (verdict.Keep? <==> agent.status == AgentStatus.Closed || !IsSettled(s.stories[i], agent, leases))
  {
    TaskFound(s, agent, i);
    SettledEither(s.stories[i], agent, leases);
  }

  // ---------------------------------------------------------------- refusals

  /** A submission without authority comes from a role that may not make it, or from an agent that is not active. */
  lemma AuthorityIsMissingIff(s: Snapshot, leases: Leases, message: AgentMessage, env: LifecycleEnv, k: nat, i: nat)
    requires Reports(s, message, k, i)
    ensures var agent := s.agents[k];
      Decide(s, leases, message, env).verdict == Refuse(LacksAuthority) <==>
        || (message.body.CandidateReady?
            && (!env.authorized || (agent.status != AgentStatus.Idle && agent.status != AgentStatus.Working)))
        || (message.body.ReviewSubmitted? && (!env.authorized || !Busy(agent.status)))
  {
    Dispatched(s, leases, message, env, k, i);
    if MayProceed(s.agents[k], message.body, env) && Decide(s, leases, message, env).verdict.Refuse? {
      OnlyDispatchAsksForAuthority(s, leases, message, env, k, i);
    }
  }

  lemma OnlyDispatchAsksForAuthority(s: Snapshot, leases: Leases, message: AgentMessage, env: LifecycleEnv,
                                     k: nat, i: nat)
    requires Reports(s, message, k, i) && MayProceed(s.agents[k], message.body, env)
    ensures Decide(s, leases, message, env).verdict != Refuse(LacksAuthority)
  {
    Dispatched(s, leases, message, env, k, i);
    if message.body.CandidateReady? && CreateCandidate(s, leases, s.agents[k], env).verdict.Refuse? {
      CandidateRefusals(s, leases, s.agents[k], env, i);
    } else if message.body.ReviewSubmitted? && RecordReview(s, s.agents[k], message.body, env).Refuse? {
      ReviewRefusals(s, s.agents[k], message.body, env, i);
    } else if message.body.SessionShutdown? && CloseSettledAgent(s, leases, s.agents[k], env).Refuse? {
      ShutdownRefusals(s, leases, s.agents[k], env, i);
    }
  }

  /** Behind the released lease a candidate fails on the clock, on Git, or on a blank head. */
  lemma StoryRefusals(working: StoryState, env: LifecycleEnv)
    requires working.status in {StoryStatus.Working, StoryStatus.WorkComplete}
    requires CandidateStory(working, env).CandidateRefused?
    ensures CandidateStory(working, env).error ==
            if env.secondReading < working.updatedAt then Invalid(ClockMovedBackwards)
            else if env.candidate.None? then CandidateFailed
            else if env.thirdReading < env.secondReading then Invalid(ClockMovedBackwards)
            else Invalid(EmptyText)
  {
  }

  /** Why a candidate is refused; the first reason in this order is given. */
  lemma CandidateRefusals(s: Snapshot, leases: Leases, agent: AgentState, env: LifecycleEnv, i: nat)
    requires IsTask(s, agent, i) && CreateCandidate(s, leases, agent, env).verdict.Refuse?
    ensures var story := s.stories[i];
      match CreateCandidate(s, leases, agent, env).verdict.error
      case NotAssignedWriter => !IsWriter(story, agent)
      case NotAcceptingCandidate => IsWriter(story, agent) && !InHand(story, agent)
      case MissingWriterLease => InHand(story, agent) && !LeaseHeld(leases, story.id, agent.id)
      case WorktreeEvidence =>
        && InHand(story, agent) && LeaseHeld(leases, story.id, agent.id)
        && (env.storyHead.None? || env.integrationHead.None?)
      case CandidateFailed => CandidateFits(story, agent, leases, env) && env.candidate.None?
      case Invalid(ClockMovedBackwards) => InHand(story, agent)
      case Invalid(EmptyText) => CandidateFits(story, agent, leases, env) && env.candidate.Some?
      case _ => false
  {
    TaskFound(s, agent, i);
    var story := s.stories[i];
    if CandidateFits(story, agent, leases, env) {
      CandidateIsMade(story, env);
      StoryRefusals(BeginIfAssigned(story, env.firstReading).value, env);
    }
  }

  /** Why a review is refused; the first reason in this order is given. */
  lemma ReviewRefusals(s: Snapshot, agent: AgentState, body: MessageBody, env: LifecycleEnv, i: nat)
    requires IsTask(s, agent, i) && body.ReviewSubmitted? && RecordReview(s, agent, body, env).Refuse?
    ensures var story := s.stories[i];
      var onRecord := !IsWriter(story, agent) && story.reviewerAgentId == Some(agent.id);
      match RecordReview(s, agent, body, env).error
      case WriterCannotReview => IsWriter(story, agent)
      case NotAssignedReviewer => !IsWriter(story, agent) && story.reviewerAgentId != Some(agent.id)
      case ReviewDiffers => onRecord && IsRecorded(story, body) && !MatchesStory(story, body)
      case NotAwaitingReview =>
        && onRecord && !IsRecorded(story, body)
        && (story.status == StoryStatus.AwaitingReview ==>
              story.candidateStoryHead.None? || story.reviewedIntegrationHead.None?)
      case StaleReview => onRecord && story.status == StoryStatus.AwaitingReview && !MatchesStory(story, body)
      case WorktreeEvidence =>
        && onRecord && story.status == StoryStatus.AwaitingReview && MatchesStory(story, body)
        && (env.storyHead.None? || env.integrationHead.None?)
      case HeadsChanged =>
        && onRecord && story.status == StoryStatus.AwaitingReview && MatchesStory(story, body)
        && env.storyHead.Some? && env.integrationHead.Some?
        && (env.storyHead.value != body.candidateStoryHead || env.integrationHead.value != body.integrationHead)
      case Invalid(ClockMovedBackwards) => onRecord && env.firstReading < story.updatedAt
      case Invalid(EmptyText) => onRecord && IsBlank(agent.id)
      case _ => false
  {
    TaskFound(s, agent, i);
    NonEmptyUnlessBlank(agent.id);
  }

  /** A settled agent is refused its shutdown from a status it cannot end from, or by a clock that is behind. */
  lemma ShutdownRefusals(s: Snapshot, leases: Leases, agent: AgentState, env: LifecycleEnv, i: nat)
    requires IsTask(s, agent, i) && CloseSettledAgent(s, leases, agent, env).Refuse?
    ensures IsSettled(s.stories[i], agent, leases)
    ensures CloseSettledAgent(s, leases, agent, env) ==
            if agent.status in {AgentStatus.Planned, AgentStatus.Launching, AgentStatus.Waiting, AgentStatus.Blocked}
            then Refuse(CannotClose) else Refuse(Invalid(ClockMovedBackwards))
  {
    TaskFound(s, agent, i);
    SettledEither(s.stories[i], agent, leases);
  }

  // ---------------------------------------------------------------- a rejected story starts again

  /** The story a review sent back may start again as soon as its dependencies are merged. */
  lemma RejectedMayStart(s: Snapshot, leases: Leases, message: AgentMessage, env: LifecycleEnv, k: nat, i: nat,
                         config: LoopConfig)
    requires Reports(s, message, k, i)
    requires message.body.ReviewSubmitted? && message.body.outcome == ChangesRequestedOutcome
    requires Decide(s, leases, message, env).verdict.Write?
    ensures var after := Carried(s, s, Decide(s, leases, message, env).verdict);
      && |after.stories| == |s.stories| && after.run == s.run && after.revision == s.revision + 1
      && Distinct(StoryIds(after.stories))
      && (MayStart(after, config, after.stories[i]) <==> DependenciesMerged(s, config, s.stories[i]))
      && PlacesTaken(after.stories, |after.stories|) + 1 == PlacesTaken(s.stories, |s.stories|)
  {
    ReviewIsWritten(s, leases, message, env, k, i);
    var after := Carried(s, s, Decide(s, leases, message, env).verdict);
    assert StoryIds(after.stories) == StoryIds(s.stories);
    MergedStoriesStay(s, after, i);
    PlaceGivenUp(s.stories, after.stories, i, |s.stories|);
  }

  lemma MergedStoriesStay(s: Snapshot, after: Snapshot, i: nat)
    requires i < |s.stories| && |after.stories| == |s.stories| && after.stories == s.stories[i := after.stories[i]]
    requires s.stories[i].status != StoryStatus.Merged && after.stories[i].status != StoryStatus.Merged
    ensures forall other: StoryState :: other.status == StoryStatus.Merged ==>
              (other in s.stories <==> other in after.stories)
  {
    forall other | other in s.stories && other.status == StoryStatus.Merged ensures other in after.stories {
      var j :| 0 <= j < |s.stories| && s.stories[j] == other;
      assert after.stories[j] == other;
    }
    forall other | other in after.stories && other.status == StoryStatus.Merged ensures other in s.stories {
      var j :| 0 <= j < |after.stories| && after.stories[j] == other;
      assert s.stories[j] == other;
    }
  }

  lemma {:induction false} PlaceGivenUp(before: seq<StoryState>, after: seq<StoryState>, i: nat, n: nat)
    requires i < |before| == |after| && n <= |before| && after == before[i := after[i]]
    requires TakesPlace(before[i].status) && !TakesPlace(after[i].status)
    ensures PlacesTaken(before, n) == PlacesTaken(after, n) + if i < n then 1 else 0
  {
    if n > 0 {
      PlaceGivenUp(before, after, i, n - 1);
      assert n - 1 != i ==> after[n - 1] == before[n - 1];
    }
  }

  /** The next plan assigns it a fresh writer, if fewer stories before it may start than there are places left. */
  lemma RejectedStartsAgain(s: Snapshot, leases: Leases, message: AgentMessage, env: LifecycleEnv, k: nat, i: nat,
                            config: LoopConfig)
    requires Reports(s, message, k, i)
    requires message.body.ReviewSubmitted? && message.body.outcome == ChangesRequestedOutcome
    requires Decide(s, leases, message, env).verdict.Write? && DependenciesMerged(s, config, s.stories[i])
    ensures var after := Carried(s, s, Decide(s, leases, message, env).verdict);
      && i < |after.stories|
      && (|MayStartIds(after, config, i)| < PlacesLeft(after) ==>
            AssignStory(s.stories[i].id) in NeededActions(Project(after, config.dependencies), after.run.complexity))
  {
    RejectedMayStart(s, leases, message, env, k, i, config);
    ReviewIsWritten(s, leases, message, env, k, i);
    var after := Carried(s, s, Decide(s, leases, message, env).verdict);
    if |MayStartIds(after, config, i)| < PlacesLeft(after) {
      StartedWhenPlaced(after, config, i);
    }
  }
}
