/**
 What each planned action makes of the snapshot: exactly when it succeeds, the
 record it leaves, and what it reports otherwise.
 */
module EffectOutcomes {
  import opened Wrappers
  import opened Graph
  import opened ControllerState
  import opened Orchestration
  import opened OrchestrationEffects
  import opened StateOutcomes

  /** The action is about story i. */
  ghost predicate Concerns(s: Snapshot, action: OrchestrationAction, i: nat) {
    && Distinct(StoryIds(s.stories)) && i < |s.stories|
    && ChangesStory(action) && action.storyId == s.stories[i].id
  }

  // ---------------------------------------------------------------- assigning a writer

  /** A story in its fresh writer's hands; a rejected attempt leaves nothing behind. */
  function InFreshHands(story: StoryState, agentId: string, at: nat): StoryState {
    var cleared := if story.status == StoryStatus.ChangesRequested then WithoutReview(story).(blockedReason := None)
                   else story;
    cleared.(status := StoryStatus.Assigned, assignedAgentId := Some(Trim(agentId)), updatedAt := at)
  }

  ghost predicate MayAssign(story: StoryState, agentId: string, answer: EffectAnswer) {
    && !IsBlank(agentId)
    && ((story.status == StoryStatus.Ready && story.updatedAt <= answer.secondReading)
        || (story.status == StoryStatus.ChangesRequested
            && story.updatedAt <= answer.firstReading <= answer.secondReading))
  }

  lemma AssignedInFreshHands(story: StoryState, agentId: string, answer: EffectAnswer)
    ensures AssignedStory(story, agentId, answer).Ok? <==> MayAssign(story, agentId, answer)
    ensures MayAssign(story, agentId, answer) ==>
            AssignedStory(story, agentId, answer) == Ok(InFreshHands(story, agentId, answer.secondReading))
    ensures AssignedStory(story, agentId, answer).Err? ==> AssignedStory(story, agentId, answer).error.Transition?
  {
    ReassignmentReasonIsText();
    NonEmptyUnlessBlank(agentId);
  }

  /** A launched writer gets a ready story, or one that was sent back, without anything of the rejected attempt. */
  lemma WriterIsAssigned(s: Snapshot, action: OrchestrationAction, answer: EffectAnswer, i: nat)
    requires Concerns(s, action, i) && action.AssignStory?
    ensures var r, story := Execute(action, s, answer), s.stories[i];
      && (r.Ok? <==> answer.launch.Some? && MayAssign(story, answer.launch.value.id, answer))
      && (r.Ok? ==>
            r.value == s.(stories := s.stories[i := InFreshHands(story, answer.launch.value.id, answer.secondReading)],
                          agents := UpsertAgent(s.agents, answer.launch.value)))
      && (r.Err? && answer.launch.None? ==> r.error == ExternalFailure)
      && (r.Err? && answer.launch.Some? ==> r.error.Transition?)
  {
    ExecuteOnStory(action, s, answer, i);
    if answer.launch.Some? {
      AssignedInFreshHands(s.stories[i], answer.launch.value.id, answer);
    }
  }

  // ---------------------------------------------------------------- assigning a reviewer

  /** A launched reviewer is put on record at once, so that no later tick launches another. */
  lemma ReviewerIsAssigned(s: Snapshot, action: OrchestrationAction, answer: EffectAnswer, i: nat)
    requires Concerns(s, action, i) && action.AssignReviewer?
    ensures Execute(action, s, answer) ==
            match answer.launch
            case None => Err(ExternalFailure)
            case Some(agent) =>
              Ok(s.(stories := s.stories[i := s.stories[i].(reviewerAgentId := Some(agent.id),
                                                            updatedAt := answer.firstReading)],
                    agents := UpsertAgent(s.agents, agent)))
  {
    ExecuteOnStory(action, s, answer, i);
  }

  // ---------------------------------------------------------------- merging and cleaning up

  ghost predicate HasMergeEvidence(story: StoryState) {
    && story.assignedAgentId.Some? && story.candidateStoryHead.Some?
    && story.reviewerAgentId.Some? && story.reviewedIntegrationHead.Some?
  }

  ghost predicate MayMerge(story: StoryState, answer: EffectAnswer) {
    && HasMergeEvidence(story) && story.status == StoryStatus.Approved
    && answer.mergeCommit.Some? && !IsBlank(answer.mergeCommit.value)
    && story.updatedAt <= answer.firstReading <= answer.secondReading
  }

  /** An approved story with its evidence is merged at Git's commit; without the evidence Git is not asked. */
  lemma StoryIsMerged(s: Snapshot, action: OrchestrationAction, answer: EffectAnswer, i: nat)
    requires Concerns(s, action, i) && action.RequestMerge?
    ensures var r, story := Execute(action, s, answer), s.stories[i];
      && (r.Ok? <==> MayMerge(story, answer))
      && (r.Ok? ==>
            r.value == s.(stories := s.stories[i := story.(status := StoryStatus.Merged,
                                                           mergeHead := Some(Trim(answer.mergeCommit.value)),
                                                           updatedAt := answer.secondReading)]))
      && (r == Err(NotReadyToMerge(story.id)) <==> !HasMergeEvidence(story))
      && (r == Err(ExternalFailure) <==> HasMergeEvidence(story) && answer.mergeCommit.None?)
  {
    ExecuteOnStory(action, s, answer, i);
    if answer.mergeCommit.Some? {
      NonEmptyUnlessBlank(answer.mergeCommit.value);
    }
  }

  ghost predicate HasCleanupEvidence(story: StoryState) {
    story.mergeHead.Some? && story.candidateStoryHead.Some? && story.reviewedIntegrationHead.Some?
  }

  /** A cleaned story keeps everything but its mark and its time, whatever the clock shows. */
  lemma StoryIsCleaned(s: Snapshot, action: OrchestrationAction, answer: EffectAnswer, i: nat)
    requires Concerns(s, action, i) && action.RequestCleanup?
    ensures Execute(action, s, answer) ==
            if !HasCleanupEvidence(s.stories[i]) then Err(NotMergedYet(s.stories[i].id))
            else if !answer.cleanedUp then Err(ExternalFailure)
            else Ok(s.(stories := s.stories[i := s.stories[i].(workspaceCleaned := true,
                                                               updatedAt := answer.firstReading)]))
  {
    ExecuteOnStory(action, s, answer, i);
  }

  // ---------------------------------------------------------------- the team and the run

  /** A team member's launch changes the agents alone. */
  lemma TeamMemberIsLaunched(s: Snapshot, action: OrchestrationAction, answer: EffectAnswer)
    requires action.AssignProjectManager? || action.AssignAdvisor?
    requires exists story :: story in s.stories && story.id == action.storyId
    ensures Execute(action, s, answer) ==
            match answer.launch
            case None => Err(ExternalFailure)
            case Some(agent) => Ok(s.(agents := UpsertAgent(s.agents, agent)))
  {
  }

  /** An agent that a launch returns is on record once: in its old place, or at the end. */
  lemma LaunchedIsOnRecord(agents: seq<AgentState>, agent: AgentState)
    requires Distinct(AgentIds(agents))
    ensures (exists k :: 0 <= k < |agents| && agents[k].id == agent.id
                         && UpsertAgent(agents, agent) == agents[k := agent])
            || ((forall k :: 0 <= k < |agents| ==> agents[k].id != agent.id)
                && UpsertAgent(agents, agent) == agents + [agent])
  {
    if HasAgent(agents, agent.id) {
      var k :| 0 <= k < |agents| && agents[k].id == agent.id;
      UpsertAt(agents, agent, k);
    }
  }

  /** An action about an unknown story fails before anything is launched or asked of Git. */
  lemma UnknownStoriesFail(s: Snapshot, action: OrchestrationAction, answer: EffectAnswer)
    requires !action.CompleteRun? && forall story :: story in s.stories ==> story.id != action.storyId
    ensures Execute(action, s, answer) == Err(UnknownStory(action.storyId))
  {
  }

  /** An active run is completed exactly when every story is merged and the clock is not behind. */
  lemma RunIsCompleted(s: Snapshot, answer: EffectAnswer)
    ensures var r := Execute(CompleteRun, s, answer);
      && (r.Ok? <==>
            && s.run.status == RunStatus.Active && s.run.updatedAt <= answer.firstReading
            && forall i :: 0 <= i < |s.stories| ==> s.stories[i].status == StoryStatus.Merged)
      && (r.Ok? ==>
            r.value == s.(run := s.run.(status := RunStatus.Completed, updatedAt := answer.firstReading)))
      && (r.Err? ==> r.error.Transition?)
  {
    NoneUnfinished(s.stories);
  }
}
