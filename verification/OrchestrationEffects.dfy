/**
 The work behind each planned action. Git and the launcher are the outside
 world: an answer carries what they return, or that they failed, together with
 the clock readings taken while the effect runs.
 */
module OrchestrationEffects {
  import opened Wrappers
  import opened Graph
  import opened ControllerState
  import opened Orchestration
  import opened Scheduling

  datatype EffectAnswer = EffectAnswer(
    launch: Option<AgentState>,
    mergeCommit: Option<string>,
    cleanedUp: bool,
    firstReading: nat,
    secondReading: nat)

  datatype EffectError =
    | UnknownStory(id: string)
    | ExternalFailure
    | NotReadyToMerge(id: string)
    | NotMergedYet(id: string)
    | Transition(error: TransitionError)

  /** What the outside world answers to each action of one tick. */
  type Answers = OrchestrationAction -> EffectAnswer

  function FindStory(stories: seq<StoryState>, id: string): (r: Option<StoryState>)
    ensures r.Some? ==> r.value in stories && r.value.id == id
    ensures r.None? ==> forall story | story in stories :: story.id != id
  {
    if stories == [] then None
    else if stories[0].id == id then Some(stories[0])
    else FindStory(stories[1..], id)
  }

  function ReplaceStory(stories: seq<StoryState>, updated: StoryState): (r: seq<StoryState>)
    ensures |r| == |stories|
  {
    seq(|stories|, i requires 0 <= i < |stories| => if stories[i].id == updated.id then updated else stories[i])
  }

  predicate HasAgent(agents: seq<AgentState>, id: string) {
    exists agent | agent in agents :: agent.id == id
  }

  function UpsertAgent(agents: seq<AgentState>, agent: AgentState): seq<AgentState> {
    if HasAgent(agents, agent.id)
    then seq(|agents|, i requires 0 <= i < |agents| => if agents[i].id == agent.id then agent else agents[i])
    else agents + [agent]
  }

  function Lift<T>(r: Result<T, TransitionError>): Result<T, EffectError> {
    match r
    case Ok(value) => Ok(value)
    case Err(error) => Err(Transition(error))
  }

  function Launched(answer: EffectAnswer): Result<AgentState, EffectError> {
    match answer.launch
    case None => Err(ExternalFailure)
    case Some(agent) => Ok(agent)
  }

  function Located(stories: seq<StoryState>, id: string): Result<StoryState, EffectError> {
    match FindStory(stories, id)
    case None => Err(UnknownStory(id))
    case Some(story) => Ok(story)
  }

  const REASSIGNMENT_REASON := "review requested changes; " + "launching a fresh writer " + "attempt"

  /** The story after a fresh writer has been launched for it. */
  function AssignedStory(story: StoryState, agentId: string, answer: EffectAnswer): Result<StoryState, EffectError> {
    var ready :-
      if story.status == StoryStatus.ChangesRequested
      then Lift(TransitionStory(story,
             StoryReassignmentRequested(answer.firstReading, REASSIGNMENT_REASON, true)))
      else Ok(story);
    Lift(TransitionStory(ready, StoryAssigned(answer.secondReading, agentId)))
  }

  function MergedStory(story: StoryState, answer: EffectAnswer): Result<StoryState, EffectError> {
    if story.reviewedIntegrationHead.None? || story.reviewerAgentId.None?
       || story.assignedAgentId.None? || story.candidateStoryHead.None?
    then Err(NotReadyToMerge(story.id))
    else if answer.mergeCommit.None? then Err(ExternalFailure)
    else
      var started :- Lift(TransitionStory(story, MergeStarted(answer.firstReading)));
      Lift(TransitionStory(started, StoryMerged(answer.secondReading, answer.mergeCommit.value)))
  }

  function CleanedStory(story: StoryState, answer: EffectAnswer): Result<StoryState, EffectError> {
    if story.mergeHead.None? || story.reviewedIntegrationHead.None? || story.candidateStoryHead.None?
    then Err(NotMergedYet(story.id))
    else if !answer.cleanedUp then Err(ExternalFailure)
    else Ok(story.(workspaceCleaned := true, updatedAt := answer.firstReading))
  }

  function UnfinishedIds(stories: seq<StoryState>): seq<string> {
    if stories == [] then []
    else (if stories[0].status != StoryStatus.Merged then [stories[0].id] else []) + UnfinishedIds(stories[1..])
  }

  /** Carry out one action against the snapshot the earlier actions of the tick left. */
  function Execute(action: OrchestrationAction, s: Snapshot, answer: EffectAnswer): Result<Snapshot, EffectError> {
    match action
    case AssignProjectManager(id) => AssignTeamMember(id, s, answer)
    case AssignAdvisor(id) => AssignTeamMember(id, s, answer)
    case AssignStory(id) =>
      var story :- Located(s.stories, id);
      var agent :- Launched(answer);
      var updated :- AssignedStory(story, agent.id, answer);
      Ok(s.(stories := ReplaceStory(s.stories, updated), agents := UpsertAgent(s.agents, agent)))
    case AssignReviewer(id) =>
      var story :- Located(s.stories, id);
      var agent :- Launched(answer);
      var updated := story.(reviewerAgentId := Some(agent.id), updatedAt := answer.firstReading);
      Ok(s.(stories := ReplaceStory(s.stories, updated), agents := UpsertAgent(s.agents, agent)))
    case RequestMerge(id) =>
      var story :- Located(s.stories, id);
      var merged :- MergedStory(story, answer);
      Ok(s.(stories := ReplaceStory(s.stories, merged)))
    case RequestCleanup(id) =>
      var story :- Located(s.stories, id);
      var cleaned :- CleanedStory(story, answer);
      Ok(s.(stories := ReplaceStory(s.stories, cleaned)))
    case CompleteRun =>
      var completed :- Lift(TransitionRun(s.run, RunCompleted(answer.firstReading, UnfinishedIds(s.stories))));
      Ok(s.(run := completed))
  }

  function AssignTeamMember(id: string, s: Snapshot, answer: EffectAnswer): Result<Snapshot, EffectError> {
    var _ :- Located(s.stories, id);
    var agent :- Launched(answer);
    Ok(s.(agents := UpsertAgent(s.agents, agent)))
  }

  /** The admitted actions of a tick, carried out in order; the first failure stops the tick. */
  function ExecuteAll(actions: seq<OrchestrationAction>, s: Snapshot, answers: Answers): Result<Snapshot, EffectError> {
    if actions == [] then Ok(s)
    else
      var last := actions[|actions| - 1];
      var before :- ExecuteAll(actions[..|actions| - 1], s, answers);
      Execute(last, before, answers(last))
  }

  lemma {:induction false} FailureStops(actions: seq<OrchestrationAction>, s: Snapshot, answers: Answers, n: nat)
    requires n <= |actions| && ExecuteAll(actions[..n], s, answers).Err?
    ensures ExecuteAll(actions, s, answers) == ExecuteAll(actions[..n], s, answers)
  {
    if n < |actions| {
      var init := actions[..|actions| - 1];
      assert init[..n] == actions[..n];
      FailureStops(init, s, answers, n);
    } else {
      assert actions[..n] == actions;
    }
  }

  // ---------------------------------------------------------------- one effect

  function StoryIds(stories: seq<StoryState>): (ids: seq<string>)
    ensures |ids| == |stories|
    ensures forall i :: 0 <= i < |ids| ==> ids[i] == stories[i].id
  {
    seq(|stories|, i requires 0 <= i < |stories| => stories[i].id)
  }

  /** The evidence the merge and cleanup guards ask for is present whenever they are consulted. */
  ghost predicate EvidenceInPlace(story: StoryState) {
    && (story.status == StoryStatus.Approved ==>
          && story.reviewedIntegrationHead.Some? && story.reviewerAgentId.Some?
          && story.assignedAgentId.Some? && story.candidateStoryHead.Some?)
    && (story.status == StoryStatus.Merged ==>
          story.mergeHead.Some? && story.reviewedIntegrationHead.Some? && story.candidateStoryHead.Some?)
  }

  /** The outside world did what it was asked, and its clock only moves forward from `now`. */
  ghost predicate Succeeds(action: OrchestrationAction, answer: EffectAnswer, now: nat) {
    && (IsAgentLaunch(action) ==> answer.launch.Some? && IsNormalized(answer.launch.value.id))
    && (action.RequestMerge? ==> answer.mergeCommit.Some? && IsNormalized(answer.mergeCommit.value))
    && (action.RequestCleanup? ==> answer.cleanedUp)
    && now <= answer.firstReading <= answer.secondReading
  }

  /** The story's own state permits the action. */
  ghost predicate Permits(story: StoryState, action: OrchestrationAction) {
    match action
    case AssignStory(_) => story.status in {StoryStatus.Ready, StoryStatus.ChangesRequested}
    case AssignReviewer(_) => story.status == StoryStatus.AwaitingReview && story.reviewerAgentId.None?
    case RequestMerge(_) => story.status == StoryStatus.Approved
    case RequestCleanup(_) => story.status == StoryStatus.Merged && !story.workspaceCleaned
    case _ => true
  }

  /** What the action leaves of the story it names. */
  ghost predicate Changed(before: StoryState, after: StoryState, action: OrchestrationAction, answer: EffectAnswer) {
    after.id == before.id && after.blockedFrom == before.blockedFrom &&
    match action
    case AssignStory(_) =>
      && answer.launch.Some? && after.status == StoryStatus.Assigned
      && after.assignedAgentId == Some(answer.launch.value.id)
      && after.workspaceCleaned == before.workspaceCleaned && after.mergeHead == before.mergeHead
    case AssignReviewer(_) =>
      && answer.launch.Some?
      && after == before.(reviewerAgentId := Some(answer.launch.value.id), updatedAt := after.updatedAt)
    case RequestMerge(_) =>
      && answer.mergeCommit.Some?
      && after == before.(status := StoryStatus.Merged, mergeHead := Some(answer.mergeCommit.value),
                          updatedAt := after.updatedAt)
    case RequestCleanup(_) => after == before.(workspaceCleaned := true, updatedAt := after.updatedAt)
    case _ => after == before
  }

  lemma {:induction false} FindUnique(stories: seq<StoryState>, i: nat)
    requires Distinct(StoryIds(stories)) && i < |stories|
    ensures FindStory(stories, stories[i].id) == Some(stories[i])
  {
    var found := FindStory(stories, stories[i].id);
    var k :| 0 <= k < |stories| && stories[k] == found.value;
    assert StoryIds(stories)[k] == StoryIds(stories)[i];
  }

  lemma ReassignmentReasonIsText()
    ensures NonEmpty(REASSIGNMENT_REASON).Ok?
  {
    var first, ending := "review requested changes; ", "attempt";
    assert first[0] == 'r' && ending[6] == 't';
    TrimmedText(REASSIGNMENT_REASON, |REASSIGNMENT_REASON| - 1);
  }

  lemma AssignedStorySucceeds(story: StoryState, action: OrchestrationAction, answer: EffectAnswer)
    requires action.AssignStory? && Permits(story, action) && answer.launch.Some?
    requires IsNormalized(answer.launch.value.id)
    requires story.updatedAt <= answer.firstReading <= answer.secondReading
    ensures var r := AssignedStory(story, answer.launch.value.id, answer);
      r.Ok? && Changed(story, r.value, action, answer)
  {
    ReassignmentReasonIsText();
  }

  lemma ReplaceAt(stories: seq<StoryState>, i: nat, updated: StoryState)
    requires Distinct(StoryIds(stories)) && i < |stories| && updated.id == stories[i].id
    ensures ReplaceStory(stories, updated) == stories[i := updated]
  {
    assert forall k :: 0 <= k < |stories| && k != i ==> StoryIds(stories)[k] != StoryIds(stories)[i];
  }

  /** What an action makes of the story it names. */
  function StoryEffect(action: OrchestrationAction, story: StoryState, answer: EffectAnswer)
    : Result<StoryState, EffectError>
  {
    match action
    case AssignStory(_) =>
      var agent :- Launched(answer);
      AssignedStory(story, agent.id, answer)
    case AssignReviewer(_) =>
      var agent :- Launched(answer);
      Ok(story.(reviewerAgentId := Some(agent.id), updatedAt := answer.firstReading))
    case RequestMerge(_) => MergedStory(story, answer)
    case RequestCleanup(_) => CleanedStory(story, answer)
    case _ => Ok(story)
  }

  lemma EffectKeepsId(action: OrchestrationAction, story: StoryState, answer: EffectAnswer)
    requires StoryEffect(action, story, answer).Ok?
    ensures StoryEffect(action, story, answer).value.id == story.id
  {
  }

  /** With distinct ids, a story action does its effect to the story it names and to no other. */
  lemma ExecuteOnStory(action: OrchestrationAction, s: Snapshot, answer: EffectAnswer, i: nat)
    requires Distinct(StoryIds(s.stories)) && i < |s.stories|
    requires ChangesStory(action) && action.storyId == s.stories[i].id
    ensures var effect := StoryEffect(action, s.stories[i], answer);
      Execute(action, s, answer) ==
        if effect.Err? then Err(effect.error)
        else Ok(s.(stories := s.stories[i := effect.value],
                   agents := if IsAgentLaunch(action) then UpsertAgent(s.agents, answer.launch.value) else s.agents))
  {
    FindUnique(s.stories, i);
    var effect := StoryEffect(action, s.stories[i], answer);
    if effect.Ok? {
      EffectKeepsId(action, s.stories[i], answer);
      ReplaceAt(s.stories, i, effect.value);
    }
  }

  lemma EffectSucceeds(action: OrchestrationAction, story: StoryState, answer: EffectAnswer)
    requires ChangesStory(action) && Permits(story, action) && EvidenceInPlace(story)
    requires Succeeds(action, answer, story.updatedAt)
    ensures StoryEffect(action, story, answer).Ok?
    ensures Changed(story, StoryEffect(action, story, answer).value, action, answer)
  {
    if action.AssignStory? {
      AssignedStorySucceeds(story, action, answer);
    }
  }

  /** A permitted change succeeds, and does to its story what the action is for. */
  lemma StoryChangeSucceeds(action: OrchestrationAction, s: Snapshot, answer: EffectAnswer, i: nat)
    requires Distinct(StoryIds(s.stories)) && i < |s.stories| && ChangesStory(action)
    requires action.storyId == s.stories[i].id
    requires Permits(s.stories[i], action) && EvidenceInPlace(s.stories[i])
    requires Succeeds(action, answer, s.stories[i].updatedAt)
    ensures var r := Execute(action, s, answer);
      && r.Ok? && r.value.run == s.run && r.value.revision == s.revision
      && |r.value.stories| == |s.stories|
      && Changed(s.stories[i], r.value.stories[i], action, answer)
      && (forall k :: 0 <= k < |s.stories| && k != i ==> r.value.stories[k] == s.stories[k])
      && r.value.agents == if IsAgentLaunch(action) then UpsertAgent(s.agents, answer.launch.value) else s.agents
  {
    ExecuteOnStory(action, s, answer, i);
    EffectSucceeds(action, s.stories[i], answer);
  }

  lemma {:induction false} NoneUnfinished(stories: seq<StoryState>)
    ensures UnfinishedIds(stories) == [] <==>
            forall i :: 0 <= i < |stories| ==> stories[i].status == StoryStatus.Merged
  {
    if stories != [] {
      NoneUnfinished(stories[1..]);
      if forall i :: 0 <= i < |stories[1..]| ==> stories[1..][i].status == StoryStatus.Merged {
        forall i | 1 <= i < |stories| ensures stories[i].status == StoryStatus.Merged {
          assert stories[1..][i - 1].status == StoryStatus.Merged;
        }
      }
    }
  }

  /** A story action replaces the story it names and nothing else of the stories. */
  lemma ExecuteReplaces(action: OrchestrationAction, s: Snapshot, answer: EffectAnswer) returns (updated: StoryState)
    requires ChangesStory(action) && Execute(action, s, answer).Ok?
    ensures updated.id == action.storyId
    ensures var t := Execute(action, s, answer).value;
      t.stories == ReplaceStory(s.stories, updated) && t.revision == s.revision && t.run == s.run
  {
    var story := FindStory(s.stories, action.storyId).value;
    updated := StoryEffect(action, story, answer).value;
    EffectKeepsId(action, story, answer);
  }

  /** Every effect keeps the stories' identity and order and never touches a story it does not name. */
  lemma ExecuteFrame(action: OrchestrationAction, s: Snapshot, answer: EffectAnswer)
    requires Execute(action, s, answer).Ok?
    ensures var t := Execute(action, s, answer).value;
      && t.revision == s.revision && StoryIds(t.stories) == StoryIds(s.stories)
      && (action.CompleteRun? || t.run == s.run)
      && forall i :: 0 <= i < |s.stories| && !(ChangesStory(action) && s.stories[i].id == action.storyId) ==>
           t.stories[i] == s.stories[i]
  {
    if ChangesStory(action) {
      var updated := ExecuteReplaces(action, s, answer);
    }
  }

  // ---------------------------------------------------------------- a whole tick of effects

  /** The action can be carried out on the snapshot it was planned for. */
  ghost predicate Enabled(action: OrchestrationAction, s: Snapshot) {
    if ChangesStory(action) then
      exists i :: 0 <= i < |s.stories| && s.stories[i].id == action.storyId
                  && Permits(s.stories[i], action) && EvidenceInPlace(s.stories[i])
    else if action.CompleteRun? then
      s.run.status == RunStatus.Active && forall story | story in s.stories :: story.status == StoryStatus.Merged
    else
      action.storyId in StoryIds(s.stories)
  }

  ghost predicate UpToDate(s: Snapshot, now: nat) {
    s.run.updatedAt <= now && forall story | story in s.stories :: story.updatedAt <= now
  }

  predicate Targets(action: OrchestrationAction, story: StoryState) {
    ChangesStory(action) && action.storyId == story.id
  }

  ghost predicate StoryAfter(before: StoryState, after: StoryState, actions: seq<OrchestrationAction>,
                             answers: Answers) {
    && (forall a | a in actions :: Targets(a, before) ==> Changed(before, after, a, answers(a)))
    && ((forall a | a in actions :: !Targets(a, before)) ==> after == before)
  }

  /** Each story carries the effect of the one action that names it, or is untouched. */
  ghost predicate StoriesAfter(before: seq<StoryState>, after: seq<StoryState>,
                               actions: seq<OrchestrationAction>, answers: Answers) {
    && |after| == |before|
    && forall i :: 0 <= i < |before| ==> StoryAfter(before[i], after[i], actions, answers)
  }

  ghost predicate AllEnabled(actions: seq<OrchestrationAction>, s: Snapshot, answers: Answers, now: nat) {
    && Distinct(StoryIds(s.stories)) && Independent(actions) && UpToDate(s, now)
    && forall a | a in actions :: Enabled(a, s) && Succeeds(a, answers(a), now)
  }

  ghost predicate RunAfter(before: RunState, after: RunState, actions: seq<OrchestrationAction>) {
    && (CompleteRun !in actions ==> after == before)
    && (CompleteRun in actions ==> after.status == RunStatus.Completed)
    && after.complexity == before.complexity
  }

  /** What an enabled sequence says of its last action and of those before it. */
  lemma EnabledPrefix(init: seq<OrchestrationAction>, last: OrchestrationAction, s: Snapshot, answers: Answers,
                      now: nat)
    requires AllEnabled(init + [last], s, answers, now)
    ensures AllEnabled(init, s, answers, now)
    ensures Enabled(last, s) && Succeeds(last, answers(last), now)
    ensures forall a | a in init :: Compatible(a, last)
  {
    IndependentSnoc(init, last);
    assert last in init + [last];
    assert forall a | a in init :: a in init + [last];
  }

  /** Two actions enabled on the same story are the ones its status allows. */
  lemma EnabledPermits(action: OrchestrationAction, s: Snapshot, i: nat)
    requires Distinct(StoryIds(s.stories)) && i < |s.stories| && Targets(action, s.stories[i])
    requires Enabled(action, s)
    ensures Permits(s.stories[i], action) && EvidenceInPlace(s.stories[i])
  {
    var k :| 0 <= k < |s.stories| && s.stories[k].id == action.storyId
             && Permits(s.stories[k], action) && EvidenceInPlace(s.stories[k]);
    assert StoryIds(s.stories)[k] == StoryIds(s.stories)[i];
  }

  lemma StillMerged(s: Snapshot, t: Snapshot, actions: seq<OrchestrationAction>, answers: Answers, now: nat)
    requires AllEnabled(actions, s, answers, now) && StoriesAfter(s.stories, t.stories, actions, answers)
    requires forall story | story in s.stories :: story.status == StoryStatus.Merged
    ensures UnfinishedIds(t.stories) == []
  {
    forall i | 0 <= i < |t.stories| ensures t.stories[i].status == StoryStatus.Merged {
      var before, after := s.stories[i], t.stories[i];
      assert before in s.stories && StoryAfter(before, after, actions, answers);
      if exists a :: a in actions && Targets(a, before) {
        var a :| a in actions && Targets(a, before);
        EnabledPermits(a, s, i);
        assert a.RequestCleanup?;
      }
    }
    NoneUnfinished(t.stories);
  }

  /** The tick has carried out `actions` on `s` and reached `t`. */
  ghost predicate Reached(actions: seq<OrchestrationAction>, s: Snapshot, t: Snapshot, answers: Answers) {
    && t.revision == s.revision
    && StoriesAfter(s.stories, t.stories, actions, answers)
    && StoryIds(t.stories) == StoryIds(s.stories)
    && RunAfter(s.run, t.run, actions)
  }

  /** One more action leaves each story with the effect of the one action that names it. */
  lemma StoryAfterSnoc(before: StoryState, middle: StoryState, after: StoryState, init: seq<OrchestrationAction>,
                       last: OrchestrationAction, answers: Answers)
    requires StoryAfter(before, middle, init, answers) && forall a | a in init :: Compatible(a, last)
    requires if Targets(last, before) then Changed(before, after, last, answers(last)) else after == middle
    ensures StoryAfter(before, after, init + [last], answers)
  {
    var actions := init + [last];
    assert forall a :: a in actions <==> a in init || a == last;
    if Targets(last, before) {
      forall a | a in init ensures !Targets(a, before) {
        assert Compatible(a, last);
      }
    }
  }

  /** No earlier action of the tick has touched the story that the next one names. */
  lemma NotYetTouched(before: StoryState, middle: StoryState, init: seq<OrchestrationAction>,
                      last: OrchestrationAction, answers: Answers)
    requires StoryAfter(before, middle, init, answers) && forall a | a in init :: Compatible(a, last)
    requires Targets(last, before)
    ensures middle == before
  {
    forall a | a in init ensures !Targets(a, before) {
      assert Compatible(a, last);
    }
  }

  lemma StoriesAfterSnoc(s: seq<StoryState>, t: seq<StoryState>, u: seq<StoryState>, init: seq<OrchestrationAction>,
                         last: OrchestrationAction, answers: Answers)
    requires StoriesAfter(s, t, init, answers) && |u| == |t| && forall a | a in init :: Compatible(a, last)
    requires forall i :: 0 <= i < |s| ==>
      if Targets(last, s[i]) then Changed(s[i], u[i], last, answers(last)) else u[i] == t[i]
    ensures StoriesAfter(s, u, init + [last], answers)
  {
    forall i | 0 <= i < |s| ensures StoryAfter(s[i], u[i], init + [last], answers) {
      StoryAfterSnoc(s[i], t[i], u[i], init, last, answers);
    }
  }

  /** Only the story at index i is named by the action, among stories with distinct ids. */
  lemma OnlyTarget(stories: seq<StoryState>, action: OrchestrationAction, i: nat)
    requires Distinct(StoryIds(stories)) && i < |stories| && Targets(action, stories[i])
    ensures forall k :: 0 <= k < |stories| && k != i ==> !Targets(action, stories[k])
  {
    assert forall k :: 0 <= k < |stories| && k != i ==> StoryIds(stories)[k] != StoryIds(stories)[i];
  }

  lemma StoryActionAt(init: seq<OrchestrationAction>, last: OrchestrationAction, s: Snapshot, t: Snapshot,
                      answers: Answers, now: nat, i: nat)
    requires Reached(init, s, t, answers) && Distinct(StoryIds(s.stories)) && i < |s.stories|
    requires s.stories[i].updatedAt <= now && Succeeds(last, answers(last), now)
    requires Targets(last, s.stories[i]) && Permits(s.stories[i], last) && EvidenceInPlace(s.stories[i])
    requires forall a | a in init :: Compatible(a, last)
    ensures Execute(last, t, answers(last)).Ok?
    ensures Reached(init + [last], s, Execute(last, t, answers(last)).value, answers)
  {
    assert StoryAfter(s.stories[i], t.stories[i], init, answers);
    NotYetTouched(s.stories[i], t.stories[i], init, last, answers);
    assert Succeeds(last, answers(last), t.stories[i].updatedAt);
    StoryChangeSucceeds(last, t, answers(last), i);
    ExecuteFrame(last, t, answers(last));
    OnlyTarget(s.stories, last, i);
    StoriesAfterSnoc(s.stories, t.stories, Execute(last, t, answers(last)).value.stories, init, last, answers);
  }

  /** An enabled change of a story succeeds when its turn comes. */
  lemma StoryActionStep(init: seq<OrchestrationAction>, last: OrchestrationAction, s: Snapshot, t: Snapshot,
                        answers: Answers, now: nat)
    requires Reached(init, s, t, answers) && Distinct(StoryIds(s.stories)) && UpToDate(s, now)
    requires Enabled(last, s) && Succeeds(last, answers(last), now)
    requires ChangesStory(last) && forall a | a in init :: Compatible(a, last)
    ensures Execute(last, t, answers(last)).Ok?
    ensures Reached(init + [last], s, Execute(last, t, answers(last)).value, answers)
  {
    var i: nat :| i < |s.stories| && s.stories[i].id == last.storyId
                  && Permits(s.stories[i], last) && EvidenceInPlace(s.stories[i]);
    assert s.stories[i] in s.stories;
    StoryActionAt(init, last, s, t, answers, now, i);
  }

  lemma CompletionSucceeds(run: RunState, t: Snapshot, answer: EffectAnswer)
    requires t.run == run && run.status == RunStatus.Active && run.updatedAt <= answer.firstReading
    requires UnfinishedIds(t.stories) == []
    ensures Execute(CompleteRun, t, answer).Ok?
  {
  }

  /** A team launch finds its story, and completion finds every story merged. */
  lemma OtherActionSucceeds(init: seq<OrchestrationAction>, last: OrchestrationAction, s: Snapshot, t: Snapshot,
                            answers: Answers, now: nat)
    requires Enabled(last, s) && Succeeds(last, answers(last), now) && UpToDate(s, now)
    requires AllEnabled(init, s, answers, now) && Reached(init, s, t, answers)
    requires !ChangesStory(last) && CompleteRun !in init
    ensures Execute(last, t, answers(last)).Ok?
  {
    if last.CompleteRun? {
      StillMerged(s, t, init, answers, now);
      CompletionSucceeds(s.run, t, answers(last));
    } else {
      var i: nat :| i < |s.stories| && StoryIds(s.stories)[i] == last.storyId;
      assert |t.stories| == |s.stories|;
      assert StoryIds(t.stories)[i] == last.storyId && t.stories[i] in t.stories;
    }
  }

  lemma OtherEffect(action: OrchestrationAction, s: Snapshot, answer: EffectAnswer)
    requires !ChangesStory(action) && Execute(action, s, answer).Ok?
    ensures var t := Execute(action, s, answer).value;
      && t.stories == s.stories && t.revision == s.revision
      && if action.CompleteRun? then t.run.status == RunStatus.Completed && t.run.complexity == s.run.complexity
         else t.run == s.run
  {
  }

  /** Team launches and completion leave every story alone. */
  lemma OtherActionStep(init: seq<OrchestrationAction>, last: OrchestrationAction, s: Snapshot, t: Snapshot,
                        answers: Answers, now: nat)
    requires Enabled(last, s) && Succeeds(last, answers(last), now) && AllEnabled(init, s, answers, now)
    requires Reached(init, s, t, answers)
    requires !ChangesStory(last) && forall a | a in init :: Compatible(a, last)
    ensures Execute(last, t, answers(last)).Ok?
    ensures Reached(init + [last], s, Execute(last, t, answers(last)).value, answers)
  {
    OtherActionSucceeds(init, last, s, t, answers, now);
    OtherEffect(last, t, answers(last));
    StoriesAfterSnoc(s.stories, t.stories, Execute(last, t, answers(last)).value.stories, init, last, answers);
  }

  /**
   Independent actions that were enabled when the tick planned them all succeed
   in sequence, and each story shows the effect of its own action only.
   */
  lemma {:induction false} EnabledActionsSucceed(actions: seq<OrchestrationAction>, s: Snapshot,
                                                answers: Answers, now: nat)
    requires AllEnabled(actions, s, answers, now)
    ensures ExecuteAll(actions, s, answers).Ok?
    ensures Reached(actions, s, ExecuteAll(actions, s, answers).value, answers)
  {
    if actions != [] {
      var init, last := actions[..|actions| - 1], actions[|actions| - 1];
      assert actions == init + [last];
      EnabledPrefix(init, last, s, answers, now);
      EnabledActionsSucceed(init, s, answers, now);
      var t := ExecuteAll(init, s, answers).value;
      if ChangesStory(last) {
        StoryActionStep(init, last, s, t, answers, now);
      } else {
        OtherActionStep(init, last, s, t, answers, now);
      }
    }
  }

  // ---------------------------------------------------------------- launched agents

  function AgentIds(agents: seq<AgentState>): (ids: seq<string>)
    ensures |ids| == |agents|
    ensures forall i :: 0 <= i < |ids| ==> ids[i] == agents[i].id
  {
    seq(|agents|, i requires 0 <= i < |agents| => agents[i].id)
  }

  /** The agents whose launches the effects of these actions confirm. */
  function ConfirmedBy(actions: seq<OrchestrationAction>, answers: Answers): set<string> {
    set a | a in actions && IsAgentLaunch(a) && answers(a).launch.Some? :: answers(a).launch.value.id
  }

  /** The id under which a launcher looks for an agent to recover before it creates one. */
  type Identity = OrchestrationAction -> string

  ghost predicate OneIdPerLaunch(identity: Identity) {
    forall a, b :: IsAgentLaunch(a) && IsAgentLaunch(b) && identity(a) == identity(b) ==> a == b
  }

  /**
   A launch returns the agent on record under its id, or an agent nobody has
   seen: under that same id, or under a retry id that belongs to no launch. The
   agent takes up a slot, and a recovered one already did, in the same role.
   */
  ghost predicate LaunchAnswered(a: OrchestrationAction, agents: seq<AgentState>, answer: EffectAnswer,
                                 identity: Identity) {
    && answer.launch.Some?
    && var agent := answer.launch.value;
       && OccupiesAgentCapacity(agent.status)
       && (agent.id != identity(a) ==>
             !HasAgent(agents, agent.id) && forall b :: IsAgentLaunch(b) ==> identity(b) != agent.id)
       && forall existing | existing in agents && existing.id == agent.id ::
            OccupiesAgentCapacity(existing.status) && existing.roleRuntimeId == agent.roleRuntimeId
  }

  /** Every launch of the tick is answered, and no two with the same agent. */
  ghost predicate LaunchesAnswered(actions: seq<OrchestrationAction>, agents: seq<AgentState>, answers: Answers,
                                   identity: Identity) {
    && OneIdPerLaunch(identity)
    && (forall a | a in actions && IsAgentLaunch(a) :: LaunchAnswered(a, agents, answers(a), identity))
    && forall a, b | a in actions && b in actions && IsAgentLaunch(a) && IsAgentLaunch(b) && a != b ::
         answers(a).launch.Some? && answers(b).launch.Some? ==>
           answers(a).launch.value.id != answers(b).launch.value.id
  }

  /** The launch returned an agent that was already on record. */
  predicate Recovers(a: OrchestrationAction, agents: seq<AgentState>, answers: Answers) {
    IsAgentLaunch(a) && answers(a).launch.Some? && HasAgent(agents, answers(a).launch.value.id)
  }

  /** How many of the launches created their agent. */
  function NewAgents(actions: seq<OrchestrationAction>, agents: seq<AgentState>, answers: Answers): nat {
    if actions == [] then 0
    else
      var last := actions[|actions| - 1];
      NewAgents(actions[..|actions| - 1], agents, answers)
      + (if IsAgentLaunch(last) && !Recovers(last, agents, answers) then 1 else 0)
  }

  /** A record left alone, or one that a launch returned again. */
  ghost predicate KeptOrRecovered(before: AgentState, after: AgentState, launched: set<string>) {
    || after == before
    || (&& after.id == before.id && after.id in launched && after.roleRuntimeId == before.roleRuntimeId
        && OccupiesAgentCapacity(before.status) && OccupiesAgentCapacity(after.status))
  }

  predicate OnRecord(agents: seq<AgentState>, agent: AgentState) {
    exists i :: 0 <= i < |agents| && agents[i].id == agent.id && agents[i].roleRuntimeId == agent.roleRuntimeId
  }

  /** The old agents in their places, then one occupying agent per launch that created one. */
  ghost predicate Grown(before: seq<AgentState>, after: seq<AgentState>,
                        actions: seq<OrchestrationAction>, answers: Answers) {
    && |after| == |before| + NewAgents(actions, before, answers)
    && Distinct(AgentIds(after))
    && (forall i :: 0 <= i < |before| ==> KeptOrRecovered(before[i], after[i], ConfirmedBy(actions, answers)))
    && (forall i :: |before| <= i < |after| ==>
          after[i].id in ConfirmedBy(actions, answers) && OccupiesAgentCapacity(after[i].status))
    && forall a | a in actions && IsAgentLaunch(a) && answers(a).launch.Some? ::
         OnRecord(after, answers(a).launch.value)
  }

  lemma SameIdSameAgent(agents: seq<AgentState>, i: nat, j: nat)
    requires Distinct(AgentIds(agents)) && i < |agents| && j < |agents| && agents[i].id == agents[j].id
    ensures i == j
  {
    assert AgentIds(agents)[i] == AgentIds(agents)[j];
  }

  lemma DistinctAppend(agents: seq<AgentState>, agent: AgentState)
    requires Distinct(AgentIds(agents)) && !HasAgent(agents, agent.id)
    ensures Distinct(AgentIds(agents + [agent]))
  {
    var longer := agents + [agent];
    forall i, j | 0 <= i < j < |longer| ensures AgentIds(longer)[i] != AgentIds(longer)[j] {
      if j < |agents| {
        assert AgentIds(agents)[i] != AgentIds(agents)[j];
      } else {
        assert agents[i] in agents;
      }
    }
  }

  lemma ConfirmedBySnoc(init: seq<OrchestrationAction>, last: OrchestrationAction, answers: Answers)
    ensures ConfirmedBy(init + [last], answers) == ConfirmedBy(init, answers) +
              if IsAgentLaunch(last) && answers(last).launch.Some? then {answers(last).launch.value.id} else {}
  {
  }

  lemma UpsertAt(agents: seq<AgentState>, agent: AgentState, k: nat)
    requires Distinct(AgentIds(agents)) && k < |agents| && agents[k].id == agent.id
    ensures UpsertAgent(agents, agent) == agents[k := agent]
    ensures AgentIds(agents[k := agent]) == AgentIds(agents)
  {
    assert agents[k] in agents;
    forall i | 0 <= i < |agents| && agents[i].id == agent.id ensures i == k {
      SameIdSameAgent(agents, i, k);
    }
  }

  lemma StaysOnRecord(agents: seq<AgentState>, agent: AgentState, known: AgentState)
    requires Distinct(AgentIds(agents)) && OnRecord(agents, known)
    requires forall i :: 0 <= i < |agents| && agents[i].id == agent.id ==>
      agents[i].roleRuntimeId == agent.roleRuntimeId
    ensures OnRecord(UpsertAgent(agents, agent), known)
  {
    var i :| 0 <= i < |agents| && agents[i].id == known.id && agents[i].roleRuntimeId == known.roleRuntimeId;
    assert UpsertAgent(agents, agent)[i].id == known.id;
  }

  lemma NewAgentsSnoc(init: seq<OrchestrationAction>, last: OrchestrationAction, agents: seq<AgentState>,
                      answers: Answers)
    ensures NewAgents(init + [last], agents, answers) == NewAgents(init, agents, answers)
              + (if IsAgentLaunch(last) && !Recovers(last, agents, answers) then 1 else 0)
  {
    var actions := init + [last];
    assert actions[..|actions| - 1] == init;
  }

  /** A launch that returns an agent the tick found replaces that agent's record. */
  lemma RecoveredStep(before: seq<AgentState>, middle: seq<AgentState>, init: seq<OrchestrationAction>,
                      last: OrchestrationAction, answers: Answers, k: nat)
    requires Grown(before, middle, init, answers) && k < |before|
    requires IsAgentLaunch(last) && answers(last).launch.Some? && before[k].id == answers(last).launch.value.id
    requires var agent := answers(last).launch.value;
      && OccupiesAgentCapacity(agent.status) && OccupiesAgentCapacity(before[k].status)
      && before[k].roleRuntimeId == agent.roleRuntimeId
    ensures Grown(before, UpsertAgent(middle, answers(last).launch.value), init + [last], answers)
  {
    var agent, actions := answers(last).launch.value, init + [last];
    assert KeptOrRecovered(before[k], middle[k], ConfirmedBy(init, answers)) && before[k] in before;
    UpsertAt(middle, agent, k);
    var after := middle[k := agent];
    ConfirmedBySnoc(init, last, answers);
    NewAgentsSnoc(init, last, before, answers);
    forall i | 0 <= i < |before| ensures KeptOrRecovered(before[i], after[i], ConfirmedBy(actions, answers)) {
      assert KeptOrRecovered(before[i], middle[i], ConfirmedBy(init, answers));
    }
    forall i | 0 <= i < |middle| && middle[i].id == agent.id ensures i == k {
      SameIdSameAgent(middle, i, k);
    }
    forall a | a in actions && IsAgentLaunch(a) && answers(a).launch.Some?
      ensures OnRecord(after, answers(a).launch.value)
    {
      if a in init {
        StaysOnRecord(middle, agent, answers(a).launch.value);
      } else {
        assert after[k].id == agent.id;
      }
    }
  }

  lemma OnRecordAppend(agents: seq<AgentState>, agent: AgentState, known: AgentState)
    requires OnRecord(agents, known) || known == agent
    ensures OnRecord(agents + [agent], known)
  {
    if OnRecord(agents, known) {
      var i :| 0 <= i < |agents| && agents[i].id == known.id && agents[i].roleRuntimeId == known.roleRuntimeId;
      assert (agents + [agent])[i] == agents[i];
    } else {
      assert (agents + [agent])[|agents|] == agent;
    }
  }

  /** A launch that returns an agent nobody has seen appends it. */
  lemma CreatedStep(before: seq<AgentState>, middle: seq<AgentState>, init: seq<OrchestrationAction>,
                    last: OrchestrationAction, answers: Answers)
    requires Grown(before, middle, init, answers)
    requires IsAgentLaunch(last) && answers(last).launch.Some?
    requires OccupiesAgentCapacity(answers(last).launch.value.status)
    requires !HasAgent(before, answers(last).launch.value.id) && !HasAgent(middle, answers(last).launch.value.id)
    ensures Grown(before, UpsertAgent(middle, answers(last).launch.value), init + [last], answers)
  {
    var agent, actions := answers(last).launch.value, init + [last];
    var after := middle + [agent];
    DistinctAppend(middle, agent);
    ConfirmedBySnoc(init, last, answers);
    NewAgentsSnoc(init, last, before, answers);
    forall i | 0 <= i < |before| ensures KeptOrRecovered(before[i], after[i], ConfirmedBy(actions, answers)) {
      assert KeptOrRecovered(before[i], middle[i], ConfirmedBy(init, answers));
    }
    forall a | a in actions && IsAgentLaunch(a) && answers(a).launch.Some?
      ensures OnRecord(after, answers(a).launch.value)
    {
      OnRecordAppend(middle, agent, answers(a).launch.value);
    }
  }

  /** Agents that earlier launches of the tick added are not the one this launch returns. */
  lemma NotReturnedBefore(before: seq<AgentState>, middle: seq<AgentState>, init: seq<OrchestrationAction>,
                          last: OrchestrationAction, answers: Answers, identity: Identity, i: nat)
    requires Grown(before, middle, init, answers) && |before| <= i < |middle|
    requires IsAgentLaunch(last) && LaunchesAnswered(init + [last], before, answers, identity)
    requires forall a | a in init :: Compatible(a, last)
    ensures answers(last).launch.Some? && middle[i].id != answers(last).launch.value.id
  {
    assert last in init + [last] && middle[i].id in ConfirmedBy(init, answers);
    var a :| a in init && IsAgentLaunch(a) && answers(a).launch.Some? && answers(a).launch.value.id == middle[i].id;
    assert a in init + [last] && Compatible(a, last);
  }

  lemma LaunchStep(before: seq<AgentState>, middle: seq<AgentState>, init: seq<OrchestrationAction>,
                   last: OrchestrationAction, answers: Answers, identity: Identity)
    requires Grown(before, middle, init, answers)
    requires IsAgentLaunch(last) && LaunchesAnswered(init + [last], before, answers, identity)
    requires forall a | a in init :: Compatible(a, last)
    ensures answers(last).launch.Some?
    ensures Grown(before, UpsertAgent(middle, answers(last).launch.value), init + [last], answers)
  {
    assert last in init + [last];
    assert LaunchAnswered(last, before, answers(last), identity);
    var agent := answers(last).launch.value;
    if HasAgent(before, agent.id) {
      var k :| 0 <= k < |before| && before[k].id == agent.id;
      assert before[k] in before;
      RecoveredStep(before, middle, init, last, answers, k);
    } else {
      forall other | other in middle ensures other.id != agent.id {
        var i :| 0 <= i < |middle| && middle[i] == other;
        if i < |before| {
          assert KeptOrRecovered(before[i], middle[i], ConfirmedBy(init, answers)) && before[i] in before;
        } else {
          NotReturnedBefore(before, middle, init, last, answers, identity, i);
        }
      }
      CreatedStep(before, middle, init, last, answers);
    }
  }

  lemma OtherStep(before: seq<AgentState>, middle: seq<AgentState>, init: seq<OrchestrationAction>,
                  last: OrchestrationAction, answers: Answers)
    requires Grown(before, middle, init, answers) && !IsAgentLaunch(last)
    ensures Grown(before, middle, init + [last], answers)
  {
    ConfirmedBySnoc(init, last, answers);
    NewAgentsSnoc(init, last, before, answers);
    assert forall a :: a in init + [last] && IsAgentLaunch(a) ==> a in init;
  }

  lemma ExecuteAgents(action: OrchestrationAction, s: Snapshot, answer: EffectAnswer)
    requires Execute(action, s, answer).Ok?
    ensures IsAgentLaunch(action) ==> answer.launch.Some?
    ensures Execute(action, s, answer).value.agents
            == if IsAgentLaunch(action) then UpsertAgent(s.agents, answer.launch.value) else s.agents
  {
  }

  /** A tick's launches put every agent they return on record, and leave or recover the agents the tick found. */
  lemma {:induction false} LaunchesGrow(actions: seq<OrchestrationAction>, s: Snapshot, answers: Answers,
                                        identity: Identity)
    requires Independent(actions) && LaunchesAnswered(actions, s.agents, answers, identity)
    requires Distinct(AgentIds(s.agents)) && ExecuteAll(actions, s, answers).Ok?
    ensures Grown(s.agents, ExecuteAll(actions, s, answers).value.agents, actions, answers)
  {
    if actions != [] {
      var init, last := actions[..|actions| - 1], actions[|actions| - 1];
      assert actions == init + [last];
      IndependentSnoc(init, last);
      assert forall a :: a in init ==> a in actions;
      LaunchesGrow(init, s, answers, identity);
      var t := ExecuteAll(init, s, answers).value;
      ExecuteAgents(last, t, answers(last));
      if IsAgentLaunch(last) {
        LaunchStep(s.agents, t.agents, init, last, answers, identity);
      } else {
        OtherStep(s.agents, t.agents, init, last, answers);
      }
    }
  }

  /** Unless a launch recovers an agent, every launch creates one. */
  lemma {:induction false} AllNewUnlessRecovered(actions: seq<OrchestrationAction>, agents: seq<AgentState>,
                                                 answers: Answers)
    ensures NewAgents(actions, agents, answers) == LaunchCount(actions) ||
            exists a :: a in actions && Recovers(a, agents, answers)
  {
    if actions != [] {
      var init, last := actions[..|actions| - 1], actions[|actions| - 1];
      assert actions == init + [last];
      AllNewUnlessRecovered(init, agents, answers);
      if a :| a in init && Recovers(a, agents, answers) {
        assert a in actions;
      }
    }
  }

  lemma {:induction false} NewAtMostLaunches(actions: seq<OrchestrationAction>, agents: seq<AgentState>,
                                             answers: Answers)
    ensures NewAgents(actions, agents, answers) <= LaunchCount(actions)
  {
    if actions != [] {
      NewAtMostLaunches(actions[..|actions| - 1], agents, answers);
    }
  }
}
