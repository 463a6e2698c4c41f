/**
 Parent controls: approving and rejecting a plan, pausing and resuming a run,
 restarting an agent, and ending the run. Each is one synchronous step over the
 stored snapshot; whether management may quit is the caller's answer.
 */
module ParentControl {
  import opened Wrappers
  import opened Graph
  import opened ControllerState
  import opened ControllerRepository
  import opened Orchestration
  import opened OrchestrationEffects
  import opened OrchestrationLoop

  datatype ControlAction = Approve | ApproveStory | Reject | Steer | Pause | Resume | Focus | Close | Restart | Dismiss

  datatype Control = Control(
    action: ControlAction, agentId: Option<string>, storyId: Option<string>, message: Option<string>)

  datatype ControlError =
    | UnknownRun
    | UnknownTargetAgent
    | UnknownTargetStory
    | InvalidState
    | InvalidPayload
    | NotQuiescent
    | Rejected(error: TransitionError)

  datatype Entity = RunEntity | StoryEntity(id: string) | AgentEntity(id: string)

  datatype ControlEvent = ControlEvent(action: ControlAction, entity: Entity)

  /** The records a control proposes and the events it records; without an event nothing is committed. */
  datatype Change = Change(run: RunState, stories: seq<StoryState>, agents: seq<AgentState>, events: seq<ControlEvent>)

  /** What the parent is told: the revision and run status after the control, and the agent it named. */
  datatype ControlResponse = ControlResponse(revision: nat, runStatus: RunStatus, target: Option<AgentState>)

  const DISMISSED := "management dismissed " + "after all agent work completed"

  function Step<T>(r: Result<T, TransitionError>): Result<T, ControlError> {
    match r
    case Ok(value) => Ok(value)
    case Err(error) => Err(Rejected(error))
  }

  function ReasonText(message: Option<string>, otherwise: string): string {
    if message.Some? then Trim(message.value) else otherwise
  }

  predicate AwaitsApproval(story: StoryState) {
    story.status == StoryStatus.AwaitingApproval
  }

  function Named(id: string): StoryState -> bool {
    (story: StoryState) => story.id == id
  }

  predicate AllReady(stories: seq<StoryState>) {
    forall i :: 0 <= i < |stories| ==> stories[i].status == StoryStatus.Ready
  }

  /** Apply one transition to the selected stories, in order; the first refusal stops it. */
  function MapStories(stories: seq<StoryState>, selected: StoryState -> bool, t: StoryTransition)
    : Result<seq<StoryState>, TransitionError>
  {
    if stories == [] then Ok([])
    else
      var last := stories[|stories| - 1];
      var before :- MapStories(stories[..|stories| - 1], selected, t);
      var mapped :- if selected(last) then TransitionStory(last, t) else Ok(last);
      Ok(before + [mapped])
  }

  /** One event for each selected story, in order. */
  function StoryEvents(action: ControlAction, stories: seq<StoryState>, selected: StoryState -> bool)
    : seq<ControlEvent>
  {
    if stories == [] then []
    else
      var last := stories[|stories| - 1];
      StoryEvents(action, stories[..|stories| - 1], selected)
      + (if selected(last) then [ControlEvent(action, StoryEntity(last.id))] else [])
  }

  /** The run once its plan is decided; a run already in the decided status stays as it is. */
  function DecidedRun(run: RunState, decided: RunStatus, moved: Result<RunState, TransitionError>)
    : Result<RunState, ControlError>
  {
    if run.status == decided then Ok(run)
    else if run.status == RunStatus.AwaitingApproval then Step(moved)
    else Err(InvalidState)
  }

  function RunEvents(run: RunState, action: ControlAction, decided: RunStatus): seq<ControlEvent> {
    if run.status == decided then [] else [ControlEvent(action, RunEntity)]
  }

  /** Take the run out of approval unless it already rests in `decided`, and its waiting stories with it. */
  function DecidePlan(s: Snapshot, action: ControlAction, decided: RunStatus, moved: Result<RunState, TransitionError>,
                      u: StoryTransition): Result<Change, ControlError> {
    var run :- DecidedRun(s.run, decided, moved);
    var stories :- Step(MapStories(s.stories, AwaitsApproval, u));
    Ok(Change(run, stories, s.agents,
              RunEvents(s.run, action, decided) + StoryEvents(action, s.stories, AwaitsApproval)))
  }

  /** Approve one waiting story, and the run with it once every story is ready. */
  function DecideStory(s: Snapshot, story: Option<StoryState>, now: nat): Result<Change, ControlError> {
    if s.run.status != RunStatus.AwaitingApproval || story.None? || !AwaitsApproval(story.value)
    then Err(InvalidState)
    else
      var named := Named(story.value.id);
      var stories :- Step(MapStories(s.stories, named, StoryPlanApproved(now)));
      var run :- if AllReady(stories) then Step(TransitionRun(s.run, PlanApproved(now))) else Ok(s.run);
      Ok(Change(run, stories, s.agents,
                StoryEvents(ApproveStory, s.stories, named)
                + (if AllReady(stories) then [ControlEvent(ApproveStory, RunEntity)] else [])))
  }

  function Decide(s: Snapshot, control: Control, now: nat, canQuit: bool): Result<Change, ControlError> {
    var agent := if control.agentId.Some? then FindAgent(s.agents, control.agentId.value) else None;
    var story := if control.storyId.Some? then FindStory(s.stories, control.storyId.value) else None;
    var same := Change(s.run, s.stories, s.agents, []);
    var onRun, onAgent := [ControlEvent(control.action, RunEntity)],
                          if agent.Some? then [ControlEvent(control.action, AgentEntity(agent.value.id))] else [];
    if control.agentId.Some? && agent.None? then Err(UnknownTargetAgent)
    else if control.storyId.Some? && story.None? then Err(UnknownTargetStory)
    else
      match control.action
      case Approve =>
        DecidePlan(s, Approve, RunStatus.Ready, TransitionRun(s.run, PlanApproved(now)), StoryPlanApproved(now))
      case ApproveStory => DecideStory(s, story, now)
      case Reject =>
        DecidePlan(s, Reject, RunStatus.Planning, TransitionRun(s.run, PlanRevisionRequested(now)),
                   StoryPlanRevisionRequested(now))
      case Pause =>
        if s.run.status == RunStatus.Blocked then Ok(same)
        else if s.run.status !in {RunStatus.Ready, RunStatus.Active} then Err(InvalidState)
        else
          var run :- Step(TransitionRun(s.run,
            RunBlocked(now, "parent pause: " + ReasonText(control.message, "paused by parent"))));
          Ok(same.(run := run, events := onRun))
      case Resume =>
        if s.run.status in {RunStatus.Ready, RunStatus.Active} then Ok(same)
        else if s.run.status != RunStatus.Blocked then Err(InvalidState)
        else
          var run :- Step(TransitionRun(s.run, RunResumed(now)));
          Ok(same.(run := run, events := onRun))
      case Restart =>
        if agent.None? || control.message.Some? then Err(InvalidPayload)
        else if agent.value.status in {AgentStatus.Completed, AgentStatus.Failed, AgentStatus.Closed,
                                       AgentStatus.Disconnected}
        then Err(InvalidState)
        else
          var lost :- Step(TransitionAgent(agent.value, PaneLost(now)));
          Ok(same.(agents := UpsertAgent(s.agents, lost), events := onAgent))
      case Dismiss =>
        if agent.Some? || control.message.Some? then Err(InvalidPayload)
        else if !canQuit then Err(NotQuiescent)
        else if s.run.status in {RunStatus.Completed, RunStatus.Cancelled} then Ok(same)
        else
          var run :- Step(TransitionRun(s.run, RunCancelled(now, DISMISSED)));
          Ok(same.(run := run, events := onRun))
      case Close =>
        if agent.Some? then Ok(same.(events := onAgent))
        else if IsTerminal(s.run.status) then Ok(same)
        else
          var run :- Step(TransitionRun(s.run,
            RunCancelled(now, "parent close: " + ReasonText(control.message, "closed by parent"))));
          Ok(same.(run := run, events := onRun))
      case Steer => if agent.None? then Err(InvalidPayload) else Ok(same.(events := onAgent))
      case Focus => if agent.None? then Err(InvalidPayload) else Ok(same.(events := onAgent))
  }

  /** The stored snapshot after a control has been decided on it. */
  function AfterControl(s: Snapshot, decided: Result<Change, ControlError>): Snapshot {
    if decided.Ok? && decided.value.events != []
    then Snapshot(s.revision + 1, decided.value.run, decided.value.stories, decided.value.agents)
    else s
  }

  function Respond(s: Snapshot, control: Control, decided: Result<Change, ControlError>)
    : Result<ControlResponse, ControlError>
  {
    match decided
    case Err(error) => Err(error)
    case Ok(change) =>
      Ok(ControlResponse(AfterControl(s, decided).revision, change.run.status,
                         if control.agentId.Some? then FindAgent(s.agents, control.agentId.value) else None))
  }

  // ---------------------------------------------------------------- the control as the process runs it

  method TransitionSelected(action: ControlAction, stories: seq<StoryState>, selected: StoryState -> bool,
                            t: StoryTransition)
    returns (r: Result<seq<StoryState>, TransitionError>, events: seq<ControlEvent>)
    ensures r == MapStories(stories, selected, t)
    ensures r.Ok? ==> events == StoryEvents(action, stories, selected)
  {
    var mapped: seq<StoryState> := [];
    events := [];
    for i := 0 to |stories|
      invariant MapStories(stories[..i], selected, t) == Ok(mapped)
      invariant events == StoryEvents(action, stories[..i], selected)
    {
      assert stories[..i + 1][..i] == stories[..i];
      if selected(stories[i]) {
        var result := TransitionStory(stories[i], t);
        if result.Err? {
          RefusalStops(stories, selected, t, i + 1);
          return Err(result.error), events;
        }
        events := events + [ControlEvent(action, StoryEntity(stories[i].id))];
        mapped := mapped + [result.value];
      } else {
        mapped := mapped + [stories[i]];
      }
    }
    assert stories[..|stories|] == stories;
    r := Ok(mapped);
  }

  lemma {:induction false} RefusalStops(stories: seq<StoryState>, selected: StoryState -> bool, t: StoryTransition,
                                        n: nat)
    requires n <= |stories| && MapStories(stories[..n], selected, t).Err?
    ensures MapStories(stories, selected, t) == Err(MapStories(stories[..n], selected, t).error)
  {
    if n < |stories| {
      var init := stories[..|stories| - 1];
      assert init[..n] == stories[..n];
      RefusalStops(init, selected, t, n);
    } else {
      assert stories[..n] == stories;
    }
  }

  method DecideRun(run: RunState, action: ControlAction, decided: RunStatus, moved: Result<RunState, TransitionError>)
    returns (r: Result<RunState, ControlError>, events: seq<ControlEvent>)
    ensures r == DecidedRun(run, decided, moved)
    ensures r.Ok? ==> events == RunEvents(run, action, decided)
  {
    r, events := Ok(run), [];
    if run.status == RunStatus.AwaitingApproval && run.status != decided {
      r := Step(moved);
      events := [ControlEvent(action, RunEntity)];
    } else if run.status != decided {
      r := Err(InvalidState);
    }
  }

  method RunPlanDecision(s: Snapshot, action: ControlAction, decided: RunStatus,
                         moved: Result<RunState, TransitionError>, u: StoryTransition)
    returns (r: Result<Change, ControlError>)
    ensures r == DecidePlan(s, action, decided, moved, u)
  {
    var decision, events := DecideRun(s.run, action, decided, moved);
    var mapped, recorded := TransitionSelected(action, s.stories, AwaitsApproval, u);
    r := if decision.Err? then Err(decision.error) else if mapped.Err? then Err(Rejected(mapped.error))
         else Ok(Change(decision.value, mapped.value, s.agents, events + recorded));
  }

  method RunStoryApproval(s: Snapshot, target: Option<StoryState>, now: nat) returns (r: Result<Change, ControlError>)
    ensures r == DecideStory(s, target, now)
  {
    var run := s.run;
    if run.status != RunStatus.AwaitingApproval || target.None? || !AwaitsApproval(target.value) {
      return Err(InvalidState);
    }
    var mapped, events := TransitionSelected(ApproveStory, s.stories, Named(target.value.id), StoryPlanApproved(now));
    var stories :- Step(mapped);
    if AllReady(stories) {
      run :- Step(TransitionRun(run, PlanApproved(now)));
      events := events + [ControlEvent(ApproveStory, RunEntity)];
    } else {
      assert events == events + [];
    }
    return Ok(Change(run, stories, s.agents, events));
  }

  /** The controls that change the run alone. */
  method RunRunControl(s: Snapshot, control: Control, target: Option<AgentState>, now: nat, canQuit: bool)
    returns (r: Result<Change, ControlError>)
    requires control.action in {Pause, Resume, Dismiss, Close}
    requires target == if control.agentId.Some? then FindAgent(s.agents, control.agentId.value) else None
    requires control.agentId.Some? ==> target.Some?
    requires control.storyId.Some? ==> FindStory(s.stories, control.storyId.value).Some?
    ensures r == Decide(s, control, now, canQuit)
  {
    var run := s.run;
    var events: seq<ControlEvent> := [];
    match control.action {
      case Pause =>
        if run.status != RunStatus.Blocked {
          if run.status != RunStatus.Ready && run.status != RunStatus.Active {
            return Err(InvalidState);
          }
          run :- Step(TransitionRun(run,
            RunBlocked(now, "parent pause: " + ReasonText(control.message, "paused by parent"))));
          events := [ControlEvent(Pause, RunEntity)];
        }
      case Resume =>
        if run.status == RunStatus.Blocked {
          run :- Step(TransitionRun(run, RunResumed(now)));
          events := [ControlEvent(Resume, RunEntity)];
        } else if run.status != RunStatus.Ready && run.status != RunStatus.Active {
          return Err(InvalidState);
        }
      case Dismiss =>
        if target.Some? || control.message.Some? {
          return Err(InvalidPayload);
        }
        if !canQuit {
          return Err(NotQuiescent);
        }
        if run.status != RunStatus.Completed && run.status != RunStatus.Cancelled {
          run :- Step(TransitionRun(run, RunCancelled(now, DISMISSED)));
          events := [ControlEvent(Dismiss, RunEntity)];
        }
      case Close =>
        if target.Some? {
          events := [ControlEvent(Close, AgentEntity(target.value.id))];
        } else if !IsTerminal(run.status) {
          run :- Step(TransitionRun(run,
            RunCancelled(now, "parent close: " + ReasonText(control.message, "closed by parent"))));
          events := [ControlEvent(Close, RunEntity)];
        }
    }
    return Ok(Change(run, s.stories, s.agents, events));
  }

  /** The controls that concern one agent. */
  method RunAgentControl(s: Snapshot, control: Control, target: Option<AgentState>, now: nat)
    returns (r: Result<Change, ControlError>)
    requires control.action in {Restart, Steer, Focus}
    requires target == if control.agentId.Some? then FindAgent(s.agents, control.agentId.value) else None
    requires control.agentId.Some? ==> target.Some?
    requires control.storyId.Some? ==> FindStory(s.stories, control.storyId.value).Some?
    ensures forall canQuit :: r == Decide(s, control, now, canQuit)
  {
    if target.None? {
      return Err(InvalidPayload);
    }
    var agents := s.agents;
    if control.action == Restart {
      if control.message.Some? {
        return Err(InvalidPayload);
      }
      if target.value.status in {AgentStatus.Completed, AgentStatus.Failed, AgentStatus.Closed,
        AgentStatus.Disconnected} {
        return Err(InvalidState);
      }
      var lost :- Step(TransitionAgent(target.value, PaneLost(now)));
      agents := UpsertAgent(agents, lost);
    }
    return Ok(Change(s.run, s.stories, agents, [ControlEvent(control.action, AgentEntity(target.value.id))]));
  }

  /** Decide one control on the stored snapshot, commit it when it recorded an event, and tell the parent. */
  method ExecuteParentControl(repository: Repository, control: Control, now: nat, canQuit: bool)
    returns (r: Result<ControlResponse, ControlError>)
    modifies repository`snapshot
    ensures old(repository.snapshot).None? ==> r == Err(UnknownRun) && repository.snapshot.None?
    ensures old(repository.snapshot).Some? ==>
      var s := old(repository.snapshot).value;
      var decided := Decide(s, control, now, canQuit);
      && r == Respond(s, control, decided)
      && repository.snapshot == Some(AfterControl(s, decided))
  {
    if repository.snapshot.None? {
      return Err(UnknownRun);
    }
    var snapshot := repository.snapshot.value;
    var target := if control.agentId.Some? then FindAgent(snapshot.agents, control.agentId.value) else None;
    if control.agentId.Some? && target.None? {
      return Err(UnknownTargetAgent);
    }
    var story := if control.storyId.Some? then FindStory(snapshot.stories, control.storyId.value) else None;
    if control.storyId.Some? && story.None? {
      return Err(UnknownTargetStory);
    }
    var decided: Result<Change, ControlError>;
    match control.action {
      case Approve =>
        decided := RunPlanDecision(snapshot, Approve, RunStatus.Ready, TransitionRun(snapshot.run, PlanApproved(now)),
                                   StoryPlanApproved(now));
      case Reject =>
        decided := RunPlanDecision(snapshot, Reject, RunStatus.Planning,
                                   TransitionRun(snapshot.run, PlanRevisionRequested(now)),
                                   StoryPlanRevisionRequested(now));
      case ApproveStory => decided := RunStoryApproval(snapshot, story, now);
      case Restart => decided := RunAgentControl(snapshot, control, target, now);
      case Steer => decided := RunAgentControl(snapshot, control, target, now);
      case Focus => decided := RunAgentControl(snapshot, control, target, now);
      case _ => decided := RunRunControl(snapshot, control, target, now, canQuit);
    }
    r := CommitControl(repository, snapshot, control, decided, target);
  }

  /** Commit what a control decided when it recorded an event, and tell the parent. */
  method CommitControl(repository: Repository, snapshot: Snapshot, control: Control,
                       decided: Result<Change, ControlError>, target: Option<AgentState>)
    returns (r: Result<ControlResponse, ControlError>)
    requires repository.snapshot == Some(snapshot)
    requires target == if control.agentId.Some? then FindAgent(snapshot.agents, control.agentId.value) else None
    modifies repository`snapshot
    ensures r == Respond(snapshot, control, decided)
    ensures repository.snapshot == Some(AfterControl(snapshot, decided))
  {
    var change :- decided;
    var revision := snapshot.revision;
    if change.events != [] {
      var accepted := repository.CommitSnapshot(snapshot.revision,
        Snapshot(snapshot.revision, change.run, change.stories, change.agents));
      assert accepted;
      revision := repository.snapshot.value.revision;
    }
    return Ok(ControlResponse(revision, change.run.status, target));
  }

  // ---------------------------------------------------------------- approving a plan story by story

  function ApproveRun(s: Snapshot, now: nat): Result<Change, ControlError> {
    Decide(s, Control(Approve, None, None, None), now, false)
  }

  /** Approve the named stories one after another. */
  function ApproveEach(s: Snapshot, ids: seq<string>, now: nat): Result<Snapshot, ControlError>
    decreases |ids|
  {
    if ids == [] then Ok(s)
    else
      var change :- DecideStory(s, FindStory(s.stories, ids[0]), now);
      ApproveEach(AfterControl(s, Ok(change)), ids[1..], now)
  }

  /** A plan under approval: every story is approved or waits for it. */
  ghost predicate UnderApproval(s: Snapshot, now: nat) {
    && s.run.status == RunStatus.AwaitingApproval && UpToDate(s, now) && Distinct(StoryIds(s.stories))
    && forall story | story in s.stories :: story.status in {StoryStatus.AwaitingApproval, StoryStatus.Ready}
  }

  ghost predicate WaitingIds(s: Snapshot, ids: seq<string>) {
    && Distinct(ids)
    && forall id :: id in ids <==> exists story :: story in s.stories && story.id == id && AwaitsApproval(story)
  }

  function Approved(story: StoryState, now: nat): StoryState {
    if AwaitsApproval(story) then story.(status := StoryStatus.Ready, updatedAt := now) else story
  }

  function ApproveWhere(stories: seq<StoryState>, selected: StoryState -> bool, now: nat): (r: seq<StoryState>)
    ensures |r| == |stories|
  {
    seq(|stories|, i requires 0 <= i < |stories| =>
      if selected(stories[i]) then Approved(stories[i], now) else stories[i])
  }

  lemma {:induction false} MapAccepted(stories: seq<StoryState>, selected: StoryState -> bool, now: nat)
    requires forall story | story in stories && selected(story) :: AwaitsApproval(story) && story.updatedAt <= now
    ensures MapStories(stories, selected, StoryPlanApproved(now)) == Ok(ApproveWhere(stories, selected, now))
  {
    if stories != [] {
      var init, last := stories[..|stories| - 1], stories[|stories| - 1];
      assert stories == init + [last];
      MapAccepted(init, selected, now);
      assert ApproveWhere(stories, selected, now) == ApproveWhere(init, selected, now)
                + [if selected(last) then Approved(last, now) else last];
    }
  }

  lemma ApproveAtOnce(s: Snapshot, now: nat)
    requires UnderApproval(s, now)
    ensures ApproveRun(s, now) ==
            Ok(Change(RunApproved(s.run, now), ApproveWhere(s.stories, AwaitsApproval, now), s.agents,
                      [ControlEvent(Approve, RunEntity)] + StoryEvents(Approve, s.stories, AwaitsApproval)))
  {
    MapAccepted(s.stories, AwaitsApproval, now);
  }

  lemma WaitingStory(s: Snapshot, id: string, now: nat) returns (k: nat)
    requires UnderApproval(s, now)
    requires exists story :: story in s.stories && story.id == id && AwaitsApproval(story)
    ensures k < |s.stories| && s.stories[k].id == id && AwaitsApproval(s.stories[k])
    ensures FindStory(s.stories, id) == Some(s.stories[k])
  {
    k :| k < |s.stories| && s.stories[k].id == id && AwaitsApproval(s.stories[k]);
    FindUnique(s.stories, k);
  }

  lemma MapNamed(s: Snapshot, k: nat, now: nat)
    requires UnderApproval(s, now) && k < |s.stories| && AwaitsApproval(s.stories[k])
    ensures MapStories(s.stories, Named(s.stories[k].id), StoryPlanApproved(now))
            == Ok(s.stories[k := Approved(s.stories[k], now)])
  {
    var id := s.stories[k].id;
    assert s.stories[k] in s.stories;
    forall story | story in s.stories && Named(id)(story) ensures story == s.stories[k] {
      var i :| 0 <= i < |s.stories| && s.stories[i] == story;
      assert StoryIds(s.stories)[i] == StoryIds(s.stories)[k];
    }
    MapAccepted(s.stories, Named(id), now);
    forall i | 0 <= i < |s.stories| && i != k ensures s.stories[i].id != id {
      assert StoryIds(s.stories)[i] != StoryIds(s.stories)[k];
    }
    assert ApproveWhere(s.stories, Named(id), now) == s.stories[k := Approved(s.stories[k], now)];
  }

  lemma {:induction false} NoNamedEvent(stories: seq<StoryState>, id: string)
    requires forall i :: 0 <= i < |stories| ==> stories[i].id != id
    ensures StoryEvents(ApproveStory, stories, Named(id)) == []
  {
    if stories != [] {
      NoNamedEvent(stories[..|stories| - 1], id);
    }
  }

  /** Approving one story records one event for it. */
  lemma {:induction false} NamedEvent(stories: seq<StoryState>, k: nat)
    requires Distinct(StoryIds(stories)) && k < |stories|
    ensures StoryEvents(ApproveStory, stories, Named(stories[k].id))
            == [ControlEvent(ApproveStory, StoryEntity(stories[k].id))]
  {
    var init := stories[..|stories| - 1];
    assert forall i, j :: 0 <= i < j < |stories| ==> StoryIds(stories)[i] != StoryIds(stories)[j];
    if k < |init| {
      assert forall i :: 0 <= i < |init| ==> StoryIds(init)[i] == StoryIds(stories)[i];
      NamedEvent(init, k);
    } else {
      NoNamedEvent(init, stories[k].id);
    }
  }

  ghost predicate LastWaiting(stories: seq<StoryState>, k: nat) {
    forall i :: 0 <= i < |stories| && i != k ==> !AwaitsApproval(stories[i])
  }

  function RunApproved(run: RunState, now: nat): RunState {
    run.(status := RunStatus.Ready, updatedAt := now)
  }

  /** Approving one waiting story approves the run exactly when no other story is left waiting. */
  lemma ApproveOne(s: Snapshot, k: nat, now: nat)
    requires UnderApproval(s, now) && k < |s.stories| && AwaitsApproval(s.stories[k])
    ensures DecideStory(s, Some(s.stories[k]), now) ==
            Ok(Change(if LastWaiting(s.stories, k) then RunApproved(s.run, now) else s.run,
                      s.stories[k := Approved(s.stories[k], now)], s.agents,
                      [ControlEvent(ApproveStory, StoryEntity(s.stories[k].id))]
                      + if LastWaiting(s.stories, k) then [ControlEvent(ApproveStory, RunEntity)] else []))
  {
    MapNamed(s, k, now);
    NamedEvent(s.stories, k);
    var stories := s.stories[k := Approved(s.stories[k], now)];
    forall i | 0 <= i < |s.stories| ensures s.stories[i].status in {StoryStatus.AwaitingApproval, StoryStatus.Ready} {
      assert s.stories[i] in s.stories;
    }
    assert AllReady(stories) <==> LastWaiting(s.stories, k) by {
      if AllReady(stories) {
        assert forall i :: 0 <= i < |s.stories| && i != k ==> stories[i] == s.stories[i];
      }
    }
  }

  lemma StillUnderApproval(s: Snapshot, t: Snapshot, ids: seq<string>, k: nat, now: nat)
    requires UnderApproval(s, now) && ids != [] && WaitingIds(s, ids)
    requires k < |s.stories| && s.stories[k].id == ids[0] && AwaitsApproval(s.stories[k])
    requires t.run == s.run && t.stories == s.stories[k := Approved(s.stories[k], now)]
    ensures UnderApproval(t, now) && WaitingIds(t, ids[1..])
  {
    assert StoryIds(t.stories) == StoryIds(s.stories);
    assert forall story | story in t.stories :: story in s.stories || story == Approved(s.stories[k], now);
    assert s.stories[k] in s.stories;
    var rest := ids[1..];
    forall id ensures id in rest <==> exists story :: story in t.stories && story.id == id && AwaitsApproval(story) {
      if id in rest {
        assert id in ids && id != ids[0];
        var i :| 0 <= i < |s.stories| && s.stories[i].id == id && AwaitsApproval(s.stories[i]);
        assert t.stories[i] == s.stories[i];
      }
      if i :| 0 <= i < |t.stories| && t.stories[i].id == id && AwaitsApproval(t.stories[i]) {
        assert s.stories[i] in s.stories && id in ids;
        assert StoryIds(s.stories)[i] != StoryIds(s.stories)[k];
      }
    }
  }

  /** Approving one story that is not the last changes nothing about what approving the whole run leads to. */
  lemma StillTheSameAtOnce(s: Snapshot, t: Snapshot, k: nat, now: nat)
    requires UnderApproval(s, now) && UnderApproval(t, now) && k < |s.stories| && AwaitsApproval(s.stories[k])
    requires t.run == s.run && t.agents == s.agents && t.stories == s.stories[k := Approved(s.stories[k], now)]
    ensures SameContents(AfterControl(t, ApproveRun(t, now)), AfterControl(s, ApproveRun(s, now)))
  {
    ApproveAtOnce(s, now);
    ApproveAtOnce(t, now);
    LastApproval(s, k, now);
  }

  /**
   Approving the waiting stories one at a time, in any order, ends with exactly
   the run, stories and agents of a single approval of the whole run.
   */
  lemma {:induction false} OneByOneEqualsAtOnce(s: Snapshot, ids: seq<string>, now: nat)
    requires UnderApproval(s, now) && WaitingIds(s, ids) && ids != []
    ensures ApproveEach(s, ids, now).Ok?
    ensures SameContents(ApproveEach(s, ids, now).value,
                         AfterControl(s, ApproveRun(s, now)))
    decreases |ids|
  {
    assert ids[0] in ids;
    var k := WaitingStory(s, ids[0], now);
    ApproveOne(s, k, now);
    ApproveAtOnce(s, now);
    var t := AfterControl(s, DecideStory(s, Some(s.stories[k]), now));
    LastId(s, ids, k, now);
    if |ids| == 1 {
      LastApproval(s, k, now);
      assert ids[1..] == [];
    } else {
      StillUnderApproval(s, t, ids, k, now);
      OneByOneEqualsAtOnce(t, ids[1..], now);
      StillTheSameAtOnce(s, t, k, now);
    }
  }

  lemma LastId(s: Snapshot, ids: seq<string>, k: nat, now: nat)
    requires UnderApproval(s, now) && WaitingIds(s, ids) && ids != []
    requires k < |s.stories| && s.stories[k].id == ids[0] && AwaitsApproval(s.stories[k])
    ensures LastWaiting(s.stories, k) <==> |ids| == 1
  {
    if |ids| == 1 {
      forall i | 0 <= i < |s.stories| && AwaitsApproval(s.stories[i]) ensures i == k {
        assert s.stories[i] in s.stories && s.stories[i].id in ids;
        assert StoryIds(s.stories)[i] == StoryIds(s.stories)[k];
      }
    } else {
      assert ids[1] in ids && ids[1] != ids[0];
      var j :| 0 <= j < |s.stories| && s.stories[j].id == ids[1] && AwaitsApproval(s.stories[j]);
    }
  }

  /** The remaining approvals do to the stories what they would have done before this one. */
  lemma LastApproval(s: Snapshot, k: nat, now: nat)
    requires k < |s.stories| && AwaitsApproval(s.stories[k])
    ensures var t := s.stories[k := Approved(s.stories[k], now)];
      && ApproveWhere(t, AwaitsApproval, now) == ApproveWhere(s.stories, AwaitsApproval, now)
      && (LastWaiting(s.stories, k) ==> t == ApproveWhere(s.stories, AwaitsApproval, now))
  {
    var t, target := s.stories[k := Approved(s.stories[k], now)], ApproveWhere(s.stories, AwaitsApproval, now);
    var again := ApproveWhere(t, AwaitsApproval, now);
    forall i | 0 <= i < |t| ensures again[i] == target[i] {
      if i == k {
        assert !AwaitsApproval(t[k]) && again[k] == t[k] && target[k] == Approved(s.stories[k], now);
      } else {
        assert t[i] == s.stories[i];
      }
    }
    if LastWaiting(s.stories, k) {
      forall i | 0 <= i < |t| ensures t[i] == target[i] {
        assert i != k ==> !AwaitsApproval(s.stories[i]);
      }
    }
  }

  // ---------------------------------------------------------------- pausing

  lemma {:induction false} TrimEndKeeps(s: string, k: nat)
    requires k < |s| && !IsWhitespace(s[k])
    ensures |TrimEnd(s)| > k && TrimEnd(s) <= s
  {
    if IsWhitespace(s[|s| - 1]) {
      TrimEndKeeps(s[..|s| - 1], k);
    }
  }

  lemma PauseReasonIsMarked(text: string)
    ensures NonEmpty("parent pause: " + text).Ok?
    ensures PARENT_PAUSE <= NonEmpty("parent pause: " + text).value
  {
    var reason := "parent pause: " + text;
    assert PARENT_PAUSE <= reason && reason[0] == 'p' && reason[12] == ':';
    TrimEndKeeps(reason, 12);
  }

  /**
   Whatever its message, a parent's pause is recognised when the run resumes:
   the run goes back to ready, even if it was active, so the next tick starts it
   again.
   */
  lemma PauseThenResumeIsReady(s: Snapshot, message: Option<string>, at: nat, later: nat)
    requires s.run.status in {RunStatus.Ready, RunStatus.Active} && s.run.updatedAt <= at <= later
    ensures var paused := AfterControl(s, Decide(s, Control(Pause, None, None, message), at, false));
      var resumed := AfterControl(paused, Decide(paused, Control(Resume, None, None, None), later, false));
      && paused.run.status == RunStatus.Blocked && RestsIn(paused.run.status)
      && resumed == s.(revision := s.revision + 2,
                       run := s.run.(status := RunStatus.Ready, blockedReason := None, updatedAt := later))
  {
    PauseReasonIsMarked(ReasonText(message, "paused by parent"));
  }

  /** The statuses a parent halts a run in; no tick ever puts a run there. */
  predicate IsHalted(status: RunStatus) {
    status in {RunStatus.Blocked, RunStatus.Failed, RunStatus.Cancelled}
  }

  /** The snapshot of a run paused or closed on top of `s`. */
  ghost predicate HaltedOver(s: Snapshot, halted: Snapshot) {
    IsHalted(halted.run.status) && halted.revision > s.revision
  }

  lemma {:induction false} EffectsNeverHaltRun(actions: seq<OrchestrationAction>, s: Snapshot, answers: Answers)
    requires ExecuteAll(actions, s, answers).Ok? && !IsHalted(s.run.status)
    ensures !IsHalted(ExecuteAll(actions, s, answers).value.run.status)
  {
    if actions != [] {
      var init, last := actions[..|actions| - 1], actions[|actions| - 1];
      EffectsNeverHaltRun(init, s, answers);
      ExecuteFrame(last, ExecuteAll(init, s, answers).value, answers(last));
    }
  }

  lemma WorkedTick(s: Snapshot, config: LoopConfig, confirmed: set<string>, env: TickEnv,
                   started: Snapshot, actions: seq<OrchestrationAction>, intended: Snapshot)
    requires PlanTick(Some(s), config, confirmed, env.now) == Ok(Work(started, actions))
    requires ExecuteAll(actions, started, env.answers) == Ok(intended)
    ensures var tick, commit := Tick(Some(s), config, confirmed, env), CommitTick(s, intended, env);
      && tick.snapshot == Some(commit.snapshot)
      && (commit.result.Err? ==> tick.result == Err(commit.result.error)) && (commit.result.Ok? ==> tick.result.Ok?)
  {
  }

  /**
   A pause or a close that lands while a tick is carrying out its effects, which
   takes an admitted action for the tick to await, survives the tick exactly when an effect fails,
     or when yet another commit
   lands between the tick's reload and its second attempt; otherwise the tick's
   own run wins the merge.
   */
  lemma HaltDuringTickSurvivesIff(s: Snapshot, config: LoopConfig, confirmed: set<string>, env: TickEnv)
    requires var plan := PlanTick(Some(s), config, confirmed, env.now); plan.Ok? && plan.value.Work?
    requires env.latest.Some? && HaltedOver(s, env.latest.value)
    requires env.latestAgain.Some? ==> HaltedOver(env.latest.value, env.latestAgain.value)
    ensures var plan := PlanTick(Some(s), config, confirmed, env.now).value;
      var tick := Tick(Some(s), config, confirmed, env);
      && tick.snapshot.Some?
      && (IsHalted(tick.snapshot.value.run.status) <==>
            ExecuteAll(plan.actions, plan.started, env.answers).Err? || env.latestAgain.Some?)
  {
    var plan := PlanTick(Some(s), config, confirmed, env.now).value;
    var effects := ExecuteAll(plan.actions, plan.started, env.answers);
    if effects.Ok? {
      EffectsNeverHaltRun(plan.actions, plan.started, env.answers);
      WorkedTick(s, config, confirmed, env, plan.started, plan.actions, effects.value);
    }
  }
}
