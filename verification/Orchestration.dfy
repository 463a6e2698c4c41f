/** The planner: which actions a run needs next, and which of its launches have a free agent slot. */
module Orchestration {
  import opened Wrappers
  import opened Graph
  import opened Complexity
  import opened ControllerState
  import opened Scheduling

  /** The facts about one story that the planner reads. */
  datatype OrchestrationStory = OrchestrationStory(
    id: string,
    status: StoryStatus,
    dependencies: seq<string>,
    reviewerAssigned: bool,
    reviewerClosed: bool,
    workspaceCleaned: bool)

  datatype OrchestrationAction =
    | AssignProjectManager(storyId: string)
    | AssignAdvisor(storyId: string)
    | AssignStory(storyId: string)
    | AssignReviewer(storyId: string)
    | RequestMerge(storyId: string)
    | RequestCleanup(storyId: string)
    | CompleteRun

  predicate IsAgentLaunch(action: OrchestrationAction) {
    action.AssignProjectManager? || action.AssignAdvisor? || action.AssignStory? || action.AssignReviewer?
  }

  /** The actions that change the story they name. */
  predicate ChangesStory(action: OrchestrationAction) {
    action.AssignStory? || action.AssignReviewer? || action.RequestMerge? || action.RequestCleanup?
  }

  // ---------------------------------------------------------------- launch capacity

  function LaunchCount(actions: seq<OrchestrationAction>): nat {
    if actions == [] then 0
    else LaunchCount(actions[..|actions| - 1]) + (if IsAgentLaunch(actions[|actions| - 1]) then 1 else 0)
  }

  /** Every action but a launch that has `slots` launches before it. */
  function Admit(actions: seq<OrchestrationAction>, slots: nat): seq<OrchestrationAction> {
    if actions == [] then []
    else
      var init, last := actions[..|actions| - 1], actions[|actions| - 1];
      if IsAgentLaunch(last) && LaunchCount(init) >= slots then Admit(init, slots)
      else Admit(init, slots) + [last]
  }

  datatype AgentLaunchCapacityDecision = AgentLaunchCapacityDecision(
    actions: seq<OrchestrationAction>, occupied: nat, reserved: nat, remaining: nat)

  function Least(a: nat, b: nat): nat {
    if a < b then a else b
  }

  method ReserveAgentLaunchCapacity(actions: seq<OrchestrationAction>, mode: ComplexityMode, occupied: nat)
    returns (r: AgentLaunchCapacityDecision)
    ensures r.actions == Admit(actions, AvailableSlots(mode, occupied))
    ensures r.reserved == LaunchCount(r.actions) == Least(LaunchCount(actions), AvailableSlots(mode, occupied))
    ensures r.reserved + r.remaining == AvailableSlots(mode, occupied)
    ensures r.occupied == occupied
  {
    var slots := AvailableSlots(mode, occupied);
    var remaining, reserved := slots, 0;
    var admitted: seq<OrchestrationAction> := [];
    for i := 0 to |actions|
      invariant admitted == Admit(actions[..i], slots)
      invariant reserved == Least(LaunchCount(actions[..i]), slots)
      invariant reserved + remaining == slots
    {
      assert actions[..i + 1][..i] == actions[..i];
      if !IsAgentLaunch(actions[i]) {
        admitted := admitted + [actions[i]];
      } else if remaining != 0 {
        admitted := admitted + [actions[i]];
        reserved := reserved + 1;
        remaining := remaining - 1;
      }
    }
    assert actions[..|actions|] == actions;
    AdmitCount(actions, slots);
    return AgentLaunchCapacityDecision(admitted, occupied, reserved, remaining);
  }

  lemma {:induction false} AdmitCount(actions: seq<OrchestrationAction>, slots: nat)
    ensures LaunchCount(Admit(actions, slots)) == Least(LaunchCount(actions), slots)
  {
    if actions != [] {
      var init, last := actions[..|actions| - 1], actions[|actions| - 1];
      AdmitCount(init, slots);
      var longer := Admit(init, slots) + [last];
      assert longer[..|longer| - 1] == Admit(init, slots);
    }
  }

  /** Only launches are ever held back, and with enough slots nothing is. */
  lemma {:induction false} AdmitMembers(actions: seq<OrchestrationAction>, slots: nat)
    ensures forall a :: a in Admit(actions, slots) ==> a in actions
    ensures forall a :: a in actions && !IsAgentLaunch(a) ==> a in Admit(actions, slots)
    ensures LaunchCount(actions) <= slots ==> Admit(actions, slots) == actions
  {
    if actions != [] {
      var init, last := actions[..|actions| - 1], actions[|actions| - 1];
      AdmitMembers(init, slots);
      assert actions == init + [last];
    }
  }

  /** Each launch in the list is at a position, so a list without launches has none. */
  lemma {:induction false} NoLaunches(actions: seq<OrchestrationAction>)
    ensures LaunchCount(actions) == 0 <==> forall a :: a in actions ==> !IsAgentLaunch(a)
  {
    if actions != [] {
      var init, last := actions[..|actions| - 1], actions[|actions| - 1];
      NoLaunches(init);
      assert actions == init + [last];
    }
  }

  lemma {:induction false} LaunchCountAdds(a: seq<OrchestrationAction>, b: seq<OrchestrationAction>)
    ensures LaunchCount(a + b) == LaunchCount(a) + LaunchCount(b)
  {
    if b == [] {
      assert a + b == a;
    } else {
      var init := b[..|b| - 1];
      LaunchCountAdds(a, init);
      assert (a + b)[..|a + b| - 1] == a + init;
    }
  }

  // ---------------------------------------------------------------- independence

  /** No two actions of the list change one story, and the run completes last. */
  predicate Independent(actions: seq<OrchestrationAction>) {
    forall j :: 0 <= j < |actions| ==> forall a | a in actions[..j] :: Compatible(a, actions[j])
  }

  predicate Compatible(earlier: OrchestrationAction, later: OrchestrationAction) {
    && earlier != later
    && !earlier.CompleteRun?
    && (ChangesStory(earlier) && ChangesStory(later) ==> earlier.storyId != later.storyId)
  }

  lemma IndependentSnoc(actions: seq<OrchestrationAction>, last: OrchestrationAction)
    ensures Independent(actions + [last]) <==>
            Independent(actions) && forall a | a in actions :: Compatible(a, last)
  {
    var longer := actions + [last];
    assert longer[..|actions|] == actions;
    forall j | 0 <= j < |actions| ensures longer[..j] == actions[..j] && longer[j] == actions[j] {
    }
    if Independent(longer) {
      assert forall a | a in longer[..|actions|] :: Compatible(a, longer[|actions|]);
      forall j | 0 <= j < |actions| ensures forall a | a in actions[..j] :: Compatible(a, actions[j]) {
        assert forall a | a in longer[..j] :: Compatible(a, longer[j]);
      }
    }
  }

  lemma {:induction false} AdmitKeepsIndependence(actions: seq<OrchestrationAction>, slots: nat)
    requires Independent(actions)
    ensures Independent(Admit(actions, slots))
  {
    if actions != [] {
      var init, last := actions[..|actions| - 1], actions[|actions| - 1];
      assert actions == init + [last];
      IndependentSnoc(init, last);
      AdmitKeepsIndependence(init, slots);
      AdmitMembers(init, slots);
      IndependentSnoc(Admit(init, slots), last);
    }
  }

  // ---------------------------------------------------------------- planned actions

  datatype Need = Cleanup | Merge | Reviewer

  predicate HasNeed(story: OrchestrationStory, need: Need) {
    match need
    case Cleanup => story.status == StoryStatus.Merged && !story.workspaceCleaned
    case Merge => story.status == StoryStatus.Approved && story.reviewerClosed
    case Reviewer => story.status == StoryStatus.AwaitingReview && !story.reviewerAssigned
  }

  function ActionFor(need: Need, id: string): OrchestrationAction {
    match need
    case Cleanup => RequestCleanup(id)
    case Merge => RequestMerge(id)
    case Reviewer => AssignReviewer(id)
  }

  function ActionsFor(stories: seq<OrchestrationStory>, need: Need): seq<OrchestrationAction> {
    if stories == [] then []
    else
      var init, last := stories[..|stories| - 1], stories[|stories| - 1];
      ActionsFor(init, need) + (if HasNeed(last, need) then [ActionFor(need, last.id)] else [])
  }

  function AssignActions(ids: seq<string>): seq<OrchestrationAction> {
    seq(|ids|, i requires 0 <= i < |ids| => AssignStory(ids[i]))
  }

  /** The scheduler's coarse view of a story's lifecycle. */
  function SchedulingStatus(status: StoryStatus): StorySchedulingStatus {
    match status
    case Merged => Done
    case Failed => StorySchedulingStatus.Failed
    case Blocked => StorySchedulingStatus.Failed
    case Ready => Pending
    case ChangesRequested => Pending
    case _ => Running
  }

  function Schedulables(stories: seq<OrchestrationStory>): (r: seq<SchedulableStory>)
    ensures |r| == |stories|
  {
    seq(|stories|, i requires 0 <= i < |stories| =>
      SchedulableStory(stories[i].id, stories[i].dependencies, SchedulingStatus(stories[i].status)))
  }

  predicate AllMerged(stories: seq<OrchestrationStory>) {
    forall i :: 0 <= i < |stories| ==> stories[i].status == StoryStatus.Merged
  }

  function Startable(stories: seq<OrchestrationStory>, mode: ComplexityMode): seq<string> {
    StartableIds(Schedulables(stories), StoryConcurrencyCap(mode))
  }

  /** Everything the run needs, in planning order, before the agent limit applies. */
  function NeededActions(stories: seq<OrchestrationStory>, mode: ComplexityMode): seq<OrchestrationAction> {
    ActionsFor(stories, Cleanup) + ActionsFor(stories, Merge) + ActionsFor(stories, Reviewer)
    + AssignActions(Startable(stories, mode))
    + (if stories != [] && AllMerged(stories) then [CompleteRun] else [])
  }

  function PlannedActions(stories: seq<OrchestrationStory>, mode: ComplexityMode, occupied: nat)
    : seq<OrchestrationAction>
  {
    Admit(NeededActions(stories, mode), AvailableSlots(mode, occupied))
  }

  method CollectActions(stories: seq<OrchestrationStory>, need: Need) returns (actions: seq<OrchestrationAction>)
    ensures actions == ActionsFor(stories, need)
  {
    actions := [];
    for i := 0 to |stories|
      invariant actions == ActionsFor(stories[..i], need)
    {
      assert stories[..i + 1][..i] == stories[..i];
      if HasNeed(stories[i], need) {
        actions := actions + [ActionFor(need, stories[i].id)];
      }
    }
    assert stories[..|stories|] == stories;
  }

  method PlanOrchestration(stories: seq<OrchestrationStory>, mode: ComplexityMode, occupied: nat)
    returns (r: Result<seq<OrchestrationAction>, SchedulingError>)
    ensures r.Ok? <==> Schedulable(Schedulables(stories))
    ensures r.Ok? ==> r.value == PlannedActions(stories, mode, occupied)
  {
    var actions := CollectActions(stories, Cleanup);
    var merges := CollectActions(stories, Merge);
    actions := actions + merges;
    var reviews := CollectActions(stories, Reviewer);
    actions := actions + reviews;
    var decision :- ScheduleStories(Schedulables(stories), StoryConcurrencyCap(mode));
    actions := actions + AssignActions(decision.startable);
    if stories != [] && AllMerged(stories) {
      actions := actions + [CompleteRun];
    } else {
      assert actions + [] == actions;
    }
    var admitted := ReserveAgentLaunchCapacity(actions, mode, occupied);
    return Ok(admitted.actions);
  }

  // ---------------------------------------------------------------- what the plan contains

  function Ids(stories: seq<OrchestrationStory>): (ids: seq<string>)
    ensures |ids| == |stories|
    ensures forall i :: 0 <= i < |ids| ==> ids[i] == stories[i].id
  {
    seq(|stories|, i requires 0 <= i < |stories| => stories[i].id)
  }

  lemma {:induction false} ActionsForMembers(stories: seq<OrchestrationStory>, need: Need)
    ensures forall a :: a in ActionsFor(stories, need) <==>
      exists i :: 0 <= i < |stories| && HasNeed(stories[i], need) && a == ActionFor(need, stories[i].id)
  {
    if stories != [] {
      var init, last := stories[..|stories| - 1], stories[|stories| - 1];
      ActionsForMembers(init, need);
      forall a ensures a in ActionsFor(stories, need) <==>
        exists i :: 0 <= i < |stories| && HasNeed(stories[i], need) && a == ActionFor(need, stories[i].id)
      {
        if a in ActionsFor(init, need) {
          var i :| 0 <= i < |init| && HasNeed(init[i], need) && a == ActionFor(need, init[i].id);
          assert stories[i] == init[i];
        }
        if i :| 0 <= i < |stories| && HasNeed(stories[i], need) && a == ActionFor(need, stories[i].id) {
          if i < |init| {
            assert init[i] == stories[i];
          }
        }
      }
    }
  }

  /** The stories' own states call for the action. */
  ghost predicate Warranted(stories: seq<OrchestrationStory>, mode: ComplexityMode, a: OrchestrationAction) {
    match a
    case RequestCleanup(id) => exists i :: 0 <= i < |stories| && stories[i].id == id && HasNeed(stories[i], Cleanup)
    case RequestMerge(id) => exists i :: 0 <= i < |stories| && stories[i].id == id && HasNeed(stories[i], Merge)
    case AssignReviewer(id) => exists i :: 0 <= i < |stories| && stories[i].id == id && HasNeed(stories[i], Reviewer)
    case AssignStory(id) => id in Startable(stories, mode)
    case CompleteRun => stories != [] && AllMerged(stories)
    case _ => false
  }

  /** The planner asks for an action exactly when some story's state warrants it. */
  lemma NeededIffWarranted(stories: seq<OrchestrationStory>, mode: ComplexityMode, a: OrchestrationAction)
    ensures a in NeededActions(stories, mode) <==> Warranted(stories, mode, a)
  {
    ActionsForMembers(stories, Cleanup);
    ActionsForMembers(stories, Merge);
    ActionsForMembers(stories, Reviewer);
    var assigns := AssignActions(Startable(stories, mode));
    assert a.AssignStory? ==> (a in assigns <==> a.storyId in Startable(stories, mode)) by {
      if a.AssignStory? && a.storyId in Startable(stories, mode) {
        var k :| 0 <= k < |Startable(stories, mode)| && Startable(stories, mode)[k] == a.storyId;
        assert assigns[k] == a;
      }
    }
  }

  /** A startable story is pending with every dependency merged. */
  lemma StartableIsReady(stories: seq<OrchestrationStory>, mode: ComplexityMode, id: string) returns (i: nat)
    requires id in Startable(stories, mode)
    ensures i < |stories| && stories[i].id == id
    ensures stories[i].status in {StoryStatus.Ready, StoryStatus.ChangesRequested}
    ensures IsReady(Schedulables(stories)[i], StatusesOf(Schedulables(stories)))
  {
    var schedulables := Schedulables(stories);
    ReadyMembers(schedulables, StatusesOf(schedulables));
    assert id in ReadyIds(schedulables, StatusesOf(schedulables));
    i :| 0 <= i < |schedulables| && schedulables[i].id == id && IsReady(schedulables[i], StatusesOf(schedulables));
  }

  lemma StatusDecidesAction(stories: seq<OrchestrationStory>, mode: ComplexityMode, a: OrchestrationAction)
    returns (i: nat)
    requires Warranted(stories, mode, a) && ChangesStory(a)
    ensures i < |stories| && stories[i].id == a.storyId
    ensures match stories[i].status
            case Merged => a == RequestCleanup(stories[i].id)
            case Approved => a == RequestMerge(stories[i].id)
            case AwaitingReview => a == AssignReviewer(stories[i].id)
            case Ready => a == AssignStory(stories[i].id)
            case ChangesRequested => a == AssignStory(stories[i].id)
            case _ => false
  {
    if a.AssignStory? {
      i := StartableIsReady(stories, mode, a.storyId);
    } else {
      i :| 0 <= i < |stories| && stories[i].id == a.storyId &&
           HasNeed(stories[i], if a.RequestCleanup? then Cleanup else if a.RequestMerge? then Merge else Reviewer);
    }
  }

  /** Two warranted actions that change one story are the same action. */
  lemma OneActionPerStory(stories: seq<OrchestrationStory>, mode: ComplexityMode,
                          a: OrchestrationAction, b: OrchestrationAction)
    requires Distinct(Ids(stories)) && Warranted(stories, mode, a) && Warranted(stories, mode, b)
    requires ChangesStory(a) && ChangesStory(b) && a.storyId == b.storyId
    ensures a == b
  {
    var i := StatusDecidesAction(stories, mode, a);
    var j := StatusDecidesAction(stories, mode, b);
    assert Ids(stories)[i] == Ids(stories)[j];
  }

  lemma {:induction false} ActionsForDistinct(stories: seq<OrchestrationStory>, need: Need)
    requires Distinct(Ids(stories))
    ensures Distinct(ActionsFor(stories, need))
  {
    if stories != [] {
      var init, last := stories[..|stories| - 1], stories[|stories| - 1];
      assert forall i :: 0 <= i < |init| ==> Ids(init)[i] == Ids(stories)[i];
      ActionsForDistinct(init, need);
      ActionsForMembers(init, need);
      if ActionFor(need, last.id) in ActionsFor(init, need) {
        var i :| 0 <= i < |init| && HasNeed(init[i], need) && ActionFor(need, last.id) == ActionFor(need, init[i].id);
        assert Ids(stories)[i] == Ids(stories)[|init|];
      }
    }
  }

  lemma {:induction false} ReadyDistinct(stories: seq<SchedulableStory>, statuses: Statuses)
    requires Distinct(Scheduling.Ids(stories))
    ensures Distinct(ReadyIds(stories, statuses))
  {
    if stories != [] {
      var init, last := stories[..|stories| - 1], stories[|stories| - 1];
      assert forall i :: 0 <= i < |init| ==> Scheduling.Ids(init)[i] == Scheduling.Ids(stories)[i];
      ReadyDistinct(init, statuses);
      ReadyMembers(init, statuses);
      if last.id in ReadyIds(init, statuses) {
        var i :| 0 <= i < |init| && init[i].id == last.id && IsReady(init[i], statuses);
        assert Scheduling.Ids(stories)[i] == Scheduling.Ids(stories)[|init|];
      }
    }
  }

  lemma DistinctConcat<T>(a: seq<T>, b: seq<T>)
    requires Distinct(a) && Distinct(b) && forall x | x in a :: x !in b
    ensures Distinct(a + b)
  {
    forall i, j | 0 <= i < j < |a + b| ensures (a + b)[i] != (a + b)[j] {
      if i < |a| <= j {
        assert a[i] in a && b[j - |a|] in b;
      }
    }
  }

  lemma NeededDistinct(stories: seq<OrchestrationStory>, mode: ComplexityMode)
    requires Distinct(Ids(stories))
    ensures Distinct(NeededActions(stories, mode))
  {
    var c, m, r := ActionsFor(stories, Cleanup), ActionsFor(stories, Merge), ActionsFor(stories, Reviewer);
    var s := AssignActions(Startable(stories, mode));
    ActionsForDistinct(stories, Cleanup);
    ActionsForDistinct(stories, Merge);
    ActionsForDistinct(stories, Reviewer);
    ActionsForMembers(stories, Cleanup);
    ActionsForMembers(stories, Merge);
    ActionsForMembers(stories, Reviewer);
    assert Scheduling.Ids(Schedulables(stories)) == Ids(stories);
    ReadyDistinct(Schedulables(stories), StatusesOf(Schedulables(stories)));
    DistinctConcat(c, m);
    DistinctConcat(c + m, r);
    DistinctConcat(c + m + r, s);
    DistinctConcat(c + m + r + s, if stories != [] && AllMerged(stories) then [CompleteRun] else []);
  }

  /** The plan never asks for two changes of one story, and completion comes last. */
  lemma NeededIsIndependent(stories: seq<OrchestrationStory>, mode: ComplexityMode)
    requires Distinct(Ids(stories))
    ensures Independent(NeededActions(stories, mode))
  {
    var actions := NeededActions(stories, mode);
    NeededDistinct(stories, mode);
    var work := ActionsFor(stories, Cleanup) + ActionsFor(stories, Merge) + ActionsFor(stories, Reviewer)
                + AssignActions(Startable(stories, mode));
    ActionsForMembers(stories, Cleanup);
    ActionsForMembers(stories, Merge);
    ActionsForMembers(stories, Reviewer);
    assert forall a :: a in work ==> !a.CompleteRun?;
    forall j | 0 <= j < |actions| ensures forall a | a in actions[..j] :: Compatible(a, actions[j]) {
      forall a | a in actions[..j] ensures Compatible(a, actions[j]) {
        var i :| 0 <= i < j && actions[i] == a;
        assert actions[i] != actions[j];
        assert i < |work| && work[i] == a;
        NeededIffWarranted(stories, mode, a);
        NeededIffWarranted(stories, mode, actions[j]);
        if ChangesStory(a) && ChangesStory(actions[j]) && a.storyId == actions[j].storyId {
          OneActionPerStory(stories, mode, a, actions[j]);
        }
      }
    }
  }
}
