/**
 Concrete ticks. Three of four slots are taken and two stories are ready. The one
 free slot is reserved for the first story's launch, which recovers an agent and
 so leaves the slot free: the second story's launch, held back for it, is made in
 the next tick. And a pause that lands while that launch is awaited is lost.
 */
module TickExamples {
  import opened Wrappers
  import opened Complexity
  import opened ControllerState
  import opened Scheduling
  import opened Orchestration
  import opened OrchestrationEffects
  import opened OrchestrationLoop
  import opened DrainQuiescence
  import PC = ParentControl

  function ExampleStory(id: string, status: StoryStatus): StoryState {
    CreateStoryState(id, 0).(status := status)
  }

  function ExampleAgent(id: string, role: string, taskId: Option<string>): AgentState {
    CreateAgentState(id, "r", role, taskId, 0).(status := AgentStatus.Idle)
  }

  const WRITER := ExampleAgent("w", "writer", Some("a"))

  /** The first story's writer, the project manager and the advisor. */
  const AGENTS := [WRITER, ExampleAgent("x", "manager", None), ExampleAgent("y", "advisor", Some("a"))]

  const CONFIG := LoopConfig(map[], Some(InitialTeam("manager", Some("advisor"))))

  /** The launcher has the first story's writer on record. */
  const ENV := TickEnv(0, action => EffectAnswer(Some(WRITER), None, true, 0, 0), None, None)

  function WithStories(first: StoryStatus, second: StoryStatus): Snapshot {
    Snapshot(0, RunState("r", LOW, RunStatus.Active, None, 0), [ExampleStory("a", first), ExampleStory("b", second)],
      AGENTS)
  }

  lemma ThreeSlotsTaken()
    ensures CountOccupiedAgentSlots(AGENTS) == 3
  {
    assert AGENTS[..2][..1] == AGENTS[..1] && AGENTS[..1][..0] == [];
    assert CountOccupiedAgentSlots(AGENTS[..1]) == 1;
    assert CountOccupiedAgentSlots(AGENTS[..2]) == 2;
  }

  /** What the scheduler starts of two stories without dependencies, the second of them pending. */
  lemma StartableOfTwo(a: SchedulableStory, b: SchedulableStory)
    requires a.dependencies == [] && b.dependencies == [] && b.status == Pending && a.status in {Pending, Running}
    ensures StartableIds([a, b], 2) == if a.status == Pending then [a.id, b.id] else [b.id]
  {
    var both, statuses := [a, b], StatusesOf([a, b]);
    assert both[..1] == [a] && [a][..0] == [];
    assert ReadyIds([a], statuses) == ReadyIds([], statuses) + if a.status == Pending then [a.id] else [];
    assert ReadyIds(both, statuses) == ReadyIds([a], statuses) + [b.id];
    assert Count([a], Running) == Count([], Running) + if a.status == Running then 1 else 0;
    assert Count(both, Running) == Count([a], Running);
  }

  lemma AdmitOne(launches: seq<OrchestrationAction>)
    requires 1 <= |launches| <= 2 && forall a | a in launches :: IsAgentLaunch(a)
    ensures Admit(launches, 1) == launches[..1] && Admit(launches, 4) == launches
  {
    assert launches[0] in launches && launches[..1][..0] == [] && launches[..1] == [launches[0]];
    assert LaunchCount(launches[..1]) == 1 && Admit(launches[..1], 1) == launches[..1];
    if |launches| == 2 {
      assert launches[1] in launches;
      AdmitMembers(launches, 4);
      assert LaunchCount(launches) == 2;
    } else {
      assert launches == launches[..1];
      AdmitMembers(launches, 4);
    }
  }

  /** What two stories without dependencies need, the second of them ready and the first ready or assigned. */
  lemma NeededOfTwo(stories: seq<OrchestrationStory>)
    requires |stories| == 2 && stories[0].dependencies == [] && stories[1].dependencies == []
    requires stories[0].status in {StoryStatus.Ready, StoryStatus.Assigned} && stories[1].status == StoryStatus.Ready
    requires stories[0].id != stories[1].id
    ensures Schedulable(Schedulables(stories))
    ensures NeededActions(stories, LOW) ==
            if stories[0].status == StoryStatus.Ready then [AssignStory(stories[0].id), AssignStory(stories[1].id)]
            else [AssignStory(stories[1].id)]
  {
    var schedulables := Schedulables(stories);
    assert schedulables == [schedulables[0], schedulables[1]];
    StartableOfTwo(schedulables[0], schedulables[1]);
    NoneFor(stories, Cleanup);
    NoneFor(stories, Merge);
    NoneFor(stories, Reviewer);
    assert !AllMerged(stories);
    assert Startable(stories, LOW) == StartableIds([schedulables[0], schedulables[1]], 2);
    assert NeededActions(stories, LOW) == AssignActions(Startable(stories, LOW));
  }

  /** A run of the two stories with the three agents on record. */
  predicate IsExample(s: Snapshot) {
    && s.run == RunState("r", LOW, RunStatus.Active, None, 0) && s.agents == AGENTS
    && |s.stories| == 2 && s.stories[0].id == "a" && s.stories[1].id == "b"
    && s.stories[0].status in {StoryStatus.Ready, StoryStatus.Assigned} && s.stories[1].status == StoryStatus.Ready
  }

  /** With one slot free, the tick admits the launch for the first story that is ready. */
  lemma AdmitsFirstReady(s: Snapshot, confirmed: set<string>)
    requires IsExample(s)
    ensures CanSchedule(s, CONFIG)
    ensures AdmittedActions(s, CONFIG, confirmed)
            == [AssignStory(if s.stories[0].status == StoryStatus.Ready then "a" else "b")]
  {
    var stories := Project(s, CONFIG.dependencies);
    assert stories[0].id == "a" && stories[1].id == "b" && "a"[0] != "b"[0];
    NeededOfTwo(stories);
    AdmitsOneOf(s, confirmed, NeededActions(stories, LOW));
  }

  lemma TeamIsThere(s: Snapshot, confirmed: set<string>)
    requires s.agents == AGENTS
    ensures TeamActions(s, CONFIG.team, confirmed) == []
  {
    assert AGENTS[1] in AGENTS && AGENTS[1].roleRuntimeId == "manager";
    assert AGENTS[2] in AGENTS && AGENTS[2].roleRuntimeId == "advisor";
  }

  lemma AdmitsOneOf(s: Snapshot, confirmed: set<string>, launches: seq<OrchestrationAction>)
    requires s.run.complexity == LOW && s.agents == AGENTS
    requires NeededActions(Project(s, CONFIG.dependencies), LOW) == launches
    requires 1 <= |launches| <= 2 && forall a | a in launches :: IsAgentLaunch(a)
    ensures AdmittedActions(s, CONFIG, confirmed) == launches[..1]
  {
    AdmitOne(launches);
    ThreeSlotsTaken();
    TeamIsThere(s, confirmed);
    assert CandidateActions(s, CONFIG, confirmed) == launches;
  }

  /** Its launch recovered the agent, and no slot was taken. */
  function AfterFirst(): Snapshot {
    var s := WithStories(StoryStatus.Ready, StoryStatus.Ready);
    s.(stories := s.stories[0 := s.stories[0].(status := StoryStatus.Assigned, assignedAgentId := Some("w"))])
  }

  lemma LaunchRecovers()
    ensures var action := AssignStory("a");
      Execute(action, WithStories(StoryStatus.Ready, StoryStatus.Ready), ENV.answers(action)) == Ok(AfterFirst())
  {
    var s, action := WithStories(StoryStatus.Ready, StoryStatus.Ready), AssignStory("a");
    TrimmedText("w", 0);
    assert StoryIds(s.stories) == ["a", "b"] && AgentIds(AGENTS) == ["w", "x", "y"];
    ExecuteOnStory(action, s, ENV.answers(action), 0);
    UpsertAt(AGENTS, WRITER, 0);
    assert AGENTS[0 := WRITER] == AGENTS;
  }

  lemma OneActionAlone(s: Snapshot, answers: Answers, action: OrchestrationAction, intended: Snapshot)
    requires Execute(action, s, answers(action)) == Ok(intended)
    ensures ExecuteAll([action], s, answers) == Ok(intended)
  {
    assert [action][..0] == [];
    assert ExecuteAll([], s, answers) == Ok(s);
  }

  /** A quiet tick of one action leaves that action's effect. */
  lemma OneActionTick(s: Snapshot, confirmed: set<string>, env: TickEnv, action: OrchestrationAction,
                      intended: Snapshot)
    requires PlanTick(Some(s), CONFIG, confirmed, env.now) == Ok(Work(s, [action])) && env.latest.None?
    requires Execute(action, s, env.answers(action)) == Ok(intended)
    ensures var tick := Tick(Some(s), CONFIG, confirmed, env);
      BusyTick(tick) && tick.snapshot == Some(intended.(revision := s.revision + 1))
  {
    OneActionAlone(s, env.answers, action, intended);
  }

  lemma PlansFirstReady(s: Snapshot)
    requires IsExample(s) && s.stories[0].status == StoryStatus.Ready
    ensures PlanTick(Some(s), CONFIG, {}, 0) == Ok(Work(s, [AssignStory("a")]))
  {
    AdmitsFirstReady(s, {});
  }

  lemma FirstTickRecovers(s: Snapshot)
    requires s == WithStories(StoryStatus.Ready, StoryStatus.Ready)
    ensures var tick := Tick(Some(s), CONFIG, {}, ENV);
      BusyTick(tick) && tick.snapshot == Some(AfterFirst().(revision := 1))
  {
    PlansFirstReady(s);
    LaunchRecovers();
    OneActionTick(s, {}, ENV, AssignStory("a"), AfterFirst());
  }

  lemma NextAdmitsOther(t: Snapshot, confirmed: set<string>)
    requires t == AfterFirst().(revision := 1)
    ensures AdmittedActions(t, CONFIG, confirmed) == [AssignStory("b")]
  {
    AdmitsFirstReady(t, confirmed);
  }

  lemma NoMergeWaits(s: Snapshot)
    requires s == WithStories(StoryStatus.Ready, StoryStatus.Ready)
    ensures NoMergePending(s)
  {
    forall story | story in s.stories ensures story.status == StoryStatus.Ready {
    }
  }

  /** A tick with no merge pending that recovers an agent can leave a launch to the next tick. */
  lemma RecoveringTickLeavesALaunch(s: Snapshot)
    requires s == WithStories(StoryStatus.Ready, StoryStatus.Ready)
    ensures var tick := Tick(Some(s), CONFIG, {}, ENV);
      && NoMergePending(s) && BusyTick(tick) && tick.snapshot.Some?
      && AdmittedActions(tick.snapshot.value, CONFIG, tick.confirmed) == [AssignStory("b")]
  {
    NoMergeWaits(s);
    FirstTickRecovers(s);
    var tick := Tick(Some(s), CONFIG, {}, ENV);
    NextAdmitsOther(tick.snapshot.value, tick.confirmed);
  }

  lemma PauseBlocks(s: Snapshot)
    requires s.run.status == RunStatus.Active && s.run.updatedAt == 0
    ensures var paused := PC.AfterControl(s, PC.Decide(s, PC.Control(PC.Pause, None, None, None), 0, false));
      paused.run.status == RunStatus.Blocked && PC.HaltedOver(s, paused)
  {
    PC.PauseReasonIsMarked(PC.ReasonText(None, "paused by parent"));
  }

  /** A pause that lands while the tick awaits its launch is gone once the tick has committed. */
  lemma PauseDuringTickIsLost(s: Snapshot)
    requires s == WithStories(StoryStatus.Ready, StoryStatus.Ready)
    ensures var paused := PC.AfterControl(s, PC.Decide(s, PC.Control(PC.Pause, None, None, None), 0, false));
      var tick := Tick(Some(s), CONFIG, {}, ENV.(latest := Some(paused)));
      paused.run.status == RunStatus.Blocked && tick.snapshot.Some? && !PC.IsHalted(tick.snapshot.value.run.status)
  {
    PauseBlocks(s);
    PlansFirstReady(s);
    LaunchRecovers();
    OneActionAlone(s, ENV.answers, AssignStory("a"), AfterFirst());
    var paused := PC.AfterControl(s, PC.Decide(s, PC.Control(PC.Pause, None, None, None), 0, false));
    PC.HaltDuringTickSurvivesIff(s, CONFIG, {}, ENV.(latest := Some(paused)));
  }
}
