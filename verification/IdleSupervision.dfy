/** Idle-agent supervision: bounded nudges, and escalation when they are used up. */
module IdleSupervision {
  import opened Wrappers
  import opened ControllerState
  import opened ControllerRepository
  import opened Complexity
  import opened OrchestrationEffects
  import opened OrchestrationLoop
  import opened Recovery
  import PC = ParentControl

  // ---------------------------------------------------------------- the liveness decision

  datatype LivenessPolicy = LivenessPolicy(quietPeriod: nat, nudgeBackoff: seq<nat>)

  const DEFAULT_LIVENESS_POLICY := LivenessPolicy(90_000, [90_000, 180_000, 300_000])

  datatype NoActionReason = StateIsNotIdle | HasAttentionState | ThresholdNotElapsed

  datatype LivenessDecision = NoAction(cause: NoActionReason) | Nudge(attempt: nat) | Escalate(reason: string)

  const NO_DELAY := "liveness policy has no nudge delay"
  const EXHAUSTED := "bounded liveness nudges exhausted"

  predicate HasAttention(agent: AgentState) {
    agent.currentOperation.Some? || agent.waitingReason.Some? || agent.blockedReason.Some?
  }

  function Reference(agent: AgentState): nat {
    if agent.lastNudgeAt.Some? then agent.lastNudgeAt.value else agent.lastMeaningfulActivityAt
  }

  /** The quiet period before the first nudge, then the back-offs, the last of them repeated. */
  function RequiredDelay(nudgeCount: nat, policy: LivenessPolicy): Option<nat> {
    if nudgeCount == 0 then Some(policy.quietPeriod)
    else if policy.nudgeBackoff == [] then None
    else if nudgeCount <= |policy.nudgeBackoff| then Some(policy.nudgeBackoff[nudgeCount - 1])
    else Some(policy.nudgeBackoff[|policy.nudgeBackoff| - 1])
  }

  function AssessAgentLiveness(agent: AgentState, now: nat, policy: LivenessPolicy): LivenessDecision {
    if agent.status != AgentStatus.Idle then NoAction(StateIsNotIdle)
    else if HasAttention(agent) then NoAction(HasAttentionState)
    else
      var delay := RequiredDelay(agent.nudgeCount, policy);
      if delay.None? then Escalate(NO_DELAY)
      else if now - Reference(agent) < delay.value then NoAction(ThresholdNotElapsed)
      else if agent.nudgeCount >= |policy.nudgeBackoff| then Escalate(EXHAUSTED)
      else Nudge(agent.nudgeCount + 1)
  }

  /** The "attention state" answer, and the missing pane of a nudged agent, are both unreachable. */
  lemma AttentionStateUnreachable(agent: AgentState, now: nat, policy: LivenessPolicy)
    requires AgentOk(agent)
    ensures AssessAgentLiveness(agent, now, policy) != NoAction(HasAttentionState)
    ensures !AssessAgentLiveness(agent, now, policy).NoAction? ==> agent.paneId.Some?
  {
  }

  // ---------------------------------------------------------------- one supervision pass

  datatype PaneAnswer = PaneMissing | PaneTokens(kind: string, runId: string, agentId: string)

  /** What Herdr and the clock answer during one pass, and what others commit while Herdr is being asked. */
  datatype SupervisionEnv = SupervisionEnv(
    panes: AgentState -> PaneAnswer, sent: AgentState -> bool, clock: nat, latest: Option<Snapshot>)

  datatype SupervisionError = PaneInputFailed | Rejected(error: TransitionError) | SnapshotChanged

  datatype Attention =
    | Pass
    | Nudged(agent: AgentState)
    | LostPane(agent: AgentState)
    | Escalated(agent: AgentState, reason: string)
    | Broken(error: SupervisionError)

  predicate OwnsPane(agent: AgentState, runId: string, pane: PaneAnswer) {
    pane == PaneTokens("agent", runId, agent.id)
  }

  function PaneLoss(agent: AgentState, env: SupervisionEnv): Attention {
    match TransitionAgent(agent, PaneLost(if env.clock >= agent.updatedAt then env.clock else agent.updatedAt))
    case Ok(lost) => LostPane(lost)
    case Err(error) => Broken(Rejected(error))
  }

  /** What one pass does about one agent. */
  function Attend(agent: AgentState, runId: string, now: nat, policy: LivenessPolicy, env: SupervisionEnv): Attention {
    match AssessAgentLiveness(agent, now, policy)
    case NoAction(_) => Pass
    case Nudge(_) =>
      if agent.paneId.None? then Pass
      else if !OwnsPane(agent, runId, env.panes(agent)) then PaneLoss(agent, env)
      else if !env.sent(agent) then Broken(PaneInputFailed)
      else
        (match TransitionAgent(agent, NudgeSent(env.clock))
         case Ok(nudged) => Nudged(nudged)
         case Err(error) => Broken(Rejected(error)))
    case Escalate(reason) =>
      match TransitionAgent(agent, AgentBlocked(env.clock, "idle supervision: " + reason))
      case Ok(blocked) => Escalated(blocked, reason)
      case Err(error) => Broken(Rejected(error))
  }

  /** Only a nudge waits for Herdr, so only then can another commit get in. */
  predicate AsksHerdr(agent: AgentState, now: nat, policy: LivenessPolicy) {
    AssessAgentLiveness(agent, now, policy).Nudge? && agent.paneId.Some?
  }

  /** The pass acts on the first agent that calls for anything. */
  function FirstToAttend(agents: seq<AgentState>, runId: string, now: nat, policy: LivenessPolicy, env: SupervisionEnv)
    : Option<AgentState>
  {
    if agents == [] then None
    else
      var earlier, last := FirstToAttend(agents[..|agents| - 1], runId, now, policy, env), agents[|agents| - 1];
      if earlier.Some? then earlier
      else if Attend(last, runId, now, policy, env).Pass? then None
      else Some(last)
  }

  lemma {:induction false} EarlierAgentWins(agents: seq<AgentState>, runId: string, now: nat, policy: LivenessPolicy,
                                            env: SupervisionEnv, n: nat)
    requires n <= |agents| && FirstToAttend(agents[..n], runId, now, policy, env).Some?
    ensures FirstToAttend(agents, runId, now, policy, env) == FirstToAttend(agents[..n], runId, now, policy, env)
  {
    if n < |agents| {
      assert agents[..|agents| - 1][..n] == agents[..n];
      EarlierAgentWins(agents[..|agents| - 1], runId, now, policy, env, n);
    } else {
      assert agents[..n] == agents;
    }
  }

  /** What the repository holds by the time a pass over `agent` is ready to commit. */
  function FoundAtCommit(agent: AgentState, current: Snapshot, now: nat, policy: LivenessPolicy, env: SupervisionEnv)
    : Snapshot
  {
    if AsksHerdr(agent, now, policy) && env.latest.Some? then env.latest.value else current
  }

  /** The answer of a pass over the snapshot it was given, and what the repository holds afterwards. */
  function Supervision(loaded: Snapshot, current: Snapshot, now: nat, policy: LivenessPolicy, env: SupervisionEnv)
    : (Result<Attention, SupervisionError>, Snapshot)
  {
    match FirstToAttend(loaded.agents, loaded.run.id, now, policy, env)
    case None => (Ok(Pass), current)
    case Some(agent) => Attended(loaded, FoundAtCommit(agent, current, now, policy, env),
                                 Attend(agent, loaded.run.id, now, policy, env))
  }

  function Attended(loaded: Snapshot, found: Snapshot, attention: Attention)
    : (Result<Attention, SupervisionError>, Snapshot)
  {
    match attention
    case Pass => (Ok(Pass), found)
    case Broken(error) => (Err(error), found)
    case _ =>
      if found.revision == loaded.revision
      then (Ok(attention),
            loaded.(revision := loaded.revision + 1, agents := UpsertAgent(loaded.agents, attention.agent)))
      else (Err(SnapshotChanged), found)
  }

  class IdleAgentSupervisor {
    const repository: Repository
    const policy: LivenessPolicy

    constructor (repository: Repository, policy: LivenessPolicy)
      ensures this.repository == repository && this.policy == policy
    {
      this.repository := repository;
      this.policy := policy;
    }

    /** Act on at most one agent of the snapshot the caller loaded. */
    method Supervise(loaded: Snapshot, now: nat, env: SupervisionEnv) returns (r: Result<Attention, SupervisionError>)
      requires repository.snapshot.Some?
      modifies repository`snapshot
      ensures repository.snapshot.Some?
      ensures (r, repository.snapshot.value) == Supervision(loaded, old(repository.snapshot).value, now, policy, env)
    {
      var agents := loaded.agents;
      for i := 0 to |agents|
        invariant FirstToAttend(agents[..i], loaded.run.id, now, policy, env) == None
        invariant repository.snapshot == old(repository.snapshot)
      {
        assert agents[..i + 1][..i] == agents[..i];
        var attention := Attend(agents[i], loaded.run.id, now, policy, env);
        if !attention.Pass? {
          EarlierAgentWins(agents, loaded.run.id, now, policy, env, i + 1);
          if AsksHerdr(agents[i], now, policy) && env.latest.Some? {
            repository.snapshot := env.latest;
          }
          r := Record(loaded, attention);
          return;
        }
      }
      assert agents[..|agents|] == agents;
      r := Ok(Pass);
    }

    /** Commit what the pass did about its agent on the revision the pass was given. */
    method Record(loaded: Snapshot, attention: Attention) returns (r: Result<Attention, SupervisionError>)
      requires repository.snapshot.Some? && !attention.Pass?
      modifies repository`snapshot
      ensures repository.snapshot.Some?
      ensures (r, repository.snapshot.value) == Attended(loaded, old(repository.snapshot).value, attention)
    {
      if attention.Broken? {
        return Err(attention.error);
      }
      var accepted := repository.CommitSnapshot(loaded.revision,
        loaded.(agents := UpsertAgent(loaded.agents, attention.agent)));
      r := if accepted then Ok(attention) else Err(SnapshotChanged);
    }
  }

  // ---------------------------------------------------------------- histories of one agent

  datatype HistoryStep =
    | Transitioned(transition: AgentTransition)
    | Watched(runId: string, now: nat, env: SupervisionEnv)

  /** Nudges come from supervision alone, and its clock reading is not behind the time it was given. */
  predicate Faithful(step: HistoryStep) {
    match step
    case Transitioned(t) => !t.NudgeSent?
    case Watched(_, now, env) => now <= env.clock
  }

  /** Another commit lands while the pass asks Herdr about the agent. */
  predicate Overtaken(agent: AgentState, now: nat, policy: LivenessPolicy, env: SupervisionEnv) {
    AsksHerdr(agent, now, policy) && env.latest.Some?
  }

  function AgentAfter(agent: AgentState, step: HistoryStep, policy: LivenessPolicy): AgentState {
    match step
    case Transitioned(t) => if TransitionAgent(agent, t).Ok? then TransitionAgent(agent, t).value else agent
    case Watched(runId, now, env) =>
      var attention := Attend(agent, runId, now, policy, env);
      if attention.Pass? || attention.Broken? || Overtaken(agent, now, policy, env) then agent else attention.agent
  }

  /** An agent, and the activity that preceded its first nudge. */
  datatype Tracked = Tracked(agent: AgentState, activity: nat)

  function TrackedAfter(r: Tracked, step: HistoryStep, policy: LivenessPolicy): Tracked {
    Tracked(AgentAfter(r.agent, step, policy),
            if r.agent.nudgeCount == 0 then r.agent.lastMeaningfulActivityAt else r.activity)
  }

  function History(agent: AgentState, steps: seq<HistoryStep>, policy: LivenessPolicy): Tracked {
    if steps == [] then Tracked(agent, agent.lastMeaningfulActivityAt)
    else TrackedAfter(History(agent, steps[..|steps| - 1], policy), steps[|steps| - 1], policy)
  }

  function Sum(delays: seq<nat>): nat {
    if delays == [] then 0 else Sum(delays[..|delays| - 1]) + delays[|delays| - 1]
  }

  lemma SumStep(delays: seq<nat>, n: nat)
    requires n <= |delays|
    ensures Sum(delays[..n]) == if n == 0 then 0 else Sum(delays[..n - 1]) + delays[n - 1]
  {
    if n > 0 {
      assert delays[..n][..n - 1] == delays[..n - 1];
    }
  }

  /** Each nudge waited out the delay before it. */
  ghost predicate WellPaced(r: Tracked, policy: LivenessPolicy) {
    && r.agent.nudgeCount <= |policy.nudgeBackoff|
    && (r.agent.nudgeCount == 0 <==> r.agent.lastNudgeAt.None?)
    && (r.agent.nudgeCount > 0 ==>
          r.agent.lastNudgeAt.value >=
            r.activity + policy.quietPeriod + Sum(policy.nudgeBackoff[..r.agent.nudgeCount - 1]))
  }

  /** The nudge that follows waited out the delay for the nudges before it. */
  lemma NudgeKeepsPace(r: Tracked, now: nat, clock: nat, policy: LivenessPolicy, after: AgentState)
    requires WellPaced(r, policy) && now <= clock && AssessAgentLiveness(r.agent, now, policy).Nudge?
    requires after.nudgeCount == r.agent.nudgeCount + 1 && after.lastNudgeAt == Some(clock)
    ensures WellPaced(Tracked(after, if r.agent.nudgeCount == 0 then r.agent.lastMeaningfulActivityAt else r.activity),
                      policy)
  {
    SumStep(policy.nudgeBackoff, r.agent.nudgeCount);
  }

  lemma StepKeepsPace(r: Tracked, step: HistoryStep, policy: LivenessPolicy)
    requires WellPaced(r, policy) && Faithful(step)
    ensures WellPaced(TrackedAfter(r, step, policy), policy)
  {
    var after := AgentAfter(r.agent, step, policy);
    if step.Watched? && after.nudgeCount != r.agent.nudgeCount {
      NudgeKeepsPace(r, step.now, step.env.clock, policy, after);
    }
  }

  lemma {:induction false} HistoryIsWellPaced(agent: AgentState, steps: seq<HistoryStep>, policy: LivenessPolicy)
    requires agent.nudgeCount == 0 && agent.lastNudgeAt.None?
    requires forall step :: step in steps ==> Faithful(step)
    ensures WellPaced(History(agent, steps, policy), policy)
  {
    if steps != [] {
      var init, step := steps[..|steps| - 1], steps[|steps| - 1];
      assert forall earlier :: earlier in init ==> earlier in steps;
      assert Faithful(step);
      HistoryIsWellPaced(agent, init, policy);
      StepKeepsPace(History(agent, init, policy), step, policy);
    }
  }

  /**
   Over any history in which only supervision nudges, an agent has at most
   one nudge recorded per back-off, and is escalated no earlier than the quiet period and all
   back-offs after the activity that preceded its first nudge.
   */
  lemma NudgingIsBounded(id: string, runId: string, role: string, taskId: Option<string>, createdAt: nat,
                         steps: seq<HistoryStep>, now: nat, policy: LivenessPolicy)
    requires forall step :: step in steps ==> Faithful(step)
    ensures var r := History(CreateAgentState(id, runId, role, taskId, createdAt), steps, policy);
      && r.agent.nudgeCount <= |policy.nudgeBackoff|
      && (AssessAgentLiveness(r.agent, now, policy).Escalate? ==>
            && r.agent.nudgeCount == |policy.nudgeBackoff|
            && now >= (if r.agent.nudgeCount == 0 then r.agent.lastMeaningfulActivityAt else r.activity)
                      + policy.quietPeriod + Sum(policy.nudgeBackoff))
  {
    HistoryIsWellPaced(CreateAgentState(id, runId, role, taskId, createdAt), steps, policy);
    var n := |policy.nudgeBackoff|;
    assert policy.nudgeBackoff[..n] == policy.nudgeBackoff;
    SumStep(policy.nudgeBackoff, n);
  }

  // ---------------------------------------------------------------- nudges that go unrecorded

  predicate SendsNudge(agent: AgentState, step: HistoryStep, policy: LivenessPolicy) {
    step.Watched? && Attend(agent, step.runId, step.now, policy, step.env).Nudged?
  }

  /** How many nudges the agent's pane has received. */
  function Sent(agent: AgentState, steps: seq<HistoryStep>, policy: LivenessPolicy): nat {
    if steps == [] then 0
    else
      var init, step := steps[..|steps| - 1], steps[|steps| - 1];
      Sent(agent, init, policy) + (if SendsNudge(History(agent, init, policy).agent, step, policy) then 1 else 0)
  }

  /** No other commit landed while Herdr was asked to pass on a nudge. */
  predicate NeverOvertaken(agent: AgentState, steps: seq<HistoryStep>, policy: LivenessPolicy) {
    steps == [] || (
      var init, step := steps[..|steps| - 1], steps[|steps| - 1];
      && NeverOvertaken(agent, init, policy)
      && (SendsNudge(History(agent, init, policy).agent, step, policy) ==> step.env.latest.None?))
  }

  lemma StepCounts(agent: AgentState, step: HistoryStep, policy: LivenessPolicy)
    requires Faithful(step)
    ensures AgentAfter(agent, step, policy).nudgeCount
            == agent.nudgeCount + if SendsNudge(agent, step, policy) && step.env.latest.None? then 1 else 0
  {
  }

  /**
   A nudge is sent before it is recorded, and a commit that lands while Herdr is
   asked keeps it from being recorded: the pane receives as many nudges as are
   counted, and so at most one per back-off, exactly when no such commit landed.
   */
  lemma {:induction false} SentIsCountedIffNotOvertaken(agent: AgentState, steps: seq<HistoryStep>,
                                                        policy: LivenessPolicy)
    requires forall step :: step in steps ==> Faithful(step)
    ensures var counted := History(agent, steps, policy).agent.nudgeCount;
      && counted <= agent.nudgeCount + Sent(agent, steps, policy)
      && (counted == agent.nudgeCount + Sent(agent, steps, policy) <==> NeverOvertaken(agent, steps, policy))
  {
    if steps != [] {
      var init, step := steps[..|steps| - 1], steps[|steps| - 1];
      assert forall earlier :: earlier in init ==> earlier in steps;
      assert Faithful(step);
      SentIsCountedIffNotOvertaken(agent, init, policy);
      StepCounts(History(agent, init, policy).agent, step, policy);
    }
  }

  // ---------------------------------------------------------------- passes are steps of the histories

  lemma {:induction false} FindMapped(agents: seq<AgentState>, updated: AgentState, id: string)
    ensures var mapped := seq(|agents|, i requires 0 <= i < |agents| =>
                                if agents[i].id == updated.id then updated else agents[i]);
      FindAgent(mapped, id) ==
        if id == updated.id then (if FindAgent(agents, id).Some? then Some(updated) else None)
          else FindAgent(agents, id)
  {
    if agents != [] {
      var mapped := seq(|agents|, i requires 0 <= i < |agents| =>
                          if agents[i].id == updated.id then updated else agents[i]);
      var rest := seq(|agents[1..]|, i requires 0 <= i < |agents[1..]| =>
                        if agents[1..][i].id == updated.id then updated else agents[1..][i]);
      assert mapped[1..] == rest;
      FindMapped(agents[1..], updated, id);
    }
  }

  lemma FindUpserted(agents: seq<AgentState>, updated: AgentState, id: string)
    requires FindAgent(agents, updated.id).Some?
    ensures FindAgent(UpsertAgent(agents, updated), id)
            == if id == updated.id then Some(updated) else FindAgent(agents, id)
  {
    assert HasAgent(agents, updated.id);
    FindMapped(agents, updated, id);
  }

  lemma AttendKeepsId(agent: AgentState, runId: string, now: nat, policy: LivenessPolicy, env: SupervisionEnv)
    ensures var attention := Attend(agent, runId, now, policy, env);
      !attention.Pass? && !attention.Broken? ==> attention.agent.id == agent.id
  {
  }

  /**
   What a pass does to the stored record of the agent it picks is one step of that
   agent's history, and it is no step of any other agent's.
   */
  lemma PassIsOneStep(loaded: Snapshot, agent: AgentState, now: nat, policy: LivenessPolicy, env: SupervisionEnv)
    requires FirstToAttend(loaded.agents, loaded.run.id, now, policy, env) == Some(agent)
    requires FindAgent(loaded.agents, agent.id) == Some(agent)
    requires env.latest.Some? ==>
      env.latest.value.revision > loaded.revision && FindAgent(env.latest.value.agents, agent.id) == Some(agent)
    ensures var after, found := Supervision(loaded, loaded, now, policy, env).1,
                                FoundAtCommit(agent, loaded, now, policy, env);
      && FindAgent(after.agents, agent.id) == Some(AgentAfter(agent, Watched(loaded.run.id, now, env), policy))
      && forall id :: id != agent.id ==> FindAgent(after.agents, id) == FindAgent(found.agents, id)
  {
    var attention := Attend(agent, loaded.run.id, now, policy, env);
    AttendKeepsId(agent, loaded.run.id, now, policy, env);
    if !attention.Pass? && !attention.Broken? && !Overtaken(agent, now, policy, env) {
      forall id ensures FindAgent(UpsertAgent(loaded.agents, attention.agent), id)
                        == if id == agent.id then Some(attention.agent) else FindAgent(loaded.agents, id)
      {
        FindUpserted(loaded.agents, attention.agent, id);
      }
    }
  }

  // An idle agent that is due for its first nudge, and a parent control that lands while Herdr is asked.
  const EXAMPLE_AGENT := CreateAgentState("w", "r", "writer", Some("s"), 0).(status := AgentStatus.Idle,
                                                                             paneId := Some("p"))
  const EXAMPLE_RUN := Snapshot(0, RunState("r", LOW, RunStatus.Active, None, 0), [CreateStoryState("s", 0)],
                                [EXAMPLE_AGENT])
  const FOCUS := PC.Control(PC.Focus, Some("w"), None, None)

  lemma ExampleIsNudged(env: SupervisionEnv)
    requires env.panes(EXAMPLE_AGENT) == PaneTokens("agent", "r", "w") && env.sent(EXAMPLE_AGENT) && env.clock == 90_000
    ensures Attend(EXAMPLE_AGENT, "r", 90_000, DEFAULT_LIVENESS_POLICY, env).Nudged?
    ensures AsksHerdr(EXAMPLE_AGENT, 90_000, DEFAULT_LIVENESS_POLICY)
    ensures FirstToAttend([EXAMPLE_AGENT], "r", 90_000, DEFAULT_LIVENESS_POLICY, env) == Some(EXAMPLE_AGENT)
  {
    assert [EXAMPLE_AGENT][..0] == [];
    assert FirstToAttend([], "r", 90_000, DEFAULT_LIVENESS_POLICY, env) == None;
  }

  /** The pane receives the nudge, and the agent's record still counts none. */
  lemma OvertakenNudgeIsNotCounted()
    ensures var focused := PC.AfterControl(EXAMPLE_RUN, PC.Decide(EXAMPLE_RUN, FOCUS, 0, false));
      var env := SupervisionEnv(agent => PaneTokens("agent", "r", "w"), agent => true, 90_000, Some(focused));
      && Attend(EXAMPLE_AGENT, "r", 90_000, DEFAULT_LIVENESS_POLICY, env).Nudged?
      && Supervision(EXAMPLE_RUN, EXAMPLE_RUN, 90_000, DEFAULT_LIVENESS_POLICY, env) == (Err(SnapshotChanged), focused)
      && FindAgent(focused.agents, "w") == Some(EXAMPLE_AGENT) && EXAMPLE_AGENT.nudgeCount == 0
  {
    var focused := PC.AfterControl(EXAMPLE_RUN, PC.Decide(EXAMPLE_RUN, FOCUS, 0, false));
    assert focused == EXAMPLE_RUN.(revision := 1);
    ExampleIsNudged(SupervisionEnv(agent => PaneTokens("agent", "r", "w"), agent => true, 90_000, Some(focused)));
  }

  // ---------------------------------------------------------------- what postpones the next step

  lemma WorkKeepsNudges(agent: AgentState, t: AgentTransition)
    requires !t.NudgeSent? && TransitionAgent(agent, t).Ok?
    ensures var after := TransitionAgent(agent, t).value;
      after.lastNudgeAt == agent.lastNudgeAt && after.nudgeCount == agent.nudgeCount
  {
  }

  /**
   Nothing but a nudge moves the clock of a nudged agent: whatever it does in
   between, its next step is due from its last nudge, and only an agent that was
   never nudged has its next step postponed by later activity.
   */
  lemma {:induction false} ActivityPostponesIffNeverNudged(agent: AgentState, steps: seq<HistoryStep>,
                                                           policy: LivenessPolicy)
    requires forall step :: step in steps ==> step.Transitioned? && !step.transition.NudgeSent?
    ensures var after := History(agent, steps, policy).agent;
      && after.nudgeCount == agent.nudgeCount && after.lastNudgeAt == agent.lastNudgeAt
      && Reference(after) == if agent.lastNudgeAt.Some? then Reference(agent) else after.lastMeaningfulActivityAt
  {
    if steps != [] {
      var init, step := steps[..|steps| - 1], steps[|steps| - 1];
      assert forall earlier :: earlier in init ==> earlier in steps;
      assert step in steps;
      ActivityPostponesIffNeverNudged(agent, init, policy);
      var before := History(agent, init, policy).agent;
      if TransitionAgent(before, step.transition).Ok? {
        WorkKeepsNudges(before, step.transition);
      }
    }
  }

  /** One operation makes the next step of an idle agent wait from its end, unless the agent has been nudged. */
  lemma OperationPostponesIffNeverNudged(agent: AgentState, operation: string, started: nat, finished: nat, now: nat,
                                         policy: LivenessPolicy)
    requires AgentOk(agent) && agent.status == AgentStatus.Idle
    requires TransitionAgent(agent, OperationStarted(started, operation)).Ok? && started <= finished <= now
    ensures var worked := TransitionAgent(TransitionAgent(agent, OperationStarted(started, operation)).value,
                                          OperationFinished(finished)).value;
      && worked.lastMeaningfulActivityAt == finished
      && AssessAgentLiveness(worked, now, policy) ==
           AssessAgentLiveness(if agent.lastNudgeAt.Some? then agent else agent.(lastMeaningfulActivityAt := finished),
                               now, policy)
  {
  }
}
