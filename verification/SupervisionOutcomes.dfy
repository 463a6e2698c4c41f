/**
 What idle supervision does to an agent and to whose pane: when a step is due,
 who receives a nudge, and what is stored when the pane is gone or the nudges are
 used up.
 */
module SupervisionOutcomes {
  import opened Wrappers
  import opened Graph
  import opened ControllerState
  import opened OrchestrationEffects
  import opened IdleSupervision

  // ---------------------------------------------------------------- when a step is due

  /** Idle, with nothing in hand, nothing to wait for and nothing in the way. */
  predicate IsUnoccupied(agent: AgentState) {
    && agent.status == AgentStatus.Idle
    && agent.currentOperation.None? && agent.waitingReason.None? && agent.blockedReason.None?
  }

  /** Waited out since the last nudge, or since the last activity of an agent that was never nudged. */
  predicate HasWaited(agent: AgentState, now: nat, delay: nat) {
    match agent.lastNudgeAt
    case Some(at) => now >= at + delay
    case None => now >= agent.lastMeaningfulActivityAt + delay
  }

  /** Only an unoccupied agent is due: each nudge has a delay of its own, and the last delay is for escalating. */
  lemma StepIsDueIff(agent: AgentState, now: nat, policy: LivenessPolicy)
    ensures var n, decision := agent.nudgeCount, AssessAgentLiveness(agent, now, policy);
      var delays := [policy.quietPeriod] + policy.nudgeBackoff;
      && (agent.status != AgentStatus.Idle ==> decision == NoAction(StateIsNotIdle))
      && (agent.status == AgentStatus.Idle && !IsUnoccupied(agent) ==> decision == NoAction(HasAttentionState))
      && (IsUnoccupied(agent) && n < |delays| && !HasWaited(agent, now, delays[n]) ==>
            decision == NoAction(ThresholdNotElapsed))
      && (IsUnoccupied(agent) && n < |policy.nudgeBackoff| && HasWaited(agent, now, delays[n]) ==>
            decision == Nudge(n + 1))
      && (IsUnoccupied(agent) && n == |policy.nudgeBackoff| && HasWaited(agent, now, delays[n]) ==>
            decision == Escalate(EXHAUSTED))
  {
  }

  /** By default an idle agent is nudged after 90, 90 and 180 seconds, and escalated after another 300. */
  lemma DefaultSchedule(agent: AgentState, now: nat)
    requires IsUnoccupied(agent)
    ensures AssessAgentLiveness(agent, now, DEFAULT_LIVENESS_POLICY) ==
            if agent.nudgeCount == 0 && HasWaited(agent, now, 90_000) then Nudge(1)
            else if agent.nudgeCount == 1 && HasWaited(agent, now, 90_000) then Nudge(2)
            else if agent.nudgeCount == 2 && HasWaited(agent, now, 180_000) then Nudge(3)
            else if agent.nudgeCount >= 3 && HasWaited(agent, now, 300_000)
            then Escalate("bounded liveness nudges exhausted")
            else NoAction(ThresholdNotElapsed)
  {
  }

  // ---------------------------------------------------------------- whose pane

  /** The pane carries exactly the tokens of this agent of this run. */
  ghost predicate IsOwnPane(agent: AgentState, runId: string, pane: PaneAnswer) {
    pane.PaneTokens? && pane.kind == "agent" && pane.runId == runId && pane.agentId == agent.id
  }

  /** The agent without its pane; the record is never dated before its last change. */
  function WithoutPane(agent: AgentState, clock: nat): AgentState {
    agent.(status := AgentStatus.Disconnected, paneId := None, currentOperation := None, waitingReason := None,
           blockedReason := Some("Herdr pane disconnected"),
           updatedAt := if clock < agent.updatedAt then agent.updatedAt else clock)
  }

  /**
   A nudge goes only into a pane with the agent's own tokens; an agent that is due and whose pane is missing,
   or belongs to another kind, run or agent, is stored without it and is not nudged.
   */
  lemma NudgesGoToTheOwnPane(agent: AgentState, runId: string, now: nat, policy: LivenessPolicy, env: SupervisionEnv)
    ensures var attention := Attend(agent, runId, now, policy, env);
      && (attention.Nudged? ==>
            && env.panes(agent) == PaneTokens("agent", runId, agent.id) && env.sent(agent)
            && agent.updatedAt <= env.clock
            && attention.agent == agent.(nudgeCount := agent.nudgeCount + 1, lastNudgeAt := Some(env.clock),
                                         updatedAt := env.clock))
      && (attention.LostPane? <==> AsksHerdr(agent, now, policy) && !IsOwnPane(agent, runId, env.panes(agent)))
      && (attention.LostPane? ==>
            attention.agent == WithoutPane(agent, env.clock) && attention.agent.nudgeCount == agent.nudgeCount)
  {
  }

  /** An agent that is due and still has its pane is nudged, unless Herdr fails or the clock is behind. */
  lemma DueAgentIsNudged(agent: AgentState, runId: string, now: nat, policy: LivenessPolicy, env: SupervisionEnv)
    requires AsksHerdr(agent, now, policy) && IsOwnPane(agent, runId, env.panes(agent))
    ensures Attend(agent, runId, now, policy, env) ==
            if !env.sent(agent) then Broken(PaneInputFailed)
            else if env.clock < agent.updatedAt then Broken(Rejected(ClockMovedBackwards))
            else Nudged(agent.(nudgeCount := agent.nudgeCount + 1, lastNudgeAt := Some(env.clock),
                               updatedAt := env.clock))
  {
  }

  lemma SupervisionReasonIsText(reason: string)
    requires reason == EXHAUSTED || reason == NO_DELAY
    ensures NonEmpty("idle supervision: " + reason) == Ok("idle supervision: " + reason)
  {
    var text := "idle supervision: " + reason;
    assert text[0] == 'i' && text[|text| - 1] == reason[|reason| - 1] && text[|text| - 1] in {'d', 'y'};
    TrimmedText(text, |text| - 1);
  }

  /** An agent that used up its nudges is blocked with the reason, whatever became of its pane. */
  lemma EscalatedAgentIsBlocked(agent: AgentState, runId: string, now: nat, policy: LivenessPolicy, env: SupervisionEnv)
    requires AssessAgentLiveness(agent, now, policy).Escalate?
    ensures var reason := AssessAgentLiveness(agent, now, policy).reason;
      Attend(agent, runId, now, policy, env) ==
        if env.clock < agent.updatedAt then Broken(Rejected(ClockMovedBackwards))
        else Escalated(agent.(status := AgentStatus.Blocked, currentOperation := None, waitingReason := None,
                              blockedReason := Some("idle supervision: " + reason),
                              lastMeaningfulActivityAt := env.clock, updatedAt := env.clock), reason)
  {
    SupervisionReasonIsText(AssessAgentLiveness(agent, now, policy).reason);
  }

  // ---------------------------------------------------------------- the stored records

  /** Nothing is due for the agents before k, and something for agent k. */
  ghost predicate FirstDue(s: Snapshot, now: nat, policy: LivenessPolicy, env: SupervisionEnv, k: nat) {
    && k < |s.agents| && !Attend(s.agents[k], s.run.id, now, policy, env).Pass?
    && forall j :: 0 <= j < k ==> Attend(s.agents[j], s.run.id, now, policy, env).Pass?
  }

  lemma {:induction false} FirstIsAttended(agents: seq<AgentState>, runId: string, now: nat, policy: LivenessPolicy,
                                           env: SupervisionEnv, k: nat)
    requires k < |agents| && !Attend(agents[k], runId, now, policy, env).Pass?
    requires forall j :: 0 <= j < k ==> Attend(agents[j], runId, now, policy, env).Pass?
    ensures FirstToAttend(agents, runId, now, policy, env) == Some(agents[k])
  {
    NoneBefore(agents[..k], runId, now, policy, env);
    assert agents[..k + 1][..k] == agents[..k];
    EarlierAgentWins(agents, runId, now, policy, env, k + 1);
  }

  lemma {:induction false} NoneBefore(agents: seq<AgentState>, runId: string, now: nat, policy: LivenessPolicy,
                                      env: SupervisionEnv)
    requires forall j :: 0 <= j < |agents| ==> Attend(agents[j], runId, now, policy, env).Pass?
    ensures FirstToAttend(agents, runId, now, policy, env) == None
  {
    if agents != [] {
      NoneBefore(agents[..|agents| - 1], runId, now, policy, env);
    }
  }

  /** A pass over agents for which nothing is due changes nothing. */
  lemma QuietPass(s: Snapshot, current: Snapshot, now: nat, policy: LivenessPolicy, env: SupervisionEnv)
    requires forall j :: 0 <= j < |s.agents| ==> Attend(s.agents[j], s.run.id, now, policy, env).Pass?
    ensures Supervision(s, current, now, policy, env) == (Ok(Pass), current)
  {
    NoneBefore(s.agents, s.run.id, now, policy, env);
  }

  /**
   What a pass over the stored snapshot stores for the first agent that is due, when no other commit gets in:
   the counted nudge if the agent's own pane took it, the lost pane if the pane is another's, and never both.
   */
  lemma StoredAfterAPass(s: Snapshot, now: nat, policy: LivenessPolicy, env: SupervisionEnv, k: nat)
    requires FirstDue(s, now, policy, env, k) && Distinct(AgentIds(s.agents)) && env.latest.None?
    ensures var agent, attention := s.agents[k], Attend(s.agents[k], s.run.id, now, policy, env);
      var pass := Supervision(s, s, now, policy, env);
      && (attention.Broken? ==> pass == (Err(attention.error), s))
      && (!attention.Broken? ==>
            pass == (Ok(attention), s.(revision := s.revision + 1, agents := s.agents[k := attention.agent])))
      && (pass.0.Ok? && pass.0.value.Nudged? ==>
            && IsOwnPane(agent, s.run.id, env.panes(agent))
            && pass.1.agents[k].nudgeCount == agent.nudgeCount + 1 && pass.1.agents[k].paneId == agent.paneId)
      && (AsksHerdr(agent, now, policy) && !IsOwnPane(agent, s.run.id, env.panes(agent)) ==>
            pass.1.agents == s.agents[k := WithoutPane(agent, env.clock)])
  {
    var agent, attention := s.agents[k], Attend(s.agents[k], s.run.id, now, policy, env);
    FirstIsAttended(s.agents, s.run.id, now, policy, env, k);
    NudgesGoToTheOwnPane(agent, s.run.id, now, policy, env);
    if !attention.Broken? {
      AttendKeepsId(agent, s.run.id, now, policy, env);
      UpsertAt(s.agents, attention.agent, k);
    }
  }
}
