/** What merging a tick's agents with concurrently committed ones keeps. */
module AgentMerging {
  import opened Wrappers
  import opened Graph
  import opened ControllerState
  import opened OrchestrationEffects
  import opened OrchestrationLoop

  /** No record of the same agent on either side is newer, and on a tie the committed one is kept. */
  ghost predicate IsNewest(agent: AgentState, latest: seq<AgentState>, intended: seq<AgentState>) {
    && (agent in latest || agent in intended)
    && (forall other :: other in latest && other.id == agent.id ==>
          if agent in latest then other.updatedAt <= agent.updatedAt else other.updatedAt < agent.updatedAt)
    && (forall other :: other in intended && other.id == agent.id ==> other.updatedAt <= agent.updatedAt)
  }

  lemma {:induction false} MissingAreAppended(agents: seq<AgentState>, latest: seq<AgentState>)
    requires Distinct(AgentIds(agents))
    ensures Distinct(AgentIds(AppendMissing(agents, latest)))
    ensures forall agent :: agent in AppendMissing(agents, latest) ==>
              agent in agents || (agent in latest && !HasAgent(agents, agent.id))
    ensures forall agent :: agent in agents ==> agent in AppendMissing(agents, latest)
    ensures forall agent :: agent in latest ==> HasAgent(AppendMissing(agents, latest), agent.id)
  {
    if latest != [] {
      var init, last := latest[..|latest| - 1], latest[|latest| - 1];
      assert latest == init + [last];
      MissingAreAppended(agents, init);
      var sofar := AppendMissing(agents, init);
      if !HasAgent(sofar, last.id) {
        DistinctAppend(sofar, last);
        assert last in sofar + [last];
        forall agent | agent in agents ensures agent.id != last.id {
          assert agent in sofar;
        }
      }
      forall agent | agent in latest ensures HasAgent(AppendMissing(agents, latest), agent.id) {
        if agent in init {
          var kept :| kept in sofar && kept.id == agent.id;
          assert kept in AppendMissing(agents, latest);
        }
      }
    }
  }

  /** Taking the newer side of an intended record keeps its id, and the record is the newest of both sides. */
  lemma MappedIsNewest(latest: seq<AgentState>, intended: seq<AgentState>, i: nat)
    requires Distinct(AgentIds(latest)) && Distinct(AgentIds(intended)) && i < |intended|
    ensures Newest(intended[i], latest).id == intended[i].id
    ensures IsNewest(Newest(intended[i], latest), latest, intended)
  {
    var agent := Newest(intended[i], latest);
    forall other | other in intended && other.id == agent.id ensures other == intended[i] {
      var j :| 0 <= j < |intended| && intended[j] == other;
      SameIdSameAgent(intended, i, j);
    }
    forall other | other in latest && other.id == agent.id ensures FindAgent(latest, intended[i].id) == Some(other) {
      var found := FindAgent(latest, intended[i].id).value;
      var j :| 0 <= j < |latest| && latest[j] == other;
      var k :| 0 <= k < |latest| && latest[k] == found;
      SameIdSameAgent(latest, j, k);
    }
  }

  /** An agent that only the committed side knows is its own newest record. */
  lemma AppendedIsNewest(latest: seq<AgentState>, intended: seq<AgentState>, agent: AgentState)
    requires Distinct(AgentIds(latest)) && agent in latest && !HasAgent(intended, agent.id)
    ensures IsNewest(agent, latest, intended)
  {
    forall other | other in latest && other.id == agent.id ensures other == agent {
      var j :| 0 <= j < |latest| && latest[j] == other;
      var k :| 0 <= k < |latest| && latest[k] == agent;
      SameIdSameAgent(latest, j, k);
    }
  }

  /**
   A merge loses no agent and invents none: it holds one record for every id
   known to either side, and that record is the newest one.
   */
  lemma MergeKeepsNewest(latest: seq<AgentState>, intended: seq<AgentState>)
    requires Distinct(AgentIds(latest)) && Distinct(AgentIds(intended))
    ensures var merged := MergeAgents(latest, intended);
      && Distinct(AgentIds(merged))
      && (forall id :: HasAgent(merged, id) <==> HasAgent(latest, id) || HasAgent(intended, id))
      && forall agent :: agent in merged ==> IsNewest(agent, latest, intended)
  {
    var mapped, merged := NewestOf(intended, latest), MergeAgents(latest, intended);
    forall i | 0 <= i < |intended|
      ensures mapped[i].id == intended[i].id && IsNewest(mapped[i], latest, intended)
    {
      MappedIsNewest(latest, intended, i);
    }
    assert AgentIds(mapped) == AgentIds(intended);
    MissingAreAppended(mapped, latest);
    SameIdsKnown(intended, mapped);
    forall agent | agent in merged ensures IsNewest(agent, latest, intended) {
      if agent !in mapped {
        AppendedIsNewest(latest, intended, agent);
      }
    }
    forall agent | agent in intended ensures HasAgent(merged, agent.id) {
      var i :| 0 <= i < |intended| && intended[i] == agent;
      assert mapped[i] in mapped && mapped[i] in merged;
    }
  }

  lemma SameIdsKnown(a: seq<AgentState>, b: seq<AgentState>)
    requires AgentIds(a) == AgentIds(b)
    ensures forall id :: HasAgent(a, id) <==> HasAgent(b, id)
  {
    forall i | 0 <= i < |a| ensures |a| == |b| && a[i].id == b[i].id && a[i] in a && b[i] in b {
      assert |AgentIds(a)| == |AgentIds(b)| && AgentIds(a)[i] == AgentIds(b)[i];
    }
    assert |a| == |AgentIds(b)|;
  }
}
