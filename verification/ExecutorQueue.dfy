/**
 Serialization of one executor's operations. Each operation waits for the one
 that was the tail when it was enqueued; settling, and the callbacks that clear
 the tables afterwards, are separate steps in any order.
 */
module ExecutorQueue {
  import opened Wrappers

  datatype OperationStatus = Waiting | Running | Settled

  /** An enqueued operation: what it waits for, and the request it carries out, if any. */
  datatype Operation = Operation(
    previous: Option<nat>, requestId: Option<string>, resumes: bool, status: OperationStatus)

  /** Operations in the order they were enqueued, with the tail and in-flight tables. */
  datatype QueueState = QueueState(
    operations: seq<Operation>, tail: Option<nat>, requests: map<string, nat>, resume: Option<nat>)

  const EMPTY := QueueState([], None, map[], None)

  datatype Step =
    | Enqueue
    | EnqueueMessage(requestId: string)
    | ResumeDeferred
    | Start(index: nat)
    | Settle(index: nat)
    | ClearTail(index: nat)
    | ClearRequest(index: nat)
    | ClearResume(index: nat)

  function Appended(s: QueueState, requestId: Option<string>, resumes: bool): QueueState {
    s.(operations := s.operations + [Operation(s.tail, requestId, resumes, Waiting)], tail := Some(|s.operations|))
  }

  function WithStatus(s: QueueState, i: nat, status: OperationStatus): QueueState
    requires i < |s.operations|
  {
    s.(operations := s.operations[i := s.operations[i].(status := status)])
  }

  predicate HasStatus(s: QueueState, i: nat, status: OperationStatus) {
    i < |s.operations| && s.operations[i].status == status
  }

  /** A waiting operation may start once the one it waits for has settled. */
  predicate MayStart(s: QueueState, i: nat) {
    && HasStatus(s, i, Waiting)
    && (s.operations[i].previous.Some? ==> HasStatus(s, s.operations[i].previous.value, Settled))
  }

  /** One step; a step that is not possible changes nothing. */
  function Next(s: QueueState, step: Step): QueueState {
    match step
    case Enqueue => Appended(s, None, false)
    case EnqueueMessage(requestId) =>
      if requestId in s.requests then s
      else Appended(s, Some(requestId), false).(requests := s.requests[requestId := |s.operations|])
    case ResumeDeferred =>
      if s.resume.Some? then s else Appended(s, None, true).(resume := Some(|s.operations|))
    case Start(i) => if MayStart(s, i) then WithStatus(s, i, Running) else s
    case Settle(i) => if HasStatus(s, i, Running) then WithStatus(s, i, Settled) else s
    case ClearTail(i) => if HasStatus(s, i, Settled) && s.tail == Some(i) then s.(tail := None) else s
    case ClearRequest(i) =>
      if HasStatus(s, i, Settled) && s.operations[i].requestId.Some?
         && s.operations[i].requestId.value in s.requests && s.requests[s.operations[i].requestId.value] == i
      then s.(requests := s.requests - {s.operations[i].requestId.value}) else s
    case ClearResume(i) =>
      if HasStatus(s, i, Settled) && s.operations[i].resumes then
        s.(resume := if s.resume == Some(i) then None else s.resume, tail := if s.tail == Some(i) then None else s.tail)
      else s
  }

  function After(s: QueueState, steps: seq<Step>): QueueState {
    if steps == [] then s else Next(After(s, steps[..|steps| - 1]), steps[|steps| - 1])
  }

  // ---------------------------------------------------------------- the tables as the process keeps them

  class Executor {
    var operations: seq<Operation>
    var tail: Option<nat>
    var requests: map<string, nat>
    var resume: Option<nat>

    ghost function View(): QueueState
      reads this
    {
      QueueState(operations, tail, requests, resume)
    }

    constructor ()
      ensures View() == EMPTY
    {
      operations, tail, requests, resume := [], None, map[], None;
    }

    /** Queue an operation behind the current tail and make it the tail. */
    method EnqueueExecutorOperation(requestId: Option<string>, resumes: bool) returns (execution: nat)
      modifies this`operations, this`tail
      ensures execution == old(|operations|) && View() == Appended(old(View()), requestId, resumes)
    {
      var previous := tail;
      execution := |operations|;
      operations := operations + [Operation(previous, requestId, resumes, Waiting)];
      tail := Some(execution);
    }

    /** A request id that is already in flight shares the operation it has. */
    method ExecuteCommittedAgentMessage(requestId: string) returns (execution: nat)
      modifies this
      ensures View() == Next(old(View()), EnqueueMessage(requestId))
      ensures requestId in requests && requests[requestId] == execution
    {
      if requestId in requests {
        return requests[requestId];
      }
      execution := EnqueueExecutorOperation(Some(requestId), false);
      requests := requests[requestId := execution];
    }

    /** One deferred resume at a time; it waits for whatever is the tail, and becomes the tail. */
    method ResumeDeferredInitialOrchestration() returns (execution: nat)
      modifies this
      ensures View() == Next(old(View()), ResumeDeferred) && resume == Some(execution)
    {
      if resume.Some? {
        return resume.value;
      }
      execution := EnqueueExecutorOperation(None, true);
      resume := Some(execution);
    }

    /** The callback of an ordinary operation that has settled. */
    method Clear(execution: nat)
      requires HasStatus(View(), execution, Settled)
      modifies this
      ensures View() == Next(Next(old(View()), ClearTail(execution)), ClearRequest(execution))
    {
      if tail == Some(execution) {
        tail := None;
      }
      var requestId := operations[execution].requestId;
      if requestId.Some? && requestId.value in requests && requests[requestId.value] == execution {
        requests := requests - {requestId.value};
      }
    }

    method ClearInFlight(execution: nat)
      requires HasStatus(View(), execution, Settled) && operations[execution].resumes
      modifies this
      ensures View() == Next(old(View()), Step.ClearResume(execution))
    {
      if resume == Some(execution) {
        resume := None;
      }
      if tail == Some(execution) {
        tail := None;
      }
    }
  }

  // ---------------------------------------------------------------- the invariant

  ghost predicate SettledBefore(s: QueueState, i: nat) {
    forall j: nat :: j < i && j < |s.operations| ==> s.operations[j].status == Settled
  }

  predicate Unsettled(s: QueueState, i: nat) {
    i < |s.operations| && s.operations[i].status != Settled
  }

  ghost predicate Ordered(s: QueueState) {
    && (forall i: nat :: i < |s.operations| ==>
          (s.operations[i].status != Waiting || s.operations[i].previous.None?) ==> SettledBefore(s, i))
    && (forall i: nat :: i < |s.operations| && s.operations[i].previous.Some? ==>
          s.operations[i].previous.value + 1 == i)
    && (s.tail.Some? ==> s.tail.value + 1 == |s.operations|)
    && (s.tail.None? ==> SettledBefore(s, |s.operations|))
  }

  ghost predicate Tabled(s: QueueState) {
    && (forall i: nat :: Unsettled(s, i) && s.operations[i].requestId.Some? ==>
          s.operations[i].requestId.value in s.requests && s.requests[s.operations[i].requestId.value] == i)
    && (forall i: nat :: Unsettled(s, i) && s.operations[i].resumes ==> s.resume == Some(i))
  }

  lemma ClearingKeepsOrder(s: QueueState, i: nat, t: QueueState)
    requires Ordered(s) && HasStatus(s, i, Settled) && t.operations == s.operations
    requires t.tail == s.tail || (t.tail.None? && s.tail == Some(i))
    ensures Ordered(t)
  {
    assert SettledBefore(s, i);
    forall k: nat | k < |t.operations| && (t.operations[k].status != Waiting || t.operations[k].previous.None?)
      ensures SettledBefore(t, k)
    {
      assert SettledBefore(s, k);
    }
  }

  lemma NextKeepsOrder(s: QueueState, step: Step)
    requires Ordered(s)
    ensures Ordered(Next(s, step))
  {
    var t := Next(s, step);
    if (step.ClearTail? || step.ClearResume?) && HasStatus(s, step.index, Settled) {
      ClearingKeepsOrder(s, step.index, t);
    }
  }

  lemma NextKeepsTables(s: QueueState, step: Step)
    requires Tabled(s)
    ensures Tabled(Next(s, step))
  {
  }

  lemma {:induction false} Reachable(steps: seq<Step>)
    ensures Ordered(After(EMPTY, steps)) && Tabled(After(EMPTY, steps))
  {
    if steps != [] {
      Reachable(steps[..|steps| - 1]);
      NextKeepsOrder(After(EMPTY, steps[..|steps| - 1]), steps[|steps| - 1]);
      NextKeepsTables(After(EMPTY, steps[..|steps| - 1]), steps[|steps| - 1]);
    }
  }

  // ---------------------------------------------------------------- what it means

  /** Under every interleaving at most one operation runs at a time. */
  lemma MutualExclusion(steps: seq<Step>, i: nat, j: nat)
    requires HasStatus(After(EMPTY, steps), i, Running) && HasStatus(After(EMPTY, steps), j, Running)
    ensures i == j
  {
    Reachable(steps);
    var s := After(EMPTY, steps);
    assert SettledBefore(s, i) && SettledBefore(s, j);
  }

  /** No operation starts before every operation enqueued ahead of it has settled. */
  lemma FirstInFirstOut(steps: seq<Step>, i: nat, j: nat)
    requires i < j && j < |After(EMPTY, steps).operations| && After(EMPTY, steps).operations[j].status != Waiting
    ensures HasStatus(After(EMPTY, steps), i, Settled)
  {
    Reachable(steps);
    assert SettledBefore(After(EMPTY, steps), j);
  }

  /** Without a tail there is nothing left to wait for. */
  lemma AbsentTailMeansIdle(steps: seq<Step>, i: nat)
    requires After(EMPTY, steps).tail.None? && i < |After(EMPTY, steps).operations|
    ensures HasStatus(After(EMPTY, steps), i, Settled)
  {
    Reachable(steps);
  }

  /** A request id never has two unsettled operations, and there is never more than one unsettled resume. */
  lemma InFlightOnce(steps: seq<Step>, i: nat, j: nat)
    requires Unsettled(After(EMPTY, steps), i) && Unsettled(After(EMPTY, steps), j)
    requires var operations := After(EMPTY, steps).operations;
      || (operations[i].requestId.Some? && operations[i].requestId == operations[j].requestId)
      || (operations[i].resumes && operations[j].resumes)
    ensures i == j
  {
    Reachable(steps);
  }

  /** The queue cannot get stuck: the earliest unsettled operation can start or is running. */
  lemma {:induction false} Progress(steps: seq<Step>, i: nat) returns (next: nat)
    requires Unsettled(After(EMPTY, steps), i)
    ensures next <= i && Unsettled(After(EMPTY, steps), next)
    ensures MayStart(After(EMPTY, steps), next) || HasStatus(After(EMPTY, steps), next, Running)
  {
    Reachable(steps);
    var s := After(EMPTY, steps);
    next := Earliest(s, i);
  }

  lemma {:induction false} Earliest(s: QueueState, i: nat) returns (next: nat)
    requires Unsettled(s, i)
    ensures next <= i && Unsettled(s, next) && SettledBefore(s, next)
  {
    if SettledBefore(s, i) {
      next := i;
    } else {
      var j: nat :| j < i && j < |s.operations| && s.operations[j].status != Settled;
      next := Earliest(s, j);
    }
  }

  /** A step moves on only the operation it names: from waiting to running once it may start, and then to settled. */
  lemma StepMovesOn(s: QueueState, step: Step, i: nat)
    requires i < |s.operations|
    ensures i < |Next(s, step).operations|
    ensures Next(s, step).operations[i] ==
            if step == Start(i) && MayStart(s, i) then s.operations[i].(status := Running)
            else if step == Settle(i) && s.operations[i].status == Running then s.operations[i].(status := Settled)
            else s.operations[i]
  {
  }

  /** An operation that has settled stays as it is, whatever happens later. */
  lemma {:induction false} SettledForGood(s: QueueState, later: seq<Step>, i: nat)
    requires HasStatus(s, i, Settled)
    ensures i < |After(s, later).operations| && After(s, later).operations[i] == s.operations[i]
  {
    if later != [] {
      SettledForGood(s, later[..|later| - 1], i);
      StepMovesOn(After(s, later[..|later| - 1]), later[|later| - 1], i);
    }
  }

  /** Whatever is queued, starting and settling the earliest unsettled operation leaves one fewer. */
  lemma EarliestSettles(steps: seq<Step>, i: nat) returns (next: nat)
    requires Unsettled(After(EMPTY, steps), i)
    ensures next <= i && Unsettled(After(EMPTY, steps), next)
    ensures HasStatus(After(EMPTY, steps + [Start(next), Settle(next)]), next, Settled)
  {
    next := Progress(steps, i);
    var s, longer := After(EMPTY, steps), steps + [Start(next)];
    assert longer[..|steps|] == steps;
    assert After(EMPTY, longer) == Next(s, Start(next));
    StepMovesOn(s, Start(next), next);
    assert (steps + [Start(next), Settle(next)])[..|longer|] == longer;
    StepMovesOn(Next(s, Start(next)), Settle(next), next);
  }
}
