/**
 The size and depth check on untrusted JSON values: an explicit stack that
 agrees with the recursive definitions of node count, height and content.
 */
module BoundedJson {
  import opened Wrappers

  /** What the check can tell apart about a value; texts and numbers keep only what it reads. */
  datatype JsonValue =
    | Null
    | Text
    | Boolean
    | Number(finite: bool)
    | Array(items: seq<JsonValue>)
    | Object(plain: bool, values: seq<JsonValue>)
    | Unsupported

  datatype JsonError = InvalidLimit | TooManyNodes | TooDeep | NotFinite | NotPlain | UnsupportedValue

  const DEFAULT_MAX_JSON_DEPTH := 32
  const DEFAULT_MAX_JSON_NODES := 10_000

  // ---------------------------------------------------------------- the recursive definitions

  function Children(v: JsonValue): seq<JsonValue> {
    match v
    case Array(items) => items
    case Object(_, values) => values
    case _ => []
  }

  function Nodes(v: JsonValue): (n: nat)
    ensures n >= 1
    decreases v, 0
  {
    match v
    case Array(items) => 1 + NodesOfAll(items)
    case Object(_, values) => 1 + NodesOfAll(values)
    case _ => 1
  }

  function NodesOfAll(values: seq<JsonValue>): nat {
    if values == [] then 0 else NodesOfAll(values[..|values| - 1]) + Nodes(values[|values| - 1])
  }

  function Max(a: nat, b: nat): nat {
    if a >= b then a else b
  }

  /** The depth of the deepest node below a value. */
  function Height(v: JsonValue): nat
    decreases v, 0
  {
    match v
    case Array(items) => HeightOfAll(items)
    case Object(_, values) => HeightOfAll(values)
    case _ => 0
  }

  /** One more than the height of the highest value, or zero without values. */
  function HeightOfAll(values: seq<JsonValue>): nat {
    if values == [] then 0 else Max(HeightOfAll(values[..|values| - 1]), 1 + Height(values[|values| - 1]))
  }

  /** The fault of a value's own node, if it has one. */
  function Fault(v: JsonValue): Option<JsonError> {
    match v
    case Number(finite) => if finite then None else Some(NotFinite)
    case Object(plain, _) => if plain then None else Some(NotPlain)
    case Unsupported => Some(UnsupportedValue)
    case _ => None
  }

  /** The faults found anywhere in a value. */
  function Faults(v: JsonValue): set<JsonError>
    decreases v, 0
  {
    (if Fault(v).Some? then {Fault(v).value} else {}) +
    match v
    case Array(items) => FaultsOfAll(items)
    case Object(_, values) => FaultsOfAll(values)
    case _ => {}
  }

  function FaultsOfAll(values: seq<JsonValue>): set<JsonError> {
    if values == [] then {} else FaultsOfAll(values[..|values| - 1]) + Faults(values[|values| - 1])
  }

  // ---------------------------------------------------------------- the stack

  datatype Pending = Pending(value: JsonValue, depth: nat)

  function PendingNodes(pending: seq<Pending>): nat {
    if pending == [] then 0 else PendingNodes(pending[..|pending| - 1]) + Nodes(pending[|pending| - 1].value)
  }

  /** The greatest depth any node under the pending values will be visited at. */
  function PendingDepth(pending: seq<Pending>): nat {
    if pending == [] then 0
    else Max(PendingDepth(pending[..|pending| - 1]),
             pending[|pending| - 1].depth + Height(pending[|pending| - 1].value))
  }

  function PendingFaults(pending: seq<Pending>): set<JsonError> {
    if pending == [] then {} else PendingFaults(pending[..|pending| - 1]) + Faults(pending[|pending| - 1].value)
  }

  /** The values as stack entries of one depth. */
  function Entries(values: seq<JsonValue>, depth: nat): seq<Pending>
  {
    seq(|values|, i requires 0 <= i < |values| => Pending(values[i], depth))
  }

  lemma EntriesSnoc(pending: seq<Pending>, values: seq<JsonValue>, depth: nat)
    requires values != []
    ensures var init, last := values[..|values| - 1], values[|values| - 1];
      pending + Entries(values, depth) == (pending + Entries(init, depth)) + [Pending(last, depth)]
  {
  }

  lemma {:induction false} PushedNodes(pending: seq<Pending>, values: seq<JsonValue>, depth: nat)
    ensures PendingNodes(pending + Entries(values, depth)) == PendingNodes(pending) + NodesOfAll(values)
  {
    if values == [] {
      assert pending + Entries(values, depth) == pending;
    } else {
      var init := values[..|values| - 1];
      PushedNodes(pending, init, depth);
      EntriesSnoc(pending, values, depth);
      assert ((pending + Entries(init, depth)) + [Pending(values[|values| - 1], depth)])[..|pending| + |init|]
             == pending + Entries(init, depth);
    }
  }

  lemma {:induction false} PushedDepth(pending: seq<Pending>, values: seq<JsonValue>, depth: nat)
    ensures Max(PendingDepth(pending + Entries(values, depth + 1)), depth)
            == Max(PendingDepth(pending), depth + HeightOfAll(values))
  {
    if values == [] {
      assert pending + Entries(values, depth + 1) == pending;
    } else {
      var init := values[..|values| - 1];
      PushedDepth(pending, init, depth);
      EntriesSnoc(pending, values, depth + 1);
      assert ((pending + Entries(init, depth + 1)) + [Pending(values[|values| - 1], depth + 1)])[..|pending| + |init|]
             == pending + Entries(init, depth + 1);
    }
  }

  lemma {:induction false} PushedFaults(pending: seq<Pending>, values: seq<JsonValue>, depth: nat)
    ensures PendingFaults(pending + Entries(values, depth)) == PendingFaults(pending) + FaultsOfAll(values)
  {
    if values == [] {
      assert pending + Entries(values, depth) == pending;
    } else {
      var init := values[..|values| - 1];
      PushedFaults(pending, init, depth);
      EntriesSnoc(pending, values, depth);
      assert ((pending + Entries(init, depth)) + [Pending(values[|values| - 1], depth)])[..|pending| + |init|]
             == pending + Entries(init, depth);
    }
  }

  method PushAll(pending: seq<Pending>, values: seq<JsonValue>, depth: nat) returns (pushed: seq<Pending>)
    ensures pushed == pending + Entries(values, depth)
  {
    pushed := pending;
    for i := 0 to |values|
      invariant pushed == pending + Entries(values[..i], depth)
    {
      pushed := pushed + [Pending(values[i], depth)];
    }
    assert values[..|values|] == values;
  }

  /** The stack after a value has been replaced by its children accounts for all but the value's own node. */
  ghost predicate Replaced(before: seq<Pending>, current: Pending, after: seq<Pending>) {
    && PendingNodes(after) + 1 == PendingNodes(before) + Nodes(current.value)
    && Max(PendingDepth(after), current.depth) == Max(PendingDepth(before), current.depth + Height(current.value))
    && PendingFaults(after) == PendingFaults(before) + Faults(current.value)
  }

  lemma ChildrenReplace(pending: seq<Pending>, current: Pending, children: seq<JsonValue>, after: seq<Pending>)
    requires after == pending + Entries(children, current.depth + 1)
    requires PendingNodes(after) == PendingNodes(pending) + NodesOfAll(children)
    requires Max(PendingDepth(after), current.depth)
             == Max(PendingDepth(pending), current.depth + HeightOfAll(children))
    requires PendingFaults(after) == PendingFaults(pending) + FaultsOfAll(children)
    requires children == Children(current.value) && Fault(current.value).None?
    ensures Replaced(pending, current, after)
  {
  }

  /** Pushing a faultless value's children accounts for all of it but its own node. */
  lemma PushedChildren(pending: seq<Pending>, current: Pending, children: seq<JsonValue>)
    requires children == Children(current.value) && Fault(current.value).None?
    ensures Replaced(pending, current, pending + Entries(children, current.depth + 1))
  {
    PushedNodes(pending, children, current.depth + 1);
    PushedDepth(pending, children, current.depth);
    PushedFaults(pending, children, current.depth + 1);
    ChildrenReplace(pending, current, children, pending + Entries(children, current.depth + 1));
  }

  /** One value taken off the stack: refuse it for its own fault, or push its children. */
  method Visit(pending: seq<Pending>, current: Pending) returns (r: Result<seq<Pending>, JsonError>)
    ensures r.Err? <==> Fault(current.value).Some?
    ensures r.Err? ==> Fault(current.value) == Some(r.error)
    ensures r.Ok? ==> Replaced(pending, current, r.value)
  {
    if Fault(current.value).None? {
      PushedChildren(pending, current, Children(current.value));
      assert pending + [] == pending;
    }
    match current.value
    case Null => return Ok(pending);
    case Text => return Ok(pending);
    case Boolean => return Ok(pending);
    case Number(finite) =>
      return if finite then Ok(pending) else Err(NotFinite);
    case Array(items) =>
      var pushed := PushAll(pending, items, current.depth + 1);
      return Ok(pushed);
    case Object(plain, values) =>
      if !plain {
        return Err(NotPlain);
      }
      var pushed := PushAll(pending, values, current.depth + 1);
      return Ok(pushed);
    case Unsupported => return Err(UnsupportedValue);
  }

  /** A value is accepted exactly when it is small, shallow and clean; a refusal names a real reason. */
  method AssertBoundedJsonValue(value: JsonValue, maxDepth: int, maxNodes: int) returns (r: Result<bool, JsonError>)
    ensures r.Ok? <==>
            && maxDepth >= 1 && maxNodes >= 1
            && Nodes(value) <= maxNodes && Height(value) <= maxDepth && Faults(value) == {}
    ensures r == Err(InvalidLimit) <==> maxDepth < 1 || maxNodes < 1
    ensures r == Err(TooManyNodes) ==> Nodes(value) > maxNodes
    ensures r == Err(TooDeep) ==> Height(value) > maxDepth
    ensures r.Err? && r.error !in {InvalidLimit, TooManyNodes, TooDeep} ==> r.error in Faults(value)
  {
    if maxDepth < 1 || maxNodes < 1 {
      return Err(InvalidLimit);
    }
    var pending := [Pending(value, 0)];
    assert pending[..0] == [];
    var visited := 0;
    while pending != []
      invariant 0 <= visited <= maxNodes && visited + PendingNodes(pending) == Nodes(value)
      invariant PendingDepth(pending) <= Height(value)
      invariant Height(value) <= maxDepth <==> PendingDepth(pending) <= maxDepth
      invariant PendingFaults(pending) == Faults(value)
      decreases maxNodes - visited
    {
      var current := pending[|pending| - 1];
      pending := pending[..|pending| - 1];
      visited := visited + 1;
      if visited > maxNodes {
        return Err(TooManyNodes);
      }
      if current.depth > maxDepth {
        return Err(TooDeep);
      }
      pending :- Visit(pending, current);
    }
    return Ok(true);
  }
}
