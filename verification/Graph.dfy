/** Dependency graphs over string identifiers, and the one counting argument both schedulers need. */
module Graph {

  /** Maps an identifier to the identifiers it depends on. */
  type Graph = map<string, seq<string>>

  predicate Distinct<T(==)>(s: seq<T>) {
    forall i, j :: 0 <= i < j < |s| ==> s[i] != s[j]
  }

  predicate Edge(g: Graph, from: string, to: string) {
    from in g && to in g[from]
  }

  predicate IsWalk(g: Graph, w: seq<string>) {
    forall i :: 0 <= i < |w| - 1 ==> Edge(g, w[i], w[i + 1])
  }

  predicate IsCycle(g: Graph, w: seq<string>) {
    |w| >= 2 && IsWalk(g, w) && w[0] == w[|w| - 1]
  }

  ghost predicate Acyclic(g: Graph) {
    forall w: seq<string> :: !IsCycle(g, w)
  }

  function IndexOf(ids: seq<string>, id: string): (i: nat)
    requires id in ids
    ensures i < |ids| && ids[i] == id
  {
    if ids[0] == id then 0 else 1 + IndexOf(ids[1..], id)
  }

  ghost predicate HasSuccessorIn(g: Graph, u: set<string>, from: string) {
    exists to :: to in u && Edge(g, from, to)
  }

  /** Every member of `u` depends on a member of `u`. */
  ghost predicate Stuck(g: Graph, u: set<string>) {
    u != {} && forall a {:trigger HasSuccessorIn(g, u, a)} | a in u :: HasSuccessorIn(g, u, a)
  }

  /** Some position repeats when a sequence is longer than the set it draws from. */
  lemma {:induction false} Pigeonhole(s: seq<string>, u: set<string>) returns (i: nat, j: nat)
    requires |s| > |u| && forall x | x in s :: x in u
    ensures i < j < |s| && s[i] == s[j]
  {
    var rest := s[1..];
    if s[0] in rest {
      j :| 0 < j < |s| && s[j] == s[0];
      i := 0;
    } else {
      i, j := Pigeonhole(rest, u - {s[0]});
      i, j := i + 1, j + 1;
    }
  }

  /** A walk of any length can be taken inside a set that every member can step within. */
  lemma {:induction false} WalkInside(g: Graph, u: set<string>, n: nat) returns (w: seq<string>)
    requires Stuck(g, u)
    ensures |w| == n + 1 && IsWalk(g, w) && forall x | x in w :: x in u
  {
    if n == 0 {
      var a :| a in u;
      w := [a];
    } else {
      var shorter := WalkInside(g, u, n - 1);
      var last := shorter[n - 1];
      assert HasSuccessorIn(g, u, last);
      var b :| b in u && Edge(g, last, b);
      w := shorter + [b];
    }
  }

  /** A nonempty set in which every member depends on a member contains a cycle. */
  lemma StuckSetHasCycle(g: Graph, u: set<string>)
    requires Stuck(g, u)
    ensures !Acyclic(g)
  {
    var w := WalkInside(g, u, |u|);
    var i, j := Pigeonhole(w, u);
    var cycle := w[i..j + 1];
    assert IsWalk(g, cycle) by {
      forall k | 0 <= k < |cycle| - 1 ensures Edge(g, cycle[k], cycle[k + 1]) {
        assert Edge(g, w[i + k], w[i + k + 1]);
      }
    }
    assert IsCycle(g, cycle);
  }
}
