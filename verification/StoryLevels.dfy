/**
 How Kahn's algorithm breaks ties. A story's level is the least that lets all its
 dependencies come before it, where a dependency that the input lists later costs
 one level more. The order is by level, and by input position within a level.
 */
module StoryLevels {
  import opened Graph
  import opened StoryPlanning

  type Levels = map<string, nat>

  function Position(stories: seq<UserStory>, id: string): nat {
    if id in Ids(stories) then IndexOf(Ids(stories), id) else |stories|
  }

  /** The level that one dependency asks of a story. */
  function Asked(stories: seq<UserStory>, levels: Levels, d: string, id: string): nat
    requires d in levels
  {
    levels[d] + if Position(stories, d) > Position(stories, id) then 1 else 0
  }

  /** A story's level is the greatest that a dependency asks of it, or zero. */
  ghost predicate IsLevelOf(stories: seq<UserStory>, levels: Levels, story: UserStory) {
    && story.id in levels
    && (forall d :: d in story.dependencies ==> d in levels && Asked(stories, levels, d, story.id) <= levels[story.id])
    && (levels[story.id] > 0 ==>
          exists d :: d in story.dependencies && d in levels && Asked(stories, levels, d, story.id) == levels[story.id])
  }

  /** By level, then by position in the input. */
  predicate Before(stories: seq<UserStory>, levels: Levels, a: string, b: string)
    requires a in levels && b in levels
  {
    levels[a] < levels[b] || (levels[a] == levels[b] && Position(stories, a) < Position(stories, b))
  }

  ghost predicate InLevelOrder(stories: seq<UserStory>, levels: Levels, order: seq<UserStory>) {
    && (forall i :: 0 <= i < |order| ==> order[i].id in levels)
    && forall i, j :: 0 <= i < j < |order| ==> Before(stories, levels, order[i].id, order[j].id)
  }

  // ---------------------------------------------------------------- levels are the passes

  /** Some dependency keeps the story from a level below p. */
  ghost predicate HeldBack(stories: seq<UserStory>, levels: Levels, story: UserStory, p: nat) {
    exists d :: d in story.dependencies && (d !in levels || Asked(stories, levels, d, story.id) >= p)
  }

  /** The levels given so far are those of the stories ordered so far, and order them. */
  ghost predicate Fits(stories: seq<UserStory>, levels: Levels, order: seq<UserStory>) {
    && levels.Keys == IdSet(order) && InLevelOrder(stories, levels, order)
    && forall story {:trigger IsLevelOf(stories, levels, story)} :: story in order ==> IsLevelOf(stories, levels, story)
  }

  /** No level is above p, and level p has gone to the first i stories only. */
  ghost predicate Bounded(stories: seq<UserStory>, levels: Levels, p: nat, i: nat) {
    forall id :: id in levels ==> levels[id] <= p && (levels[id] == p ==> Position(stories, id) < i)
  }

  /** A story without a level waits for level p + 1 if pass p has looked at it, and for level p otherwise. */
  ghost predicate Waits(stories: seq<UserStory>, levels: Levels, p: nat, i: nat, k: nat) {
    k < |stories| && stories[k].id !in levels ==>
      && (k < i ==> HeldBack(stories, levels, stories[k], p + 1))
      && (k >= i && p > 0 ==> HeldBack(stories, levels, stories[k], p))
  }

  ghost predicate RestWaits(stories: seq<UserStory>, levels: Levels, p: nat, i: nat) {
    forall k: nat :: Waits(stories, levels, p, i, k)
  }

  /** What is known of the levels once pass p has looked at the first i stories. */
  ghost predicate Levelled(stories: seq<UserStory>, levels: Levels, order: seq<UserStory>, p: nat, i: nat) {
    Fits(stories, levels, order) && Bounded(stories, levels, p, i) && RestWaits(stories, levels, p, i)
  }

  lemma PositionAt(stories: seq<UserStory>, i: nat)
    requires Validated(stories) && i < |stories|
    ensures Position(stories, stories[i].id) == i
  {
    DistinctIndex(Ids(stories), i);
  }

  /** Giving story i level p moves no level, and holds back what it held back before. */
  lemma StillHeldBack(stories: seq<UserStory>, levels: Levels, story: UserStory, p: nat, i: nat, q: nat)
    requires Validated(stories) && i < |stories| && stories[i].id !in levels
    requires q <= p + (if Position(stories, story.id) < i then 1 else 0) && HeldBack(stories, levels, story, q)
    ensures HeldBack(stories, levels[stories[i].id := p], story, q)
  {
    PositionAt(stories, i);
    var d :| d in story.dependencies && (d !in levels || Asked(stories, levels, d, story.id) >= q);
    var next := levels[stories[i].id := p];
    assert d !in next || Asked(stories, next, d, story.id) >= q;
  }

  /** A story that pass p takes has level p. */
  lemma TakenLevel(stories: seq<UserStory>, levels: Levels, p: nat, i: nat)
    requires Validated(stories) && i < |stories| && stories[i].id !in levels
    requires Bounded(stories, levels, p, i)
    requires forall d :: d in stories[i].dependencies ==> d in levels
    requires Waits(stories, levels, p, i, i)
    ensures IsLevelOf(stories, levels[stories[i].id := p], stories[i])
  {
    var story, next := stories[i], levels[stories[i].id := p];
    PositionAt(stories, i);
    forall d | d in story.dependencies ensures d in next && Asked(stories, next, d, story.id) <= p {
      assert d != story.id;
    }
    if p > 0 {
      var d :| d in story.dependencies && (d !in levels || Asked(stories, levels, d, story.id) >= p);
      assert Asked(stories, next, d, story.id) == p;
    }
  }

  /** A story that is taken later keeps the levels of those before it. */
  lemma LevelKept(stories: seq<UserStory>, levels: Levels, story: UserStory, id: string, p: nat)
    requires IsLevelOf(stories, levels, story) && id !in levels
    ensures IsLevelOf(stories, levels[id := p], story)
  {
    var next := levels[id := p];
    forall d | d in story.dependencies ensures d in next && Asked(stories, next, d, story.id) <= next[story.id] {
      assert d in levels;
    }
    if next[story.id] > 0 {
      var d :| d in story.dependencies && d in levels && Asked(stories, levels, d, story.id) == levels[story.id];
      assert Asked(stories, next, d, story.id) == next[story.id];
    }
  }

  lemma OrderKept(stories: seq<UserStory>, levels: Levels, order: seq<UserStory>, p: nat, i: nat)
    requires Validated(stories) && i < |stories| && stories[i].id !in levels
    requires InLevelOrder(stories, levels, order) && Bounded(stories, levels, p, i)
    ensures InLevelOrder(stories, levels[stories[i].id := p], order + [stories[i]])
  {
    PositionAt(stories, i);
    var next, longer := levels[stories[i].id := p], order + [stories[i]];
    forall a | 0 <= a < |order| ensures order[a].id in levels && next[order[a].id] == levels[order[a].id] {
    }
    forall a, b | 0 <= a < b < |longer| ensures Before(stories, next, longer[a].id, longer[b].id) {
      if b < |order| {
        assert Before(stories, levels, order[a].id, order[b].id);
      }
    }
  }

  lemma ReadyIsUnplaced(stories: seq<UserStory>, levels: Levels, order: seq<UserStory>, i: nat)
    requires i < |stories| && levels.Keys == IdSet(order) && Pending(stories[i], IdSet(order)) == 0
    ensures stories[i].id !in levels && forall d :: d in stories[i].dependencies ==> d in levels
  {
    ZeroMeansAllResolved(stories[i].dependencies, IdSet(order));
  }

  lemma PickFits(stories: seq<UserStory>, levels: Levels, order: seq<UserStory>, p: nat, i: nat)
    requires Validated(stories) && i < |stories| && stories[i].id !in levels
    requires Fits(stories, levels, order) && Bounded(stories, levels, p, i)
    requires IsLevelOf(stories, levels[stories[i].id := p], stories[i])
    ensures Fits(stories, levels[stories[i].id := p], order + [stories[i]])
  {
    OrderKept(stories, levels, order, p, i);
    forall story | story in order ensures IsLevelOf(stories, levels[stories[i].id := p], story) {
      LevelKept(stories, levels, story, stories[i].id, p);
    }
  }

  /** What pass p has looked at, and what it has still to look at, stays held back once story i is taken. */
  lemma PickLeavesRestWaiting(stories: seq<UserStory>, levels: Levels, p: nat, i: nat)
    requires Validated(stories) && i < |stories| && stories[i].id !in levels && RestWaits(stories, levels, p, i)
    ensures RestWaits(stories, levels[stories[i].id := p], p, i + 1)
  {
    var next := levels[stories[i].id := p];
    var at := i + 1;
    forall k: nat ensures Waits(stories, next, p, at, k) {
      assert Waits(stories, levels, p, i, k);
      if k < |stories| && stories[k].id !in next {
        PositionAt(stories, k);
        if k < i {
          StillHeldBack(stories, levels, stories[k], p, i, p + 1);
        } else if p > 0 && k > i {
          StillHeldBack(stories, levels, stories[k], p, i, p);
        }
      }
    }
  }

  lemma PickStaysBounded(stories: seq<UserStory>, levels: Levels, p: nat, i: nat)
    requires Validated(stories) && i < |stories| && Bounded(stories, levels, p, i)
    ensures Bounded(stories, levels[stories[i].id := p], p, i + 1)
  {
    PositionAt(stories, i);
  }

  /** The pass takes story i. */
  lemma LevelledPick(stories: seq<UserStory>, levels: Levels, order: seq<UserStory>, p: nat, i: nat)
    requires Validated(stories) && i < |stories| && Levelled(stories, levels, order, p, i)
    requires Pending(stories[i], IdSet(order)) == 0
    ensures Levelled(stories, levels[stories[i].id := p], order + [stories[i]], p, i + 1)
  {
    ReadyIsUnplaced(stories, levels, order, i);
    TakenLevel(stories, levels, p, i);
    PickFits(stories, levels, order, p, i);
    PickStaysBounded(stories, levels, p, i);
    PickLeavesRestWaiting(stories, levels, p, i);
  }

  /** The pass leaves story i, which is ordered already or waits for something. */
  lemma LevelledSkip(stories: seq<UserStory>, levels: Levels, order: seq<UserStory>, p: nat, i: nat)
    requires Validated(stories) && DistinctDependencies(stories) && i < |stories|
    requires Levelled(stories, levels, order, p, i) && Pending(stories[i], IdSet(order)) != 0
    ensures Levelled(stories, levels, order, p, i + 1)
  {
    if stories[i].id !in levels {
      assert stories[i] in stories;
      ZeroMeansAllResolved(stories[i].dependencies, IdSet(order));
      var d :| d in stories[i].dependencies && d !in IdSet(order);
      assert HeldBack(stories, levels, stories[i], p + 1);
    }
    var at := i + 1;
    forall k: nat ensures Waits(stories, levels, p, at, k) {
      assert Waits(stories, levels, p, i, k);
    }
  }

  ghost predicate HasLevels(stories: seq<UserStory>, order: seq<UserStory>, p: nat, i: nat) {
    exists levels :: Levelled(stories, levels, order, p, i)
  }

  lemma NoLevelsYet(stories: seq<UserStory>)
    ensures HasLevels(stories, [], 0, 0)
  {
    assert Levelled(stories, map[], [], 0, 0);
  }

  /** The next pass starts where the last one ended. */
  lemma NextPass(stories: seq<UserStory>, order: seq<UserStory>, p: nat)
    requires HasLevels(stories, order, p, |stories|)
    ensures HasLevels(stories, order, p + 1, 0)
  {
    var levels :| Levelled(stories, levels, order, p, |stories|);
    var next := p + 1;
    forall k: nat ensures Waits(stories, levels, next, 0, k) {
      assert Waits(stories, levels, p, |stories|, k);
    }
    assert Levelled(stories, levels, order, p + 1, 0);
  }

  lemma LevelledStep(stories: seq<UserStory>, order: seq<UserStory>, p: nat, i: nat)
    requires Validated(stories) && DistinctDependencies(stories) && i < |stories| && HasLevels(stories, order, p, i)
    ensures HasLevels(stories, Taken(stories, order, i), p, i + 1)
  {
    var levels :| Levelled(stories, levels, order, p, i);
    if Pending(stories[i], IdSet(order)) == 0 {
      LevelledPick(stories, levels, order, p, i);
    } else {
      LevelledSkip(stories, levels, order, p, i);
    }
  }

  lemma {:induction false} PassIsLevelled(stories: seq<UserStory>, before: seq<UserStory>, p: nat, i: nat)
    requires Validated(stories) && DistinctDependencies(stories) && i <= |stories| && HasLevels(stories, before, p, 0)
    ensures HasLevels(stories, Pass(stories, before, i), p, i)
  {
    if i > 0 {
      PassIsLevelled(stories, before, p, i - 1);
      LevelledStep(stories, Pass(stories, before, i - 1), p, i - 1);
    }
  }

  lemma {:induction false} PassesAreLevelled(stories: seq<UserStory>, p: nat)
    requires Validated(stories) && DistinctDependencies(stories)
    ensures HasLevels(stories, Passes(stories, p), p, 0)
  {
    if p == 0 {
      NoLevelsYet(stories);
    } else {
      PassesAreLevelled(stories, p - 1);
      PassIsLevelled(stories, Passes(stories, p - 1), p - 1, |stories|);
      NextPass(stories, Passes(stories, p), p - 1);
    }
  }

  /** An order that passes leave is by level, and by input position within a level. */
  lemma TiesBreakByLevel(stories: seq<UserStory>, order: seq<UserStory>, p: nat) returns (levels: Levels)
    requires Validated(stories) && DistinctDependencies(stories) && order == Passes(stories, p)
    ensures InLevelOrder(stories, levels, order)
    ensures forall story :: story in order ==> IsLevelOf(stories, levels, story)
  {
    PassesAreLevelled(stories, p);
    levels :| Levelled(stories, levels, order, p, 0);
    forall story | story in order ensures IsLevelOf(stories, levels, story) {
    }
  }

  /** The levels of an ordered plan are determined by its dependencies and its input order. */
  lemma {:induction false} LevelsAreDetermined(stories: seq<UserStory>, order: seq<UserStory>, a: Levels, b: Levels,
                                               n: nat)
    requires DependencyOrdered(order) && n <= |order|
    requires forall story :: story in order ==> IsLevelOf(stories, a, story) && IsLevelOf(stories, b, story)
    ensures forall i :: 0 <= i < n ==> order[i].id in a && order[i].id in b && a[order[i].id] == b[order[i].id]
  {
    if n > 0 {
      LevelsAreDetermined(stories, order, a, b, n - 1);
      var story := order[n - 1];
      assert story in order;
      forall d | d in story.dependencies ensures d in a && d in b && a[d] == b[d] {
        assert d in Ids(order[..n - 1]);
        var k := IndexOf(Ids(order[..n - 1]), d);
        assert order[k].id == d;
      }
      assert a[story.id] <= b[story.id] && b[story.id] <= a[story.id] by {
        if a[story.id] > 0 {
          var d :| d in story.dependencies && d in a && Asked(stories, a, d, story.id) == a[story.id];
          assert Asked(stories, b, d, story.id) <= b[story.id];
        }
        if b[story.id] > 0 {
          var d :| d in story.dependencies && d in b && Asked(stories, b, d, story.id) == b[story.id];
          assert Asked(stories, a, d, story.id) <= a[story.id];
        }
      }
    }
  }
}
