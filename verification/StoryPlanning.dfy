/** Validation and dependency ordering of a story plan: Kahn's algorithm over the stories' dependencies. */
module StoryPlanning {
  import opened Wrappers
  import opened Graph

  datatype UserStory = UserStory(id: string, dependencies: seq<string>, writable: bool)

  datatype PlanIssue =
    | EmptyPlan
    | NotASlug(id: string)
    | DuplicateId(id: string)
    | SelfDependency(id: string)
    | UnknownDependency(id: string, dependency: string)
    | NothingWritable
    | DependencyCycle

  function Ids(stories: seq<UserStory>): (ids: seq<string>)
    ensures |ids| == |stories|
    ensures forall i :: 0 <= i < |ids| ==> ids[i] == stories[i].id
  {
    seq(|stories|, i requires 0 <= i < |stories| => stories[i].id)
  }

  function IdSet(stories: seq<UserStory>): set<string> {
    set story | story in stories :: story.id
  }

  ghost function GraphOf(stories: seq<UserStory>): Graph {
    map id | id in Ids(stories) :: stories[IndexOf(Ids(stories), id)].dependencies
  }

  /** What validation has established before ordering starts. */
  predicate Validated(stories: seq<UserStory>) {
    && Distinct(Ids(stories))
    && forall story | story in stories ::
         forall d | d in story.dependencies :: d != story.id && d in Ids(stories)
  }

  predicate DistinctDependencies(stories: seq<UserStory>) {
    forall story | story in stories :: Distinct(story.dependencies)
  }

  /** Every dependency occurs strictly before the story that names it. */
  predicate DependencyOrdered(order: seq<UserStory>) {
    forall i :: 0 <= i < |order| ==> forall d | d in order[i].dependencies :: d in Ids(order[..i])
  }

  ghost predicate IsDependencyOrder(stories: seq<UserStory>, order: seq<UserStory>) {
    multiset(order) == multiset(stories) && DependencyOrdered(order)
  }

  // ---------------------------------------------------------------- counting resolved dependencies

  ghost function Resolved(dependencies: seq<string>, done: set<string>): set<string> {
    set d | d in dependencies && d in done
  }

  /** The value the remaining-dependency map holds for a story once `done` has been ordered. */
  ghost function Pending(story: UserStory, done: set<string>): int {
    if story.id in done then -1 else |story.dependencies| - |Resolved(story.dependencies, done)|
  }

  lemma {:induction false} DistinctCount(s: seq<string>, u: set<string>)
    requires u == set x | x in s
    ensures |u| <= |s|
    ensures |u| == |s| <==> Distinct(s)
  {
    if s == [] {
      assert u == {};
      assert Distinct(s);
    } else {
      var rest := s[1..];
      var smaller := set x | x in rest;
      DistinctCount(rest, smaller);
      assert s == [s[0]] + rest;
      assert u == smaller + {s[0]};
      DistinctCons(s[0], rest);
      assert s[0] in smaller <==> s[0] in rest;
      if s[0] in smaller {
        assert u == smaller;
      }
    }
  }

  lemma DistinctCons(x: string, rest: seq<string>)
    ensures Distinct([x] + rest) <==> Distinct(rest) && x !in rest
  {
    var s := [x] + rest;
    if Distinct(s) {
      forall i, j | 0 <= i < j < |rest| ensures rest[i] != rest[j] {
        assert s[i + 1] != s[j + 1];
      }
      forall j | 0 <= j < |rest| ensures rest[j] != x {
        assert s[0] != s[j + 1];
      }
    }
  }

  /** A story's count reaches zero exactly when its list has no duplicate and is entirely done. */
  lemma ZeroMeansAllResolved(dependencies: seq<string>, done: set<string>)
    ensures |Resolved(dependencies, done)| <= |dependencies|
    ensures |Resolved(dependencies, done)| == |dependencies| <==>
            Distinct(dependencies) && forall d | d in dependencies :: d in done
  {
    var all := set d | d in dependencies;
    var resolved := Resolved(dependencies, done);
    DistinctCount(dependencies, all);
    assert resolved <= all;
    SubsetSize(resolved, all);
    if forall d | d in dependencies :: d in done {
      assert resolved == all;
    } else {
      var d :| d in dependencies && d !in done;
      assert d in all && d !in resolved;
    }
  }

  lemma SubsetSize(a: set<string>, b: set<string>)
    requires a <= b
    ensures |a| <= |b|
    ensures |a| == |b| ==> a == b
  {
    assert b == a + (b - a);
    assert |b| == |a| + |b - a|;
  }

  lemma ResolveOne(story: UserStory, done: set<string>, x: string)
    requires x !in done && x != story.id
    requires story.id in done ==> x !in story.dependencies
    ensures Pending(story, done + {x}) == Pending(story, done) - (if x in story.dependencies then 1 else 0)
  {
    var before := Resolved(story.dependencies, done);
    var after := Resolved(story.dependencies, done + {x});
    if x in story.dependencies {
      assert after == before + {x};
    } else {
      assert after == before;
    }
  }

  // ---------------------------------------------------------------- orders and cycles

  lemma DistinctIndex(ids: seq<string>, i: nat)
    requires Distinct(ids) && i < |ids|
    ensures IndexOf(ids, ids[i]) == i
  {
  }

  lemma MemberAt(stories: seq<UserStory>, story: UserStory) returns (i: nat)
    requires story in stories
    ensures i < |stories| && stories[i] == story && Ids(stories)[i] == story.id
  {
    i :| 0 <= i < |stories| && stories[i] == story;
  }

  lemma GraphAt(stories: seq<UserStory>, story: UserStory)
    requires Distinct(Ids(stories)) && story in stories
    ensures story.id in GraphOf(stories) && GraphOf(stories)[story.id] == story.dependencies
  {
    var i := MemberAt(stories, story);
    DistinctIndex(Ids(stories), i);
  }

  lemma RemoveAt(stories: seq<UserStory>, i: nat) returns (rest: seq<UserStory>)
    requires i < |stories|
    ensures |rest| == |stories| - 1 && multiset(stories) == multiset(rest) + multiset{stories[i]}
    ensures forall story | story in stories && story != stories[i] :: story in rest
  {
    rest := stories[..i] + stories[i + 1..];
    assert stories == stories[..i] + ([stories[i]] + stories[i + 1..]);
    forall story | story in stories && story != stories[i] ensures story in rest {
      assert story in multiset(stories);
    }
  }

  /** Distinct picks from the plan, as many as the plan has, are a permutation of it. */
  lemma {:induction false} PicksArePermutation(picks: seq<UserStory>, stories: seq<UserStory>)
    requires Distinct(Ids(picks)) && forall story | story in picks :: story in stories
    ensures |picks| <= |stories|
    ensures |picks| == |stories| ==> multiset(picks) == multiset(stories)
  {
    if picks != [] {
      var i := MemberAt(stories, picks[0]);
      var rest := RemoveAt(stories, i);
      PicksArePermutation(picks[1..], rest);
      assert picks == [picks[0]] + picks[1..];
    }
  }

  lemma {:induction false} WalkDescends(stories: seq<UserStory>, order: seq<UserStory>, w: seq<string>, last: nat)
    requires Distinct(Ids(stories)) && Distinct(Ids(order)) && DependencyOrdered(order)
    requires forall story | story in order :: story in stories
    requires IsWalk(GraphOf(stories), w) && 1 <= last < |w| && w[0] in Ids(order)
    ensures w[last] in Ids(order) && IndexOf(Ids(order), w[last]) < IndexOf(Ids(order), w[0])
  {
    if last > 1 {
      WalkDescends(stories, order, w, last - 1);
    }
    var from := w[last - 1];
    assert Edge(GraphOf(stories), from, w[last]);
    var i := IndexOf(Ids(order), from);
    GraphAt(stories, order[i]);
    assert w[last] in Ids(order[..i]);
    var j := IndexOf(Ids(order[..i]), w[last]);
    assert Ids(order)[j] == w[last];
    DistinctIndex(Ids(order), j);
  }

  /** A plan that has a dependency order has no dependency cycle. */
  lemma OrderedIsAcyclic(stories: seq<UserStory>, order: seq<UserStory>)
    requires Distinct(Ids(stories)) && Distinct(Ids(order)) && IsDependencyOrder(stories, order)
    ensures Acyclic(GraphOf(stories))
  {
    forall w: seq<string> ensures !IsCycle(GraphOf(stories), w) {
      if IsCycle(GraphOf(stories), w) {
        assert Edge(GraphOf(stories), w[0], w[1]);
        var k := IndexOf(Ids(stories), w[0]);
        assert stories[k] in multiset(order);
        var i := MemberAt(order, stories[k]);
        assert w[0] in Ids(order);
        forall story | story in order ensures story in stories {
          assert story in multiset(stories);
        }
        WalkDescends(stories, order, w, |w| - 1);
        assert false;
      }
    }
  }

  /** When no count is zero and no list repeats a name, the unordered stories hold a cycle. */
  lemma StuckIsCyclic(stories: seq<UserStory>, done: set<string>)
    requires Validated(stories) && DistinctDependencies(stories)
    requires forall story | story in stories :: Pending(story, done) != 0
    requires exists story :: story in stories && story.id !in done
    ensures !Acyclic(GraphOf(stories))
  {
    var stuck := set story | story in stories && story.id !in done :: story.id;
    var g := GraphOf(stories);
    forall a | a in stuck ensures HasSuccessorIn(g, stuck, a) {
      var story :| story in stories && story.id !in done && story.id == a;
      ZeroMeansAllResolved(story.dependencies, done);
      var b :| b in story.dependencies && b !in done;
      GraphAt(stories, story);
      var other := stories[IndexOf(Ids(stories), b)];
      assert other in stories && other.id == b;
      assert b in stuck && Edge(g, a, b);
    }
    var story :| story in stories && story.id !in done;
    assert story.id in stuck;
    StuckSetHasCycle(g, stuck);
  }

  // ---------------------------------------------------------------- the algorithm

  /** What the nested loops keep true of the stories ordered so far. */
  ghost predicate Progress(stories: seq<UserStory>, ordered: seq<UserStory>) {
    && (forall story | story in ordered :: story in stories)
    && Distinct(Ids(ordered))
    && DependencyOrdered(ordered)
    && DistinctDependencies(ordered)
  }

  ghost predicate Counts(stories: seq<UserStory>, remaining: map<string, int>, done: set<string>) {
    forall i :: 0 <= i < |stories| ==>
      stories[i].id in remaining && remaining[stories[i].id] == Pending(stories[i], done)
  }

  lemma IdSetIsIds(stories: seq<UserStory>, id: string)
    ensures id in IdSet(stories) <==> id in Ids(stories)
  {
    if id in IdSet(stories) {
      var s :| s in stories && s.id == id;
      var i := MemberAt(stories, s);
    }
    if id in Ids(stories) {
      assert stories[IndexOf(Ids(stories), id)] in stories;
    }
  }

  lemma OrderExtends(ordered: seq<UserStory>, story: UserStory)
    requires DependencyOrdered(ordered) && forall d | d in story.dependencies :: d in Ids(ordered)
    ensures DependencyOrdered(ordered + [story])
  {
    var longer := ordered + [story];
    forall k | 0 <= k < |longer| ensures forall d | d in longer[k].dependencies :: d in Ids(longer[..k]) {
      assert longer[..k] == if k < |ordered| then ordered[..k] else ordered;
    }
  }

  lemma ReadyFacts(ordered: seq<UserStory>, story: UserStory)
    requires Pending(story, IdSet(ordered)) == 0
    ensures story.id !in IdSet(ordered) && story.id !in Ids(ordered)
    ensures Distinct(story.dependencies) && forall d | d in story.dependencies :: d in Ids(ordered)
  {
    ZeroMeansAllResolved(story.dependencies, IdSet(ordered));
    forall d | d in story.dependencies ensures d in Ids(ordered) {
      IdSetIsIds(ordered, d);
    }
    IdSetIsIds(ordered, story.id);
  }

  lemma ProgressExtends(stories: seq<UserStory>, ordered: seq<UserStory>, story: UserStory)
    requires Progress(stories, ordered) && story in stories
    requires Pending(story, IdSet(ordered)) == 0
    ensures story.id !in IdSet(ordered)
    ensures Progress(stories, ordered + [story])
    ensures IdSet(ordered + [story]) == IdSet(ordered) + {story.id}
  {
    ReadyFacts(ordered, story);
    OrderExtends(ordered, story);
  }

  /** Ordering a story lowers the count of each story that names it, and of no other. */
  lemma DecrementCounts(stories: seq<UserStory>, ordered: seq<UserStory>, i: nat, k: nat)
    requires Validated(stories) && Progress(stories, ordered) && i < |stories| && k < |stories| && k != i
    requires stories[i].id !in IdSet(ordered)
    ensures Pending(stories[k], IdSet(ordered) + {stories[i].id})
            == Pending(stories[k], IdSet(ordered)) - (if stories[i].id in stories[k].dependencies then 1 else 0)
  {
    var other := stories[k];
    assert Ids(stories)[k] != Ids(stories)[i];
    ResolveOne(other, IdSet(ordered), stories[i].id);
  }

  lemma InputOrderIsReady(stories: seq<UserStory>, i: nat)
    requires Validated(stories) && DependencyOrdered(stories) && DistinctDependencies(stories) && i < |stories|
    ensures Pending(stories[i], IdSet(stories[..i])) == 0
  {
    var done := IdSet(stories[..i]);
    forall d | d in stories[i].dependencies ensures d in done {
      var j := IndexOf(Ids(stories[..i]), d);
      assert stories[..i][j] in stories[..i];
    }
    forall s | s in stories[..i] ensures s.id != stories[i].id {
      var j := MemberAt(stories[..i], s);
      assert Ids(stories)[j] != Ids(stories)[i];
    }
    ZeroMeansAllResolved(stories[i].dependencies, done);
  }

  /**
   Mark one story as ordered and lower the count of every story that names it:
   the inner loop of the algorithm.
   */
  method ReleaseDependents(stories: seq<UserStory>, counts: map<string, int>, i: nat,
                           ghost ordered: seq<UserStory>)
    returns (remaining: map<string, int>)
    requires Validated(stories) && Progress(stories, ordered) && i < |stories|
    requires Counts(stories, counts, IdSet(ordered)) && stories[i].id !in IdSet(ordered)
    ensures Counts(stories, remaining, IdSet(ordered) + {stories[i].id})
  {
    var id := stories[i].id;
    remaining := counts[id := -1];
    assert forall j :: 0 <= j < |stories| && j != i ==> Ids(stories)[j] != Ids(stories)[i];
    for k := 0 to |stories|
      invariant forall j :: 0 <= j < |stories| ==> stories[j].id in remaining
      invariant remaining[id] == -1
      invariant forall j :: 0 <= j < k && j != i ==>
        remaining[stories[j].id] == Pending(stories[j], IdSet(ordered) + {id})
      invariant forall j :: k <= j < |stories| && j != i ==>
        remaining[stories[j].id] == Pending(stories[j], IdSet(ordered))
    {
      assert forall j :: 0 <= j < |stories| && j != k ==> Ids(stories)[j] != Ids(stories)[k];
      if k != i {
        DecrementCounts(stories, ordered, i, k);
      } else {
        assert id !in stories[k].dependencies;
      }
      if id in stories[k].dependencies {
        remaining := remaining[stories[k].id := remaining[stories[k].id] - 1];
      }
    }
  }

  method InitialCounts(stories: seq<UserStory>) returns (remaining: map<string, int>)
    requires Distinct(Ids(stories))
    ensures Counts(stories, remaining, {})
  {
    remaining := map[];
    for i := 0 to |stories|
      invariant forall k :: 0 <= k < i ==>
        stories[k].id in remaining && remaining[stories[k].id] == |stories[k].dependencies|
    {
      assert forall k :: 0 <= k < i ==> Ids(stories)[k] != Ids(stories)[i];
      remaining := remaining[stories[i].id := |stories[i].dependencies|];
    }
    forall i | 0 <= i < |stories| ensures Pending(stories[i], {}) == |stories[i].dependencies| {
    }
  }

  ghost predicate NothingReady(stories: seq<UserStory>, done: set<string>, upTo: nat) {
    forall k :: 0 <= k < |stories| && k < upTo ==> Pending(stories[k], done) != 0
  }

  /** The order once a pass has looked at story i, which it takes when nothing that story names is left. */
  ghost function Taken(stories: seq<UserStory>, ordered: seq<UserStory>, i: nat): seq<UserStory>
    requires i < |stories|
  {
    if Pending(stories[i], IdSet(ordered)) == 0 then ordered + [stories[i]] else ordered
  }

  /** The order after a pass over the first i stories. */
  ghost function Pass(stories: seq<UserStory>, before: seq<UserStory>, i: nat): seq<UserStory>
    requires i <= |stories|
  {
    if i == 0 then before else Taken(stories, Pass(stories, before, i - 1), i - 1)
  }

  /** The order after p passes over all stories. */
  ghost function Passes(stories: seq<UserStory>, p: nat): seq<UserStory> {
    if p == 0 then [] else Pass(stories, Passes(stories, p - 1), |stories|)
  }

  lemma {:induction false} PassGrows(stories: seq<UserStory>, before: seq<UserStory>, i: nat)
    requires i <= |stories|
    ensures |before| <= |Pass(stories, before, i)|
  {
    if i > 0 {
      PassGrows(stories, before, i - 1);
    }
  }

  /** A pass that takes nothing found nothing ready. */
  lemma {:induction false} IdlePass(stories: seq<UserStory>, before: seq<UserStory>, i: nat)
    requires i <= |stories| && |Pass(stories, before, i)| == |before|
    ensures Pass(stories, before, i) == before && NothingReady(stories, IdSet(before), i)
  {
    if i > 0 {
      PassGrows(stories, before, i - 1);
      IdlePass(stories, before, i - 1);
    }
  }

  lemma TakeSnoc(stories: seq<UserStory>, i: nat)
    requires i < |stories|
    ensures stories[..i + 1] == stories[..i] + [stories[i]]
  {
  }

  /** A plan already in dependency order is taken as it stands. */
  lemma {:induction false} InputOrderIsKept(stories: seq<UserStory>, i: nat)
    requires Validated(stories) && DependencyOrdered(stories) && DistinctDependencies(stories) && i <= |stories|
    ensures Pass(stories, [], i) == stories[..i]
  {
    if i == 0 {
      assert stories[..0] == [];
    } else {
      InputOrderIsKept(stories, i - 1);
      InputOrderIsReady(stories, i - 1);
      TakeSnoc(stories, i - 1);
    }
  }

  /** A plan already in dependency order comes back as it was. */
  lemma InputOrderComesBack(stories: seq<UserStory>, order: seq<UserStory>, p: nat)
    requires Validated(stories) && DependencyOrdered(stories) && DistinctDependencies(stories)
    requires order == Passes(stories, p) && |order| == |stories|
    ensures order == stories
  {
    if p == 0 {
      assert stories == [];
    } else {
      assert stories[..|stories|] == stories;
      InputOrderIsKept(stories, |stories|);
      StaysComplete(stories, p);
    }
  }

  lemma {:induction false} StaysComplete(stories: seq<UserStory>, p: nat)
    requires Validated(stories) && p >= 1 && Passes(stories, 1) == stories
    ensures Passes(stories, p) == stories
  {
    if p > 1 {
      StaysComplete(stories, p - 1);
      NothingLeft(stories, |stories|);
    }
  }

  lemma {:induction false} NothingLeft(stories: seq<UserStory>, i: nat)
    requires i <= |stories|
    ensures Pass(stories, stories, i) == stories
  {
    if i > 0 {
      NothingLeft(stories, i - 1);
      assert stories[i - 1] in stories;
    }
  }

  /** Where a pass over the stories stands before it looks at story i. */
  ghost predicate PassAt(stories: seq<UserStory>, before: seq<UserStory>, remaining: map<string, int>,
                         ordered: seq<UserStory>, progressed: bool, i: nat) {
    && i <= |stories| && ordered == Pass(stories, before, i)
    && Progress(stories, ordered) && Counts(stories, remaining, IdSet(ordered))
    && |before| <= |ordered| && (progressed <==> |before| < |ordered|)
  }

  lemma PassSkips(stories: seq<UserStory>, before: seq<UserStory>, remaining: map<string, int>,
                  ordered: seq<UserStory>, progressed: bool, i: nat)
    requires i < |stories| && PassAt(stories, before, remaining, ordered, progressed, i)
    requires remaining[stories[i].id] != 0
    ensures PassAt(stories, before, remaining, ordered, progressed, i + 1)
  {
    assert Pending(stories[i], IdSet(ordered)) != 0;
  }

  lemma PassPicks(stories: seq<UserStory>, before: seq<UserStory>, remaining: map<string, int>,
                  ordered: seq<UserStory>, progressed: bool, i: nat, released: map<string, int>)
    requires i < |stories| && PassAt(stories, before, remaining, ordered, progressed, i)
    requires Pending(stories[i], IdSet(ordered)) == 0
    requires Counts(stories, released, IdSet(ordered) + {stories[i].id})
    ensures PassAt(stories, before, released, ordered + [stories[i]], true, i + 1)
  {
    ProgressExtends(stories, ordered, stories[i]);
  }

  /** Take story i if nothing it names is left, and release the stories that name it. */
  method TakeIfReady(stories: seq<UserStory>, counts: map<string, int>, i: nat, sofar: seq<UserStory>, took: bool,
                     ghost before: seq<UserStory>)
    returns (progressed: bool, remaining: map<string, int>, ordered: seq<UserStory>)
    requires Validated(stories) && i < |stories| && PassAt(stories, before, counts, sofar, took, i)
    ensures PassAt(stories, before, remaining, ordered, progressed, i + 1)
  {
    if counts[stories[i].id] == 0 {
      ProgressExtends(stories, sofar, stories[i]);
      remaining := ReleaseDependents(stories, counts, i, sofar);
      PassPicks(stories, before, counts, sofar, took, i, remaining);
      ordered, progressed := sofar + [stories[i]], true;
    } else {
      PassSkips(stories, before, counts, sofar, took, i);
      progressed, remaining, ordered := took, counts, sofar;
    }
  }

  /** One pass of the outer loop: order every story that is ready when its turn comes. */
  method OrderPass(stories: seq<UserStory>, counts: map<string, int>, before: seq<UserStory>)
    returns (progressed: bool, remaining: map<string, int>, ordered: seq<UserStory>)
    requires Validated(stories) && PassAt(stories, before, counts, before, false, 0)
    ensures PassAt(stories, before, remaining, ordered, progressed, |stories|)
  {
    progressed, remaining, ordered := false, counts, before;
    for i := 0 to |stories|
      invariant PassAt(stories, before, remaining, ordered, progressed, i)
    {
      progressed, remaining, ordered := TakeIfReady(stories, remaining, i, ordered, progressed, before);
    }
  }

  /**
   Kahn's algorithm. It answers with an order exactly when the dependencies are
   acyclic and no story names a dependency twice: the remaining count starts at
   the length of the list but drops once per distinct dependency. The order is
   the one repeated passes over the input leave; a plan already in dependency
   order comes back unchanged.
   */
  method TopologicalOrder(stories: seq<UserStory>) returns (r: Option<seq<UserStory>>)
    requires Validated(stories)
    ensures r.Some? ==> IsDependencyOrder(stories, r.value)
    ensures r.Some? ==> exists p :: r.value == Passes(stories, p)
    ensures r.Some? <==> Acyclic(GraphOf(stories)) && DistinctDependencies(stories)
    ensures DependencyOrdered(stories) && DistinctDependencies(stories) ==> r == Some(stories)
  {
    var remaining := InitialCounts(stories);
    var ordered: seq<UserStory> := [];
    var progressed := true;
    assert IdSet(ordered) == {};
    ghost var p := 0;
    while progressed
      invariant Progress(stories, ordered) && ordered == Passes(stories, p)
      invariant Counts(stories, remaining, IdSet(ordered))
      invariant !progressed ==> NothingReady(stories, IdSet(ordered), |stories|)
      decreases |stories| - |ordered|, progressed
    {
      ghost var before := ordered;
      progressed, remaining, ordered := OrderPass(stories, remaining, ordered);
      PicksArePermutation(ordered, stories);
      if !progressed {
        IdlePass(stories, before, |stories|);
      }
      p := p + 1;
    }
    PicksArePermutation(ordered, stories);
    if |ordered| == |stories| {
      OrderedIsAcyclic(stories, ordered);
      CompleteIsDistinct(stories, ordered);
      if DependencyOrdered(stories) {
        InputOrderComesBack(stories, ordered, p);
      }
      return Some(ordered);
    }
    IncompleteIsStuck(stories, ordered);
    if DependencyOrdered(stories) && DistinctDependencies(stories) {
      OrderedIsAcyclic(stories, stories);
    }
    return None;
  }

  lemma CompleteIsDistinct(stories: seq<UserStory>, ordered: seq<UserStory>)
    requires Progress(stories, ordered) && multiset(ordered) == multiset(stories)
    ensures DistinctDependencies(stories)
  {
    forall story | story in stories ensures Distinct(story.dependencies) {
      assert story in multiset(ordered);
    }
  }

  lemma IncompleteIsStuck(stories: seq<UserStory>, ordered: seq<UserStory>)
    requires Validated(stories) && Progress(stories, ordered) && |ordered| < |stories|
    requires NothingReady(stories, IdSet(ordered), |stories|)
    ensures !(Acyclic(GraphOf(stories)) && DistinctDependencies(stories))
  {
    if DistinctDependencies(stories) {
      if forall story | story in stories :: story.id in IdSet(ordered) {
        OrderedHasAll(stories, ordered);
        assert false;
      }
      StuckIsCyclic(stories, IdSet(ordered));
    }
  }

  lemma OrderedHasAll(stories: seq<UserStory>, ordered: seq<UserStory>)
    requires Distinct(Ids(stories)) && forall story | story in ordered :: story in stories
    requires forall story | story in stories :: story.id in IdSet(ordered)
    ensures |ordered| >= |stories|
  {
    forall story | story in stories ensures story in ordered {
      var s :| s in ordered && s.id == story.id;
      var a := MemberAt(stories, s);
      var b := MemberAt(stories, story);
    }
    PicksArePermutation(stories, ordered);
  }

  // ---------------------------------------------------------------- validation

  predicate IsSlugCharacter(c: char) {
    'a' <= c <= 'z' || '0' <= c <= '9'
  }

  /** Hyphen-separated groups of lower-case letters and digits, none of them empty. */
  predicate IsSlug(id: string) {
    && id != "" && id[0] != '-' && id[|id| - 1] != '-'
    && (forall i :: 0 <= i < |id| ==> IsSlugCharacter(id[i]) || id[i] == '-')
    && (forall i :: 0 <= i < |id| - 1 ==> !(id[i] == '-' && id[i + 1] == '-'))
  }

  /** The character codes of a to z and of 0 to 9. */
  lemma SlugCharacters(c: char)
    ensures IsSlugCharacter(c) <==> 97 <= c as int < 123 || 48 <= c as int < 58
  {
  }

  ghost predicate IsGroup(group: string) {
    group != "" && forall i :: 0 <= i < |group| ==> IsSlugCharacter(group[i])
  }

  ghost predicate AreGroups(groups: seq<string>) {
    groups != [] && forall i :: 0 <= i < |groups| ==> IsGroup(groups[i])
  }

  ghost function Hyphenated(groups: seq<string>): string
    requires groups != []
  {
    if |groups| == 1 then groups[0] else groups[0] + "-" + Hyphenated(groups[1..])
  }

  lemma GroupIsPrepended(group: string, rest: string)
    requires IsGroup(group) && IsSlug(rest)
    ensures IsSlug(group + "-" + rest)
  {
    var id, n := group + "-" + rest, |group|;
    assert forall i :: 0 <= i < n ==> id[i] == group[i] && IsSlugCharacter(group[i]);
    assert forall i :: n < i < |id| ==> id[i] == rest[i - n - 1];
  }

  lemma GroupIsTaken(id: string, k: nat)
    requires IsSlug(id) && k < |id| && id[k] == '-' && '-' !in id[..k]
    ensures IsGroup(id[..k]) && IsSlug(id[k + 1..])
  {
    forall i | 0 <= i < k ensures IsSlugCharacter(id[..k][i]) {
      assert id[..k][i] in id[..k];
    }
    var rest := id[k + 1..];
    assert forall i :: 0 <= i < |rest| ==> rest[i] == id[i + k + 1];
    assert id[k + 1] != '-';
  }

  lemma {:induction false} HyphenatedIsSlug(groups: seq<string>)
    requires AreGroups(groups)
    ensures IsSlug(Hyphenated(groups))
  {
    if |groups| > 1 {
      HyphenatedIsSlug(groups[1..]);
      GroupIsPrepended(groups[0], Hyphenated(groups[1..]));
    } else {
      assert IsGroup(groups[0]);
    }
  }

  lemma {:induction false} SlugIsHyphenated(id: string) returns (groups: seq<string>)
    requires IsSlug(id)
    ensures AreGroups(groups) && Hyphenated(groups) == id
    decreases |id|
  {
    if k :| 0 <= k < |id| && id[k] == '-' && '-' !in id[..k] {
      GroupIsTaken(id, k);
      var rest := SlugIsHyphenated(id[k + 1..]);
      groups := [id[..k]] + rest;
      assert id == id[..k] + "-" + id[k + 1..];
    } else {
      NoHyphen(id);
      groups := [id];
    }
  }

  lemma {:induction false} NoHyphen(id: string)
    requires forall k :: 0 <= k < |id| && id[k] == '-' ==> '-' in id[..k]
    ensures '-' !in id
  {
    if id != "" {
      var init := id[..|id| - 1];
      forall k | 0 <= k < |init| && init[k] == '-' ensures '-' in init[..k] {
        assert id[..k] == init[..k];
      }
      NoHyphen(init);
    }
  }

  /** An id is a slug exactly when it is groups of lower-case letters and digits, joined by single hyphens. */
  lemma SlugIffHyphenated(id: string)
    ensures IsSlug(id) <==> exists groups :: AreGroups(groups) && Hyphenated(groups) == id
  {
    if IsSlug(id) {
      var groups := SlugIsHyphenated(id);
    } else if groups :| AreGroups(groups) && Hyphenated(groups) == id {
      HyphenatedIsSlug(groups);
    }
  }

  /** A plan the controller accepts, apart from cycles. */
  predicate Acceptable(stories: seq<UserStory>) {
    && stories != []
    && Validated(stories)
    && (forall story | story in stories :: IsSlug(story.id))
    && (exists story | story in stories :: story.writable)
  }

  /** Two complaints are possible about each id: its form, and an earlier story of the same id. */
  function IdIssues(stories: seq<UserStory>): seq<PlanIssue> {
    if stories == [] then []
    else
      var init, id := stories[..|stories| - 1], stories[|stories| - 1].id;
      IdIssues(init)
      + (if IsSlug(id) then [] else [NotASlug(id)])
      + (if id in IdSet(init) then [DuplicateId(id)] else [])
  }

  /** One complaint about each dependency that is the story itself or unknown. */
  function DependencyIssues(id: string, dependencies: seq<string>, known: set<string>): seq<PlanIssue> {
    if dependencies == [] then []
    else
      var d := dependencies[|dependencies| - 1];
      DependencyIssues(id, dependencies[..|dependencies| - 1], known)
      + (if d == id then [SelfDependency(id)] else if d !in known then [UnknownDependency(id, d)] else [])
  }

  function AllDependencyIssues(stories: seq<UserStory>, known: set<string>): seq<PlanIssue> {
    if stories == [] then []
    else
      var last := stories[|stories| - 1];
      AllDependencyIssues(stories[..|stories| - 1], known) + DependencyIssues(last.id, last.dependencies, known)
  }

  /** Everything validation complains about before it orders the stories, in its order. */
  function Issues(stories: seq<UserStory>): seq<PlanIssue> {
    IdIssues(stories) + AllDependencyIssues(stories, IdSet(stories))
    + (if exists story | story in stories :: story.writable then [] else [NothingWritable])
  }

  method CollectIdIssues(stories: seq<UserStory>) returns (issues: seq<PlanIssue>, known: set<string>)
    ensures issues == IdIssues(stories) && known == IdSet(stories)
  {
    issues, known := [], {};
    for i := 0 to |stories|
      invariant issues == IdIssues(stories[..i]) && known == IdSet(stories[..i])
    {
      var id := stories[i].id;
      assert stories[..i + 1][..i] == stories[..i];
      IdSetSnoc(stories[..i + 1]);
      if !IsSlug(id) {
        issues := issues + [NotASlug(id)];
      }
      if id in known {
        issues := issues + [DuplicateId(id)];
      }
      known := known + {id};
    }
    assert stories[..|stories|] == stories;
  }

  lemma IdSetSnoc(stories: seq<UserStory>)
    requires stories != []
    ensures IdSet(stories) == IdSet(stories[..|stories| - 1]) + {stories[|stories| - 1].id}
  {
    assert stories == stories[..|stories| - 1] + [stories[|stories| - 1]];
  }

  method CollectDependencyIssues(story: UserStory, known: set<string>) returns (issues: seq<PlanIssue>)
    ensures issues == DependencyIssues(story.id, story.dependencies, known)
  {
    issues := [];
    for i := 0 to |story.dependencies|
      invariant issues == DependencyIssues(story.id, story.dependencies[..i], known)
    {
      var d := story.dependencies[i];
      assert story.dependencies[..i + 1][..i] == story.dependencies[..i];
      if d == story.id {
        issues := issues + [SelfDependency(story.id)];
      } else if d !in known {
        issues := issues + [UnknownDependency(story.id, d)];
      }
    }
    assert story.dependencies[..|story.dependencies|] == story.dependencies;
  }

  method CollectAllDependencyIssues(stories: seq<UserStory>, known: set<string>) returns (issues: seq<PlanIssue>)
    ensures issues == AllDependencyIssues(stories, known)
  {
    issues := [];
    for i := 0 to |stories|
      invariant issues == AllDependencyIssues(stories[..i], known)
    {
      assert stories[..i + 1][..i] == stories[..i];
      var more := CollectDependencyIssues(stories[i], known);
      issues := issues + more;
    }
    assert stories[..|stories|] == stories;
  }

  method CollectIssues(stories: seq<UserStory>) returns (issues: seq<PlanIssue>)
    ensures issues == Issues(stories)
  {
    var idIssues, known := CollectIdIssues(stories);
    var dependencyIssues := CollectAllDependencyIssues(stories, known);
    issues := idIssues + dependencyIssues;
    if !exists story | story in stories :: story.writable {
      issues := issues + [NothingWritable];
    } else {
      assert issues == issues + [];
    }
  }

  /** A complaint and the fault of the plan that it names. */
  ghost predicate IsFault(stories: seq<UserStory>, issue: PlanIssue) {
    match issue
    case EmptyPlan => false
    case NotASlug(id) => id in Ids(stories) && !IsSlug(id)
    case DuplicateId(id) => exists i, j :: 0 <= i < j < |stories| && stories[i].id == id == stories[j].id
    case SelfDependency(id) => exists i :: 0 <= i < |stories| && stories[i].id == id && id in stories[i].dependencies
    case UnknownDependency(id, d) =>
      d !in Ids(stories) && exists i :: 0 <= i < |stories| && stories[i].id == id && d in stories[i].dependencies
    case NothingWritable => forall story | story in stories :: !story.writable
    case DependencyCycle => false
  }

  lemma DistinctSnoc(ids: seq<string>, id: string)
    ensures Distinct(ids + [id]) <==> Distinct(ids) && id !in ids
  {
    var longer := ids + [id];
    if Distinct(longer) {
      forall i, j | 0 <= i < j < |ids| ensures ids[i] != ids[j] {
        assert longer[i] != longer[j];
      }
      forall i | 0 <= i < |ids| ensures ids[i] != id {
        assert longer[i] != longer[|ids|];
      }
    }
  }

  lemma {:induction false} IdIssuesAreFaults(stories: seq<UserStory>, issue: PlanIssue)
    ensures issue in IdIssues(stories) <==> (issue.NotASlug? || issue.DuplicateId?) && IsFault(stories, issue)
  {
    if stories != [] {
      var init, last := stories[..|stories| - 1], stories[|stories| - 1];
      IdIssuesAreFaults(init, issue);
      IdSetIsIds(init, last.id);
      FaultSnoc(init, last, issue);
      assert stories == init + [last];
    }
  }

  lemma FaultSnoc(init: seq<UserStory>, last: UserStory, issue: PlanIssue)
    ensures issue.NotASlug? ==>
      (IsFault(init + [last], issue) <==> IsFault(init, issue) || (issue == NotASlug(last.id) && !IsSlug(last.id)))
    ensures issue.DuplicateId? ==>
      (IsFault(init + [last], issue) <==>
         IsFault(init, issue) || (issue == DuplicateId(last.id) && last.id in Ids(init)))
  {
    var stories := init + [last];
    assert Ids(stories) == Ids(init) + [last.id];
    if issue.DuplicateId? {
      if IsFault(init, issue) {
        var i, j :| 0 <= i < j < |init| && init[i].id == issue.id == init[j].id;
        assert stories[i].id == issue.id == stories[j].id;
      }
      if last.id in Ids(init) && issue.id == last.id {
        var i := IndexOf(Ids(init), last.id);
        assert stories[i].id == issue.id == stories[|init|].id;
      }
      if IsFault(stories, issue) {
        var i, j :| 0 <= i < j < |stories| && stories[i].id == issue.id == stories[j].id;
        assert init[i].id == Ids(init)[i] && (j < |init| ==> init[j].id == issue.id);
      }
    }
  }

  lemma {:induction false} DependencyIssueMembers(id: string, dependencies: seq<string>, known: set<string>,
                                                  issue: PlanIssue)
    ensures issue in DependencyIssues(id, dependencies, known) <==>
            exists k :: 0 <= k < |dependencies| &&
              if dependencies[k] == id then issue == SelfDependency(id)
              else dependencies[k] !in known && issue == UnknownDependency(id, dependencies[k])
  {
    if dependencies != [] {
      var init := dependencies[..|dependencies| - 1];
      DependencyIssueMembers(id, init, known, issue);
      assert forall k :: 0 <= k < |init| ==> init[k] == dependencies[k];
    }
  }

  lemma {:induction false} AllDependencyIssueMembers(stories: seq<UserStory>, known: set<string>, issue: PlanIssue)
    ensures issue in AllDependencyIssues(stories, known) <==>
            exists i :: 0 <= i < |stories| && issue in DependencyIssues(stories[i].id, stories[i].dependencies, known)
  {
    if stories != [] {
      var init := stories[..|stories| - 1];
      AllDependencyIssueMembers(init, known, issue);
      assert forall i :: 0 <= i < |init| ==> init[i] == stories[i];
    }
  }

  lemma ComplaintIsFault(stories: seq<UserStory>, i: nat, issue: PlanIssue)
    requires i < |stories| && issue in DependencyIssues(stories[i].id, stories[i].dependencies, IdSet(stories))
    ensures (issue.SelfDependency? || issue.UnknownDependency?) && IsFault(stories, issue)
  {
    DependencyIssueMembers(stories[i].id, stories[i].dependencies, IdSet(stories), issue);
    if issue.UnknownDependency? {
      IdSetIsIds(stories, issue.dependency);
    }
  }

  lemma FaultIsComplaint(stories: seq<UserStory>, issue: PlanIssue) returns (i: nat)
    requires (issue.SelfDependency? || issue.UnknownDependency?) && IsFault(stories, issue)
    ensures i < |stories| && issue in DependencyIssues(stories[i].id, stories[i].dependencies, IdSet(stories))
  {
    var d := if issue.SelfDependency? then issue.id else issue.dependency;
    i :| 0 <= i < |stories| && stories[i].id == issue.id && d in stories[i].dependencies;
    IdSetIsIds(stories, d);
    DependencyIssueMembers(stories[i].id, stories[i].dependencies, IdSet(stories), issue);
    if issue.UnknownDependency? {
      assert Ids(stories)[i] == issue.id;
    }
  }

  lemma DependencyIssuesAreFaults(stories: seq<UserStory>, issue: PlanIssue)
    ensures issue in AllDependencyIssues(stories, IdSet(stories)) <==>
            (issue.SelfDependency? || issue.UnknownDependency?) && IsFault(stories, issue)
  {
    AllDependencyIssueMembers(stories, IdSet(stories), issue);
    if issue in AllDependencyIssues(stories, IdSet(stories)) {
      var i :| 0 <= i < |stories| && issue in DependencyIssues(stories[i].id, stories[i].dependencies, IdSet(stories));
      ComplaintIsFault(stories, i, issue);
    } else if (issue.SelfDependency? || issue.UnknownDependency?) && IsFault(stories, issue) {
      var i := FaultIsComplaint(stories, issue);
    }
  }

  /** Validation complains of exactly the faults of a plan. */
  lemma IssuesAreTheFaults(stories: seq<UserStory>, issue: PlanIssue)
    ensures issue in Issues(stories) <==> IsFault(stories, issue)
  {
    IdIssuesAreFaults(stories, issue);
    DependencyIssuesAreFaults(stories, issue);
  }

  /** A plan has no faults exactly when it is acceptable. */
  lemma AcceptableIffNoIssues(stories: seq<UserStory>)
    requires stories != []
    ensures Acceptable(stories) <==> Issues(stories) == []
  {
    if Acceptable(stories) {
      if Issues(stories) != [] {
        IssuesAreTheFaults(stories, Issues(stories)[0]);
        NoFaultIfAcceptable(stories, Issues(stories)[0]);
      }
    } else {
      var issue := FaultOf(stories);
      IssuesAreTheFaults(stories, issue);
    }
  }

  lemma NoFaultIfAcceptable(stories: seq<UserStory>, issue: PlanIssue)
    requires Acceptable(stories)
    ensures !IsFault(stories, issue)
  {
    match issue
    case NotASlug(id) =>
      if id in Ids(stories) {
        assert stories[IndexOf(Ids(stories), id)] in stories;
      }
    case DuplicateId(id) =>
      assert forall i, j :: 0 <= i < j < |stories| ==> Ids(stories)[i] != Ids(stories)[j];
    case _ =>
      assert forall i :: 0 <= i < |stories| ==> stories[i] in stories;
  }

  lemma FaultOf(stories: seq<UserStory>) returns (issue: PlanIssue)
    requires stories != [] && !Acceptable(stories)
    ensures IsFault(stories, issue)
  {
    if !Distinct(Ids(stories)) {
      var i, j :| 0 <= i < j < |stories| && Ids(stories)[i] == Ids(stories)[j];
      issue := DuplicateId(stories[i].id);
    } else if story :| story in stories && !IsSlug(story.id) {
      var i := MemberAt(stories, story);
      issue := NotASlug(story.id);
    } else if forall story | story in stories :: !story.writable {
      issue := NothingWritable;
    } else {
      var story :| story in stories && exists d :: d in story.dependencies && !(d != story.id && d in Ids(stories));
      var d :| d in story.dependencies && !(d != story.id && d in Ids(stories));
      var i := MemberAt(stories, story);
      issue := if d in Ids(stories) then SelfDependency(story.id) else UnknownDependency(story.id, d);
    }
  }

  /**
   Validation refuses an empty plan, then names every fault of the plan in order,
   then a cycle; what it accepts comes back as the order that passes leave.
   */
  method ValidateAndOrderStories(stories: seq<UserStory>) returns (r: Result<seq<UserStory>, seq<PlanIssue>>)
    ensures stories == [] ==> r == Err([EmptyPlan])
    ensures stories != [] && Issues(stories) != [] ==> r == Err(Issues(stories))
    ensures stories != [] && Issues(stories) == [] ==>
      if Acyclic(GraphOf(stories)) && DistinctDependencies(stories)
      then r.Ok? && IsDependencyOrder(stories, r.value) && exists p :: r.value == Passes(stories, p)
      else r == Err([DependencyCycle])
    ensures r.Ok? <==> Acceptable(stories) && Acyclic(GraphOf(stories)) && DistinctDependencies(stories)
    ensures r.Ok? && DependencyOrdered(stories) ==> r.value == stories
  {
    if stories == [] {
      return Err([EmptyPlan]);
    }
    AcceptableIffNoIssues(stories);
    var issues := CollectIssues(stories);
    if issues != [] {
      return Err(issues);
    }
    var ordered := TopologicalOrder(stories);
    match ordered
    case None => return Err([DependencyCycle]);
    case Some(order) => return Ok(order);
  }

  /** A duplicated dependency defeats the ordering of an acyclic plan. */
  lemma DuplicateDependencyIsNotOrdered()
    ensures var stories := [UserStory("a", [], true), UserStory("b", ["a", "a"], true)];
      && Acceptable(stories) && Acyclic(GraphOf(stories)) && DependencyOrdered(stories)
      && !DistinctDependencies(stories)
  {
    var a, b := UserStory("a", [], true), UserStory("b", ["a", "a"], true);
    var stories := [a, b];
    assert Ids(stories) == ["a", "b"];
    assert a in stories && a.writable;
    forall i | 0 <= i < |stories| ensures forall d | d in stories[i].dependencies :: d in Ids(stories[..i]) {
      assert stories[..1] == [a];
    }
    OrderedIsAcyclic(stories, stories);
    assert b.dependencies[0] == b.dependencies[1];
    assert b in stories && !Distinct(b.dependencies);
  }
}
