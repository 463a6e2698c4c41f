/** After everything startable has been started, the scheduler has nothing more to start. */
module SchedulingProgress {
  import opened Graph
  import opened Scheduling

  /** How many stories carry an id from the list. */
  ghost function CountIn(stories: seq<SchedulableStory>, ids: seq<string>): nat {
    if stories == [] then 0
    else CountIn(stories[..|stories| - 1], ids) + (if stories[|stories| - 1].id in ids then 1 else 0)
  }

  lemma {:induction false} CountInSnoc(stories: seq<SchedulableStory>, ids: seq<string>, x: string)
    requires x !in ids
    ensures CountIn(stories, ids + [x]) == CountIn(stories, ids) + CountIn(stories, [x])
  {
    if stories != [] {
      CountInSnoc(stories[..|stories| - 1], ids, x);
    }
  }

  lemma {:induction false} CountInNone(stories: seq<SchedulableStory>, x: string)
    requires x !in Ids(stories)
    ensures CountIn(stories, [x]) == 0
  {
    if stories != [] {
      var init, last := stories[..|stories| - 1], stories[|stories| - 1];
      assert Ids(stories) == Ids(init) + [last.id];
      CountInNone(init, x);
    }
  }

  lemma {:induction false} CountInOne(stories: seq<SchedulableStory>, x: string)
    requires Distinct(Ids(stories)) && x in Ids(stories)
    ensures CountIn(stories, [x]) == 1
  {
    var init, last := stories[..|stories| - 1], stories[|stories| - 1];
    assert Ids(stories) == Ids(init) + [last.id];
    assert forall i :: 0 <= i < |init| ==> Ids(stories)[i] != last.id;
    if last.id == x {
      CountInNone(init, x);
    } else {
      assert forall i, j :: 0 <= i < j < |init| ==> Ids(stories)[i] != Ids(stories)[j];
      CountInOne(init, x);
    }
  }

  /** Distinct known ids are carried by as many stories. */
  lemma {:induction false} CountInAll(stories: seq<SchedulableStory>, ids: seq<string>)
    requires Distinct(Ids(stories)) && Distinct(ids) && forall id | id in ids :: id in Ids(stories)
    ensures CountIn(stories, ids) == |ids|
  {
    if ids == [] {
      CountInEmpty(stories);
    } else {
      var init, last := ids[..|ids| - 1], ids[|ids| - 1];
      assert ids == init + [last];
      assert forall i :: 0 <= i < |init| ==> ids[i] != last;
      CountInAll(stories, init);
      CountInSnoc(stories, init, last);
      CountInOne(stories, last);
    }
  }

  lemma {:induction false} CountInEmpty(stories: seq<SchedulableStory>)
    ensures CountIn(stories, []) == 0
  {
    if stories != [] {
      CountInEmpty(stories[..|stories| - 1]);
    }
  }

  /** `after` is `before` once the listed pending stories run; nothing else changes class. */
  ghost predicate StartedFrom(before: seq<SchedulableStory>, after: seq<SchedulableStory>, started: seq<string>) {
    && |after| == |before|
    && forall i :: 0 <= i < |before| ==>
         && after[i].id == before[i].id
         && after[i].dependencies == before[i].dependencies
         && after[i].status == if before[i].id in started then Running else before[i].status
  }

  lemma {:induction false} CountRunningAfter(before: seq<SchedulableStory>, after: seq<SchedulableStory>,
                                            started: seq<string>)
    requires StartedFrom(before, after, started)
    requires forall i :: 0 <= i < |before| && before[i].id in started ==> before[i].status == Pending
    ensures Count(after, Running) == Count(before, Running) + CountIn(before, started)
  {
    if before != [] {
      var n := |before| - 1;
      assert StartedFrom(before[..n], after[..n], started) by {
        forall i | 0 <= i < n ensures before[..n][i] == before[i] && after[..n][i] == after[i] {
        }
      }
      CountRunningAfter(before[..n], after[..n], started);
    }
  }

  lemma DoneUnchanged(before: seq<SchedulableStory>, after: seq<SchedulableStory>, started: seq<string>, id: string)
    requires Distinct(Ids(before)) && StartedFrom(before, after, started)
    requires forall i :: 0 <= i < |before| && before[i].id in started ==> before[i].status == Pending
    ensures HasStatus(StatusesOf(after), id, Done) <==> HasStatus(StatusesOf(before), id, Done)
  {
    assert Ids(after) == Ids(before);
    StatusKeys(before);
    StatusKeys(after);
    if id in Ids(before) {
      var i := StoryOf(before, id);
      StatusAt(after, i);
    }
  }

  lemma ReadyIsPending(before: seq<SchedulableStory>, id: string)
    requires Distinct(Ids(before)) && id in ReadyIds(before, StatusesOf(before))
    ensures id in Ids(before) && HasStatus(StatusesOf(before), id, Pending)
  {
    var statuses := StatusesOf(before);
    ReadyMembers(before, statuses);
    var k: nat :| k < |before| && before[k].id == id && IsReady(before[k], statuses);
    assert Ids(before)[k] == id;
    StatusAt(before, k);
  }

  ghost predicate AllPending(stories: seq<SchedulableStory>, ids: seq<string>) {
    forall k :: 0 <= k < |ids| ==> ids[k] in Ids(stories) && HasStatus(StatusesOf(stories), ids[k], Pending)
  }

  lemma ReadyAllPending(before: seq<SchedulableStory>)
    requires Distinct(Ids(before))
    ensures AllPending(before, ReadyIds(before, StatusesOf(before)))
  {
    var ready := ReadyIds(before, StatusesOf(before));
    forall k | 0 <= k < |ready| ensures ready[k] in Ids(before) && HasStatus(StatusesOf(before), ready[k], Pending) {
      ReadyIsPending(before, ready[k]);
    }
  }

  lemma ListedArePending(before: seq<SchedulableStory>, started: seq<string>)
    requires Distinct(Ids(before)) && AllPending(before, started)
    ensures forall i :: 0 <= i < |before| && before[i].id in started ==> before[i].status == Pending
  {
    forall i | 0 <= i < |before| && before[i].id in started ensures before[i].status == Pending {
      StatusAt(before, i);
    }
  }

  /** Starting exactly what was startable leaves nothing startable. */
  lemma NothingStartableAfterStart(before: seq<SchedulableStory>, after: seq<SchedulableStory>, maxConcurrent: int)
    requires Distinct(Ids(before)) && Distinct(ReadyIds(before, StatusesOf(before)))
    requires StartedFrom(before, after, StartableIds(before, maxConcurrent))
    ensures StartableIds(after, maxConcurrent) == []
  {
    var ready := ReadyIds(before, StatusesOf(before));
    var started := StartableIds(before, maxConcurrent);
    ReadyAllPending(before);
    assert AllPending(before, started);
    ListedArePending(before, started);
    if started == ready {
      var still := ReadyIds(after, StatusesOf(after));
      if still != [] {
        NoneLeft(before, after, started, still[0]);
      }
    } else {
      CountRunningAfter(before, after, started);
      CountInAll(before, started);
    }
  }

  /** A story still ready afterwards was ready before and was not started. */
  lemma NoneLeft(before: seq<SchedulableStory>, after: seq<SchedulableStory>, started: seq<string>, id: string)
    requires Distinct(Ids(before)) && StartedFrom(before, after, started)
    requires forall i :: 0 <= i < |before| && before[i].id in started ==> before[i].status == Pending
    requires id in ReadyIds(after, StatusesOf(after))
    ensures id in ReadyIds(before, StatusesOf(before)) && id !in started
  {
    ReadyMembers(after, StatusesOf(after));
    ReadyMembers(before, StatusesOf(before));
    var i :| 0 <= i < |after| && after[i].id == id && IsReady(after[i], StatusesOf(after));
    forall d | d in before[i].dependencies ensures HasStatus(StatusesOf(before), d, Done) {
      DoneUnchanged(before, after, started, d);
    }
    assert IsReady(before[i], StatusesOf(before));
  }
}
