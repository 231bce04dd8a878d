/**
 * The recency engine of the `useSessionStorage` hook: the list of viewed video ids, most
 * recent first and capped at 20, the map from id to the time it was last viewed, and the
 * two entries of the browser's session storage that persist them.
 *
 * The storage entries hold already decoded values (`None` for a missing key), so JSON
 * encoding is not modelled. A storage call that throws is modelled by a count of the
 * calls that succeed before it. `Date.now()` is the parameter `now`.
 */
module SessionHistory {
  import opened Wrappers
  import opened VideoModel

  const MaxViewed := 20
  /** `isRecentlyViewed`'s default threshold. */
  const DefaultThresholdMinutes := 30
  const MsPerMinute := 60000

  /** `ids.filter(x => x !== id)`. */
  function Without(ids: seq<string>, id: string): (r: seq<string>)
    ensures |r| <= |ids|
    ensures id !in r
    ensures forall x :: x in r <==> x in ids && x != id
    ensures id !in ids ==> r == ids
  {
    if |ids| == 0 then []
    else
      var rest := Without(ids[1..], id);
      assert ids == [ids[0]] + ids[1..];
      if ids[0] == id then rest else [ids[0]] + rest
  }

  /** Filtering removes every occurrence of `id` and keeps every other element as often as it was. */
  lemma {:induction false} WithoutMultiset(ids: seq<string>, id: string)
    ensures multiset(Without(ids, id)) == multiset(ids)[id := 0]
  {
    if |ids| > 0 {
      WithoutMultiset(ids[1..], id);
      assert ids == [ids[0]] + ids[1..];
      WithoutCons(ids[0], ids[1..], id);
    }
  }

  /** Filtering keeps the order: it filters each part of a list on its own. */
  lemma {:induction false} WithoutAppend(a: seq<string>, b: seq<string>, id: string)
    ensures Without(a + b, id) == Without(a, id) + Without(b, id)
  {
    if |a| == 0 {
      assert a + b == b;
    } else {
      WithoutAppend(a[1..], b, id);
      assert a == [a[0]] + a[1..];
      WithoutConsAppend(a[0], a[1..], b, id);
    }
  }

  /** One step of WithoutAppend: a first element in front of a list that already splits. */
  lemma WithoutConsAppend(h: string, t: seq<string>, b: seq<string>, id: string)
    requires Without(t + b, id) == Without(t, id) + Without(b, id)
    ensures Without([h] + t + b, id) == Without([h] + t, id) + Without(b, id)
  {
    assert [h] + t + b == [h] + (t + b);
    WithoutCons(h, t + b, id);
    WithoutCons(h, t, id);
    if h != id {
      AppendAssoc([h], Without(t, id), Without(b, id));
    }
  }

  lemma AppendAssoc(x: seq<string>, y: seq<string>, z: seq<string>)
    ensures x + (y + z) == (x + y) + z
  {
  }

  lemma WithoutCons(h: string, t: seq<string>, id: string)
    ensures Without([h] + t, id) == (if h == id then [] else [h]) + Without(t, id)
  {
    assert ([h] + t)[0] == h && ([h] + t)[1..] == t;
  }

  /** `s.slice(0, n)` for a non-negative `n`. */
  function Take<T>(s: seq<T>, n: nat): (r: seq<T>)
    ensures |r| == if |s| < n then |s| else n
    ensures r == s[..|r|]
  {
    if |s| <= n then s else s[..n]
  }

  /** `addViewedVideo`'s new list: `id` moved (or added) to the front, then cut to 20. */
  function Recorded(ids: seq<string>, id: string): (r: seq<string>)
    ensures 0 < |r| <= MaxViewed && r[0] == id
    ensures r[1..] == Take(Without(ids, id), MaxViewed - 1)
    ensures forall x :: x in r && x != id ==> x in ids
  {
    var others := Without(ids, id);
    var r := Take([id] + others, MaxViewed);
    assert r[1..] == Take(others, MaxViewed - 1);
    assert forall x :: x in r[1..] ==> x in others;
    r
  }

  /** `ids.filter(x => x === id).length`. */
  function Occurrences(ids: seq<string>, id: string): (c: nat)
    ensures c <= |ids|
    ensures c > 0 <==> id in ids
  {
    if |ids| == 0 then 0
    else
      assert ids == [ids[0]] + ids[1..];
      (if ids[0] == id then 1 else 0) + Occurrences(ids[1..], id)
  }

  /** No id occurs twice: the first does not recur, and neither does any later one. */
  predicate NoDuplicates(ids: seq<string>)
  {
    |ids| == 0 || (ids[0] !in ids[1..] && NoDuplicates(ids[1..]))
  }

  lemma {:induction false} WithoutNoDuplicates(ids: seq<string>, id: string)
    requires NoDuplicates(ids)
    ensures NoDuplicates(Without(ids, id))
  {
    if |ids| > 0 {
      WithoutNoDuplicates(ids[1..], id);
      var rest := Without(ids[1..], id);
      if ids[0] != id {
        assert Without(ids, id) == [ids[0]] + rest;
        assert ([ids[0]] + rest)[1..] == rest;
      }
    }
  }

  lemma {:induction false} PrefixNoDuplicates(ids: seq<string>, n: nat)
    requires NoDuplicates(ids) && n <= |ids|
    ensures NoDuplicates(ids[..n])
  {
    if n > 0 {
      PrefixNoDuplicates(ids[1..], n - 1);
      assert ids[..n][1..] == ids[1..][..n - 1];
      assert forall x :: x in ids[1..][..n - 1] ==> x in ids[1..];
    }
  }

  /** The recorded id sits at the front and occurs exactly once. */
  lemma RecordedOnce(ids: seq<string>, id: string)
    ensures var r := Recorded(ids, id);
      r[0] == id && Occurrences(r, id) == 1
  {
    var r := Recorded(ids, id);
    assert id !in r[1..] by {
      assert forall x :: x in r[1..] ==> x in Without(ids, id);
    }
    assert Occurrences(r, id) == 1 + Occurrences(r[1..], id);
  }

  /** Recording keeps a list free of duplicates. */
  lemma RecordedNoDuplicates(ids: seq<string>, id: string)
    requires NoDuplicates(ids)
    ensures NoDuplicates(Recorded(ids, id))
  {
    var r := Recorded(ids, id);
    var others := Without(ids, id);
    WithoutNoDuplicates(ids, id);
    PrefixNoDuplicates(others, |r[1..]|);
    assert id !in r[1..] by {
      assert forall x :: x in r[1..] ==> x in others;
    }
  }

  /**
   * The other ids keep their relative order: without the recorded id, the new list is a
   * prefix of the old list without it.
   */
  lemma RecordedKeepsOrder(ids: seq<string>, id: string)
    ensures var kept := Without(Recorded(ids, id), id);
      |kept| <= |Without(ids, id)| && kept == Without(ids, id)[..|kept|]
  {
    var r := Recorded(ids, id);
    assert r == [id] + r[1..];
    assert Without(r, id) == Without(r[1..], id);
  }

  /** Recording the same id twice in a row is recording it once. */
  lemma RecordedIdempotent(ids: seq<string>, id: string)
    ensures Recorded(Recorded(ids, id), id) == Recorded(ids, id)
  {
    var r := Recorded(ids, id);
    assert r == [id] + r[1..];
    assert Without(r, id) == Without(r[1..], id);
    assert Without(r[1..], id) == r[1..];
  }

  /** Without duplicates an id is counted at most once. */
  lemma {:induction false} ViewCountAtMostOne(ids: seq<string>, id: string)
    requires NoDuplicates(ids)
    ensures Occurrences(ids, id) <= 1
  {
    if |ids| > 0 {
      ViewCountAtMostOne(ids[1..], id);
    }
  }

  /**
   * `isRecentlyViewed`: false for an id with no timestamp or a zero one (both falsy), and
   * otherwise whether the time since that view is below the threshold.
   */
  function IsRecentlyViewed(lastViewedTime: map<string, int>, id: string, thresholdMinutes: int, now: int): (b: bool)
    ensures b ==> id in lastViewedTime && lastViewedTime[id] != 0
    ensures id in lastViewedTime && lastViewedTime[id] != 0 ==>
      (b <==> now - lastViewedTime[id] < thresholdMinutes * MsPerMinute)
  {
    if id !in lastViewedTime || lastViewedTime[id] == 0 then false
    else now - lastViewedTime[id] < thresholdMinutes * MsPerMinute
  }

  /**
   * After a view recorded at a non-zero time, the video counts as recent exactly until the
   * threshold has passed.
   */
  lemma RecentAfterRecording(lastViewedTime: map<string, int>, id: string, viewedAt: int, thresholdMinutes: int, now: int)
    requires viewedAt != 0
    ensures IsRecentlyViewed(lastViewedTime[id := viewedAt], id, thresholdMinutes, now)
        <==> now - viewedAt < thresholdMinutes * MsPerMinute
  {
  }

  /** Recording one id leaves the recency of every other id as it was. */
  lemma RecencyOfOthersUnchanged(lastViewedTime: map<string, int>, id: string, other: string, viewedAt: int, thresholdMinutes: int, now: int)
    requires other != id
    ensures IsRecentlyViewed(lastViewedTime[id := viewedAt], other, thresholdMinutes, now)
        == IsRecentlyViewed(lastViewedTime, other, thresholdMinutes, now)
  {
  }

  class ViewHistory {
    var viewedVideoIds: seq<string>
    var lastViewedTime: map<string, int>
    /** The session storage entry `tv_app_viewed_videos`. */
    var storedViewedIds: Option<seq<string>>
    /** The session storage entry `tv_app_last_viewed_time`. */
    var storedLastViewedTime: Option<map<string, int>>

    /** The list is short and free of duplicates, as `addViewedVideo` keeps it. */
    predicate Valid()
      reads this
    {
      |viewedVideoIds| <= MaxViewed && NoDuplicates(viewedVideoIds)
    }

    /** The first render: empty state over whatever the session storage holds. */
    constructor(storedViewedIds: Option<seq<string>>, storedLastViewedTime: Option<map<string, int>>)
      ensures viewedVideoIds == [] && lastViewedTime == map[]
      ensures this.storedViewedIds == storedViewedIds && this.storedLastViewedTime == storedLastViewedTime
      ensures Valid()
    {
      viewedVideoIds := [];
      lastViewedTime := map[];
      this.storedViewedIds := storedViewedIds;
      this.storedLastViewedTime := storedLastViewedTime;
    }

    /** The mount effect: each stored entry that exists replaces the in-memory value. */
    method Restore()
      modifies this`viewedVideoIds, this`lastViewedTime
      ensures viewedVideoIds == storedViewedIds.GetOr(old(viewedVideoIds))
      ensures lastViewedTime == storedLastViewedTime.GetOr(old(lastViewedTime))
    {
      if storedViewedIds.Some? {
        viewedVideoIds := storedViewedIds.value;
      }
      if storedLastViewedTime.Some? {
        lastViewedTime := storedLastViewedTime.value;
      }
    }

    /**
     * `addViewedVideo(videoId)` at time `now`. The in-memory list and map are replaced
     * first; then the two storage writes run, and only the first `writesBeforeFailure` of
     * them take effect. A failed write leaves the new in-memory state in place.
     */
    method AddViewedVideo(videoId: string, now: int, writesBeforeFailure: nat)
      modifies this
      ensures viewedVideoIds == Recorded(old(viewedVideoIds), videoId)
      ensures lastViewedTime == old(lastViewedTime)[videoId := now]
      ensures storedViewedIds == if writesBeforeFailure >= 1 then Some(viewedVideoIds) else old(storedViewedIds)
      ensures storedLastViewedTime == if writesBeforeFailure >= 2 then Some(lastViewedTime) else old(storedLastViewedTime)
      ensures old(Valid()) ==> Valid()
    {
      var newViewedIds := [videoId] + Without(viewedVideoIds, videoId);
      var newLastViewed := lastViewedTime[videoId := now];
      var limitedViewedIds := Take(newViewedIds, MaxViewed);
      if Valid() {
        RecordedNoDuplicates(viewedVideoIds, videoId);
      }
      viewedVideoIds := limitedViewedIds;
      lastViewedTime := newLastViewed;
      if writesBeforeFailure < 1 {
        return;
      }
      storedViewedIds := Some(limitedViewedIds);
      if writesBeforeFailure < 2 {
        return;
      }
      storedLastViewedTime := Some(newLastViewed);
    }

    /**
     * `clearSessionStorage`: the two removals come first; only when both succeed are the
     * list and the map emptied.
     */
    method ClearSessionStorage(removalsBeforeFailure: nat)
      modifies this
      ensures storedViewedIds == if removalsBeforeFailure >= 1 then None else old(storedViewedIds)
      ensures storedLastViewedTime == if removalsBeforeFailure >= 2 then None else old(storedLastViewedTime)
      ensures removalsBeforeFailure >= 2 ==> viewedVideoIds == [] && lastViewedTime == map[]
      ensures removalsBeforeFailure < 2 ==>
        viewedVideoIds == old(viewedVideoIds) && lastViewedTime == old(lastViewedTime)
      ensures old(Valid()) ==> Valid()
    {
      if removalsBeforeFailure < 1 {
        return;
      }
      storedViewedIds := None;
      if removalsBeforeFailure < 2 {
        return;
      }
      storedLastViewedTime := None;
      viewedVideoIds := [];
      lastViewedTime := map[];
    }

    /**
     * `getSortedVideosByViewed`: a permutation of `videos` with the viewed ones first, in
     * the order of the list, and the others after them, newest first.
     */
    function GetSortedVideosByViewed(videos: seq<Video>, createdTime: string -> int): (r: seq<Video>)
      reads this
      ensures multiset(r) == multiset(videos)
      ensures var k := |ViewedIn(videos, viewedVideoIds)|;
        && k <= |r|
        && (forall i :: 0 <= i < k ==> r[i].id in viewedVideoIds)
        && (forall i :: k <= i < |r| ==> r[i].id !in viewedVideoIds)
        && (forall i, j :: 0 <= i < j < k ==> IndexOf(viewedVideoIds, r[i].id) <= IndexOf(viewedVideoIds, r[j].id))
        && (forall i, j :: k <= i < j < |r| ==> createdTime(r[i].createdAt) >= createdTime(r[j].createdAt))
    {
      LastViewedOrder(videos, viewedVideoIds, createdTime);
      SortVideosByLastViewed(videos, viewedVideoIds, createdTime)
    }

    function IsRecentlyViewedAt(videoId: string, thresholdMinutes: int, now: int): (b: bool)
      reads this
      ensures b ==> videoId in lastViewedTime
      ensures b == IsRecentlyViewed(lastViewedTime, videoId, thresholdMinutes, now)
    {
      IsRecentlyViewed(lastViewedTime, videoId, thresholdMinutes, now)
    }

    /** `getViewCount`: 1 for an id in the list and 0 otherwise, while the list is valid. */
    function GetViewCount(videoId: string): (c: nat)
      reads this
      ensures c > 0 <==> videoId in viewedVideoIds
      ensures Valid() ==> c <= 1
    {
      var c := Occurrences(viewedVideoIds, videoId);
      if Valid() then ViewCountAtMostOne(viewedVideoIds, videoId); c else c
    }
  }

  /** Viewing a, b and then a again leaves the list `[a, b]` and counts a once. */
  method ViewAgainScenario() returns (ids: seq<string>, count: nat)
    ensures ids == ["a", "b"] && count == 1
  {
    var h := new ViewHistory(None, None);
    h.AddViewedVideo("a", 1000, 2);
    h.AddViewedVideo("b", 2000, 2);
    assert Without(["a"], "b") == ["a"];
    h.AddViewedVideo("a", 3000, 2);
    assert Without(["b", "a"], "a") == ["b"] by {
      assert ["b", "a"][1..] == ["a"];
      assert Without(["a"], "a") == [];
    }
    ids := h.viewedVideoIds;
    count := h.GetViewCount("a");
  }

  /** Under the default threshold, a view stays recent for 29 minutes and not for 30. */
  method DefaultThresholdScenario() returns (after29: bool, after30: bool)
    ensures after29 && !after30
  {
    var h := new ViewHistory(None, None);
    h.AddViewedVideo("a", 1000, 2);
    after29 := h.IsRecentlyViewedAt("a", DefaultThresholdMinutes, 1000 + 29 * MsPerMinute);
    after30 := h.IsRecentlyViewedAt("a", DefaultThresholdMinutes, 1000 + 30 * MsPerMinute);
  }
}
