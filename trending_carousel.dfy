/**
 * The glue of the `TrendingCarousel` widget: it shows the recency ordering of its videos in
 * a carousel, records a view when a card is clicked and centres the clicked card, and
 * draws one page indicator per window of `visibleItems` cards.
 *
 * Only the widget's integer arithmetic and the order of its calls are modelled; markup,
 * hover highlighting and the progress bar are not.
 */
module TrendingCarousel {
  import opened Wrappers
  import opened VideoModel
  import opened Carousel
  import opened SessionHistory

  /** The `maxItems` prop's default. */
  const DefaultMaxItems := 50
  const LoadErrorMessage := "Failed to load trending videos"

  /** `videos.findIndex(v => v.id === id)`. */
  function FindIndex(videos: seq<Video>, id: string): (i: int)
    ensures -1 <= i < |videos|
    ensures i >= 0 ==> videos[i].id == id
    ensures forall j :: 0 <= j < |videos| && (i == -1 || j < i) ==> videos[j].id != id
  {
    if |videos| == 0 then -1
    else if videos[0].id == id then 0
    else
      var i := FindIndex(videos[1..], id);
      if i == -1 then -1 else i + 1
  }

  /** The index that puts card `i` in the middle of the window: `max(0, i - floor(visible / 2))`. */
  function CenterTarget(i: int, visibleItems: int): (t: nat)
    ensures t >= i - visibleItems / 2
    ensures t == 0 || t == i - visibleItems / 2
    ensures 0 <= i && 0 <= visibleItems ==> t <= i
  {
    if i - visibleItems / 2 > 0 then i - visibleItems / 2 else 0
  }

  /** `Math.ceil(n / visibleItems)`: the number of page indicators. */
  function PageCount(n: nat, visibleItems: int): (c: nat)
    requires visibleItems > 0
    ensures (c - 1) * visibleItems < n <= c * visibleItems || (n == 0 && c == 0)
  {
    var c := (n + visibleItems - 1) / visibleItems;
    var r := (n + visibleItems - 1) % visibleItems;
    assert n + visibleItems - 1 == c * visibleItems + r;
    assert (c - 1) * visibleItems == c * visibleItems - visibleItems;
    c
  }

  /** Indicator `k` is drawn as active when `floor(currentIndex / visibleItems) == k`. */
  predicate IsActivePage(currentIndex: nat, visibleItems: int, k: int)
    requires visibleItems > 0
  {
    currentIndex / visibleItems == k
  }

  /**
   * While the carousel keeps its index within `[0, maxIndex]` and scrolling is needed,
   * exactly one of the drawn indicators is active.
   */
  lemma ExactlyOneActivePage(n: nat, visibleItems: int, currentIndex: nat)
    requires visibleItems > 0 && n > visibleItems
    requires currentIndex <= n - visibleItems
    ensures 0 <= currentIndex / visibleItems < PageCount(n, visibleItems)
    ensures forall k :: 0 <= k < PageCount(n, visibleItems) ==>
      (IsActivePage(currentIndex, visibleItems, k) <==> k == currentIndex / visibleItems)
  {
    var c := PageCount(n, visibleItems);
    var p := currentIndex / visibleItems;
    assert p * visibleItems <= currentIndex by {
      assert currentIndex == p * visibleItems + currentIndex % visibleItems;
    }
    if p >= c {
      MulMonotone(c, p, visibleItems);
    }
  }

  lemma MulMonotone(a: int, b: int, v: int)
    requires a <= b && v > 0
    ensures a * v <= b * v
  {
    assert b * v - a * v == (b - a) * v;
  }

  /**
   * The last indicator's target `(pages - 1) * visible` wraps to the first position
   * exactly when the cards do not fill whole pages; otherwise it is `maxIndex` itself.
   */
  lemma LastIndicatorWraps(n: nat, visibleItems: int)
    requires visibleItems > 0 && n > visibleItems
    ensures var target := (PageCount(n, visibleItems) - 1) * visibleItems;
      && (n % visibleItems != 0 <==> Wrap(target, n - visibleItems) == 0)
      && (n % visibleItems == 0 ==> target == n - visibleItems)
  {
    var c := PageCount(n, visibleItems);
    var q := n / visibleItems;
    var r := n % visibleItems;
    assert n == q * visibleItems + r;
    if r == 0 {
      assert c == q by {
        assert (q - 1) * visibleItems < q * visibleItems;
        CountFromBounds(n, visibleItems, c, q);
      }
      assert (c - 1) * visibleItems == n - visibleItems;
    } else {
      assert c == q + 1 by {
        assert q * visibleItems < n <= (q + 1) * visibleItems;
        CountFromBounds(n, visibleItems, c, q + 1);
      }
      assert (c - 1) * visibleItems == q * visibleItems;
    }
  }

  /** The page count is the one multiple that brackets `n`. */
  lemma CountFromBounds(n: nat, visibleItems: int, c: int, d: int)
    requires visibleItems > 0
    requires (c - 1) * visibleItems < n <= c * visibleItems
    requires (d - 1) * visibleItems < n <= d * visibleItems
    ensures c == d
  {
    if c < d {
      MulMonotone(c, d - 1, visibleItems);
    } else if d < c {
      MulMonotone(d, c - 1, visibleItems);
    }
  }

  /**
   * Clicking card `i` moves the window to the centre target, or back to the first
   * position when that target lies beyond `maxIndex`.
   */
  lemma CenterTargetWraps(i: nat, n: nat, visibleItems: int)
    requires visibleItems > 0 && n > visibleItems
    ensures Wrap(CenterTarget(i, visibleItems), n - visibleItems)
         == if i - visibleItems / 2 > n - visibleItems then 0 else CenterTarget(i, visibleItems)
  {
  }

  class TrendingWidget {
    const history: ViewHistory
    const carousel: CarouselEngine
    const visibleItems: int
    /** The `videos` prop; `None` when the widget loads the trending list itself. */
    const propVideos: Option<seq<Video>>
    /** Date parsing of `createdAt`. */
    const createdTime: string -> int
    var defaultVideos: seq<Video>
    var selectedVideoId: Option<string>
    var error: Option<string>

    /** `propVideos || defaultVideos`: an empty prop array still counts as given. */
    function Displayed(): (r: seq<Video>)
      reads this
      ensures propVideos.Some? ==> r == propVideos.value
      ensures propVideos.None? ==> r == defaultVideos
    {
      propVideos.GetOr(defaultVideos)
    }

    /** The cards in display order: the recency ordering of the displayed videos. */
    function SortedVideos(): (r: seq<Video>)
      reads this, history
      ensures |r| == |Displayed()|
      ensures multiset(r) == multiset(Displayed())
      ensures var ids, k := history.viewedVideoIds, |ViewedIn(Displayed(), history.viewedVideoIds)|;
        && k <= |r|
        && (forall i :: 0 <= i < k ==> r[i].id in ids)
        && (forall i :: k <= i < |r| ==> r[i].id !in ids)
        && (forall i, j :: 0 <= i < j < k ==> IndexOf(ids, r[i].id) <= IndexOf(ids, r[j].id))
        && (forall i, j :: k <= i < j < |r| ==> createdTime(r[i].createdAt) >= createdTime(r[j].createdAt))
    {
      var r := history.GetSortedVideosByViewed(Displayed(), createdTime);
      assert |multiset(r)| == |multiset(Displayed())|;
      r
    }

    /** The carousel is sized to the cards, shares the widget's window and keeps its index in range. */
    predicate Valid()
      reads this, carousel
    {
      && carousel.totalItems == |Displayed()|
      && carousel.visibleItems == visibleItems
      && carousel.Valid()
    }

    constructor(propVideos: Option<seq<Video>>, visibleItems: int, createdTime: string -> int,
                storedViewedIds: Option<seq<string>>, storedLastViewedTime: Option<map<string, int>>)
      ensures this.propVideos == propVideos && this.visibleItems == visibleItems
      ensures this.createdTime == createdTime
      ensures defaultVideos == [] && selectedVideoId == None && error == None
      ensures fresh(history) && fresh(carousel)
      ensures history.viewedVideoIds == [] && history.lastViewedTime == map[]
      ensures history.storedViewedIds == storedViewedIds && history.storedLastViewedTime == storedLastViewedTime
      ensures carousel.carouselState.currentIndex == 0
      ensures Valid()
    {
      this.propVideos := propVideos;
      this.visibleItems := visibleItems;
      this.createdTime := createdTime;
      defaultVideos := [];
      selectedVideoId := None;
      error := None;
      history := new ViewHistory(storedViewedIds, storedLastViewedTime);
      carousel := new CarouselEngine(|propVideos.GetOr([])|, visibleItems);
    }

    /**
     * The mount effect without a `videos` prop: the loaded trending list (`None` when the
     * request fails) goes through `getTrendingVideos` as written, and the carousel
     * re-renders with the new count, clamping its index.
     */
    method LoadTrendingVideos(loaded: Option<seq<Video>>, maxItems: int)
      requires Valid()
      modifies this`defaultVideos, this`error, carousel`totalItems, carousel`carouselState
      ensures propVideos.Some? ==>
        defaultVideos == old(defaultVideos) && error == old(error) && carousel.carouselState == old(carousel.carouselState)
      ensures propVideos.None? && loaded.Some? ==>
        defaultVideos == TrendingVideosAsWritten(loaded.value, maxItems, createdTime) && error == None
      ensures propVideos.None? && loaded.None? ==>
        defaultVideos == old(defaultVideos) && error == Some(LoadErrorMessage)
      ensures propVideos.None? && loaded.Some? && 0 <= maxItems ==>
        Displayed() == TrendingVideos(loaded.value, maxItems, createdTime) && |Displayed()| <= TrendingLimit
      ensures carousel.carouselState == old(carousel.carouselState).(currentIndex :=
        if old(carousel.carouselState.currentIndex) > carousel.MaxIndex() then carousel.MaxIndex()
        else old(carousel.carouselState.currentIndex))
      ensures carousel.trackCommand == old(carousel.trackCommand)
      ensures carousel.touchStartTime == old(carousel.touchStartTime) && carousel.touchDistance == old(carousel.touchDistance)
      ensures Valid()
    {
      if propVideos.Some? {
        return;
      }
      error := None;
      if loaded.Some? {
        defaultVideos := TrendingVideosAsWritten(loaded.value, maxItems, createdTime);
        if 0 <= maxItems {
          TrendingVideosAgree(loaded.value, maxItems, createdTime);
        }
      } else {
        error := Some(LoadErrorMessage);
      }
      carousel.Rerender(|Displayed()|);
    }

    /**
     * A click on a card: the card is selected and recorded as viewed, then the carousel
     * centres it. Its position is taken in the order the user saw, before the view was
     * recorded; an id not shown causes no scroll.
     */
    method HandleVideoClick(video: Video, now: int, viewportWidth: int, writesBeforeFailure: nat)
      requires Valid()
      modifies this`selectedVideoId, history, carousel`carouselState, carousel`trackCommand
      ensures selectedVideoId == Some(video.id)
      ensures history.viewedVideoIds == Recorded(old(history.viewedVideoIds), video.id)
      ensures history.lastViewedTime == old(history.lastViewedTime)[video.id := now]
      ensures history.storedViewedIds ==
        if writesBeforeFailure >= 1 then Some(history.viewedVideoIds) else old(history.storedViewedIds)
      ensures history.storedLastViewedTime ==
        if writesBeforeFailure >= 2 then Some(history.lastViewedTime) else old(history.storedLastViewedTime)
      ensures var i := FindIndex(old(SortedVideos()), video.id);
        if i == -1 then
          carousel.carouselState == old(carousel.carouselState) && carousel.trackCommand == old(carousel.trackCommand)
        else
          && carousel.carouselState == old(carousel.AfterSetIndex(CenterTarget(i, visibleItems)))
          && carousel.trackCommand == ScrollTo(Wrap(CenterTarget(i, visibleItems), carousel.MaxIndex()) * ItemPitch(viewportWidth))
      ensures Valid()
    {
      var order := SortedVideos();
      selectedVideoId := Some(video.id);
      history.AddViewedVideo(video.id, now, writesBeforeFailure);
      var videoIndex := FindIndex(order, video.id);
      if videoIndex != -1 {
        carousel.ScrollToIndex(CenterTarget(videoIndex, visibleItems), viewportWidth);
      }
    }

    method HandleScrollToIndex(index: int, viewportWidth: int)
      requires Valid()
      modifies carousel`carouselState, carousel`trackCommand
      ensures carousel.carouselState == old(carousel.AfterSetIndex(index))
      ensures carousel.trackCommand == ScrollTo(Wrap(index, carousel.MaxIndex()) * ItemPitch(viewportWidth))
      ensures Valid()
    {
      carousel.ScrollToIndex(index, viewportWidth);
    }

    /** Indicator `k` scrolls to the first card of page `k`. */
    method HandleIndicatorClick(k: nat, viewportWidth: int)
      requires Valid()
      modifies carousel`carouselState, carousel`trackCommand
      ensures carousel.carouselState == old(carousel.AfterSetIndex(k * visibleItems))
      ensures carousel.trackCommand == ScrollTo(Wrap(k * visibleItems, carousel.MaxIndex()) * ItemPitch(viewportWidth))
      ensures Valid()
    {
      HandleScrollToIndex(k * visibleItems, viewportWidth);
    }
  }

  /**
   * Ten cards shown four at a time: clicking the last card aims at index 7, beyond
   * `maxIndex` 6, and the carousel jumps back to the first position.
   */
  method ClickLastOfTen(videos: seq<Video>, viewportWidth: int) returns (index: nat)
    requires |videos| == 10
    requires forall i, j :: 0 <= i < j < 10 ==> videos[i].id != videos[j].id
    ensures index == 0
  {
    var w := new TrendingWidget(Some(videos), 4, (s: string) => 0, None, None);
    var order := w.SortedVideos();
    var last := order[9];
    assert FindIndex(order, last.id) == 9 by {
      assert forall j :: 0 <= j < 9 ==> order[j].id != last.id by {
        DistinctIdsPermuted(videos, order);
      }
    }
    w.HandleVideoClick(last, 1000, 1280, 2);
    index := w.carousel.carouselState.currentIndex;
  }

  /**
   * Without a `videos` prop, sixty loaded videos and `maxItems == -1` put 59 cards in the
   * carousel: the widget inherits the limit that `getTrendingVideos` misses.
   */
  method NegativeMaxItemsScenario(loaded: seq<Video>, createdTime: string -> int) returns (cards: nat)
    requires |loaded| == 60
    ensures cards == 59
  {
    var w := new TrendingWidget(None, 4, createdTime, None, None);
    w.LoadTrendingVideos(Some(loaded), -1);
    cards := |w.Displayed()|;
  }

  /** With the default `maxItems`, the widget shows the newest videos, at most fifty of them. */
  method DefaultMaxItemsScenario(loaded: seq<Video>, createdTime: string -> int) returns (cards: seq<Video>)
    ensures cards == TrendingVideos(loaded, DefaultMaxItems, createdTime)
    ensures |cards| == Min(|loaded|, TrendingLimit)
  {
    var w := new TrendingWidget(None, 4, createdTime, None, None);
    w.LoadTrendingVideos(Some(loaded), DefaultMaxItems);
    cards := w.Displayed();
  }

  /** A permutation of videos with distinct ids has distinct ids. */
  lemma DistinctIdsPermuted(videos: seq<Video>, order: seq<Video>)
    requires multiset(order) == multiset(videos)
    requires forall i, j :: 0 <= i < j < |videos| ==> videos[i].id != videos[j].id
    ensures forall i, j :: 0 <= i < j < |order| ==> order[i].id != order[j].id
  {
    forall i, j | 0 <= i < j < |order|
      ensures order[i].id != order[j].id
    {
      assert order[i] in multiset(videos) && order[j] in multiset(videos);
      var a :| 0 <= a < |videos| && videos[a] == order[i];
      var b :| 0 <= b < |videos| && videos[b] == order[j];
      if a == b {
        RepeatedCountsTwice(order, i, j);
        DistinctCountOne(videos, a);
        assert false;
      }
    }
  }

  /** An element at two positions occurs at least twice in the multiset. */
  lemma RepeatedCountsTwice(s: seq<Video>, i: nat, j: nat)
    requires i < j < |s| && s[i] == s[j]
    ensures multiset(s)[s[i]] >= 2
  {
    var front := s[..j];
    assert s == front + [s[j]] + s[j + 1..];
    assert front[i] == s[i];
    assert s[i] in multiset(front);
  }

  /** A video whose id occurs once in the list occurs once in its multiset. */
  lemma {:induction false} DistinctCountOne(videos: seq<Video>, a: nat)
    requires a < |videos|
    requires forall i, j :: 0 <= i < j < |videos| ==> videos[i].id != videos[j].id
    ensures multiset(videos)[videos[a]] == 1
  {
    if a == |videos| - 1 {
      var init := videos[..a];
      assert videos == init + [videos[a]];
      assert videos[a] !in multiset(init) by {
        assert forall i :: 0 <= i < |init| ==> init[i] != videos[a];
      }
    } else {
      var init := videos[..|videos| - 1];
      var lastOne := videos[|videos| - 1];
      assert videos == init + [lastOne];
      DistinctCountOne(init, a);
      assert init[a] == videos[a] && lastOne != videos[a];
    }
  }
}
