/**
 * The carousel index and gesture engine of the `useCarousel` hook.
 *
 * The hook's state record is the datatype `CarouselState`, held in one field and replaced
 * by `.(f := v)` just as `setCarouselState(prev => ({ ...prev, f }))` does. The hook's
 * props are `totalItems` and the constant `visibleItems`. The DOM is not modelled: the
 * mouse or touch position, the track's offset and the viewport width are parameters, and the
 * engine records the last command it sent to the track in `trackCommand`.
 */
module Carousel {

  const DefaultVisibleItems := 8
  const ItemGap := 16
  const DragMultiplier := 2
  /** The fixed `scrollBy` amount of the arrow steps: a 200px item plus the gap. */
  const ScrollStep := 216
  const TapMaxDuration := 300
  const TapMaxDistance := 10

  /** The card width for a viewport width (the hook's `getItemWidth`). */
  function ItemWidth(viewportWidth: int): (w: int)
    ensures 120 <= w <= 200
    ensures viewportWidth <= 480 ==> w == 120
    ensures 480 < viewportWidth <= 768 ==> w == 150
    ensures 768 < viewportWidth <= 1024 ==> w == 180
    ensures 1024 < viewportWidth ==> w == 200
  {
    if viewportWidth <= 480 then 120
    else if viewportWidth <= 768 then 150
    else if viewportWidth <= 1024 then 180
    else 200
  }

  /** A wider viewport never gives a narrower card. */
  lemma ItemWidthMonotone(a: int, b: int)
    requires a <= b
    ensures ItemWidth(a) <= ItemWidth(b)
  {
  }

  /** The distance between the left edges of two neighbouring cards. */
  function ItemPitch(viewportWidth: int): (p: int)
    ensures p == ItemWidth(viewportWidth) + ItemGap && p >= 136
  {
    ItemWidth(viewportWidth) + ItemGap
  }

  /**
   * The wrap-around of `setCurrentIndex` and `scrollToIndex`: a negative index goes to the
   * last position and an index beyond `maxIndex` to the first.
   */
  function Wrap(index: int, maxIndex: nat): (c: nat)
    ensures c <= maxIndex
    ensures 0 <= index <= maxIndex ==> c == index
    ensures index < 0 ==> c == maxIndex
    ensures index > maxIndex ==> c == 0
  {
    if index < 0 then maxIndex else if index > maxIndex then 0 else index
  }

  /** Wrapping an index already in range changes nothing, so wrapping twice is wrapping once. */
  lemma WrapIdempotent(index: int, maxIndex: nat)
    ensures Wrap(Wrap(index, maxIndex), maxIndex) == Wrap(index, maxIndex)
  {
  }

  /**
   * `Math.round(offset / width)` for a positive width: the integer nearest to the
   * quotient, with halves rounded up.
   */
  function RoundDiv(offset: int, width: int): (n: int)
    requires width > 0
    ensures 2 * (n * width) - width <= 2 * offset < 2 * (n * width) + width
  {
    var q := (2 * offset + width) / (2 * width);
    var r := (2 * offset + width) % (2 * width);
    assert 2 * offset + width == q * (2 * width) + r && 0 <= r < 2 * width;
    assert q * (2 * width) == 2 * (q * width);
    q
  }

  /** Two multiples of a positive width less than a width apart are the same multiple. */
  lemma {:induction false} MultiplesApart(a: int, b: int, width: int)
    requires width > 0 && a < b
    ensures b * width - a * width >= width
    decreases b - a
  {
    if a + 1 < b {
      MultiplesApart(a + 1, b, width);
    }
    assert (a + 1) * width == a * width + width;
  }

  /** The rounded quotient is the only integer within half a width of the offset. */
  lemma RoundDivUnique(offset: int, width: int, n: int)
    requires width > 0
    requires 2 * (n * width) - width <= 2 * offset < 2 * (n * width) + width
    ensures RoundDiv(offset, width) == n
  {
    var m := RoundDiv(offset, width);
    if m < n {
      MultiplesApart(m, n, width);
    } else if m > n {
      MultiplesApart(n, m, width);
    }
  }

  /** Reading back an offset that `scrollToIndex` commanded gives the index it came from. */
  lemma RoundDivOfMultiple(i: int, width: int)
    requires width > 0
    ensures RoundDiv(i * width, width) == i
  {
    RoundDivUnique(i * width, width, i);
  }

  datatype CarouselState = CarouselState(
    currentIndex: nat,
    isDragging: bool,
    startX: int,
    scrollLeft: int,
    isAutoScrolling: bool)

  /** What the hook last did to the track element. */
  datatype ScrollCommand =
    | NoCommand
    | ScrollTo(left: int)
    | ScrollBy(delta: int)
    | SetScrollLeft(left: int)

  class CarouselEngine {
    var totalItems: nat
    const visibleItems: int
    var carouselState: CarouselState
    var touchStartTime: int
    var touchDistance: int
    var trackCommand: ScrollCommand

    /** The first render of `useCarousel(totalItems, visibleItems)`. */
    constructor(totalItems: nat, visibleItems: int)
      ensures this.totalItems == totalItems && this.visibleItems == visibleItems
      ensures carouselState == CarouselState(0, false, 0, 0, false)
      ensures touchStartTime == 0 && touchDistance == 0
      ensures trackCommand == NoCommand
      ensures Valid()
    {
      this.totalItems := totalItems;
      this.visibleItems := visibleItems;
      carouselState := CarouselState(0, false, 0, 0, false);
      touchStartTime := 0;
      touchDistance := 0;
      trackCommand := NoCommand;
    }

    /** `maxIndex = Math.max(0, totalItems - visibleItems)`. */
    function MaxIndex(): (m: nat)
      reads this
      ensures m >= totalItems - visibleItems
      ensures m == 0 || m == totalItems - visibleItems
    {
      if totalItems - visibleItems > 0 then totalItems - visibleItems else 0
    }

    /** `needsScrolling`: the items do not all fit in the window, so there is somewhere to scroll to. */
    function NeedsScrolling(): (b: bool)
      reads this
      ensures b <==> MaxIndex() > 0
    {
      totalItems > visibleItems
    }

    /** The index never passes the last position a full window can start at. */
    predicate Valid()
      reads this
    {
      carouselState.currentIndex <= MaxIndex()
    }

    /** `canScrollLeft`: scrolling is needed and the window is not at the first position. */
    predicate CanScrollLeft()
      reads this
    {
      NeedsScrolling() && carouselState.currentIndex > 0
    }

    /** `canScrollRight`: scrolling is needed and the window is not at the last position. */
    predicate CanScrollRight()
      reads this
    {
      NeedsScrolling() && carouselState.currentIndex < MaxIndex()
    }

    /** The state after `setCurrentIndex(index)`; nothing but the index can change. */
    function AfterSetIndex(index: int): (s: CarouselState)
      reads this
      ensures NeedsScrolling() ==> s == carouselState.(currentIndex := Wrap(index, MaxIndex()))
      ensures !NeedsScrolling() ==> s == carouselState
      ensures s.currentIndex <= MaxIndex() || s == carouselState
    {
      if NeedsScrolling() then carouselState.(currentIndex := Wrap(index, MaxIndex())) else carouselState
    }

    method SetCurrentIndex(index: int)
      modifies this`carouselState
      ensures carouselState == old(AfterSetIndex(index))
      ensures old(Valid()) ==> Valid()
      ensures NeedsScrolling() ==> Valid()
    {
      if !NeedsScrolling() {
        return;
      }
      var clampedIndex := index;
      if index < 0 {
        clampedIndex := MaxIndex();
      } else if index > MaxIndex() {
        clampedIndex := 0;
      }
      carouselState := carouselState.(currentIndex := clampedIndex);
    }

    /**
     * `scrollToIndex(index)`: the track is sent to the left edge of the wrapped index's
     * card, then the index is set.
     */
    method ScrollToIndex(index: int, viewportWidth: int)
      modifies this`carouselState, this`trackCommand
      ensures trackCommand == ScrollTo(Wrap(index, MaxIndex()) * ItemPitch(viewportWidth))
      ensures trackCommand.left >= 0
      ensures carouselState == old(AfterSetIndex(index))
      ensures old(Valid()) ==> Valid()
    {
      var clampedIndex := Wrap(index, MaxIndex());
      var scrollPosition := clampedIndex * ItemPitch(viewportWidth);
      trackCommand := ScrollTo(scrollPosition);
      SetCurrentIndex(clampedIndex);
    }

    /** The left arrow: a fixed step back, and the index one lower but never below 0. */
    method ScrollLeft()
      modifies this`carouselState, this`trackCommand
      ensures trackCommand == ScrollBy(-ScrollStep)
      ensures var i := old(carouselState.currentIndex);
        carouselState == old(AfterSetIndex(if i - 1 > 0 then i - 1 else 0))
      ensures old(Valid()) ==> Valid()
      ensures old(Valid()) && NeedsScrolling() ==>
        carouselState.currentIndex == (if old(carouselState.currentIndex) > 0 then old(carouselState.currentIndex) - 1 else 0)
      ensures old(Valid()) ==>
        (carouselState.currentIndex < old(carouselState.currentIndex) <==> old(CanScrollLeft()))
    {
      trackCommand := ScrollBy(-ScrollStep);
      var newIndex := carouselState.currentIndex - 1;
      if newIndex < 0 {
        newIndex := 0;
      }
      SetCurrentIndex(newIndex);
    }

    /** The right arrow: a fixed step on, and the index one higher but never past `maxIndex`. */
    method ScrollRight()
      modifies this`carouselState, this`trackCommand
      ensures trackCommand == ScrollBy(ScrollStep)
      ensures var i := old(carouselState.currentIndex);
        carouselState == old(AfterSetIndex(if MaxIndex() < i + 1 then MaxIndex() else i + 1))
      ensures old(Valid()) ==> Valid()
      ensures NeedsScrolling() ==>
        carouselState.currentIndex == (if MaxIndex() < old(carouselState.currentIndex) + 1 then MaxIndex() else old(carouselState.currentIndex) + 1)
      ensures old(Valid()) ==>
        (carouselState.currentIndex > old(carouselState.currentIndex) <==> old(CanScrollRight()))
    {
      trackCommand := ScrollBy(ScrollStep);
      var newIndex := carouselState.currentIndex + 1;
      if MaxIndex() < newIndex {
        newIndex := MaxIndex();
      }
      SetCurrentIndex(newIndex);
    }

    /** Home: the first position, only when scrolling is needed. */
    method ScrollToStart(viewportWidth: int)
      modifies this`carouselState, this`trackCommand
      ensures !NeedsScrolling() ==> carouselState == old(carouselState) && trackCommand == old(trackCommand)
      ensures NeedsScrolling() ==>
        carouselState == old(carouselState).(currentIndex := 0) && trackCommand == ScrollTo(0)
      ensures old(Valid()) ==> Valid()
    {
      if !NeedsScrolling() {
        return;
      }
      ScrollToIndex(0, viewportWidth);
    }

    /** End: the last position, only when scrolling is needed. */
    method ScrollToEnd(viewportWidth: int)
      modifies this`carouselState, this`trackCommand
      ensures !NeedsScrolling() ==> carouselState == old(carouselState) && trackCommand == old(trackCommand)
      ensures NeedsScrolling() ==>
        && carouselState == old(carouselState).(currentIndex := MaxIndex())
        && trackCommand == ScrollTo(MaxIndex() * ItemPitch(viewportWidth))
      ensures old(Valid()) ==> Valid()
    {
      if !NeedsScrolling() {
        return;
      }
      ScrollToIndex(MaxIndex(), viewportWidth);
    }

    /** Mouse down: start a drag anchored at the mouse position and the track's current offset. */
    method HandleMouseDown(pageX: int, offsetLeft: int, trackScrollLeft: int)
      modifies this`carouselState
      ensures !NeedsScrolling() ==> carouselState == old(carouselState)
      ensures NeedsScrolling() ==> carouselState == old(carouselState).(
        isDragging := true, startX := pageX - offsetLeft, scrollLeft := trackScrollLeft)
      ensures carouselState.currentIndex == old(carouselState.currentIndex)
    {
      if !NeedsScrolling() {
        return;
      }
      carouselState := carouselState.(isDragging := true, startX := pageX - offsetLeft, scrollLeft := trackScrollLeft);
    }

    /**
     * Mouse move: while dragging, the track follows the mouse at twice its speed from the
     * anchor. Returns whether the default action was prevented.
     */
    method HandleMouseMove(pageX: int, offsetLeft: int) returns (prevented: bool)
      modifies this`trackCommand
      ensures prevented <==> carouselState.isDragging && NeedsScrolling()
      ensures prevented ==>
        (trackCommand == SetScrollLeft(carouselState.scrollLeft - DragMultiplier * (pageX - offsetLeft - carouselState.startX)))
      ensures !prevented ==> trackCommand == old(trackCommand)
    {
      if !carouselState.isDragging || !NeedsScrolling() {
        return false;
      }
      var x := pageX - offsetLeft;
      var walk := (x - carouselState.startX) * DragMultiplier;
      trackCommand := SetScrollLeft(carouselState.scrollLeft - walk);
      return true;
    }

    method HandleMouseUp()
      modifies this`carouselState
      ensures carouselState == old(carouselState).(isDragging := false)
    {
      carouselState := carouselState.(isDragging := false);
    }

    method HandleMouseLeave()
      modifies this`carouselState
      ensures carouselState == old(carouselState).(isDragging := false)
    {
      carouselState := carouselState.(isDragging := false);
    }

    /** Touch start: as mouse down, and the tap clock and distance restart. */
    method HandleTouchStart(pageX: int, offsetLeft: int, trackScrollLeft: int, now: int)
      modifies this`carouselState, this`touchStartTime, this`touchDistance
      ensures !NeedsScrolling() ==>
        carouselState == old(carouselState) && touchStartTime == old(touchStartTime) && touchDistance == old(touchDistance)
      ensures NeedsScrolling() ==>
        && touchStartTime == now && touchDistance == 0
        && carouselState == old(carouselState).(
             isDragging := true, startX := pageX - offsetLeft, scrollLeft := trackScrollLeft)
    {
      if !NeedsScrolling() {
        return;
      }
      touchStartTime := now;
      touchDistance := 0;
      carouselState := carouselState.(isDragging := true, startX := pageX - offsetLeft, scrollLeft := trackScrollLeft);
    }

    /** Touch move: as mouse move, and the distance becomes the absolute length of the walk. */
    method HandleTouchMove(pageX: int, offsetLeft: int)
      modifies this`trackCommand, this`touchDistance
      ensures var walk := DragMultiplier * (pageX - offsetLeft - carouselState.startX);
        if carouselState.isDragging && NeedsScrolling() then
          && trackCommand == SetScrollLeft(carouselState.scrollLeft - walk)
          && touchDistance == (if walk < 0 then -walk else walk)
        else
          trackCommand == old(trackCommand) && touchDistance == old(touchDistance)
      ensures touchDistance >= TapMaxDistance ==> forall now :: !IsTouchTap(now)
    {
      if !carouselState.isDragging || !NeedsScrolling() {
        return;
      }
      var x := pageX - offsetLeft;
      var walk := (x - carouselState.startX) * DragMultiplier;
      trackCommand := SetScrollLeft(carouselState.scrollLeft - walk);
      touchDistance := if walk < 0 then -walk else walk;
    }

    method HandleTouchEnd()
      modifies this`carouselState
      ensures carouselState == old(carouselState).(isDragging := false)
    {
      carouselState := carouselState.(isDragging := false);
    }

    /** The keys the hook handles. */
    static predicate IsNavigationKey(key: string) {
      key == "ArrowLeft" || key == "ArrowRight" || key == "Home" || key == "End"
    }

    /**
     * Key down: the four navigation keys step or jump, and only when scrolling is needed.
     * Returns whether the default action was prevented.
     */
    method HandleKeyDown(key: string, viewportWidth: int) returns (handled: bool)
      modifies this`carouselState, this`trackCommand
      ensures handled <==> NeedsScrolling() && IsNavigationKey(key)
      ensures !handled ==> carouselState == old(carouselState) && trackCommand == old(trackCommand)
      ensures handled && key == "Home" ==>
        carouselState == old(carouselState).(currentIndex := 0) && trackCommand == ScrollTo(0)
      ensures handled && key == "End" ==>
        && carouselState == old(carouselState).(currentIndex := MaxIndex())
        && trackCommand == ScrollTo(MaxIndex() * ItemPitch(viewportWidth))
      ensures handled && key == "ArrowRight" ==>
        && carouselState == old(carouselState).(currentIndex :=
             if MaxIndex() < old(carouselState.currentIndex) + 1 then MaxIndex() else old(carouselState.currentIndex) + 1)
        && trackCommand == ScrollBy(ScrollStep)
      ensures handled && key == "ArrowLeft" ==>
        && carouselState == old(AfterSetIndex(if carouselState.currentIndex > 0 then carouselState.currentIndex - 1 else 0))
        && trackCommand == ScrollBy(-ScrollStep)
      ensures handled && key == "ArrowLeft" && old(Valid()) ==>
        carouselState == old(carouselState).(currentIndex :=
          if old(carouselState.currentIndex) > 0 then old(carouselState.currentIndex) - 1 else 0)
      ensures old(Valid()) ==> Valid()
    {
      if !NeedsScrolling() {
        return false;
      }
      handled := true;
      if key == "ArrowLeft" {
        ScrollLeft();
      } else if key == "ArrowRight" {
        ScrollRight();
      } else if key == "Home" {
        ScrollToStart(viewportWidth);
      } else if key == "End" {
        ScrollToEnd(viewportWidth);
      } else {
        handled := false;
      }
    }

    method StartAutoScroll()
      modifies this`carouselState
      ensures !NeedsScrolling() ==> carouselState == old(carouselState)
      ensures NeedsScrolling() ==> carouselState == old(carouselState).(isAutoScrolling := true)
    {
      if !NeedsScrolling() {
        return;
      }
      carouselState := carouselState.(isAutoScrolling := true);
    }

    method StopAutoScroll()
      modifies this`carouselState
      ensures carouselState == old(carouselState).(isAutoScrolling := false)
    {
      carouselState := carouselState.(isAutoScrolling := false);
    }

    /** A touch is a tap when it was short and the finger hardly moved. */
    predicate IsTouchTap(now: int)
      reads this
    {
      now - touchStartTime < TapMaxDuration && touchDistance < TapMaxDistance
    }

    /**
     * The track's scroll event: the rounded card index under the left edge becomes the
     * current index, but only when it lies in `[0, maxIndex]`; any other offset is ignored.
     */
    method HandleScroll(trackScrollLeft: int, viewportWidth: int)
      modifies this`carouselState
      ensures var n := RoundDiv(trackScrollLeft, ItemPitch(viewportWidth));
        if NeedsScrolling() && 0 <= n <= MaxIndex() then carouselState == old(carouselState).(currentIndex := n)
        else carouselState == old(carouselState)
      ensures old(Valid()) ==> Valid()
    {
      if !NeedsScrolling() {
        return;
      }
      var newIndex := RoundDiv(trackScrollLeft, ItemPitch(viewportWidth));
      if newIndex != carouselState.currentIndex && newIndex >= 0 && newIndex <= MaxIndex() {
        SetCurrentIndex(newIndex);
      }
    }

    /** The effect that lowers an index left beyond `maxIndex` by a shrinking item count. */
    method ClampToMaxIndex()
      modifies this`carouselState
      ensures carouselState == old(carouselState).(currentIndex :=
        if old(carouselState.currentIndex) > MaxIndex() then MaxIndex() else old(carouselState.currentIndex))
      ensures Valid()
    {
      if carouselState.currentIndex > MaxIndex() {
        carouselState := carouselState.(currentIndex := MaxIndex());
      }
    }

    /** A render with a new item count, followed by the clamp effect. */
    method Rerender(newTotalItems: nat)
      modifies this`totalItems, this`carouselState
      ensures totalItems == newTotalItems
      ensures carouselState == old(carouselState).(currentIndex :=
        if old(carouselState.currentIndex) > MaxIndex() then MaxIndex() else old(carouselState.currentIndex))
      ensures Valid()
    {
      totalItems := newTotalItems;
      ClampToMaxIndex();
    }
  }

  /** At the end of ten items shown four at a time, the right arrow keeps the index at 6. */
  method EndThenArrowRight(viewportWidth: int) returns (index: nat, handled: bool)
    ensures index == 6 && handled
  {
    var c := new CarouselEngine(10, 4);
    c.ScrollToEnd(viewportWidth);
    handled := c.HandleKeyDown("ArrowRight", viewportWidth);
    index := c.carouselState.currentIndex;
  }

  /**
   * A drag that starts at x = 100 over a track at offset 0 and moves to x = 40 scrolls the
   * track to 120 and leaves the index where it was.
   */
  method DragScenario() returns (command: ScrollCommand, index: nat)
    ensures command == SetScrollLeft(120) && index == 0
  {
    var c := new CarouselEngine(20, 8);
    c.HandleMouseDown(100, 0, 0);
    var prevented := c.HandleMouseMove(40, 0);
    command := c.trackCommand;
    index := c.carouselState.currentIndex;
  }

  /**
   * Scrolling to an index and then receiving the scroll event for the offset the track was
   * sent to leaves the index at the wrapped target.
   */
  method ScrollThenSettle(totalItems: nat, visibleItems: int, target: int, viewportWidth: int) returns (index: nat)
    ensures totalItems > visibleItems ==> index == Wrap(target, totalItems - visibleItems)
    ensures totalItems <= visibleItems ==> index == 0
  {
    var c := new CarouselEngine(totalItems, visibleItems);
    c.ScrollToIndex(target, viewportWidth);
    var offset := c.trackCommand.left;
    RoundDivOfMultiple(Wrap(target, c.MaxIndex()), ItemPitch(viewportWidth));
    c.HandleScroll(offset, viewportWidth);
    index := c.carouselState.currentIndex;
  }

  /** Eight items fit the default window of eight, so nothing scrolls; a ninth makes one step. */
  method DefaultWindowScenario() returns (eightScroll: bool, nineMaxIndex: nat)
    ensures !eightScroll && nineMaxIndex == 1
  {
    var eight := new CarouselEngine(8, DefaultVisibleItems);
    eightScroll := eight.NeedsScrolling();
    var nine := new CarouselEngine(9, DefaultVisibleItems);
    nineMaxIndex := nine.MaxIndex();
  }
}
