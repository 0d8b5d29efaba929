/**
 * The services carousel (src/components/ServicesCarousel.tsx): drag bounds and the arrow
 * targets are pixel arithmetic; the entrance / exit timelines and the draggable are state
 * driven by the `isVisible` prop, the timelines' completion and a 100 ms timer.
 * Pixels are integers; GSAP easing and staggering are left out.
 */
module ServicesCarousel {
  import opened Wrappers

  const SlideWidth: int := 320
  const Gap: int := 16
  const SlidesCount: int := 7
  const RightPadding: int := 80
  const DragBuffer: int := 50
  /** One card and one gap: how far an arrow moves the strip. */
  const CardStep: int := SlideWidth + Gap

  datatype Bounds = Bounds(minX: int, maxX: int, totalSliderWidth: int)

  /** Cards, the gaps between them and the right padding. */
  function TotalSliderWidth(): (w: int)
    ensures w == 2416
  {
    SlideWidth * SlidesCount + Gap * (SlidesCount - 1) + RightPadding
  }

  /**
   * `calculateBounds`: `null` without both elements; otherwise the strip may move left
   * until its overhang, less a 50 px buffer, and never right of 0.
   */
  function CalculateBounds(containerPresent: bool, carouselPresent: bool, offsetWidth: int): (r: Option<Bounds>)
    ensures r.None? <==> !containerPresent || !carouselPresent
    ensures r.Some? ==> r.value == Bounds(offsetWidth - 2366, 0, 2416)
  {
    if !containerPresent || !carouselPresent then None
    else
      var maxDragX := -(TotalSliderWidth() - offsetWidth);
      Some(Bounds(maxDragX + DragBuffer, 0, TotalSliderWidth()))
  }

  /** The bounds are ordered only while the viewport is at most 2366 px wide. */
  lemma BoundsOrder(offsetWidth: int)
    ensures var b := CalculateBounds(true, true, offsetWidth).value;
      (offsetWidth <= 2366 ==> b.minX <= b.maxX) && (offsetWidth > 2366 ==> b.minX > b.maxX)
  {
  }

  /** `Math.min(currentX + cardWidth, 0)`. */
  function ScrollLeftTarget(currentX: int): (r: int)
    ensures r <= 0 && r <= currentX + CardStep
    ensures r == 0 || r == currentX + CardStep
  {
    if currentX + CardStep < 0 then currentX + CardStep else 0
  }

  /** `Math.max(currentX - cardWidth, bounds.minX)`. */
  function ScrollRightTarget(currentX: int, minX: int): (r: int)
    ensures r >= minX && r >= currentX - CardStep
    ensures r == minX || r == currentX - CardStep
  {
    if currentX - CardStep > minX then currentX - CardStep else minX
  }

  /** Inside the bounds, each arrow moves at most one card, towards its own end. */
  lemma ArrowsStayInBounds(currentX: int, minX: int)
    requires minX <= currentX <= 0
    ensures currentX <= ScrollLeftTarget(currentX) <= 0
    ensures ScrollLeftTarget(currentX) - currentX <= CardStep
    ensures minX <= ScrollRightTarget(currentX, minX) <= currentX
    ensures currentX - ScrollRightTarget(currentX, minX) <= CardStep
  {
  }

  /** Away from both ends, a right arrow and then a left one (or the reverse) return. */
  lemma ArrowsUndoEachOther(currentX: int, minX: int)
    ensures currentX <= 0 && currentX - CardStep >= minX ==>
      ScrollLeftTarget(ScrollRightTarget(currentX, minX)) == currentX
    ensures currentX >= minX && currentX + CardStep <= 0 ==>
      ScrollRightTarget(ScrollLeftTarget(currentX), minX) == currentX
  {
  }

  /** On a viewport wider than 2366 px the right arrow moves the strip past 0. */
  lemma WideViewportOvershoots()
    ensures CalculateBounds(true, true, 2500) == Some(Bounds(134, 0, 2416))
    ensures ScrollRightTarget(0, 134) == 134
  {
  }

  datatype Direction = Entrance | Exit

  /**
   * The component's state. `timeline` is the running timeline, if any (a completed or
   * killed one is `None`: killing it again does nothing); `timers` counts the pending
   * 100 ms timers that create the draggable; `draggable` is `draggableRef.current`, with
   * the bounds it was created with; `unkilled` counts the draggables created and not yet
   * killed, the referenced one included.
   *
   * Both animation effects are `useGSAP` calls with dependencies and no `revertOnUpdate`,
   * so the cleanups they return are collected in the hook's context and run only when
   * the component unmounts; a re-run adds to the context. `revertOnUpdate` selects the
   * other behaviour, where each re-run first runs the previous run's cleanup; the
   * component as written is the instance with `revertOnUpdate == false`.
   */
  class Carousel {
    var isVisible: bool
    var animationComplete: bool
    var isAnimating: bool
    var timeline: Option<Direction>
    var timers: nat
    var draggable: Option<Bounds>
    var unkilled: nat
    var mounted: bool
    const revertOnUpdate: bool
    const cardsMounted: bool
    const containerPresent: bool
    const carouselPresent: bool
    const offsetWidth: int

    /** The draggable effect's condition. */
    predicate Gate()
      reads this
    {
      isVisible && animationComplete && !isAnimating
    }

    /** The arrow buttons are enabled (and opaque): `disabled={!isVisible || !animationComplete}`. */
    predicate ArrowsEnabled()
      reads this
    {
      isVisible && animationComplete
    }

    /**
     * A running timeline means `isAnimating`; without cards nothing animates; a draggable
     * has the current bounds and is one of the unkilled ones; after unmount nothing is
     * left running. Only when cleanups run on every re-run do a draggable and its timer
     * exist solely under the gate, at most one at a time, with no draggable left over.
     */
    predicate Valid()
      reads this
    {
      (timeline.Some? ==> isAnimating) &&
      (!cardsMounted ==> timeline.None? && !animationComplete) &&
      (draggable.Some? ==> Some(draggable.value) == CalculateBounds(containerPresent, carouselPresent, offsetWidth) && unkilled >= 1) &&
      (!mounted ==> timeline.None? && timers == 0 && draggable.None?) &&
      (revertOnUpdate ==>
        ((draggable.Some? || timers > 0) ==> Gate()) && timers <= 1 && !(timers > 0 && draggable.Some?) &&
        unkilled == (if draggable.Some? then 1 else 0))
    }

    /** Mount: the visibility effect starts the timeline for the initial prop. */
    constructor (revertOnUpdate: bool, isVisible: bool, cardsMounted: bool, containerPresent: bool, carouselPresent: bool, offsetWidth: int)
      ensures Valid() && mounted
      ensures this.isVisible == isVisible && !animationComplete && isAnimating == cardsMounted
      ensures timeline == (if cardsMounted then Some(if isVisible then Entrance else Exit) else None)
      ensures timers == 0 && draggable.None? && unkilled == 0
      ensures this.revertOnUpdate == revertOnUpdate && this.cardsMounted == cardsMounted
      ensures this.containerPresent == containerPresent && this.carouselPresent == carouselPresent
      ensures this.offsetWidth == offsetWidth
    {
      this.revertOnUpdate := revertOnUpdate;
      this.isVisible := isVisible;
      this.cardsMounted := cardsMounted;
      this.containerPresent := containerPresent;
      this.carouselPresent := carouselPresent;
      this.offsetWidth := offsetWidth;
      animationComplete := false;
      timers := 0;
      draggable := None;
      unkilled := 0;
      mounted := true;
      if cardsMounted {
        isAnimating := true;
        timeline := Some(if isVisible then Entrance else Exit);
      } else {
        isAnimating := false;
        timeline := None;
      }
    }

    /**
     * The draggable effect re-runs after its dependencies changed: under the gate it sets
     * a timer. Only with `revertOnUpdate` does the previous run's cleanup first clear its
     * timer and kill the draggable.
     */
    method RunDraggableEffect()
      requires draggable.Some? ==> unkilled >= 1
      modifies this`timers, this`draggable, this`unkilled
      ensures !revertOnUpdate ==>
        draggable == old(draggable) && unkilled == old(unkilled) &&
        timers == old(timers) + (if Gate() then 1 else 0)
      ensures revertOnUpdate ==>
        draggable.None? && unkilled == old(unkilled) - (if old(draggable).Some? then 1 else 0) &&
        timers == (if Gate() then 1 else 0)
    {
      if revertOnUpdate {
        timers := 0;
        if draggable.Some? {
          unkilled := unkilled - 1;
          draggable := None;
        }
      }
      if Gate() {
        timers := timers + 1;
      }
    }

    /**
     * The prop changes: the old timeline is killed and, with the cards mounted, the
     * entrance or exit timeline starts; the draggable effect re-runs, never under the gate.
     */
    method SetVisible(v: bool)
      requires Valid() && mounted
      modifies this
      ensures Valid() && mounted
      ensures v == old(isVisible) ==> unchanged(this)
      ensures v != old(isVisible) ==>
        !Gate() && isVisible == v && animationComplete == old(animationComplete) &&
        isAnimating == (cardsMounted || old(isAnimating)) &&
        timeline == (if cardsMounted then Some(if v then Entrance else Exit) else None)
      ensures v != old(isVisible) && !revertOnUpdate ==>
        draggable == old(draggable) && unkilled == old(unkilled) && timers == old(timers)
      ensures v != old(isVisible) && revertOnUpdate ==>
        draggable.None? && unkilled == 0 && timers == 0
    {
      if v == isVisible {
        return;
      }
      isVisible := v;
      timeline := None;
      if cardsMounted {
        isAnimating := true;
        timeline := Some(if v then Entrance else Exit);
      }
      RunDraggableEffect();
    }

    /**
     * The running timeline completes: an entrance sets `animationComplete`, an exit
     * clears it, and both clear `isAnimating`. A killed timeline never completes. The
     * draggable effect re-runs, and after an entrance it is under the gate.
     */
    method TimelineComplete()
      requires Valid() && mounted
      modifies this
      ensures Valid() && mounted
      ensures old(timeline).None? ==> unchanged(this)
      ensures old(timeline).Some? ==>
        isVisible == old(isVisible) && animationComplete == (old(timeline) == Some(Entrance)) &&
        !isAnimating && timeline.None?
      ensures old(timeline).Some? && !revertOnUpdate ==>
        draggable == old(draggable) && unkilled == old(unkilled) &&
        timers == old(timers) + (if Gate() then 1 else 0)
      ensures old(timeline).Some? && revertOnUpdate ==>
        draggable.None? && unkilled == 0 && timers == (if Gate() then 1 else 0)
    {
      if timeline.None? {
        return;
      }
      animationComplete := timeline.value == Entrance;
      isAnimating := false;
      timeline := None;
      RunDraggableEffect();
    }

    /**
     * A 100 ms timer fires: `createDraggable` with the bounds measured now, whatever the
     * visibility is by then. A draggable it replaces is not killed.
     */
    method TimerFires()
      requires Valid() && mounted
      modifies this
      ensures Valid() && mounted
      ensures old(timers) == 0 ==> unchanged(this)
      ensures old(timers) > 0 ==>
        var bounds := CalculateBounds(containerPresent, carouselPresent, offsetWidth);
        timers == old(timers) - 1 &&
        draggable == (if bounds.Some? then bounds else old(draggable)) &&
        unkilled == old(unkilled) + (if bounds.Some? then 1 else 0) &&
        isVisible == old(isVisible) && animationComplete == old(animationComplete) &&
        isAnimating == old(isAnimating) && timeline == old(timeline)
    {
      if timers == 0 {
        return;
      }
      timers := timers - 1;
      var bounds := CalculateBounds(containerPresent, carouselPresent, offsetWidth);
      if bounds.Some? && carouselPresent {
        draggable := bounds;
        unkilled := unkilled + 1;
      }
    }

    /** `scrollLeft`: the tween target, or `None` when the handler returns early. */
    method ScrollLeft(currentX: int) returns (target: Option<int>)
      requires Valid()
      ensures target.None? <==> !carouselPresent || draggable.None?
      ensures target.Some? ==> target.value == ScrollLeftTarget(currentX) && target.value <= 0
    {
      if !carouselPresent || draggable.None? {
        return None;
      }
      var newX := ScrollLeftTarget(currentX);
      target := Some(newX);
    }

    /** `scrollRight`: also returns early when the bounds cannot be measured. */
    method ScrollRight(currentX: int) returns (target: Option<int>)
      requires Valid()
      ensures target.None? <==> !carouselPresent || draggable.None?
      ensures target.Some? ==>
        target.value == ScrollRightTarget(currentX, draggable.value.minX) && target.value >= draggable.value.minX
    {
      if !carouselPresent || draggable.None? {
        return None;
      }
      var bounds := CalculateBounds(containerPresent, carouselPresent, offsetWidth);
      if bounds.None? {
        return None;
      }
      var newX := ScrollRightTarget(currentX, bounds.value.minX);
      target := Some(newX);
    }

    /**
     * A click on an arrow button: a disabled button does nothing, an enabled one runs its
     * handler.
     */
    method ClickArrow(left: bool, currentX: int) returns (target: Option<int>)
      requires Valid()
      ensures target.None? <==> !ArrowsEnabled() || !carouselPresent || draggable.None?
      ensures target.Some? ==>
        target.value == (if left then ScrollLeftTarget(currentX) else ScrollRightTarget(currentX, draggable.value.minX))
    {
      if !ArrowsEnabled() {
        return None;
      }
      if left {
        target := ScrollLeft(currentX);
      } else {
        target := ScrollRight(currentX);
      }
    }

    /**
     * Unmount: the hook contexts revert, running every collected cleanup: the timeline is
     * killed, every pending timer cleared and the referenced draggable killed. Draggables
     * it no longer references stay alive.
     */
    method Unmount()
      requires Valid()
      modifies this
      ensures Valid() && !mounted
      ensures timeline.None? && timers == 0 && draggable.None?
      ensures unkilled == old(unkilled) - (if old(draggable).Some? then 1 else 0)
      ensures revertOnUpdate ==> unkilled == 0
      ensures isVisible == old(isVisible) && animationComplete == old(animationComplete) &&
        isAnimating == old(isAnimating)
    {
      timeline := None;
      timers := 0;
      if draggable.Some? {
        unkilled := unkilled - 1;
        draggable := None;
      }
      mounted := false;
    }
  }

  /**
   * As written: hiding and re-showing keeps the draggable made after the first entrance,
   * so while the entrance replays both arrows are enabled and still move the strip.
   */
  method ReshowKeepsDraggable(offsetWidth: int) returns (c: Carousel, left: Option<int>)
    ensures c.Valid() && c.ArrowsEnabled() && c.isAnimating && c.timeline == Some(Entrance)
    ensures c.draggable == CalculateBounds(true, true, offsetWidth)
    ensures left == Some(0)
  {
    c := new Carousel(false, true, true, true, true, offsetWidth);
    c.TimelineComplete();
    c.TimerFires();
    c.SetVisible(false);
    c.SetVisible(true);
    left := c.ClickArrow(true, -CardStep);
  }

  /**
   * With cleanups on every re-run, the same hide and re-show kills the draggable: the
   * arrows are enabled while the entrance replays, but do nothing until it completes.
   */
  method ReshowDuringExit(offsetWidth: int) returns (c: Carousel, left: Option<int>)
    ensures c.Valid() && c.ArrowsEnabled() && c.isAnimating && c.timeline == Some(Entrance)
    ensures c.draggable.None? && c.timers == 0
    ensures left.None?
  {
    c := new Carousel(true, true, true, true, true, offsetWidth);
    c.TimelineComplete();
    c.TimerFires();
    assert c.draggable.Some?;
    c.SetVisible(false);
    c.SetVisible(true);
    left := c.ClickArrow(true, -CardStep);
  }

  /**
   * As written: a timer set before a quick hide still fires, so a draggable is created
   * while the carousel is hidden; the disabled arrows ignore it.
   */
  method TimerAfterHide(offsetWidth: int) returns (c: Carousel, left: Option<int>)
    ensures c.Valid() && !c.isVisible && !c.Gate()
    ensures c.draggable == CalculateBounds(true, true, offsetWidth) && c.unkilled == 1
    ensures left.None?
  {
    c := new Carousel(false, true, true, true, true, offsetWidth);
    c.TimelineComplete();
    c.SetVisible(false);
    c.TimerFires();
    left := c.ClickArrow(true, -CardStep);
  }

  /**
   * As written: a second full entrance creates a second draggable over the first, which
   * is never killed, not even when the component unmounts.
   */
  method SecondEntranceLeaks(offsetWidth: int) returns (c: Carousel)
    ensures c.Valid() && !c.mounted && c.draggable.None?
    ensures c.unkilled == 1
  {
    c := new Carousel(false, true, true, true, true, offsetWidth);
    c.TimelineComplete();
    c.TimerFires();
    c.SetVisible(false);
    c.TimelineComplete();
    c.SetVisible(true);
    c.TimelineComplete();
    c.TimerFires();
    assert c.unkilled == 2;
    c.Unmount();
  }

  /**
   * With cleanups on every re-run, the same sequence leaves no draggable alive after
   * unmount.
   */
  method SecondEntranceReleased(offsetWidth: int) returns (c: Carousel)
    ensures c.Valid() && !c.mounted && c.draggable.None?
    ensures c.unkilled == 0
  {
    c := new Carousel(true, true, true, true, true, offsetWidth);
    c.TimelineComplete();
    c.TimerFires();
    c.SetVisible(false);
    c.TimelineComplete();
    c.SetVisible(true);
    c.TimelineComplete();
    c.TimerFires();
    c.Unmount();
  }
}
