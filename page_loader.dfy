/**
 * The page loader (src/components/PageLoader2.tsx). On mount it locks scrolling, builds
 * 20 cover blocks and starts a chain of timers: after 100 ms it checks its elements and
 * signals `onReady` (or gives up with `onComplete`); 500 ms later it starts the exit
 * animation if the document is loaded, else 1500 ms after that; the exit timeline hides the
 * loader and calls `onComplete`. Time is in milliseconds from mount. Whether
 * `document.readyState` is "complete" and whether the logo elements are attached are
 * observations the caller supplies when a timer fires.
 */
module PageLoader {
  import opened Wrappers

  const BlockCount: nat := 20
  const StartDelay: int := 100
  const CheckDelay: int := 500
  const FallbackDelay: int := 1500
  /** The latest moment the exit can start: 100 + 500 + 1500. */
  const LatestExit: int := StartDelay + CheckDelay + FallbackDelay

  /**
   * One tween of a GSAP timeline, placed `offset` ms after the timeline's current end
   * (`"+=0.4"`; a negative offset such as `"-=0.1"` overlaps the previous tweens).
   */
  datatype Tween = Tween(offset: int, duration: nat)

  /** When the timeline made of `tweens` ends. */
  function TimelineEnd(tweens: seq<Tween>): (e: int)
    ensures |tweens| > 0 ==> e >= TimelineEnd(tweens[..|tweens| - 1])
    ensures |tweens| > 0 ==> e >= TimelineEnd(tweens[..|tweens| - 1]) + tweens[|tweens| - 1].offset + tweens[|tweens| - 1].duration
    decreases |tweens|
  {
    if |tweens| == 0 then 0
    else
      var before := TimelineEnd(tweens[..|tweens| - 1]);
      var last := tweens[|tweens| - 1];
      if before + last.offset + last.duration > before then before + last.offset + last.duration else before
  }

  /** A staggered tween of `count` targets: the last starts `(count - 1) * stagger` ms late. */
  function StaggeredDuration(count: nat, each: nat, stagger: nat): (d: nat)
    ensures count > 0 ==> d == each + (count - 1) * stagger
    ensures count == 0 ==> d == 0
  {
    if count == 0 then 0 else each + (count - 1) * stagger
  }

  /** Logo in (0.6 s), logo out after 0.4 s (0.3 s), overlay fade, blocks out. */
  const ExitTweens: seq<Tween> := [
    Tween(0, 600), Tween(400, 300), Tween(-100, 200), Tween(-100, StaggeredDuration(BlockCount, 600, 15))
  ]

  /** The exit timeline lasts 2185 ms: it ends with the last block, at 1300 + 600 + 19 * 15. */
  function ExitDuration(): (d: int)
    ensures d == 2185
  {
    var t1 := ExitTweens[..1];
    var t2 := ExitTweens[..2];
    var t3 := ExitTweens[..3];
    assert t1[..0] == [] && t2[..1] == t1 && t3[..2] == t2 && ExitTweens[..3] == t3;
    assert TimelineEnd(t1) == 600;
    assert TimelineEnd(t2) == 1300;
    assert TimelineEnd(t3) == 1400;
    TimelineEnd(ExitTweens)
  }

  /** `onComplete` is called at most 4285 ms after mount. */
  const LatestComplete: int := LatestExit + 2185

  /** The timer callbacks and the exit timeline's completion. */
  datatype Task = StartLoader | CheckPageLoaded | StartExit | ExitTimelineDone

  datatype Timer = Timer(dueAt: int, task: Task)

  /** The callbacks the loader calls on its parent. */
  datatype Callback = OnReady | OnComplete

  /** How many stages are left: every timer firing lowers it. */
  function Rank(pending: Option<Timer>): nat {
    if pending.None? then 0
    else
      match pending.value.task
      case StartLoader => 4
      case CheckPageLoaded => 3
      case StartExit => 2
      case ExitTimelineDone => 1
  }

  /** `createBlocks`: 20 blocks in order, or none when the overlay is missing. */
  method CreateBlocks(overlayPresent: bool) returns (blocks: seq<nat>)
    ensures overlayPresent ==> |blocks| == BlockCount && forall k :: 0 <= k < |blocks| ==> blocks[k] == k
    ensures !overlayPresent ==> blocks == []
  {
    blocks := [];
    if !overlayPresent {
      return;
    }
    var i := 0;
    while i < BlockCount
      invariant 0 <= i <= BlockCount
      invariant |blocks| == i
      invariant forall k :: 0 <= k < i ==> blocks[k] == k
    {
      blocks := blocks + [i];
      i := i + 1;
    }
  }

  /**
   * The overflow style the scroll-lock effect leaves on body and html: "hidden" while the
   * mounted loader is visible; "" otherwise (the effect's else branch and its cleanup).
   */
  function Overflow(mounted: bool, isVisible: bool): (s: string)
    ensures s == "hidden" <==> mounted && isVisible
    ensures s != "hidden" ==> s == ""
  {
    if mounted && isVisible then "hidden" else ""
  }

  class Loader {
    var isVisible: bool
    var mounted: bool
    var bodyOverflow: string
    var htmlOverflow: string
    var blocks: seq<nat>
    /** The one timer (or running timeline) the chain is waiting for. */
    var pending: Option<Timer>
    var now: int
    var exitStartedAt: Option<int>
    var readyCalls: nat
    var completeCalls: nat

    /** The stage invariant of the timer chain. */
    predicate Valid()
      reads this
    {
      bodyOverflow == htmlOverflow == Overflow(mounted, isVisible) &&
      readyCalls <= 1 && completeCalls <= 1 &&
      (pending.None? <==> completeCalls == 1) &&
      0 <= now <= LatestComplete &&
      (pending.Some? ==> now <= pending.value.dueAt && isVisible) &&
      (pending.Some? && pending.value.task == StartLoader ==>
        pending.value.dueAt == StartDelay && readyCalls == 0 && exitStartedAt.None?) &&
      (pending.Some? && pending.value.task == CheckPageLoaded ==>
        pending.value.dueAt == StartDelay + CheckDelay && readyCalls == 1 && exitStartedAt.None?) &&
      (pending.Some? && pending.value.task == StartExit ==>
        pending.value.dueAt == LatestExit && readyCalls == 1 && exitStartedAt.None?) &&
      (pending.Some? && pending.value.task == ExitTimelineDone ==>
        exitStartedAt.Some? && pending.value.dueAt == exitStartedAt.value + ExitDuration()) &&
      (exitStartedAt.Some? ==>
        readyCalls == 1 && (exitStartedAt.value == StartDelay + CheckDelay || exitStartedAt.value == LatestExit) &&
        exitStartedAt.value <= now) &&
      (!isVisible ==> completeCalls == 1 && exitStartedAt.Some?) &&
      (completeCalls == 1 && readyCalls == 0 ==> isVisible && exitStartedAt.None?) &&
      (completeCalls == 1 && readyCalls == 1 ==> !isVisible)
    }

    /** Mount: visible, scroll locked, blocks built, the 100 ms timer set. */
    constructor (overlayPresent: bool)
      ensures Valid()
      ensures isVisible && mounted && bodyOverflow == "hidden" && htmlOverflow == "hidden"
      ensures overlayPresent ==> |blocks| == BlockCount
      ensures !overlayPresent ==> blocks == []
      ensures pending == Some(Timer(StartDelay, StartLoader)) && now == 0 && exitStartedAt.None?
      ensures readyCalls == 0 && completeCalls == 0
    {
      var created := CreateBlocks(overlayPresent);
      isVisible := true;
      mounted := true;
      bodyOverflow := "hidden";
      htmlOverflow := "hidden";
      blocks := created;
      pending := Some(Timer(StartDelay, StartLoader));
      now := 0;
      exitStartedAt := None;
      readyCalls := 0;
      completeCalls := 0;
    }

    /** `setIsVisible(false)`; the scroll-lock effect then resets both overflows. */
    method Hide()
      modifies this`isVisible, this`bodyOverflow, this`htmlOverflow
      ensures !isVisible && bodyOverflow == "" && htmlOverflow == ""
    {
      isVisible := false;
      bodyOverflow := "";
      htmlOverflow := "";
    }

    /** `startExitAnimation`, at the current time. */
    method StartExitAnimation(elementsPresent: bool) returns (callback: Option<Callback>)
      modifies this
      ensures exitStartedAt == Some(old(now)) && now == old(now) && mounted == old(mounted)
      ensures readyCalls == old(readyCalls) && blocks == old(blocks)
      ensures elementsPresent && |blocks| > 0 ==>
        callback.None? && pending == Some(Timer(now + ExitDuration(), ExitTimelineDone)) &&
        isVisible == old(isVisible) && completeCalls == old(completeCalls) &&
        bodyOverflow == old(bodyOverflow) && htmlOverflow == old(htmlOverflow)
      ensures !(elementsPresent && |blocks| > 0) ==>
        callback == Some(OnComplete) && pending.None? && !isVisible &&
        bodyOverflow == "" && htmlOverflow == "" && completeCalls == old(completeCalls) + 1
    {
      exitStartedAt := Some(now);
      if !elementsPresent || |blocks| == 0 {
        Hide();
        completeCalls := completeCalls + 1;
        pending := None;
        callback := Some(OnComplete);
      } else {
        pending := Some(Timer(now + ExitDuration(), ExitTimelineDone));
        callback := None;
      }
    }

    /**
     * The pending timer fires at its due time (or the exit timeline completes).
     * `readyState` says whether the document has finished loading; `elementsPresent`
     * whether the logo and its overlay are attached. The callback it calls, if any, is
     * returned.
     */
    method Step(readyState: bool, elementsPresent: bool) returns (callback: Option<Callback>)
      requires Valid()
      modifies this
      ensures Valid()
      ensures Rank(pending) < Rank(old(pending)) || (old(pending).None? && unchanged(this))
      ensures old(pending).Some? ==> now == old(pending).value.dueAt
      ensures mounted == old(mounted) && blocks == old(blocks)
      ensures callback == Some(OnReady) <==>
        old(pending).Some? && old(pending).value.task == StartLoader && elementsPresent && |blocks| > 0
      ensures callback == Some(OnComplete) <==> completeCalls == old(completeCalls) + 1
      ensures readyCalls == old(readyCalls) + (if callback == Some(OnReady) then 1 else 0)
      ensures completeCalls == old(completeCalls) + (if callback == Some(OnComplete) then 1 else 0)
      ensures old(pending).Some? && old(pending).value.task == StartLoader && elementsPresent && |blocks| > 0 ==>
        pending == Some(Timer(StartDelay + CheckDelay, CheckPageLoaded))
      ensures old(pending).Some? && old(pending).value.task == StartLoader && !(elementsPresent && |blocks| > 0) ==>
        isVisible && pending.None? && exitStartedAt.None?
      ensures old(pending).Some? && old(pending).value.task == CheckPageLoaded ==>
        (readyState ==> exitStartedAt == Some(StartDelay + CheckDelay)) &&
        (!readyState ==> pending == Some(Timer(LatestExit, StartExit)))
      ensures old(pending).Some? && old(pending).value.task == StartExit ==> exitStartedAt == Some(LatestExit)
      ensures old(pending).Some? && old(pending).value.task == ExitTimelineDone ==>
        !isVisible && pending.None? && callback == Some(OnComplete) && exitStartedAt == old(exitStartedAt)
    {
      if pending.None? {
        return None;
      }
      var timer := pending.value;
      now := timer.dueAt;
      match timer.task {
        case StartLoader =>
          if !elementsPresent || |blocks| == 0 {
            completeCalls := completeCalls + 1;
            pending := None;
            callback := Some(OnComplete);
          } else {
            readyCalls := readyCalls + 1;
            pending := Some(Timer(now + CheckDelay, CheckPageLoaded));
            callback := Some(OnReady);
          }
        case CheckPageLoaded =>
          if readyState {
            callback := StartExitAnimation(elementsPresent);
          } else {
            pending := Some(Timer(now + FallbackDelay, StartExit));
            callback := None;
          }
        case StartExit =>
          callback := StartExitAnimation(elementsPresent);
        case ExitTimelineDone =>
          Hide();
          completeCalls := completeCalls + 1;
          pending := None;
          callback := Some(OnComplete);
      }
    }

    /** Unmount: the scroll-lock cleanup resets both overflows; the timers are not cleared. */
    method Unmount()
      requires Valid()
      modifies this`mounted, this`bodyOverflow, this`htmlOverflow
      ensures Valid()
      ensures !mounted && bodyOverflow == "" && htmlOverflow == ""
    {
      mounted := false;
      bodyOverflow := "";
      htmlOverflow := "";
    }

    /** The loader renders its markup only while visible (`if (!isVisible) return null`). */
    method Render() returns (rendered: bool)
      requires Valid()
      ensures rendered <==> isVisible
      ensures !rendered ==> completeCalls == 1
    {
      rendered := isVisible;
    }

    /**
     * Runs the chain to its end under fixed observations. `onComplete` is then called
     * exactly once, `onReady` once exactly when the elements were there at the start,
     * the exit started by 2100 ms, and the loader is hidden unless it gave up at the start.
     */
    method Settle(readyState: bool, elementsPresent: bool) returns (callbacks: seq<Callback>)
      requires Valid() && pending == Some(Timer(StartDelay, StartLoader)) && mounted
      modifies this
      ensures Valid() && pending.None? && mounted && blocks == old(blocks)
      ensures completeCalls == 1 && now <= LatestComplete
      ensures readyCalls == (if elementsPresent && |blocks| > 0 then 1 else 0)
      ensures callbacks == (if elementsPresent && |blocks| > 0 then [OnReady, OnComplete] else [OnComplete])
      ensures isVisible <==> !(elementsPresent && |blocks| > 0)
      ensures exitStartedAt.Some? ==> exitStartedAt.value <= LatestExit
      ensures elementsPresent && |blocks| > 0 ==>
        exitStartedAt == Some(if readyState then StartDelay + CheckDelay else LatestExit)
      ensures !(elementsPresent && |blocks| > 0) ==> exitStartedAt.None?
      ensures bodyOverflow == htmlOverflow == (if isVisible then "hidden" else "")
    {
      callbacks := [];
      while pending.Some?
        invariant Valid() && mounted && blocks == old(blocks)
        invariant pending.Some? && pending.value.task == StartExit ==> !readyState
        invariant (pending.None? || pending.value.task == ExitTimelineDone) && exitStartedAt.Some? ==>
          exitStartedAt == Some(if readyState then StartDelay + CheckDelay else LatestExit)
        invariant pending.Some? ==> pending.value.task != StartLoader || callbacks == []
        invariant pending.Some? && pending.value.task != StartLoader ==> callbacks == [OnReady]
        invariant pending.Some? && pending.value.task != StartLoader ==> elementsPresent && |blocks| > 0
        invariant pending.None? ==>
          callbacks == (if elementsPresent && |blocks| > 0 then [OnReady, OnComplete] else [OnComplete])
        invariant pending.None? ==> (readyCalls == 1 <==> elementsPresent && |blocks| > 0)
        decreases Rank(pending)
      {
        var callback := Step(readyState, elementsPresent);
        if callback.Some? {
          assert callback.value == OnReady || callback.value == OnComplete;
          assert callback == Some(callback.value);
        }
        if callback.Some? {
          callbacks := callbacks + [callback.value];
        }
      }
    }
  }
}
