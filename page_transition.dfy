/**
 * The page transition (src/components/PageTransition4.tsx). Clicks on internal links are
 * intercepted; an accepted route change covers the page with 20 blocks and then pushes
 * the route; after the route changes the effect re-runs and reveals the new page when
 * the visit came from a navigation. Animations are single completion events, the router
 * is a queue of pushed paths that `CommitNavigation` applies, and sessionStorage's
 * "navigated" entry is the field `sessionFlag`.
 */
module PageTransition {
  import opened Wrappers
  import opened Strings

  const NavigatedValue: string := "true"
  const BlockCount: nat := 20

  /**
   * An anchor element of the document: its identity and its current `href` attribute.
   * Anchors of the layout (navigation, footer) keep their identity across route changes.
   */
  datatype Anchor = Anchor(id: nat, href: string)

  /**
   * A click listener one run of the effect attached to anchor `anchor`; `path` is the
   * `pathname` that run's `handleLinkClick` closes over.
   */
  datatype Listener = Listener(anchor: nat, path: string)

  /**
   * `createBlocks`: without the overlay the blocks are left as they were; with it they
   * are replaced by 20 fresh ones.
   */
  method CreateBlocks(overlayPresent: bool, current: seq<nat>) returns (blocks: seq<nat>)
    ensures overlayPresent ==> |blocks| == BlockCount && forall k :: 0 <= k < |blocks| ==> blocks[k] == k
    ensures !overlayPresent ==> blocks == current
  {
    if !overlayPresent {
      return current;
    }
    blocks := [];
    var i := 0;
    while i < BlockCount
      invariant 0 <= i <= BlockCount
      invariant |blocks| == i
      invariant forall k :: 0 <= k < i ==> blocks[k] == k
    {
      blocks := blocks + [i];
      i := i + 1;
    }
  }

  /** Some anchor of the page has identity `id`. */
  predicate OnPage(anchors: seq<Anchor>, id: nat) {
    exists j :: 0 <= j < |anchors| && anchors[j].id == id
  }

  /**
   * `querySelectorAll('a[href^="/"]')` and one listener closing over `path` on each link
   * it selects: the anchors whose href attribute starts with "/", in document order.
   */
  function Attach(anchors: seq<Anchor>, path: string): seq<Listener>
    decreases |anchors|
  {
    if |anchors| == 0 then []
    else (if StartsWith(anchors[0].href, "/") then [Listener(anchors[0].id, path)] else []) + Attach(anchors[1..], path)
  }

  /** The listeners attached to a page close over `path` and sit on its anchors. */
  lemma {:induction false} AttachOnPage(anchors: seq<Anchor>, path: string)
    ensures forall k :: 0 <= k < |Attach(anchors, path)| ==>
      Attach(anchors, path)[k].path == path && OnPage(anchors, Attach(anchors, path)[k].anchor)
    ensures |Attach(anchors, path)| <= |anchors|
    decreases |anchors|
  {
    if |anchors| > 0 {
      AttachOnPage(anchors[1..], path);
      forall id | OnPage(anchors[1..], id)
        ensures OnPage(anchors, id)
      {
        var j :| 0 <= j < |anchors[1..]| && anchors[1..][j].id == id;
        assert anchors[j + 1].id == id;
      }
      assert OnPage(anchors, anchors[0].id);
    }
  }

  /** Every internal anchor of a page gets a listener closing over `path`. */
  lemma {:induction false} AttachCovers(anchors: seq<Anchor>, path: string, a: Anchor)
    requires a in anchors && StartsWith(a.href, "/")
    ensures Listener(a.id, path) in Attach(anchors, path)
    decreases |anchors|
  {
    if anchors[0] != a {
      AttachCovers(anchors[1..], path, a);
    }
  }

  /** Taking one more anchor into account adds a listener on it, or none at all. */
  lemma AttachSnoc(anchors: seq<Anchor>, a: Anchor, path: string)
    ensures Attach(anchors + [a], path) ==
      Attach(anchors, path) + (if StartsWith(a.href, "/") then [Listener(a.id, path)] else [])
    decreases |anchors|
  {
    if |anchors| > 0 {
      assert (anchors + [a])[1..] == anchors[1..] + [a];
      AttachSnoc(anchors[1..], a, path);
    }
  }

  /** `links.forEach(link => link.addEventListener("click", handleLinkClick))`. */
  method AttachListeners(anchors: seq<Anchor>, path: string) returns (added: seq<Listener>)
    ensures added == Attach(anchors, path)
  {
    added := [];
    var i := 0;
    while i < |anchors|
      invariant 0 <= i <= |anchors|
      invariant added == Attach(anchors[..i], path)
    {
      AttachSnoc(anchors[..i], anchors[i], path);
      assert anchors[..i + 1] == anchors[..i] + [anchors[i]];
      if StartsWith(anchors[i].href, "/") {
        added := added + [Listener(anchors[i].id, path)];
      }
      i := i + 1;
    }
    assert anchors[..|anchors|] == anchors;
  }

  /**
   * The listeners left after the document changes to a page with anchors `page`:
   * those on removed anchors disappear with them.
   */
  function Prune(ls: seq<Listener>, page: seq<Anchor>): (r: seq<Listener>)
    ensures forall k :: 0 <= k < |r| ==> OnPage(page, r[k].anchor) && r[k] in ls
    ensures forall l :: l in ls && OnPage(page, l.anchor) ==> l in r
    decreases |ls|
  {
    if |ls| == 0 then []
    else
      var rest := Prune(ls[1..], page);
      assert forall l :: l in ls ==> l == ls[0] || l in ls[1..];
      if OnPage(page, ls[0].anchor) then [ls[0]] + rest else rest
  }

  /** Some listener sits on anchor `id`. */
  predicate Listens(ls: seq<Listener>, id: nat) {
    exists k :: 0 <= k < |ls| && ls[k].anchor == id
  }

  /** Some listener on anchor `id` closes over a path other than `url`. */
  predicate Stale(ls: seq<Listener>, id: nat, url: string) {
    exists k :: 0 <= k < |ls| && ls[k].anchor == id && ls[k].path != url
  }

  /**
   * `new URL(target.href).pathname` for an internal href: the part before any query or
   * fragment.
   */
  function PathOf(href: string): (p: string)
    ensures |p| <= |href| && p == href[..|p|]
    ensures '?' !in p && '#' !in p
    ensures |p| < |href| ==> href[|p|] == '?' || href[|p|] == '#'
    decreases |href|
  {
    if |href| == 0 || href[0] == '?' || href[0] == '#' then ""
    else [href[0]] + PathOf(href[1..])
  }

  /** An href with no query and no fragment is its own path. */
  lemma PathOfPlain(href: string)
    requires '?' !in href && '#' !in href
    ensures PathOf(href) == href
  {
  }

  /**
   * The transition component. The `useGSAP` effect has dependencies and no
   * `revertOnUpdate`, so the cleanup each run returns is collected and runs only at
   * unmount: `isMounted` stays true once set, and the click listeners of every run stay
   * on the anchors that survive a route change, each closing over the pathname of its
   * run. `revertOnUpdate` selects the other behaviour, where a re-run first reverts the
   * context: the previous run's cleanup runs and the reveal tweens it started are killed.
   * The component as written is the instance with `revertOnUpdate == false`.
   */
  class Transition {
    var isTransitioning: bool
    var isMounted: bool
    var hasNavigated: bool
    var shouldBlockScroll: bool
    var bodyOverflow: string
    var htmlOverflow: string
    var sessionFlag: Option<string>
    var pathname: string
    var blocks: seq<nat>
    /** The anchors of the current document. */
    var page: seq<Anchor>
    /** The listeners earlier runs attached that are still in place, oldest first. */
    var older: seq<Listener>
    /** The listeners the current run attached. */
    var run: seq<Listener>
    /** The targets of the cover timelines in flight, oldest first. */
    var covers: seq<string>
    /** Reveal tweens in flight. */
    var revealsRunning: nat
    /** Paths handed to `router.push` and not yet committed, oldest first. */
    var pushes: seq<string>
    const revertOnUpdate: bool

    /** Every click listener in place, in the order attached. */
    function Listeners(): seq<Listener>
      reads this
    {
      older + run
    }

    /** The scroll-lock effect keeps both overflows in step with `shouldBlockScroll`. */
    predicate ScrollSynced()
      reads this
    {
      bodyOverflow == htmlOverflow == (if shouldBlockScroll then "hidden" else "")
    }

    /**
     * While mounted: the overflows follow `shouldBlockScroll` and the current run's
     * listeners are one on each internal anchor of the page, closing over the pathname.
     * With cleanups on every re-run there are no older ones.
     */
    predicate Valid()
      reads this
    {
      ScrollSynced() && isMounted && run == Attach(page, pathname) &&
      (revertOnUpdate ==> older == [])
    }

    /**
     * Mount: the first render (refs false, scroll free, the session flag surviving from
     * earlier visits) and the effect's first run against the initial document.
     */
    constructor (revertOnUpdate: bool, pathname: string, sessionFlag: Option<string>, page: seq<Anchor>, overlayPresent: bool)
      ensures Valid()
      ensures this.revertOnUpdate == revertOnUpdate && this.pathname == pathname && this.page == page
      ensures !isTransitioning && !hasNavigated
      ensures older == [] && run == Attach(page, pathname)
      ensures overlayPresent ==> |blocks| == BlockCount
      ensures !overlayPresent ==> blocks == []
      ensures sessionFlag == Some(NavigatedValue) ==>
        shouldBlockScroll && revealsRunning == 1 && this.sessionFlag.None?
      ensures sessionFlag != Some(NavigatedValue) ==>
        !shouldBlockScroll && revealsRunning == 0 && this.sessionFlag == sessionFlag
      ensures covers == [] && pushes == []
    {
      this.revertOnUpdate := revertOnUpdate;
      isTransitioning := false;
      isMounted := false;
      hasNavigated := false;
      shouldBlockScroll := false;
      bodyOverflow := "";
      htmlOverflow := "";
      this.sessionFlag := sessionFlag;
      this.pathname := pathname;
      blocks := [];
      this.page := page;
      older := [];
      run := [];
      covers := [];
      revealsRunning := 0;
      pushes := [];
      new;
      EffectRun(overlayPresent);
    }

    /** `setShouldBlockScroll(b)` followed by the scroll-lock effect. */
    method SetBlockScroll(b: bool)
      modifies this`shouldBlockScroll, this`bodyOverflow, this`htmlOverflow
      ensures ScrollSynced() && shouldBlockScroll == b
    {
      shouldBlockScroll := b;
      bodyOverflow := if b then "hidden" else "";
      htmlOverflow := if b then "hidden" else "";
    }

    /**
     * The transition effect's body, run after mount and after every route change: build
     * the blocks, reveal (and clear the session flag) iff this visit came from a
     * navigation, mark the component mounted and add listeners to the page's internal
     * links.
     */
    method EffectRun(overlayPresent: bool)
      requires ScrollSynced()
      requires revertOnUpdate ==> older == []
      modifies this`blocks, this`shouldBlockScroll, this`bodyOverflow, this`htmlOverflow
      modifies this`revealsRunning, this`sessionFlag, this`isMounted, this`run
      ensures Valid()
      ensures older == old(older) && run == Attach(page, pathname)
      ensures overlayPresent ==> |blocks| == BlockCount
      ensures !overlayPresent ==> blocks == old(blocks)
      ensures old(hasNavigated) || old(sessionFlag) == Some(NavigatedValue) ==>
        shouldBlockScroll && revealsRunning == old(revealsRunning) + 1 && sessionFlag.None?
      ensures !old(hasNavigated) && old(sessionFlag) != Some(NavigatedValue) ==>
        shouldBlockScroll == old(shouldBlockScroll) && revealsRunning == old(revealsRunning) && sessionFlag == old(sessionFlag)
      ensures isTransitioning == old(isTransitioning) && hasNavigated == old(hasNavigated)
      ensures pathname == old(pathname) && page == old(page) && covers == old(covers) && pushes == old(pushes)
    {
      var created := CreateBlocks(overlayPresent, blocks);
      var added := AttachListeners(page, pathname);
      blocks := created;
      RevealIfNavigated();
      isMounted := true;
      run := added;
    }

    /**
     * The reveal decision: with `hasNavigated` or the session flag "true", `revealPage`
     * locks the scroll and starts the reveal tween, and the flag is removed.
     */
    method RevealIfNavigated()
      requires ScrollSynced()
      modifies this`shouldBlockScroll, this`bodyOverflow, this`htmlOverflow, this`revealsRunning, this`sessionFlag
      ensures ScrollSynced()
      ensures old(hasNavigated) || old(sessionFlag) == Some(NavigatedValue) ==>
        shouldBlockScroll && revealsRunning == old(revealsRunning) + 1 && sessionFlag.None?
      ensures !old(hasNavigated) && old(sessionFlag) != Some(NavigatedValue) ==>
        shouldBlockScroll == old(shouldBlockScroll) && revealsRunning == old(revealsRunning) && sessionFlag == old(sessionFlag)
    {
      if hasNavigated || sessionFlag == Some(NavigatedValue) {
        SetBlockScroll(true);
        revealsRunning := revealsRunning + 1;
        sessionFlag := None;
      }
    }

    /**
     * `handleRouteChange(url)`: ignored while a transition runs or the effect is not
     * mounted; otherwise mark the transition and the session flag, then `coverPage`:
     * with the logo or the blocks missing the route is pushed at once, else the scroll is
     * locked and the cover timeline starts.
     */
    method HandleRouteChange(url: string, elementsPresent: bool) returns (accepted: bool)
      requires Valid()
      modifies this
      ensures Valid()
      ensures accepted <==> !old(isTransitioning) && old(isMounted)
      ensures !accepted ==> unchanged(this)
      ensures accepted ==> isTransitioning && sessionFlag == Some(NavigatedValue)
      ensures accepted && !(elementsPresent && |blocks| > 0) ==>
        pushes == old(pushes) + [url] && covers == old(covers) && shouldBlockScroll == old(shouldBlockScroll)
      ensures accepted && elementsPresent && |blocks| > 0 ==>
        covers == old(covers) + [url] && pushes == old(pushes) && shouldBlockScroll
      ensures isMounted == old(isMounted) && hasNavigated == old(hasNavigated) && pathname == old(pathname)
      ensures older == old(older) && run == old(run) && page == old(page) && blocks == old(blocks)
      ensures revealsRunning == old(revealsRunning)
    {
      if isTransitioning || !isMounted {
        return false;
      }
      accepted := true;
      isTransitioning := true;
      sessionFlag := Some(NavigatedValue);
      if !elementsPresent || |blocks| == 0 {
        pushes := pushes + [url];
        return;
      }
      SetBlockScroll(true);
      covers := covers + [url];
    }

    /**
     * A click on anchor `a` runs the listeners on it in the order they were attached. Each
     * one prevents the default navigation and calls `handleRouteChange` when the clicked
     * path differs from the pathname it closes over. The first such call decides: if it
     * passes the guard it sets `isTransitioning`, and the later ones are ignored; if it
     * does not, neither do they, since nothing changed in between.
     */
    method LinkClick(a: Anchor, elementsPresent: bool) returns (prevented: bool, accepted: bool)
      requires Valid() && a in page
      modifies this
      ensures Valid()
      ensures prevented <==> Listens(old(Listeners()), a.id)
      ensures accepted <==>
        Stale(old(Listeners()), a.id, PathOf(a.href)) && !old(isTransitioning) && old(isMounted)
      ensures !accepted ==> unchanged(this)
      ensures accepted ==> isTransitioning && sessionFlag == Some(NavigatedValue)
      ensures accepted && elementsPresent && |blocks| > 0 ==>
        covers == old(covers) + [PathOf(a.href)] && pushes == old(pushes) && shouldBlockScroll
      ensures accepted && !(elementsPresent && |blocks| > 0) ==>
        pushes == old(pushes) + [PathOf(a.href)] && covers == old(covers) &&
        shouldBlockScroll == old(shouldBlockScroll)
      ensures isMounted == old(isMounted) && hasNavigated == old(hasNavigated) && pathname == old(pathname)
      ensures older == old(older) && run == old(run) && page == old(page) && blocks == old(blocks)
      ensures revealsRunning == old(revealsRunning)
      ensures StartsWith(a.href, "/") ==> prevented
      ensures StartsWith(a.href, "/") && PathOf(a.href) != old(pathname) && !old(isTransitioning) ==> accepted
      ensures revertOnUpdate ==> (accepted ==> PathOf(a.href) != old(pathname))
    {
      var url := PathOf(a.href);
      var ls := Listeners();
      prevented, accepted := Listens(ls, a.id), false;
      if Stale(ls, a.id, url) {
        accepted := HandleRouteChange(url, elementsPresent);
      }
      if StartsWith(a.href, "/") {
        AttachCovers(page, pathname, a);
        var j :| 0 <= j < |run| && run[j] == Listener(a.id, pathname);
        assert ls[|older| + j] == run[j];
      }
      if revertOnUpdate {
        AttachOnPage(page, pathname);
        assert ls == run;
      }
    }

    /**
     * The oldest cover timeline completes: the transition is over, the visit counts as a
     * navigation from now on, and the route is pushed. The scroll stays locked.
     */
    method CoverComplete()
      requires Valid()
      modifies this
      ensures Valid()
      ensures old(covers) == [] ==> unchanged(this)
      ensures old(covers) != [] ==>
        !isTransitioning && hasNavigated && covers == old(covers)[1..] &&
        pushes == old(pushes) + [old(covers)[0]] && shouldBlockScroll == old(shouldBlockScroll) &&
        isMounted == old(isMounted) && sessionFlag == old(sessionFlag) && pathname == old(pathname) &&
        revealsRunning == old(revealsRunning) && older == old(older) && run == old(run) && page == old(page) &&
        blocks == old(blocks)
    {
      if covers == [] {
        return;
      }
      var url := covers[0];
      covers := covers[1..];
      isTransitioning := false;
      hasNavigated := true;
      pushes := pushes + [url];
    }

    /** A reveal tween completes: the transition is over and the scroll unlocks. */
    method RevealComplete()
      requires Valid()
      modifies this
      ensures Valid()
      ensures old(revealsRunning) == 0 ==> unchanged(this)
      ensures old(revealsRunning) > 0 ==>
        !isTransitioning && !shouldBlockScroll && bodyOverflow == "" && htmlOverflow == "" &&
        revealsRunning == old(revealsRunning) - 1 && covers == old(covers) && pushes == old(pushes) &&
        hasNavigated == old(hasNavigated) && isMounted == old(isMounted) && sessionFlag == old(sessionFlag) &&
        pathname == old(pathname) && older == old(older) && run == old(run) && page == old(page) && blocks == old(blocks)
    {
      if revealsRunning == 0 {
        return;
      }
      revealsRunning := revealsRunning - 1;
      isTransitioning := false;
      SetBlockScroll(false);
    }

    /**
     * The router commits the oldest push. The same pathname changes nothing else: the
     * effect does not re-run. A new pathname brings the new document `anchors`, whose
     * surviving anchors keep their listeners (or, with `revertOnUpdate`, lose them to the
     * previous run's cleanup), and re-runs the effect.
     */
    method CommitNavigation(overlayPresent: bool, anchors: seq<Anchor>)
      requires Valid()
      modifies this
      ensures Valid()
      ensures old(pushes) == [] ==> unchanged(this)
      ensures old(pushes) != [] ==> pathname == old(pushes)[0] && pushes == old(pushes)[1..]
      ensures old(pushes) != [] && old(pushes)[0] == old(pathname) ==>
        page == old(page) && older == old(older) && run == old(run) && blocks == old(blocks) &&
        shouldBlockScroll == old(shouldBlockScroll) && revealsRunning == old(revealsRunning) &&
        sessionFlag == old(sessionFlag)
      ensures old(pushes) != [] && old(pushes)[0] != old(pathname) ==>
        page == anchors && (overlayPresent ==> |blocks| == BlockCount) &&
        older == (if revertOnUpdate then [] else Prune(old(Listeners()), anchors)) &&
        run == Attach(anchors, pathname) &&
        (old(hasNavigated) || old(sessionFlag) == Some(NavigatedValue) ==>
          shouldBlockScroll && revealsRunning == (if revertOnUpdate then 0 else old(revealsRunning)) + 1 && sessionFlag.None?) &&
        (!old(hasNavigated) && old(sessionFlag) != Some(NavigatedValue) ==>
          shouldBlockScroll == old(shouldBlockScroll) && revealsRunning == (if revertOnUpdate then 0 else old(revealsRunning)) &&
          sessionFlag == old(sessionFlag))
      ensures isTransitioning == old(isTransitioning) && hasNavigated == old(hasNavigated)
      ensures covers == old(covers)
    {
      if pushes == [] {
        return;
      }
      var url := pushes[0];
      pushes := pushes[1..];
      PathChanged(url, anchors, overlayPresent);
    }

    /**
     * The pathname `usePathname` reports becomes `path`, by a push, a `replaceState` (a
     * language switch) or the browser's back and forward buttons. The same pathname
     * changes nothing. A new one brings the new document `anchors`; the listeners on
     * surviving anchors stay (with `revertOnUpdate`, the context revert removes them and
     * kills the reveals still running) and the effect re-runs, revealing the page whenever
     * a navigation has happened.
     */
    method PathChanged(path: string, anchors: seq<Anchor>, overlayPresent: bool)
      requires Valid()
      modifies this
      ensures Valid()
      ensures path == old(pathname) ==> unchanged(this)
      ensures path != old(pathname) ==>
        pathname == path && page == anchors && (overlayPresent ==> |blocks| == BlockCount) &&
        older == (if revertOnUpdate then [] else Prune(old(Listeners()), anchors)) &&
        run == Attach(anchors, path) &&
        (old(hasNavigated) || old(sessionFlag) == Some(NavigatedValue) ==>
          shouldBlockScroll && revealsRunning == (if revertOnUpdate then 0 else old(revealsRunning)) + 1 && sessionFlag.None?) &&
        (!old(hasNavigated) && old(sessionFlag) != Some(NavigatedValue) ==>
          shouldBlockScroll == old(shouldBlockScroll) && revealsRunning == (if revertOnUpdate then 0 else old(revealsRunning)) &&
          sessionFlag == old(sessionFlag))
      ensures isTransitioning == old(isTransitioning) && hasNavigated == old(hasNavigated)
      ensures covers == old(covers) && pushes == old(pushes)
    {
      if path != pathname {
        var kept := if revertOnUpdate then [] else Prune(Listeners(), anchors);
        if revertOnUpdate {
          revealsRunning := 0;
        }
        pathname := path;
        page := anchors;
        older := kept;
        EffectRun(overlayPresent);
      }
    }

    /**
     * Unmount: the collected cleanups run (unmounted for the handlers, every run's
     * listeners removed), the context revert kills the reveal tweens the effect started,
     * and the scroll-lock cleanup releases the scroll. A cover timeline, started from a
     * click handler outside the context, keeps running.
     */
    method Unmount()
      modifies this
      ensures !isMounted && Listeners() == [] && bodyOverflow == "" && htmlOverflow == ""
      ensures revealsRunning == 0
      ensures shouldBlockScroll == old(shouldBlockScroll) && hasNavigated == old(hasNavigated)
      ensures isTransitioning == old(isTransitioning) && sessionFlag == old(sessionFlag)
      ensures pathname == old(pathname) && page == old(page) && blocks == old(blocks)
      ensures covers == old(covers) && pushes == old(pushes)
    {
      isMounted := false;
      older := [];
      run := [];
      revealsRunning := 0;
      bodyOverflow := "";
      htmlOverflow := "";
    }
  }

  /** A page whose anchors are all internal gets one listener per anchor, in order. */
  lemma {:induction false} AllInternal(anchors: seq<Anchor>, path: string)
    requires forall k :: 0 <= k < |anchors| ==> StartsWith(anchors[k].href, "/")
    ensures |Attach(anchors, path)| == |anchors|
    ensures forall k :: 0 <= k < |anchors| ==> Attach(anchors, path)[k] == Listener(anchors[k].id, path)
    decreases |anchors|
  {
    if |anchors| > 0 {
      AllInternal(anchors[1..], path);
    }
  }

  /** A plain internal path: what a menu link's href looks like. */
  predicate PlainPath(p: string) {
    StartsWith(p, "/") && '?' !in p && '#' !in p
  }

  /**
   * A first visit to `from` followed by a click on a navigation link to `to`: the page is
   * covered, the route pushed and committed, and the new page revealed; afterwards
   * nothing is transitioning, the scroll is free and the session flag is gone.
   */
  method NavigateOnce(revertOnUpdate: bool, from: string, to: string) returns (t: Transition)
    requires PlainPath(to) && to != from
    ensures fresh(t)
    ensures t.Valid() && t.pathname == to && t.hasNavigated
    ensures !t.isTransitioning && !t.shouldBlockScroll && t.bodyOverflow == "" && t.htmlOverflow == ""
    ensures t.sessionFlag.None? && t.covers == [] && t.pushes == [] && t.revealsRunning == 0
    ensures t.revertOnUpdate == revertOnUpdate && t.page == [Anchor(0, to)] && |t.blocks| > 0
    ensures t.Listeners() ==
      (if revertOnUpdate then [] else [Listener(0, from)]) + [Listener(0, to)]
  {
    var nav := Anchor(0, to);
    SingleLinkListeners(nav, from, to);
    t := new Transition(revertOnUpdate, from, None, [nav], true);
    PathOfPlain(to);
    var prevented, accepted := t.LinkClick(nav, true);
    assert accepted && t.covers == [to];
    t.CoverComplete();
    t.CommitNavigation(true, [nav]);
    t.RevealComplete();
    assert OnPage([nav], 0) by { assert [nav][0].id == 0; }
  }

  /** A page whose one anchor is internal gets one listener, which a later prune keeps. */
  lemma SingleLinkListeners(nav: Anchor, from: string, to: string)
    requires StartsWith(nav.href, "/")
    ensures Attach([nav], from) == [Listener(nav.id, from)]
    ensures Attach([nav], to) == [Listener(nav.id, to)]
    ensures Prune([Listener(nav.id, from)], [nav]) == [Listener(nav.id, from)]
  {
    assert [nav][1..] == [];
    assert OnPage([nav], nav.id) by { assert [nav][0].id == nav.id; }
  }

  /**
   * After one navigation, a language switch that rewrites the pathname with
   * `replaceState` re-runs the effect: since `hasNavigated` is set, the page plays a
   * reveal with scrolling locked, and the layout link gains a third listener.
   */
  method LanguageSwitchReplaysReveal(from: string, to: string, switched: string) returns (t: Transition)
    requires PlainPath(to) && PlainPath(switched) && to != from && switched != to
    ensures t.Valid() && t.pathname == switched && !t.revertOnUpdate
    ensures t.shouldBlockScroll && t.bodyOverflow == "hidden" && t.htmlOverflow == "hidden" && t.revealsRunning == 1
    ensures t.Listeners() == [Listener(0, from), Listener(0, to), Listener(0, switched)]
  {
    t := NavigateOnce(false, from, to);
    var nav := Anchor(0, switched);
    SingleLinkListeners(nav, switched, switched);
    PruneSameAnchor([Listener(0, from), Listener(0, to)], nav);
    t.PathChanged(switched, [nav], true);
  }

  /** Listeners on an anchor that stays in the document all survive a prune. */
  lemma {:induction false} PruneSameAnchor(ls: seq<Listener>, nav: Anchor)
    requires forall k :: 0 <= k < |ls| ==> ls[k].anchor == nav.id
    ensures Prune(ls, [nav]) == ls
    decreases |ls|
  {
    if |ls| > 0 {
      assert OnPage([nav], ls[0].anchor) by { assert [nav][0].id == nav.id; }
      PruneSameAnchor(ls[1..], nav);
      assert [ls[0]] + ls[1..] == ls;
    }
  }

  /**
   * A reload with the session flag set plays a reveal; a click while it runs covers the
   * page and navigates. As written that first reveal is still counted when the new page's
   * reveal starts, so two are running; with `revertOnUpdate` the re-run kills it first.
   */
  method ClickDuringFirstReveal(revertOnUpdate: bool, from: string, to: string) returns (t: Transition)
    requires PlainPath(to) && to != from
    ensures t.Valid() && t.pathname == to && t.hasNavigated && t.shouldBlockScroll
    ensures t.revealsRunning == (if revertOnUpdate then 1 else 2)
  {
    var nav := Anchor(0, to);
    SingleLinkListeners(nav, from, to);
    t := new Transition(revertOnUpdate, from, Some(NavigatedValue), [nav], true);
    PathOfPlain(to);
    var prevented, accepted := t.LinkClick(nav, true);
    assert accepted && t.covers == [to] && t.revealsRunning == 1;
    t.CoverComplete();
    t.CommitNavigation(true, [nav]);
  }

  /**
   * With the logo or blocks missing the route is pushed at once and the transition stays
   * marked, so a second click is ignored until the new page's reveal completes.
   */
  method MissingRefsNavigation(revertOnUpdate: bool, from: string, to: string, other: string)
    returns (t: Transition, secondAccepted: bool)
    requires PlainPath(to) && PlainPath(other) && to != from && other != from
    ensures !secondAccepted
    ensures t.Valid() && t.pathname == to && !t.isTransitioning && !t.hasNavigated
    ensures t.pushes == [] && t.covers == [] && t.sessionFlag.None? && t.revealsRunning == 0
  {
    var first, second := Anchor(0, to), Anchor(1, other);
    t := new Transition(revertOnUpdate, from, None, [first, second], false);
    PathOfPlain(to);
    PathOfPlain(other);
    var _, accepted := t.LinkClick(first, true);
    assert accepted && t.pushes == [to] && t.isTransitioning && !t.shouldBlockScroll;
    var _, again := t.LinkClick(second, true);
    secondAccepted := again;
    t.CommitNavigation(false, []);
    assert t.isTransitioning && t.revealsRunning == 1;
    t.RevealComplete();
  }

  /**
   * A reveal that completes during a later cover clears `isTransitioning` and unlocks the
   * scroll while that cover still runs, so a second click starts a second cover.
   */
  method RevealEndsDuringCover(revertOnUpdate: bool, from: string, to: string, other: string) returns (t: Transition)
    requires PlainPath(to) && PlainPath(other) && to != from && other != from
    ensures t.Valid() && t.covers == [to, other] && t.isTransitioning && t.revealsRunning == 0
  {
    var first, second := Anchor(0, to), Anchor(1, other);
    t := new Transition(revertOnUpdate, from, Some(NavigatedValue), [first, second], true);
    PathOfPlain(to);
    PathOfPlain(other);
    var _, accepted := t.LinkClick(first, true);
    assert accepted && t.covers == [to];
    t.RevealComplete();
    assert !t.isTransitioning && t.bodyOverflow == "";
    var _, again := t.LinkClick(second, true);
    assert again;
  }

  /**
   * As written: after navigating from `from` to `to` through a navigation link, the same
   * link still carries the listener of the first run, which closes over `from`. A second
   * click on it covers the page and pushes `to` again; the pathname does not change, so
   * the effect does not re-run and nothing reveals the page: it stays covered with the
   * scroll locked and no animation left that would release it.
   */
  method SameLinkTwiceStaysCovered(from: string, to: string) returns (t: Transition, second: bool)
    requires PlainPath(to) && to != from
    ensures second
    ensures t.Valid() && t.pathname == to && !t.isTransitioning
    ensures t.shouldBlockScroll && t.bodyOverflow == "hidden" && t.htmlOverflow == "hidden"
    ensures t.covers == [] && t.pushes == [] && t.revealsRunning == 0
  {
    t := NavigateOnce(false, from, to);
    var nav := Anchor(0, to);
    PathOfPlain(to);
    assert Stale(t.Listeners(), nav.id, PathOf(nav.href)) by {
      assert t.Listeners()[0].anchor == nav.id && t.Listeners()[0].path != to;
    }
    var _, again := t.LinkClick(nav, true);
    second := again;
    t.CoverComplete();
    t.CommitNavigation(true, [nav]);
  }

  /**
   * With cleanups on every re-run, the same second click finds only the listener of the
   * current run: it is prevented and ignored, and the revealed page stays usable.
   */
  method SameLinkTwiceIgnored(from: string, to: string) returns (t: Transition, prevented: bool, second: bool)
    requires PlainPath(to) && to != from
    ensures prevented && !second
    ensures t.Valid() && t.pathname == to && !t.isTransitioning
    ensures !t.shouldBlockScroll && t.bodyOverflow == "" && t.htmlOverflow == ""
    ensures t.covers == [] && t.pushes == [] && t.revealsRunning == 0
  {
    t := NavigateOnce(true, from, to);
    PathOfPlain(to);
    prevented, second := t.LinkClick(Anchor(0, to), true);
  }
}
