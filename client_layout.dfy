/**
 * The client layout (src/components/ClientLayout.tsx): it mounts the page loader on the
 * first effect and reacts to its two callbacks by editing the class lists of `<body>` and
 * `<html>` and by dispatching the window event "pageLoaderComplete". Class lists are sets;
 * each dispatched event records the html classes present when it was sent.
 */
module ClientLayout {
  import opened Wrappers
  import PageLoader

  const LoaderActive: string := "page-loader-active"
  const LoaderReady: string := "page-loader-ready"
  const LoaderComplete: string := "page-loader-complete"
  const ContentLoaded: string := "content-loaded"
  const CompleteEvent: string := "pageLoaderComplete"

  /** A dispatched window event and the html element's classes at that moment. */
  datatype Dispatched = Dispatched(name: string, htmlClasses: set<string>)

  /** That a listener reading the html classes on any dispatched event sees the flag. */
  predicate FlagBeforeEvent(events: seq<Dispatched>) {
    forall k :: 0 <= k < |events| ==> events[k].name == CompleteEvent && LoaderComplete in events[k].htmlClasses
  }

  class Layout {
    var showLoader: bool
    var isContentLoaded: bool
    var mounted: bool
    var bodyClasses: set<string>
    var htmlClasses: set<string>
    var events: seq<Dispatched>

    /**
     * Every event found the flag already set; once the content is loaded the body has
     * "content-loaded" and not "page-loader-active", the html has the flag, and the loader
     * is gone.
     */
    predicate Valid()
      reads this
    {
      FlagBeforeEvent(events) &&
      (|events| > 0 <==> isContentLoaded) &&
      (isContentLoaded ==>
        !showLoader && mounted && ContentLoaded in bodyClasses && LoaderActive !in bodyClasses &&
        LoaderComplete in htmlClasses) &&
      (showLoader ==> mounted)
    }

    /** The first render: no loader yet (`useState(false)`). */
    constructor (bodyClasses: set<string>, htmlClasses: set<string>)
      ensures Valid()
      ensures !showLoader && !isContentLoaded && !mounted && events == []
      ensures this.bodyClasses == bodyClasses && this.htmlClasses == htmlClasses
    {
      showLoader := false;
      isContentLoaded := false;
      mounted := false;
      this.bodyClasses := bodyClasses;
      this.htmlClasses := htmlClasses;
      events := [];
    }

    /** The mount effect (empty dependencies, so once): show the loader, mark the body. */
    method Mount()
      requires Valid() && !mounted
      modifies this
      ensures Valid()
      ensures showLoader && mounted && !isContentLoaded && events == []
      ensures bodyClasses == old(bodyClasses) + {LoaderActive} && htmlClasses == old(htmlClasses)
    {
      showLoader := true;
      mounted := true;
      bodyClasses := bodyClasses + {LoaderActive};
    }

    /** `handlePageLoaderReady`: the loader covers the page, so the CSS overlay may go. */
    method HandleReady()
      requires Valid()
      modifies this`htmlClasses
      ensures Valid()
      ensures htmlClasses == old(htmlClasses) + {LoaderReady}
    {
      htmlClasses := htmlClasses + {LoaderReady};
    }

    /**
     * `handleLoaderComplete`: hide the loader, mark the content loaded, swap the body
     * classes, set the html flag, and only then dispatch the event. The handler is passed
     * only to a rendered loader, so the mount effect has run.
     */
    method HandleComplete()
      requires Valid() && mounted
      modifies this
      ensures Valid()
      ensures !showLoader && isContentLoaded && mounted
      ensures bodyClasses == old(bodyClasses) - {LoaderActive} + {ContentLoaded}
      ensures htmlClasses == old(htmlClasses) + {LoaderComplete}
      ensures events == old(events) + [Dispatched(CompleteEvent, htmlClasses)]
    {
      showLoader := false;
      isContentLoaded := true;
      bodyClasses := bodyClasses - {LoaderActive};
      bodyClasses := bodyClasses + {ContentLoaded};
      htmlClasses := htmlClasses + {LoaderComplete};
      events := events + [Dispatched(CompleteEvent, htmlClasses)];
    }

    /** `{showLoader && <PageLoader .../>}`. */
    method RendersLoader() returns (rendered: bool)
      requires Valid()
      ensures rendered <==> showLoader
      ensures rendered ==> mounted && !isContentLoaded
    {
      rendered := showLoader;
    }
  }

  /** A dispatch appended after setting the flag keeps `FlagBeforeEvent`. */
  lemma FlagBeforeEventAppend(events: seq<Dispatched>, htmlClasses: set<string>)
    requires FlagBeforeEvent(events) && LoaderComplete in htmlClasses
    ensures FlagBeforeEvent(events + [Dispatched(CompleteEvent, htmlClasses)])
  {
    var extended := events + [Dispatched(CompleteEvent, htmlClasses)];
    forall k | 0 <= k < |extended|
      ensures extended[k].name == CompleteEvent && LoaderComplete in extended[k].htmlClasses
    {
      if k < |events| {
        assert extended[k] == events[k];
      }
    }
  }

  /**
   * The whole first load: the layout mounts, renders the loader, and forwards every
   * callback the loader makes until its timer chain ends; the loader unmounts when
   * `showLoader` falls. Whatever the observations, the content ends up loaded, exactly one
   * event is dispatched after the flag was set, and scrolling is unlocked again.
   */
  method FirstLoad(overlayPresent: bool, readyState: bool, elementsPresent: bool)
    returns (layout: Layout, loader: PageLoader.Loader)
    ensures layout.Valid() && loader.Valid()
    ensures layout.isContentLoaded && !layout.showLoader
    ensures |layout.events| == 1 && LoaderComplete in layout.events[0].htmlClasses
    ensures layout.bodyClasses == {ContentLoaded} && LoaderComplete in layout.htmlClasses
    ensures LoaderReady in layout.htmlClasses <==> overlayPresent && elementsPresent
    ensures loader.completeCalls == 1 && !loader.mounted
    ensures loader.bodyOverflow == "" && loader.htmlOverflow == ""
  {
    layout := new Layout({}, {});
    layout.Mount();
    var rendered := layout.RendersLoader();
    assert rendered;
    loader := new PageLoader.Loader(overlayPresent);
    var callbacks := loader.Settle(readyState, elementsPresent);
    var i := 0;
    while i < |callbacks|
      invariant 0 <= i <= |callbacks|
      invariant layout.Valid() && layout.mounted
      invariant i < |callbacks| ==> !layout.isContentLoaded
      invariant i == |callbacks| ==> layout.isContentLoaded && |layout.events| == 1
      invariant layout.bodyClasses == (if i == |callbacks| then {ContentLoaded} else {LoaderActive})
      invariant LoaderReady in layout.htmlClasses <==> 0 < i && callbacks[0] == PageLoader.OnReady
      invariant layout.htmlClasses <= {LoaderReady, LoaderComplete}
      invariant LoaderComplete in layout.htmlClasses <==> i == |callbacks|
      invariant |layout.events| == (if i == |callbacks| then 1 else 0)
      modifies layout
    {
      if callbacks[i] == PageLoader.OnReady {
        layout.HandleReady();
      } else {
        layout.HandleComplete();
      }
      i := i + 1;
    }
    loader.Unmount();
  }
}
