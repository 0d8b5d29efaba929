/**
 * The previous / next links under a service page (src/components/ServiceNavigation.tsx):
 * the current service is looked up by exact pathname, and its neighbours wrap around the
 * fixed list of seven services.
 */
module ServiceNavigation {
  import opened Wrappers
  import Strings
  import RouteTranslations

  datatype Service = Service(name: string, slug: string, image: string)

  /** The fixed list, in display order. */
  const Services: seq<Service> := [
    Service("Escaliers", "escaliers", "/images/stairs.webp"),
    Service("Gardes-robes", "garde-robes", "/images/wardrobe.webp"),
    Service("Tables", "tables", "/images/table.webp"),
    Service("Cuisines", "cuisines", "/images/kitchen.webp"),
    Service("Biblioth\U{E8}que", "bibliotheque", "/images/wardrobe.webp"),
    Service("Bureau", "bureau", "/images/table.webp"),
    Service("Salle de bain", "salle-de-bain", "/images/kitchen.webp")
  ]

  /** The page of a service: `/services/${service.slug}`. */
  function Href(s: Service): string {
    "/services/" + s.slug
  }

  /**
   * `services.findIndex(service => pathname === href)`, scanning from `from`: the first
   * matching index, or -1.
   */
  function FindIndex(pathname: string, from: nat): (r: int)
    requires from <= |Services|
    ensures r == -1 || from <= r < |Services|
    ensures r == -1 <==> forall k :: from <= k < |Services| ==> Href(Services[k]) != pathname
    ensures r != -1 ==>
      (Href(Services[r]) == pathname && forall k :: from <= k < r ==> Href(Services[k]) != pathname)
    decreases |Services| - from
  {
    if from == |Services| then -1
    else if Href(Services[from]) == pathname then from
    else FindIndex(pathname, from + 1)
  }

  /** `currentServiceIndex`: the first service whose href is the path, or -1 off the service pages. */
  function CurrentIndex(pathname: string): (r: int)
    ensures -1 <= r < |Services|
    ensures r == -1 <==> forall k :: 0 <= k < |Services| ==> Href(Services[k]) != pathname
    ensures r != -1 ==>
      Href(Services[r]) == pathname && forall k :: 0 <= k < r ==> Href(Services[k]) != pathname
  {
    FindIndex(pathname, 0)
  }

  /** The index of the previous service: one back, wrapping 0 round to the last. */
  function Prev(i: nat): (p: nat)
    requires i < |Services|
    ensures p < |Services|
  {
    if i > 0 then i - 1 else |Services| - 1
  }

  /** The index of the next service: one on, wrapping the last round to 0. */
  function Next(i: nat): (n: nat)
    requires i < |Services|
    ensures n < |Services|
  {
    if i < |Services| - 1 then i + 1 else 0
  }

  /** Both neighbours are one step round the circle of seven. */
  lemma PrevNextModular(i: nat)
    requires i < |Services|
    ensures Prev(i) == (i - 1) % 7 && Next(i) == (i + 1) % 7
  {
  }

  /** Stepping forwards then back, or back then forwards, returns to the same service. */
  lemma PrevNextInverse(i: nat)
    requires i < |Services|
    ensures Prev(Next(i)) == i && Next(Prev(i)) == i
  {
  }

  /** The seven slugs are pairwise different, and so are the seven pages. */
  lemma SlugsDistinct()
    ensures forall j, k :: 0 <= j < k < |Services| ==> Services[j].slug != Services[k].slug
    ensures forall j, k :: 0 <= j < k < |Services| ==> Href(Services[j]) != Href(Services[k])
  {
    var initials := ["es", "ga", "ta", "cu", "bi", "bu", "sa"];
    assert forall m :: 0 <= m < |Services| ==> |Services[m].slug| >= 2 && Services[m].slug[..2] == initials[m];
    forall j, k | 0 <= j < k < |Services|
      ensures Services[j].slug != Services[k].slug
    {
      assert initials[j] != initials[k];
    }
    forall j, k | 0 <= j < k < |Services|
      ensures Href(Services[j]) != Href(Services[k])
    {
      assert Href(Services[j])[10..] == Services[j].slug;
      assert Href(Services[k])[10..] == Services[k].slug;
    }
  }

  /** On a service's own page the current index is that service's position. */
  lemma CurrentIndexOfPage(k: nat)
    requires k < |Services|
    ensures CurrentIndex(Href(Services[k])) == k
  {
    SlugsDistinct();
  }

  /** What the component renders: nothing, or the previous and the next service. */
  datatype Links = Links(previous: Service, next: Service)

  function Navigation(pathname: string): (r: Option<Links>)
    ensures r.None? <==> forall k :: 0 <= k < |Services| ==> Href(Services[k]) != pathname
    ensures r.Some? ==>
      (CurrentIndex(pathname) >= 0 &&
       r.value.previous == Services[Prev(CurrentIndex(pathname))] &&
       r.value.next == Services[Next(CurrentIndex(pathname))])
  {
    var i := CurrentIndex(pathname);
    if i == -1 then None
    else Some(Links(Services[Prev(i)], Services[Next(i)]))
  }

  /** A path that differs from every service page, even by a trailing '/', renders nothing. */
  lemma NoLinksOffServicePages()
    ensures Navigation("/services").None?
    ensures Navigation("/services/tables/").None?
    ensures Navigation("/services/tables").Some?
  {
    forall k | 0 <= k < |Services|
      ensures Href(Services[k]) != "/services" && Href(Services[k]) != "/services/tables/"
    {
      ServicePageShape(k);
    }
    assert Href(Services[2]) == "/services/tables";
  }

  /**
   * The services layout's gate (src/app/[locale]/services/layout.tsx:16-19): the
   * navigation is mounted on `/services/...` pages other than `/services` itself.
   */
  predicate LayoutShowsNavigation(pathname: string) {
    pathname != "/services" && Strings.StartsWith(pathname, "/services/")
  }

  /**
   * Pages live under `/<locale>/`, and `usePathname` reports that prefix. On such a page
   * neither the layout's gate nor the exact match against `/services/<slug>` holds, so
   * the previous and next links never appear.
   */
  lemma LocalizedServicePagesShowNothing(l: RouteTranslations.Lang, slug: string)
    ensures !LayoutShowsNavigation("/" + l.Code() + "/services/" + slug)
    ensures Navigation("/" + l.Code() + "/services/" + slug).None?
  {
    var p := "/" + l.Code() + "/services/" + slug;
    assert p[1] == l.Code()[0] != 's';
    assert "/services/"[1] == 's';
    forall k | 0 <= k < |Services|
      ensures Href(Services[k]) != p
    {
      assert Href(Services[k])[1] == 's';
    }
  }

  /** Every service page is longer than "/services/" and does not end in '/'. */
  lemma ServicePageShape(k: nat)
    requires k < |Services|
    ensures |Href(Services[k])| > 10 && Href(Services[k])[|Href(Services[k])| - 1] != '/'
  {
    var slug := Services[k].slug;
    assert |slug| > 0 && slug[|slug| - 1] != '/';
    assert Href(Services[k])[|Href(Services[k])| - 1] == slug[|slug| - 1];
  }

  /** Current, previous and next are three different services. */
  lemma NeighboursDistinct(pathname: string)
    requires Navigation(pathname).Some?
    ensures var links := Navigation(pathname).value;
      var current := Services[CurrentIndex(pathname)];
      links.previous != current && links.next != current && links.previous != links.next
  {
    SlugsDistinct();
    var i := CurrentIndex(pathname);
    assert Prev(i) != i && Next(i) != i && Prev(i) != Next(i);
  }

  /** Following the "next" link and then the "previous" link leads back to the same page. */
  lemma NextThenPrevious(k: nat)
    requires k < |Services|
    ensures Navigation(Href(Services[k])).Some?
    ensures var next := Navigation(Href(Services[k])).value.next;
      Navigation(Href(next)).Some? && Navigation(Href(next)).value.previous == Services[k]
  {
    CurrentIndexOfPage(k);
    CurrentIndexOfPage(Next(k));
    PrevNextInverse(k);
  }
}
