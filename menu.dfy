/** The navigation menu (src/data/menu.ts): five base routes and their localized hrefs. */
module Menu {
  import opened RouteTranslations
  import opened Navigation

  datatype MenuItem = MenuItem(route: string, labelKey: string)

  /** `MenuItem & { href }`: the item's own fields kept, the href added. */
  datatype LocalizedItem = LocalizedItem(route: string, labelKey: string, href: string)

  const NavigationItems: seq<MenuItem> := [
    MenuItem("", "nav.home"),
    MenuItem("about", "nav.about"),
    MenuItem("services", "nav.services"),
    MenuItem("contact", "nav.contact"),
    MenuItem("blog", "nav.blog")
  ]

  /** `items.map(item => ({...item, href: getLocalizedRoute(item.route, l)}))`. */
  function LocalizeItems(items: seq<MenuItem>, l: Lang): (r: seq<LocalizedItem>)
    ensures |r| == |items|
    ensures forall k :: 0 <= k < |r| ==>
      r[k].route == items[k].route && r[k].labelKey == items[k].labelKey &&
      r[k].href == GetLocalizedRoute(items[k].route, l)
  {
    if |items| == 0 then []
    else
      [LocalizedItem(items[0].route, items[0].labelKey, GetLocalizedRoute(items[0].route, l))]
      + LocalizeItems(items[1..], l)
  }

  /** `getLocalizedNavigationItems`: the menu in language `l`, item for item. */
  function GetLocalizedNavigationItems(l: Lang): (r: seq<LocalizedItem>)
    ensures |r| == 5
    ensures forall k :: 0 <= k < 5 ==>
      r[k].route == NavigationItems[k].route && r[k].labelKey == NavigationItems[k].labelKey &&
      r[k].href == GetLocalizedRoute(NavigationItems[k].route, l)
  {
    LocalizeItems(NavigationItems, l)
  }

  /** The five routes' hrefs in both languages, from the tables. */
  lemma RouteHrefs()
    ensures GetLocalizedRoute("", Fr) == "/fr" && GetLocalizedRoute("", Nl) == "/nl"
    ensures GetLocalizedRoute("about", Fr) == "/fr/about" && GetLocalizedRoute("about", Nl) == "/nl/about"
    ensures GetLocalizedRoute("services", Fr) == "/fr/services" && GetLocalizedRoute("services", Nl) == "/nl/diensten"
    ensures GetLocalizedRoute("contact", Fr) == "/fr/contact" && GetLocalizedRoute("contact", Nl) == "/nl/contact"
    ensures GetLocalizedRoute("blog", Fr) == "/fr/blog" && GetLocalizedRoute("blog", Nl) == "/nl/blog"
  {
  }

  /** The menu's routes, in order. */
  lemma MenuRoutes(l: Lang)
    ensures var m := GetLocalizedNavigationItems(l);
      m[0].href == GetLocalizedRoute("", l) && m[1].href == GetLocalizedRoute("about", l) &&
      m[2].href == GetLocalizedRoute("services", l) && m[3].href == GetLocalizedRoute("contact", l) &&
      m[4].href == GetLocalizedRoute("blog", l)
  {
    var m := GetLocalizedNavigationItems(l);
    assert m[0].href == GetLocalizedRoute(NavigationItems[0].route, l);
    assert m[1].href == GetLocalizedRoute(NavigationItems[1].route, l);
    assert m[2].href == GetLocalizedRoute(NavigationItems[2].route, l);
    assert m[3].href == GetLocalizedRoute(NavigationItems[3].route, l);
    assert m[4].href == GetLocalizedRoute(NavigationItems[4].route, l);
  }

  /**
   * The French hrefs as the code computes them: every route keeps its own slug.
   */
  lemma FrenchMenuHrefs()
    ensures var fr := GetLocalizedNavigationItems(Fr);
      fr[0].href == "/fr" && fr[1].href == "/fr/about" && fr[2].href == "/fr/services" &&
      fr[3].href == "/fr/contact" && fr[4].href == "/fr/blog"
  {
    MenuRoutes(Fr);
    RouteHrefs();
  }

  /**
   * The Dutch hrefs as the code computes them. "about" has no entry in the nl table,
   * so its href stays `/nl/about`; "services" becomes `/nl/diensten`.
   */
  lemma DutchMenuHrefs()
    ensures var nl := GetLocalizedNavigationItems(Nl);
      nl[0].href == "/nl" && nl[1].href == "/nl/about" && nl[2].href == "/nl/diensten" &&
      nl[3].href == "/nl/contact" && nl[4].href == "/nl/blog"
  {
    MenuRoutes(Nl);
    RouteHrefs();
  }
}
