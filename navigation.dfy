/** `getLocalizedRoute` (src/utils/navigation.ts): the href of a base route in a language. */
module Navigation {
  import opened Strings
  import opened RouteTranslations

  /**
   * The empty route is the language's home, `/fr` or `/nl`; any other route becomes
   * `/<lang>/<slug>`, where the slug is the table entry for the route or the route itself.
   */
  function GetLocalizedRoute(route: string, l: Lang): (r: string)
    ensures StartsWith(r, "/" + l.Code())
    ensures route == "" <==> r == "/" + l.Code()
  {
    if route == "" then "/" + l.Code()
    else "/" + l.Code() + "/" + Localize(l, route)
  }

  /**
   * A non-empty route's href is the locale prefix `/<code>/` followed by a non-empty
   * slug, and that slug is either a value of the language's table or the route itself.
   */
  lemma HrefSlug(route: string, l: Lang)
    requires route != ""
    ensures var h := GetLocalizedRoute(route, l); var p := "/" + l.Code() + "/";
      StartsWith(h, p) && |h| > |p| && (h[|p|..] == route || h[|p|..] in Table(l).Values)
  {
    var p := "/" + l.Code() + "/";
    var slug := Localize(l, route);
    assert GetLocalizedRoute(route, l) == p + slug;
    assert (p + slug)[..|p|] == p && (p + slug)[|p|..] == slug;
    if slug != route {
      assert route in Table(l) && Table(l)[route] == slug;
    }
  }

  /**
   * For a one-segment route, the href splits on '/' into exactly the empty leading
   * piece, the locale code and the localized slug; the home href into the first two.
   */
  lemma HrefSegments(route: string, l: Lang)
    requires '/' !in route
    ensures route == "" ==> Split(GetLocalizedRoute(route, l), '/') == ["", l.Code()]
    ensures route != "" ==> Split(GetLocalizedRoute(route, l), '/') == ["", l.Code(), Localize(l, route)]
  {
    var code := l.Code();
    assert '/' !in code by { assert code[0] != '/' && code[1] != '/'; }
    if route == "" {
      assert GetLocalizedRoute(route, l) == "/" + code;
      SplitHome(code);
    } else {
      LocalizeIsSegment(l, route);
      SplitPrefixed(code, Localize(l, route));
    }
  }

  /** "/" + a splits into "" and a when a has no '/'. */
  lemma SplitHome(a: string)
    requires '/' !in a
    ensures Split("/" + a, '/') == ["", a]
  {
    assert "/" + a == "" + ['/'] + a;
    SplitCons("", a, '/');
  }

  /** "/" + a + "/" + b splits into "", a and b when neither a nor b has a '/'. */
  lemma SplitPrefixed(a: string, b: string)
    requires '/' !in a && '/' !in b
    ensures Split("/" + a + "/" + b, '/') == ["", a, b]
  {
    assert "/" + a + "/" + b == "" + ['/'] + (a + ['/'] + b);
    SplitTwoPieces(a, b);
  }

  /** "/" + a + "/" + b splits into "", a and b when neither a nor b has a '/'. */
  lemma SplitTwoPieces(a: string, b: string)
    requires '/' !in a && '/' !in b
    ensures Split("" + ['/'] + (a + ['/'] + b), '/') == ["", a, b]
  {
    SplitCons("", a + ['/'] + b, '/');
    SplitCons(a, b, '/');
  }

  /** The cases spelled out in the menu's comments, computed from the tables. */
  lemma ConcreteRoutes()
    ensures GetLocalizedRoute("services", Nl) == "/nl/diensten"
    ensures GetLocalizedRoute("a-propos", Nl) == "/nl/over-ons"
    ensures GetLocalizedRoute("services", Fr) == "/fr/services"
    ensures GetLocalizedRoute("about", Nl) == "/nl/about"
    ensures GetLocalizedRoute("", Fr) == "/fr" && GetLocalizedRoute("", Nl) == "/nl"
  {
  }
}
