/**
 * The request middleware (src/middleware.ts): a path that already names a locale passes
 * through; any other path is redirected to the same path under a locale taken from the
 * Accept-Language header by a plain substring test.
 */
module Middleware {
  import opened Wrappers
  import opened Strings
  import opened RouteTranslations
  import opened Navigation
  import opened UseTranslation

  /** The test inside `locales.some(...)` for one locale: "/xx/..." or exactly "/xx". */
  predicate LocalizedBy(pathname: string, l: Lang) {
    StartsWith(pathname, "/" + l.Code() + "/") || pathname == "/" + l.Code()
  }

  /** `locs.some(locale => ...)`, scanning the locales in order. */
  predicate SomeLocale(locs: seq<Lang>, pathname: string)
    decreases |locs|
  {
    |locs| > 0 && (LocalizedBy(pathname, locs[0]) || SomeLocale(locs[1..], pathname))
  }

  /** `pathnameHasLocale`. */
  predicate HasLocale(pathname: string) {
    SomeLocale(Locales, pathname)
  }

  /** The localized-path test spelled out: "/fr", "/nl", or a "/fr/" or "/nl/" prefix. */
  lemma HasLocaleIff(pathname: string)
    ensures HasLocale(pathname) <==>
      StartsWith(pathname, "/fr/") || StartsWith(pathname, "/nl/") ||
      pathname == "/fr" || pathname == "/nl"
  {
    assert Locales[1..] == [Nl];
    assert [Nl][1..] == [];
    assert "/" + Fr.Code() + "/" == "/fr/" && "/" + Nl.Code() + "/" == "/nl/";
  }

  /** A path that merely begins with a locale's letters is not localized. */
  lemma PrefixIsNotLocale()
    ensures !HasLocale("/french") && !HasLocale("/nlx/a") && !HasLocale("/") && !HasLocale("")
    ensures HasLocale("/fr/") && HasLocale("/nl") && HasLocale("/nl/diensten")
  {
    HasLocaleIff("/french");
    HasLocaleIff("/nlx/a");
    HasLocaleIff("/");
    HasLocaleIff("");
    HasLocaleIff("/fr/");
    HasLocaleIff("/nl");
    HasLocaleIff("/nl/diensten");
    assert "/french"[..4] == "/fre";
    assert "/nlx/a"[..4] == "/nlx";
  }

  /** A localized path's second '/'-piece is its locale's code, and that locale is unique. */
  lemma LocalizedSegment(pathname: string, l: Lang)
    requires LocalizedBy(pathname, l)
    ensures |Split(pathname, '/')| > 1 && Split(pathname, '/')[1] == l.Code()
    ensures forall m: Lang :: LocalizedBy(pathname, m) ==> m == l
  {
    var c := l.Code();
    if StartsWith(pathname, "/" + c + "/") {
      assert pathname == "/" + c + "/" + pathname[4..];
      UrlSegmentOf(c, pathname[4..]);
    } else {
      UrlSegmentOf(c, "");
    }
    forall m: Lang | LocalizedBy(pathname, m)
      ensures m == l
    {
      assert pathname[1..3] == m.Code() && pathname[1..3] == c;
    }
  }

  /** The locale a localized path names. */
  function PathLocale(pathname: string): (l: Lang)
    requires HasLocale(pathname)
    ensures LocalizedBy(pathname, l)
  {
    assert Locales[1..] == [Nl];
    assert [Nl][1..] == [];
    if LocalizedBy(pathname, Fr) then Fr else Nl
  }

  /**
   * `getLocale`: the path's own locale when it has one (its second '/'-piece); else "nl"
   * when an Accept-Language header is present and contains "nl" anywhere; else "fr".
   */
  function GetLocale(pathname: string, acceptLanguage: Option<string>): (r: string)
    ensures r == "fr" || r == "nl"
    ensures HasLocale(pathname) ==> LocalizedBy(pathname, PathLocale(pathname)) && r == PathLocale(pathname).Code()
    ensures !HasLocale(pathname) ==>
      (r == "nl" <==> acceptLanguage.Some? && Contains(acceptLanguage.value, "nl"))
  {
    if HasLocale(pathname) then
      LocalizedSegment(pathname, PathLocale(pathname));
      Split(pathname, '/')[1]
    else if acceptLanguage.Some? && Contains(acceptLanguage.value, "nl") then "nl"
    else DefaultLocale.Code()
  }

  /** On a localized path the header plays no part. */
  lemma GetLocaleIgnoresHeader(pathname: string, a: Option<string>, b: Option<string>)
    requires HasLocale(pathname)
    ensures UrlSegment(pathname).Some?
    ensures GetLocale(pathname, a) == GetLocale(pathname, b) == UrlSegment(pathname).value
  {
    LocalizedSegment(pathname, PathLocale(pathname));
  }

  /** The header test is a substring test: "nl" anywhere selects Dutch, even inside a word. */
  lemma HeaderSubstring()
    ensures GetLocale("/", Some("nl-BE,nl;q=0.9")) == "nl"
    ensures GetLocale("/", Some("en-US")) == "fr"
    ensures GetLocale("/", None) == "fr"
  {
    HasLocaleIff("/");
    assert StartsWith("nl-BE,nl;q=0.9", "nl");
    assert !Contains("", "nl");
    assert !Contains("S", "nl") && !Contains("US", "nl") && !Contains("-US", "nl");
    assert !Contains("n-US", "nl") && !Contains("en-US", "nl");
  }

  /** What `middleware` answers: `None` to pass through, or the URL it redirects to. */
  function RedirectTarget(pathname: string, acceptLanguage: Option<string>): (r: Option<string>)
    ensures r.None? <==> HasLocale(pathname)
    ensures r.Some? ==> exists l: Lang :: r.value == "/" + l.Code() + pathname
  {
    if HasLocale(pathname) then None
    else
      var l := if GetLocale(pathname, acceptLanguage) == "nl" then Nl else Fr;
      Some("/" + l.Code() + pathname)
  }

  /** The redirect puts the chosen locale in front of the whole original path. */
  lemma RedirectLocale(pathname: string, acceptLanguage: Option<string>)
    requires !HasLocale(pathname)
    ensures acceptLanguage.Some? && Contains(acceptLanguage.value, "nl") ==>
      RedirectTarget(pathname, acceptLanguage) == Some("/nl" + pathname)
    ensures !(acceptLanguage.Some? && Contains(acceptLanguage.value, "nl")) ==>
      RedirectTarget(pathname, acceptLanguage) == Some("/fr" + pathname)
  {
    assert "/" + Nl.Code() + pathname == "/nl" + pathname;
    assert "/" + Fr.Code() + pathname == "/fr" + pathname;
  }

  /**
   * For a path that is empty or starts with '/', the redirect target is itself
   * localized: a second pass, under any header, lets it through.
   */
  lemma RedirectIdempotent(pathname: string, a: Option<string>, b: Option<string>)
    requires pathname == "" || pathname[0] == '/'
    ensures RedirectTarget(pathname, a).Some? ==> RedirectTarget(RedirectTarget(pathname, a).value, b).None?
  {
    if !HasLocale(pathname) {
      var t := RedirectTarget(pathname, a).value;
      var l: Lang :| t == "/" + l.Code() + pathname;
      if pathname != "" {
        assert t[..4] == "/" + l.Code() + "/";
      }
      assert LocalizedBy(t, l);
      HasLocaleIff(t);
      assert Locales[1..] == [Nl];
    }
  }

  /** Without a leading '/', the target is not localized and would be redirected again. */
  lemma RedirectWithoutSlash()
    ensures RedirectTarget("x", None) == Some("/frx")
    ensures RedirectTarget("/frx", None) == Some("/fr/frx")
  {
    HasLocaleIff("x");
    HasLocaleIff("/frx");
    assert "/frx"[..4] == "/frx";
    assert !Contains("", "nl");
    RedirectLocale("x", None);
    RedirectLocale("/frx", None);
    assert "/fr" + "x" == "/frx" && "/fr" + "/frx" == "/fr/frx";
  }

  /** Every menu href already carries its locale, so the middleware lets it through. */
  lemma HrefsPassThrough(route: string, l: Lang, accept: Option<string>)
    ensures RedirectTarget(GetLocalizedRoute(route, l), accept).None?
    ensures GetLocale(GetLocalizedRoute(route, l), accept) == l.Code()
  {
    var href := GetLocalizedRoute(route, l);
    if route != "" {
      assert href[..4] == "/" + l.Code() + "/";
    }
    assert LocalizedBy(href, l);
    HasLocaleIff(href);
    LocalizedSegment(href, l);
  }

  /** So does every URL the language switch writes. */
  lemma TranslatedPassThrough(path: string, target: Lang, accept: Option<string>)
    ensures RedirectTarget(TranslateRoute(path, target), accept).None?
    ensures GetLocale(TranslateRoute(path, target), accept) == target.Code()
  {
    var t := TranslateRoute(path, target);
    if |PathSegments(path)| > 0 {
      assert t[..4] == "/" + target.Code() + "/";
    }
    assert LocalizedBy(t, target);
    HasLocaleIff(t);
    LocalizedSegment(t, target);
  }

  /** The incoming request; `middleware` rewrites `nextUrl.pathname` before redirecting. */
  class Request {
    var pathname: string
    const acceptLanguage: Option<string>

    constructor (pathname: string, acceptLanguage: Option<string>)
      ensures this.pathname == pathname && this.acceptLanguage == acceptLanguage
    {
      this.pathname := pathname;
      this.acceptLanguage := acceptLanguage;
    }

    /** `middleware(request)`: `None` passes through; `Some(url)` redirects there. */
    method Middleware() returns (redirect: Option<string>)
      modifies this
      ensures redirect == RedirectTarget(old(pathname), acceptLanguage)
      ensures pathname == redirect.GetOr(old(pathname))
    {
      if HasLocale(pathname) {
        return None;
      }
      var locale := GetLocale(pathname, acceptLanguage);
      pathname := "/" + locale + pathname;
      redirect := Some(pathname);
    }
  }
}
