/**
 * The translation provider (src/hooks/useTranslation.tsx): the dotted-key lookup `t`,
 * the path rewriter `translateRoute` used by the language switch, the initial-language
 * rule, the URL-sync effect and `changeLanguage` / `toggleLanguage`.
 */
module UseTranslation {
  import opened Wrappers
  import opened Strings
  import opened RouteTranslations

  // ---------------------------------------------------------------------------
  // The dictionary and `t`
  // ---------------------------------------------------------------------------

  /**
   * A value of the loaded JSON dictionary. `Scalar` stands for a number, a boolean or
   * null: none of them is a string and none can be stepped into.
   */
  datatype Value = Str(text: string) | Obj(fields: map<string, Value>) | Arr(items: seq<Value>) | Scalar

  /** The string `s` is stored somewhere in `v`, at any depth. */
  predicate Occurs(v: Value, s: string) {
    match v
    case Str(t) => t == s
    case Obj(m) => exists k :: k in m && Occurs(m[k], s)
    case Arr(items) => exists i :: 0 <= i < |items| && Occurs(items[i], s)
    case Scalar => false
  }

  /** The dictionary before any file has loaded: `useState<any>({})`. */
  const EmptyDictionary: Value := Obj(map[])

  predicate IsDigit(c: char) {
    '0' <= c <= '9'
  }

  function DigitsValue(k: string): nat
    requires forall j :: 0 <= j < |k| ==> IsDigit(k[j])
  {
    if |k| == 0 then 0
    else
      var d := k[|k| - 1];
      assert IsDigit(d);
      10 * DigitsValue(k[..|k| - 1]) + (d as int - '0' as int)
  }

  /** The array index a property name denotes: canonical decimal, no leading zero. */
  function ArrayIndex(k: string): Option<nat> {
    if k != "" && (forall j :: 0 <= j < |k| ==> IsDigit(k[j])) && (k[0] != '0' || |k| == 1)
    then Some(DigitsValue(k))
    else None
  }

  /**
   * One iteration of the lookup loop: `value && typeof value === "object" && k in value`
   * then `value[k]`, else `None` (the loop returns the key). An array's "length" is a
   * number. Keys found only on the prototype chain are not modelled: every such path
   * ends in a non-string value, so `t` returns the key for them as it does here.
   */
  function Step(v: Value, k: string): (r: Option<Value>)
    ensures r.Some? ==> forall s :: Occurs(r.value, s) ==> Occurs(v, s)
  {
    match v
    case Obj(m) => if k in m then Some(m[k]) else None
    case Arr(items) =>
      if k == "length" then Some(Scalar)
      else (
        match ArrayIndex(k)
        case Some(i) => if i < |items| then Some(items[i]) else None
        case None => None)
    case _ => None
  }

  /** The value at the end of a path of keys, or `None` if some step fails. */
  function Resolve(v: Value, keys: seq<string>): (r: Option<Value>)
    ensures r.Some? ==> forall s :: Occurs(r.value, s) ==> Occurs(v, s)
    decreases |keys|
  {
    if |keys| == 0 then Some(v)
    else match Step(v, keys[0])
      case Some(w) => Resolve(w, keys[1..])
      case None => None
  }

  /**
   * `t(key)`: the string at the dotted path, or the key itself. It never makes text up:
   * whatever it shows that is not the key is a string stored in the dictionary.
   */
  function Translate(dict: Value, key: string): (r: string)
    ensures r == key || Occurs(dict, r)
  {
    match Resolve(dict, Split(key, '.'))
    case Some(Str(s)) => s
    case _ => key
  }

  /** `t` as written: a loop that rebinds `value` one key at a time. */
  method T(dict: Value, key: string) returns (r: string)
    ensures r == Translate(dict, key)
  {
    var keys := Split(key, '.');
    var value := dict;
    var i := 0;
    while i < |keys|
      invariant 0 <= i <= |keys|
      invariant Resolve(dict, keys) == Resolve(value, keys[i..])
      decreases |keys| - i
    {
      assert keys[i..][0] == keys[i] && keys[i..][1..] == keys[i + 1..];
      match Step(value, keys[i])
      case Some(w) =>
        value := w;
        i := i + 1;
      case None =>
        return key;
    }
    assert keys[i..] == [];
    match value
    case Str(s) =>
      r := s;
    case _ =>
      r := key;
  }

  /** With the initial empty dictionary every key is shown as itself. */
  lemma EmptyDictionaryShowsKeys(key: string)
    ensures Translate(EmptyDictionary, key) == key
  {
    var keys := Split(key, '.');
    assert keys[0] !in EmptyDictionary.fields;
  }

  /** A dotted key made of proper parts is looked up part by part. */
  lemma KeyPath(dict: Value, parts: seq<string>)
    requires |parts| > 0
    requires forall k :: 0 <= k < |parts| ==> parts[k] != "" && '.' !in parts[k]
    ensures Split(Join(parts, '.'), '.') == parts
    ensures Resolve(dict, parts).Some? && Resolve(dict, parts).value.Str? ==>
      Translate(dict, Join(parts, '.')) == Resolve(dict, parts).value.text
    ensures !(Resolve(dict, parts).Some? && Resolve(dict, parts).value.Str?) ==>
      Translate(dict, Join(parts, '.')) == Join(parts, '.')
  {
    SplitJoin(parts, '.');
  }

  /** The dictionary `{a: {b: s}}`. */
  function Nested(a: string, b: string, s: string): Value {
    Obj(map[a := Obj(map[b := Str(s)])])
  }

  /** In `{a: {b: s}}` the key "a.b" gives the string. */
  lemma NestedFound(a: string, b: string, s: string)
    requires a != "" && b != "" && '.' !in a && '.' !in b
    ensures Translate(Nested(a, b, s), a + "." + b) == s
  {
    assert Join([a, b], '.') == a + "." + b;
    KeyPath(Nested(a, b, s), [a, b]);
    assert Resolve(Obj(map[b := Str(s)]), [b]) == Some(Str(s));
  }

  /** "a" stops on an object and shows as itself. */
  lemma NestedStopsOnObject(a: string, b: string, s: string)
    requires a != "" && '.' !in a
    ensures Translate(Nested(a, b, s), a) == a
  {
    assert Join([a], '.') == a;
    KeyPath(Nested(a, b, s), [a]);
  }

  /** "a.c" names a missing key and shows as itself. */
  lemma NestedMissing(a: string, b: string, c: string, s: string)
    requires a != "" && c != "" && b != c && '.' !in a && '.' !in c
    ensures Translate(Nested(a, b, s), a + "." + c) == a + "." + c
  {
    assert Join([a, c], '.') == a + "." + c;
    KeyPath(Nested(a, b, s), [a, c]);
    assert Resolve(Obj(map[b := Str(s)]), [c]) == None;
  }

  /** "a.b.c" runs past the string and shows as itself. */
  lemma NestedPastString(a: string, b: string, c: string, s: string)
    requires a != "" && b != "" && c != "" && '.' !in a && '.' !in b && '.' !in c
    ensures Translate(Nested(a, b, s), a + "." + b + "." + c) == a + "." + b + "." + c
  {
    assert [a, b, c][1..] == [b, c];
    assert Join([b, c], '.') == b + "." + c;
    assert Join([a, b, c], '.') == a + "." + b + "." + c;
    KeyPath(Nested(a, b, s), [a, b, c]);
    assert Resolve(Str(s), [c]) == None;
    assert Resolve(Obj(map[b := Str(s)]), [b, c]) == None;
  }

  // ---------------------------------------------------------------------------
  // `translateRoute`
  // ---------------------------------------------------------------------------

  predicate IsLower(c: char) {
    'a' <= c <= 'z'
  }

  /** `path.replace(/^\/[a-z]{2}/, "")`: drops '/' and two lower-case letters, locale or not. */
  function StripLocale(path: string): string {
    if |path| >= 3 && path[0] == '/' && IsLower(path[1]) && IsLower(path[2]) then path[3..]
    else path
  }

  /** `... || "/"`: an empty remainder is replaced by "/". */
  function PathWithoutLocale(path: string): (r: string)
    ensures r != ""
  {
    if StripLocale(path) == "" then "/" else StripLocale(path)
  }

  /** `pathWithoutLocale.split("/").filter(Boolean)`. */
  function PathSegments(path: string): (r: seq<string>)
    ensures forall k :: 0 <= k < |r| ==> r[k] != "" && '/' !in r[k]
  {
    var pieces := Split(PathWithoutLocale(path), '/');
    SplitPiecesFree(PathWithoutLocale(path), '/');
    NonEmptyPiecesFrom(pieces, '/');
    NonEmpty(pieces)
  }

  /** `translateRoute(currentPath, targetLang)`. */
  function TranslateRoute(path: string, target: Lang): string {
    var segments := PathSegments(path);
    if |segments| == 0 then "/" + target.Code()
    else
      var translated := Localize(target, segments[0]);
      var remaining := segments[1..];
      "/" + target.Code() + "/" + translated +
        (if |remaining| > 0 then "/" + Join(remaining, '/') else "")
  }

  /** With no segment left the result is exactly the target's home. */
  lemma NoSegmentsGivesHome(path: string, target: Lang)
    ensures |PathSegments(path)| == 0 <==> TranslateRoute(path, target) == "/" + target.Code()
  {
    if |PathSegments(path)| > 0 {
      assert |TranslateRoute(path, target)| > 3;
    }
  }

  /** Any two lower-case letters after the leading '/' are removed, locale or not. */
  lemma StripsAnyTwoLetters()
    ensures TranslateRoute("/contact", Fr) == "/fr/ntact"
    ensures TranslateRoute("/fr", Nl) == "/nl"
    ensures TranslateRoute("", Nl) == "/nl"
  {
    StripsContact();
    LocaleHomeGivesHome("fr", Nl);
    EmptyPathGivesHome(Nl);
    assert "/" + Nl.Code() == "/nl" && "/" + "fr" == "/fr";
  }

  /** "/contact" loses its "co": one segment "ntact", which no table knows. */
  lemma StripsContact()
    ensures TranslateRoute("/contact", Fr) == "/fr/ntact"
  {
    ContactSegments();
    assert "ntact" !in FrTable;
    assert Localize(Fr, "ntact") == "ntact";
  }

  /** The segments of "/contact" after the two letters are stripped. */
  lemma ContactSegments()
    ensures PathSegments("/contact") == ["ntact"]
  {
    assert "/contact"[3..] == "ntact";
    assert PathWithoutLocale("/contact") == "ntact";
    assert Split("ntact", '/') == ["ntact"];
    NonEmptyIdentity(["ntact"]);
  }

  /** The empty path counts as "/", which has no segments. */
  lemma EmptyPathGivesHome(target: Lang)
    ensures TranslateRoute("", target) == "/" + target.Code()
  {
    assert PathWithoutLocale("") == "/";
    SplitLeadingSlash("");
    assert Split("", '/') == [""];
    assert Split("/", '/') == ["", ""];
    assert NonEmpty(["", ""]) == [];
    NoSegmentsGivesHome("", target);
  }

  /** A bare two-letter prefix translates to the target's home. */
  lemma LocaleHomeGivesHome(code: string, target: Lang)
    requires |code| == 2 && IsLower(code[0]) && IsLower(code[1])
    ensures TranslateRoute("/" + code, target) == "/" + target.Code()
  {
    SegmentsOfHome(code);
    NoSegmentsGivesHome("/" + code, target);
  }

  /** The result written as a join: the locale, then the translated head, then the rest. */
  lemma TranslateRouteAsJoin(path: string, target: Lang)
    requires |PathSegments(path)| > 0
    ensures var segs := PathSegments(path);
      TranslateRoute(path, target) ==
        "/" + target.Code() + "/" + Join([Localize(target, segs[0])] + segs[1..], '/')
  {
    var segs := PathSegments(path);
    JoinCons(Localize(target, segs[0]), segs[1..], '/');
  }

  /** Splitting after a leading '/' yields an empty first piece. */
  lemma SplitLeadingSlash(j: string)
    ensures Split(['/'] + j, '/') == [""] + Split(j, '/')
  {
    assert ['/'] + j == "" + ['/'] + j;
    SplitCons("", j, '/');
  }

  /** A bare locale prefix has no segments. */
  lemma SegmentsOfHome(code: string)
    requires |code| == 2 && IsLower(code[0]) && IsLower(code[1])
    ensures PathSegments("/" + code) == []
  {
    var p := "/" + code;
    assert StripLocale(p) == "";
    assert PathWithoutLocale(p) == ['/'] + "";
    SplitLeadingSlash("");
    assert Split("", '/') == [""];
    assert Split(PathWithoutLocale(p), '/') == ["", ""];
    assert NonEmpty([""]) == [];
    assert NonEmpty(["", ""]) == [];
  }

  /** Stripping the locale of "/xx/" + j leaves "/" + j. */
  lemma WithoutLocaleOf(code: string, j: string)
    requires |code| == 2 && IsLower(code[0]) && IsLower(code[1])
    ensures PathWithoutLocale("/" + code + "/" + j) == ['/'] + j
  {
    var p := "/" + code + "/" + j;
    assert p[0] == '/' && p[1] == code[0] && p[2] == code[1];
    assert p[3..] == ['/'] + j;
  }

  /** The segments of "/xx/" + join(parts) are the parts, when all are proper segments. */
  lemma SegmentsOfLocalizedPath(code: string, parts: seq<string>)
    requires |code| == 2 && IsLower(code[0]) && IsLower(code[1])
    requires |parts| > 0
    requires forall k :: 0 <= k < |parts| ==> parts[k] != "" && '/' !in parts[k]
    ensures PathSegments("/" + code + "/" + Join(parts, '/')) == parts
  {
    var j := Join(parts, '/');
    WithoutLocaleOf(code, j);
    SplitLeadingSlash(j);
    SplitJoin(parts, '/');
    NonEmptyIdentity(parts);
    var pieces := [""] + parts;
    assert NonEmpty(pieces) == parts by {
      assert pieces[0] == "" && pieces[1..] == parts;
    }
  }

  /**
   * What `translateRoute` does to the path's segments: the first is localized into the
   * target language, the others are kept in order, and the locale becomes the target.
   */
  lemma {:induction false} TranslatedSegments(path: string, target: Lang)
    requires |PathSegments(path)| > 0
    ensures var segs := PathSegments(path);
      PathSegments(TranslateRoute(path, target)) == [Localize(target, segs[0])] + segs[1..]
  {
    var segs := PathSegments(path);
    var parts := [Localize(target, segs[0])] + segs[1..];
    LocalizeIsSegment(target, segs[0]);
    TranslateRouteAsJoin(path, target);
    SegmentsOfLocalizedPath(target.Code(), parts);
  }

  /** Switching to the language the path is already in again changes nothing more. */
  lemma {:induction false} TranslateRouteIdempotent(path: string, target: Lang)
    ensures TranslateRoute(TranslateRoute(path, target), target) == TranslateRoute(path, target)
  {
    var once := TranslateRoute(path, target);
    var segs := PathSegments(path);
    if |segs| == 0 {
      SegmentsOfHome(target.Code());
    } else {
      TranslatedSegments(path, target);
      var segs2 := PathSegments(once);
      LocalizeIdempotent(target, segs[0]);
      TranslateRouteAsJoin(once, target);
      TranslateRouteAsJoin(path, target);
      assert segs2[1..] == segs[1..];
    }
  }

  /**
   * Round trip: a path whose first segment is not one of the two Dutch slugs comes
   * back from nl to fr as the fr path with its empty segments removed.
   */
  lemma {:induction false} RoundTripFrNlFr(path: string)
    requires |PathSegments(path)| > 0
    requires PathSegments(path)[0] != "over-ons" && PathSegments(path)[0] != "diensten"
    ensures TranslateRoute(TranslateRoute(path, Nl), Fr) == "/" + Fr.Code() + "/" + Join(PathSegments(path), '/')
    ensures TranslateRoute(TranslateRoute(path, Nl), Fr) == TranslateRoute(path, Fr)
  {
    ThroughNl(path);
    FrKeepsSegments(path);
  }

  /** Through nl and back to fr, the segments come back unchanged. */
  lemma ThroughNl(path: string)
    requires |PathSegments(path)| > 0
    requires PathSegments(path)[0] != "over-ons" && PathSegments(path)[0] != "diensten"
    ensures TranslateRoute(TranslateRoute(path, Nl), Fr) == "/" + Fr.Code() + "/" + Join(PathSegments(path), '/')
  {
    var segs := PathSegments(path);
    var q := [Localize(Nl, segs[0])] + segs[1..];
    TranslateRouteAsJoin(path, Nl);
    LocalizedParts(Nl, segs);
    TranslateLocalized(Nl.Code(), q, Fr);
    NlThenFr(segs[0]);
    assert [Localize(Fr, q[0])] + q[1..] == segs;
  }

  /** Without a Dutch first slug, translating to fr keeps the segments. */
  lemma FrKeepsSegments(path: string)
    requires |PathSegments(path)| > 0
    requires PathSegments(path)[0] != "over-ons" && PathSegments(path)[0] != "diensten"
    ensures TranslateRoute(path, Fr) == "/" + Fr.Code() + "/" + Join(PathSegments(path), '/')
  {
    var segs := PathSegments(path);
    TranslateRouteAsJoin(path, Fr);
    FrFixes(segs[0]);
    assert [Localize(Fr, segs[0])] + segs[1..] == segs;
  }

  /** `translateRoute` on a path that is a locale prefix followed by proper segments. */
  lemma {:induction false} TranslateLocalized(code: string, parts: seq<string>, target: Lang)
    requires |code| == 2 && IsLower(code[0]) && IsLower(code[1])
    requires |parts| > 0
    requires forall k :: 0 <= k < |parts| ==> parts[k] != "" && '/' !in parts[k]
    ensures TranslateRoute("/" + code + "/" + Join(parts, '/'), target) ==
      "/" + target.Code() + "/" + Join([Localize(target, parts[0])] + parts[1..], '/')
  {
    var path := "/" + code + "/" + Join(parts, '/');
    SegmentsOfLocalizedPath(code, parts);
    TranslateRouteAsJoin(path, target);
  }

  /** The localized form of proper segments is again made of proper segments. */
  lemma LocalizedParts(target: Lang, parts: seq<string>)
    requires |parts| > 0
    requires forall k :: 0 <= k < |parts| ==> parts[k] != "" && '/' !in parts[k]
    ensures var q := [Localize(target, parts[0])] + parts[1..];
      |q| > 0 && forall k :: 0 <= k < |q| ==> q[k] != "" && '/' !in q[k]
  {
    LocalizeIsSegment(target, parts[0]);
  }

  /** A French path already without empty segments survives the round trip exactly. */
  lemma {:induction false} RoundTripExact(parts: seq<string>)
    requires |parts| > 0
    requires forall k :: 0 <= k < |parts| ==> parts[k] != "" && '/' !in parts[k]
    requires parts[0] != "over-ons" && parts[0] != "diensten"
    ensures TranslateRoute(TranslateRoute("/fr/" + Join(parts, '/'), Nl), Fr) == "/fr/" + Join(parts, '/')
  {
    var j := Join(parts, '/');
    var q := [Localize(Nl, parts[0])] + parts[1..];
    var mid := "/" + Nl.Code() + "/" + Join(q, '/');
    assert Fr.Code() == "fr" && Nl.Code() == "nl";
    assert "/fr/" + j == "/" + Fr.Code() + "/" + j;
    TranslateLocalized(Fr.Code(), parts, Nl);
    assert TranslateRoute("/fr/" + j, Nl) == mid;
    LocalizedParts(Nl, parts);
    TranslateLocalized(Nl.Code(), q, Fr);
    NlThenFr(parts[0]);
    assert [Localize(Fr, q[0])] + q[1..] == parts;
  }

  /**
   * The converse round trip fails on "services": from nl to fr and back to nl the
   * first segment becomes "diensten".
   */
  lemma {:induction false} RoundTripNlFrNlFails(parts: seq<string>)
    requires |parts| > 0 && parts[0] == "services"
    requires forall k :: 0 <= k < |parts| ==> parts[k] != "" && '/' !in parts[k]
    ensures TranslateRoute(TranslateRoute("/nl/" + Join(parts, '/'), Fr), Nl) ==
      "/nl/" + Join(["diensten"] + parts[1..], '/')
  {
    var j := Join(parts, '/');
    assert Fr.Code() == "fr" && Nl.Code() == "nl";
    assert "/nl/" + j == "/" + Nl.Code() + "/" + j;
    TranslateLocalized(Nl.Code(), parts, Fr);
    FrTableEntries();
    assert Localize(Fr, parts[0]) == "services";
    assert [Localize(Fr, parts[0])] + parts[1..] == parts;
    assert TranslateRoute("/nl/" + j, Fr) == "/" + Fr.Code() + "/" + j;
    TranslateLocalized(Fr.Code(), parts, Nl);
    NlTableEntries();
    assert Localize(Nl, parts[0]) == "diensten";
  }

  // ---------------------------------------------------------------------------
  // Language state
  // ---------------------------------------------------------------------------

  /** `pathname.split("/")[1]`, which is `undefined` when there is no '/'. */
  function UrlSegment(pathname: string): Option<string> {
    var pieces := Split(pathname, '/');
    if |pieces| > 1 then Some(pieces[1]) else None
  }

  predicate IsLocaleCode(s: string) {
    s == "fr" || s == "nl"
  }

  /**
   * The `useState` initializer: a stored "fr"/"nl" wins; otherwise the first URL
   * segment, unvalidated, when it is non-empty; otherwise the default "fr". `saved` is
   * `None` when storage has no item or there is no window.
   */
  function InitialLanguage(saved: Option<string>, pathname: string): (r: string)
    ensures saved.Some? && IsLocaleCode(saved.value) ==> r == saved.value
    ensures r != ""
  {
    if saved.Some? && IsLocaleCode(saved.value) then saved.value
    else match UrlSegment(pathname)
      case Some(s) => if s != "" then s else DefaultLocale.Code()
      case None => DefaultLocale.Code()
  }

  /** The first URL segment of "/seg/rest" and of "/seg" is `seg`. */
  lemma UrlSegmentOf(seg: string, rest: string)
    requires '/' !in seg
    ensures UrlSegment("/" + seg + "/" + rest) == Some(seg)
    ensures UrlSegment("/" + seg) == Some(seg)
  {
    var t := seg + ['/'] + rest;
    assert "/" + seg + "/" + rest == ['/'] + t;
    SplitLeadingSlash(t);
    SplitCons(seg, rest, '/');
    SplitLeadingSlash(seg);
    assert Split(seg, '/') == [seg];
  }

  /** Without a usable stored value, a non-empty first URL segment is taken as is. */
  lemma InitialFromUrl(saved: Option<string>, seg: string, rest: string)
    requires saved.None? || !IsLocaleCode(saved.value)
    requires seg != "" && '/' !in seg
    ensures InitialLanguage(saved, "/" + seg + "/" + rest) == seg
    ensures InitialLanguage(saved, "/" + seg) == seg
  {
    UrlSegmentOf(seg, rest);
  }

  /** Without a usable stored value and without a first URL segment, the default is fr. */
  lemma InitialDefault(saved: Option<string>)
    requires saved.None? || !IsLocaleCode(saved.value)
    ensures InitialLanguage(saved, "/") == "fr"
    ensures InitialLanguage(saved, "") == "fr"
  {
    UrlSegmentOf("", "");
    assert "/" + "" == "/";
  }

  /** `toggleLanguage`: "fr" goes to nl, any other value to fr. */
  function Toggled(language: string): (l: Lang)
    ensures l == Nl <==> language == "fr"
  {
    if language == "fr" then Nl else Fr
  }

  /** The URL-sync effect's decision: the new language, if it has to change. */
  function SyncedLanguage(pathname: string, language: string): (r: Option<string>)
    ensures r.Some? ==> IsLocaleCode(r.value) && r.value != language && UrlSegment(pathname) == r
    ensures r.None? ==>
      (UrlSegment(pathname).None? || !IsLocaleCode(UrlSegment(pathname).value) ||
       UrlSegment(pathname).value == language)
  {
    match UrlSegment(pathname)
    case Some(s) => if IsLocaleCode(s) && s != language then Some(s) else None
    case None => None
  }

  /** A translated path names the target language in its first segment. */
  lemma UrlSegmentOfTranslated(path: string, target: Lang)
    ensures UrlSegment(TranslateRoute(path, target)) == Some(target.Code())
  {
    var code := target.Code();
    assert '/' !in code by { assert IsLower(code[0]) && IsLower(code[1]); }
    var segs := PathSegments(path);
    if |segs| == 0 {
      NoSegmentsGivesHome(path, target);
      UrlSegmentOf(code, "");
    } else {
      TranslateRouteAsJoin(path, target);
      UrlSegmentOf(code, Join([Localize(target, segs[0])] + segs[1..], '/'));
    }
  }

  /**
   * The provider's state. `pathname` is what the router reports; `preferred` is the
   * "preferred-language" storage item; `replaced` is the last URL passed to
   * `history.replaceState`, which the router then reports as its pathname.
   */
  class TranslationProvider {
    var pathname: string
    var language: string
    var translations: Value
    var preferred: Option<string>
    var replaced: Option<string>

    constructor (pathname: string, saved: Option<string>)
      ensures this.pathname == pathname && language == InitialLanguage(saved, pathname)
      ensures translations == EmptyDictionary && preferred == saved && replaced == None
    {
      this.pathname := pathname;
      language := InitialLanguage(saved, pathname);
      translations := EmptyDictionary;
      preferred := saved;
      replaced := None;
    }

    /** The URL-sync effect: adopt a "fr"/"nl" first segment that differs, and store it. */
    method SyncWithUrl()
      modifies this
      ensures pathname == old(pathname) && translations == old(translations) && replaced == old(replaced)
      ensures SyncedLanguage(pathname, old(language)).Some? ==>
        language == SyncedLanguage(pathname, old(language)).value && preferred == Some(language)
      ensures SyncedLanguage(pathname, old(language)).None? ==>
        language == old(language) && preferred == old(preferred)
    {
      match SyncedLanguage(pathname, language)
      case Some(s) =>
        language := s;
        preferred := Some(s);
      case None =>
    }

    /** The router reports a new pathname; the URL-sync effect runs. */
    method Navigate(p: string)
      modifies this
      ensures pathname == p && translations == old(translations) && replaced == old(replaced)
      ensures SyncedLanguage(p, old(language)).Some? ==>
        language == SyncedLanguage(p, old(language)).value && preferred == Some(language)
      ensures SyncedLanguage(p, old(language)).None? ==>
        language == old(language) && preferred == old(preferred)
    {
      pathname := p;
      SyncWithUrl();
    }

    /** `loadTranslations`: the imported file replaces the dictionary; a failed import leaves it. */
    method LoadTranslations(loaded: Option<Value>)
      modifies this`translations
      ensures translations == loaded.GetOr(old(translations))
    {
      if loaded.Some? {
        translations := loaded.value;
      }
    }

    /** `t` against the current dictionary. */
    method Lookup(key: string) returns (r: string)
      ensures r == Translate(translations, key)
    {
      r := T(translations, key);
    }

    /** `changeLanguage`: replace the URL by the translated path, then set and store the language. */
    method ChangeLanguage(l: Lang)
      modifies this
      ensures replaced == Some(TranslateRoute(if old(pathname) == "" then "/" else old(pathname), l))
      ensures pathname == replaced.value
      ensures language == l.Code() && preferred == Some(l.Code())
      ensures translations == old(translations)
      ensures SyncedLanguage(pathname, language).None?
    {
      var newPath := TranslateRoute(if pathname == "" then "/" else pathname, l);
      replaced := Some(newPath);
      pathname := newPath;
      language := l.Code();
      preferred := Some(l.Code());
      UrlSegmentOfTranslated(if old(pathname) == "" then "/" else old(pathname), l);
    }

    /** `toggleLanguage`: change to nl from "fr", to fr from anything else. */
    method ToggleLanguage()
      modifies this
      ensures language == Toggled(old(language)).Code()
      ensures old(language) == "fr" ==> language == "nl"
      ensures old(language) != "fr" ==> language == "fr"
      ensures pathname ==
        TranslateRoute(if old(pathname) == "" then "/" else old(pathname), Toggled(old(language)))
      ensures SyncedLanguage(pathname, language).None?
    {
      ChangeLanguage(Toggled(language));
    }
  }
}
