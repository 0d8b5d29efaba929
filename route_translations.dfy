/**
 * The two static slug tables of the site (src/utils/routeTranslations.ts) and the
 * locale list. A table maps a slug of either language to the slug used in the
 * table's own language; slugs absent from a table are kept as they are.
 */
module RouteTranslations {

  /** The `Language` type: exactly the two entries of `locales`. */
  datatype Lang = Fr | Nl {
    /** The locale code used as the first path segment. */
    function Code(): (c: string)
      ensures |c| == 2 && 'a' <= c[0] <= 'z' && 'a' <= c[1] <= 'z'
    {
      match this
      case Fr => "fr"
      case Nl => "nl"
    }
  }

  const Locales: seq<Lang> := [Fr, Nl]
  const DefaultLocale: Lang := Fr

  /** The codes of `locales`, in order. */
  function LocaleCodes(): (r: seq<string>)
    ensures |r| == |Locales| && forall k :: 0 <= k < |r| ==> r[k] == Locales[k].Code()
  {
    ["fr", "nl"]
  }

  /** `routeTranslations.fr`: Dutch slugs back to French ones, plus identities. */
  const FrTable: map<string, string> := map[
    "over-ons" := "a-propos",
    "diensten" := "services",
    "contact" := "contact",
    "services" := "services",
    "blog" := "blog"
  ]

  /** `routeTranslations.nl`: French slugs to Dutch ones, plus identities. */
  const NlTable: map<string, string> := map[
    "a-propos" := "over-ons",
    "services" := "diensten",
    "contact" := "contact",
    "blog" := "blog"
  ]

  function Table(l: Lang): map<string, string> {
    match l
    case Fr => FrTable
    case Nl => NlTable
  }

  /**
   * `routeTranslations[l][slug] || slug`: the table entry when there is one and it is
   * a non-empty (truthy) string, otherwise the slug itself.
   */
  function Localize(l: Lang, slug: string): (r: string)
    ensures slug in Table(l) && Table(l)[slug] != "" ==> r == Table(l)[slug]
    ensures slug !in Table(l) ==> r == slug
  {
    if slug in Table(l) && Table(l)[slug] != "" then Table(l)[slug] else slug
  }

  /** The locale set is exactly {"fr", "nl"} and holds the default. */
  lemma LocalesExact()
    ensures forall c :: c in LocaleCodes() <==> c == "fr" || c == "nl"
    ensures DefaultLocale in Locales && DefaultLocale.Code() == "fr"
  {
  }

  /** The fr table sends the two Dutch slugs back to French. */
  lemma FrTableEntries()
    ensures FrTable["over-ons"] == "a-propos" && FrTable["diensten"] == "services"
    ensures FrTable["contact"] == "contact" && FrTable["blog"] == "blog"
  {
  }

  /** The nl table sends the two French slugs to Dutch. */
  lemma NlTableEntries()
    ensures NlTable["a-propos"] == "over-ons" && NlTable["services"] == "diensten"
    ensures NlTable["contact"] == "contact" && NlTable["blog"] == "blog"
  {
  }

  /** Every nl entry is undone by the fr table. */
  lemma NlUndoneByFr()
    ensures forall k :: k in NlTable ==> NlTable[k] in FrTable && FrTable[NlTable[k]] == k
  {
    assert NlTable.Keys == {"a-propos", "services", "contact", "blog"};
  }

  /** The converse fails: "services" is a fr key whose nl image is not itself. */
  lemma FrNotUndoneByNl()
    ensures "services" in FrTable && FrTable["services"] == "services"
    ensures NlTable[FrTable["services"]] == "diensten"
    ensures !(forall k :: k in FrTable ==> FrTable[k] in NlTable && NlTable[FrTable[k]] == k)
  {
    assert FrTable["services"] in NlTable && NlTable[FrTable["services"]] != "services";
  }

  /** Table values are single, non-empty path segments. */
  lemma TableValuesAreSegments(l: Lang)
    ensures forall k :: k in Table(l) ==> Table(l)[k] != "" && '/' !in Table(l)[k]
  {
    assert FrTable.Keys == {"over-ons", "diensten", "contact", "services", "blog"};
    assert NlTable.Keys == {"a-propos", "services", "contact", "blog"};
  }

  /**
   * Localizing to nl and then back to fr returns the slug, for every slug except the
   * two Dutch ones whose fr image differs ("over-ons", "diensten").
   */
  lemma NlThenFr(slug: string)
    requires slug != "over-ons" && slug != "diensten"
    ensures Localize(Fr, Localize(Nl, slug)) == slug
  {
    NlUndoneByFr();
    TableValuesAreSegments(Nl);
    TableValuesAreSegments(Fr);
    assert FrTable.Keys == {"over-ons", "diensten", "contact", "services", "blog"};
  }

  /** The fr table fixes every slug except the two Dutch ones it translates. */
  lemma FrFixes(slug: string)
    requires slug != "over-ons" && slug != "diensten"
    ensures Localize(Fr, slug) == slug
  {
    assert FrTable.Keys == {"over-ons", "diensten", "contact", "services", "blog"};
  }

  /** Localizing twice into the same language is the same as once. */
  lemma LocalizeIdempotent(l: Lang, slug: string)
    ensures Localize(l, Localize(l, slug)) == Localize(l, slug)
  {
    assert FrTable.Keys == {"over-ons", "diensten", "contact", "services", "blog"};
    assert NlTable.Keys == {"a-propos", "services", "contact", "blog"};
  }

  /** A localized slug is non-empty and has no '/' whenever the slug itself has none. */
  lemma LocalizeIsSegment(l: Lang, slug: string)
    requires slug != "" && '/' !in slug
    ensures Localize(l, slug) != "" && '/' !in Localize(l, slug)
  {
    TableValuesAreSegments(l);
  }
}
