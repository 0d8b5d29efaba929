/**
 * Page metadata (src/app/metadata.ts): `generateMetadata` fills every field from its
 * optional arguments, falling back to the site's constants; an empty string counts as
 * absent, as JavaScript's `||` does.
 */
module SeoMetadata {
  import opened Wrappers

  const SiteTitle: string := "Nemwood | Meubles en bois sur mesure en Belgique"
  const SiteDescription: string :=
    "Artisan menuisier en Belgique sp\U{E9}cialis\U{E9} dans la fabrication de meubles en bois sur mesure : escaliers, garde-robes, tables, cuisines. Devis gratuit."
  const Keywords: seq<string> := [
    "menuisier belgique", "meubles bois sur mesure", "escaliers bois belgique",
    "garde-robe sur mesure", "table bois massif", "cuisine bois belgique"
  ]
  const Authors: seq<string> := ["Nemwood"]
  const Creator: string := "Nemwood"
  const Publisher: string := "Nemwood"
  const Robots: string := "index, follow"
  const SiteUrl: string := "https://www.nemwood.be"
  const SiteName: string := "Nemwood"
  const SiteLocale: string := "fr_BE"
  const SiteImage: string := "/images/nem1.png"
  const FacebookAppId: string := "100063674583109"
  const FacebookPageId: string := "100063674583109"
  const FacebookAdminId: string := "1140420250"
  const FacebookPageUrl: string := "https://www.facebook.com/p/NemwOod-100063674583109/"

  /** The social title and description used when none is given. */
  const SocialTitle: string := "Nemwood - Meubles en bois sur mesure en Belgique"
  const SocialDescription: string := "Fabrication artisanale de meubles en bois massif sur mesure."
  const ImageAlt: string := "Nemwood - Meubles en bois sur mesure"

  /** `a || b` on an optional string: an absent or empty `a` gives `b`. */
  function Or(a: Option<string>, b: string): (r: string)
    ensures r == b || (a.Some? && r == a.value)
    ensures a.Some? && a.value != "" ==> r == a.value
    ensures a.None? || a.value == "" ==> r == b
  {
    if a.Some? && a.value != "" then a.value else b
  }

  datatype Image = Image(url: string, width: int, height: int, alt: string)

  datatype OpenGraph = OpenGraph(
    title: string, description: string, kind: string, locale: string, siteName: string,
    url: string, images: seq<Image>)

  datatype Twitter = Twitter(card: string, title: string, description: string, images: seq<string>)

  /** The returned object; `metadataBase` is kept as the URL text it is built from. */
  datatype Metadata = Metadata(
    metadataBase: string, title: string, description: string, keywords: seq<string>,
    authors: seq<string>, creator: string, publisher: string, robots: string,
    canonical: string, openGraph: OpenGraph, twitter: Twitter, other: map<string, string>)

  /** `generateMetadata(title?, description?, image?, url?, canonical?)`. */
  function GenerateMetadata(title: Option<string>, description: Option<string>, image: Option<string>,
                            url: Option<string>, canonical: Option<string>): Metadata
  {
    var canonicalUrl := Or(canonical, Or(url, SiteUrl));
    var socialTitle := Or(title, SocialTitle);
    var socialDescription := Or(description, SocialDescription);
    var pageUrl := Or(url, SiteUrl);
    var imageUrl := Or(image, SiteImage);
    Metadata(
      SiteUrl, Or(title, SiteTitle), Or(description, SiteDescription), Keywords, Authors,
      Creator, Publisher, Robots, canonicalUrl,
      OpenGraph(socialTitle, socialDescription, "website", SiteLocale, SiteName, pageUrl,
        [Image(imageUrl, 1200, 630, ImageAlt)]),
      Twitter("summary_large_image", socialTitle, socialDescription, [imageUrl]),
      map[
        "fb:app_id" := FacebookAppId,
        "fb:page_id" := FacebookPageId,
        "fb:admins" := FacebookAdminId,
        "og:image:width" := "1200",
        "og:image:height" := "630",
        "og:image:type" := "image/png",
        "og:image:alt" := ImageAlt,
        "og:type" := "website",
        "og:locale" := SiteLocale,
        "og:site_name" := SiteName,
        "og:url" := pageUrl,
        "og:title" := socialTitle,
        "og:description" := socialDescription,
        "og:see_also" := FacebookPageUrl
      ])
  }

  /** `metadata`: the site-wide default, with every argument absent. */
  function DefaultMetadata(): Metadata {
    GenerateMetadata(None, None, None, None, None)
  }

  /** The canonical URL is `canonical`, else `url`, else the site URL; it is never empty. */
  lemma CanonicalPrecedence(title: Option<string>, description: Option<string>, image: Option<string>,
                            url: Option<string>, canonical: Option<string>)
    ensures var m := GenerateMetadata(title, description, image, url, canonical);
      (canonical.Some? && canonical.value != "" ==> m.canonical == canonical.value) &&
      ((canonical.None? || canonical.value == "") && url.Some? && url.value != "" ==> m.canonical == url.value) &&
      ((canonical.None? || canonical.value == "") && (url.None? || url.value == "") ==> m.canonical == SiteUrl) &&
      m.canonical != ""
  {
  }

  /** The top-level title and description fall back to the site's own. */
  lemma TopLevelFallback(title: Option<string>, description: Option<string>, image: Option<string>,
                         url: Option<string>, canonical: Option<string>)
    ensures var m := GenerateMetadata(title, description, image, url, canonical);
      (title.None? || title.value == "" ==> m.title == SiteTitle) &&
      (title.Some? && title.value != "" ==> m.title == title.value) &&
      (description.None? || description.value == "" ==> m.description == SiteDescription) &&
      (description.Some? && description.value != "" ==> m.description == description.value)
  {
  }

  /**
   * The OpenGraph, Twitter and "og:" tag titles always agree, as do their descriptions;
   * without a title they use the social default, which differs from the page title's.
   */
  lemma SocialTitlesAgree(title: Option<string>, description: Option<string>, image: Option<string>,
                          url: Option<string>, canonical: Option<string>)
    ensures var m := GenerateMetadata(title, description, image, url, canonical);
      "og:title" in m.other && "og:description" in m.other &&
      m.openGraph.title == m.twitter.title == m.other["og:title"] &&
      m.openGraph.description == m.twitter.description == m.other["og:description"]
    ensures var m := GenerateMetadata(title, description, image, url, canonical);
      title.None? || title.value == "" ==> m.openGraph.title == SocialTitle && m.title != m.openGraph.title
  {
    assert SiteTitle[8] == '|' && SocialTitle[8] == '-';
  }

  /** The OpenGraph URL and the "og:url" tag are `url`, else the site URL. */
  lemma PageUrlAgrees(title: Option<string>, description: Option<string>, image: Option<string>,
                      url: Option<string>, canonical: Option<string>)
    ensures var m := GenerateMetadata(title, description, image, url, canonical);
      "og:url" in m.other && m.openGraph.url == m.other["og:url"] == Or(url, SiteUrl)
    ensures var m := GenerateMetadata(title, description, image, url, canonical);
      canonical.None? ==> m.canonical == m.openGraph.url
  {
  }

  /** One image, shared by OpenGraph and Twitter: `image`, else "/images/nem1.png". */
  lemma ImageFallback(title: Option<string>, description: Option<string>, image: Option<string>,
                      url: Option<string>, canonical: Option<string>)
    ensures var m := GenerateMetadata(title, description, image, url, canonical);
      |m.openGraph.images| == 1 && |m.twitter.images| == 1 &&
      m.openGraph.images[0].url == m.twitter.images[0] == Or(image, "/images/nem1.png") &&
      m.openGraph.images[0].width == 1200 && m.openGraph.images[0].height == 630
  {
  }

  /**
   * Every field not drawn from the arguments is the same for all calls: keywords,
   * authors, creator, publisher, robots and the base URL; the OpenGraph type, locale and
   * site name and the image's size and alt text; the Twitter card; and every tag in
   * `other` except the three that carry the page's URL, title and description.
   */
  lemma ConstantFields(t1: Option<string>, d1: Option<string>, i1: Option<string>, u1: Option<string>, c1: Option<string>,
                       t2: Option<string>, d2: Option<string>, i2: Option<string>, u2: Option<string>, c2: Option<string>)
    ensures var m1 := GenerateMetadata(t1, d1, i1, u1, c1);
      var m2 := GenerateMetadata(t2, d2, i2, u2, c2);
      m1.keywords == m2.keywords && m1.authors == m2.authors && m1.creator == m2.creator &&
      m1.publisher == m2.publisher && m1.robots == m2.robots && m1.metadataBase == m2.metadataBase &&
      m1.other.Keys == m2.other.Keys
    ensures var g1 := GenerateMetadata(t1, d1, i1, u1, c1).openGraph;
      var g2 := GenerateMetadata(t2, d2, i2, u2, c2).openGraph;
      g1.kind == g2.kind && g1.locale == g2.locale && g1.siteName == g2.siteName &&
      |g1.images| == |g2.images| == 1 && g1.images[0].width == g2.images[0].width &&
      g1.images[0].height == g2.images[0].height && g1.images[0].alt == g2.images[0].alt
    ensures GenerateMetadata(t1, d1, i1, u1, c1).twitter.card == GenerateMetadata(t2, d2, i2, u2, c2).twitter.card
    ensures forall k ::
      (k in GenerateMetadata(t1, d1, i1, u1, c1).other && k != "og:url" && k != "og:title" && k != "og:description") ==>
        GenerateMetadata(t1, d1, i1, u1, c1).other[k] == GenerateMetadata(t2, d2, i2, u2, c2).other[k]
  {
    var m1 := GenerateMetadata(t1, d1, i1, u1, c1);
    var m2 := GenerateMetadata(t2, d2, i2, u2, c2);
    assert forall x :: x in m1.other <==> x in m2.other;
  }

  /** An empty argument chooses exactly what an absent one does. */
  lemma EmptyIsAbsent(title: Option<string>, description: Option<string>, image: Option<string>,
                      url: Option<string>, canonical: Option<string>)
    ensures GenerateMetadata(Some(""), description, image, url, canonical) ==
      GenerateMetadata(None, description, image, url, canonical)
    ensures GenerateMetadata(title, description, image, Some(""), canonical) ==
      GenerateMetadata(title, description, image, None, canonical)
    ensures GenerateMetadata(title, description, image, url, Some("")) ==
      GenerateMetadata(title, description, image, url, None)
  {
  }

  /** The site-wide default uses every fallback. */
  lemma DefaultMetadataFields()
    ensures DefaultMetadata().title == SiteTitle && DefaultMetadata().canonical == SiteUrl
    ensures DefaultMetadata().openGraph.title == SocialTitle
    ensures DefaultMetadata().twitter.images == [SiteImage]
  {
  }
}
