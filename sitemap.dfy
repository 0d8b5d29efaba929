/**
 * The sitemap (src/app/sitemap.ts): nine static entries followed by one entry per blog
 * post returned by the CMS. The fetch is a parameter; a failed fetch leaves no posts,
 * but a fetched post without a slug makes the whole sitemap throw.
 */
module Sitemap {
  import opened Wrappers
  import opened Strings
  import Middleware

  const BaseUrl: string := "https://www.nemwood.be"

  datatype Frequency = Weekly | Monthly

  /**
   * `lastModified`: `new Date()` is the clock at generation time, which the model keeps
   * symbolic; a post's entry carries the date parsed from its `_updatedAt`.
   */
  datatype LastModified = Now | Updated(stamp: string)

  datatype Entry = Entry(url: string, lastModified: LastModified, changeFrequency: Frequency, priority: real)

  /**
   * A post's `slug` field as the query returns it: absent (null), or a slug object whose
   * `current` may itself be absent.
   */
  datatype SlugField = NoSlug | Slug(current: Option<string>)

  /** A fetched post: its `slug` and `_updatedAt`. */
  datatype BlogPost = BlogPost(slug: SlugField, updatedAt: string)

  /** `${post.slug.current}` for a post with a slug object: a missing `current` prints "undefined". */
  function SlugText(slug: SlugField): string
    requires slug.Slug?
  {
    slug.current.GetOr("undefined")
  }

  /** The outcome of `client.fetch`: the posts, or a thrown error. */
  datatype FetchResult = Fetched(posts: seq<BlogPost>) | FetchFailed

  /** The static pages, in order. */
  const StaticPaths: seq<string> := [
    "", "/about", "/contact", "/services", "/services/escaliers", "/services/garde-robes",
    "/services/tables", "/services/cuisines", "/blog"
  ]

  const StaticPages: seq<Entry> := [
    Entry(BaseUrl, Now, Weekly, 1.0),
    Entry(BaseUrl + "/about", Now, Monthly, 0.8),
    Entry(BaseUrl + "/contact", Now, Monthly, 0.8),
    Entry(BaseUrl + "/services", Now, Monthly, 0.9),
    Entry(BaseUrl + "/services/escaliers", Now, Monthly, 0.8),
    Entry(BaseUrl + "/services/garde-robes", Now, Monthly, 0.8),
    Entry(BaseUrl + "/services/tables", Now, Monthly, 0.8),
    Entry(BaseUrl + "/services/cuisines", Now, Monthly, 0.8),
    Entry(BaseUrl + "/blog", Now, Weekly, 0.7)
  ]

  /** The static entries' URLs are the base followed by the static paths. */
  lemma StaticUrls()
    ensures |StaticPages| == |StaticPaths| == 9
    ensures forall k :: 0 <= k < 9 ==> StaticPages[k].url == BaseUrl + StaticPaths[k]
    ensures forall k :: 0 <= k < 9 ==> StaticPages[k].lastModified == Now
  {
    assert BaseUrl + StaticPaths[0] == BaseUrl;
  }

  /** Home has priority 1, /services 0.9, /blog 0.7 and every other static page 0.8. */
  lemma StaticPriorities()
    ensures StaticPages[0].priority == 1.0 && StaticPages[3].priority == 0.9 && StaticPages[8].priority == 0.7
    ensures forall k :: 0 <= k < 9 && k != 0 && k != 3 && k != 8 ==> StaticPages[k].priority == 0.8
    ensures forall k :: 0 <= k < 9 ==> 0.7 <= StaticPages[k].priority <= 1.0
  {
  }

  /**
   * `blogPosts.map(post => ...)`: one entry per post, in order; reading `.current` of a
   * null slug throws, which `None` stands for.
   */
  function BlogUrls(posts: seq<BlogPost>): (r: Option<seq<Entry>>)
    ensures r.None? <==> exists k :: 0 <= k < |posts| && posts[k].slug.NoSlug?
    ensures r.Some? ==> |r.value| == |posts| && forall k :: 0 <= k < |posts| ==>
      r.value[k] == Entry(BaseUrl + "/blog/" + SlugText(posts[k].slug), Updated(posts[k].updatedAt), Monthly, 0.6)
    decreases |posts|
  {
    if |posts| == 0 then Some([])
    else if posts[0].slug.NoSlug? then None
    else
      var head := Entry(BaseUrl + "/blog/" + SlugText(posts[0].slug), Updated(posts[0].updatedAt), Monthly, 0.6);
      match BlogUrls(posts[1..])
      case None => None
      case Some(rest) => Some([head] + rest)
  }

  /**
   * `sitemap()`: the try/catch around the fetch leaves `blogPosts` empty when the fetch
   * throws; the mapping after it is outside the try, so a post without a slug makes the
   * whole call throw (`None`).
   */
  method Sitemap(fetch: FetchResult) returns (entries: Option<seq<Entry>>)
    ensures fetch.FetchFailed? ==> entries == Some(StaticPages)
    ensures fetch.Fetched? ==>
      (entries.None? <==> exists k :: 0 <= k < |fetch.posts| && fetch.posts[k].slug.NoSlug?)
    ensures fetch.Fetched? && entries.Some? ==>
      |entries.value| == 9 + |fetch.posts| && entries.value[9..] == BlogUrls(fetch.posts).value
    ensures entries.Some? ==> entries.value[..9] == StaticPages
    ensures entries.Some? ==> forall k :: 0 <= k < |entries.value| ==> StartsWith(entries.value[k].url, BaseUrl)
  {
    var blogPosts: seq<BlogPost> := [];
    if fetch.Fetched? {
      blogPosts := fetch.posts;
    }
    var blogUrls := BlogUrls(blogPosts);
    if blogUrls.None? {
      return None;
    }
    var all := StaticPages + blogUrls.value;
    forall k | 0 <= k < |all|
      ensures StartsWith(all[k].url, BaseUrl)
    {
      if k < 9 {
        StaticUrls();
        assert all[k].url[..|BaseUrl|] == BaseUrl;
      } else {
        assert all[k].url == BaseUrl + ("/blog/" + SlugText(blogPosts[k - 9].slug));
      }
    }
    assert all[9..] == blogUrls.value;
    if fetch.FetchFailed? {
      assert blogUrls.value == [] && all == StaticPages;
    }
    entries := Some(all);
  }

  /**
   * No sitemap URL names a locale: every path after the base is one the middleware
   * redirects to a localized path.
   */
  lemma StaticPathsAreUnlocalized()
    ensures forall k :: 0 <= k < 9 ==> !Middleware.HasLocale(StaticPaths[k])
  {
    forall k | 0 <= k < 9
      ensures !Middleware.HasLocale(StaticPaths[k])
    {
      Middleware.HasLocaleIff(StaticPaths[k]);
      if k > 0 {
        assert StaticPaths[k][1] != 'f' && StaticPaths[k][1] != 'n';
      }
    }
  }

  /** Post URLs are under /blog, which the middleware redirects too. */
  lemma BlogPathsAreUnlocalized(slug: string)
    ensures !Middleware.HasLocale("/blog/" + slug)
  {
    Middleware.HasLocaleIff("/blog/" + slug);
    assert ("/blog/" + slug)[1] == 'b';
  }
}
