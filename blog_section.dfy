/**
 * The blog list (src/components/BlogSection.tsx): the category list built by a reduce
 * that pushes each not-yet-seen category, and the posts shown for the selected category.
 */
module BlogSection {
  import opened Wrappers

  datatype Category = Category(id: string, title: string)

  /** A post; `categories` is `None` when the field is absent. */
  datatype Post = Post(id: string, title: string, slug: string, categories: Option<seq<Category>>)

  /** The categories a post contributes: none when the field is absent. */
  function CategoriesOf(p: Post): seq<Category> {
    p.categories.GetOr([])
  }

  /** Every post's categories, post after post, in order. */
  function Flatten(posts: seq<Post>): seq<Category>
    decreases |posts|
  {
    if |posts| == 0 then [] else CategoriesOf(posts[0]) + Flatten(posts[1..])
  }

  /** `acc.find(c => c._id === id)` finds something. */
  predicate HasId(cs: seq<Category>, id: string) {
    exists i :: 0 <= i < |cs| && cs[i].id == id
  }

  /**
   * The reduce as a function of everything seen so far: a category is appended when no
   * earlier entry has its id.
   */
  function Dedup(cs: seq<Category>): seq<Category>
    decreases |cs|
  {
    if |cs| == 0 then []
    else
      var acc := Dedup(cs[..|cs| - 1]);
      if HasId(acc, cs[|cs| - 1].id) then acc else acc + [cs[|cs| - 1]]
  }

  /** One more category seen. */
  lemma DedupSnoc(cs: seq<Category>, c: Category)
    ensures Dedup(cs + [c]) == if HasId(Dedup(cs), c.id) then Dedup(cs) else Dedup(cs) + [c]
  {
    assert (cs + [c])[..|cs|] == cs;
  }

  lemma FlattenSnoc(posts: seq<Post>, p: Post)
    ensures Flatten(posts + [p]) == Flatten(posts) + CategoriesOf(p)
    decreases |posts|
  {
    if |posts| == 0 {
      assert [p][1..] == [];
    } else {
      assert (posts + [p])[1..] == posts[1..] + [p];
      FlattenSnoc(posts[1..], p);
    }
  }

  /** `allCategories` as written: the reduce, with `forEach` and `push`. */
  method AllCategories(posts: seq<Post>) returns (acc: seq<Category>)
    ensures acc == Dedup(Flatten(posts))
  {
    acc := [];
    var i := 0;
    while i < |posts|
      invariant 0 <= i <= |posts|
      invariant acc == Dedup(Flatten(posts[..i]))
    {
      assert posts[..i + 1] == posts[..i] + [posts[i]];
      FlattenSnoc(posts[..i], posts[i]);
      var seen := Flatten(posts[..i]);
      if posts[i].categories.Some? {
        var cats := posts[i].categories.value;
        var j := 0;
        assert seen + cats[..0] == seen;
        while j < |cats|
          invariant 0 <= j <= |cats|
          invariant acc == Dedup(seen + cats[..j])
        {
          assert seen + cats[..j + 1] == (seen + cats[..j]) + [cats[j]];
          DedupSnoc(seen + cats[..j], cats[j]);
          if !HasId(acc, cats[j].id) {
            acc := acc + [cats[j]];
          }
          j := j + 1;
        }
        assert cats[..|cats|] == cats;
      } else {
        assert seen + CategoriesOf(posts[i]) == seen;
      }
      i := i + 1;
    }
    assert posts[..|posts|] == posts;
  }

  /** No two entries share an id. */
  lemma {:induction false} DedupNoDuplicates(cs: seq<Category>)
    ensures forall j, k :: 0 <= j < k < |Dedup(cs)| ==> Dedup(cs)[j].id != Dedup(cs)[k].id
    decreases |cs|
  {
    if |cs| > 0 {
      var acc := Dedup(cs[..|cs| - 1]);
      var last := cs[|cs| - 1];
      DedupNoDuplicates(cs[..|cs| - 1]);
      if !HasId(acc, last.id) {
        var r := acc + [last];
        assert Dedup(cs) == r;
        forall j, k | 0 <= j < k < |r|
          ensures r[j].id != r[k].id
        {
          if k == |acc| {
            assert r[j] == acc[j] && r[k] == last;
            assert !(0 <= j < |acc| && acc[j].id == last.id);
          } else {
            assert r[j] == acc[j] && r[k] == acc[k];
          }
        }
      }
    }
  }

  /** Every id on any post is listed, and nothing else is. */
  lemma {:induction false} DedupCoversIds(cs: seq<Category>)
    ensures forall id :: HasId(Dedup(cs), id) <==> HasId(cs, id)
    decreases |cs|
  {
    if |cs| > 0 {
      var pre := cs[..|cs| - 1];
      DedupCoversIds(pre);
      assert cs == pre + [cs[|cs| - 1]];
      var acc := Dedup(pre);
      forall id | HasId(cs, id)
        ensures HasId(Dedup(cs), id)
      {
        var i :| 0 <= i < |cs| && cs[i].id == id;
        if i < |pre| {
          assert pre[i].id == id;
          assert HasId(pre, id);
          assert HasId(acc, id);
          var m :| 0 <= m < |acc| && acc[m].id == id;
          if !HasId(acc, cs[|cs| - 1].id) {
            assert (acc + [cs[|cs| - 1]])[m] == acc[m];
          }
        } else if !HasId(acc, cs[|cs| - 1].id) {
          assert (acc + [cs[|cs| - 1]])[|acc|] == cs[i];
        }
      }
      forall id | HasId(Dedup(cs), id)
        ensures HasId(cs, id)
      {
        var r := Dedup(cs);
        var m :| 0 <= m < |r| && r[m].id == id;
        if m < |acc| {
          assert r[m] == acc[m];
          assert HasId(acc, id);
          assert HasId(pre, id);
          var i :| 0 <= i < |pre| && pre[i].id == id;
          assert cs[i] == pre[i];
        } else {
          assert r[m] == cs[|cs| - 1];
        }
      }
    }
  }

  /** Every entry is one of the posts' own category objects. */
  lemma {:induction false} DedupFromInput(cs: seq<Category>)
    ensures forall c :: c in Dedup(cs) ==> c in cs
    decreases |cs|
  {
    if |cs| > 0 {
      DedupFromInput(cs[..|cs| - 1]);
      assert forall c :: c in cs[..|cs| - 1] ==> c in cs;
    }
  }

  /** The position of the first category with the given id. */
  function FirstOf(cs: seq<Category>, id: string): (i: nat)
    requires HasId(cs, id)
    ensures i < |cs| && cs[i].id == id
    ensures forall j :: 0 <= j < i ==> cs[j].id != id
    decreases |cs|
  {
    if cs[0].id == id then 0
    else
      assert HasId(cs[1..], id) by {
        var i :| 0 <= i < |cs| && cs[i].id == id;
        assert cs[1..][i - 1] == cs[i];
      }
      1 + FirstOf(cs[1..], id)
  }

  /** An id already present before the last category keeps its first position. */
  lemma FirstOfPrefix(cs: seq<Category>, id: string)
    requires |cs| > 0 && HasId(cs[..|cs| - 1], id)
    ensures HasId(cs, id) && FirstOf(cs, id) == FirstOf(cs[..|cs| - 1], id)
  {
    var pre := cs[..|cs| - 1];
    var i := FirstOf(pre, id);
    assert cs[i] == pre[i];
    assert forall j :: 0 <= j < i ==> cs[j] == pre[j];
  }

  /** Every entry's id already occurs among the first `|cs| - 1` categories, or it is the last. */
  lemma PrefixPositions(cs: seq<Category>, pre: seq<Category>)
    requires |cs| > 0 && pre == cs[..|cs| - 1]
    ensures forall k :: 0 <= k < |Dedup(pre)| ==>
      HasId(pre, Dedup(pre)[k].id) && HasId(cs, Dedup(pre)[k].id) &&
      FirstOf(cs, Dedup(pre)[k].id) == FirstOf(pre, Dedup(pre)[k].id)
  {
    var acc := Dedup(pre);
    DedupCoversIds(pre);
    forall k | 0 <= k < |acc|
      ensures HasId(pre, acc[k].id) && HasId(cs, acc[k].id) && FirstOf(cs, acc[k].id) == FirstOf(pre, acc[k].id)
    {
      assert HasId(acc, acc[k].id);
      FirstOfPrefix(cs, acc[k].id);
    }
  }

  /** A newly listed category is the first with its id. */
  lemma NewIsFirst(cs: seq<Category>)
    requires |cs| > 0 && !HasId(Dedup(cs[..|cs| - 1]), cs[|cs| - 1].id)
    ensures HasId(cs, cs[|cs| - 1].id) && FirstOf(cs, cs[|cs| - 1].id) == |cs| - 1
  {
    var pre := cs[..|cs| - 1];
    var last := cs[|cs| - 1];
    DedupCoversIds(pre);
    assert !HasId(pre, last.id);
    assert cs[|cs| - 1].id == last.id;
    assert forall j :: 0 <= j < |pre| ==> cs[j] == pre[j];
  }

  /** For a repeated id the first object seen is kept. */
  lemma {:induction false} DedupKeepsFirst(cs: seq<Category>)
    ensures forall k :: 0 <= k < |Dedup(cs)| ==>
      HasId(cs, Dedup(cs)[k].id) && Dedup(cs)[k] == cs[FirstOf(cs, Dedup(cs)[k].id)]
    decreases |cs|
  {
    if |cs| > 0 {
      var pre := cs[..|cs| - 1];
      var acc := Dedup(pre);
      DedupKeepsFirst(pre);
      PrefixPositions(cs, pre);
      assert forall k :: 0 <= k < |acc| ==> pre[FirstOf(pre, acc[k].id)] == cs[FirstOf(pre, acc[k].id)];
      if !HasId(acc, cs[|cs| - 1].id) {
        NewIsFirst(cs);
      }
    }
  }

  /** Entries are listed in the order in which their ids first occur. */
  lemma {:induction false} DedupFirstOrder(cs: seq<Category>)
    ensures forall j, k :: 0 <= j < k < |Dedup(cs)| ==>
      HasId(cs, Dedup(cs)[j].id) && HasId(cs, Dedup(cs)[k].id) &&
      FirstOf(cs, Dedup(cs)[j].id) < FirstOf(cs, Dedup(cs)[k].id)
    decreases |cs|
  {
    if |cs| > 0 {
      var pre := cs[..|cs| - 1];
      var acc := Dedup(pre);
      DedupFirstOrder(pre);
      PrefixPositions(cs, pre);
      var r := Dedup(cs);
      if !HasId(acc, cs[|cs| - 1].id) {
        NewIsFirst(cs);
        assert r == acc + [cs[|cs| - 1]];
      } else {
        assert r == acc;
      }
      forall j, k | 0 <= j < k < |r|
        ensures HasId(cs, r[j].id) && HasId(cs, r[k].id) && FirstOf(cs, r[j].id) < FirstOf(cs, r[k].id)
      {
        assert r[j] == acc[j];
        if k < |acc| {
          assert r[k] == acc[k];
          assert FirstOf(pre, acc[j].id) < FirstOf(pre, acc[k].id);
        }
      }
    } else {
      assert Dedup(cs) == [];
    }
  }

  /** A post without categories (absent or empty) adds nothing to the list. */
  lemma UncategorisedContributesNothing(before: seq<Post>, p: Post, after: seq<Post>)
    requires p.categories.None? || p.categories == Some([])
    ensures Flatten(before + [p] + after) == Flatten(before + after)
  {
    FlattenAppend(before + [p], after);
    FlattenAppend(before, after);
    FlattenSnoc(before, p);
  }

  lemma {:induction false} FlattenAppend(a: seq<Post>, b: seq<Post>)
    ensures Flatten(a + b) == Flatten(a) + Flatten(b)
    decreases |a|
  {
    if |a| == 0 {
      assert a + b == b;
    } else {
      assert (a + b)[1..] == a[1..] + b;
      FlattenAppend(a[1..], b);
    }
  }

  // ---------------------------------------------------------------------------
  // `filteredPosts`
  // ---------------------------------------------------------------------------

  /** `post.categories?.some(category => category._id === id)`. */
  predicate HasCategory(p: Post, id: string) {
    p.categories.Some? && HasId(p.categories.value, id)
  }

  function FilterByCategory(posts: seq<Post>, id: string): (r: seq<Post>)
    ensures |r| <= |posts|
    decreases |posts|
  {
    if |posts| == 0 then []
    else if HasCategory(posts[0], id) then [posts[0]] + FilterByCategory(posts[1..], id)
    else FilterByCategory(posts[1..], id)
  }

  /** `selectedCategory ? posts.filter(...) : posts`: null and "" both select everything. */
  function FilteredPosts(posts: seq<Post>, selected: Option<string>): (r: seq<Post>)
    ensures |r| <= |posts|
  {
    if selected.None? || selected.value == "" then posts
    else FilterByCategory(posts, selected.value)
  }

  /** A post is shown iff it is one of the posts and has the selected category. */
  lemma {:induction false} FilterMembers(posts: seq<Post>, id: string)
    ensures forall p :: p in FilterByCategory(posts, id) <==> p in posts && HasCategory(p, id)
    decreases |posts|
  {
    if |posts| > 0 {
      FilterMembers(posts[1..], id);
      assert posts == [posts[0]] + posts[1..];
    }
  }

  /** The filter keeps the posts' order: filtering a concatenation concatenates the results. */
  lemma {:induction false} FilterAppend(a: seq<Post>, b: seq<Post>, id: string)
    ensures FilterByCategory(a + b, id) == FilterByCategory(a, id) + FilterByCategory(b, id)
    decreases |a|
  {
    if |a| == 0 {
      assert a + b == b;
    } else {
      assert (a + b)[1..] == a[1..] + b;
      FilterAppend(a[1..], b, id);
    }
  }

  /** With no selection, or an empty one, every post is shown in its place. */
  lemma NoSelectionShowsAll(posts: seq<Post>)
    ensures FilteredPosts(posts, None) == posts && FilteredPosts(posts, Some("")) == posts
  {
  }

  /** With a selection, the shown posts are those carrying it; uncategorised posts never are. */
  lemma SelectionShowsCarriers(posts: seq<Post>, id: string)
    requires id != ""
    ensures forall p :: p in FilteredPosts(posts, Some(id)) <==> p in posts && HasCategory(p, id)
    ensures forall p :: p in FilteredPosts(posts, Some(id)) ==> p.categories.Some?
  {
    FilterMembers(posts, id);
  }

  /** Every listed category, once selected, shows at least one post. */
  lemma ListedCategoryShowsPosts(posts: seq<Post>, c: Category)
    requires c in Dedup(Flatten(posts)) && c.id != ""
    ensures |FilteredPosts(posts, Some(c.id))| > 0
  {
    DedupFromInput(Flatten(posts));
    FlattenHasPost(posts, c);
    var p :| p in posts && c in CategoriesOf(p);
    FilterMembers(posts, c.id);
    assert p in FilterByCategory(posts, c.id);
  }

  lemma {:induction false} FlattenHasPost(posts: seq<Post>, c: Category)
    requires c in Flatten(posts)
    ensures exists p :: p in posts && c in CategoriesOf(p)
    decreases |posts|
  {
    if c in CategoriesOf(posts[0]) {
      assert posts[0] in posts;
    } else {
      FlattenHasPost(posts[1..], c);
      var p :| p in posts[1..] && c in CategoriesOf(p);
      assert p in posts;
    }
  }
}
