/** The featured card on the home tab: the newest post, found by sorting
    the shared post array in place and taking its head, and the two
    `switchTab` payloads its buttons dispatch. */
module FeaturedBlog {
  import opened Wrappers
  import opened BlogData
  import opened NewestFirst
  import App

  /** The head of the newest-first order. */
  function Featured(posts: seq<Post>): Post
    requires posts != []
  {
    SortNewest(posts)[0]
  }

  /** The featured post is one of the posts, and no post is newer. */
  lemma FeaturedIsNewest(posts: seq<Post>)
    requires posts != []
    ensures Featured(posts) in posts
    ensures forall p :: p in posts ==> Key(p) <= Key(Featured(posts))
  {
    SortNewestSpec(posts);
    var s := SortNewest(posts);
    assert s[0] in multiset(posts);
    forall p | p in posts ensures Key(p) <= Key(s[0]) {
      assert p in multiset(s);
      var k :| 0 <= k < |s| && s[k] == p;
    }
  }

  /** With the shipped posts the featured one is the CDN article. */
  lemma ShippedFeatured()
    ensures Featured(SamplePosts).slug == "building-high-performance-cdn"
  {
    SamplePostsSorted();
  }

  /** Render-time selection: sorts the shared array in place, so the array
      afterwards is a newest-first permutation of what it held. */
  method SelectFeatured(shared: array<Post>) returns (featured: Post)
    requires shared.Length > 0
    modifies shared
    ensures shared[..] == SortNewest(old(shared[..]))
    ensures multiset(shared[..]) == multiset(old(shared[..])) && Sorted(shared[..])
    ensures featured == Featured(old(shared[..]))
  {
    SortInPlace(shared);
    SortNewestSpec(old(shared[..]));
    featured := shared[0];
  }

  /** "Read Full Article". */
  function ReadFullArticle(featured: Post): App.Detail
  {
    App.Payload(Some("blog"), Some(featured.slug))
  }

  /** "View All Articles". */
  function ViewAllArticles(): App.Detail
  {
    App.Payload(Some("blog"), None)
  }

  /** "Read Full Article" takes the shell to the blog tab and requests the
      featured article (no component acts on the request, so the blog
      listing is what shows); with the shipped posts that is the CDN post (see
      `ShippedFeatured`). An empty slug would request nothing. */
  lemma ReadFullArticleRequestsFeatured(s: App.ShellState, featured: Post)
    ensures var r := App.OnSwitchTabEvent(s, ReadFullArticle(featured));
            r.activeTab == "blog" && !r.menuOpen
            && r.articleRequests == s.articleRequests + (if featured.slug == "" then [] else [featured.slug])
  {
    App.PayloadSwitchesAndRequests(s, Some("blog"), Some(featured.slug));
  }

  /** "View All Articles" takes the shell to the blog tab and requests no
      article. */
  lemma ViewAllRequestsNothing(s: App.ShellState)
    ensures var r := App.OnSwitchTabEvent(s, ViewAllArticles());
            r.activeTab == "blog" && !r.menuOpen && r.articleRequests == s.articleRequests
  {
  }
}
