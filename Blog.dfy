/** The blog listing: the category filter, the case-insensitive search,
    the newest-first sort and the slice to `visiblePosts`; "load more";
    and the handlers that switch between the listing and one article.
    The 800 ms load-more delay is split into a start and a finish step. */
module Blog {
  import opened Text
  import opened Wrappers
  import opened BlogData
  import opened NewestFirst

  /** How many posts the listing shows at first and after a category
      change. */
  const InitialVisible := 6

  /** How many more posts each "load more" asks for. */
  const LoadStep := 3

  const PopularTopics: seq<string> :=
    ["CDN Architecture", "Network Performance", "Edge Computing", "Load Balancing", "Cache Management", "Geographic Routing"]

  /** `posts.filter(keep)`. */
  function Filter(posts: seq<Post>, keep: Post -> bool): seq<Post>
  {
    if posts == [] then []
    else (if keep(posts[0]) then [posts[0]] else []) + Filter(posts[1..], keep)
  }

  /** The filter keeps exactly the posts that pass, each as often as it
      occurs. */
  lemma {:induction false} FilterSpec(posts: seq<Post>, keep: Post -> bool)
    ensures forall p :: p in Filter(posts, keep) <==> p in posts && keep(p)
    ensures forall p :: multiset(Filter(posts, keep))[p] == if keep(p) then multiset(posts)[p] else 0
  {
    if posts != [] {
      FilterSpec(posts[1..], keep);
      assert posts == [posts[0]] + posts[1..];
    }
  }

  /** The filter works piece by piece, so the kept posts stay in their
      order. */
  lemma {:induction false} FilterSplit(a: seq<Post>, b: seq<Post>, keep: Post -> bool)
    ensures Filter(a + b, keep) == Filter(a, keep) + Filter(b, keep)
  {
    if a == [] {
      assert a + b == b;
    } else {
      FilterSplit(a[1..], b, keep);
      assert (a + b)[0] == a[0];
      assert (a + b)[1..] == a[1..] + b;
      var h := if keep(a[0]) then [a[0]] else [];
      assert Filter(a + b, keep) == h + Filter(a[1..] + b, keep);
      assert Filter(a, keep) == h + Filter(a[1..], keep);
    }
  }

  /** The category stage. */
  function CategoryStage(posts: seq<Post>, category: string): seq<Post>
  {
    if category == AllCategory then posts else Filter(posts, (p: Post) => p.category == category)
  }

  /** The search test: the lower-cased term occurs in the lower-cased
      title, summary or category. */
  predicate Matches(p: Post, term: string)
  {
    var t := Lower(term);
    Contains(Lower(p.title), t) || Contains(Lower(p.summary), t) || Contains(Lower(p.category), t)
  }

  /** The search stage: only a non-empty term filters. */
  function SearchStage(posts: seq<Post>, term: string): seq<Post>
  {
    if term != "" then Filter(posts, (p: Post) => Matches(p, term)) else posts
  }

  /** `slice(0, n)`. */
  function Take(s: seq<Post>, n: nat): (r: seq<Post>)
  {
    if n < |s| then s[..n] else s
  }

  /** What the listing effect stores in `posts`. */
  function Listing(posts: seq<Post>, category: string, term: string, visible: nat): seq<Post>
  {
    Take(SortNewest(SearchStage(CategoryStage(posts, category), term)), visible)
  }

  /** With `All` every post passes; otherwise exactly the posts of that
      category do. */
  lemma CategoryStageSpec(posts: seq<Post>, category: string)
    ensures category == AllCategory ==> CategoryStage(posts, category) == posts
    ensures category != AllCategory ==>
              forall p :: p in CategoryStage(posts, category) <==> p in posts && p.category == category
  {
    FilterSpec(posts, (p: Post) => p.category == category);
  }

  /** A non-empty term keeps exactly the matching posts; an empty term
      keeps all of them. */
  lemma SearchStageSpec(posts: seq<Post>, term: string)
    ensures term == "" ==> SearchStage(posts, term) == posts
    ensures term != "" ==> forall p :: p in SearchStage(posts, term) <==> p in posts && Matches(p, term)
  {
    FilterSpec(posts, (p: Post) => Matches(p, term));
  }

  /** The listing is newest first, is the first `min(visible, n)` of the
      sorted `n` filtered posts, and holds only posts of the input that
      pass both stages. */
  lemma ListingSpec(posts: seq<Post>, category: string, term: string, visible: nat)
    ensures var filtered := SearchStage(CategoryStage(posts, category), term);
            var r := Listing(posts, category, term, visible);
            Sorted(r)
            && |r| == (if visible < |filtered| then visible else |filtered|)
            && r == SortNewest(filtered)[..|r|]
            && (forall p :: p in r ==>
                  p in posts && (category == AllCategory || p.category == category) && (term == "" || Matches(p, term)))
  {
    var staged := CategoryStage(posts, category);
    var filtered := SearchStage(staged, term);
    var sorted := SortNewest(filtered);
    SortNewestSpec(filtered);
    CategoryStageSpec(posts, category);
    SearchStageSpec(staged, term);
    var r := Listing(posts, category, term, visible);
    forall p | p in r ensures p in filtered {
      assert p in multiset(sorted);
    }
  }

  /** With the shipped posts, `All` and no search, the listing is the three
      posts in their declared order. */
  lemma ShippedListing()
    ensures Listing(SamplePosts, AllCategory, "", InitialVisible) == SamplePosts
  {
    SamplePostsSorted();
  }

  /** "Load more": three more, never past the number of posts. */
  function NextVisible(visible: nat, total: nat): nat
  {
    if visible + LoadStep < total then visible + LoadStep else total
  }

  /** The button is offered only while fewer posts are asked for than
      exist. */
  predicate LoadMoreOffered(visible: nat)
  {
    visible < |SamplePosts|
  }

  /** While offered, "load more" asks for between one and three more posts
      and never more than exist; once all are asked for it is no longer
      offered. */
  lemma LoadMoreProgress(visible: nat)
    requires LoadMoreOffered(visible)
    ensures visible < NextVisible(visible, |SamplePosts|) <= visible + LoadStep
    ensures NextVisible(visible, |SamplePosts|) <= |SamplePosts|
    ensures NextVisible(visible, |SamplePosts|) == |SamplePosts| ==> !LoadMoreOffered(NextVisible(visible, |SamplePosts|))
  {
  }

  /** With three posts and six asked for at the start, the button is never
      offered: every reachable `visiblePosts` is six or the post count. */
  lemma LoadMoreNeverOfferedWhenShipped(visible: nat)
    requires visible == InitialVisible || visible == NextVisible(InitialVisible, |SamplePosts|)
    ensures !LoadMoreOffered(visible)
  {
  }

  /** What the section shows: one article, or the listing with or without
      the "load more" button. */
  datatype View = Article(slug: string) | ListingView(posts: seq<Post>, loadMore: bool, loadMoreEnabled: bool)

  /** The listing section's state cells. */
  class BlogView {
    var posts: seq<Post>
    var loading: bool
    var visiblePosts: nat
    var selectedCategory: string
    var selectedPost: Option<string>
    var searchTerm: string

    constructor ()
      ensures posts == [] && !loading && visiblePosts == InitialVisible
      ensures selectedCategory == AllCategory && selectedPost == None && searchTerm == ""
    {
      posts, loading, visiblePosts := [], false, InitialVisible;
      selectedCategory, selectedPost, searchTerm := AllCategory, None, "";
    }

    /** `if (selectedPost)`: a selected, non-empty slug shows the article. */
    function CurrentView(): (v: View)
      reads this
    {
      if selectedPost.Some? && selectedPost.value != "" then Article(selectedPost.value)
      else ListingView(posts, LoadMoreOffered(visiblePosts), !loading)
    }

    /** The listing effect. Without a category or a search it sorts the
        shared post array itself in place; otherwise it sorts a filtered
        copy. */
    method Refresh(shared: array<Post>)
      modifies this, shared
      ensures posts == Listing(old(shared[..]), selectedCategory, searchTerm, visiblePosts)
      ensures shared[..] == if selectedCategory == AllCategory && searchTerm == "" then SortNewest(old(shared[..])) else old(shared[..])
      ensures loading == old(loading) && visiblePosts == old(visiblePosts)
      ensures selectedCategory == old(selectedCategory) && selectedPost == old(selectedPost) && searchTerm == old(searchTerm)
    {
      if selectedCategory == AllCategory && searchTerm == "" {
        SortInPlace(shared);
        posts := Take(shared[..], visiblePosts);
      } else {
        var filtered := SearchStage(CategoryStage(shared[..], selectedCategory), searchTerm);
        posts := Take(SortNewest(filtered), visiblePosts);
      }
    }

    method StartLoadMore()
      modifies this
      ensures loading
      ensures posts == old(posts) && visiblePosts == old(visiblePosts)
      ensures selectedCategory == old(selectedCategory) && selectedPost == old(selectedPost) && searchTerm == old(searchTerm)
    {
      loading := true;
    }

    /** The timer of "load more" fires. */
    method FinishLoadMore()
      modifies this
      ensures !loading && visiblePosts == NextVisible(old(visiblePosts), |SamplePosts|)
      ensures posts == old(posts)
      ensures selectedCategory == old(selectedCategory) && selectedPost == old(selectedPost) && searchTerm == old(searchTerm)
    {
      visiblePosts := NextVisible(visiblePosts, |SamplePosts|);
      loading := false;
    }

    /** A category button: select it and go back to six posts. */
    method ChooseCategory(category: string)
      modifies this
      ensures selectedCategory == category && visiblePosts == InitialVisible
      ensures posts == old(posts) && loading == old(loading)
      ensures selectedPost == old(selectedPost) && searchTerm == old(searchTerm)
    {
      selectedCategory := category;
      visiblePosts := InitialVisible;
    }

    /** The search box and the topic buttons both set the term; neither
        resets `visiblePosts`. */
    method SetSearch(term: string)
      modifies this
      ensures searchTerm == term
      ensures posts == old(posts) && loading == old(loading) && visiblePosts == old(visiblePosts)
      ensures selectedCategory == old(selectedCategory) && selectedPost == old(selectedPost)
    {
      searchTerm := term;
    }

    /** A post card. */
    method OpenCard(p: Post)
      modifies this
      ensures selectedPost == Some(p.slug)
      ensures p.slug != "" ==> CurrentView() == Article(p.slug)
      ensures posts == old(posts) && loading == old(loading) && visiblePosts == old(visiblePosts)
      ensures selectedCategory == old(selectedCategory) && searchTerm == old(searchTerm)
    {
      selectedPost := Some(p.slug);
    }

    /** The article's back button. */
    method Back()
      modifies this
      ensures selectedPost == None
      ensures CurrentView() == ListingView(posts, LoadMoreOffered(visiblePosts), !loading)
      ensures posts == old(posts) && loading == old(loading) && visiblePosts == old(visiblePosts)
      ensures selectedCategory == old(selectedCategory) && searchTerm == old(searchTerm)
    {
      selectedPost := None;
    }
  }
}
