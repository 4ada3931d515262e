/** The blog page: search and category filtering, the featured post and the
    popular and recent side lists. */
module BlogPage {
  import opened Wrappers
  import opened Text
  import opened Seqs
  import opened Schema

  const AllCategories := "all"

  /** The search box: case-insensitive substring search over title and excerpt. */
  predicate MatchesSearch(term: string, p: BlogPost) {
    Contains(Lower(p.title), Lower(term)) || Contains(Lower(p.excerpt), Lower(term))
  }

  /** The category buttons: "all" lets every post through, otherwise the category must be equal. */
  predicate MatchesCategory(category: string, p: BlogPost) {
    category == AllCategories || p.category == category
  }

  predicate Shown(term: string, category: string, p: BlogPost) {
    MatchesSearch(term, p) && MatchesCategory(category, p)
  }

  /** The post grid: the posts matching both the search and the category, in list order. */
  function FilteredPosts(ps: seq<BlogPost>, term: string, category: string): (r: seq<BlogPost>)
    ensures Selects(r, ps, p => Shown(term, category, p))
    ensures forall p :: p in r <==> p in ps && MatchesSearch(term, p) && MatchesCategory(category, p)
  {
    Filter(ps, p => Shown(term, category, p))
  }

  /** With an empty search and the "all" category the grid shows every post. */
  lemma UnfilteredShowsAll(ps: seq<BlogPost>)
    ensures FilteredPosts(ps, "", AllCategories) == ps
  {
    forall p | p in ps ensures Shown("", AllCategories, p) {
      assert Lower("") == "";
      ContainsEmpty(Lower(p.title));
    }
    FilterAll(ps, p => Shown("", AllCategories, p));
  }

  /** The search ignores the case of the term. */
  lemma SearchIgnoresTermCase(ps: seq<BlogPost>, term: string, category: string)
    ensures FilteredPosts(ps, Lower(term), category) == FilteredPosts(ps, term, category)
  {
    LowerIdempotent(term);
    FilterSame(ps, p => Shown(Lower(term), category, p), p => Shown(term, category, p));
  }

  /** A post whose title contains the term verbatim is found, whatever the case. */
  lemma TitleHitIsShown(ps: seq<BlogPost>, term: string, p: BlogPost)
    requires p in ps && Contains(p.title, term)
    ensures p in FilteredPosts(ps, term, AllCategories)
  {
    ContainsLower(p.title, term);
  }

  const FeaturedViews := 2000
  const PopularViews := 1500
  const PopularCount := 4

  predicate Featured(p: BlogPost) { p.views > FeaturedViews }
  predicate Popular(p: BlogPost) { p.views > PopularViews }

  /** The featured post: the first post with more than 2000 views, otherwise
      the first post, and nothing for an empty list. */
  function FeaturedPost(ps: seq<BlogPost>): (r: Option<BlogPost>)
    ensures r.None? <==> |ps| == 0
    ensures r.Some? ==> r.value in ps
    ensures (exists i :: 0 <= i < |ps| && Featured(ps[i])) ==>
              r.Some? && Featured(r.value)
              && exists i :: 0 <= i < |ps| && ps[i] == r.value && forall j :: 0 <= j < i ==> !Featured(ps[j])
    ensures (forall i :: 0 <= i < |ps| ==> !Featured(ps[i])) ==> r == First(ps)
  {
    match Find(ps, Featured)
    case Some(p) => Some(p)
    case None => First(ps)
  }

  /** The popular list: the first four posts with more than 1500 views. */
  function PopularPosts(ps: seq<BlogPost>): (r: seq<BlogPost>)
    ensures |r| == Min(PopularCount, |Filter(ps, Popular)|)
    ensures r == Filter(ps, Popular)[..|r|]
    ensures forall p :: p in r ==> p in ps && Popular(p)
  {
    var popular := Filter(ps, Popular);
    var r := Take(popular, PopularCount);
    assert forall p :: p in r ==> p in popular by {
      forall p | p in r ensures p in popular {
        var k :| 0 <= k < |r| && r[k] == p;
        assert popular[k] == p;
      }
    }
    r
  }

  /** The recent list: the second to fourth posts of the list. */
  function RecentPosts(ps: seq<BlogPost>): (r: seq<BlogPost>)
    ensures |r| == if |ps| <= 1 then 0 else Min(3, |ps| - 1)
    ensures forall i :: 0 <= i < |r| ==> r[i] == ps[i + 1]
  {
    Slice(ps, 1, 4)
  }

  /** Every post with more than 2000 views has more than 1500, so a featured
      post chosen by views is also among the popular candidates. */
  lemma FeaturedIsPopular(ps: seq<BlogPost>)
    requires exists i :: 0 <= i < |ps| && Featured(ps[i])
    ensures FeaturedPost(ps).value in Filter(ps, Popular)
  {
  }
}
