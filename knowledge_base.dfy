/** The knowledge-base page (src/components/Knowledge/KnowledgeBase.tsx):
    a search term and a category drop-down choose the articles shown, the
    drop-down offers each category once, each card previews the first 150
    characters, and the side panel lists the five most viewed articles after
    sorting the store's own article array in place by views. */
module KnowledgeBase {
  import opened Common
  import opened Domain

  // ---------------------------------------------------------------------------
  // Filtering
  // ---------------------------------------------------------------------------

  /** `article.tags.some(tag => tag.toLowerCase().includes(q))`. */
  predicate SomeTagContains(tags: seq<string>, q: string)
  {
    exists k :: 0 <= k < |tags| && Contains(Lower(tags[k]), q)
  }

  /** The test of `filteredArticles` for the lower-cased term `q`. */
  predicate Shown(a: Article, q: string, categoryFilter: string)
  {
    (Contains(Lower(a.title), q) || Contains(Lower(a.content), q) || SomeTagContains(a.tags, q))
    && (categoryFilter == "all" || a.category == categoryFilter)
  }

  function ShownTest(q: string, categoryFilter: string): Article -> bool
  {
    a => Shown(a, q, categoryFilter)
  }

  /** `filteredArticles`: exactly the articles that pass the test, in order. */
  function FilteredArticles(articles: seq<Article>, term: string, categoryFilter: string): (r: seq<Article>)
    ensures forall a :: a in r <==> a in articles && Shown(a, Lower(term), categoryFilter)
    ensures IsSubsequence(r, articles)
  {
    FilterIsSubsequence(articles, ShownTest(Lower(term), categoryFilter));
    Filter(articles, ShownTest(Lower(term), categoryFilter))
  }

  /** With an empty term and "all" every article is shown. */
  lemma NoFilterShowsAll(articles: seq<Article>)
    ensures FilteredArticles(articles, "", "all") == articles
  {
    forall a | a in articles ensures Shown(a, "", "all") {
      ContainsEmpty(Lower(a.title));
    }
    assert Lower("") == "";
    FilterKeepsAll(articles, ShownTest("", "all"));
  }

  /** Choosing a category instead of "all" only hides cards, and every card
      left is of that category. */
  lemma CategoryFilterNarrows(articles: seq<Article>, term: string, category: string)
    requires category != "all"
    ensures IsSubsequence(FilteredArticles(articles, term, category), FilteredArticles(articles, term, "all"))
    ensures forall a :: a in FilteredArticles(articles, term, category) ==> a.category == category
  {
    FilterStricterIsSubsequence(articles, ShownTest(Lower(term), category), ShownTest(Lower(term), "all"));
  }

  // ---------------------------------------------------------------------------
  // Categories and previews
  // ---------------------------------------------------------------------------

  function CategoryOf(a: Article): string
  {
    a.category
  }

  /** `[...new Set(knowledgeArticles.map(article => article.category))]`. */
  function Categories(articles: seq<Article>): (r: seq<string>)
    ensures NoDuplicates(r)
    ensures forall c :: c in r <==> exists k :: 0 <= k < |articles| && articles[k].category == c
  {
    var cs := MapSeq(articles, CategoryOf);
    var r := Distinct(cs);
    forall c | c in r ensures exists k :: 0 <= k < |articles| && articles[k].category == c {
      var i :| 0 <= i < |cs| && cs[i] == c;
      assert articles[i].category == c;
    }
    forall k | 0 <= k < |articles| ensures articles[k].category in r {
      assert cs[k] == articles[k].category;
    }
    r
  }

  /** The categories are offered in the order in which they first occur
      among the articles. */
  lemma CategoriesInFirstSeenOrder(articles: seq<Article>, i: nat, j: nat)
    requires i < j < |Categories(articles)|
    ensures var cs := MapSeq(articles, CategoryOf);
      FirstIndex(cs, Categories(articles)[i]) < FirstIndex(cs, Categories(articles)[j])
  {
    DistinctKeepsFirstOccurrenceOrder(MapSeq(articles, CategoryOf), i, j);
  }

  /** `${article.content.substring(0, 150)}...`. */
  function Preview(a: Article): (r: string)
    ensures 3 <= |r| <= 153 && r[|r| - 3..] == "..."
    ensures r[..|r| - 3] <= a.content
    ensures |a.content| <= 150 ==> r == a.content + "..."
    ensures |a.content| > 150 ==> |r| == 153
  {
    Take(a.content, 150) + "..."
  }

  // ---------------------------------------------------------------------------
  // The most viewed articles
  // ---------------------------------------------------------------------------

  /** Ordered by `(a, b) => b.views - a.views`: views never increase. */
  predicate ByViews(s: seq<Article>)
  {
    forall i, j :: 0 <= i < j < |s| ==> s[i].views >= s[j].views
  }

  /** `knowledgeArticles.sort((a, b) => b.views - a.views)`, in place: the
      array ends up ordered by views, most viewed first, holding the same
      articles. */
  method SortByViews(a: array<Article>)
    modifies a
    ensures ByViews(a[..])
    ensures multiset(a[..]) == multiset(old(a[..]))
  {
    var i := 0;
    while i < a.Length
      invariant 0 <= i <= a.Length
      invariant ByViews(a[..i])
      invariant multiset(a[..]) == multiset(old(a[..]))
    {
      InsertLast(a, i);
      i := i + 1;
    }
  }

  /** Moves `a[i]` left past every entry with fewer views, so that the first
      `i + 1` entries are ordered when the first `i` were. */
  method InsertLast(a: array<Article>, i: nat)
    requires i < a.Length && ByViews(a[..i])
    modifies a
    ensures ByViews(a[..i + 1])
    ensures multiset(a[..]) == multiset(old(a[..]))
  {
    var j := i;
    InsertionStart(a[..], i);
    while j > 0 && a[j - 1].views < a[j].views
      invariant 0 <= j <= i
      invariant Inserting(a[..], i, j)
      invariant multiset(a[..]) == multiset(old(a[..]))
    {
      SwapStep(a[..], i, j);
      a[j - 1], a[j] := a[j], a[j - 1];
      j := j - 1;
    }
    InsertionDone(a[..], i, j);
  }

  /** Halfway through inserting the entry now at `j` into the first `i + 1`
      entries: apart from it they are ordered, everything before it has at
      least the views of everything after it, and it has more views than
      everything after it. */
  predicate Inserting(s: seq<Article>, i: nat, j: nat)
    requires j <= i < |s|
  {
    && (forall p, q :: 0 <= p < q <= i && p != j && q != j ==> s[p].views >= s[q].views)
    && (forall p, q :: 0 <= p < j < q <= i ==> s[p].views >= s[q].views)
    && (forall q :: j < q <= i ==> s[j].views > s[q].views)
  }

  lemma InsertionStart(s: seq<Article>, i: nat)
    requires i < |s| && ByViews(s[..i])
    ensures Inserting(s, i, i)
  {
    assert forall p :: 0 <= p < i ==> s[..i][p] == s[p];
  }

  lemma SwapStep(s: seq<Article>, i: nat, j: nat)
    requires 0 < j <= i < |s| && Inserting(s, i, j) && s[j - 1].views < s[j].views
    ensures Inserting(s[j - 1 := s[j]][j := s[j - 1]], i, j - 1)
  {
  }

  lemma InsertionDone(s: seq<Article>, i: nat, j: nat)
    requires j <= i < |s| && Inserting(s, i, j) && (j == 0 || s[j - 1].views >= s[j].views)
    ensures ByViews(s[..i + 1])
  {
    assert forall p :: 0 <= p <= i ==> s[..i + 1][p] == s[p];
  }

  /** The side panel: the array is sorted in place, then its first five
      entries (or all, when fewer) are listed; none of the articles left out
      has more views than one listed. */
  method PopularArticles(a: array<Article>) returns (top: seq<Article>)
    modifies a
    ensures multiset(a[..]) == multiset(old(a[..])) && ByViews(a[..])
    ensures |top| == if a.Length < 5 then a.Length else 5
    ensures top == a[..|top|]
    ensures forall p, q :: 0 <= p < |top| <= q < a.Length ==> top[p].views >= a[q].views
  {
    SortByViews(a);
    var n := if a.Length < 5 then a.Length else 5;
    top := a[..n];
    assert forall p :: 0 <= p < a.Length ==> a[..][p] == a[p];
  }
}
