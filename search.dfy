/** The global search of the console (src/contexts/SearchContext.tsx): a
    case-insensitive substring search over the tickets, users, knowledge
    articles and departments of the store, one result per matching entity,
    the four groups in that order. */
module Search {
  import opened Common
  import opened Domain

  /** The `type` of a result. */
  datatype Kind = TicketKind | UserKind | ArticleKind | DepartmentKind
  {
    function Name(): string
    {
      match this
      case TicketKind => "ticket"
      case UserKind => "user"
      case ArticleKind => "article"
      case DepartmentKind => "department"
    }

    /** The position of the group in the result list. */
    function Rank(): nat
    {
      match this
      case TicketKind => 0
      case UserKind => 1
      case ArticleKind => 2
      case DepartmentKind => 3
    }
  }

  datatype SearchResult = SearchResult(id: string, kind: Kind, title: string, description: string, url: string)

  // ---------------------------------------------------------------------------
  // What matches
  // ---------------------------------------------------------------------------

  /** `xs.some(x => x.toLowerCase().includes(q))`. */
  predicate AnyContains(xs: seq<string>, q: string)
  {
    exists k :: 0 <= k < |xs| && Contains(Lower(xs[k]), q)
  }

  /** Title, description or a tag, lower-cased, hold the query; the id is
      searched as it is. */
  predicate TicketMatches(t: Ticket, q: string)
  {
    Contains(Lower(t.title), q) || Contains(Lower(t.description), q) || Contains(t.id, q) || AnyContains(t.tags, q)
  }

  /** Name or e-mail hold the query, or a department that is set and not
      empty does. */
  predicate UserMatches(u: User, q: string)
  {
    Contains(Lower(u.name), q) || Contains(Lower(u.email), q)
    || (u.department.Some? && u.department.value != "" && Contains(Lower(u.department.value), q))
  }

  predicate ArticleMatches(a: Article, q: string)
  {
    Contains(Lower(a.title), q) || Contains(Lower(a.content), q) || AnyContains(a.tags, q)
  }

  predicate AreaMatches(area: SupportArea, q: string)
  {
    Contains(Lower(area.name), q) || AnyContains(area.keywords, q)
  }

  /** Name or description hold the query, or some support area's name or
      keyword does. */
  predicate DepartmentMatches(d: Department, q: string)
  {
    Contains(Lower(d.name), q) || Contains(Lower(d.description), q)
    || exists k :: 0 <= k < |d.supportAreas| && AreaMatches(d.supportAreas[k], q)
  }

  function TicketMatch(q: string): Ticket -> bool { t => TicketMatches(t, q) }
  function UserMatch(q: string): User -> bool { u => UserMatches(u, q) }
  function ArticleMatch(q: string): Article -> bool { a => ArticleMatches(a, q) }
  function DepartmentMatch(q: string): Department -> bool { d => DepartmentMatches(d, q) }

  // ---------------------------------------------------------------------------
  // What a hit looks like
  // ---------------------------------------------------------------------------

  /** `substring(0, 100) + '...'`. */
  function Excerpt(s: string): (r: string)
    ensures 3 <= |r| <= 103 && r[|r| - 3..] == "..."
    ensures r[..|r| - 3] <= s && (|s| <= 100 ==> r[..|r| - 3] == s)
    ensures |s| > 100 ==> |r| == 103
  {
    Take(s, 100) + "..."
  }

  function TicketResult(t: Ticket): (r: SearchResult)
    ensures r.id == t.id && r.kind == TicketKind && r.url == "/tickets"
  {
    SearchResult(t.id, TicketKind, "Ticket #" + t.id + ": " + t.title, Excerpt(t.description), "/tickets")
  }

  function UserResult(u: User): (r: SearchResult)
    ensures r.id == u.id && r.kind == UserKind && r.url == "/users"
    ensures r.title == u.name && r.description == u.email + " - " + u.role.Name()
  {
    SearchResult(u.id, UserKind, u.name, u.email + " - " + u.role.Name(), "/users")
  }

  function ArticleResult(a: Article): (r: SearchResult)
    ensures r.id == a.id && r.kind == ArticleKind && r.url == "/knowledge"
    ensures r.title == a.title && r.description == Excerpt(a.content)
  {
    SearchResult(a.id, ArticleKind, a.title, Excerpt(a.content), "/knowledge")
  }

  function DepartmentResult(d: Department): (r: SearchResult)
    ensures r.id == d.id && r.kind == DepartmentKind && r.url == "/departments"
    ensures r.title == d.name && r.description == d.description
  {
    SearchResult(d.id, DepartmentKind, d.name, d.description, "/departments")
  }

  /** The result of a ticket hit: its title names the ticket, and its
      description is the start of the ticket's description followed by an
      ellipsis. */
  lemma TicketResultShape(t: Ticket)
    ensures var r := TicketResult(t);
      && r.title == "Ticket #" + t.id + ": " + t.title
      && 3 <= |r.description| <= 103 && r.description[|r.description| - 3..] == "..."
      && r.description[..|r.description| - 3] <= t.description
      && (|t.description| > 100 ==> |r.description| == 103)
      && (|t.description| <= 100 ==> r.description == t.description + "...")
  {
  }

  // ---------------------------------------------------------------------------
  // The result list
  // ---------------------------------------------------------------------------

  /** What a `forEach` that pushes the result of every matching entity leaves
      behind: the hits of `xs` in order. */
  function Collect<T>(xs: seq<T>, matches: T -> bool, result: T -> SearchResult): (r: seq<SearchResult>)
    ensures |r| <= |xs|
  {
    if xs == [] then []
    else
      var last := xs[|xs| - 1];
      Collect(xs[..|xs| - 1], matches, result) + (if matches(last) then [result(last)] else [])
  }

  /** One more entity visited by the loop. */
  lemma CollectStep<T>(xs: seq<T>, i: nat, matches: T -> bool, result: T -> SearchResult)
    requires i < |xs|
    ensures Collect(xs[..i + 1], matches, result)
      == Collect(xs[..i], matches, result) + (if matches(xs[i]) then [result(xs[i])] else [])
  {
    assert xs[..i + 1][..i] == xs[..i];
  }

  /** The element at index `i` of four lists laid end to end. */
  lemma ConcatIndex<T>(a: seq<T>, b: seq<T>, c: seq<T>, d: seq<T>, i: nat)
    requires i < |a + b + c + d|
    ensures var r := a + b + c + d;
      && (i < |a| ==> r[i] == a[i])
      && (|a| <= i < |a| + |b| ==> r[i] == b[i - |a|])
      && (|a| + |b| <= i < |a| + |b| + |c| ==> r[i] == c[i - |a| - |b|])
      && (|a| + |b| + |c| <= i ==> r[i] == d[i - |a| - |b| - |c|])
  {
  }

  lemma MapSeqAppend<T, U>(a: seq<T>, b: seq<T>, f: T -> U)
    ensures MapSeq(a + b, f) == MapSeq(a, f) + MapSeq(b, f)
  {
  }

  /** The pushes inside the loop give the same list as filtering first and
      mapping the survivors. */
  lemma {:induction false} CollectIsFilterMap<T>(xs: seq<T>, matches: T -> bool, result: T -> SearchResult)
    ensures Collect(xs, matches, result) == MapSeq(Filter(xs, matches), result)
  {
    if xs != [] {
      var pre, last := xs[..|xs| - 1], xs[|xs| - 1];
      assert xs == pre + [last];
      CollectIsFilterMap(pre, matches, result);
      FilterAppend(pre, [last], matches);
      assert Filter([last], matches) == if matches(last) then [last] else [] by {
        assert [last][1..] == [];
      }
      MapSeqAppend(Filter(pre, matches), Filter([last], matches), result);
    }
  }

  /** Every matching entity gives a hit. */
  lemma CollectHasEveryMatch<T>(xs: seq<T>, matches: T -> bool, result: T -> SearchResult)
    ensures forall k :: 0 <= k < |xs| && matches(xs[k]) ==> result(xs[k]) in Collect(xs, matches, result)
  {
    CollectIsFilterMap(xs, matches, result);
    var kept := Filter(xs, matches);
    forall k | 0 <= k < |xs| && matches(xs[k]) ensures result(xs[k]) in MapSeq(kept, result) {
      var m :| 0 <= m < |kept| && kept[m] == xs[k];
      assert MapSeq(kept, result)[m] == result(xs[k]);
    }
  }

  /** Every hit is the result of a matching entity. */
  lemma CollectOnlyMatches<T>(xs: seq<T>, matches: T -> bool, result: T -> SearchResult)
    ensures forall r :: r in Collect(xs, matches, result) ==>
      exists k :: 0 <= k < |xs| && matches(xs[k]) && r == result(xs[k])
  {
    CollectIsFilterMap(xs, matches, result);
    var kept := Filter(xs, matches);
    forall r | r in MapSeq(kept, result)
      ensures exists k :: 0 <= k < |xs| && matches(xs[k]) && r == result(xs[k])
    {
      var m :| 0 <= m < |kept| && MapSeq(kept, result)[m] == r;
      var k :| 0 <= k < |xs| && xs[k] == kept[m];
    }
  }

  /** The results for the four groups, in the order the source searches
      them. */
  function Groups(tickets: seq<Ticket>, users: seq<User>, articles: seq<Article>, departments: seq<Department>,
                  q: string): seq<seq<SearchResult>>
  {
    [Collect(tickets, TicketMatch(q), TicketResult),
     Collect(users, UserMatch(q), UserResult),
     Collect(articles, ArticleMatch(q), ArticleResult),
     Collect(departments, DepartmentMatch(q), DepartmentResult)]
  }

  /** `performSearch`: nothing for a blank term; otherwise the hits of the
      lower-cased term. */
  function SearchResults(tickets: seq<Ticket>, users: seq<User>, articles: seq<Article>,
                         departments: seq<Department>, term: string): seq<SearchResult>
  {
    if Trim(term) == [] then []
    else
      var g := Groups(tickets, users, articles, departments, Lower(term));
      g[0] + g[1] + g[2] + g[3]
  }

  /** A term of white space only finds nothing. */
  lemma BlankTermFindsNothing(tickets: seq<Ticket>, users: seq<User>, articles: seq<Article>,
                              departments: seq<Department>, term: string)
    requires AllSpace(term)
    ensures SearchResults(tickets, users, articles, departments, term) == []
  {
  }

  /** At most one result per entity. */
  lemma AtMostOneResultPerEntity(tickets: seq<Ticket>, users: seq<User>, articles: seq<Article>,
                                 departments: seq<Department>, term: string)
    ensures |SearchResults(tickets, users, articles, departments, term)|
      <= |tickets| + |users| + |articles| + |departments|
  {
  }

  /** The hits of one group all carry that group's kind. */
  lemma CollectKind<T>(xs: seq<T>, matches: T -> bool, result: T -> SearchResult, kind: Kind)
    requires forall x :: result(x).kind == kind
    ensures forall i :: 0 <= i < |Collect(xs, matches, result)| ==> Collect(xs, matches, result)[i].kind == kind
  {
    CollectIsFilterMap(xs, matches, result);
  }

  /** The results come grouped: tickets first, then users, then articles,
      then departments. */
  lemma ResultsAreGroupedByKind(tickets: seq<Ticket>, users: seq<User>, articles: seq<Article>,
                                departments: seq<Department>, term: string)
    ensures var r := SearchResults(tickets, users, articles, departments, term);
      forall i, j :: 0 <= i < j < |r| ==> r[i].kind.Rank() <= r[j].kind.Rank()
  {
    if Trim(term) != [] {
      var g := Groups(tickets, users, articles, departments, Lower(term));
      CollectKind(tickets, TicketMatch(Lower(term)), TicketResult, TicketKind);
      CollectKind(users, UserMatch(Lower(term)), UserResult, UserKind);
      CollectKind(articles, ArticleMatch(Lower(term)), ArticleResult, ArticleKind);
      CollectKind(departments, DepartmentMatch(Lower(term)), DepartmentResult, DepartmentKind);
      RanksAscend(g[0], g[1], g[2], g[3]);
    }
  }

  /** Four groups, each of one kind in the order of the ranks, concatenate
      into a list whose ranks never decrease. */
  lemma RanksAscend(a: seq<SearchResult>, b: seq<SearchResult>, c: seq<SearchResult>, d: seq<SearchResult>)
    requires forall i :: 0 <= i < |a| ==> a[i].kind == TicketKind
    requires forall i :: 0 <= i < |b| ==> b[i].kind == UserKind
    requires forall i :: 0 <= i < |c| ==> c[i].kind == ArticleKind
    requires forall i :: 0 <= i < |d| ==> d[i].kind == DepartmentKind
    ensures var r := a + b + c + d;
      forall i, j :: 0 <= i < j < |r| ==> r[i].kind.Rank() <= r[j].kind.Rank()
  {
    var r := a + b + c + d;
    forall i | 0 <= i < |r|
      ensures r[i].kind.Rank() ==
        if i < |a| then 0 else if i < |a| + |b| then 1 else if i < |a| + |b| + |c| then 2 else 3
    {
      ConcatIndex(a, b, c, d, i);
    }
  }

  /** A ticket is found exactly when it matches: its result is in the list
      when it matches, and every ticket result comes from a matching
      ticket. */
  lemma TicketFoundIffMatches(tickets: seq<Ticket>, users: seq<User>, articles: seq<Article>,
                              departments: seq<Department>, term: string)
    requires Trim(term) != []
    ensures var r := SearchResults(tickets, users, articles, departments, term);
      && (forall k :: 0 <= k < |tickets| && TicketMatches(tickets[k], Lower(term)) ==> TicketResult(tickets[k]) in r)
      && (forall i :: 0 <= i < |r| && r[i].kind == TicketKind ==>
            exists k :: 0 <= k < |tickets| && TicketMatches(tickets[k], Lower(term)) && r[i] == TicketResult(tickets[k]))
  {
    var q := Lower(term);
    var g := Groups(tickets, users, articles, departments, q);
    var r := g[0] + g[1] + g[2] + g[3];
    CollectHasEveryMatch(tickets, TicketMatch(q), TicketResult);
    CollectOnlyMatches(tickets, TicketMatch(q), TicketResult);
    CollectKind(users, UserMatch(q), UserResult, UserKind);
    CollectKind(articles, ArticleMatch(q), ArticleResult, ArticleKind);
    CollectKind(departments, DepartmentMatch(q), DepartmentResult, DepartmentKind);
    forall i | 0 <= i < |r| && r[i].kind == TicketKind ensures r[i] in g[0] {
      ConcatIndex(g[0], g[1], g[2], g[3], i);
    }
  }

  /** Lower-casing keeps white space white space, and nothing else becomes
      white space. */
  lemma LowerCharKeepsSpace(c: char)
    ensures IsSpace(LowerChar(c)) <==> IsSpace(c)
  {
  }

  lemma TrimEmptyAfterLower(term: string)
    ensures Trim(Lower(term)) == [] <==> Trim(term) == []
  {
    forall i | 0 <= i < |term| ensures IsSpace(Lower(term)[i]) <==> IsSpace(term[i]) {
      LowerCharKeepsSpace(term[i]);
    }
  }

  /** The search ignores the case of the term: searching for its lower-case
      form finds exactly the same results. */
  lemma SearchIgnoresCaseOfTerm(tickets: seq<Ticket>, users: seq<User>, articles: seq<Article>,
                                departments: seq<Department>, term: string)
    ensures SearchResults(tickets, users, articles, departments, Lower(term))
      == SearchResults(tickets, users, articles, departments, term)
  {
    TrimEmptyAfterLower(term);
    LowerIdempotent(term);
  }

  /** One `forEach` of `performSearch`: visits `xs` in order and pushes the
      result of every matching entity onto `results`. */
  method PushHits<T>(results: seq<SearchResult>, xs: seq<T>, matches: T -> bool, result: T -> SearchResult)
    returns (pushed: seq<SearchResult>)
    ensures pushed == results + Collect(xs, matches, result)
  {
    pushed := results;
    var i := 0;
    while i < |xs|
      invariant 0 <= i <= |xs|
      invariant pushed == results + Collect(xs[..i], matches, result)
    {
      CollectStep(xs, i, matches, result);
      if matches(xs[i]) {
        SeqAssoc3(results, Collect(xs[..i], matches, result), [result(xs[i])]);
        pushed := pushed + [result(xs[i])];
      }
      i := i + 1;
    }
    assert xs[..i] == xs;
  }

  // ---------------------------------------------------------------------------
  // The provider
  // ---------------------------------------------------------------------------

  class SearchProvider {
    var searchTerm: string
    var searchResults: seq<SearchResult>
    var isSearching: bool

    constructor ()
      ensures searchTerm == "" && searchResults == [] && !isSearching
    {
      searchTerm := "";
      searchResults := [];
      isSearching := false;
    }

    method SetSearchTerm(term: string)
      modifies this
      ensures searchTerm == term && searchResults == old(searchResults) && isSearching == old(isSearching)
    {
      searchTerm := term;
    }

    /** `performSearch` over the store's current lists. A blank term clears
        the results and returns before the searching flag is touched. */
    method PerformSearch(term: string, tickets: seq<Ticket>, users: seq<User>, articles: seq<Article>,
                         departments: seq<Department>)
      modifies this
      ensures searchResults == SearchResults(tickets, users, articles, departments, term)
      ensures searchTerm == old(searchTerm)
      ensures isSearching == (Trim(term) == [] && old(isSearching))
    {
      if Trim(term) == [] {
        searchResults := [];
        return;
      }
      isSearching := true;
      var q := Lower(term);
      var results: seq<SearchResult> := [];
      ghost var g := Groups(tickets, users, articles, departments, q);
      results := PushHits(results, tickets, TicketMatch(q), TicketResult);
      assert results == g[0];
      results := PushHits(results, users, UserMatch(q), UserResult);
      assert results == g[0] + g[1];
      results := PushHits(results, articles, ArticleMatch(q), ArticleResult);
      assert results == g[0] + g[1] + g[2];
      results := PushHits(results, departments, DepartmentMatch(q), DepartmentResult);
      assert results == g[0] + g[1] + g[2] + g[3];

      searchResults := results;
      isSearching := false;
    }

    /** `clearSearch`. */
    method ClearSearch()
      modifies this
      ensures searchTerm == "" && searchResults == [] && isSearching == old(isSearching)
    {
      searchTerm := "";
      searchResults := [];
    }
  }
}
