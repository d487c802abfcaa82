/**
 * The full-screen search sheet for small screens (components/search/MobileSearchModal.tsx):
 * up to eight case-insensitive matches on name, category or tag, and the five most
 * recent searches, most recent first.
 */
module MobileSearch {
  import opened Catalog
  import opened Seqs
  import opened Text
  import Recency

  const MaxResults: nat := 8
  const MaxRecentSearches: nat := 5

  /** The suggestions offered before anything is typed. */
  const TrendingSearches: seq<string> := ["Headphones", "Smart Watch", "Sneakers", "Backpack"]

  /** Name, category or some tag contains the query, ignoring case. */
  predicate MatchesQuery(p: Product, query: string) {
    || ContainsIgnoringCase(p.name, query)
    || ContainsIgnoringCase(p.category, query)
    || exists i | 0 <= i < |p.tags| :: ContainsIgnoringCase(p.tags[i], query)
  }

  /** Every catalogue product that matches the query, in catalogue order. */
  function Matching(catalog: seq<Product>, query: string): seq<Product> {
    Filter(catalog, (p: Product) => MatchesQuery(p, query))
  }

  /** The results effect: nothing for a query that trims to empty, else the first eight matches. */
  function Results(catalog: seq<Product>, query: string): seq<Product> {
    if Trim(query) != [] then Take(Matching(catalog, query), MaxResults) else []
  }

  /**
   * A query of white space only finds nothing; any other finds the first eight
   * matching products in catalogue order (all of them when there are no more than
   * eight), each of them a catalogue product that matches.
   */
  lemma ResultsProperties(catalog: seq<Product>, query: string)
    ensures var r, m := Results(catalog, query), Matching(catalog, query);
      && (IsBlank(query) ==> r == [])
      && (!IsBlank(query) ==> r == m[..if |m| < MaxResults then |m| else MaxResults])
      && |r| <= MaxResults
      && IsSubsequence(r, catalog)
      && (forall i :: 0 <= i < |r| ==> r[i] in catalog && MatchesQuery(r[i], query))
      && (!IsBlank(query) && |m| <= MaxResults ==>
            forall i :: 0 <= i < |catalog| && MatchesQuery(catalog[i], query) ==> catalog[i] in r)
  {
    TrimEmptyIffBlank(query);
    var f := (p: Product) => MatchesQuery(p, query);
    var m := Matching(catalog, query);
    FilterIsSubsequence(catalog, f);
    TakeIsSubsequence(m, catalog, MaxResults);
    if !IsBlank(query) {
      var r := Results(catalog, query);
      forall i | 0 <= i < |r| ensures r[i] == m[i] && r[i] in m {
      }
    }
  }

  function Same(s: string): string { s }

  /** handleSearch: a query that trims to something goes first, without its earlier copy, five kept. */
  function Searched(recent: seq<string>, query: string): seq<string> {
    if Trim(query) != [] then Recency.Touch(recent, query, Same, MaxRecentSearches) else recent
  }

  ghost predicate Distinct(list: seq<string>) {
    forall i, j :: 0 <= i < j < |list| ==> list[i] != list[j]
  }

  ghost predicate NoBlank(list: seq<string>) {
    forall i :: 0 <= i < |list| ==> !IsBlank(list[i])
  }

  /**
   * Searching for white space changes nothing. Any other query is put first, occurs
   * nowhere else, and is followed by the earlier searches without it, in their order,
   * at most five in all. Searching the same query twice in a row is the same as once.
   */
  lemma SearchedProperties(recent: seq<string>, query: string)
    ensures var r := Searched(recent, query);
      && (IsBlank(query) ==> r == recent)
      && (!IsBlank(query) ==>
            && |r| > 0 && r[0] == query && |r| <= MaxRecentSearches
            && (forall i :: 1 <= i < |r| ==> r[i] != query)
            && r[1..] == Take(Filter(recent, (s: string) => s != query), MaxRecentSearches - 1)
            && IsSubsequence(r[1..], recent)
            && Searched(r, query) == r)
  {
    TrimEmptyIffBlank(query);
    if !IsBlank(query) {
      Recency.TouchProperties(recent, query, Same, MaxRecentSearches);
      Recency.WithoutIsFilter(recent, query, Same, (s: string) => s != query);
      Recency.TouchIdempotent(recent, query, Same, MaxRecentSearches);
    }
  }

  /** A list without repeats or blank entries stays so after any search. */
  lemma SearchedKeepsWellFormed(recent: seq<string>, query: string)
    requires Distinct(recent) && NoBlank(recent)
    ensures Distinct(Searched(recent, query)) && NoBlank(Searched(recent, query))
  {
    var r := Searched(recent, query);
    TrimEmptyIffBlank(query);
    if !IsBlank(query) {
      Recency.TouchProperties(recent, query, Same, MaxRecentSearches);
      assert Recency.DistinctKeys(recent, Same);
      Recency.TouchKeepsDistinct(recent, query, Same, MaxRecentSearches);
      forall i | 1 <= i < |r| ensures !IsBlank(r[i]) {
        Recency.SubsequenceIndex(r[1..], recent, i - 1);
      }
    }
  }

  class SearchSheet {
    var isOpen: bool
    var query: string
    var recentSearches: seq<string>

    ghost predicate Valid()
      reads this
    {
      |recentSearches| <= MaxRecentSearches && Distinct(recentSearches) && NoBlank(recentSearches)
    }

    constructor ()
      ensures Valid() && !isOpen && query == [] && recentSearches == []
    {
      isOpen, query, recentSearches := false, [], [];
    }

    method Open()
      requires Valid()
      modifies this
      ensures Valid() && isOpen && query == old(query) && recentSearches == old(recentSearches)
    {
      isOpen := true;
    }

    method Close()
      requires Valid()
      modifies this
      ensures Valid() && !isOpen && query == old(query) && recentSearches == old(recentSearches)
    {
      isOpen := false;
    }

    /** Typing, or the clear button with the empty string. */
    method SetQuery(value: string)
      requires Valid()
      modifies this
      ensures Valid() && query == value && isOpen == old(isOpen) && recentSearches == old(recentSearches)
    {
      query := value;
    }

    method HandleSearch(searchQuery: string)
      requires Valid()
      modifies this
      ensures Valid()
      ensures recentSearches == Searched(old(recentSearches), searchQuery)
      ensures query == old(query) && isOpen == old(isOpen)
    {
      SearchedProperties(recentSearches, searchQuery);
      SearchedKeepsWellFormed(recentSearches, searchQuery);
      if Trim(searchQuery) != [] {
        recentSearches := Recency.Touch(recentSearches, searchQuery, Same, MaxRecentSearches);
      }
    }

    /** Enter in the input records the current query. */
    method SubmitQuery()
      requires Valid()
      modifies this
      ensures Valid()
      ensures recentSearches == Searched(old(recentSearches), old(query))
      ensures query == old(query) && isOpen == old(isOpen)
    {
      HandleSearch(query);
    }

    /** Following a result records the query and closes the sheet. */
    method FollowResult()
      requires Valid()
      modifies this
      ensures Valid()
      ensures recentSearches == Searched(old(recentSearches), old(query))
      ensures query == old(query) && !isOpen
    {
      HandleSearch(query);
      isOpen := false;
    }

    /** A recent or trending chip: search for it and put it in the input. */
    method PickSuggestion(search: string)
      requires Valid()
      modifies this
      ensures Valid()
      ensures query == search && recentSearches == Searched(old(recentSearches), search)
      ensures isOpen == old(isOpen)
    {
      query := search;
      HandleSearch(search);
    }

    method ClearRecentSearches()
      requires Valid()
      modifies this
      ensures Valid() && recentSearches == [] && query == old(query) && isOpen == old(isOpen)
    {
      recentSearches := [];
    }
  }
}
