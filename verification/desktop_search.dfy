/**
 * The search dialog of wider screens (components/search/SearchModal.tsx): up to five
 * case-insensitive matches on name, category or description for any non-empty query.
 */
module DesktopSearch {
  import opened Catalog
  import opened Seqs
  import opened Text

  const MaxResults: nat := 5

  predicate MatchesQuery(p: Product, query: string) {
    || ContainsIgnoringCase(p.name, query)
    || ContainsIgnoringCase(p.category, query)
    || ContainsIgnoringCase(p.description, query)
  }

  /** Every catalogue product that matches the query, in catalogue order. */
  function Matching(catalog: seq<Product>, query: string): seq<Product> {
    Filter(catalog, (p: Product) => MatchesQuery(p, query))
  }

  /** The results effect: nothing for the empty query, else the first five matches. */
  function Results(catalog: seq<Product>, query: string): seq<Product> {
    if |query| > 0 then Take(Matching(catalog, query), MaxResults) else []
  }

  /**
   * Only the empty query finds nothing by rule; any other query, white space
   * included (it is not trimmed), lists the first five matching products in
   * catalogue order (all of them when no more than five match), each of them a
   * catalogue product that matches.
   */
  lemma ResultsProperties(catalog: seq<Product>, query: string)
    ensures var r, m := Results(catalog, query), Matching(catalog, query);
      && (query == [] ==> r == [])
      && (query != [] ==> r == m[..if |m| < MaxResults then |m| else MaxResults])
      && |r| <= MaxResults
      && IsSubsequence(r, catalog)
      && (forall i :: 0 <= i < |r| ==> r[i] in catalog && MatchesQuery(r[i], query))
      && (query != [] && |m| <= MaxResults ==>
            forall i :: 0 <= i < |catalog| && MatchesQuery(catalog[i], query) ==> catalog[i] in r)
  {
    var f := (p: Product) => MatchesQuery(p, query);
    var m := Matching(catalog, query);
    FilterIsSubsequence(catalog, f);
    TakeIsSubsequence(m, catalog, MaxResults);
    if query != [] {
      var r := Results(catalog, query);
      forall i | 0 <= i < |r| ensures r[i] == m[i] && r[i] in m {
      }
    }
  }

  /** A product whose name contains the query in any letter case is among the matches. */
  lemma NameMatchIgnoresCase(p: Product, query: string)
    requires Includes(ToLower(p.name), ToLower(query))
    ensures MatchesQuery(p, query)
    ensures MatchesQuery(p, ToLower(query)) && MatchesQuery(p, ToUpper(query))
  {
    assert ToLower(ToLower(query)) == ToLower(query);
    assert ToLower(ToUpper(query)) == ToLower(query);
  }
}
