/**
 * The recently-viewed store (store/useRecentlyViewedStore.ts): the ten most
 * recently viewed products, most recent first, each id at most once.
 */
module RecentlyViewed {
  import opened Catalog
  import opened Seqs
  import Recency

  const MaxRecent: nat := 10

  function ProductId(p: Product): int { p.id }

  /** addToRecentlyViewed: drop the product's id, put the product first, keep ten. */
  function Viewed(list: seq<Product>, p: Product): seq<Product> {
    Recency.Touch(list, p, ProductId, MaxRecent)
  }

  /**
   * After viewing `p`: `p` is first, its id occurs nowhere else, at most ten entries
   * remain, and the others are the earlier ones without `p`'s id, in their earlier
   * order, cut to nine. A list with distinct ids keeps them distinct, and viewing the
   * same product twice in a row is the same as viewing it once.
   */
  lemma ViewedProperties(list: seq<Product>, p: Product)
    ensures var r := Viewed(list, p);
      && r != [] && r[0] == p && |r| <= MaxRecent
      && (forall i :: 1 <= i < |r| ==> r[i].id != p.id)
      && r[1..] == Take(WithoutId(list, p.id), MaxRecent - 1)
      && IsSubsequence(r[1..], list)
      && (DistinctIds(list) ==> DistinctIds(r))
      && Viewed(r, p) == r
  {
    Recency.TouchProperties(list, p, ProductId, MaxRecent);
    Recency.WithoutIsFilter(list, p.id, ProductId, (y: Product) => y.id != p.id);
    Recency.TouchIdempotent(list, p, ProductId, MaxRecent);
    if DistinctIds(list) {
      DistinctIdsAreDistinctKeys(list);
      Recency.TouchKeepsDistinct(list, p, ProductId, MaxRecent);
      DistinctIdsAreDistinctKeys(Viewed(list, p));
    }
  }

  lemma DistinctIdsAreDistinctKeys(list: seq<Product>)
    ensures DistinctIds(list) <==> Recency.DistinctKeys(list, ProductId)
  {
  }

  class RecentlyViewedStore {
    var recentProducts: seq<Product>

    ghost predicate Valid()
      reads this
    {
      |recentProducts| <= MaxRecent && DistinctIds(recentProducts)
    }

    constructor ()
      ensures Valid() && recentProducts == []
    {
      recentProducts := [];
    }

    method AddToRecentlyViewed(product: Product)
      requires Valid()
      modifies this
      ensures Valid()
      ensures recentProducts == Viewed(old(recentProducts), product)
      ensures recentProducts[0] == product
    {
      ViewedProperties(recentProducts, product);
      recentProducts := Viewed(recentProducts, product);
    }

    method ClearRecentlyViewed()
      requires Valid()
      modifies this
      ensures Valid() && recentProducts == []
    {
      recentProducts := [];
    }
  }
}
