/**
 * The product record shared by every store and page. Prices are JavaScript
 * doubles in the storefront; here they are exact reals, so rounding is abstracted away.
 */
module Catalog {
  import opened Optional
  import opened Seqs

  /** A catalogue entry; `discount` is an optional percentage, `tags` is empty when absent. */
  datatype Product = Product(
    id: int,
    name: string,
    price: real,
    discount: Option<real>,
    rating: real,
    reviews: int,
    inStock: bool,
    category: string,
    description: string,
    tags: seq<string>)

  /** `product.discount` is truthy: present and non-zero. */
  predicate OnSale(p: Product) {
    p.discount.Some? && p.discount.value != 0.0
  }

  /** The discount as a number, 0 when there is none. */
  function DiscountPercent(p: Product): real {
    p.discount.GetOr(0.0)
  }

  /**
   * The price one unit is sold at: `price * (1 - discount / 100)` when the product is
   * on sale, the base price otherwise. The store total, the cart and checkout lines and
   * the product card all use this same rule.
   */
  function UnitPrice(p: Product): real {
    if OnSale(p) then p.price * (1.0 - p.discount.value / 100.0) else p.price
  }

  /**
   * For a non-negative price and a discount in [0, 100] the unit price lies in
   * [0, price]: a discount never raises the price, a positive discount on a positive
   * price strictly lowers it, and a full discount makes the product free.
   */
  lemma UnitPriceBounds(p: Product)
    requires p.price >= 0.0 && 0.0 <= DiscountPercent(p) <= 100.0
    ensures 0.0 <= UnitPrice(p) <= p.price
    ensures p.price > 0.0 && DiscountPercent(p) > 0.0 ==> UnitPrice(p) < p.price
    ensures DiscountPercent(p) == 100.0 ==> UnitPrice(p) == 0.0
  {
    var d := DiscountPercent(p);
    assert 0.0 <= p.price * d <= p.price * 100.0 by {
      MulMonotone(p.price, d, 100.0);
    }
    var cut := p.price * d / 100.0;
    assert 0.0 <= cut <= p.price;
    if OnSale(p) {
      assert UnitPrice(p) == p.price - cut;
    }
  }

  lemma MulMonotone(x: real, a: real, b: real)
    requires x >= 0.0 && 0.0 <= a <= b
    ensures 0.0 <= x * a <= x * b
  {
  }

  // ---------------------------------------------------------------------------
  // Lists of products keyed by id (wishlist, compare list, recently viewed)

  /** `list.some(p => p.id === id)`, equivalently `list.find(...)` finds something. */
  predicate HasId(list: seq<Product>, id: int) {
    exists i :: 0 <= i < |list| && list[i].id == id
  }

  /** No id occurs twice. */
  ghost predicate DistinctIds(list: seq<Product>) {
    forall i, j :: 0 <= i < j < |list| ==> list[i].id != list[j].id
  }

  /** `list.filter(p => p.id !== id)`. */
  function WithoutId(list: seq<Product>, id: int): seq<Product> {
    Filter(list, (p: Product) => p.id != id)
  }

  /**
   * Filtering an id out leaves it absent, keeps the other entries in their order,
   * keeps membership of every other id, keeps ids distinct, and changes nothing when
   * the id was absent.
   */
  lemma WithoutIdProperties(list: seq<Product>, id: int)
    ensures var w := WithoutId(list, id);
      && !HasId(w, id)
      && IsSubsequence(w, list)
      && (forall k :: k != id ==> (HasId(w, k) <==> HasId(list, k)))
      && (DistinctIds(list) ==> DistinctIds(w))
      && (!HasId(list, id) ==> w == list)
  {
    WithoutIdMembers(list, id);
    if DistinctIds(list) {
      WithoutIdKeepsDistinct(list, id);
    }
    if !HasId(list, id) {
      FilterAll(list, (p: Product) => p.id != id);
    }
  }

  lemma WithoutIdMembers(list: seq<Product>, id: int)
    ensures var w := WithoutId(list, id);
      && !HasId(w, id)
      && IsSubsequence(w, list)
      && (forall k :: k != id ==> (HasId(w, k) <==> HasId(list, k)))
  {
    var f := (p: Product) => p.id != id;
    var w := WithoutId(list, id);
    FilterIsSubsequence(list, f);
    forall i | 0 <= i < |w| ensures w[i].id != id {
      assert f(w[i]);
    }
    forall k | k != id ensures HasId(w, k) <==> HasId(list, k) {
      if HasId(list, k) {
        var i :| 0 <= i < |list| && list[i].id == k;
        assert list[i] in w;
      }
      if HasId(w, k) {
        var i :| 0 <= i < |w| && w[i].id == k;
        assert w[i] in list;
      }
    }
  }

  lemma {:induction false} WithoutIdKeepsDistinct(list: seq<Product>, id: int)
    requires DistinctIds(list)
    ensures DistinctIds(WithoutId(list, id))
  {
    var f := (p: Product) => p.id != id;
    if list != [] {
      var init, last := list[..|list| - 1], list[|list| - 1];
      WithoutIdKeepsDistinct(init, id);
      if f(last) {
        var w' := WithoutId(init, id);
        assert WithoutId(list, id) == w' + [last];
        forall i | 0 <= i < |w'| ensures w'[i].id != last.id {
          assert w'[i] in init;
          var j :| 0 <= j < |init| && init[j] == w'[i];
          assert list[j] == init[j];
        }
      } else {
        assert WithoutId(list, id) == WithoutId(init, id);
      }
    }
  }
}
