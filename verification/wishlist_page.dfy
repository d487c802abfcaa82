/**
 * The wishlist page (app/wishlist/page.tsx): its empty state, and the "add all to
 * cart" button, which calls the store's addToCart once per wishlist entry, in order.
 */
module WishlistPage {
  import opened Catalog
  import opened CartWishlist

  /** The page renders its empty state, without the add-all button, for an empty wishlist. */
  predicate ShowsEmptyState(wishlist: seq<Product>) {
    |wishlist| == 0
  }

  /** The cart after `addToCart` has been applied to each product of `ps` in turn. */
  function AddedAll(cart: seq<LineItem>, ps: seq<Product>): seq<LineItem> {
    if ps == [] then cart else CartAdd(AddedAll(cart, ps[..|ps| - 1]), ps[|ps| - 1])
  }

  /** How many entries of `ps` carry the id `k`. */
  function Occurrences(ps: seq<Product>, k: int): nat {
    if ps == [] then 0
    else Occurrences(ps[..|ps| - 1], k) + (if ps[|ps| - 1].id == k then 1 else 0)
  }

  /** The lines a fresh product list adds: one unit each, in list order. */
  function NewLines(ps: seq<Product>): (r: seq<LineItem>)
    ensures |r| == |ps|
    ensures forall i :: 0 <= i < |ps| ==> r[i].product == ps[i] && r[i].quantity == 1
  {
    seq(|ps|, i requires 0 <= i < |ps| => LineItem(ps[i], 1))
  }

  /** handleAddAllToCart: `wishlist.forEach(product => addToCart(product))`. */
  method HandleAddAllToCart(store: Store)
    requires store.Valid()
    modifies store
    ensures store.Valid()
    ensures store.cart == AddedAll(old(store.cart), old(store.wishlist))
    ensures store.wishlist == old(store.wishlist)
  {
    var items := store.wishlist;
    for i := 0 to |items|
      invariant store.Valid()
      invariant store.wishlist == items
      invariant store.cart == AddedAll(old(store.cart), items[..i])
    {
      assert items[..i + 1][..i] == items[..i];
      store.AddToCart(items[i]);
    }
    assert items[..|items|] == items;
  }

  /**
   * Adding all wishlist products keeps the cart well formed, adds one unit per
   * entry (so the item count grows by the wishlist's length), adds each id's units
   * exactly as often as it occurs.
   */
  lemma {:induction false} AddAllCounts(cart: seq<LineItem>, ps: seq<Product>)
    requires CartInvariant(cart)
    ensures CartInvariant(AddedAll(cart, ps))
    ensures TotalItems(AddedAll(cart, ps)) == TotalItems(cart) + |ps|
    ensures forall k :: QuantityOf(AddedAll(cart, ps), k) == QuantityOf(cart, k) + Occurrences(ps, k)
  {
    if ps != [] {
      var init, last := ps[..|ps| - 1], ps[|ps| - 1];
      AddAllCounts(cart, init);
      AddKeepsInvariant(AddedAll(cart, init), last);
    }
  }

  /** Every wishlist entry has a cart line afterwards, in stock or not. */
  lemma {:induction false} AddAllContains(cart: seq<LineItem>, ps: seq<Product>)
    ensures forall j :: 0 <= j < |ps| ==> HasLine(AddedAll(cart, ps), ps[j].id)
  {
    if ps != [] {
      var init, last := ps[..|ps| - 1], ps[|ps| - 1];
      var prev := AddedAll(cart, init);
      AddAllContains(cart, init);
      AddHasLine(prev, last);
      forall j | 0 <= j < |ps| - 1 ensures HasLine(AddedAll(cart, ps), ps[j].id) {
        assert ps[j] == init[j];
        AddKeepsLine(prev, last, ps[j].id);
      }
    }
  }

  /** After addToCart the product has a line. */
  lemma AddHasLine(cart: seq<LineItem>, p: Product)
    ensures HasLine(CartAdd(cart, p), p.id)
  {
    var r := CartAdd(cart, p);
    if HasLine(cart, p.id) {
      var i :| 0 <= i < |cart| && Ids(cart)[i] == p.id;
      assert Ids(r)[i] == p.id;
    } else {
      assert Ids(r)[|cart|] == p.id;
    }
  }

  /** addToCart never drops a line. */
  lemma AddKeepsLine(cart: seq<LineItem>, p: Product, k: int)
    requires HasLine(cart, k)
    ensures HasLine(CartAdd(cart, p), k)
  {
    var i :| 0 <= i < |cart| && Ids(cart)[i] == k;
    assert Ids(CartAdd(cart, p))[i] == k;
  }

  /** addToCart keeps every existing line's position and id. */
  lemma AddKeepsIds(cart: seq<LineItem>, p: Product)
    requires CartInvariant(cart)
    ensures |CartAdd(cart, p)| >= |cart|
    ensures Ids(CartAdd(cart, p))[..|cart|] == Ids(cart)
    ensures forall i :: 0 <= i < |cart| && cart[i].product.id != p.id ==> CartAdd(cart, p)[i] == cart[i]
  {
    if HasLine(cart, p.id) {
      var i :| 0 <= i < |cart| && Ids(cart)[i] == p.id;
      AddExistingProduct(cart, p, i);
    } else {
      AddNewProduct(cart, p);
    }
  }

  /**
   * Lines of the original cart keep their position, and those whose product is not
   * on the wishlist are left exactly as they were.
   */
  lemma {:induction false} AddAllKeepsOtherLines(cart: seq<LineItem>, ps: seq<Product>)
    requires CartInvariant(cart)
    ensures |AddedAll(cart, ps)| >= |cart|
    ensures Ids(AddedAll(cart, ps))[..|cart|] == Ids(cart)
    ensures forall i :: 0 <= i < |cart| && !HasId(ps, cart[i].product.id) ==> AddedAll(cart, ps)[i] == cart[i]
  {
    if ps != [] {
      var init, last := ps[..|ps| - 1], ps[|ps| - 1];
      var prev := AddedAll(cart, init);
      AddAllKeepsOtherLines(cart, init);
      AddAllCounts(cart, init);
      AddKeepsIds(prev, last);
      assert Ids(AddedAll(cart, ps))[..|cart|] == Ids(prev)[..|prev|][..|cart|];
      forall i | 0 <= i < |cart| && !HasId(ps, cart[i].product.id)
        ensures AddedAll(cart, ps)[i] == cart[i]
      {
        assert !HasId(init, cart[i].product.id) by {
          forall j | 0 <= j < |init| ensures init[j].id != cart[i].product.id {
            assert init[j] == ps[j];
          }
        }
        assert Ids(prev)[i] == cart[i].product.id;
        assert prev[i].product.id != last.id;
      }
    }
  }

  /**
   * When none of the wishlist's (distinct) products is in the cart yet, adding them
   * all appends one line of quantity 1 per product, in wishlist order.
   */
  lemma {:induction false} AddAllFreshAppends(cart: seq<LineItem>, ps: seq<Product>)
    requires DistinctIds(ps)
    requires forall j :: 0 <= j < |ps| ==> !HasLine(cart, ps[j].id)
    ensures AddedAll(cart, ps) == cart + NewLines(ps)
  {
    if ps != [] {
      var init, last := ps[..|ps| - 1], ps[|ps| - 1];
      assert DistinctIds(init) by {
        forall a, b | 0 <= a < b < |init| ensures init[a].id != init[b].id {
          assert init[a] == ps[a] && init[b] == ps[b];
        }
      }
      forall j | 0 <= j < |init| ensures !HasLine(cart, init[j].id) {
        assert init[j] == ps[j];
      }
      AddAllFreshAppends(cart, init);
      var prev := cart + NewLines(init);
      assert !HasLine(prev, last.id) by {
        forall k | 0 <= k < |prev| ensures Ids(prev)[k] != last.id {
          if k < |cart| {
            assert Ids(cart)[k] == prev[k].product.id;
          } else {
            assert prev[k].product == ps[k - |cart|];
          }
        }
      }
      assert cart + NewLines(ps) == prev + [LineItem(last, 1)];
    }
  }
}
