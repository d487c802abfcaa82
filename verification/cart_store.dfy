/**
 * The cart and wishlist store (store/useStore.ts).
 *
 * The store's actions replace the `cart` and `wishlist` fields with new arrays.
 * Each action is given here twice: as a pure transition on sequences (the reducer,
 * about which the lemmas speak) and as a method of `Store` that updates the fields
 * and is proved to perform exactly that transition.
 */
module CartWishlist {
  import opened Catalog
  import opened Seqs

  /** A cart entry: the product as it was added, and how many units of it. */
  datatype LineItem = LineItem(product: Product, quantity: int)

  // ---------------------------------------------------------------------------
  // Views of a cart

  function Ids(cart: seq<LineItem>): seq<int> {
    seq(|cart|, i requires 0 <= i < |cart| => cart[i].product.id)
  }

  /** `cart.find(item => item.id === id)` finds something. */
  predicate HasLine(cart: seq<LineItem>, id: int) {
    id in Ids(cart)
  }

  /** At most one line per product id. */
  ghost predicate UniqueIds(cart: seq<LineItem>) {
    forall i, j :: 0 <= i < j < |cart| ==> cart[i].product.id != cart[j].product.id
  }

  /** What the store's actions maintain: one line per id, every quantity at least 1. */
  ghost predicate CartInvariant(cart: seq<LineItem>) {
    UniqueIds(cart) && forall i :: 0 <= i < |cart| ==> cart[i].quantity >= 1
  }

  // ---------------------------------------------------------------------------
  // Pure transitions (the reducer)

  /** `cart.map(item => item.id === id ? {...item, quantity: item.quantity + 1} : item)`. */
  function Incremented(cart: seq<LineItem>, id: int): seq<LineItem> {
    seq(|cart|, i requires 0 <= i < |cart| =>
      if cart[i].product.id == id then cart[i].(quantity := cart[i].quantity + 1) else cart[i])
  }

  /** addToCart: one more unit of an existing line, or a new line with quantity 1 at the end. */
  function CartAdd(cart: seq<LineItem>, p: Product): seq<LineItem> {
    if HasLine(cart, p.id) then Incremented(cart, p.id) else cart + [LineItem(p, 1)]
  }

  /** removeFromCart: `cart.filter(item => item.id !== id)`. */
  function CartRemove(cart: seq<LineItem>, id: int): seq<LineItem> {
    Filter(cart, (l: LineItem) => l.product.id != id)
  }

  /** `cart.map(item => item.id === id ? {...item, quantity} : item)`. */
  function WithQuantity(cart: seq<LineItem>, id: int, quantity: int): seq<LineItem> {
    seq(|cart|, i requires 0 <= i < |cart| =>
      if cart[i].product.id == id then cart[i].(quantity := quantity) else cart[i])
  }

  /** updateQuantity: a quantity of 0 or less removes the line; any other sets it, unbounded. */
  function CartUpdate(cart: seq<LineItem>, id: int, quantity: int): seq<LineItem> {
    if quantity <= 0 then CartRemove(cart, id) else WithQuantity(cart, id, quantity)
  }

  /** addToWishlist: append only when no entry has the id. */
  function WishlistAdd(wishlist: seq<Product>, p: Product): seq<Product> {
    if HasId(wishlist, p.id) then wishlist else wishlist + [p]
  }

  // ---------------------------------------------------------------------------
  // Derived sums, as the left folds `reduce` computes

  /** A line whose product has a non-negative price and a discount of at most 100%. */
  predicate PriceInRange(l: LineItem) {
    l.product.price >= 0.0 && 0.0 <= DiscountPercent(l.product) <= 100.0 && l.quantity >= 0
  }

  /** The amount one line contributes: unit price times quantity. */
  function LineAmount(l: LineItem): real {
    UnitPrice(l.product) * l.quantity as real
  }

  /** getTotalItems: `cart.reduce((total, item) => total + item.quantity, 0)`. */
  function TotalItems(cart: seq<LineItem>): int {
    if cart == [] then 0 else TotalItems(cart[..|cart| - 1]) + cart[|cart| - 1].quantity
  }

  /** getTotalPrice: `cart.reduce((total, item) => total + unit(item) * item.quantity, 0)`. */
  function TotalPrice(cart: seq<LineItem>): real {
    if cart == [] then 0.0 else TotalPrice(cart[..|cart| - 1]) + LineAmount(cart[|cart| - 1])
  }

  /** Number of lines carrying `id` (1 or 0 under the invariant). */
  function LinesWith(cart: seq<LineItem>, id: int): nat {
    if cart == [] then 0
    else LinesWith(cart[..|cart| - 1], id) + (if cart[|cart| - 1].product.id == id then 1 else 0)
  }

  /** Units of product `id` in the cart. */
  function QuantityOf(cart: seq<LineItem>, id: int): int {
    if cart == [] then 0
    else QuantityOf(cart[..|cart| - 1], id)
         + (if cart[|cart| - 1].product.id == id then cart[|cart| - 1].quantity else 0)
  }

  /** Sum of the unit prices of the lines carrying `id`. */
  function UnitPriceOf(cart: seq<LineItem>, id: int): real {
    if cart == [] then 0.0
    else UnitPriceOf(cart[..|cart| - 1], id)
         + (if cart[|cart| - 1].product.id == id then UnitPrice(cart[|cart| - 1].product) else 0.0)
  }

  // ---------------------------------------------------------------------------
  // Lemmas about the folds

  lemma LastSplit(cart: seq<LineItem>)
    requires cart != []
    ensures cart == cart[..|cart| - 1] + [cart[|cart| - 1]]
  {
  }

  /** Appending a line adds its contribution to every fold. */
  lemma {:induction false} FoldsAppend(cart: seq<LineItem>, l: LineItem, id: int)
    ensures TotalItems(cart + [l]) == TotalItems(cart) + l.quantity
    ensures TotalPrice(cart + [l]) == TotalPrice(cart) + LineAmount(l)
    ensures LinesWith(cart + [l], id) == LinesWith(cart, id) + (if l.product.id == id then 1 else 0)
    ensures QuantityOf(cart + [l], id) == QuantityOf(cart, id) + (if l.product.id == id then l.quantity else 0)
  {
    assert (cart + [l])[..|cart|] == cart;
  }

  /** Lines without `id` contribute nothing to the per-id folds. */
  lemma {:induction false} AbsentIdFolds(cart: seq<LineItem>, id: int)
    requires !HasLine(cart, id)
    ensures LinesWith(cart, id) == 0 && QuantityOf(cart, id) == 0 && UnitPriceOf(cart, id) == 0.0
  {
    if cart != [] {
      assert Ids(cart[..|cart| - 1]) == Ids(cart)[..|cart| - 1];
      assert Ids(cart)[|cart| - 1] == cart[|cart| - 1].product.id;
      AbsentIdFolds(cart[..|cart| - 1], id);
    }
  }

  /** Under unique ids the per-id folds read off the one line carrying the id. */
  lemma {:induction false} UniqueLineFolds(cart: seq<LineItem>, i: int)
    requires UniqueIds(cart) && 0 <= i < |cart|
    ensures LinesWith(cart, cart[i].product.id) == 1
    ensures QuantityOf(cart, cart[i].product.id) == cart[i].quantity
    ensures UnitPriceOf(cart, cart[i].product.id) == UnitPrice(cart[i].product)
  {
    var init := cart[..|cart| - 1];
    if i == |cart| - 1 {
      forall j | 0 <= j < |init| ensures Ids(init)[j] != cart[i].product.id {
        assert init[j] == cart[j];
      }
      AbsentIdFolds(init, cart[i].product.id);
    } else {
      UniqueLineFolds(init, i);
      assert cart[|cart| - 1].product.id != cart[i].product.id;
    }
  }

  lemma IncrementedSnoc(cart: seq<LineItem>, id: int)
    requires cart != []
    ensures var last := cart[|cart| - 1];
      Incremented(cart, id) == Incremented(cart[..|cart| - 1], id)
        + [if last.product.id == id then last.(quantity := last.quantity + 1) else last]
  {
  }

  lemma {:induction false} IncrementedFolds(cart: seq<LineItem>, id: int, k: int)
    ensures TotalItems(Incremented(cart, id)) == TotalItems(cart) + LinesWith(cart, id)
    ensures TotalPrice(Incremented(cart, id)) == TotalPrice(cart) + UnitPriceOf(cart, id)
    ensures QuantityOf(Incremented(cart, id), k)
            == QuantityOf(cart, k) + (if k == id then LinesWith(cart, id) else 0)
  {
    if cart != [] {
      var init, last := cart[..|cart| - 1], cart[|cart| - 1];
      IncrementedFolds(init, id, k);
      var bumped := if last.product.id == id then last.(quantity := last.quantity + 1) else last;
      IncrementedSnoc(cart, id);
      FoldsAppend(Incremented(init, id), bumped, k);
      if last.product.id == id {
        BumpedAmount(last);
      }
    }
  }

  /** One more unit adds one unit price to a line's amount. */
  lemma BumpedAmount(l: LineItem)
    ensures LineAmount(l.(quantity := l.quantity + 1)) == LineAmount(l) + UnitPrice(l.product)
  {
    var u := UnitPrice(l.product);
    assert u * (l.quantity + 1) as real == u * l.quantity as real + u;
  }

  lemma {:induction false} RemoveFolds(cart: seq<LineItem>, id: int)
    ensures TotalItems(CartRemove(cart, id)) == TotalItems(cart) - QuantityOf(cart, id)
    ensures TotalPrice(CartRemove(cart, id)) == TotalPrice(cart) - FoldPriceOf(cart, id)
  {
    if cart != [] {
      var init, last := cart[..|cart| - 1], cart[|cart| - 1];
      RemoveFolds(init, id);
      LastSplit(cart);
      if last.product.id != id {
        FoldsAppend(CartRemove(init, id), last, id);
      }
    }
  }

  /** The amount contributed by the lines carrying `id`. */
  function FoldPriceOf(cart: seq<LineItem>, id: int): real {
    if cart == [] then 0.0
    else FoldPriceOf(cart[..|cart| - 1], id)
         + (if cart[|cart| - 1].product.id == id then LineAmount(cart[|cart| - 1]) else 0.0)
  }

  // ---------------------------------------------------------------------------
  // Properties of the cart actions

  /** A well-formed cart never has fewer units than lines. */
  lemma {:induction false} TotalItemsAtLeastLines(cart: seq<LineItem>)
    requires CartInvariant(cart)
    ensures TotalItems(cart) >= |cart|
  {
    if cart != [] {
      var init := cart[..|cart| - 1];
      assert CartInvariant(init);
      TotalItemsAtLeastLines(init);
    }
  }

  /** Prices and discounts in range give a total that is never negative. */
  lemma {:induction false} TotalPriceNonNegative(cart: seq<LineItem>)
    requires forall i :: 0 <= i < |cart| ==> PriceInRange(cart[i])
    ensures TotalPrice(cart) >= 0.0
  {
    if cart != [] {
      var last := cart[|cart| - 1];
      TotalPriceNonNegative(cart[..|cart| - 1]);
      UnitPriceBounds(last.product);
      assert LineAmount(last) >= 0.0;
    }
  }

  /**
   * Adding a product already in the cart adds one unit to that line: the lines,
   * their order and their products stay, every other quantity stays, and the totals
   * grow by one item and by that line's unit price.
   */
  lemma AddExistingProduct(cart: seq<LineItem>, p: Product, i: int)
    requires CartInvariant(cart)
    requires 0 <= i < |cart| && cart[i].product.id == p.id
    ensures var r := CartAdd(cart, p);
      && |r| == |cart| && Ids(r) == Ids(cart)
      && r[i] == cart[i].(quantity := cart[i].quantity + 1)
      && (forall j :: 0 <= j < |cart| && j != i ==> r[j] == cart[j])
      && TotalItems(r) == TotalItems(cart) + 1
      && TotalPrice(r) == TotalPrice(cart) + UnitPrice(cart[i].product)
      && QuantityOf(r, p.id) == QuantityOf(cart, p.id) + 1
  {
    assert Ids(cart)[i] == p.id;
    IncrementedFolds(cart, p.id, p.id);
    UniqueLineFolds(cart, i);
  }

  /**
   * Adding a product not in the cart appends one line with quantity 1 after the
   * existing ones; the totals grow by one item and by the product's unit price.
   * The stock flag is not consulted.
   */
  lemma AddNewProduct(cart: seq<LineItem>, p: Product)
    requires !HasLine(cart, p.id)
    ensures var r := CartAdd(cart, p);
      && |r| == |cart| + 1 && r[..|cart|] == cart && r[|cart|] == LineItem(p, 1)
      && Ids(r) == Ids(cart) + [p.id]
      && TotalItems(r) == TotalItems(cart) + 1
      && TotalPrice(r) == TotalPrice(cart) + UnitPrice(p)
      && QuantityOf(r, p.id) == 1
  {
    var r := CartAdd(cart, p);
    FoldsAppend(cart, LineItem(p, 1), p.id);
    AbsentIdFolds(cart, p.id);
    assert LineAmount(LineItem(p, 1)) == UnitPrice(p);
  }

  /** Whatever the product, adding it to a well-formed cart adds exactly one unit of it. */
  lemma {:induction false} AddKeepsInvariant(cart: seq<LineItem>, p: Product)
    requires CartInvariant(cart)
    ensures CartInvariant(CartAdd(cart, p))
    ensures HasLine(CartAdd(cart, p), p.id)
    ensures forall k :: QuantityOf(CartAdd(cart, p), k) == QuantityOf(cart, k) + (if k == p.id then 1 else 0)
    ensures TotalItems(CartAdd(cart, p)) == TotalItems(cart) + 1
  {
    var r := CartAdd(cart, p);
    if HasLine(cart, p.id) {
      var i :| 0 <= i < |cart| && Ids(cart)[i] == p.id;
      AddExistingProduct(cart, p, i);
      assert Ids(r)[i] == p.id;
      forall k ensures QuantityOf(r, k) == QuantityOf(cart, k) + (if k == p.id then 1 else 0) {
        IncrementedFolds(cart, p.id, k);
        UniqueLineFolds(cart, i);
      }
    } else {
      AddNewProduct(cart, p);
      assert Ids(r)[|cart|] == p.id;
      forall k ensures QuantityOf(r, k) == QuantityOf(cart, k) + (if k == p.id then 1 else 0) {
        FoldsAppend(cart, LineItem(p, 1), k);
      }
      forall a, b | 0 <= a < b < |r| ensures r[a].product.id != r[b].product.id {
        if b == |cart| {
          assert Ids(cart)[a] == r[a].product.id;
        }
      }
    }
  }

  /**
   * Removing an id leaves no line with it, keeps every other line in its order,
   * and lowers the item count by that id's units; an absent id changes nothing.
   */
  lemma RemoveLine(cart: seq<LineItem>, id: int)
    ensures var r := CartRemove(cart, id);
      && !HasLine(r, id)
      && IsSubsequence(r, cart)
      && (forall i :: 0 <= i < |cart| && cart[i].product.id != id ==> cart[i] in r)
      && (!HasLine(cart, id) ==> r == cart)
      && TotalItems(r) == TotalItems(cart) - QuantityOf(cart, id)
      && TotalPrice(r) == TotalPrice(cart) - FoldPriceOf(cart, id)
  {
    var f := (l: LineItem) => l.product.id != id;
    var r := CartRemove(cart, id);
    FilterIsSubsequence(cart, f);
    RemoveFolds(cart, id);
    forall j | 0 <= j < |r| ensures Ids(r)[j] != id {
      assert f(r[j]);
    }
    if !HasLine(cart, id) {
      forall i | 0 <= i < |cart| ensures f(cart[i]) {
        assert Ids(cart)[i] == cart[i].product.id;
      }
      FilterAll(cart, f);
    }
  }

  lemma RemoveKeepsInvariant(cart: seq<LineItem>, id: int)
    requires CartInvariant(cart)
    ensures CartInvariant(CartRemove(cart, id))
  {
    var r := CartRemove(cart, id);
    FilterIsSubsequence(cart, (l: LineItem) => l.product.id != id);
    SubsequenceKeepsInvariant(r, cart);
  }

  lemma {:induction false} SubsequenceKeepsInvariant(a: seq<LineItem>, b: seq<LineItem>)
    requires IsSubsequence(a, b) && CartInvariant(b)
    ensures CartInvariant(a)
    decreases |b|
  {
    if a != [] {
      var b' := b[..|b| - 1];
      assert CartInvariant(b');
      if a[|a| - 1] == b[|b| - 1] {
        var a' := a[..|a| - 1];
        SubsequenceKeepsInvariant(a', b');
        forall i | 0 <= i < |a'| ensures a'[i].product.id != a[|a| - 1].product.id {
          SubsequenceMember(a', b', i);
        }
        forall i, j | 0 <= i < j < |a| ensures a[i].product.id != a[j].product.id {
          if j < |a| - 1 { assert a[i] == a'[i] && a[j] == a'[j]; }
        }
      } else {
        SubsequenceKeepsInvariant(a, b');
      }
    }
  }

  lemma {:induction false} SubsequenceMember(a: seq<LineItem>, b: seq<LineItem>, i: int)
    requires IsSubsequence(a, b) && 0 <= i < |a|
    ensures a[i] in b
    decreases |b|
  {
    var b' := b[..|b| - 1];
    if a[|a| - 1] == b[|b| - 1] {
      if i < |a| - 1 {
        SubsequenceMember(a[..|a| - 1], b', i);
      }
    } else {
      SubsequenceMember(a, b', i);
    }
  }

  /** updateQuantity with a quantity of 0 or less has exactly the effect of removeFromCart. */
  lemma UpdateNonPositiveRemoves(cart: seq<LineItem>, id: int, quantity: int)
    requires quantity <= 0
    ensures CartUpdate(cart, id, quantity) == CartRemove(cart, id)
    ensures !HasLine(CartUpdate(cart, id, quantity), id)
  {
    RemoveLine(cart, id);
  }

  /**
   * updateQuantity with a positive quantity sets that id's units to it, with no upper
   * bound, and leaves the ids, their order and every other line as they were; for an
   * absent id the cart is unchanged.
   */
  lemma UpdatePositiveSets(cart: seq<LineItem>, id: int, quantity: int)
    requires CartInvariant(cart) && quantity > 0
    ensures var r := CartUpdate(cart, id, quantity);
      && CartInvariant(r)
      && |r| == |cart| && Ids(r) == Ids(cart)
      && (forall j :: 0 <= j < |cart| && cart[j].product.id != id ==> r[j] == cart[j])
      && (HasLine(cart, id) ==> QuantityOf(r, id) == quantity)
      && (!HasLine(cart, id) ==> r == cart)
  {
    var r := CartUpdate(cart, id, quantity);
    if HasLine(cart, id) {
      var i :| 0 <= i < |cart| && Ids(cart)[i] == id;
      assert r[i].product.id == id;
      UniqueLineFolds(r, i);
    } else {
      forall j | 0 <= j < |cart| ensures r[j] == cart[j] {
        assert Ids(cart)[j] == cart[j].product.id;
      }
    }
  }

  // ---------------------------------------------------------------------------
  // Properties of the wishlist actions

  /** Adding to the wishlist is idempotent, keeps ids unique and makes the id a member. */
  lemma WishlistAddProperties(wishlist: seq<Product>, p: Product)
    ensures WishlistAdd(WishlistAdd(wishlist, p), p) == WishlistAdd(wishlist, p)
    ensures HasId(WishlistAdd(wishlist, p), p.id)
    ensures DistinctIds(wishlist) ==> DistinctIds(WishlistAdd(wishlist, p))
    ensures HasId(wishlist, p.id) ==> WishlistAdd(wishlist, p) == wishlist
  {
    var w := WishlistAdd(wishlist, p);
    if !HasId(wishlist, p.id) {
      assert w[|wishlist|].id == p.id;
    }
  }

  /**
   * isInWishlist answers true right after addToWishlist of that product and false
   * right after removeFromWishlist of that id; neither action changes the answer
   * for any other id.
   */
  lemma WishlistMembership(wishlist: seq<Product>, p: Product, id: int, k: int)
    ensures HasId(WishlistAdd(wishlist, p), p.id)
    ensures k != p.id ==> (HasId(WishlistAdd(wishlist, p), k) <==> HasId(wishlist, k))
    ensures !HasId(WithoutId(wishlist, id), id)
    ensures k != id ==> (HasId(WithoutId(wishlist, id), k) <==> HasId(wishlist, k))
  {
    WishlistAddProperties(wishlist, p);
    WithoutIdMembers(wishlist, id);
    if !HasId(wishlist, p.id) {
      var w := wishlist + [p];
      if k != p.id && HasId(w, k) {
        var i :| 0 <= i < |w| && w[i].id == k;
        assert i < |wishlist| && wishlist[i].id == k;
      }
      if HasId(wishlist, k) {
        var i :| 0 <= i < |wishlist| && wishlist[i].id == k;
        assert w[i].id == k;
      }
    }
  }

  // ---------------------------------------------------------------------------
  // The store object

  class Store {
    var cart: seq<LineItem>
    var wishlist: seq<Product>

    ghost predicate Valid()
      reads this
    {
      CartInvariant(cart) && DistinctIds(wishlist)
    }

    /** A fresh store starts with an empty cart and an empty wishlist. */
    constructor ()
      ensures Valid() && cart == [] && wishlist == []
    {
      cart := [];
      wishlist := [];
    }

    method AddToCart(product: Product)
      requires Valid()
      modifies this
      ensures Valid()
      ensures cart == CartAdd(old(cart), product) && wishlist == old(wishlist)
    {
      AddKeepsInvariant(cart, product);
      if HasLine(cart, product.id) {
        cart := Incremented(cart, product.id);
      } else {
        cart := cart + [LineItem(product, 1)];
      }
    }

    method RemoveFromCart(id: int)
      requires Valid()
      modifies this
      ensures Valid()
      ensures cart == CartRemove(old(cart), id) && wishlist == old(wishlist)
    {
      RemoveKeepsInvariant(cart, id);
      cart := Filter(cart, (l: LineItem) => l.product.id != id);
    }

    method UpdateQuantity(id: int, quantity: int)
      requires Valid()
      modifies this
      ensures Valid()
      ensures cart == CartUpdate(old(cart), id, quantity) && wishlist == old(wishlist)
    {
      if quantity <= 0 {
        RemoveFromCart(id);
        return;
      }
      UpdatePositiveSets(cart, id, quantity);
      cart := WithQuantity(cart, id, quantity);
    }

    /** clearCart empties the cart and leaves the wishlist alone. */
    method ClearCart()
      requires Valid()
      modifies this
      ensures Valid()
      ensures cart == [] && wishlist == old(wishlist)
    {
      cart := [];
    }

    method AddToWishlist(product: Product)
      requires Valid()
      modifies this
      ensures Valid()
      ensures wishlist == WishlistAdd(old(wishlist), product) && cart == old(cart)
      ensures IsInWishlist(product.id)
      ensures forall k :: k != product.id ==> (IsInWishlist(k) <==> old(IsInWishlist(k)))
    {
      WishlistAddProperties(wishlist, product);
      forall k ensures k != product.id ==> (HasId(WishlistAdd(wishlist, product), k) <==> HasId(wishlist, k)) {
        WishlistMembership(wishlist, product, product.id, k);
      }
      if !HasId(wishlist, product.id) {
        wishlist := wishlist + [product];
      }
    }

    method RemoveFromWishlist(id: int)
      requires Valid()
      modifies this
      ensures Valid()
      ensures wishlist == WithoutId(old(wishlist), id) && cart == old(cart)
      ensures !IsInWishlist(id)
      ensures forall k :: k != id ==> (IsInWishlist(k) <==> old(IsInWishlist(k)))
    {
      WithoutIdProperties(wishlist, id);
      wishlist := Filter(wishlist, (p: Product) => p.id != id);
    }

    /** isInWishlist: some wishlist entry carries the id. */
    function IsInWishlist(id: int): bool
      reads this
    {
      HasId(wishlist, id)
    }

    /** getTotalPrice: 0 on an empty cart and never negative for in-range prices. */
    function GetTotalPrice(): (total: real)
      reads this
      ensures cart == [] ==> total == 0.0
      ensures (forall i :: 0 <= i < |cart| ==> PriceInRange(cart[i])) ==> total >= 0.0
    {
      assert (forall i :: 0 <= i < |cart| ==> PriceInRange(cart[i])) ==> TotalPrice(cart) >= 0.0 by {
        if forall i :: 0 <= i < |cart| ==> PriceInRange(cart[i]) {
          TotalPriceNonNegative(cart);
        }
      }
      TotalPrice(cart)
    }

    /** getTotalItems: 0 on an empty cart and at least one unit per line. */
    function GetTotalItems(): (count: int)
      reads this
      ensures cart == [] ==> count == 0
      ensures Valid() ==> count >= |cart|
    {
      assert Valid() ==> TotalItems(cart) >= |cart| by {
        if Valid() {
          TotalItemsAtLeastLines(cart);
        }
      }
      TotalItems(cart)
    }
  }
}
