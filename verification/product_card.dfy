/**
 * The product tile (components/product/ProductCard.tsx): its badges, price and
 * saving, the deterministic stock figure, the wishlist heart and the add-to-cart
 * button.
 */
module ProductCard {
  import opened Optional
  import opened Catalog
  import opened CartWishlist
  import JsNumber
  import Compare

  /** `((id * 7 + 13) % 50) + 10`, with JavaScript's remainder. */
  function StockLeft(id: int): int {
    JsNumber.Rem(id * 7 + 13, 50) + 10
  }

  /**
   * The figure lies between 10 and 59 for every id from -1 up (so for every catalogue
   * id); for lower ids the remainder turns negative and it can drop to -39.
   */
  lemma StockLeftRange(id: int)
    ensures -39 <= StockLeft(id) <= 59
    ensures id >= -1 ==> 10 <= StockLeft(id) <= 59
  {
  }

  /** "Only N left" shows for in-stock products whose figure is below 15. */
  predicate ShowsLowStock(p: Product) {
    p.inStock && StockLeft(p.id) < 15
  }

  /** The low-stock notice shows exactly for in-stock products whose remainder is below 5. */
  lemma LowStockShownWhen(p: Product)
    ensures ShowsLowStock(p) <==> p.inStock && JsNumber.Rem(p.id * 7 + 13, 50) < 5
  {
  }

  /** For catalogue ids the low-stock notice shows between 10 and 14 units. */
  lemma LowStockNotice(p: Product)
    requires p.id >= -1
    ensures ShowsLowStock(p) ==> 10 <= StockLeft(p.id) <= 14
  {
  }

  /** The corner badge. */
  datatype Badge = SaleBadge(percent: real) | NewBadge | HotBadge | NoBadge

  /** Discount first, then `id % 3 === 0` (new), then `rating >= 4.7` (hot). */
  function PrimaryBadge(p: Product): (b: Badge)
    ensures b.SaleBadge? <==> OnSale(p)
    ensures b.SaleBadge? ==> b.percent == DiscountPercent(p) && b.percent != 0.0
    ensures b == NewBadge <==> !OnSale(p) && p.id % 3 == 0
    ensures b == HotBadge <==> !OnSale(p) && p.id % 3 != 0 && p.rating >= 4.7
    ensures b == NoBadge <==> !OnSale(p) && p.id % 3 != 0 && p.rating < 4.7
  {
    if OnSale(p) then SaleBadge(p.discount.value)
    else if JsNumber.Rem(p.id, 3) == 0 then NewBadge
    else if p.rating >= 4.7 then HotBadge
    else NoBadge
  }

  /** The "Save $x" figure shown under a discounted price. */
  function Saving(p: Product): real {
    p.price - UnitPrice(p)
  }

  /**
   * The saving is the discount's share of the base price and, for a price and discount
   * in the usual ranges, lies between 0 and the base price.
   */
  lemma SavingIsDiscountShare(p: Product)
    requires OnSale(p)
    ensures Saving(p) == p.price * DiscountPercent(p) / 100.0
    ensures p.price >= 0.0 && 0.0 <= DiscountPercent(p) <= 100.0 ==> 0.0 <= Saving(p) <= p.price
  {
    if p.price >= 0.0 && 0.0 <= DiscountPercent(p) <= 100.0 {
      UnitPriceBounds(p);
    }
  }

  /** `compareProducts.some(p => p.id === product.id)`. */
  predicate InCompare(compare: seq<Product>, id: int) {
    HasId(compare, id)
  }

  /**
   * The compare marker follows the compare store: an add marks the product unless
   * the list was already full without it, a remove or a clear unmarks it.
   */
  lemma CompareMarkerFollowsStore(compare: seq<Product>, p: Product)
    ensures InCompare(Compare.CompareAdd(compare, p), p.id)
        <==> InCompare(compare, p.id) || |compare| < Compare.MaxCompare
    ensures !InCompare(WithoutId(compare, p.id), p.id)
    ensures !InCompare(Compare.Step(compare, Compare.Clear), p.id)
  {
    if |compare| < Compare.MaxCompare && !HasId(compare, p.id) {
      assert Compare.CompareAdd(compare, p)[|compare|] == p;
    }
    WithoutIdProperties(compare, p.id);
  }

  /**
   * The heart's effect on the wishlist. The heart reads the wishlist only after the
   * first render (`hasMounted`); before that it always adds.
   */
  function Toggled(wishlist: seq<Product>, p: Product, mounted: bool): seq<Product> {
    if mounted && HasId(wishlist, p.id) then WithoutId(wishlist, p.id) else WishlistAdd(wishlist, p)
  }

  /**
   * After mounting, the heart flips the product's membership and leaves every other
   * id as it was; before mounting it can only add, so on a product already in the
   * wishlist it does nothing. Ids stay distinct either way.
   */
  lemma ToggleFlipsMembership(wishlist: seq<Product>, p: Product, mounted: bool)
    ensures mounted ==> (HasId(Toggled(wishlist, p, mounted), p.id) <==> !HasId(wishlist, p.id))
    ensures !mounted ==> HasId(Toggled(wishlist, p, mounted), p.id)
    ensures !mounted && HasId(wishlist, p.id) ==> Toggled(wishlist, p, mounted) == wishlist
    ensures forall k :: k != p.id ==> (HasId(Toggled(wishlist, p, mounted), k) <==> HasId(wishlist, k))
    ensures DistinctIds(wishlist) ==> DistinctIds(Toggled(wishlist, p, mounted))
  {
    WithoutIdProperties(wishlist, p.id);
    WishlistAddProperties(wishlist, p);
    var w := WishlistAdd(wishlist, p);
    forall k | k != p.id && HasId(w, k) ensures HasId(wishlist, k) {
      var i :| 0 <= i < |w| && w[i].id == k;
      assert i < |wishlist|;
      assert wishlist[i].id == k;
    }
    forall k | HasId(wishlist, k) ensures HasId(w, k) {
      var i :| 0 <= i < |wishlist| && wishlist[i].id == k;
      assert w[i].id == k;
    }
  }

  class Card {
    const product: Product
    const store: Store
    var hasMounted: bool
    var isAddingToCart: bool
    var showAddedAnimation: bool

    constructor (product: Product, store: Store)
      ensures this.product == product && this.store == store
      ensures !hasMounted && !isAddingToCart && !showAddedAnimation
    {
      this.product := product;
      this.store := store;
      hasMounted, isAddingToCart, showAddedAnimation := false, false, false;
    }

    /** `hasMounted && isInWishlist(product.id)`. */
    function InWishlist(): (b: bool)
      reads this, store
      ensures b <==> hasMounted && HasId(store.wishlist, product.id)
    {
      hasMounted && store.IsInWishlist(product.id)
    }

    /** The effect that runs after the first render. */
    method Mount()
      modifies this
      ensures hasMounted
      ensures isAddingToCart == old(isAddingToCart) && showAddedAnimation == old(showAddedAnimation)
    {
      hasMounted := true;
    }

    /** handleToggleWishlist. */
    method ToggleWishlist()
      requires store.Valid()
      modifies store
      ensures store.Valid()
      ensures store.wishlist == Toggled(old(store.wishlist), product, hasMounted)
      ensures store.cart == old(store.cart)
    {
      if InWishlist() {
        store.RemoveFromWishlist(product.id);
      } else {
        store.AddToWishlist(product);
      }
    }

    /**
     * A tap on the add-to-cart button, which is rendered only for products in stock
     * and disabled while an add is running: the spinner shows for 300 ms first.
     */
    method StartAddToCart()
      requires product.inStock && !isAddingToCart
      modifies this
      ensures isAddingToCart && hasMounted == old(hasMounted) && showAddedAnimation == old(showAddedAnimation)
    {
      isAddingToCart := true;
    }

    /** After the delay: one unit goes into the cart and the check mark shows. */
    method FinishAddToCart()
      requires store.Valid() && isAddingToCart
      modifies this, store
      ensures store.Valid()
      ensures store.cart == CartAdd(old(store.cart), product) && store.wishlist == old(store.wishlist)
      ensures !isAddingToCart && showAddedAnimation && hasMounted == old(hasMounted)
    {
      store.AddToCart(product);
      isAddingToCart := false;
      showAddedAnimation := true;
    }

    /** The 2-second timer that hides the check mark. */
    method HideAddedAnimation()
      modifies this
      ensures !showAddedAnimation && isAddingToCart == old(isAddingToCart) && hasMounted == old(hasMounted)
    {
      showAddedAnimation := false;
    }
  }
}
