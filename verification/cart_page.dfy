/**
 * The cart page (app/cart/page.tsx): which controls each line offers and what they do
 * to the store. The summary figures it shows are in module OrderSummary.
 */
module CartPage {
  import opened Catalog
  import opened CartWishlist

  /** The page renders its empty state instead of the list when the cart has no line. */
  predicate ShowsEmptyState(cart: seq<LineItem>) {
    |cart| == 0
  }

  /** The minus button is disabled when `quantity <= 1`. */
  predicate DecrementEnabled(l: LineItem) {
    !(l.quantity <= 1)
  }

  /** What a user can do on the page, by line position. */
  datatype CartPageAction = Decrement(line: nat) | Increment(line: nat) | Remove(line: nat) | ClearAll

  /** An action is offered: its line is displayed, and a decrement only when enabled. */
  predicate Offered(cart: seq<LineItem>, a: CartPageAction) {
    match a
    case Decrement(i) => i < |cart| && DecrementEnabled(cart[i])
    case Increment(i) => i < |cart|
    case Remove(i) => i < |cart|
    case ClearAll => true
  }

  /** The store action each control calls. */
  function Apply(cart: seq<LineItem>, a: CartPageAction): seq<LineItem>
    requires Offered(cart, a)
  {
    match a
    case Decrement(i) => CartUpdate(cart, cart[i].product.id, cart[i].quantity - 1)
    case Increment(i) => CartUpdate(cart, cart[i].product.id, cart[i].quantity + 1)
    case Remove(i) => CartRemove(cart, cart[i].product.id)
    case ClearAll => []
  }

  /**
   * Every offered control keeps the cart well formed. The plus and minus buttons never
   * add or drop a line: they move that line's quantity by exactly one and it stays at
   * least 1. Only the remove and clear controls take lines away.
   */
  lemma OfferedActionKeepsInvariant(cart: seq<LineItem>, a: CartPageAction)
    requires CartInvariant(cart) && Offered(cart, a)
    ensures CartInvariant(Apply(cart, a))
    ensures (a.Decrement? || a.Increment?) ==> Ids(Apply(cart, a)) == Ids(cart)
    ensures a.Decrement? ==>
      QuantityOf(Apply(cart, a), cart[a.line].product.id) == cart[a.line].quantity - 1 >= 1
    ensures a.Increment? ==>
      QuantityOf(Apply(cart, a), cart[a.line].product.id) == cart[a.line].quantity + 1
    ensures a.Remove? ==> !HasLine(Apply(cart, a), cart[a.line].product.id)
    ensures |Apply(cart, a)| <= |cart|
  {
    match a
    case Decrement(i) =>
      assert Ids(cart)[i] == cart[i].product.id;
      UpdatePositiveSets(cart, cart[i].product.id, cart[i].quantity - 1);
    case Increment(i) =>
      assert Ids(cart)[i] == cart[i].product.id;
      UpdatePositiveSets(cart, cart[i].product.id, cart[i].quantity + 1);
    case Remove(i) =>
      RemoveKeepsInvariant(cart, cart[i].product.id);
      RemoveLine(cart, cart[i].product.id);
    case ClearAll =>
  }

  /** The page's handlers, which call the store's actions. */
  method HandleAction(store: Store, a: CartPageAction)
    requires store.Valid() && Offered(store.cart, a)
    modifies store
    ensures store.Valid()
    ensures store.cart == Apply(old(store.cart), a) && store.wishlist == old(store.wishlist)
  {
    match a
    case Decrement(i) =>
      store.UpdateQuantity(store.cart[i].product.id, store.cart[i].quantity - 1);
    case Increment(i) =>
      store.UpdateQuantity(store.cart[i].product.id, store.cart[i].quantity + 1);
    case Remove(i) =>
      store.RemoveFromCart(store.cart[i].product.id);
    case ClearAll =>
      store.ClearCart();
  }
}
