/**
 * The floating bottom navigation for small screens (components/ui/FloatingMobileNav.tsx):
 * five links, the active one highlighted, and count badges on the wishlist and the cart.
 */
module MobileNav {
  import opened Optional
  import opened Catalog
  import opened CartWishlist
  import opened Text

  datatype NavItem = NavItem(name: string, href: string, badge: Option<int>)

  /** `count || null`: a zero count gives no badge value at all. */
  function BadgeValue(count: int): Option<int> {
    if count == 0 then None else Some(count)
  }

  /** The cart link's count: the units in the cart, summed over its lines. */
  function CartCount(cart: seq<LineItem>): int {
    TotalItems(cart)
  }

  /** The five links, in display order. */
  function NavItems(cart: seq<LineItem>, wishlist: seq<Product>): (r: seq<NavItem>)
    ensures |r| == 5
  {
    [ NavItem("Home", "/", None),
      NavItem("Shop", "/products", None),
      NavItem("Wishlist", "/wishlist", BadgeValue(|wishlist|)),
      NavItem("Cart", "/cart", BadgeValue(CartCount(cart))),
      NavItem("Account", "/account", None) ]
  }

  /** What a badge shows: the count, or "99+" above 99. */
  datatype BadgeLabel = Count(n: int) | Capped

  /** `item.badge && item.badge > 0 && (item.badge > 99 ? '99+' : item.badge)`. */
  function ShownBadge(badge: Option<int>): (r: Option<BadgeLabel>)
    ensures r.Some? <==> badge.Some? && badge.value > 0
    ensures r == Some(Capped) <==> badge.Some? && badge.value > 99
    ensures r.Some? && r.value.Count? ==> r.value.n == badge.value && 1 <= r.value.n <= 99
  {
    match badge
    case None => None
    case Some(n) => if n != 0 && n > 0 then Some(if n > 99 then Capped else Count(n)) else None
  }

  /** The link is highlighted on its own path, and Shop on every path under /products. */
  predicate IsActive(pathname: string, href: string) {
    pathname == href || (href == "/products" && StartsWith(pathname, "/products"))
  }

  /**
   * For a well-formed cart the cart badge is shown exactly when the cart has a line,
   * reads "99+" exactly above 99 units and otherwise shows the unit count; the
   * wishlist badge is shown exactly when the wishlist has an entry.
   */
  lemma BadgesShowContents(cart: seq<LineItem>, wishlist: seq<Product>)
    requires CartInvariant(cart)
    ensures var items := NavItems(cart, wishlist);
      && (ShownBadge(items[3].badge).Some? <==> |cart| > 0)
      && (ShownBadge(items[3].badge) == Some(Capped) <==> TotalItems(cart) > 99)
      && (TotalItems(cart) <= 99 && |cart| > 0 ==> ShownBadge(items[3].badge) == Some(Count(TotalItems(cart))))
      && (ShownBadge(items[2].badge).Some? <==> |wishlist| > 0)
      && ShownBadge(items[0].badge).None? && ShownBadge(items[1].badge).None?
      && ShownBadge(items[4].badge).None?
  {
    TotalItemsAtLeastLines(cart);
  }

  /** No path highlights two links at once. */
  lemma AtMostOneActive(pathname: string, cart: seq<LineItem>, wishlist: seq<Product>)
    ensures var items := NavItems(cart, wishlist);
      forall i, j :: 0 <= i < j < 5 && IsActive(pathname, items[i].href) ==> !IsActive(pathname, items[j].href)
  {
    var items := NavItems(cart, wishlist);
    if StartsWith(pathname, "/products") {
      assert pathname[1] == 'p';
      assert pathname != "/";
    }
  }
}
