# Storefront state and pricing rules

This project models, in Dafny, the in-memory logic of a small Next.js storefront:

- The **cart/wishlist store**:
  - a cart of line items, at most one per product id;
  - a wishlist without duplicate ids;
  - add, remove, set-quantity and clear actions;
  - the item count and the discounted total.
- The **compare store**: at most four products, no duplicates.
- The **recently-viewed store**: most recent first, at most ten.
- The **order summary** on the cart and checkout pages: shipping, tax, final total, and the free-shipping banner and progress bar.
- The **catalogue listings**:
  - the products page's filters, sort and active-filter count;
  - the two search boxes;
  - the home page's product sections and testimonial slider.
- The small rules of the **components**:
  - the product card's stock figure, badge and wishlist toggle;
  - the quantity, size and colour selectors;
  - the price-range slider;
  - the loyalty tiers;
  - the countdown split;
  - the review helpful toggle and star rows;
  - the mobile navigation badges and active link;
  - the wishlist page's "add all to cart" loop.

Each store and each stateful component appears twice. A pure function gives the new state from the old one (`CartAdd`, `CompareAdd`, `Viewed`, `Searched`, …), and lemmas state what that function guarantees. A `class` holds the fields the source updates in place, and each of its methods is proved to produce exactly what the function gives and to keep the class invariant (`Valid()`).

Prices are exact reals, so no rounding occurs. A product's `discount` is `Option<real>`, where a discount is in effect when it is present and non-zero, as JavaScript's truthiness has it. The JavaScript `%` operator truncates toward zero and is written out as `JsNumber.Rem`. Case mapping is ASCII only.

Modules, one per file:

- `Optional`, `JsNumber`, `Seqs`, `Text`: shared helpers.
- `Catalog`: the product record and its discounted unit price.
- `CartWishlist`, `Compare`, `RecentlyViewed`, with the shared move-to-front list `Recency`: the three stores.
- `OrderSummary`, `CartPage`, `CheckoutPage`, `WishlistPage`, `ProductsPage` with `ProductSort`, `HomePage`, `MobileSearch`, `DesktopSearch`: the pages and search boxes.
- `ProductCard`, `ProductSelectors`, `PriceSlider`, `Loyalty`, `Countdown`, `ProductReviews`, `MobileNav`: the components.

## Model

| member | source | states |
|---|---|---|
| JsNumber.Rem | components/product/ProductCard.tsx:43 | JavaScript's remainder: the dividend minus the truncated quotient's multiple of the divisor, smaller in magnitude than the divisor, with the sign of the dividend |
| Text.ToLower | components/search/SearchModal.tsx:23 | same length, every upper-case letter replaced by its own lower-case letter, no upper-case letter left, every other character unchanged |
| Text.ToUpper | components/product/ProductSelectors.tsx:39 | same length, every lower-case letter replaced by its own upper-case letter, no lower-case letter left, every other character unchanged |
| Text.TrimStart | components/search/MobileSearchModal.tsx:33 | a suffix of the input; everything removed before it is white space, and it does not start with white space |
| Text.TrimEnd | components/search/MobileSearchModal.tsx:33 | a prefix of the input; everything removed after it is white space, and it does not end with white space |
| Text.TrimEmptyIffBlank | components/search/MobileSearchModal.tsx:33 | `trim()` gives the empty string exactly when the string is all white space |
| Catalog.UnitPriceBounds | store/useStore.ts:100-102 | for a non-negative price and a discount in [0,100] the unit price lies between 0 and the list price; a positive discount strictly lowers a positive price, and a 100% discount makes it 0 |
| Catalog.WithoutIdProperties | store/useStore.ts:90-92 | filtering an id out removes it, keeps every other id's membership and the order, keeps ids distinct, and is a no-op for an absent id |
| CartWishlist.FoldsAppend | store/useStore.ts:98-109 | appending a line adds its quantity to the item count and its unit price × quantity to the total price |
| CartWishlist.IncrementedFolds | store/useStore.ts:49-56 | bumping the lines of an id adds one unit per such line and that line's unit price to the totals, and adds 1 only to that id's quantity |
| CartWishlist.RemoveFolds | store/useStore.ts:62-64 | removing an id subtracts exactly that id's units and amount from the totals |
| CartWishlist.TotalItemsAtLeastLines | store/useStore.ts:107-109 | a well-formed cart holds at least as many units as lines |
| CartWishlist.TotalPriceNonNegative | store/useStore.ts:98-105 | with prices ≥ 0 and discounts in [0,100] the total price is never negative |
| CartWishlist.AddExistingProduct | store/useStore.ts:45-56 | adding a product already in the cart raises that line's quantity by 1 and leaves the line count, the ids and every other line unchanged; the totals grow by one unit and one unit price |
| CartWishlist.AddNewProduct | store/useStore.ts:57-59 | adding a product not in the cart appends one line with quantity 1 at the end and grows the totals by one unit and its unit price; the stock flag is not consulted |
| CartWishlist.AddKeepsInvariant | store/useStore.ts:45-59 | adding keeps one line per id with positive quantities, puts the id in the cart and adds exactly 1 to its quantity and to the item count |
| CartWishlist.RemoveLine | store/useStore.ts:62-64 | after removal the id has no line, the other lines remain in order, an absent id changes nothing, and the totals drop by that id's share |
| CartWishlist.RemoveKeepsInvariant | store/useStore.ts:62-64 | removal keeps one line per id with positive quantities |
| CartWishlist.UpdateNonPositiveRemoves | store/useStore.ts:66-70 | setting a quantity ≤ 0 is exactly removing the line |
| CartWishlist.UpdatePositiveSets | store/useStore.ts:72-76 | setting a positive quantity changes only that line, to exactly that quantity (no upper bound), keeps the ids, and leaves the cart alone for an absent id |
| CartWishlist.WishlistAddProperties | store/useStore.ts:83-88 | adding to the wishlist is idempotent, makes the id present, keeps ids distinct and is a no-op when the id is present |
| CartWishlist.Store.constructor | store/useStore.ts:42-43 | a new store has an empty cart and wishlist |
| CartWishlist.Store.AddToCart | store/useStore.ts:45-60 | the cart becomes `CartAdd(old cart, product)`, the invariant holds, and the wishlist is untouched |
| CartWishlist.Store.RemoveFromCart | store/useStore.ts:62-64 | the cart becomes `CartRemove(old cart, id)`, and the wishlist is untouched |
| CartWishlist.Store.UpdateQuantity | store/useStore.ts:66-77 | the cart becomes `CartUpdate(old cart, id, quantity)`, the invariant holds, and the wishlist is untouched |
| CartWishlist.Store.ClearCart | store/useStore.ts:79-81 | the cart is empty and the wishlist is untouched |
| CartWishlist.Store.AddToWishlist | store/useStore.ts:83-88 | the wishlist becomes `WishlistAdd(old wishlist, product)` and stays duplicate-free; `IsInWishlist` is then true for the product and unchanged for every other id; the cart is untouched |
| CartWishlist.Store.RemoveFromWishlist | store/useStore.ts:90-92 | the wishlist loses that id and keeps the rest in order; `IsInWishlist` is then false for the id and unchanged for every other id; the cart is untouched |
| CartWishlist.WishlistMembership | store/useStore.ts:94-96 | membership is true right after adding a product and false right after removing its id; neither action changes the membership of any other id |
| CartWishlist.Store.GetTotalPrice | store/useStore.ts:98-105 | 0 for an empty cart, never negative for in-range prices and discounts |
| CartWishlist.Store.GetTotalItems | store/useStore.ts:107-109 | 0 for an empty cart, at least the number of lines for a valid store |
| Recency.TouchProperties | store/useRecentlyViewedStore.ts:19-21 | move-to-front: the new entry is first, its key occurs nowhere else, the rest is the old list without that key in its old order, cut to cap − 1 |
| Recency.TouchKeepsDistinct | store/useRecentlyViewedStore.ts:19-21 | a list with distinct keys keeps distinct keys |
| Recency.TouchIdempotent | store/useRecentlyViewedStore.ts:16-22 | touching the same entry twice in a row equals touching it once |
| Compare.CompareAddProperties | store/useCompareStore.ts:17-25 | a full list (≥ 4) or a present id leaves the list unchanged; otherwise the product is appended after the unchanged earlier entries; the invariant is kept |
| Compare.StepKeepsInvariant | store/useCompareStore.ts:17-33 | add, remove and clear each keep "at most 4 entries, distinct ids" |
| Compare.RunKeepsInvariant | store/useCompareStore.ts:17-33 | any sequence of compare actions from a valid list keeps it valid |
| Compare.CompareStore.constructor | store/useCompareStore.ts:15 | the compare list starts empty |
| Compare.CompareStore.AddToCompare | store/useCompareStore.ts:17-25 | the list becomes `CompareAdd(old list, product)` and stays valid |
| Compare.CompareStore.RemoveFromCompare | store/useCompareStore.ts:27-29 | the entry with that id is dropped, the rest keep their order, and the list stays valid |
| Compare.CompareStore.ClearCompare | store/useCompareStore.ts:31-33 | the list is empty |
| RecentlyViewed.ViewedProperties | store/useRecentlyViewedStore.ts:16-22 | the viewed product is first and its id occurs once; at most 10 entries; the rest is the old list without it, in order, cut to 9; ids stay distinct; viewing twice equals viewing once |
| RecentlyViewed.RecentlyViewedStore.constructor | store/useRecentlyViewedStore.ts:14 | the list starts empty |
| RecentlyViewed.RecentlyViewedStore.AddToRecentlyViewed | store/useRecentlyViewedStore.ts:16-22 | the list becomes `Viewed(old list, product)`, headed by the product, and stays valid |
| RecentlyViewed.RecentlyViewedStore.ClearRecentlyViewed | store/useRecentlyViewedStore.ts:25-27 | the list is empty |
| OrderSummary.AdvertisedTopUpStillPaysShipping | app/cart/page.tsx:18 | with the rule as written, topping a banner-showing subtotal up by the advertised amount still pays 10; at exactly 50 the banner is gone and shipping is 10 |
| OrderSummary.ShippingRulesCompared | app/cart/page.tsx:18 | the written (`> 50`) and intended (`>= 50`) shipping rules disagree only at a subtotal of exactly 50, where the written final total is 10 higher; under either rule a larger subtotal never pays more shipping |
| OrderSummary.TopUpEarnsFreeShipping | app/cart/page.tsx:95-104 | with the intended rule, shipping is charged exactly when the banner shows, adding the advertised amount earns free shipping, and the total is subtotal × 1.1 from 50 on and subtotal × 1.1 + 10 below |
| OrderSummary.FinalTotalBreakdown | app/checkout/page.tsx:34-37 | the final total as the pages compute it is subtotal × 1.1 above 50 and subtotal × 1.1 + 10 at 50 and below (65 at exactly 50), never less than the subtotal |
| OrderSummary.FreeShippingProgress | app/cart/page.tsx:21 | the progress is at most 100, non-negative for a non-negative subtotal, exactly 100 from 50 on, and twice the subtotal below |
| OrderSummary.AmountToFreeShipping | app/cart/page.tsx:104 | the amount asked for is positive whenever the banner shows and brings the subtotal to exactly 50 |
| OrderSummary.DisplayedLineAmounts | app/checkout/page.tsx:386-399 | one amount per cart line |
| OrderSummary.LineAmountsSumToTotal | app/checkout/page.tsx:386-399 | the per-line amounts shown in the summary add up to the store's total price |
| CartPage.OfferedActionKeepsInvariant | app/cart/page.tsx:180-191 | every control the page offers keeps the cart well formed; minus and plus move a quantity by one and never below 1; remove drops the id; no control adds a line |
| CartPage.HandleAction | app/cart/page.tsx:23-31 | each control calls the matching store action: the cart becomes `Apply(old cart, action)` and the wishlist is untouched |
| CheckoutPage.EmptyForm | app/checkout/page.tsx:17-30 | the initial form has exactly the twelve fields, all empty, so it cannot be submitted |
| CheckoutPage.Checkout.constructor | app/checkout/page.tsx:17-32 | the page starts with the empty form and not processing |
| CheckoutPage.Checkout.HandleChange | app/checkout/page.tsx:39-44 | only the named field changes, to the typed value |
| CheckoutPage.Checkout.Submit | app/checkout/page.tsx:46-48 | processing starts when every required field is filled and, once started, stays on |
| CheckoutPage.Checkout.CompletePayment | app/checkout/page.tsx:51-56 | processing ends, the cart is empty, the wishlist is untouched, and the form gives way to the empty-cart notice |
| WishlistPage.HandleAddAllToCart | app/wishlist/page.tsx:15-18 | the loop calls add-to-cart once per wishlist entry in order: the cart becomes `AddedAll(old cart, wishlist)`, and the wishlist is untouched |
| WishlistPage.AddAllCounts | app/wishlist/page.tsx:15-17 | the cart stays well formed, its item count grows by the wishlist length, and each id's quantity grows by its number of entries |
| WishlistPage.AddAllContains | app/wishlist/page.tsx:16 | every wishlist entry has a cart line afterwards, in stock or not |
| WishlistPage.AddAllKeepsOtherLines | app/wishlist/page.tsx:15-18 | existing lines keep their positions and ids, and lines for ids not on the wishlist are unchanged |
| WishlistPage.AddAllFreshAppends | app/wishlist/page.tsx:16 | distinct entries not yet in the cart are appended with quantity 1 in wishlist order |
| MobileNav.NavItems | components/ui/FloatingMobileNav.tsx:17-51 | five links |
| MobileNav.ShownBadge | components/ui/FloatingMobileNav.tsx:97-111 | a badge is shown exactly for a positive value, as "99+" exactly above 99, otherwise as the value |
| MobileNav.BadgesShowContents | components/ui/FloatingMobileNav.tsx:14-15 | the cart badge shows exactly when the cart has a line, shows the unit count (capped above 99), and the wishlist badge shows exactly when the wishlist has an entry |
| MobileNav.AtMostOneActive | components/ui/FloatingMobileNav.tsx:67-68 | no path highlights two links |
| ProductSort.NameLeTotal | app/products/page.tsx:54 | the name order compares any two names |
| ProductSort.NameLeTransitive | app/products/page.tsx:54 | the name order is transitive |
| ProductSort.PrecedesIsTotalPreorder | app/products/page.tsx:50-58 | every sort key's comparison is total and transitive |
| ProductSort.SortPermutes | app/products/page.tsx:50 | sorting rearranges the list without adding or losing products |
| ProductSort.SortSorted | app/products/page.tsx:50-58 | the sorted list is ordered by the key |
| ProductSort.FeaturedKeepsOrder | app/products/page.tsx:56 | "featured" and unknown keys leave the order as it is |
| ProductSort.SortByKey | app/products/page.tsx:50-58 | price-low ascending, price-high descending, rating descending, name in name order, others unchanged, always a rearrangement |
| ProductsPage.FilterRules | app/products/page.tsx:38-47 | as written, a product is listed exactly when it passes the quick filter, category, inclusive price range and sale toggle, in catalogue order |
| ProductsPage.InStockOnlyIgnored | app/products/page.tsx:38-47 | as written, the "in stock only" toggle does not change the list, so an out-of-stock product stays listed |
| ProductsPage.ListedRespectsStockToggle | app/products/page.tsx:19 | with the toggle applied, "in stock only" lists only in-stock products and every accepted one; with it off, the list is the one written |
| ProductsPage.VisibleIsSortedListing | app/products/page.tsx:38-58 | the grid shows each product the written filter accepts once, ordered by the sort key, in catalogue order for "featured", and the same whether or not "in stock only" is ticked |
| ProductsPage.ActiveFiltersCount | app/products/page.tsx:60-65 | at most 4, and 0 exactly with category "All", upper bound 2000 and both toggles off |
| ProductsPage.ResetClearsFilters | app/products/page.tsx:30-35 | reset gives a zero count, keeps the quick filter, is idempotent, and afterwards a product is listed exactly when the quick filter accepts it and its price is from 0 to 2000 |
| ProductsPage.CategoriesListEachOnce | app/products/page.tsx:22 | "All" first, then every catalogue category exactly once and nothing else |
| ProductsPage.CategoriesFollowFirstAppearance | app/products/page.tsx:22 | the categories are listed in the order of their first appearance in the catalogue: before any occurrence of a later-listed category, an earlier-listed one has occurred |
| ProductsPage.Page.constructor | app/products/page.tsx:13-20 | the page starts with the initial filters, "featured", filters hidden, not loading |
| ProductsPage.Page.HandleQuickFilter | app/products/page.tsx:24-28 | the quick filter changes and loading starts; nothing else changes |
| ProductsPage.Page.FinishLoading | app/products/page.tsx:27 | loading ends; nothing else changes |
| ProductsPage.Page.ResetFilters | app/products/page.tsx:30-35 | the filters become `Reset(old filters)` and count zero; sort, loading and panel untouched |
| ProductsPage.Page.SelectCategory | app/products/page.tsx:242 | only the category changes |
| ProductsPage.Page.SetMaxPrice | app/products/page.tsx:277-284 | only the upper price bound changes |
| ProductsPage.Page.SetInStockOnly | app/products/page.tsx:317 | only the stock toggle changes |
| ProductsPage.Page.SetOnSaleOnly | app/products/page.tsx:341 | only the sale toggle changes |
| ProductsPage.Page.SetSortBy | app/products/page.tsx:161 | only the sort key changes |
| ProductsPage.Page.View | app/products/page.tsx:376-384 | a skeleton exactly while loading, the "no results" view exactly when the written filter accepts nothing, otherwise a non-empty grid holding the accepted products |
| HomePage.SlideNavigation | app/page.tsx:44-50 | next and previous stay in [0,n), wrap at the ends, and undo each other |
| HomePage.Slider.constructor | app/page.tsx:40-41 | the slider starts on slide 0 with auto-play on |
| HomePage.Slider.NextSlide | app/page.tsx:44-46 | the slide moves to the next index, auto-play unchanged |
| HomePage.Slider.PrevSlide | app/page.tsx:48-50 | the slide moves to the previous index, auto-play unchanged |
| HomePage.Slider.GoToSlide | app/page.tsx:52-57 | the slide becomes the chosen one and auto-play stops |
| HomePage.Slider.PrevArrow | app/page.tsx:521-526 | previous slide, auto-play stopped |
| HomePage.Slider.NextArrow | app/page.tsx:532-537 | next slide, auto-play stopped |
| HomePage.Slider.ResumeAutoPlay | app/page.tsx:56 | auto-play back on, slide unchanged |
| HomePage.Slider.ToggleAutoPlay | app/page.tsx:632 | auto-play flipped, slide unchanged |
| HomePage.Slider.AutoPlayTick | app/page.tsx:60-64 | while auto-playing, each interval advances one slide |
| HomePage.HomeSelections | app/page.tsx:66-68 | featured is the first min(n, 8) products; flash sale and trending are exactly the first min(m, 4) of the m products with discount ≥ 15 or rating ≥ 4.5, in catalogue order; flash sale is non-empty exactly when some product qualifies |
| HomePage.RecentSection | app/page.tsx:471-481 | the recent section shows exactly for a non-empty list and holds its first min(n, 5) entries |
| MobileSearch.ResultsProperties | components/search/MobileSearchModal.tsx:32-44 | a blank query finds nothing; otherwise the results are exactly the first min(m, 8) of the m products matching name, category or a tag ignoring case, in catalogue order |
| MobileSearch.SearchedProperties | components/search/MobileSearchModal.tsx:46-52 | a blank query leaves recent searches unchanged; otherwise it goes first, occurs once, the older ones follow in order without it, at most 5, and repeating it changes nothing |
| MobileSearch.SearchedKeepsWellFormed | components/search/MobileSearchModal.tsx:48 | recent searches stay free of repeats and blanks |
| MobileSearch.SearchSheet.constructor | components/search/MobileSearchModal.tsx:11-15 | closed, empty query, no recent searches |
| MobileSearch.SearchSheet.Open | components/search/MobileSearchModal.tsx:72 | the sheet opens; query and recent searches untouched |
| MobileSearch.SearchSheet.Close | components/search/MobileSearchModal.tsx:87 | the sheet closes; query and recent searches untouched |
| MobileSearch.SearchSheet.SetQuery | components/search/MobileSearchModal.tsx:130 | only the query changes |
| MobileSearch.SearchSheet.HandleSearch | components/search/MobileSearchModal.tsx:46-52 | recent searches become `Searched(old list, query)`, well formed |
| MobileSearch.SearchSheet.SubmitQuery | components/search/MobileSearchModal.tsx:117-120 | Enter records the current query |
| MobileSearch.SearchSheet.FollowResult | components/search/MobileSearchModal.tsx:152-155 | following a result records the query and closes the sheet |
| MobileSearch.SearchSheet.PickSuggestion | components/search/MobileSearchModal.tsx:219-222 | a chip becomes the query and is recorded |
| MobileSearch.SearchSheet.ClearRecentSearches | components/search/MobileSearchModal.tsx:54-57 | recent searches are empty; query and sheet untouched |
| DesktopSearch.ResultsProperties | components/search/SearchModal.tsx:20-31 | only the empty query finds nothing (white space is searched); otherwise the results are exactly the first min(m, 5) of the m products matching name, category or description ignoring case, in catalogue order |
| DesktopSearch.NameMatchIgnoresCase | components/search/SearchModal.tsx:22-26 | a name match ignoring case is found, whatever the case of the query |
| ProductCard.StockLeftRange | components/product/ProductCard.tsx:43 | the stock figure lies in [10,59] for ids ≥ −1 and in [−39,59] for any id |
| ProductCard.LowStockShownWhen | components/product/ProductCard.tsx:389-393 | for every id, the notice shows exactly for in-stock products whose remainder is below 5 |
| ProductCard.LowStockNotice | components/product/ProductCard.tsx:389-393 | for catalogue ids (≥ −1) a shown notice names 10 to 14 units |
| ProductCard.PrimaryBadge | components/product/ProductCard.tsx:176-204 | the sale badge exactly when discounted, else NEW exactly for ids divisible by 3, else HOT exactly for rating ≥ 4.7, else none |
| ProductCard.SavingIsDiscountShare | components/product/ProductCard.tsx:378 | the saving shown is price × discount / 100, within [0, price] for in-range values |
| ProductCard.ToggleFlipsMembership | components/product/ProductCard.tsx:80-90 | once mounted, the toggle flips the product's wishlist membership and keeps every other id's; before mount it only adds |
| ProductCard.CompareMarkerFollowsStore | components/product/ProductCard.tsx:40 | the compare marker holds exactly when the compare store has the id: an add sets it unless the list was full without it, and a remove or a clear unsets it |
| ProductCard.Card.constructor | components/product/ProductCard.tsx:25-37 | not mounted, not adding, no animation |
| ProductCard.Card.InWishlist | components/product/ProductCard.tsx:39 | true exactly when mounted and the wishlist has the id |
| ProductCard.Card.Mount | components/product/ProductCard.tsx:35-37 | the card is mounted |
| ProductCard.Card.ToggleWishlist | components/product/ProductCard.tsx:80-90 | the wishlist becomes `Toggled(old wishlist, product, mounted)`, the cart is untouched |
| ProductCard.Card.StartAddToCart | components/product/ProductCard.tsx:58-67 | offered only for in-stock products: adding starts |
| ProductCard.Card.FinishAddToCart | components/product/ProductCard.tsx:70-73 | the cart becomes `CartAdd(old cart, product)`, adding ends, the animation shows |
| ProductCard.Card.HideAddedAnimation | components/product/ProductCard.tsx:77 | the animation is hidden |
| ProductSelectors.ColorName | components/product/ProductSelectors.tsx:15-40 | the table's name for the upper-cased hex, "Custom" when absent |
| ProductSelectors.ColorNameIgnoresCase | components/product/ProductSelectors.tsx:39 | the name does not depend on the case of the hex code; light swatches all have names |
| ProductSelectors.NamedExample | components/product/ProductSelectors.tsx:15-40 | "#ffd700" is Gold, "#123456" is Custom |
| ProductSelectors.SizeClicksAvoidOutOfStock | components/product/ProductSelectors.tsx:105-112 | starting from an in-stock selection, no run of clicks selects an out-of-stock size: the selection is the last clicked in-stock size, or the starting one when every click hit an out-of-stock size |
| ProductSelectors.Decrease | components/product/ProductSelectors.tsx:141-145 | emits quantity − 1 exactly when quantity > min, never below min |
| ProductSelectors.Increase | components/product/ProductSelectors.tsx:147-151 | emits quantity + 1 exactly when quantity < max, never above max |
| ProductSelectors.TapsStayInRange | components/product/ProductSelectors.tsx:140-151 | any sequence of taps from an in-range quantity stays in [min,max] |
| ProductSelectors.StepsUndo | components/product/ProductSelectors.tsx:140-151 | a plus then a minus (or the reverse) returns to the start |
| PriceSlider.MinChange | components/filters/PriceSlider.tsx:13-18 | a range the minimum thumb reports always has its low end strictly below its high end |
| PriceSlider.MaxChange | components/filters/PriceSlider.tsx:20-25 | a range the maximum thumb reports always has its low end strictly below its high end |
| PriceSlider.ReportedRangesOrdered | components/filters/PriceSlider.tsx:13-25 | every emitted range has lower < upper; a drag moves only the dragged thumb, exactly to the drop point, and a drag that would make the thumbs meet or cross leaves the range unchanged |
| PriceSlider.DragsKeepOrder | components/filters/PriceSlider.tsx:13-25 | any sequence of drags within the track keeps an ordered range within the track |
| PriceSlider.BarWithinTrack | components/filters/PriceSlider.tsx:27-28 | the two percentages lie in [0,100], the lower one before the upper one |
| Loyalty.TierMonotone | components/loyalty/LoyaltyBadge.tsx:11-16 | more points never give a lower tier, and each tier above Bronze starts at its threshold |
| Loyalty.NextTierProperties | components/loyalty/LoyaltyBadge.tsx:21-22 | a next threshold exists exactly below Diamond, lies above the balance and is one tier up; points needed are positive; progress is 100 without one, otherwise in [0,100) and the balance's share of the threshold |
| Loyalty.BenefitsGrowWithTier | components/loyalty/LoyaltyBadge.tsx:73-84 | a higher tier has a larger discount and keeps every benefit of a lower one; every tier above Bronze has free shipping and early access |
| Countdown.DecomposeIsExact | components/ui/CountdownTimer.tsx:25-28 | hours < 24, minutes and seconds < 60, and the four fields add up to the whole seconds left |
| Countdown.Timer.constructor | components/ui/CountdownTimer.tsx:12-17 | the timer starts at all zeros |
| Countdown.Timer.Tick | components/ui/CountdownTimer.tsx:20-31 | a positive difference sets the split of it; otherwise the old value stays |
| ProductReviews.ToggleFlipsOne | components/product/ProductReviews.tsx:61-63 | the click flips that review's flag only; two clicks restore the flags |
| ProductReviews.ToggleMovesCountByOne | components/product/ProductReviews.tsx:208 | the count shown is the base or one more, and a click moves it by exactly one |
| ProductReviews.StarsMatchRating | components/product/ProductReviews.tsx:85-93 | the filled stars come first; the overview fills ⌊average⌋ and a review its rating rounded up, both clamped to 0..5 |
| ProductReviews.Panel.constructor | components/product/ProductReviews.tsx:59 | no review flagged |
| ProductReviews.Panel.HandleHelpful | components/product/ProductReviews.tsx:61-63 | the flag map becomes `Toggle(old map, id)` |

## Findings

| source | as written | input that shows it | evidently intended | confidence | as-written member | corrected member |
|---|---|---|---|---|---|---|
| app/cart/page.tsx:18 (also app/checkout/page.tsx:35) | shipping is free only above 50 (`> 50`), while the banner (app/cart/page.tsx:95-104) shows below 50 and asks for `50 − subtotal`, and the loyalty card and the navigation promise free shipping "on orders $50+"; other copy (the trust badges, the announcement bar, the home page) says "over $50", which matches the code, so which side is intended is not settled | subtotal 40: the banner asks for 10 more, yet at 50 shipping is still 10 and the banner has gone | free shipping from 50 on (`>= 50`) | medium, not executed | OrderSummary.AdvertisedTopUpStillPaysShipping | OrderSummary.TopUpEarnsFreeShipping |
| app/products/page.tsx:38-47 | the "in stock only" toggle (line 19, counted at line 63) is never read by the filter | toggle on, one out-of-stock product that passes every other rule: it is still listed | the toggle removes out-of-stock products | high, not executed | ProductsPage.InStockOnlyIgnored | ProductsPage.ListedRespectsStockToggle |

`OrderSummary.FinalTotal` and the products grid (`ProductsPage.Visible`, `ProductsPage.Page.View`) follow the code as written. The corrected rules are the separate members `OrderSummary.Shipping`, `OrderSummary.IntendedFinalTotal` and `ProductsPage.Listed`.

## Left out

- Persistence: the zustand `persist` middleware and the `localStorage` reads and writes of recent searches are not modelled. The stores start empty, and the loaded recent-search list is taken to be well formed.
- Timers: `setTimeout`, `setInterval` and `await` delays become separate methods run when the callback fires (`FinishLoading`, `ResumeAutoPlay`, `AutoPlayTick`, `FinishAddToCart`, `HideAddedAnimation`, `CompletePayment`, `Countdown.Timer.Tick`). The wall clock is the `now` parameter. Overlapping resume timers on the slider are not modelled.
- Side effects with nothing to check are not modelled: toasts, confetti, router navigation, focus, and animation.
- Floating point is not modelled: prices are exact reals, and `toFixed` and `toLocaleString` formatting is not modelled.
- ProductSort.SortByKey: `localeCompare` is replaced by lexicographic code-point order, and the stability of the browser's sort is not proved; the model's insertion sort is stable by construction.
- Text.ToLower: case mapping covers ASCII letters only; other letters are kept.
- Text.ToUpper: case mapping covers ASCII letters only; other letters are kept.
- Text.TrimStart: `trim` knows only the common white-space characters.
- Text.TrimEnd: `trim` knows only the common white-space characters.
- HomePage.SlideNavigation: requires at least one testimonial; with none the source's `% 0` gives NaN.
- PriceSlider.BarWithinTrack: requires min < max; the source divides by max − min.
- Countdown.DecomposeIsExact: the source floors real divisions; the model uses integer division of the positive difference, which gives the same values.
- Loyalty.NextTierProperties: progress is measured from 0 rather than from the current tier's floor, as written; this is stated, not corrected.
- CheckoutPage.Checkout.Submit: the browser's email-format check on the email input is not modelled; a filled field is a non-empty one.
- Product `tags` is optional in the source; an absent list is modelled as an empty one.
- The products page never changes its lower price bound, and the filter panel's show/hide toggle is not modelled.
- The review list and rating distribution are fixed mock data and are not modelled.
- A swatch or size is marked selected by plain equality with the selected value; this is not modelled as a separate member.
- The catalogue data module is not part of this model; the catalogue is an arbitrary sequence of products.
- Quick view, the sticky bar, the floating cart, the compare views and the presentation-only pages are not part of this model.
