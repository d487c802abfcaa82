/**
 * The home page (app/page.tsx): the testimonial slider and its auto-play, and the
 * product selections of the featured, flash-sale, trending and recently-viewed sections.
 */
module HomePage {
  import opened Optional
  import opened Catalog
  import opened Seqs
  import JsNumber

  // ---------------------------------------------------------------------------
  // Testimonial slider

  /** nextSlide: `(prev + 1) % testimonials.length`. */
  function NextIndex(i: int, n: int): int
    requires n > 0
  {
    JsNumber.Rem(i + 1, n)
  }

  /** prevSlide: `(prev - 1 + testimonials.length) % testimonials.length`. */
  function PrevIndex(i: int, n: int): int
    requires n > 0
  {
    JsNumber.Rem(i - 1 + n, n)
  }

  /**
   * From a slide in range both arrows land on a slide in range: forward from the
   * last slide wraps to the first, backward from the first wraps to the last, and
   * each arrow undoes the other.
   */
  lemma SlideNavigation(i: int, n: int)
    requires n > 0 && 0 <= i < n
    ensures 0 <= NextIndex(i, n) < n && 0 <= PrevIndex(i, n) < n
    ensures NextIndex(i, n) == if i == n - 1 then 0 else i + 1
    ensures PrevIndex(i, n) == if i == 0 then n - 1 else i - 1
    ensures PrevIndex(NextIndex(i, n), n) == i && NextIndex(PrevIndex(i, n), n) == i
  {
    WrapOnce(i + 1, n);
    WrapOnce(i - 1 + n, n);
    var j := NextIndex(i, n);
    WrapOnce(j - 1 + n, n);
    var k := PrevIndex(i, n);
    WrapOnce(k + 1, n);
  }

  /** The remainder of a value below twice the divisor takes off at most one divisor. */
  lemma WrapOnce(a: int, n: int)
    requires n > 0 && 0 <= a < 2 * n
    ensures JsNumber.Rem(a, n) == if a < n then a else a - n
  {
    var q, r := a / n, a % n;
    assert a == n * q + r && 0 <= r < n;
    assert q == 0 || q == 1;
    assert JsNumber.Rem(a, n) == r;
  }

  class Slider {
    const count: int
    var currentSlide: int
    var isAutoPlaying: bool

    ghost predicate Valid()
      reads this
    {
      count > 0 && 0 <= currentSlide < count
    }

    constructor (count: int)
      requires count > 0
      ensures Valid() && this.count == count
      ensures currentSlide == 0 && isAutoPlaying
    {
      this.count := count;
      currentSlide := 0;
      isAutoPlaying := true;
    }

    method NextSlide()
      requires Valid()
      modifies this
      ensures Valid()
      ensures currentSlide == NextIndex(old(currentSlide), count) && isAutoPlaying == old(isAutoPlaying)
    {
      SlideNavigation(currentSlide, count);
      currentSlide := (currentSlide + 1) % count;
    }

    method PrevSlide()
      requires Valid()
      modifies this
      ensures Valid()
      ensures currentSlide == PrevIndex(old(currentSlide), count) && isAutoPlaying == old(isAutoPlaying)
    {
      SlideNavigation(currentSlide, count);
      currentSlide := (currentSlide - 1 + count) % count;
    }

    /** goToSlide, from the dot of slide `index`: jump there and pause auto-play. */
    method GoToSlide(index: int)
      requires Valid() && 0 <= index < count
      modifies this
      ensures Valid()
      ensures currentSlide == index && !isAutoPlaying
    {
      currentSlide := index;
      isAutoPlaying := false;
    }

    /** The left arrow: previous slide, auto-play paused. */
    method PrevArrow()
      requires Valid()
      modifies this
      ensures Valid()
      ensures currentSlide == PrevIndex(old(currentSlide), count) && !isAutoPlaying
    {
      PrevSlide();
      isAutoPlaying := false;
    }

    /** The right arrow: next slide, auto-play paused. */
    method NextArrow()
      requires Valid()
      modifies this
      ensures Valid()
      ensures currentSlide == NextIndex(old(currentSlide), count) && !isAutoPlaying
    {
      NextSlide();
      isAutoPlaying := false;
    }

    /** The 5-second timer a pause schedules: auto-play resumes, the slide stays. */
    method ResumeAutoPlay()
      requires Valid()
      modifies this
      ensures Valid()
      ensures currentSlide == old(currentSlide) && isAutoPlaying
    {
      isAutoPlaying := true;
    }

    /** The play/pause button: flips auto-play, the slide stays. */
    method ToggleAutoPlay()
      requires Valid()
      modifies this
      ensures Valid()
      ensures currentSlide == old(currentSlide) && isAutoPlaying == !old(isAutoPlaying)
    {
      isAutoPlaying := !isAutoPlaying;
    }

    /** One 4-second auto-play interval; the interval only runs while auto-play is on. */
    method AutoPlayTick()
      requires Valid() && isAutoPlaying
      modifies this
      ensures Valid()
      ensures currentSlide == NextIndex(old(currentSlide), count) && isAutoPlaying
    {
      NextSlide();
    }
  }

  // ---------------------------------------------------------------------------
  // Product sections

  /** `products.slice(0, 8)`. */
  function Featured(catalog: seq<Product>): seq<Product> {
    Take(catalog, 8)
  }

  /** `p.discount && p.discount >= 15`. */
  predicate IsFlashSale(p: Product) {
    OnSale(p) && DiscountPercent(p) >= 15.0
  }

  /** `products.filter(p => p.discount && p.discount >= 15).slice(0, 4)`. */
  function FlashSale(catalog: seq<Product>): seq<Product> {
    Take(Filter(catalog, IsFlashSale), 4)
  }

  predicate IsTrending(p: Product) {
    p.rating >= 4.5
  }

  /** `products.filter(p => p.rating >= 4.5).slice(0, 4)`. */
  function Trending(catalog: seq<Product>): seq<Product> {
    Take(Filter(catalog, IsTrending), 4)
  }

  /** The recently-viewed section shows `recentProducts.slice(0, 5)`. */
  function RecentShown(recent: seq<Product>): seq<Product> {
    Take(recent, 5)
  }

  /** The least of `n` and `k`: how many entries `slice(0, k)` keeps of `n`. */
  function Kept(n: nat, k: nat): nat {
    if n < k then n else k
  }

  lemma TakeIsPrefix(s: seq<Product>, k: nat)
    ensures Take(s, k) == s[..Kept(|s|, k)]
  {
  }

  /**
   * Featured is the first eight catalogue products. Flash sale and trending are the
   * first four qualifying products in catalogue order, or all of them when fewer
   * qualify. The flash-sale section is shown exactly when some product has a
   * discount of at least 15%.
   */
  lemma HomeSelections(catalog: seq<Product>)
    ensures Featured(catalog) == catalog[..Kept(|catalog|, 8)]
    ensures var f := Filter(catalog, IsFlashSale);
      FlashSale(catalog) == f[..Kept(|f|, 4)]
    ensures var t := Filter(catalog, IsTrending);
      Trending(catalog) == t[..Kept(|t|, 4)]
    ensures forall i :: 0 <= i < |FlashSale(catalog)| ==>
      FlashSale(catalog)[i] in catalog && DiscountPercent(FlashSale(catalog)[i]) >= 15.0
    ensures forall i :: 0 <= i < |Trending(catalog)| ==>
      Trending(catalog)[i] in catalog && Trending(catalog)[i].rating >= 4.5
    ensures IsSubsequence(FlashSale(catalog), catalog) && IsSubsequence(Trending(catalog), catalog)
    ensures |FlashSale(catalog)| > 0 <==> exists i :: 0 <= i < |catalog| && IsFlashSale(catalog[i])
  {
    var f := Filter(catalog, IsFlashSale);
    var t := Filter(catalog, IsTrending);
    TakeIsPrefix(catalog, 8);
    TakeIsPrefix(f, 4);
    TakeIsPrefix(t, 4);
    FilterIsSubsequence(catalog, IsFlashSale);
    FilterIsSubsequence(catalog, IsTrending);
    TakeIsSubsequence(f, catalog, 4);
    TakeIsSubsequence(t, catalog, 4);
    forall i | 0 <= i < |FlashSale(catalog)| ensures IsFlashSale(FlashSale(catalog)[i]) {
      assert FlashSale(catalog)[i] == f[i];
    }
    forall i | 0 <= i < |Trending(catalog)| ensures IsTrending(Trending(catalog)[i]) {
      assert Trending(catalog)[i] == t[i];
    }
    if exists i :: 0 <= i < |catalog| && IsFlashSale(catalog[i]) {
      var i :| 0 <= i < |catalog| && IsFlashSale(catalog[i]);
      assert catalog[i] in f;
    }
  }

  /** The recently-viewed section appears exactly when something was viewed, and shows the five most recent. */
  lemma RecentSection(recent: seq<Product>)
    ensures RecentShown(recent) == recent[..Kept(|recent|, 5)]
    ensures |RecentShown(recent)| > 0 <==> |recent| > 0
  {
    TakeIsPrefix(recent, 5);
  }
}
