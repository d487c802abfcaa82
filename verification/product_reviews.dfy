/**
 * The reviews panel of the product page (components/product/ProductReviews.tsx): the
 * star rows and the "helpful" toggles, kept per review id in a map.
 */
module ProductReviews {

  /** `helpfulClicks[id]` is truthy: present and true. */
  predicate Clicked(clicks: map<int, bool>, id: int) {
    id in clicks && clicks[id]
  }

  /** handleHelpful's new map: `{...helpfulClicks, [id]: !helpfulClicks[id]}`. */
  function Toggle(clicks: map<int, bool>, id: int): map<int, bool> {
    clicks[id := !Clicked(clicks, id)]
  }

  /**
   * A toggle flips its own review's flag and no other. Two toggles restore every
   * flag, and the map itself up to an entry `false` for an id that had none.
   */
  lemma ToggleFlipsOne(clicks: map<int, bool>, id: int)
    ensures Clicked(Toggle(clicks, id), id) == !Clicked(clicks, id)
    ensures forall k :: k != id ==> Clicked(Toggle(clicks, id), k) == Clicked(clicks, k)
    ensures forall k :: Clicked(Toggle(Toggle(clicks, id), id), k) == Clicked(clicks, k)
    ensures Toggle(Toggle(clicks, id), id) == clicks[id := Clicked(clicks, id)]
    ensures id in clicks ==> Toggle(Toggle(clicks, id), id) == clicks
  {
  }

  /** "Helpful (n)": the stored count plus one while this visitor's flag is on. */
  function HelpfulShown(helpful: int, clicks: map<int, bool>, id: int): int {
    helpful + (if Clicked(clicks, id) then 1 else 0)
  }

  /** Each toggle moves the shown count by exactly one, up when the flag turns on. */
  lemma ToggleMovesCountByOne(helpful: int, clicks: map<int, bool>, id: int)
    ensures helpful <= HelpfulShown(helpful, clicks, id) <= helpful + 1
    ensures HelpfulShown(helpful, Toggle(clicks, id), id)
         == HelpfulShown(helpful, clicks, id) + (if Clicked(clicks, id) then -1 else 1)
  {
  }

  /** The overview row: star `i` (0 to 4) is filled when `i < Math.floor(averageRating)`. */
  function AverageStars(averageRating: real): (r: seq<bool>)
    ensures |r| == 5
  {
    seq(5, i => i < averageRating.Floor)
  }

  /** A review's row: star `i` is filled when `i < review.rating`. */
  function ReviewStars(rating: real): (r: seq<bool>)
    ensures |r| == 5
  {
    seq(5, i => i as real < rating)
  }

  function CountFilled(row: seq<bool>): nat {
    if row == [] then 0 else CountFilled(row[..|row| - 1]) + (if row[|row| - 1] then 1 else 0)
  }

  ghost predicate FilledPrefix(row: seq<bool>) {
    forall i, j :: 0 <= i < j < |row| && row[j] ==> row[i]
  }

  lemma {:induction false} PrefixCount(row: seq<bool>, n: int)
    requires 0 <= n <= |row|
    requires forall i :: 0 <= i < |row| ==> (row[i] <==> i < n)
    ensures CountFilled(row) == n
  {
    if row != [] {
      var init := row[..|row| - 1];
      if n == |row| {
        PrefixCount(init, n - 1);
      } else {
        PrefixCount(init, n);
      }
    }
  }

  /**
   * The overview fills the whole-star part of the average, clamped to 0..5; a review
   * fills its rating rounded up, clamped the same way. Filled stars always come first.
   */
  lemma StarsMatchRating(averageRating: real, rating: real)
    ensures FilledPrefix(AverageStars(averageRating)) && FilledPrefix(ReviewStars(rating))
    ensures CountFilled(AverageStars(averageRating))
         == if averageRating.Floor < 0 then 0 else if averageRating.Floor > 5 then 5 else averageRating.Floor
    ensures CountFilled(ReviewStars(rating))
         == if rating <= 0.0 then 0 else if rating > 5.0 then 5 else -((-rating).Floor)
  {
    var n := averageRating.Floor;
    PrefixCount(AverageStars(averageRating), if n < 0 then 0 else if n > 5 then 5 else n);
    var m := if rating <= 0.0 then 0 else if rating > 5.0 then 5 else -((-rating).Floor);
    forall i | 0 <= i < 5 ensures ReviewStars(rating)[i] <==> i < m {
      if 0.0 < rating <= 5.0 {
        var c := -((-rating).Floor);
        assert (c - 1) as real < rating <= c as real;
      }
    }
    PrefixCount(ReviewStars(rating), m);
  }

  class Panel {
    var helpfulClicks: map<int, bool>

    constructor ()
      ensures helpfulClicks == map[]
    {
      helpfulClicks := map[];
    }

    method HandleHelpful(reviewId: int)
      modifies this
      ensures helpfulClicks == Toggle(old(helpfulClicks), reviewId)
      ensures Clicked(helpfulClicks, reviewId) == !Clicked(old(helpfulClicks), reviewId)
    {
      helpfulClicks := helpfulClicks[reviewId := !(reviewId in helpfulClicks && helpfulClicks[reviewId])];
    }
  }
}
