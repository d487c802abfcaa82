/**
 * The variant pickers of the product page (components/product/ProductSelectors.tsx):
 * colour swatches with their names, size buttons, and the bounded quantity stepper.
 */
module ProductSelectors {
  import opened Optional
  import opened Text

  // ---------------------------------------------------------------------------
  // Colours

  /** The swatch names, keyed by upper-case hex code. */
  const ColorNames: map<string, string> := map[
    "#000000" := "Black", "#FFFFFF" := "White", "#FF0000" := "Red", "#0000FF" := "Blue",
    "#00FF00" := "Green", "#FFD700" := "Gold", "#C0C0C0" := "Silver", "#808080" := "Gray",
    "#4A5568" := "Charcoal", "#8B4513" := "Brown", "#D2691E" := "Tan", "#FF69B4" := "Pink",
    "#9370DB" := "Purple", "#20B2AA" := "Teal", "#FF6B6B" := "Coral", "#87CEEB" := "Sky Blue",
    "#228B22" := "Forest Green", "#8B0000" := "Dark Red", "#F5DEB3" := "Wheat",
    "#F5F5DC" := "Beige", "#FFC0CB" := "Light Pink"]

  /** Swatches that get a dark check mark. */
  const LightColors: seq<string> := ["#FFFFFF", "#F5F5DC", "#FFC0CB", "#F5DEB3", "#87CEEB", "#FFD700", "#C0C0C0"]

  /** getColorName: the name of the upper-cased code, 'Custom' when there is none. */
  function ColorName(hex: string): (name: string)
    ensures name != ""
    ensures ToUpper(hex) in ColorNames ==> name == ColorNames[ToUpper(hex)]
    ensures ToUpper(hex) !in ColorNames ==> name == "Custom"
  {
    var key := ToUpper(hex);
    if key in ColorNames && ColorNames[key] != "" then ColorNames[key] else "Custom"
  }

  predicate IsLight(color: string) {
    ToUpper(color) in LightColors
  }

  /**
   * Names do not depend on the letter case of the code, and every light swatch is one
   * of the named colours.
   */
  lemma ColorNameIgnoresCase(hex: string)
    ensures ColorName(ToLower(hex)) == ColorName(hex) == ColorName(ToUpper(hex))
    ensures IsLight(hex) ==> ColorName(hex) != "Custom"
  {
    assert ToUpper(ToLower(hex)) == ToUpper(hex);
    assert ToUpper(ToUpper(hex)) == ToUpper(hex);
  }

  /** A lower-case code is named like the upper-case entry. */
  lemma NamedExample()
    ensures ColorName("#ffd700") == "Gold"
    ensures ColorName("#123456") == "Custom"
  {
    assert ToUpper("#ffd700") == "#FFD700";
    assert ToUpper("#123456") == "#123456";
  }

  // ---------------------------------------------------------------------------
  // Sizes

  /** A size button passes its size on unless that size is out of stock. */
  function SizeClick(size: string, outOfStockSizes: seq<string>): Option<string> {
    if size in outOfStockSizes then None else Some(size)
  }

  /** The selected size after a run of clicks on size buttons, each reported size taken up by the parent. */
  function AfterSizeClicks(selected: string, clicks: seq<string>, outOfStockSizes: seq<string>): string {
    if clicks == [] then selected
    else
      var before := AfterSizeClicks(selected, clicks[..|clicks| - 1], outOfStockSizes);
      SizeClick(clicks[|clicks| - 1], outOfStockSizes).GetOr(before)
  }

  /**
   * No run of clicks selects an out-of-stock size: the selection is the last clicked
   * size that is in stock, or the starting one when every click was on an
   * out-of-stock size.
   */
  lemma {:induction false} SizeClicksAvoidOutOfStock(selected: string, clicks: seq<string>, outOfStockSizes: seq<string>)
    requires selected !in outOfStockSizes
    ensures AfterSizeClicks(selected, clicks, outOfStockSizes) !in outOfStockSizes
    ensures forall i :: 0 <= i < |clicks| && clicks[i] !in outOfStockSizes
              && (forall j :: i < j < |clicks| ==> clicks[j] in outOfStockSizes)
              ==> AfterSizeClicks(selected, clicks, outOfStockSizes) == clicks[i]
    ensures (forall i :: 0 <= i < |clicks| ==> clicks[i] in outOfStockSizes)
              ==> AfterSizeClicks(selected, clicks, outOfStockSizes) == selected
  {
    if clicks != [] {
      var init := clicks[..|clicks| - 1];
      SizeClicksAvoidOutOfStock(selected, init, outOfStockSizes);
      forall i | 0 <= i < |clicks| - 1 && clicks[i] !in outOfStockSizes
                 && (forall j :: i < j < |clicks| ==> clicks[j] in outOfStockSizes)
        ensures AfterSizeClicks(selected, clicks, outOfStockSizes) == clicks[i]
      {
        assert init[i] == clicks[i];
        assert forall j :: i < j < |init| ==> init[j] in outOfStockSizes by {
          forall j | i < j < |init| ensures init[j] in outOfStockSizes {
            assert init[j] == clicks[j];
          }
        }
      }
      if forall i :: 0 <= i < |clicks| ==> clicks[i] in outOfStockSizes {
        assert forall i :: 0 <= i < |init| ==> init[i] in outOfStockSizes by {
          forall i | 0 <= i < |init| ensures init[i] in outOfStockSizes {
            assert init[i] == clicks[i];
          }
        }
      }
    }
  }

  // ---------------------------------------------------------------------------
  // Quantity

  const DefaultMax: int := 99
  const DefaultMin: int := 1

  /** decrease: report `quantity - 1` when above the minimum. */
  function Decrease(quantity: int, min: int): (r: Option<int>)
    ensures r.Some? <==> !(quantity <= min)
    ensures r.Some? ==> r.value == quantity - 1 && r.value >= min
  {
    if quantity > min then Some(quantity - 1) else None
  }

  /** increase: report `quantity + 1` when below the maximum. */
  function Increase(quantity: int, max: int): (r: Option<int>)
    ensures r.Some? <==> !(quantity >= max)
    ensures r.Some? ==> r.value == quantity + 1 && r.value <= max
  {
    if quantity < max then Some(quantity + 1) else None
  }

  datatype Tap = Minus | Plus

  /** The quantity after a run of taps, each reported change taken up by the parent. */
  function AfterTaps(quantity: int, taps: seq<Tap>, min: int, max: int): int {
    if taps == [] then quantity
    else
      var q := AfterTaps(quantity, taps[..|taps| - 1], min, max);
      var r := if taps[|taps| - 1] == Minus then Decrease(q, min) else Increase(q, max);
      r.GetOr(q)
  }

  /** Starting within [min, max], no run of taps leaves the range. */
  lemma {:induction false} TapsStayInRange(quantity: int, taps: seq<Tap>, min: int, max: int)
    requires min <= quantity <= max
    ensures min <= AfterTaps(quantity, taps, min, max) <= max
  {
    if taps != [] {
      TapsStayInRange(quantity, taps[..|taps| - 1], min, max);
    }
  }

  /** A plus followed by a minus (or the reverse) returns to the start when neither is blocked. */
  lemma StepsUndo(quantity: int, min: int, max: int)
    requires min <= quantity <= max
    ensures quantity < max ==> Decrease(Increase(quantity, max).value, min) == Some(quantity)
    ensures quantity > min ==> Increase(Decrease(quantity, min).value, max) == Some(quantity)
  {
  }
}
