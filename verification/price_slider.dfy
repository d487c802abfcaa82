/**
 * The two-thumb price slider (components/filters/PriceSlider.tsx): each thumb reports
 * a new range only when the thumbs would not meet or cross.
 */
module PriceSlider {
  import opened Optional

  datatype PriceRange = PriceRange(low: int, high: int)

  /** handleMinChange: report `[newMin, high]` when `newMin < high`. */
  function MinChange(value: PriceRange, newMin: int): (r: Option<PriceRange>)
    ensures r.Some? ==> r.value.low < r.value.high
  {
    if newMin < value.high then Some(PriceRange(newMin, value.high)) else None
  }

  /** handleMaxChange: report `[low, newMax]` when `newMax > low`. */
  function MaxChange(value: PriceRange, newMax: int): (r: Option<PriceRange>)
    ensures r.Some? ==> r.value.low < r.value.high
  {
    if newMax > value.low then Some(PriceRange(value.low, newMax)) else None
  }

  /** A drag of one thumb to a position the range input allows. */
  datatype Drag = MoveMin(to: int) | MoveMax(to: int)

  /** The range after a run of drags, each reported range taken up by the parent. */
  function AfterDrags(value: PriceRange, drags: seq<Drag>): PriceRange {
    if drags == [] then value
    else
      var v := AfterDrags(value, drags[..|drags| - 1]);
      var r := match drags[|drags| - 1]
        case MoveMin(x) => MinChange(v, x)
        case MoveMax(x) => MaxChange(v, x);
      r.GetOr(v)
  }

  predicate WellOrdered(v: PriceRange, min: int, max: int) {
    min <= v.low < v.high <= max
  }

  /**
   * Every range a thumb reports keeps its low end strictly below its high end. A
   * drag moves only the dragged thumb, exactly to where it was dropped, unless that
   * would make the thumbs meet or cross, in which case the range stays as it was.
   */
  lemma ReportedRangesOrdered(value: PriceRange, x: int)
    ensures MinChange(value, x).Some? ==> MinChange(value, x).value.low < MinChange(value, x).value.high
    ensures MaxChange(value, x).Some? ==> MaxChange(value, x).value.low < MaxChange(value, x).value.high
    ensures AfterDrags(value, [MoveMin(x)]) == if x < value.high then value.(low := x) else value
    ensures AfterDrags(value, [MoveMax(x)]) == if x > value.low then value.(high := x) else value
  {
    assert [MoveMin(x)][..0] == [] && [MoveMax(x)][..0] == [];
  }

  /** Starting from an ordered range inside the bounds, drags within the bounds keep it so. */
  lemma {:induction false} DragsKeepOrder(value: PriceRange, drags: seq<Drag>, min: int, max: int)
    requires WellOrdered(value, min, max)
    requires forall i :: 0 <= i < |drags| ==> min <= drags[i].to <= max
    ensures WellOrdered(AfterDrags(value, drags), min, max)
  {
    if drags != [] {
      DragsKeepOrder(value, drags[..|drags| - 1], min, max);
    }
  }

  /** `((v - min) / (max - min)) * 100`. */
  function Percent(v: int, min: int, max: int): real
    requires min < max
  {
    (v - min) as real / (max - min) as real * 100.0
  }

  /**
   * For an ordered range inside the bounds the highlighted bar starts at a position in
   * [0, 100) and ends strictly after it, at most at 100.
   */
  lemma BarWithinTrack(v: PriceRange, min: int, max: int)
    requires min < max && WellOrdered(v, min, max)
    ensures 0.0 <= Percent(v.low, min, max) < Percent(v.high, min, max) <= 100.0
  {
    var d := (max - min) as real;
    ShareOrder((v.low - min) as real, (v.high - min) as real, d);
  }

  /** Dividing an ordered pair in [0, d] by d keeps it ordered within [0, 1]. */
  lemma ShareOrder(a: real, b: real, d: real)
    requires 0.0 <= a < b <= d
    ensures 0.0 <= a / d < b / d <= 1.0
  {
    assert b / d - a / d == (b - a) / d;
    assert (b - a) / d > 0.0;
    assert d / d == 1.0;
    assert d / d - b / d == (d - b) / d;
    assert (d - b) / d >= 0.0;
  }
}
