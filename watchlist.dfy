// The status column and the range-bar positions of the Watchlist page.

module Watchlist {
  import opened Common
  import opened Ui
  import Screening

  /** The labels of getStatusText: 数据缺失, 低估, 高估, 合理. */
  datatype Label = DataMissing | Undervalued | Overvalued | Reasonable

  /** getStatusText: a missing value first, then below the lower bound, then above the upper one. */
  function StatusText(pe: Option<real>, lower: Option<real>, upper: Option<real>): Label
  {
    if pe.None? || lower.None? || upper.None? then DataMissing
    else if pe.value < lower.value then Undervalued
    else if pe.value > upper.value then Overvalued
    else Reasonable
  }

  /** getStatusColor, written as its own if-chain. */
  function StatusColor(pe: Option<real>, lower: Option<real>, upper: Option<real>): TagColor
  {
    if pe.None? || lower.None? || upper.None? then Default
    else if pe.value < lower.value then Success
    else if pe.value > upper.value then Error
    else Processing
  }

  /** The colour that goes with each label. */
  function ColorOf(l: Label): TagColor
  {
    match l
      case DataMissing => Default
      case Undervalued => Success
      case Overvalued => Error
      case Reasonable => Processing
  }

  /** getStatusColor follows the same case split as getStatusText. */
  lemma ColorFollowsText(pe: Option<real>, lower: Option<real>, upper: Option<real>)
    ensures StatusColor(pe, lower, upper) == ColorOf(StatusText(pe, lower, upper))
  {
  }

  /** 合理 is reached exactly when all three values are set and lower <= pe <= upper. */
  lemma ReasonableOnlyInRange(pe: Option<real>, lower: Option<real>, upper: Option<real>)
    ensures StatusText(pe, lower, upper) == Reasonable
        <==> pe.Some? && lower.Some? && upper.Some? && lower.value <= pe.value <= upper.value
  {
  }

  /**
   * Each label and the backend's valuation_status filter of the same name:
   * 合理 selects exactly the 合理 rows; 低估 and 高估 rows are selected by
   * their filter, and the converse holds for rows with all three values
   * (for 高估, with lower <= upper); a row 数据缺失 selects is labelled
   * 数据缺失, but a partly missing row is labelled 数据缺失 too.
   */
  lemma AgreesWithFilter(pe: Option<real>, lower: Option<real>, upper: Option<real>)
    ensures StatusText(pe, lower, upper) == Reasonable <==> Screening.Matches(Screening.InRange, pe, lower, upper)
    ensures StatusText(pe, lower, upper) == Undervalued ==> Screening.Matches(Screening.Underpriced, pe, lower, upper)
    ensures StatusText(pe, lower, upper) == Overvalued ==> Screening.Matches(Screening.Overpriced, pe, lower, upper)
    ensures Screening.Matches(Screening.DataMissing, pe, lower, upper) ==> StatusText(pe, lower, upper) == DataMissing
    ensures pe.Some? && lower.Some? && upper.Some? ==>
      (StatusText(pe, lower, upper) == Undervalued <==> Screening.Matches(Screening.Underpriced, pe, lower, upper))
      && (lower.value <= upper.value ==>
            (StatusText(pe, lower, upper) == Overvalued <==> Screening.Matches(Screening.Overpriced, pe, lower, upper)))
  {
  }

  /** The guarded getPosition: 50 for a bar of zero width, else linear from the smallest value to the largest. */
  function Position(lower: real, mid: real, upper: real, current: real, value: real): real
  {
    var lo := Min4(lower, mid, upper, current);
    var range := Max4(lower, mid, upper, current) - lo;
    if range == 0.0 then 50.0 else ((value - lo) / range) * 100.0
  }

  lemma FractionInUnit(a: real, r: real)
    requires 0.0 <= a <= r && r > 0.0
    ensures 0.0 <= a / r <= 1.0
  {
    assert a / r * r == a;
  }

  /**
   * Every position of a value between the smallest and the largest of the
   * four lies in [0, 100]; the smallest maps to 0 and the largest to 100
   * unless all four are equal, when every position is 50.
   */
  lemma PositionInBounds(lower: real, mid: real, upper: real, current: real, value: real)
    requires Min4(lower, mid, upper, current) <= value <= Max4(lower, mid, upper, current)
    ensures 0.0 <= Position(lower, mid, upper, current, value) <= 100.0
    ensures Min4(lower, mid, upper, current) == Max4(lower, mid, upper, current) ==>
      Position(lower, mid, upper, current, value) == 50.0
    ensures Min4(lower, mid, upper, current) < Max4(lower, mid, upper, current) ==>
      Position(lower, mid, upper, current, Min4(lower, mid, upper, current)) == 0.0
      && Position(lower, mid, upper, current, Max4(lower, mid, upper, current)) == 100.0
  {
    var lo, hi := Min4(lower, mid, upper, current), Max4(lower, mid, upper, current);
    if lo < hi {
      FractionInUnit(value - lo, hi - lo);
      assert (hi - lo) / (hi - lo) == 1.0;
    }
  }

  /** Positions keep the order of the values, so the fill from lower to upper never has negative width. */
  lemma PositionMonotone(lower: real, mid: real, upper: real, current: real, v1: real, v2: real)
    requires v1 <= v2
    ensures Position(lower, mid, upper, current, v1) <= Position(lower, mid, upper, current, v2)
  {
    var lo, hi := Min4(lower, mid, upper, current), Max4(lower, mid, upper, current);
    if lo < hi {
      var r := hi - lo;
      assert (v2 - lo) / r - (v1 - lo) / r == (v2 - v1) / r;
    }
  }
}
