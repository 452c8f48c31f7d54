// The status column and the range-bar positions of the Dashboard page,
// whose table shows the first ten stocks of /stocks and whose four counters
// come from screening_analysis.

module Dashboard {
  import opened Common
  import opened Ui
  import Screening
  import Watchlist
  import RangeDisplay

  /** The labels of getStatusText: 未知, 合理, 偏低, 偏高. */
  datatype Label = Unknown | Reasonable | Low | High

  /** getStatusText: a missing value first, then in range, then below, then above; else 未知. */
  function StatusText(pe: Option<real>, lower: Option<real>, upper: Option<real>): Label
  {
    if pe.None? || lower.None? || upper.None? then Unknown
    else if pe.value >= lower.value && pe.value <= upper.value then Reasonable
    else if pe.value < lower.value then Low
    else if pe.value > upper.value then High
    else Unknown
  }

  /** getStatusColor, written as its own if-chain. */
  function StatusColor(pe: Option<real>, lower: Option<real>, upper: Option<real>): TagColor
  {
    if pe.None? || lower.None? || upper.None? then Default
    else if pe.value >= lower.value && pe.value <= upper.value then Processing
    else if pe.value < lower.value then Success
    else if pe.value > upper.value then Error
    else Default
  }

  /** The colour that goes with each label. */
  function ColorOf(l: Label): TagColor
  {
    match l
      case Unknown => Default
      case Reasonable => Processing
      case Low => Success
      case High => Error
  }

  /** The label the page shows for each band of the screening counts. */
  function LabelOf(b: Screening.Band): Label
  {
    match b
      case Reasonable => Reasonable
      case Undervalued => Low
      case Overvalued => High
      case Unknown => Unknown
  }

  /** getStatusColor follows the same case split as getStatusText. */
  lemma ColorFollowsText(pe: Option<real>, lower: Option<real>, upper: Option<real>)
    ensures StatusColor(pe, lower, upper) == ColorOf(StatusText(pe, lower, upper))
  {
  }

  /** The label of a row is the band screening_analysis counts it in. */
  lemma TextMatchesScreening(pe: Option<real>, lower: Option<real>, upper: Option<real>)
    ensures StatusText(pe, lower, upper) == LabelOf(Screening.Classify(pe, lower, upper))
  {
  }

  /** For numbers the final return '未知' is unreachable: 未知 means a value is missing. */
  lemma UnknownOnlyWhenMissing(pe: Option<real>, lower: Option<real>, upper: Option<real>)
    ensures StatusText(pe, lower, upper) == Unknown <==> pe.None? || lower.None? || upper.None?
  {
  }

  /** The ratio bar marks the current ratio in range exactly when the row is labelled 合理. */
  lemma InRangeIffReasonable(pe: real, lower: real, upper: real)
    ensures RangeDisplay.InRange(lower, upper, pe) <==> StatusText(Some(pe), Some(lower), Some(upper)) == Reasonable
  {
  }

  /**
   * The Dashboard and the Watchlist page label every row alike: 合理 / 合理,
   * 偏低 / 低估, 偏高 / 高估, 未知 / 数据缺失.
   */
  lemma AgreesWithWatchlist(pe: Option<real>, lower: Option<real>, upper: Option<real>)
    ensures StatusText(pe, lower, upper) == Reasonable <==> Watchlist.StatusText(pe, lower, upper) == Watchlist.Reasonable
    ensures StatusText(pe, lower, upper) == Low <==> Watchlist.StatusText(pe, lower, upper) == Watchlist.Undervalued
    ensures StatusText(pe, lower, upper) == High <==> Watchlist.StatusText(pe, lower, upper) == Watchlist.Overvalued
    ensures StatusText(pe, lower, upper) == Unknown <==> Watchlist.StatusText(pe, lower, upper) == Watchlist.DataMissing
  {
  }

  // ---------------------------------------------------------------------
  // Positions on the bar (see Findings in README.md)
  // ---------------------------------------------------------------------

  /** A JavaScript number, with the values a division by zero produces. */
  datatype JsNumber = Finite(value: real) | NaN | PositiveInfinity | NegativeInfinity

  /** JavaScript's a / b: 0 / 0 is NaN, a non-zero numerator over 0 an infinity. */
  function JsDivide(a: real, b: real): JsNumber
  {
    if b != 0.0 then Finite(a / b)
    else if a == 0.0 then NaN
    else if a > 0.0 then PositiveInfinity
    else NegativeInfinity
  }

  /** Multiplication by a positive constant. */
  function JsScale(x: JsNumber, k: real): JsNumber
    requires k > 0.0
  {
    match x
      case Finite(v) => Finite(v * k)
      case _ => x
  }

  /** getPosition as written on this page: no guard for a bar of zero width. */
  function Position(lower: real, mid: real, upper: real, current: real, value: real): JsNumber
  {
    var lo := Min4(lower, mid, upper, current);
    var range := Max4(lower, mid, upper, current) - lo;
    JsScale(JsDivide(value - lo, range), 100.0)
  }

  /** With a bar of non-zero width, this page's position is the Watchlist page's guarded one. */
  lemma PositionMatchesGuarded(lower: real, mid: real, upper: real, current: real, value: real)
    requires Min4(lower, mid, upper, current) < Max4(lower, mid, upper, current)
    ensures Position(lower, mid, upper, current, value) == Finite(Watchlist.Position(lower, mid, upper, current, value))
  {
  }

  /**
   * As written: four equal non-zero values pass the "-" test, and every
   * position on the bar (the fill's ends, the mid line, the dot) is NaN.
   */
  lemma EqualValuesGiveNaN(v: real)
    requires v != 0.0
    ensures RangeDisplay.Shown(Some(v), Some(v), Some(v), Some(v))
    ensures Position(v, v, v, v, v) == NaN
  {
  }

  /**
   * Corrected with the Watchlist page's guard: every drawn position of the
   * four values lies in [0, 100], and equal values sit at 50.
   */
  lemma GuardedPositions(lower: real, mid: real, upper: real, current: real)
    ensures 0.0 <= Watchlist.Position(lower, mid, upper, current, lower) <= 100.0
    ensures 0.0 <= Watchlist.Position(lower, mid, upper, current, mid) <= 100.0
    ensures 0.0 <= Watchlist.Position(lower, mid, upper, current, upper) <= 100.0
    ensures 0.0 <= Watchlist.Position(lower, mid, upper, current, current) <= 100.0
    ensures lower == mid == upper == current ==> Watchlist.Position(lower, mid, upper, current, current) == 50.0
  {
    Watchlist.PositionInBounds(lower, mid, upper, current, lower);
    Watchlist.PositionInBounds(lower, mid, upper, current, mid);
    Watchlist.PositionInBounds(lower, mid, upper, current, upper);
    Watchlist.PositionInBounds(lower, mid, upper, current, current);
  }
}
