// The valuation screening of the stocks table: the four-way count of
// screening_analysis and the valuation_status filter of get_stocks, with
// SQL's treatment of NULL (a comparison with NULL selects nothing).

module Screening {
  import opened Common
  import Refresh

  /** The four counters of screening_analysis. */
  datatype Band = Reasonable | Undervalued | Overvalued | Unknown

  /**
   * The band screening_analysis counts a stock in: the in-range test first,
   * then below the lower bound, then above the upper one; a missing value
   * makes it unknown.
   */
  function Classify(pe: Option<real>, lower: Option<real>, upper: Option<real>): (b: Band)
    ensures b == Unknown <==> pe.None? || lower.None? || upper.None?
    ensures b == Reasonable <==> pe.Some? && lower.Some? && upper.Some? && lower.value <= pe.value <= upper.value
    ensures b == Undervalued <==> pe.Some? && lower.Some? && upper.Some? && pe.value < lower.value
    ensures b == Overvalued <==> pe.Some? && lower.Some? && upper.Some? && lower.value <= pe.value && upper.value < pe.value
  {
    if pe.Some? && lower.Some? && upper.Some? then
      if pe.value >= lower.value && pe.value <= upper.value then Reasonable
      else if pe.value < lower.value then Undervalued
      else if pe.value > upper.value then Overvalued
      else Unknown
    else Unknown
  }

  function BandOf(st: Refresh.Stock): Band
  {
    Classify(st.currentPe, st.peLower, st.peUpper)
  }

  /** The number of stocks in band b. */
  function Count(stocks: seq<Refresh.Stock>, b: Band): (c: nat)
    ensures c <= |stocks|
  {
    if stocks == [] then 0
    else Count(stocks[..|stocks| - 1], b) + (if BandOf(stocks[|stocks| - 1]) == b then 1 else 0)
  }

  /** screening_analysis: the total and the four counts. */
  method ScreeningAnalysis(stocks: seq<Refresh.Stock>)
    returns (total: nat, overvalued: nat, undervalued: nat, reasonable: nat, unknown: nat)
    ensures total == |stocks|
    ensures overvalued == Count(stocks, Overvalued) && undervalued == Count(stocks, Undervalued)
    ensures reasonable == Count(stocks, Reasonable) && unknown == Count(stocks, Unknown)
    ensures overvalued + undervalued + reasonable + unknown == total
  {
    total := |stocks|;
    overvalued, undervalued, reasonable, unknown := 0, 0, 0, 0;
    var i := 0;
    while i < |stocks|
      invariant 0 <= i <= |stocks|
      invariant overvalued == Count(stocks[..i], Overvalued) && undervalued == Count(stocks[..i], Undervalued)
      invariant reasonable == Count(stocks[..i], Reasonable) && unknown == Count(stocks[..i], Unknown)
    {
      var s := stocks[i];
      assert stocks[..i + 1][..i] == stocks[..i];
      if s.currentPe.Some? && s.peLower.Some? && s.peUpper.Some? {
        if s.currentPe.value >= s.peLower.value && s.currentPe.value <= s.peUpper.value {
          reasonable := reasonable + 1;
        } else if s.currentPe.value < s.peLower.value {
          undervalued := undervalued + 1;
        } else if s.currentPe.value > s.peUpper.value {
          overvalued := overvalued + 1;
        } else {
          assert false;
        }
      } else {
        unknown := unknown + 1;
      }
      i := i + 1;
    }
    assert stocks[..i] == stocks;
    CountsSumToTotal(stocks);
  }

  /** Every stock is counted exactly once: the four counts add up to the total. */
  lemma {:induction false} CountsSumToTotal(stocks: seq<Refresh.Stock>)
    ensures Count(stocks, Overvalued) + Count(stocks, Undervalued) + Count(stocks, Reasonable) + Count(stocks, Unknown)
         == |stocks|
  {
    if stocks != [] {
      CountsSumToTotal(stocks[..|stocks| - 1]);
    }
  }

  // ---------------------------------------------------------------------
  // The valuation_status filter of get_stocks
  // ---------------------------------------------------------------------

  /** The four accepted values of valuation_status: 低估, 合理, 高估, 数据缺失. */
  datatype Status = Underpriced | InRange | Overpriced | DataMissing

  /** The parsed query parameter: no filter, one status, or HTTP 400. */
  datatype Choice = NoFilter | Only(status: Status) | BadRequest(code: int)

  /** An absent or empty parameter selects every stock; an unknown value is rejected with 400. */
  function ParseStatus(param: Option<string>): (c: Choice)
    ensures c.BadRequest? ==> c.code == 400
    ensures c == NoFilter <==> param.None? || param.value == ""
  {
    match param
      case None => NoFilter
      case Some(text) =>
        if text == "" then NoFilter
        else if text == "低估" then Only(Underpriced)
        else if text == "合理" then Only(InRange)
        else if text == "高估" then Only(Overpriced)
        else if text == "数据缺失" then Only(DataMissing)
        else BadRequest(400)
  }

  /** The SQL predicate for a status; a comparison with NULL selects no row. */
  predicate Matches(status: Status, pe: Option<real>, lower: Option<real>, upper: Option<real>)
  {
    match status
      case Underpriced => pe.Some? && lower.Some? && pe.value < lower.value
      case InRange => pe.Some? && lower.Some? && upper.Some? && pe.value >= lower.value && pe.value <= upper.value
      case Overpriced => pe.Some? && upper.Some? && pe.value > upper.value
      case DataMissing => pe.None? && lower.None? && upper.None?
  }

  predicate Selects(status: Status, st: Refresh.Stock)
  {
    Matches(status, st.currentPe, st.peLower, st.peUpper)
  }

  /** The rows the filter selects, in table order. */
  function Select(status: Status, stocks: seq<Refresh.Stock>): (r: seq<Refresh.Stock>)
    ensures |r| <= |stocks|
  {
    if stocks == [] then []
    else Select(status, stocks[..|stocks| - 1]) + (if Selects(status, stocks[|stocks| - 1]) then [stocks[|stocks| - 1]] else [])
  }

  /** The result of the valuation_status part of get_stocks. */
  datatype Listing = Rows(rows: seq<Refresh.Stock>) | HttpError(code: int)

  function FilterStocks(param: Option<string>, stocks: seq<Refresh.Stock>): Listing
  {
    match ParseStatus(param)
      case NoFilter => Rows(stocks)
      case Only(status) => Rows(Select(status, stocks))
      case BadRequest(code) => HttpError(code)
  }

  /** The filter keeps exactly the matching rows. */
  lemma {:induction false} SelectExact(status: Status, stocks: seq<Refresh.Stock>, st: Refresh.Stock)
    ensures st in Select(status, stocks) <==> st in stocks && Selects(status, st)
  {
    if stocks != [] {
      SelectExact(status, stocks[..|stocks| - 1], st);
      assert stocks == stocks[..|stocks| - 1] + [stocks[|stocks| - 1]];
    }
  }

  /** With a status, get_stocks returns exactly the rows that status selects; any other non-empty text is a 400. */
  lemma FilterStocksExact(param: Option<string>, stocks: seq<Refresh.Stock>, st: Refresh.Stock)
    ensures ParseStatus(param).Only? ==>
      FilterStocks(param, stocks).Rows? && (st in FilterStocks(param, stocks).rows <==> st in stocks && Selects(ParseStatus(param).status, st))
    ensures ParseStatus(param).BadRequest? <==> FilterStocks(param, stocks) == HttpError(400)
  {
    if ParseStatus(param).Only? {
      SelectExact(ParseStatus(param).status, stocks, st);
    }
  }

  /**
   * For a stock with all three values set, 低估 and 合理 select exactly the
   * undervalued and reasonable bands of the screening; 高估 selects the
   * overvalued band as long as lower <= upper; 数据缺失 selects nothing.
   */
  lemma FilterAgreesWithScreening(pe: real, lower: real, upper: real)
    ensures Matches(Underpriced, Some(pe), Some(lower), Some(upper)) <==> Classify(Some(pe), Some(lower), Some(upper)) == Undervalued
    ensures Matches(InRange, Some(pe), Some(lower), Some(upper)) <==> Classify(Some(pe), Some(lower), Some(upper)) == Reasonable
    ensures lower <= upper ==>
      (Matches(Overpriced, Some(pe), Some(lower), Some(upper)) <==> Classify(Some(pe), Some(lower), Some(upper)) == Overvalued)
    ensures !Matches(DataMissing, Some(pe), Some(lower), Some(upper))
  {
  }

  /** With lower <= upper, at most one status selects a stock. */
  lemma StatusesDisjoint(a: Status, b: Status, pe: Option<real>, lower: Option<real>, upper: Option<real>)
    requires lower.Some? && upper.Some? ==> lower.value <= upper.value
    requires Matches(a, pe, lower, upper) && Matches(b, pe, lower, upper)
    ensures a == b
  {
  }

  /**
   * The screening's unknown count and the 数据缺失 filter disagree on a
   * partly missing row: it is counted unknown, yet 数据缺失 does not select
   * it, and 低估 can.
   */
  lemma PartlyMissingRow()
    ensures Classify(Some(5.0), Some(10.0), None) == Unknown
    ensures !Matches(DataMissing, Some(5.0), Some(10.0), None)
    ensures Matches(Underpriced, Some(5.0), Some(10.0), None)
  {
  }

  /** An unknown row is selected by 数据缺失 exactly when all three values are missing. */
  lemma UnknownVersusMissing(pe: Option<real>, lower: Option<real>, upper: Option<real>)
    requires Classify(pe, lower, upper) == Unknown
    ensures Matches(DataMissing, pe, lower, upper) <==> pe.None? && lower.None? && upper.None?
    ensures !Matches(InRange, pe, lower, upper)
  {
  }
}
