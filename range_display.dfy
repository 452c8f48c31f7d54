// The range bars of the Dashboard and Watchlist pages (PERangeDisplay and
// PriceRangeDisplay, written out identically in both pages): when a bar is
// drawn at all, and when its current-value dot is marked in range.

module RangeDisplay {
  import opened Common
  import Refresh
  import Watchlist

  /** A bar is drawn, instead of "-", when all four values are present and not all zero. */
  predicate Shown(lower: Option<real>, mid: Option<real>, upper: Option<real>, current: Option<real>)
  {
    lower.Some? && mid.Some? && upper.Some? && current.Some?
    && !(lower.value == 0.0 && mid.value == 0.0 && upper.value == 0.0 && current.value == 0.0)
  }

  /** The in-range flag of the current-value dot. */
  predicate InRange(lower: real, upper: real, current: real)
  {
    current >= lower && current <= upper
  }

  /**
   * A stock revalued with roe below 0.03 has no mid values, so both of its
   * bars show "-", although its interval columns hold [0, 0].
   */
  lemma LowRoeRowHidden(st: Refresh.Stock, q: Refresh.Quote, now: int)
    requires Refresh.AllTruthy(Refresh.Merge(st, q)) && Refresh.Merge(st, q).roe.value < 0.03
    ensures var r := Refresh.WatchlistRefreshed(st, q, now);
      && !Shown(r.peLower, r.peMid, r.peUpper, r.currentPe)
      && !Shown(r.priceLower, r.priceMid, r.priceUpper, r.currentPrice)
  {
    Refresh.StoredIntervalOrdered(st, q, now);
  }

  /**
   * A stock revalued with roe of at least 0.05 has a mid value between the
   * interval's ends, so on the Watchlist page's bar the mid line is drawn
   * inside the fill and the fill never has negative width.
   */
  lemma RevaluedBarOrdered(st: Refresh.Stock, q: Refresh.Quote, now: int)
    requires Refresh.AllTruthy(Refresh.Merge(st, q)) && Refresh.Merge(st, q).roe.value >= 0.05
    ensures var r := Refresh.WatchlistRefreshed(st, q, now);
      && r.peLower.Some? && r.peMid.Some? && r.peUpper.Some?
      && r.peLower.value <= r.peMid.value <= r.peUpper.value
      && (r.currentPe.Some? ==>
            var l, m, u, c := r.peLower.value, r.peMid.value, r.peUpper.value, r.currentPe.value;
            Watchlist.Position(l, m, u, c, l) <= Watchlist.Position(l, m, u, c, m) <= Watchlist.Position(l, m, u, c, u))
  {
    Refresh.StoredIntervalOrdered(st, q, now);
    var r := Refresh.WatchlistRefreshed(st, q, now);
    if r.currentPe.Some? {
      var l, m, u, c := r.peLower.value, r.peMid.value, r.peUpper.value, r.currentPe.value;
      Watchlist.PositionMonotone(l, m, u, c, l, m);
      Watchlist.PositionMonotone(l, m, u, c, m, u);
    }
  }
}
