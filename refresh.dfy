// The per-stock refresh of the watchlist table: the record merge of a
// fetched quote, the valuation recompute, and the two refresh loops of
// app.py (the scheduled update_watchlist_stocks and the background
// update_stock_data_for_symbols), which differ in their guard and in how a
// failure ends the loop.

module Refresh {
  import opened Common
  import Valuation

  /** A row of the stocks table (the key, the unique symbol, is the key of the store's map). */
  datatype Stock = Stock(
    name: string, market: string,
    bvps: Option<real>, roe: Option<real>, pgr: Option<real>, rrr: Option<real>,
    currentPe: Option<real>,
    peLower: Option<real>, peUpper: Option<real>, priceLower: Option<real>, priceUpper: Option<real>,
    peMid: Option<real>, priceMid: Option<real>,
    currentPrice: Option<real>, marketCap: Option<real>, volume: Option<real>, changePercent: Option<real>,
    lastUpdated: int, autoUpdate: bool)

  /**
   * What fetch_stock_data_akshare returns: the empty dict when the lookup or
   * the parsing fails, or a record with every key present, each missing
   * number already defaulted to 0.0 (the ratio current_pe stays optional).
   */
  datatype Quote =
    | NoData
    | Quote(price: real, change: real, volume: real, marketCap: real, name: string,
            currentPe: Option<real>, eps: real, bvps: real)

  /** The fetched roe: eps / bvps, or 0.0 when bvps is 0. */
  function QuoteRoe(q: Quote): (roe: real)
    requires q.Quote?
    ensures roe == 0.0 <==> q.eps == 0.0 || q.bvps == 0.0
    ensures Valuation.InDomain(q.bvps, roe)
  {
    if q.bvps != 0.0 then
      if q.eps != 0.0 then Valuation.NonZeroProduct(q.eps / q.bvps, q.bvps); q.eps / q.bvps
      else q.eps / q.bvps
    else 0.0
  }

  /**
   * A stored row whose book value and roe, when both are set, give finite
   * ratios (a zero book value with roe of at least 0.03 would give float('inf')).
   */
  predicate StoredOk(st: Stock)
  {
    st.bvps.Some? && st.roe.Some? ==> Valuation.InDomain(st.bvps.value, st.roe.value)
  }

  predicate StoreOk(stocks: map<string, Stock>)
  {
    forall s :: s in stocks ==> StoredOk(stocks[s])
  }

  /**
   * The merge of a fetched quote into a row. An empty result changes
   * nothing; a non-empty one has every key, so each market-data field is
   * overwritten whether the source reads it with or without a default.
   */
  function Merge(st: Stock, q: Quote): (r: Stock)
    ensures StoredOk(st) ==> StoredOk(r)
  {
    match q
      case NoData => st
      case Quote(price, change, volume, marketCap, name, currentPe, eps, bvps) =>
        st.(currentPrice := Some(price), changePercent := Some(change), volume := Some(volume),
            marketCap := Some(marketCap), name := name, currentPe := currentPe,
            roe := Some(QuoteRoe(q)), bvps := Some(bvps))
  }

  /** The six valuation columns written from a valuation result. */
  function WithValuation(st: Stock, v: Valuation.Valuation): Stock
  {
    st.(peLower := Some(v.peLower), peUpper := Some(v.peUpper),
        priceLower := Some(v.priceLower), priceUpper := Some(v.priceUpper),
        peMid := v.peMid, priceMid := v.priceMid)
  }

  /** The guard of update_watchlist_stocks: all four inputs set and non-zero. */
  predicate AllTruthy(st: Stock)
  {
    Truthy(st.bvps) && Truthy(st.roe) && Truthy(st.pgr) && Truthy(st.rrr)
  }

  /** The guard of update_stock_data_for_symbols: all four inputs set. */
  predicate AllPresent(st: Stock)
  {
    st.bvps.Some? && st.roe.Some? && st.pgr.Some? && st.rrr.Some?
  }

  /** One row after update_watchlist_stocks, when its commit succeeds. */
  function WatchlistRefreshed(st: Stock, q: Quote, now: int): Stock
  {
    var m := Merge(st, q);
    var valued :=
      if AllTruthy(m) then WithValuation(m, Valuation.Valuate(m.bvps.value, m.roe.value, m.pgr.value, m.rrr.value).v)
      else m;
    valued.(lastUpdated := now)
  }

  /**
   * One row after update_stock_data_for_symbols, or None when the valuation
   * raises ZeroDivisionError (roe 0.0), which its except ValueError does not catch.
   */
  function SymbolRefreshed(st: Stock, q: Quote, now: int): (r: Option<Stock>)
    requires StoredOk(st)
    ensures r.Some? ==> StoredOk(r.value)
  {
    var m := Merge(st, q);
    if AllPresent(m) then
      match Valuation.Valuate(m.bvps.value, m.roe.value, m.pgr.value, m.rrr.value)
        case ZeroDivisionError => None
        case Valued(v) => Some(WithValuation(m, v).(lastUpdated := now))
    else Some(m.(lastUpdated := now))
  }

  /** The fetch result for a symbol; a symbol without an entry gets the empty result. */
  function QuoteFor(quotes: map<string, Quote>, symbol: string): Quote
  {
    if symbol in quotes then quotes[symbol] else NoData
  }

  /** The refresh of one row by update_watchlist_stocks, as a function of its symbol and row. */
  function Refresher(quotes: map<string, Quote>, now: int): (string, Stock) -> Stock
  {
    (s: string, st: Stock) => WatchlistRefreshed(st, QuoteFor(quotes, s), now)
  }

  /**
   * A table with f applied to every auto-update row whose commit succeeds;
   * every other row (including one whose commit raised and was rolled
   * back) is as before.
   */
  function RefreshAll(stocks: map<string, Stock>, failing: set<string>, f: (string, Stock) -> Stock): map<string, Stock>
  {
    map s | s in stocks :: if stocks[s].autoUpdate && s !in failing then f(s, stocks[s]) else stocks[s]
  }

  /** The table after update_watchlist_stocks, independent of the order the rows come in. */
  function WatchlistRefresh(stocks: map<string, Stock>, quotes: map<string, Quote>, failing: set<string>, now: int)
    : map<string, Stock>
  {
    RefreshAll(stocks, failing, Refresher(quotes, now))
  }

  /** The table after the loop has visited the first k symbols of due, in order. */
  function RefreshInOrder(stocks: map<string, Stock>, due: seq<string>, failing: set<string>,
                          f: (string, Stock) -> Stock, k: nat): map<string, Stock>
    requires k <= |due|
  {
    if k == 0 then stocks
    else
      var t := RefreshInOrder(stocks, due, failing, f, k - 1);
      var s := due[k - 1];
      if s in t && s !in failing then t[s := f(s, t[s])] else t
  }

  /** The loop state of update_stock_data_for_symbols. */
  datatype SymbolsState = SymbolsState(stocks: map<string, Stock>, aborted: bool)

  /**
   * One (symbol, market) pair: a pair with no such row is skipped; a raise
   * (from the valuation or from the commit) ends the loop with the current
   * row uncommitted.
   */
  function SymbolsStep(b: SymbolsState, symbol: string, market: string, quotes: map<string, Quote>,
                       failing: set<string>, now: int): (r: SymbolsState)
    requires StoreOk(b.stocks)
    ensures StoreOk(r.stocks)
  {
    if b.aborted then b
    else if symbol in b.stocks && b.stocks[symbol].market == market then
      match SymbolRefreshed(b.stocks[symbol], QuoteFor(quotes, symbol), now)
        case None => b.(aborted := true)
        case Some(st) => if symbol in failing then b.(aborted := true) else b.(stocks := b.stocks[symbol := st])
    else b
  }

  /** The loop state after the first k pairs of zip(symbols, markets). */
  function SymbolsFold(stocks: map<string, Stock>, symbols: seq<string>, markets: seq<string>,
                       quotes: map<string, Quote>, failing: set<string>, now: int, k: nat): (r: SymbolsState)
    requires k <= |symbols| && k <= |markets| && StoreOk(stocks)
    ensures StoreOk(r.stocks)
  {
    if k == 0 then SymbolsState(stocks, false)
    else SymbolsStep(SymbolsFold(stocks, symbols, markets, quotes, failing, now, k - 1),
                     symbols[k - 1], markets[k - 1], quotes, failing, now)
  }

  /** The number of pairs zip yields. */
  function ZipLength(symbols: seq<string>, markets: seq<string>): (n: nat)
    ensures n <= |symbols| && n <= |markets| && (n == |symbols| || n == |markets|)
  {
    if |symbols| <= |markets| then |symbols| else |markets|
  }

  /** The stocks table. */
  class StockStore {
    var stocks: map<string, Stock>

    constructor(stocks0: map<string, Stock>)
      ensures stocks == stocks0
    {
      stocks := stocks0;
    }

    /**
     * update_watchlist_stocks over the auto-update rows, listed in due; the
     * rows whose commit raises (failing) are rolled back and the loop goes on.
     */
    method UpdateWatchlistStocks(due: seq<string>, quotes: map<string, Quote>, failing: set<string>, now: int)
      modifies this
      requires forall s :: s in due <==> s in stocks && stocks[s].autoUpdate
      requires forall i, j :: 0 <= i < j < |due| ==> due[i] != due[j]
      ensures stocks == WatchlistRefresh(old(stocks), quotes, failing, now)
    {
      ghost var s0 := stocks;
      ghost var f := Refresher(quotes, now);
      var i := 0;
      while i < |due|
        invariant 0 <= i <= |due|
        invariant stocks == RefreshInOrder(s0, due, failing, f, i)
      {
        var symbol := due[i];
        if symbol in stocks && symbol !in failing {
          var updated := WatchlistRefreshed(stocks[symbol], QuoteFor(quotes, symbol), now);
          assert updated == f(symbol, stocks[symbol]);
          stocks := stocks[symbol := updated];
        }
        i := i + 1;
      }
      InOrderIsOrderFree(s0, due, failing, f);
    }

    /**
     * update_stock_data_for_symbols over zip(symbols, markets): aborted
     * reports that a raise ended the loop early.
     */
    method UpdateStockDataForSymbols(symbols: seq<string>, markets: seq<string>, quotes: map<string, Quote>,
                                     failing: set<string>, now: int)
      returns (aborted: bool)
      modifies this
      requires StoreOk(stocks)
      ensures SymbolsFold(old(stocks), symbols, markets, quotes, failing, now, ZipLength(symbols, markets))
           == SymbolsState(stocks, aborted)
    {
      ghost var s0 := stocks;
      var n := ZipLength(symbols, markets);
      var i := 0;
      while i < n
        invariant 0 <= i <= n
        invariant SymbolsFold(s0, symbols, markets, quotes, failing, now, i) == SymbolsState(stocks, false)
      {
        var symbol, market := symbols[i], markets[i];
        ghost var next := SymbolsStep(SymbolsState(stocks, false), symbol, market, quotes, failing, now);
        assert SymbolsFold(s0, symbols, markets, quotes, failing, now, i + 1) == next;
        if symbol in stocks && stocks[symbol].market == market {
          var refreshed := SymbolRefreshed(stocks[symbol], QuoteFor(quotes, symbol), now);
          if refreshed.None? || symbol in failing {
            SymbolsAbortSticks(s0, symbols, markets, quotes, failing, now, i + 1, n);
            return true;
          }
          stocks := stocks[symbol := refreshed.value];
        }
        assert next == SymbolsState(stocks, false);
        i := i + 1;
      }
      return false;
    }
  }

  // ---------------------------------------------------------------------
  // Properties
  // ---------------------------------------------------------------------

  /**
   * Row by row: after the first k distinct symbols of due, each visited row
   * whose commit succeeded holds f of its original value and every other row
   * is unchanged.
   */
  lemma {:induction false} InOrderRowByRow(stocks: map<string, Stock>, due: seq<string>, failing: set<string>,
                                           f: (string, Stock) -> Stock, k: nat)
    requires k <= |due| && forall i, j :: 0 <= i < j < |due| ==> due[i] != due[j]
    ensures var t := RefreshInOrder(stocks, due, failing, f, k);
      && t.Keys == stocks.Keys
      && (forall j :: 0 <= j < k && due[j] in stocks ==>
            t[due[j]] == if due[j] !in failing then f(due[j], stocks[due[j]]) else stocks[due[j]])
      && (forall s :: s in stocks && (forall j :: 0 <= j < k ==> due[j] != s) ==> t[s] == stocks[s])
  {
    if k > 0 {
      InOrderRowByRow(stocks, due, failing, f, k - 1);
      var t0, t := RefreshInOrder(stocks, due, failing, f, k - 1), RefreshInOrder(stocks, due, failing, f, k);
      var s := due[k - 1];
      assert t == if s in t0 && s !in failing then t0[s := f(s, t0[s])] else t0;
      assert s in stocks ==> t0[s] == stocks[s];
      forall j | 0 <= j < k && due[j] in stocks
        ensures t[due[j]] == if due[j] !in failing then f(due[j], stocks[due[j]]) else stocks[due[j]]
      {
        if j < k - 1 {
          assert due[j] != s;
        }
      }
      forall u | u in stocks && (forall j :: 0 <= j < k ==> due[j] != u)
        ensures t[u] == stocks[u]
      {
        assert u != s;
      }
    }
  }

  /**
   * With due listing exactly the auto-update rows, once each, the order of
   * the loop does not matter: the result is RefreshAll.
   */
  lemma InOrderIsOrderFree(stocks: map<string, Stock>, due: seq<string>, failing: set<string>, f: (string, Stock) -> Stock)
    requires forall s :: s in due <==> s in stocks && stocks[s].autoUpdate
    requires forall i, j :: 0 <= i < j < |due| ==> due[i] != due[j]
    ensures RefreshInOrder(stocks, due, failing, f, |due|) == RefreshAll(stocks, failing, f)
  {
    var t, r := RefreshInOrder(stocks, due, failing, f, |due|), RefreshAll(stocks, failing, f);
    InOrderRowByRow(stocks, due, failing, f, |due|);
    forall s | s in stocks
      ensures t[s] == r[s]
    {
      if s in due {
        var j :| 0 <= j < |due| && due[j] == s;
      }
    }
  }

  /** Once a raise has ended update_stock_data_for_symbols, no later pair changes anything. */
  lemma {:induction false} SymbolsAbortSticks(stocks: map<string, Stock>, symbols: seq<string>, markets: seq<string>,
                                              quotes: map<string, Quote>, failing: set<string>, now: int, k: nat, j: nat)
    requires k <= j <= |symbols| && j <= |markets| && StoreOk(stocks)
    requires SymbolsFold(stocks, symbols, markets, quotes, failing, now, k).aborted
    ensures SymbolsFold(stocks, symbols, markets, quotes, failing, now, j)
         == SymbolsFold(stocks, symbols, markets, quotes, failing, now, k)
  {
    if j > k {
      SymbolsAbortSticks(stocks, symbols, markets, quotes, failing, now, k, j - 1);
    }
  }

  /**
   * A fetched roe of 0.0 (zero earnings or zero book value) for a row with
   * both rates set makes update_stock_data_for_symbols raise ZeroDivisionError.
   */
  lemma ZeroRoeRaises(st: Stock, q: Quote, now: int)
    requires StoredOk(st) && st.pgr.Some? && st.rrr.Some?
    requires q.Quote? && (q.eps == 0.0 || q.bvps == 0.0)
    ensures SymbolRefreshed(st, q, now) == None
  {
    assert QuoteRoe(q) == 0.0;
  }

  /**
   * A fetched roe of 0.0 (zero earnings or zero book value) for a row with
   * both rates set raises in update_stock_data_for_symbols: that row and
   * every later pair are left as they were.
   */
  lemma ZeroRoeStopsRemaining(stocks: map<string, Stock>, symbols: seq<string>, markets: seq<string>,
                              quotes: map<string, Quote>, failing: set<string>, now: int, k: nat)
    requires k < |symbols| && k < |markets| && StoreOk(stocks)
    requires var b := SymbolsFold(stocks, symbols, markets, quotes, failing, now, k);
      && !b.aborted && symbols[k] in b.stocks && b.stocks[symbols[k]].market == markets[k]
      && b.stocks[symbols[k]].pgr.Some? && b.stocks[symbols[k]].rrr.Some?
    requires var q := QuoteFor(quotes, symbols[k]); q.Quote? && (q.eps == 0.0 || q.bvps == 0.0)
    ensures forall j :: k < j <= ZipLength(symbols, markets) ==>
      SymbolsFold(stocks, symbols, markets, quotes, failing, now, j)
        == SymbolsState(SymbolsFold(stocks, symbols, markets, quotes, failing, now, k).stocks, true)
  {
    var b := SymbolsFold(stocks, symbols, markets, quotes, failing, now, k);
    ZeroRoeRaises(b.stocks[symbols[k]], QuoteFor(quotes, symbols[k]), now);
    assert SymbolsFold(stocks, symbols, markets, quotes, failing, now, k + 1) == SymbolsState(b.stocks, true);
    forall j | k < j <= ZipLength(symbols, markets)
      ensures SymbolsFold(stocks, symbols, markets, quotes, failing, now, j) == SymbolsState(b.stocks, true)
    {
      SymbolsAbortSticks(stocks, symbols, markets, quotes, failing, now, k + 1, j);
    }
  }

  /**
   * The same fetched roe of 0.0 does not raise in update_watchlist_stocks:
   * its guard skips the valuation, so the row keeps its old valuation columns.
   */
  lemma ZeroRoeKeepsOldValuation(st: Stock, q: Quote, now: int)
    requires q.Quote? && (q.eps == 0.0 || q.bvps == 0.0)
    ensures var r := WatchlistRefreshed(st, q, now);
      && r.peLower == st.peLower && r.peUpper == st.peUpper
      && r.priceLower == st.priceLower && r.priceUpper == st.priceUpper
      && r.peMid == st.peMid && r.priceMid == st.priceMid
      && r.roe == Some(0.0) && r.lastUpdated == now
  {
  }

  /**
   * update_watchlist_stocks recomputes the valuation only when all four
   * inputs are non-zero; otherwise the row keeps its previous, possibly stale,
   * valuation columns.
   */
  lemma NoRevaluationKeepsInterval(st: Stock, q: Quote, now: int)
    requires !AllTruthy(Merge(st, q))
    ensures var r := WatchlistRefreshed(st, q, now);
      && r.peLower == st.peLower && r.peUpper == st.peUpper
      && r.priceLower == st.priceLower && r.priceUpper == st.priceUpper
      && r.peMid == st.peMid && r.priceMid == st.priceMid
  {
  }

  /**
   * An empty fetch result keeps every market-data column (the .get default
   * is the old value); only last_updated and the valuation may change.
   */
  lemma EmptyFetchKeepsMarketData(st: Stock, now: int)
    ensures var r := WatchlistRefreshed(st, NoData, now);
      && r.currentPrice == st.currentPrice && r.changePercent == st.changePercent
      && r.volume == st.volume && r.marketCap == st.marketCap && r.name == st.name
      && r.currentPe == st.currentPe && r.roe == st.roe && r.bvps == st.bvps
      && r.lastUpdated == now
  {
  }

  /**
   * A recomputed valuation is stored as an ordered interval (lower <= upper
   * for both ratio and price); from roe >= 0.05 on, the stored mid values lie
   * inside it, and below roe 0.03 the interval is [0, 0] with no mid values.
   */
  lemma StoredIntervalOrdered(st: Stock, q: Quote, now: int)
    requires AllTruthy(Merge(st, q))
    ensures var r := WatchlistRefreshed(st, q, now);
      && r.peLower.Some? && r.peUpper.Some? && r.priceLower.Some? && r.priceUpper.Some?
      && r.peLower.value <= r.peUpper.value && r.priceLower.value <= r.priceUpper.value
      && (r.roe.value >= 0.05 ==>
            r.peMid.Some? && r.priceMid.Some?
            && r.peLower.value <= r.peMid.value <= r.peUpper.value
            && r.priceLower.value <= r.priceMid.value <= r.priceUpper.value)
      && (r.roe.value < 0.03 ==>
            r.peLower == r.peUpper == r.priceLower == r.priceUpper == Some(0.0)
            && r.peMid.None? && r.priceMid.None?)
  {
    var m := Merge(st, q);
    var bvps, roe, pgr, rrr := m.bvps.value, m.roe.value, m.pgr.value, m.rrr.value;
    if roe >= 0.03 {
      Valuation.BoundsAreExtremes(bvps, roe, pgr, rrr);
      if roe >= 0.05 {
        Valuation.MidWithinBounds(bvps, roe, pgr, rrr);
      }
    } else {
      Valuation.FallbackIff(bvps, roe, pgr, rrr);
    }
  }

  /**
   * The two refresh paths agree on a fetched row whose four inputs are all
   * non-zero: the different guards and defaults only matter otherwise.
   */
  lemma RefreshesAgree(st: Stock, q: Quote, now: int)
    requires StoredOk(st) && q.Quote? && AllTruthy(Merge(st, q))
    ensures SymbolRefreshed(st, q, now) == Some(WatchlistRefreshed(st, q, now))
  {
  }

  /** update_watchlist_stocks keeps the table's finite-ratio invariant. */
  lemma WatchlistKeepsStoreOk(stocks: map<string, Stock>, quotes: map<string, Quote>, failing: set<string>, now: int)
    requires StoreOk(stocks)
    ensures StoreOk(WatchlistRefresh(stocks, quotes, failing, now))
  {
    var r := WatchlistRefresh(stocks, quotes, failing, now);
    forall s | s in r
      ensures StoredOk(r[s])
    {
      assert StoredOk(stocks[s]);
    }
  }
}
