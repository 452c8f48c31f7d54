/**
 * The whole-market update of app.py: the shared status map
 * full_market_update_status, the per-market run
 * update_full_market_data_by_market (fetch one market's quote table, upsert
 * every row into the whole-market table with a commit every BATCH_SIZE rows
 * and a rollback on a failed row) and the overall run
 * update_full_market_data_overall, which runs the three markets and
 * aggregates their results.
 *
 * The fetch is a parameter (a raised exception or a frame of rows), the
 * database is a committed map plus the pending changes of the session, the
 * clock is a parameter `now`, and log/message texts are a Note datatype.
 */
module MarketUpdate {
  import opened Common

  /** The three markets: "A股", "H股", "美股". */
  datatype Market = AShares | HShares | USShares

  /** The keys of the status map: one per market and "overall". */
  datatype Key = MarketKey(market: Market) | Overall

  /** The status values 空闲, 进行中, 完成, 失败, 部分失败. */
  datatype Phase = Idle | Running | Done | Failed | PartiallyFailed

  /** The message of a status entry, without the exception texts it embeds. */
  datatype Note =
    | NotStarted                                   // 未开始
    | Starting                                     // 开始更新 ...
    | Fetching                                     // 正在获取...股票数据
    | FetchFailed                                  // 获取...股票数据失败: e
    | EmptyFrame                                   // ...返回为空
    | Processing(count: nat)                       // 开始处理 n 只...股票
    | Cached(written: nat, count: nat, name: string, symbol: string)   // 正在缓存 ... (i+1/n)
    | Committed(written: nat, count: nat)          // 正在写入 ... 已提交一批次
    | Finished                                     // ...更新完成
    | Crashed                                      // 更新...失败: e
    | SubtaskFailed                                // 更新失败: e (the market's task raised)
    | OverallStarting                              // 开始更新所有市场...
    | AllFinished                                  // 所有市场...更新完成
    | SomeFailed                                   // 部分市场...更新失败

  /** One entry of full_market_update_status. */
  datatype Status = Status(phase: Phase, note: Note, progress: int)

  /** Rows between two commits of the whole-market table. */
  const BatchSize: nat := 100

  /** The order in which the overall run starts and inspects the markets. */
  const Markets: seq<Market> := [AShares, HShares, USShares]

  /** A second write to the same key hides the first. */
  lemma Overwrite(s: map<Key, Status>, k: Key, a: Status, b: Status)
    ensures s[k := a][k := b] == s[k := b]
  {
  }

  /** The status map has an entry for each market and for overall. */
  predicate Complete(s: map<Key, Status>)
  {
    MarketKey(AShares) in s && MarketKey(HShares) in s && MarketKey(USShares) in s && Overall in s
  }

  /** The status map at start-up: every key 空闲 / 未开始 / 0. */
  function InitialStatus(): map<Key, Status>
  {
    var idle := Status(Idle, NotStarted, 0);
    map[MarketKey(AShares) := idle, MarketKey(HShares) := idle, MarketKey(USShares) := idle, Overall := idle]
  }

  /** Every key starts 空闲 / 未开始 / 0. */
  lemma InitialStatusIdle()
    ensures forall k: Key :: k in InitialStatus() && InitialStatus()[k] == Status(Idle, NotStarted, 0)
  {
    forall k: Key
      ensures k in InitialStatus() && InitialStatus()[k] == Status(Idle, NotStarted, 0)
    {
      match k
      case Overall =>
      case MarketKey(m) => match m { case AShares => case HShares => case USShares => }
    }
  }

  /**
   * One row of a fetched frame. Malformed: the symbol column is missing
   * (any market) or the 名称 column is missing (A股; the other markets fall
   * back to other name columns), which raises outside the per-row try. Entry: the symbol (an
   * empty one is skipped), name, the optional price and change columns, and
   * whether writing the row raises (a float conversion, the query, the add
   * or the batch commit).
   */
  datatype Row =
    | Malformed
    | Entry(symbol: string, name: string, price: Option<real>, change: Option<real>, fails: bool)

  /** What the market fetch produced: an exception, or a frame of rows. */
  datatype Fetch = FetchRaised | Frame(rows: seq<Row>)

  /** The key of the whole-market table: a symbol within a market. */
  datatype Listing = Listing(symbol: string, market: Market)

  /** One row of the whole-market table. */
  datatype MarketStock = MarketStock(name: string, price: real, change: real, lastUpdated: int, isWatchlist: bool)

  type Table = map<Listing, MarketStock>

  /** A missing price or change column is stored as 0.0. */
  function OrZero(x: Option<real>): real
  {
    if x.Some? then x.value else 0.0
  }

  /** The progress after row i of n has been written: 5 + int(90 * (i + 1) / n). */
  function Progress(i: int, n: int): int
    requires 0 <= i < n
  {
    5 + (90 * (i + 1)) / n
  }

  /** A row is written, and the batch committed after it, at every BatchSize-th row and at the last row. */
  predicate CommitPoint(i: int, n: int)
  {
    (i + 1) % BatchSize == 0 || i + 1 == n
  }

  /** The upsert of one row: an existing row keeps its is_watchlist flag, a new one starts unwatched. */
  function Upserted(existing: Option<MarketStock>, name: string, price: real, change: real, now: int): (r: MarketStock)
    ensures r.name == name && r.price == price && r.change == change && r.lastUpdated == now
    ensures r.isWatchlist == (existing.Some? && existing.value.isWatchlist)
  {
    MarketStock(name, price, change, now, if existing.Some? then existing.value.isWatchlist else false)
  }

  // ---------------------------------------------------------------------
  // The row loop as a fold over the rows
  // ---------------------------------------------------------------------

  /**
   * The state of one run's row loop: the committed table, the changes made
   * since the last commit, the market's progress and message, and whether
   * the loop was left through the outer except.
   */
  datatype Batch = Batch(committed: Table, pending: Table, progress: int, note: Note, aborted: bool)

  /** The table as the session sees it: pending changes over the committed rows. */
  function Effective(b: Batch): Table
  {
    b.committed + b.pending
  }

  /** The row the session finds for a key, if any. */
  function Lookup(b: Batch, key: Listing): Option<MarketStock>
  {
    if key in Effective(b) then Some(Effective(b)[key]) else None
  }

  /** Pending changes take precedence over the committed rows. */
  lemma LookupCases(b: Batch, key: Listing)
    ensures Lookup(b, key) == if key in b.pending then Some(b.pending[key])
                              else if key in b.committed then Some(b.committed[key]) else None
  {
  }

  /** One iteration of the row loop, for row i of n of market m. */
  function Step(m: Market, n: int, now: int, b: Batch, i: int, row: Row): Batch
    requires 0 <= i < n
  {
    if b.aborted then b
    else match row
      case Malformed => b.(pending := map[], aborted := true)
      case Entry(symbol, name, price, change, fails) =>
        if symbol == "" then b
        else if fails then b.(pending := map[])
        else
          var key := Listing(symbol, m);
          var pending := b.pending[key := Upserted(Lookup(b, key), name, OrZero(price), OrZero(change), now)];
          if CommitPoint(i, n) then Batch(b.committed + pending, map[], Progress(i, n), Committed(i + 1, n), false)
          else Batch(b.committed, pending, Progress(i, n), Cached(i + 1, n, name, symbol), false)
  }

  /** The loop state after the first k rows. */
  function Fold(m: Market, now: int, b0: Batch, rows: seq<Row>, k: nat): Batch
    requires k <= |rows|
  {
    if k == 0 then b0 else Step(m, |rows|, now, Fold(m, now, b0, rows, k - 1), k - 1, rows[k - 1])
  }

  /** The loop state before the first row: progress 5 from the fetch, nothing pending. */
  function Start(table: Table, n: nat): Batch
  {
    Batch(table, map[], 5, Processing(n), false)
  }

  /** The market's final status and the table after update_full_market_data_by_market. */
  function RunResult(m: Market, fetched: Fetch, now: int, table: Table): (Status, Table)
  {
    match fetched
      case FetchRaised => (Status(Failed, FetchFailed, -1), table)
      case Frame(rows) =>
        if rows == [] then (Status(Failed, EmptyFrame, -1), table)
        else
          var b := Fold(m, now, Start(table, |rows|), rows, |rows|);
          if b.aborted then (Status(Failed, Crashed, -1), b.committed)
          else (Status(Done, Finished, 100), b.committed)
  }

  /** The table of the corrected run: the session's final pending batch is committed too. */
  function CorrectedTable(m: Market, fetched: Fetch, now: int, table: Table): Table
  {
    match fetched
      case FetchRaised => table
      case Frame(rows) =>
        if rows == [] then table
        else
          var b := Fold(m, now, Start(table, |rows|), rows, |rows|);
          if b.aborted then b.committed else Effective(b)
  }

  /** Does some row among the first k miss its symbol or name column? */
  predicate SomeMalformed(rows: seq<Row>, k: nat)
    requires k <= |rows|
  {
    exists j :: 0 <= j < k && rows[j].Malformed?
  }

  /** Once the loop has been left through the outer except, later rows change nothing. */
  lemma {:induction false} AbortSticks(m: Market, now: int, b0: Batch, rows: seq<Row>, k: nat)
    requires k <= |rows| && Fold(m, now, b0, rows, k).aborted
    ensures Fold(m, now, b0, rows, |rows|) == Fold(m, now, b0, rows, k)
    decreases |rows| - k
  {
    if k < |rows| {
      AbortSticks(m, now, b0, rows, k + 1);
    }
  }

  // ---------------------------------------------------------------------
  // The status map and the whole-market table, updated in place
  // ---------------------------------------------------------------------

  class MarketUpdater {
    /** full_market_update_status. */
    var status: map<Key, Status>
    /** The committed contents of the whole-market table. */
    var table: Table

    /** Every key of the status map is present. */
    ghost predicate Valid()
      reads this
    {
      Complete(status)
    }

    constructor(table0: Table)
      ensures Valid() && status == InitialStatus() && table == table0
    {
      InitialStatusIdle();
      status := InitialStatus();
      table := table0;
    }

    /**
     * update_full_market_data_by_market: reset the market to 进行中 / 0, fetch,
     * then walk the rows; the final status and table are RunResult's, and no
     * other status entry and no other market's row changes.
     */
    method RunMarket(m: Market, fetched: Fetch, now: int)
      requires Valid()
      modifies this
      ensures Valid()
      ensures status == old(status)[MarketKey(m) := RunResult(m, fetched, now, old(table)).0]
      ensures table == RunResult(m, fetched, now, old(table)).1
    {
      var key := MarketKey(m);
      ghost var s0 := status;
      status := status[key := Status(Running, Starting, 0)];
      status := status[key := Status(Running, Fetching, 5)];
      Overwrite(s0, key, Status(Running, Starting, 0), status[key]);
      if fetched.FetchRaised? {
        status := status[key := Status(Failed, FetchFailed, -1)];
        Overwrite(s0, key, Status(Running, Fetching, 5), status[key]);
        return;
      }
      var rows := fetched.rows;
      var n := |rows|;
      if n == 0 {
        status := status[key := Status(Failed, EmptyFrame, -1)];
        Overwrite(s0, key, Status(Running, Fetching, 5), status[key]);
        return;
      }
      status := status[key := Status(Running, Processing(n), 5)];
      Overwrite(s0, key, Status(Running, Fetching, 5), status[key]);
      var aborted := ProcessRows(m, rows, now);
      Overwrite(s0, key, Status(Running, Processing(n), 5), status[key]);
      ghost var running := status[key];
      if aborted {
        // a KeyError escaped to the outer except, which rolled back: 失败 / -1
        status := status[key := Status(Failed, Crashed, -1)];
        Overwrite(s0, key, running, status[key]);
        return;
      }
      // the session is closed: what is still pending is discarded
      status := status[key := Status(Done, Finished, 100)];
      Overwrite(s0, key, running, status[key]);
    }

    /**
     * The row loop of update_full_market_data_by_market: the table, progress
     * and message follow Fold row by row, and the loop stops at the first
     * row that escapes to the outer except.
     */
    method ProcessRows(m: Market, rows: seq<Row>, now: int) returns (aborted: bool)
      requires Valid() && status[MarketKey(m)] == Status(Running, Processing(|rows|), 5)
      modifies this
      ensures Valid()
      ensures var b := Fold(m, now, Start(old(table), |rows|), rows, |rows|);
        && aborted == b.aborted && table == b.committed
        && status == old(status)[MarketKey(m) := Status(Running, b.note, b.progress)]
    {
      var key := MarketKey(m);
      var n := |rows|;
      ghost var table0 := table;
      ghost var status0 := status;
      var pending: Table := map[];
      for i := 0 to n
        invariant key in status
        invariant Fold(m, now, Start(table0, n), rows, i)
               == Batch(table, pending, status[key].progress, status[key].note, false)
        invariant status == status0[key := Status(Running, status[key].note, status[key].progress)]
      {
        pending, aborted := ProcessRow(m, rows[i], i, n, now, pending);
        if aborted {
          AbortSticks(m, now, Start(table0, n), rows, i + 1);
          return;
        }
      }
      aborted := false;
    }

    /**
     * One pass of the row loop of update_full_market_data_by_market, for row
     * i of n: what Step says, with the market's entry staying 进行中;
     * `aborted` when the row left the loop through the outer except (after
     * its rollback).
     */
    method ProcessRow(m: Market, row: Row, i: int, n: int, now: int, pending0: Table)
      returns (pending: Table, aborted: bool)
      requires 0 <= i < n && MarketKey(m) in status
      modifies this
      ensures MarketKey(m) in status
      ensures Step(m, n, now, Batch(old(table), pending0, old(status)[MarketKey(m)].progress, old(status)[MarketKey(m)].note, false), i, row)
           == Batch(table, pending, status[MarketKey(m)].progress, status[MarketKey(m)].note, aborted)
      ensures status == old(status)[MarketKey(m) := Status(old(status)[MarketKey(m)].phase, status[MarketKey(m)].note, status[MarketKey(m)].progress)]
    {
      pending := pending0;
      aborted := false;
      var key := MarketKey(m);
      if row.Malformed? {
        pending := map[];
        aborted := true;
        return;
      }
      if row.symbol == "" {
        return;
      }
      if row.fails {
        pending := map[];
        return;
      }
      var listing := Listing(row.symbol, m);
      LookupCases(Batch(table, pending, status[key].progress, status[key].note, false), listing);
      var existing: Option<MarketStock> := None;
      if listing in pending {
        existing := Some(pending[listing]);
      } else if listing in table {
        existing := Some(table[listing]);
      }
      pending := pending[listing := Upserted(existing, row.name, OrZero(row.price), OrZero(row.change), now)];
      var phase := status[key].phase;
      if (i + 1) % BatchSize == 0 || i + 1 == n {
        table := table + pending;
        pending := map[];
        status := status[key := Status(phase, Committed(i + 1, n), 5 + (90 * (i + 1)) / n)];
      } else {
        status := status[key := Status(phase, Cached(i + 1, n, row.name, row.symbol), 5 + (90 * (i + 1)) / n)];
      }
    }

    /**
     * update_full_market_data_overall: 进行中 / 0 for overall, the three
     * markets in turn, then the aggregation of their results, where
     * `raised` is the set of markets whose task ended with an exception.
     */
    method RunAll(fetchA: Fetch, fetchH: Fetch, fetchUS: Fetch, raised: set<Market>, now: int)
      requires Valid()
      modifies this
      ensures Valid()
      ensures status == Aggregated(AfterRuns(old(status), fetchA, fetchH, fetchUS, now, old(table)).0, raised)
      ensures table == AfterRuns(old(status), fetchA, fetchH, fetchUS, now, old(table)).1
    {
      status := status[Overall := Status(Running, OverallStarting, 0)];
      RunMarket(AShares, fetchA, now);
      RunMarket(HShares, fetchH, now);
      RunMarket(USShares, fetchUS, now);
      AggregateResults(raised);
    }

    /**
     * The aggregation after gather: 失败 / -1 for each market whose task
     * raised, then overall 完成 / 100 when all_successful, 部分失败 / 99 otherwise.
     */
    method AggregateResults(raised: set<Market>)
      requires Valid()
      modifies this
      ensures Valid()
      ensures status == Aggregated(old(status), raised) && table == old(table)
    {
      var allSuccessful := true;
      for i := 0 to 3
        invariant table == old(table)
        invariant status == MarkRaised(old(status), raised, i)
        invariant allSuccessful == AllSuccessful(old(status), raised, i)
      {
        var market := Markets[i];
        MarkRaisedLater(old(status), raised, i, i);
        if market in raised {
          status := status[MarketKey(market) := Status(Failed, SubtaskFailed, -1)];
          allSuccessful := false;
        } else if status[MarketKey(market)].phase != Done {
          allSuccessful := false;
        }
      }
      if allSuccessful {
        status := status[Overall := Status(Done, AllFinished, 100)];
      } else {
        status := status[Overall := Status(PartiallyFailed, SomeFailed, 99)];
      }
    }
  }

  // ---------------------------------------------------------------------
  // The overall aggregation
  // ---------------------------------------------------------------------

  /** The status map and table after overall's own reset and the three market runs, in order. */
  function AfterRuns(s: map<Key, Status>, fetchA: Fetch, fetchH: Fetch, fetchUS: Fetch, now: int, table: Table)
    : (r: (map<Key, Status>, Table))
    ensures Complete(s) ==> Complete(r.0)
  {
    var t1 := RunResult(AShares, fetchA, now, table);
    var t2 := RunResult(HShares, fetchH, now, t1.1);
    var t3 := RunResult(USShares, fetchUS, now, t2.1);
    (s[Overall := Status(Running, OverallStarting, 0)]
      [MarketKey(AShares) := t1.0][MarketKey(HShares) := t2.0][MarketKey(USShares) := t3.0], t3.1)
  }

  /** The first k markets whose task raised, marked 失败 / -1. */
  function MarkRaised(s: map<Key, Status>, raised: set<Market>, k: nat): (r: map<Key, Status>)
    requires k <= |Markets| && Complete(s)
    ensures r.Keys == s.Keys
  {
    if k == 0 then s
    else
      var r := MarkRaised(s, raised, k - 1);
      if Markets[k - 1] in raised then r[MarketKey(Markets[k - 1]) := Status(Failed, SubtaskFailed, -1)] else r
  }

  /** Marking the first k markets leaves the entries of later markets alone. */
  lemma {:induction false} MarkRaisedLater(s: map<Key, Status>, raised: set<Market>, k: nat, j: nat)
    requires k <= j < |Markets| && Complete(s)
    ensures MarkRaised(s, raised, k)[MarketKey(Markets[j])] == s[MarketKey(Markets[j])]
  {
    if k > 0 {
      MarkRaisedLater(s, raised, k - 1, j);
    }
  }

  /** all_successful after the first k markets: none of them raised and each ended 完成. */
  predicate AllSuccessful(s: map<Key, Status>, raised: set<Market>, k: nat)
    requires k <= |Markets|
  {
    k == 0 ||
    (AllSuccessful(s, raised, k - 1) && Markets[k - 1] !in raised
     && MarketKey(Markets[k - 1]) in s && s[MarketKey(Markets[k - 1])].phase == Done)
  }

  /** The status map after update_full_market_data_overall's aggregation. */
  function Aggregated(s: map<Key, Status>, raised: set<Market>): map<Key, Status>
    requires Complete(s)
  {
    MarkRaised(s, raised, 3)[Overall :=
      if AllSuccessful(s, raised, 3) then Status(Done, AllFinished, 100)
      else Status(PartiallyFailed, SomeFailed, 99)]
  }

  // ---------------------------------------------------------------------
  // Progress
  // ---------------------------------------------------------------------

  /** Multiplying by a non-negative n keeps the order. */
  lemma MulMonotone(x: int, y: int, n: int)
    requires x <= y && n >= 0
    ensures x * n <= y * n
  {
    assert y * n - x * n == (y - x) * n;
  }

  /** Integer division by a positive n is monotone in the numerator. */
  lemma DivMonotone(a: int, b: int, n: int)
    requires 0 <= a <= b && n > 0
    ensures a / n <= b / n
  {
    var qa, qb := a / n, b / n;
    assert qa * n + a % n == a && qb * n + b % n == b;
    if qa > qb {
      MulMonotone(qb + 1, qa, n);
    }
  }

  /** Dividing a multiple of n by n. */
  lemma MulDiv(c: int, n: int)
    requires n > 0
    ensures (c * n) / n == c
  {
    var q, r := (c * n) / n, (c * n) % n;
    assert q * n + r == c * n && 0 <= r < n;
    assert (c - q) * n == r;
    if c - q >= 1 {
      MulMonotone(1, c - q, n);
    } else if c - q <= -1 {
      MulMonotone(c - q, -1, n);
    }
  }

  /** The progress while rows are written stays within [5, 95]. */
  lemma ProgressBounds(i: int, n: int)
    requires 0 <= i < n
    ensures 5 <= Progress(i, n) <= 95
  {
    DivMonotone(90 * (i + 1), 90 * n, n);
    MulDiv(90, n);
    assert 90 * n == n * 90;
  }

  /** A later row never shows a smaller progress. */
  lemma ProgressMonotone(i: int, j: int, n: int)
    requires 0 <= i <= j < n
    ensures Progress(i, n) <= Progress(j, n)
  {
    DivMonotone(90 * (i + 1), 90 * (j + 1), n);
  }

  /** The last row shows 95. */
  lemma ProgressLast(n: int)
    requires n > 0
    ensures Progress(n - 1, n) == 95
  {
    MulDiv(90, n);
  }

  /**
   * During the row loop the market's progress stays within [5, 95] and is
   * at most the progress of the row just handled.
   */
  lemma {:induction false} FoldProgress(m: Market, now: int, table: Table, rows: seq<Row>, k: nat)
    requires 0 < k <= |rows|
    ensures var p := Fold(m, now, Start(table, |rows|), rows, k).progress;
      5 <= p <= Progress(k - 1, |rows|) <= 95
  {
    ProgressBounds(k - 1, |rows|);
    if k > 1 {
      FoldProgress(m, now, table, rows, k - 1);
      ProgressMonotone(k - 2, k - 1, |rows|);
    }
  }

  /** The progress shown never decreases from one row to the next. */
  lemma FoldProgressNonDecreasing(m: Market, now: int, table: Table, rows: seq<Row>, k: nat)
    requires k < |rows|
    ensures Fold(m, now, Start(table, |rows|), rows, k).progress
         <= Fold(m, now, Start(table, |rows|), rows, k + 1).progress
  {
    ProgressBounds(k, |rows|);
    if k > 0 {
      FoldProgress(m, now, table, rows, k);
      ProgressMonotone(k - 1, k, |rows|);
    }
  }

  /** When the last row is written, the progress reaches 95 before the run is marked 完成. */
  lemma LastRowShows95(m: Market, now: int, table: Table, rows: seq<Row>)
    requires rows != [] && !SomeMalformed(rows, |rows|)
    requires var last := rows[|rows| - 1]; last.Entry? && last.symbol != "" && !last.fails
    ensures Fold(m, now, Start(table, |rows|), rows, |rows|).progress == 95
  {
    FoldAborted(m, now, table, rows, |rows| - 1);
    ProgressLast(|rows|);
  }

  // ---------------------------------------------------------------------
  // Terminal status
  // ---------------------------------------------------------------------

  /** The loop is left through the outer except exactly when some row so far is malformed. */
  lemma {:induction false} FoldAborted(m: Market, now: int, table: Table, rows: seq<Row>, k: nat)
    requires k <= |rows|
    ensures Fold(m, now, Start(table, |rows|), rows, k).aborted <==> SomeMalformed(rows, k)
  {
    if k > 0 {
      FoldAborted(m, now, table, rows, k - 1);
      if SomeMalformed(rows, k - 1) {
        var j :| 0 <= j < k - 1 && rows[j].Malformed?;
        assert 0 <= j < k && rows[j].Malformed?;
      }
    }
  }

  /** A fetch after which the run ends 完成: a non-empty frame with no malformed row. */
  predicate Clean(fetched: Fetch)
  {
    fetched.Frame? && fetched.rows != [] && !SomeMalformed(fetched.rows, |fetched.rows|)
  }

  /**
   * A run ends 完成 / 100 exactly after a clean fetch and 失败 / -1 otherwise;
   * rows whose write fails never change the terminal status.
   */
  lemma RunTerminal(m: Market, fetched: Fetch, now: int, table: Table)
    ensures var st := RunResult(m, fetched, now, table).0;
      && (st.phase == Done <==> Clean(fetched))
      && (st.phase == Done ==> st.progress == 100)
      && (st.phase != Done ==> st.phase == Failed && st.progress == -1)
  {
    if fetched.Frame? && fetched.rows != [] {
      FoldAborted(m, now, table, fetched.rows, |fetched.rows|);
    }
  }

  // ---------------------------------------------------------------------
  // The whole-market table
  // ---------------------------------------------------------------------

  /**
   * A written row upserts its listing into the table as the session sees it
   * (committing a batch does not change that view); every other listing keeps its row.
   */
  lemma WriteEffect(m: Market, n: int, now: int, b: Batch, i: int, row: Row)
    requires 0 <= i < n && !b.aborted && row.Entry? && row.symbol != "" && !row.fails
    ensures var key := Listing(row.symbol, m);
      Effective(Step(m, n, now, b, i, row))
        == Effective(b)[key := Upserted(Lookup(b, key), row.name, OrZero(row.price), OrZero(row.change), now)]
  {
    var key := Listing(row.symbol, m);
    var pending := b.pending[key := Upserted(Lookup(b, key), row.name, OrZero(row.price), OrZero(row.change), now)];
    assert b.committed + pending == Effective(b)[key := pending[key]];
  }

  /** A failed write rolls back every change since the last commit, not just its own row. */
  lemma FailEffect(m: Market, n: int, now: int, b: Batch, i: int, row: Row)
    requires 0 <= i < n && !b.aborted && row.Entry? && row.symbol != "" && row.fails
    ensures Effective(Step(m, n, now, b, i, row)) == b.committed == Step(m, n, now, b, i, row).committed
    ensures Step(m, n, now, b, i, row).progress == b.progress && Step(m, n, now, b, i, row).note == b.note
    ensures !Step(m, n, now, b, i, row).aborted
  {
    assert b.committed + map[] == b.committed;
  }

  /** Loop state b of market m has touched no other market's rows of table. */
  ghost predicate Confined(m: Market, table: Table, b: Batch)
  {
    forall l: Listing :: l.market != m ==>
      && l !in b.pending
      && (l in b.committed <==> l in table)
      && (l in table ==> b.committed[l] == table[l])
  }

  /** One row writes only into its own market. */
  lemma StepConfined(m: Market, n: int, now: int, table: Table, b: Batch, i: int, row: Row)
    requires 0 <= i < n && Confined(m, table, b)
    ensures Confined(m, table, Step(m, n, now, b, i, row))
  {
  }

  lemma {:induction false} FoldStaysInMarket(m: Market, now: int, table: Table, rows: seq<Row>, k: nat)
    requires k <= |rows|
    ensures Confined(m, table, Fold(m, now, Start(table, |rows|), rows, k))
  {
    if k > 0 {
      FoldStaysInMarket(m, now, table, rows, k - 1);
      var b := Fold(m, now, Start(table, |rows|), rows, k - 1);
      StepConfined(m, |rows|, now, table, b, k - 1, rows[k - 1]);
      assert Fold(m, now, Start(table, |rows|), rows, k) == Step(m, |rows|, now, b, k - 1, rows[k - 1]);
    }
  }

  /** A run of one market leaves every other market's rows of the table as they were. */
  lemma OtherMarketsUntouched(m: Market, fetched: Fetch, now: int, table: Table, l: Listing)
    requires l.market != m
    ensures l in RunResult(m, fetched, now, table).1 <==> l in table
    ensures l in table ==> RunResult(m, fetched, now, table).1[l] == table[l]
  {
    if fetched.Frame? && fetched.rows != [] {
      FoldStaysInMarket(m, now, table, fetched.rows, |fetched.rows|);
    }
  }

  // ---------------------------------------------------------------------
  // The final batch (see Findings in README.md)
  // ---------------------------------------------------------------------

  /** A row that only skips (an empty symbol). */
  predicate Skipped(row: Row)
  {
    row.Entry? && row.symbol == ""
  }

  /**
   * As written: a written row followed only by a row with an empty symbol is
   * never committed, although the run reports 完成 / 100.
   */
  lemma LostFinalBatch()
    ensures var rows := [Entry("600000", "浦发银行", Some(10.0), Some(1.0), false), Entry("", "", None, None, false)];
      var result := RunResult(AShares, Frame(rows), 0, map[]);
      && result.0 == Status(Done, Finished, 100)
      && Listing("600000", AShares) !in result.1
      && Listing("600000", AShares) in CorrectedTable(AShares, Frame(rows), 0, map[])
  {
    var rows := [Entry("600000", "浦发银行", Some(10.0), Some(1.0), false), Entry("", "", None, None, false)];
    var b1 := Fold(AShares, 0, Start(map[], 2), rows, 1);
    assert !CommitPoint(0, 2);
    assert Listing("600000", AShares) in b1.pending && b1.committed == map[];
  }

  /** Rows with an empty symbol change nothing in the loop state. */
  lemma {:induction false} SkippedRowsKeepState(m: Market, now: int, b0: Batch, rows: seq<Row>, j: nat, k: nat)
    requires j <= k <= |rows| && forall i :: j <= i < k ==> Skipped(rows[i])
    ensures Fold(m, now, b0, rows, k) == Fold(m, now, b0, rows, j)
  {
    if k > j {
      SkippedRowsKeepState(m, now, b0, rows, j, k - 1);
    }
  }

  /**
   * Corrected: after a run that reports 完成, the row written last (only
   * rows with an empty symbol follow it) is in the table with the values of that row.
   */
  lemma CorrectedKeepsLastWrite(m: Market, rows: seq<Row>, now: int, table: Table, j: nat)
    requires j < |rows| && !SomeMalformed(rows, |rows|)
    requires rows[j].Entry? && rows[j].symbol != "" && !rows[j].fails
    requires forall i :: j < i < |rows| ==> Skipped(rows[i])
    ensures var key := Listing(rows[j].symbol, m);
      var t := CorrectedTable(m, Frame(rows), now, table);
      && key in t && t[key].name == rows[j].name && t[key].price == OrZero(rows[j].price)
      && t[key].change == OrZero(rows[j].change) && t[key].lastUpdated == now
  {
    var b0 := Start(table, |rows|);
    FoldAborted(m, now, table, rows, j);
    FoldAborted(m, now, table, rows, |rows|);
    WriteEffect(m, |rows|, now, Fold(m, now, b0, rows, j), j, rows[j]);
    SkippedRowsKeepState(m, now, b0, rows, j + 1, |rows|);
  }

  // ---------------------------------------------------------------------
  // The overall result
  // ---------------------------------------------------------------------

  /** The aggregated entry of the j-th market: 失败 / -1 when its task raised, its own result otherwise. */
  lemma {:induction false} MarkRaisedAt(s: map<Key, Status>, raised: set<Market>, k: nat, j: nat)
    requires Complete(s) && j < k <= |Markets|
    ensures MarkRaised(s, raised, k)[MarketKey(Markets[j])]
         == if Markets[j] in raised then Status(Failed, SubtaskFailed, -1) else s[MarketKey(Markets[j])]
  {
    if j == k - 1 {
      MarkRaisedLater(s, raised, k - 1, j);
    } else {
      MarkRaisedAt(s, raised, k - 1, j);
    }
  }

  /** all_successful after k markets: each of them did not raise and ended 完成. */
  lemma {:induction false} AllSuccessfulIff(s: map<Key, Status>, raised: set<Market>, k: nat)
    requires Complete(s) && k <= |Markets|
    ensures AllSuccessful(s, raised, k)
        <==> forall j :: 0 <= j < k ==> Markets[j] !in raised && s[MarketKey(Markets[j])].phase == Done
  {
    if k > 0 {
      AllSuccessfulIff(s, raised, k - 1);
    }
  }

  /**
   * Overall ends 完成 / 100 exactly when no market task raised and every
   * fetch was clean, and 部分失败 / 99 otherwise, even when every market
   * failed; a market whose task raised ends 失败 / -1, the others with their run's result.
   */
  lemma OverallOutcome(s: map<Key, Status>, fetchA: Fetch, fetchH: Fetch, fetchUS: Fetch, raised: set<Market>,
                       now: int, table: Table)
    requires Complete(s)
    ensures var r := Aggregated(AfterRuns(s, fetchA, fetchH, fetchUS, now, table).0, raised);
      && (r[Overall] == Status(Done, AllFinished, 100) <==> raised == {} && Clean(fetchA) && Clean(fetchH) && Clean(fetchUS))
      && (r[Overall] != Status(Done, AllFinished, 100) ==> r[Overall] == Status(PartiallyFailed, SomeFailed, 99))
      && (AShares in raised ==> r[MarketKey(AShares)] == Status(Failed, SubtaskFailed, -1))
      && (HShares in raised ==> r[MarketKey(HShares)] == Status(Failed, SubtaskFailed, -1))
      && (USShares in raised ==> r[MarketKey(USShares)] == Status(Failed, SubtaskFailed, -1))
  {
    var t1 := RunResult(AShares, fetchA, now, table);
    var t2 := RunResult(HShares, fetchH, now, t1.1);
    RunTerminal(AShares, fetchA, now, table);
    RunTerminal(HShares, fetchH, now, t1.1);
    RunTerminal(USShares, fetchUS, now, t2.1);
    var s3 := AfterRuns(s, fetchA, fetchH, fetchUS, now, table).0;
    assert raised == {} <==> AShares !in raised && HShares !in raised && USShares !in raised by {
      if raised != {} {
        var mk :| mk in raised;
        assert mk == AShares || mk == HShares || mk == USShares;
      }
    }
    AllSuccessfulIff(s3, raised, 3);
    assert Markets[0] == AShares && Markets[1] == HShares && Markets[2] == USShares;
    MarkRaisedAt(s3, raised, 3, 0);
    MarkRaisedAt(s3, raised, 3, 1);
    MarkRaisedAt(s3, raised, 3, 2);
  }
}
