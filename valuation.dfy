/**
 * The valuation engine of app.py (calculate_valuation): the Gordon growth
 * (dividend-discount) model evaluated on a fixed 2x2 grid of growth and
 * required-return assumptions, reported as a [lower, upper] interval, plus a
 * "mid" point from fixed assumptions and an "exact" point from the caller's
 * own rates. Arithmetic is over real numbers; the 4-decimal rounding of the
 * response is not modelled.
 */
module Valuation {
  import opened Common

  /** Perpetual growth rates of the sensitivity grid. */
  const GrowthGrid: seq<real> := [0.03, 0.05]
  /** Required return rates of the sensitivity grid. */
  const ReturnGrid: seq<real> := [0.08, 0.15]
  /** Fixed assumptions of the reported "mid" point. */
  const MidGrowth: real := 0.05
  const MidReturn: real := 0.10

  /** One evaluation of the model for one (growth, return) pair. */
  datatype Point = Point(retention: real, dividendRatio: real, dividendPerShare: real, price: real, pe: real)

  /** The fields of the valuation response; the optional ones are None when not set. */
  datatype Valuation = Valuation(
    eps: real, retentionRatio: real, dividendRatio: real, dividendPerShare: real,
    priceLower: real, priceUpper: real, peLower: real, peUpper: real,
    priceMid: Option<real>, peMid: Option<real>,
    priceExact: Option<real>, peExact: Option<real>)

  /** A valuation, or the ZeroDivisionError that roe == 0 raises. */
  datatype Outcome = Valued(v: Valuation) | ZeroDivisionError

  /**
   * Inputs for which every price/earnings ratio is finite: a zero book value
   * is allowed only when no grid pair survives (roe below 0.03), since a
   * surviving pair would divide its price by a zero eps (the source would
   * report float('inf'), which is not modelled).
   */
  predicate InDomain(bvps: real, roe: real)
  {
    bvps == 0.0 ==> roe < 0.03
  }

  /**
   * A pair with growth rate g gives a finite ratio: the book value is
   * non-zero, or the pair is dropped because roe is below a positive g.
   */
  predicate FiniteAt(bvps: real, roe: real, g: real)
  {
    bvps != 0.0 || (0.0 < g && roe < g)
  }

  /** FiniteAt for every growth rate of gs. */
  predicate FiniteGrid(bvps: real, roe: real, gs: seq<real>)
  {
    forall g :: g in gs ==> FiniteAt(bvps, roe, g)
  }

  /** The retention ratio g / roe lies in [0, 1]: the grid keeps the pair. */
  predicate Retained(g: real, roe: real)
    requires roe != 0.0
  {
    0.0 <= g / roe <= 1.0
  }

  lemma NonZeroProduct(a: real, b: real)
    requires a != 0.0 && b != 0.0
    ensures a * b != 0.0
  {
  }

  /** The model at one (growth g, return r) pair; GordonRelations states what it means. */
  function Gordon(bvps: real, roe: real, g: real, r: real): Point
    requires roe != 0.0 && bvps != 0.0 && r != g
  {
    NonZeroProduct(bvps, roe);
    var eps := bvps * roe;
    var retention := g / roe;
    var dividendRatio := 1.0 - retention;
    var dividendPerShare := eps * dividendRatio;
    var price := dividendPerShare / (r - g);
    Point(retention, dividendRatio, dividendPerShare, price, price / eps)
  }

  /**
   * The Gordon growth relations: earnings are retained at rate g / roe, the
   * rest is paid out, the price discounts the dividend at r - g, and the
   * ratio is price over earnings.
   */
  lemma GordonRelations(bvps: real, roe: real, g: real, r: real)
    requires roe != 0.0 && bvps != 0.0 && r != g
    ensures var p := Gordon(bvps, roe, g, r);
      && p.retention * roe == g
      && p.dividendRatio + p.retention == 1.0
      && p.dividendPerShare == bvps * roe * p.dividendRatio
      && p.price * (r - g) == p.dividendPerShare
      && p.pe * (bvps * roe) == p.price
  {
    NonZeroProduct(bvps, roe);
  }

  /** A point computed step by step as the loops of calculate_valuation do is the model's point. */
  lemma GordonSteps(bvps: real, roe: real, g: real, r: real, eps: real,
                    retention: real, dividendRatio: real, dividendPerShare: real, price: real, pe: real)
    requires roe != 0.0 && bvps != 0.0 && r != g && eps == bvps * roe && eps != 0.0
    requires retention == g / roe && dividendRatio == 1.0 - retention
    requires dividendPerShare == eps * dividendRatio
    requires price == dividendPerShare / (r - g) && pe == price / eps
    ensures Point(retention, dividendRatio, dividendPerShare, price, pe) == Gordon(bvps, roe, g, r)
  {
  }

  /** A pair that the grid keeps has a non-zero book value under FiniteAt. */
  lemma KeptBookValue(bvps: real, roe: real, g: real)
    requires roe != 0.0 && FiniteAt(bvps, roe, g) && Retained(g, roe)
    ensures bvps != 0.0
  {
    if bvps == 0.0 {
      RetainedIff(g, roe);
    }
  }

  /** What one inner-loop iteration appends: nothing when either skip condition holds. */
  function Cell(bvps: real, roe: real, g: real, r: real): seq<Point>
    requires roe != 0.0 && FiniteAt(bvps, roe, g)
  {
    if r <= g then []
    else if g / roe > 1.0 || g / roe < 0.0 then []
    else KeptBookValue(bvps, roe, g); [Gordon(bvps, roe, g, r)]
  }

  /** The points appended by the inner loop over the return rates rs. */
  function Row(bvps: real, roe: real, g: real, rs: seq<real>): seq<Point>
    requires roe != 0.0 && FiniteAt(bvps, roe, g)
    decreases |rs|
  {
    if rs == [] then [] else Row(bvps, roe, g, rs[..|rs| - 1]) + Cell(bvps, roe, g, rs[|rs| - 1])
  }

  /** The points appended by the outer loop over the growth rates gs. */
  function Grid(bvps: real, roe: real, gs: seq<real>, rs: seq<real>): seq<Point>
    requires roe != 0.0 && FiniteGrid(bvps, roe, gs)
    decreases |gs|
  {
    if gs == [] then [] else Grid(bvps, roe, gs[..|gs| - 1], rs) + Row(bvps, roe, gs[|gs| - 1], rs)
  }

  /** The price/earnings ratios of a list of points, in order. */
  function Pes(s: seq<Point>): (r: seq<real>)
    ensures |r| == |s| && forall k :: 0 <= k < |s| ==> r[k] == s[k].pe
  {
    seq(|s|, k requires 0 <= k < |s| => s[k].pe)
  }

  /** The theoretical prices of a list of points, in order. */
  function Prices(s: seq<Point>): (r: seq<real>)
    ensures |r| == |s| && forall k :: 0 <= k < |s| ==> r[k] == s[k].price
  {
    seq(|s|, k requires 0 <= k < |s| => s[k].price)
  }

  /** Python's min over a non-empty list. */
  function SeqMin(s: seq<real>): (m: real)
    requires s != []
    ensures m in s && forall k :: 0 <= k < |s| ==> m <= s[k]
    decreases |s|
  {
    if |s| == 1 then s[0]
    else
      var rest := SeqMin(s[1..]);
      assert forall k :: 1 <= k < |s| ==> s[k] == s[1..][k - 1];
      if s[0] <= rest then s[0] else rest
  }

  /** Python's max over a non-empty list. */
  function SeqMax(s: seq<real>): (m: real)
    requires s != []
    ensures m in s && forall k :: 0 <= k < |s| ==> s[k] <= m
    decreases |s|
  {
    if |s| == 1 then s[0]
    else
      var rest := SeqMax(s[1..]);
      assert forall k :: 1 <= k < |s| ==> s[k] == s[1..][k - 1];
      if rest <= s[0] then s[0] else rest
  }

  /** The mid point: the fixed assumptions when their branch runs, all zeros otherwise. */
  function MidPoint(bvps: real, roe: real): Point
    requires roe != 0.0 && bvps != 0.0
  {
    if MidReturn > MidGrowth && roe != 0.0 && MidGrowth / roe <= 1.0 && MidGrowth / roe >= 0.0
    then Gordon(bvps, roe, MidGrowth, MidReturn)
    else Point(0.0, 0.0, 0.0, 0.0, 0.0)
  }

  /** The exact point from the caller's own rates, when its branch runs. */
  function ExactPoint(bvps: real, roe: real, pgr: real, rrr: real): Option<Point>
    requires roe != 0.0 && bvps != 0.0
  {
    if rrr > pgr && roe != 0.0 && 0.0 <= pgr / roe <= 1.0
    then Some(Gordon(bvps, roe, pgr, rrr))
    else None
  }

  /** The response when no grid pair survives: eps and zeros, no mid or exact values. */
  function Fallback(eps: real): Valuation
  {
    Valuation(eps, 0.0, 0.0, 0.0, 0.0, 0.0, 0.0, 0.0, None, None, None, None)
  }

  /** The response of calculate_valuation, as a function of its four inputs. */
  function Valuate(bvps: real, roe: real, pgr: real, rrr: real): Outcome
    requires InDomain(bvps, roe)
  {
    if roe == 0.0 then ZeroDivisionError
    else
      var points := Grid(bvps, roe, GrowthGrid, ReturnGrid);
      if points == [] then Valued(Fallback(bvps * roe))
      else
        GridSize(bvps, roe);
        var mid := MidPoint(bvps, roe);
        var exact := ExactPoint(bvps, roe, pgr, rrr);
        Valued(Valuation(
          bvps * roe, mid.retention, mid.dividendRatio, mid.dividendPerShare,
          SeqMin(Prices(points)), SeqMax(Prices(points)), SeqMin(Pes(points)), SeqMax(Pes(points)),
          Some(mid.price), Some(mid.pe),
          Some(if exact.Some? then exact.value.price else 0.0),
          Some(if exact.Some? then exact.value.pe else 0.0)))
  }

  /** Pes distributes over concatenation. */
  lemma PesAppend(a: seq<Point>, b: seq<Point>)
    ensures Pes(a + b) == Pes(a) + Pes(b)
  {
    assert forall k :: 0 <= k < |a + b| ==> Pes(a + b)[k] == (Pes(a) + Pes(b))[k];
  }

  /** Prices distributes over concatenation. */
  lemma PricesAppend(a: seq<Point>, b: seq<Point>)
    ensures Prices(a + b) == Prices(a) + Prices(b)
  {
    assert forall k :: 0 <= k < |a + b| ==> Prices(a + b)[k] == (Prices(a) + Prices(b))[k];
  }

  /**
   * The inner loop of calculate_valuation for one growth rate g over the
   * return rates rs: one ratio and one price per pair that neither skip
   * condition drops; with roe == 0 the retention ratio of the first return
   * rate above g divides by zero (a return rate at or below g is skipped
   * before that division).
   */
  method ScanRow(bvps: real, roe: real, eps: real, g: real, rs: seq<real>)
    returns (pes: seq<real>, prices: seq<real>, divisionByZero: bool)
    requires FiniteAt(bvps, roe, g) && eps == bvps * roe
    ensures divisionByZero <==> roe == 0.0 && exists r :: r in rs && g < r
    ensures roe == 0.0 ==> pes == [] && prices == []
    ensures roe != 0.0 ==> pes == Pes(Row(bvps, roe, g, rs)) && prices == Prices(Row(bvps, roe, g, rs))
  {
    pes, prices, divisionByZero := [], [], false;
    ghost var points: seq<Point> := [];
    for j := 0 to |rs|
      invariant roe == 0.0 ==> points == [] && forall k :: 0 <= k < j ==> rs[k] <= g
      invariant roe != 0.0 ==> points == Row(bvps, roe, g, rs[..j])
      invariant |pes| == |points| && forall k :: 0 <= k < |points| ==> pes[k] == points[k].pe
      invariant |prices| == |points| && forall k :: 0 <= k < |points| ==> prices[k] == points[k].price
    {
      var r := rs[j];
      assert rs[..j + 1][..j] == rs[..j];
      assert r in rs;
      if r <= g {
        continue;
      }
      if roe == 0.0 {
        return [], [], true;
      }
      var retention := g / roe;
      if retention > 1.0 || retention < 0.0 {
        assert Cell(bvps, roe, g, r) == [];
        continue;
      }
      var dividendRatio := 1.0 - retention;
      var dividendPerShare := eps * dividendRatio;
      var price := dividendPerShare / (r - g);
      KeptBookValue(bvps, roe, g);
      NonZeroProduct(bvps, roe);
      var pe := price / eps;
      GordonSteps(bvps, roe, g, r, eps, retention, dividendRatio, dividendPerShare, price, pe);
      points := points + [Gordon(bvps, roe, g, r)];
      pes := pes + [pe];
      prices := prices + [price];
    }
    assert rs[..|rs|] == rs;
    assert pes == Pes(points) && prices == Prices(points);
  }

  /**
   * The nested loops of calculate_valuation: the growth rates gs in order,
   * each scanning the return rates rs; the first division by zero stops it.
   * On the fixed grid every return rate exceeds every growth rate, so with
   * roe == 0 the very first pair raises.
   */
  method ScanGrid(bvps: real, roe: real, eps: real, gs: seq<real>, rs: seq<real>)
    returns (pes: seq<real>, prices: seq<real>, divisionByZero: bool)
    requires FiniteGrid(bvps, roe, gs) && eps == bvps * roe
    ensures divisionByZero <==> roe == 0.0 && exists g, r :: g in gs && r in rs && g < r
    ensures roe == 0.0 ==> pes == [] && prices == []
    ensures roe != 0.0 ==> pes == Pes(Grid(bvps, roe, gs, rs)) && prices == Prices(Grid(bvps, roe, gs, rs))
  {
    pes, prices, divisionByZero := [], [], false;
    for i := 0 to |gs|
      invariant roe == 0.0 ==> pes == [] && prices == [] && forall k, r :: 0 <= k < i && r in rs ==> r <= gs[k]
      invariant roe != 0.0 ==> pes == Pes(Grid(bvps, roe, gs[..i], rs)) && prices == Prices(Grid(bvps, roe, gs[..i], rs))
    {
      assert gs[i] in gs;
      var rowPes, rowPrices, stop := ScanRow(bvps, roe, eps, gs[i], rs);
      if stop {
        return [], [], true;
      }
      assert gs[..i + 1][..i] == gs[..i];
      if roe != 0.0 {
        PesAppend(Grid(bvps, roe, gs[..i], rs), Row(bvps, roe, gs[i], rs));
        PricesAppend(Grid(bvps, roe, gs[..i], rs), Row(bvps, roe, gs[i], rs));
      }
      pes := pes + rowPes;
      prices := prices + rowPrices;
    }
    assert gs[..|gs|] == gs;
  }

  /**
   * calculate_valuation: the grid scan, the bounds over the surviving pairs
   * (or the fallback when none survives), then the mid and exact points.
   */
  method CalculateValuation(bvps: real, roe: real, pgr: real, rrr: real) returns (out: Outcome)
    requires InDomain(bvps, roe)
    ensures out == Valuate(bvps, roe, pgr, rrr)
  {
    var eps := bvps * roe;
    var pes, prices, divisionByZero := ScanGrid(bvps, roe, eps, GrowthGrid, ReturnGrid);
    assert GrowthGrid[0] in GrowthGrid && ReturnGrid[0] in ReturnGrid;
    if divisionByZero {
      return ZeroDivisionError;
    }
    if pes == [] {
      return Valued(Fallback(eps));
    }
    GridSize(bvps, roe);
    var minPe := SeqMin(pes);
    var maxPe := SeqMax(pes);
    var minPrice := SeqMin(prices);
    var maxPrice := SeqMax(prices);

    var mid := MidPoint(bvps, roe);
    var exact := ExactPoint(bvps, roe, pgr, rrr);

    out := Valued(Valuation(
      eps, mid.retention, mid.dividendRatio, mid.dividendPerShare,
      minPrice, maxPrice, minPe, maxPe,
      Some(mid.price), Some(mid.pe),
      Some(if exact.Some? then exact.value.price else 0.0),
      Some(if exact.Some? then exact.value.pe else 0.0)));
  }

  // ---------------------------------------------------------------------
  // Properties of the model
  // ---------------------------------------------------------------------

  /** (roe - g) / (r - g): the price per unit of book value at one pair. */
  function Ratio(roe: real, g: real, r: real): real
    requires r != g
  {
    (roe - g) / (r - g)
  }

  /** The price and the ratio at one pair in closed form: bvps * Ratio and Ratio / roe. */
  lemma GordonClosedForm(bvps: real, roe: real, g: real, r: real)
    requires roe != 0.0 && bvps != 0.0 && r != g
    ensures Gordon(bvps, roe, g, r).price == bvps * Ratio(roe, g, r)
    ensures Gordon(bvps, roe, g, r).pe == Ratio(roe, g, r) / roe
  {
    NonZeroProduct(bvps, roe);
    var p := Gordon(bvps, roe, g, r);
    var d := r - g;
    var h := Ratio(roe, g, r);
    assert h * d == roe - g;
    assert bvps * roe * (1.0 - g / roe) == bvps * (roe - g);
    assert p.price * d == bvps * (roe - g);
    assert p.price == bvps * h;
    assert p.pe * (bvps * roe) == p.price;
    assert bvps * (p.pe * roe) == bvps * h;
  }

  /** With a positive growth rate, the pair is kept exactly when roe is at least the growth rate. */
  lemma RetainedIff(g: real, roe: real)
    requires roe != 0.0 && g > 0.0
    ensures Retained(g, roe) <==> roe >= g
  {
    if roe > 0.0 {
      assert g / roe * roe == g;
    } else {
      assert g / roe < 0.0;
    }
  }

  /** The fixed grid, unfolded into its four cells in loop order. */
  lemma GridUnfolded(bvps: real, roe: real)
    requires roe != 0.0 && InDomain(bvps, roe)
    ensures Grid(bvps, roe, GrowthGrid, ReturnGrid)
         == Cell(bvps, roe, 0.03, 0.08) + Cell(bvps, roe, 0.03, 0.15)
          + Cell(bvps, roe, 0.05, 0.08) + Cell(bvps, roe, 0.05, 0.15)
  {
    assert GrowthGrid[..1] == [0.03] && GrowthGrid[..1][..0] == [];
    assert ReturnGrid[..1] == [0.08] && ReturnGrid[..1][..0] == [];
    assert Row(bvps, roe, 0.03, ReturnGrid) == Cell(bvps, roe, 0.03, 0.08) + Cell(bvps, roe, 0.03, 0.15);
    assert Row(bvps, roe, 0.05, ReturnGrid) == Cell(bvps, roe, 0.05, 0.08) + Cell(bvps, roe, 0.05, 0.15);
  }

  /**
   * How many grid pairs survive: all four when roe >= 0.05, the two with
   * growth 0.03 when 0.03 <= roe < 0.05, none below 0.03 (negative roe included).
   */
  lemma GridSize(bvps: real, roe: real)
    requires roe != 0.0 && InDomain(bvps, roe)
    ensures |Grid(bvps, roe, GrowthGrid, ReturnGrid)| == (if roe >= 0.05 then 4 else if roe >= 0.03 then 2 else 0)
  {
    GridUnfolded(bvps, roe);
    RetainedIff(0.03, roe);
    RetainedIff(0.05, roe);
  }

  /** roe == 0 is exactly the case that raises ZeroDivisionError. */
  lemma ZeroDivisionIff(bvps: real, roe: real, pgr: real, rrr: real)
    requires InDomain(bvps, roe)
    ensures Valuate(bvps, roe, pgr, rrr) == ZeroDivisionError <==> roe == 0.0
  {
  }

  /** The fallback response (eps and zeros) is returned exactly when roe is non-zero and below 0.03. */
  lemma FallbackIff(bvps: real, roe: real, pgr: real, rrr: real)
    requires InDomain(bvps, roe)
    ensures Valuate(bvps, roe, pgr, rrr) == Valued(Fallback(bvps * roe)) <==> roe != 0.0 && roe < 0.03
  {
    if roe != 0.0 {
      GridSize(bvps, roe);
    }
  }

  /** SeqMin and SeqMax over the prices and ratios of a non-empty list bound every point and are attained. */
  lemma ExtremesOf(points: seq<Point>)
    requires points != []
    ensures forall p :: p in points ==>
      && SeqMin(Prices(points)) <= p.price <= SeqMax(Prices(points))
      && SeqMin(Pes(points)) <= p.pe <= SeqMax(Pes(points))
    ensures exists p :: p in points && p.price == SeqMin(Prices(points))
    ensures exists p :: p in points && p.price == SeqMax(Prices(points))
    ensures exists p :: p in points && p.pe == SeqMin(Pes(points))
    ensures exists p :: p in points && p.pe == SeqMax(Pes(points))
  {
    forall p | p in points
      ensures SeqMin(Prices(points)) <= p.price <= SeqMax(Prices(points))
      ensures SeqMin(Pes(points)) <= p.pe <= SeqMax(Pes(points))
    {
      var k :| 0 <= k < |points| && points[k] == p;
      assert Prices(points)[k] == p.price && Pes(points)[k] == p.pe;
    }
    var kl :| 0 <= kl < |points| && Prices(points)[kl] == SeqMin(Prices(points));
    assert points[kl] in points;
    var ku :| 0 <= ku < |points| && Prices(points)[ku] == SeqMax(Prices(points));
    assert points[ku] in points;
    var jl :| 0 <= jl < |points| && Pes(points)[jl] == SeqMin(Pes(points));
    assert points[jl] in points;
    var ju :| 0 <= ju < |points| && Pes(points)[ju] == SeqMax(Pes(points));
    assert points[ju] in points;
  }

  /**
   * When some pair survives, the interval is the smallest and largest price
   * and ratio over the surviving pairs: every pair lies inside it and both
   * ends are attained by some pair.
   */
  lemma BoundsAreExtremes(bvps: real, roe: real, pgr: real, rrr: real)
    requires InDomain(bvps, roe) && roe >= 0.03
    ensures var v := Valuate(bvps, roe, pgr, rrr).v;
      var points := Grid(bvps, roe, GrowthGrid, ReturnGrid);
      && v.priceLower <= v.priceUpper && v.peLower <= v.peUpper
      && (forall p :: p in points ==> v.priceLower <= p.price <= v.priceUpper && v.peLower <= p.pe <= v.peUpper)
      && (exists p :: p in points && p.price == v.priceLower)
      && (exists p :: p in points && p.price == v.priceUpper)
      && (exists p :: p in points && p.pe == v.peLower)
      && (exists p :: p in points && p.pe == v.peUpper)
  {
    GridSize(bvps, roe);
    ExtremesOf(Grid(bvps, roe, GrowthGrid, ReturnGrid));
  }

  /**
   * The mid point uses the fixed assumptions exactly when roe >= 0.05 (its
   * retention 0.05 / roe is then within [0, 1]); otherwise it is all zeros.
   */
  lemma MidIff(bvps: real, roe: real)
    requires roe != 0.0 && bvps != 0.0
    ensures roe >= 0.05 ==> MidPoint(bvps, roe) == Gordon(bvps, roe, MidGrowth, MidReturn)
    ensures roe < 0.05 ==> MidPoint(bvps, roe) == Point(0.0, 0.0, 0.0, 0.0, 0.0)
  {
    RetainedIff(MidGrowth, roe);
  }

  /** A fixed non-negative numerator over a larger positive denominator gives a smaller value. */
  lemma DivAntitone(a: real, d1: real, d2: real)
    requires a >= 0.0 && 0.0 < d1 <= d2
    ensures a / d2 <= a / d1
  {
    assert a / d2 * d2 == a && a / d1 * d1 == a;
    assert a / d1 * d2 >= a / d1 * d1;
  }

  /** Between the two return rates of the grid, Ratio falls as r rises. */
  lemma RatioInReturn(roe: real, g: real, r: real)
    requires roe >= g && g < 0.08 <= r <= 0.15
    ensures Ratio(roe, g, 0.15) <= Ratio(roe, g, r) <= Ratio(roe, g, 0.08)
  {
    DivAntitone(roe - g, r - g, 0.15 - g);
    DivAntitone(roe - g, 0.08 - g, r - g);
  }

  /** Ratio as 1 plus (roe - r) / (r - g): the only part that depends on g. */
  lemma RatioShift(roe: real, g: real, r: real)
    requires r != g
    ensures Ratio(roe, g, r) == 1.0 + (roe - r) / (r - g)
  {
    var d, q := r - g, (roe - r) / (r - g);
    assert q * d == roe - r;
    assert (1.0 + q) * d == roe - g;
    assert Ratio(roe, g, r) * d == roe - g;
    var x := Ratio(roe, g, r) - (1.0 + q);
    assert x * d == 0.0;
    if x != 0.0 {
      NonZeroProduct(x, d);
    }
  }

  /** Dividing a fixed c by a larger positive denominator moves the value towards zero. */
  lemma DivMonotone(c: real, d1: real, d2: real)
    requires 0.0 < d1 <= d2
    ensures c >= 0.0 ==> c / d2 <= c / d1
    ensures c < 0.0 ==> c / d1 <= c / d2
  {
    if c >= 0.0 {
      DivAntitone(c, d1, d2);
    } else {
      DivAntitone(-c, d1, d2);
      assert -c / d1 == -(c / d1) && -c / d2 == -(c / d2);
    }
  }

  /** Between the two growth rates of the grid, Ratio lies between its values at either end. */
  lemma RatioInGrowth(roe: real, g: real, r: real)
    requires 0.03 <= g <= 0.05 && 0.08 <= r
    ensures Ratio(roe, 0.03, r) <= Ratio(roe, g, r) <= Ratio(roe, 0.05, r)
         || Ratio(roe, 0.05, r) <= Ratio(roe, g, r) <= Ratio(roe, 0.03, r)
  {
    RatioShift(roe, 0.03, r);
    RatioShift(roe, g, r);
    RatioShift(roe, 0.05, r);
    DivMonotone(roe - r, r - g, r - 0.03);
    DivMonotone(roe - r, r - 0.05, r - g);
  }

  /** With roe >= 0.05 all four grid pairs survive, in loop order. */
  lemma GridFull(bvps: real, roe: real)
    requires bvps != 0.0 && roe >= 0.05
    ensures Grid(bvps, roe, GrowthGrid, ReturnGrid)
         == [Gordon(bvps, roe, 0.03, 0.08), Gordon(bvps, roe, 0.03, 0.15),
             Gordon(bvps, roe, 0.05, 0.08), Gordon(bvps, roe, 0.05, 0.15)]
  {
    GridUnfolded(bvps, roe);
    RetainedIff(0.03, roe);
    RetainedIff(0.05, roe);
  }

  /** Inside the grid's ranges, Ratio is bounded below and above by the Ratio of some grid pair. */
  lemma RatioCorners(roe: real, g: real, r: real)
    requires roe >= 0.05 && 0.03 <= g <= 0.05 && 0.08 <= r <= 0.15
    ensures Ratio(roe, 0.03, 0.15) <= Ratio(roe, g, r) || Ratio(roe, 0.05, 0.15) <= Ratio(roe, g, r)
    ensures Ratio(roe, g, r) <= Ratio(roe, 0.03, 0.08) || Ratio(roe, g, r) <= Ratio(roe, 0.05, 0.08)
  {
    RatioInReturn(roe, g, r);
    RatioInGrowth(roe, g, 0.15);
    RatioInGrowth(roe, g, 0.08);
  }

  /** Points are ordered by ratio as their Ratio is, and by price the same way when bvps > 0, the other way when bvps < 0. */
  lemma PointOrder(bvps: real, roe: real, g1: real, r1: real, g2: real, r2: real)
    requires bvps != 0.0 && roe > 0.0 && r1 != g1 && r2 != g2
    requires Ratio(roe, g1, r1) <= Ratio(roe, g2, r2)
    ensures Gordon(bvps, roe, g1, r1).pe <= Gordon(bvps, roe, g2, r2).pe
    ensures bvps > 0.0 ==> Gordon(bvps, roe, g1, r1).price <= Gordon(bvps, roe, g2, r2).price
    ensures bvps < 0.0 ==> Gordon(bvps, roe, g2, r2).price <= Gordon(bvps, roe, g1, r1).price
  {
    GordonClosedForm(bvps, roe, g1, r1);
    GordonClosedForm(bvps, roe, g2, r2);
    var h1, h2 := Ratio(roe, g1, r1), Ratio(roe, g2, r2);
    assert h1 / roe <= h2 / roe by {
      assert h1 / roe * roe == h1 && h2 / roe * roe == h2;
    }
  }

  /**
   * With roe >= 0.05 every grid pair survives, and the model at any growth
   * rate in [0.03, 0.05] and return rate in [0.08, 0.15] lies between two of
   * the grid's points, both in price and in ratio.
   */
  lemma BetweenGridPoints(bvps: real, roe: real, g: real, r: real)
    requires bvps != 0.0 && roe >= 0.05 && 0.03 <= g <= 0.05 && 0.08 <= r <= 0.15
    ensures var p := Gordon(bvps, roe, g, r);
      var points := Grid(bvps, roe, GrowthGrid, ReturnGrid);
      && (exists a, b :: a in points && b in points && a.price <= p.price <= b.price)
      && (exists a, b :: a in points && b in points && a.pe <= p.pe <= b.pe)
  {
    GridFull(bvps, roe);
    RatioCorners(roe, g, r);
    var gLo := if Ratio(roe, 0.03, 0.15) <= Ratio(roe, g, r) then 0.03 else 0.05;
    var gHi := if Ratio(roe, g, r) <= Ratio(roe, 0.03, 0.08) then 0.03 else 0.05;
    PointOrder(bvps, roe, gLo, 0.15, g, r);
    PointOrder(bvps, roe, g, r, gHi, 0.08);
    var lo, hi := Gordon(bvps, roe, gLo, 0.15), Gordon(bvps, roe, gHi, 0.08);
    assert lo in Grid(bvps, roe, GrowthGrid, ReturnGrid) && hi in Grid(bvps, roe, GrowthGrid, ReturnGrid);
  }

  /** With roe >= 0.05 the mid price and mid ratio lie inside the reported interval. */
  lemma MidWithinBounds(bvps: real, roe: real, pgr: real, rrr: real)
    requires InDomain(bvps, roe) && roe >= 0.05
    ensures var v := Valuate(bvps, roe, pgr, rrr).v;
      && v.priceLower <= v.priceMid.value <= v.priceUpper
      && v.peLower <= v.peMid.value <= v.peUpper
  {
    MidIff(bvps, roe);
    BetweenGridPoints(bvps, roe, MidGrowth, MidReturn);
    BoundsAreExtremes(bvps, roe, pgr, rrr);
  }

  /**
   * With roe >= 0.05 and the caller's rates inside the grid's ranges, the
   * exact price and exact ratio lie inside the reported interval.
   */
  lemma ExactWithinBounds(bvps: real, roe: real, pgr: real, rrr: real)
    requires InDomain(bvps, roe) && roe >= 0.05 && 0.03 <= pgr <= 0.05 && 0.08 <= rrr <= 0.15
    ensures var v := Valuate(bvps, roe, pgr, rrr).v;
      && v.priceLower <= v.priceExact.value <= v.priceUpper
      && v.peLower <= v.peExact.value <= v.peUpper
  {
    RetainedIff(pgr, roe);
    assert ExactPoint(bvps, roe, pgr, rrr) == Some(Gordon(bvps, roe, pgr, rrr));
    BetweenGridPoints(bvps, roe, pgr, rrr);
    BoundsAreExtremes(bvps, roe, pgr, rrr);
  }

  /**
   * When some grid pair survives, the exact values are the model at the
   * caller's own rates (in closed form) when rrr > pgr and the retention
   * pgr / roe lies in [0, 1], and 0.0 otherwise.
   */
  lemma ExactIff(bvps: real, roe: real, pgr: real, rrr: real)
    requires InDomain(bvps, roe) && roe >= 0.03
    ensures var v := Valuate(bvps, roe, pgr, rrr).v;
      if rrr > pgr && 0.0 <= pgr / roe <= 1.0 then
        v.priceExact == Some(bvps * Ratio(roe, pgr, rrr)) && v.peExact == Some(Ratio(roe, pgr, rrr) / roe)
      else
        v.priceExact == Some(0.0) && v.peExact == Some(0.0)
  {
    GridSize(bvps, roe);
    if rrr > pgr && 0.0 <= pgr / roe <= 1.0 {
      GordonClosedForm(bvps, roe, pgr, rrr);
    }
  }

  /** The caller's rates reach only the exact values: every other field of the response ignores them. */
  lemma RatesOnlyReachExact(bvps: real, roe: real, pgr1: real, rrr1: real, pgr2: real, rrr2: real)
    requires InDomain(bvps, roe)
    ensures Valuate(bvps, roe, pgr1, rrr1).Valued? == Valuate(bvps, roe, pgr2, rrr2).Valued?
    ensures Valuate(bvps, roe, pgr1, rrr1).Valued? ==>
      Valuate(bvps, roe, pgr1, rrr1).v.(priceExact := None, peExact := None)
        == Valuate(bvps, roe, pgr2, rrr2).v.(priceExact := None, peExact := None)
  {
  }

  /** SeqMin and SeqMax of a list of more than one element: the first element against the rest. */
  lemma SeqMinMaxHead(s: seq<real>)
    requires |s| >= 2
    ensures SeqMin(s) == Min(s[0], SeqMin(s[1..])) && SeqMax(s) == Max(s[0], SeqMax(s[1..]))
  {
  }

  /** SeqMin and SeqMax of a four-element list. */
  lemma MinMaxOfFour(s: seq<real>)
    requires |s| == 4
    ensures SeqMin(s) == Min(Min(s[0], s[1]), Min(s[2], s[3]))
    ensures SeqMax(s) == Max(Max(s[0], s[1]), Max(s[2], s[3]))
  {
    SeqMinMaxHead(s);
    SeqMinMaxHead(s[1..]);
    SeqMinMaxHead(s[1..][1..]);
    assert s[1..][1..][1..] == [s[3]];
  }

  /**
   * A worked example (book value 133.1, roe 25%, growth 3%, return 10%):
   * the reported retention is the mid point's 0.05 / 0.25 = 0.2, the
   * interval runs from growth 0.03 / return 0.15 up to growth 0.05 / return 0.08.
   */
  lemma WorkedExample()
    ensures Valuate(133.1, 0.25, 0.03, 0.10) == Valued(Valuation(
      33.275, 0.2, 0.8, 26.62,
      29.282 / 0.12, 26.62 / 0.03, 0.88 / 0.12, 0.8 / 0.03,
      Some(532.4), Some(16.0), Some(29.282 / 0.07), Some(0.88 / 0.07)))
  {
    var p0 := Point(0.12, 0.88, 29.282, 29.282 / 0.05, 0.88 / 0.05);
    var p1 := Point(0.12, 0.88, 29.282, 29.282 / 0.12, 0.88 / 0.12);
    var p2 := Point(0.2, 0.8, 26.62, 26.62 / 0.03, 0.8 / 0.03);
    var p3 := Point(0.2, 0.8, 26.62, 26.62 / 0.10, 0.8 / 0.10);
    assert Gordon(133.1, 0.25, 0.03, 0.08) == p0;
    assert Gordon(133.1, 0.25, 0.03, 0.15) == p1;
    assert Gordon(133.1, 0.25, 0.05, 0.08) == p2;
    assert Gordon(133.1, 0.25, 0.05, 0.15) == p3;
    GridFull(133.1, 0.25);
    var points := Grid(133.1, 0.25, GrowthGrid, ReturnGrid);
    MinMaxOfFour(Prices(points));
    MinMaxOfFour(Pes(points));
    MidIff(133.1, 0.25);
    assert MidPoint(133.1, 0.25) == Point(0.2, 0.8, 26.62, 532.4, 16.0);
    assert ExactPoint(133.1, 0.25, 0.03, 0.10) == Some(Point(0.12, 0.88, 29.282, 29.282 / 0.07, 0.88 / 0.07));
  }
}
