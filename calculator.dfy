// The request the valuation calculator page sends: the NaN guard on the
// four parsed inputs and the percent-to-fraction conversion of the rates.

module Calculator {
  import opened Common

  /** parseFloat of an input box: a number, or NaN for text that is not one. */
  datatype Parsed = Number(x: real) | NaN

  /** convertToDecimal: a value in (0, 100] is read as a percentage; null gives undefined. */
  function ConvertToDecimal(v: Option<real>): Option<real>
  {
    match v
      case None => None
      case Some(x) => if x > 0.0 && x <= 100.0 then Some(x / 100.0) else Some(x)
  }

  /** The body posted to /valuation/calculate. */
  datatype Request = Request(bvps: real, roe: Option<real>, pgr: Option<real>, rrr: Option<real>)

  /** handleCalculateValuation: no request (an error message instead) when any input is NaN. */
  function HandleCalculate(bvps: Parsed, roe: Parsed, pgr: Parsed, rrr: Parsed): Option<Request>
  {
    if bvps.NaN? || roe.NaN? || pgr.NaN? || rrr.NaN? then None
    else Some(Request(bvps.x, ConvertToDecimal(Some(roe.x)), ConvertToDecimal(Some(pgr.x)), ConvertToDecimal(Some(rrr.x))))
  }

  /** A value in (0, 100] becomes v / 100, a fraction in (0, 1]. */
  lemma PercentToFraction(v: real)
    requires 0.0 < v <= 100.0
    ensures ConvertToDecimal(Some(v)) == Some(v / 100.0)
    ensures 0.0 < ConvertToDecimal(Some(v)).value <= 1.0
  {
  }

  /** Values at most 0 or above 100 pass unchanged, and null becomes undefined. */
  lemma PassThrough(v: real)
    requires v <= 0.0 || v > 100.0
    ensures ConvertToDecimal(Some(v)) == Some(v)
    ensures ConvertToDecimal(None) == None
  {
  }

  /**
   * The conversion is not idempotent: a rate already typed as a fraction
   * (0.25 for 25%) is divided by 100 once more.
   */
  lemma NotIdempotent(v: real)
    requires 0.0 < v <= 100.0
    ensures ConvertToDecimal(ConvertToDecimal(Some(v))) == Some(v / 10000.0)
    ensures ConvertToDecimal(ConvertToDecimal(Some(v))) != ConvertToDecimal(Some(v))
  {
    assert v / 10000.0 < v / 100.0;
  }

  /** A request is sent exactly when none of the four inputs is NaN. */
  lemma NaNGuard(bvps: Parsed, roe: Parsed, pgr: Parsed, rrr: Parsed)
    ensures HandleCalculate(bvps, roe, pgr, rrr).Some? <==> !bvps.NaN? && !roe.NaN? && !pgr.NaN? && !rrr.NaN?
  {
  }

  /**
   * The book value per share is sent as typed; only roe and the two rates
   * are converted, and none of them is ever sent undefined.
   */
  lemma OnlyRatesConverted(bvps: real, roe: real, pgr: real, rrr: real)
    ensures var r := HandleCalculate(Number(bvps), Number(roe), Number(pgr), Number(rrr));
      && r.Some? && r.value.bvps == bvps
      && r.value.roe == ConvertToDecimal(Some(roe)) && r.value.roe.Some?
      && r.value.pgr == ConvertToDecimal(Some(pgr)) && r.value.pgr.Some?
      && r.value.rrr == ConvertToDecimal(Some(rrr)) && r.value.rrr.Some?
  {
  }

  /** The page's default rates, 3 and 10, are sent as 0.03 and 0.10, the table's column defaults. */
  lemma DefaultRates(bvps: real, roe: real)
    ensures var r := HandleCalculate(Number(bvps), Number(roe), Number(3.0), Number(10.0));
      r.Some? && r.value.pgr == Some(0.03) && r.value.rrr == Some(0.10)
  {
  }
}
