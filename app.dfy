/** The numeric part of the dashboard callback: run both pricers on the same
    inputs, recompute the payoff vector for its histogram, and classify the
    percent error between the two prices against a fixed 5% threshold. */
module App {
  import opened Numerics
  import opened Options
  import opened MonteCarlo
  import opened BlackScholes

  /** percent_error = |mc - bs| / bs * 100. */
  function PercentError(mc: real, bs: real): (e: real)
    requires bs != 0.0
    ensures bs > 0.0 ==> e >= 0.0
    ensures e == 0.0 <==> mc == bs
  {
    Abs(mc - bs) / bs * 100.0
  }

  const CloseMessage: string := "\U{2714} Monte Carlo estimate is reasonably close to Black-Scholes"
  const DivergeMessage: string := "\U{26A0} Monte Carlo estimate diverges from Black-Scholes"

  /** The message shown under the prices: close strictly below 5%. */
  function AgreementMessage(percentError: real): (m: string)
    ensures m == CloseMessage || m == DivergeMessage
    ensures m == CloseMessage <==> percentError < 5.0
  {
    assert |CloseMessage| != |DivergeMessage|;
    if percentError < 5.0 then CloseMessage else DivergeMessage
  }

  /** The two prices are reported close exactly when, for a positive
      analytic price, they differ by less than a twentieth of it; an error of
      exactly 5% is reported as diverging. */
  lemma CloseIffWithinFivePercent(mc: real, bs: real)
    requires bs > 0.0
    ensures AgreementMessage(PercentError(mc, bs)) == CloseMessage <==> Abs(mc - bs) < bs / 20.0
    ensures Abs(mc - bs) == bs / 20.0 ==> AgreementMessage(PercentError(mc, bs)) == DivergeMessage
  {
    var d := Abs(mc - bs);
    var q := d / bs;
    assert PercentError(mc, bs) == q * 100.0;
    assert q * bs == d;
    MulStrictlyMonotone(q, 1.0 / 20.0, bs);
    assert (1.0 / 20.0) * bs == bs / 20.0;
    assert q * 100.0 < 5.0 <==> q < 1.0 / 20.0;
    assert q < 1.0 / 20.0 <==> d < bs / 20.0;
    assert |CloseMessage| != |DivergeMessage|;
  }

  lemma MulStrictlyMonotone(a: real, b: real, c: real)
    requires c > 0.0
    ensures a < b <==> a * c < b * c
  {
  }

  /** The payoffs recomputed for the payoff histogram: a call for "call" and
      a put for any other option type, with no error raised. */
  function AppPayoffs(paths: array2<real>, k: real, optionType: string): (p: seq<real>)
    reads paths
    requires paths.Length1 >= 1
    ensures |p| == paths.Length0
    ensures forall i :: 0 <= i < |p| ==> p[i] >= 0.0
  {
    Payoffs(optionType == Call, TerminalPrices(paths), k)
  }

  /** For "call" and "put", the recomputed payoffs are those the Monte Carlo
      pricer averaged, so its price is their discounted mean. */
  lemma AppPayoffsMatchPricer(lib: NumLib, paths: array2<real>, k: real, r: real, t: real, optionType: string)
    requires paths.Length0 >= 1 && paths.Length1 >= 1
    requires IsKnownType(optionType)
    ensures PriceOptionMc(lib, paths, k, r, t, optionType).value == DiscountedMean(lib, r, t, AppPayoffs(paths, k, optionType))
  {
  }

  /** For any other option type the pricer raises while the recomputation
      silently draws the put payoffs. */
  lemma AppPayoffsOfInvalidTypeArePuts(lib: NumLib, paths: array2<real>, k: real, r: real, t: real, optionType: string)
    requires paths.Length0 >= 1 && paths.Length1 >= 1
    requires !IsKnownType(optionType)
    ensures PriceOptionMc(lib, paths, k, r, t, optionType).Err?
    ensures AppPayoffs(paths, k, optionType) == AppPayoffs(paths, k, Put)
  {
  }

  /** What the callback computes and shows, apart from the charts. */
  datatype Report = Report(mcPrice: real, bsPrice: real, percentError: real, payoffs: seq<real>, message: string)

  /** Line 3) of update_output and the message chosen from it: the report of
      a Monte Carlo price mc against an analytic price bs. */
  function Compare(mc: real, bs: real, payoffs: seq<real>): (rep: Report)
    requires bs != 0.0
    ensures rep.mcPrice == mc && rep.bsPrice == bs && rep.payoffs == payoffs
    ensures rep.percentError == PercentError(mc, bs)
    ensures rep.percentError == 0.0 <==> mc == bs
    ensures bs > 0.0 ==> rep.percentError >= 0.0
    ensures rep.message == (if rep.percentError < 5.0 then CloseMessage else DivergeMessage)
    ensures bs > 0.0 ==> (rep.message == CloseMessage <==> Abs(mc - bs) < bs / 20.0)
  {
    var e := PercentError(mc, bs);
    var rep := Report(mc, bs, e, payoffs, AgreementMessage(e));
    if bs > 0.0 then CloseIffWithinFivePercent(mc, bs); rep else rep
  }

  /** The analytic price of a run; the callback divides by it. */
  function AnalyticPrice(lib: NumLib, s0: real, k: real, r: real, sigma: real, t: real, optionType: string): real
    requires lib.SqrtLaws() && FormulaDefined(s0, k, t, sigma) && IsKnownType(optionType)
  {
    BlackScholesPrice(lib, s0, k, r, t, sigma, optionType).value
  }

  /** Lines 1) and the first half of 2) of update_output: simulate the paths,
      price them by Monte Carlo and recompute the payoff vector. */
  method SimulateAndPrice(lib: NumLib, s0: real, k: real, r: real, sigma: real, t: real, nSteps: nat, nSims: nat,
                          optionType: string, normals: seq<seq<real>>)
    returns (mc: Result<real>, payoffs: seq<real>)
    requires nSteps >= 1 && nSims >= 1
    requires IsDrawMatrix(normals, nSims, nSteps)
    ensures mc.Err? <==> !IsKnownType(optionType)
    ensures mc.Err? ==> mc.error == ValueError(InvalidTypeMessage)
    ensures payoffs == Payoffs(optionType == Call, SimulatedTerminalPrices(lib, s0, r, sigma, t, nSteps, normals), k)
    ensures |payoffs| == nSims
    ensures mc.Ok? ==> mc.value == DiscountedMean(lib, r, t, payoffs)
  {
    var paths := GenerateGbmPaths(lib, s0, r, sigma, t, nSteps, nSims, normals);
    mc, payoffs := PricePaths(lib, paths, k, r, t, optionType);
  }

  /** Lines 2) and the payoff recomputation of update_output on a given
      matrix: the Monte Carlo price and the histogram's payoffs. */
  method PricePaths(lib: NumLib, paths: array2<real>, k: real, r: real, t: real, optionType: string)
    returns (mc: Result<real>, payoffs: seq<real>)
    requires paths.Length0 >= 1 && paths.Length1 >= 1
    ensures mc.Err? <==> !IsKnownType(optionType)
    ensures mc.Err? ==> mc.error == ValueError(InvalidTypeMessage)
    ensures payoffs == Payoffs(optionType == Call, TerminalPrices(paths), k)
    ensures mc.Ok? ==> mc.value == DiscountedMean(lib, r, t, payoffs)
  {
    mc := PriceOptionMc(lib, paths, k, r, t, optionType);
    payoffs := AppPayoffs(paths, k, optionType);
    if mc.Ok? {
      AppPayoffsMatchPricer(lib, paths, k, r, t, optionType);
    }
  }

  /** update_output, numeric part: simulate, price both ways from the same
      parameters, compare, and recompute the payoffs. A ValueError of the
      Monte Carlo pricer ends the callback before the analytic price. */
  method UpdateOutput(lib: NumLib, s0: real, k: real, r: real, sigma: real, t: real, nSteps: nat, nSims: nat,
                      optionType: string, normals: seq<seq<real>>)
    returns (res: Result<Report>)
    requires nSteps >= 1 && nSims >= 1
    requires IsDrawMatrix(normals, nSims, nSteps)
    requires lib.SqrtLaws() && (IsKnownType(optionType) ==> FormulaDefined(s0, k, t, sigma))
    requires IsKnownType(optionType) ==> AnalyticPrice(lib, s0, k, r, sigma, t, optionType) != 0.0
    ensures res.Err? <==> !IsKnownType(optionType)
    ensures res.Err? ==> res.error == ValueError(InvalidTypeMessage)
    ensures res.Ok? ==>
      var rep := res.value;
      && rep.payoffs == Payoffs(optionType == Call, SimulatedTerminalPrices(lib, s0, r, sigma, t, nSteps, normals), k)
      && |rep.payoffs| == nSims
      && (forall i :: 0 <= i < nSims ==> rep.payoffs[i] >= 0.0)
      && rep.mcPrice == DiscountedMean(lib, r, t, rep.payoffs)
      && rep.bsPrice == AnalyticPrice(lib, s0, k, r, sigma, t, optionType)
      && rep.bsPrice != 0.0
      && rep.percentError == PercentError(rep.mcPrice, rep.bsPrice)
      && (rep.percentError == 0.0 <==> rep.mcPrice == rep.bsPrice)
      && (rep.bsPrice > 0.0 ==> rep.percentError >= 0.0)
      && rep.message == (if rep.percentError < 5.0 then CloseMessage else DivergeMessage)
      && (rep.bsPrice > 0.0 ==> (rep.message == CloseMessage <==> Abs(rep.mcPrice - rep.bsPrice) < rep.bsPrice / 20.0))
  {
    var mc, payoffs := SimulateAndPrice(lib, s0, k, r, sigma, t, nSteps, nSims, optionType, normals);
    if mc.Err? {
      return Err(mc.error);
    }
    var bs := AnalyticPrice(lib, s0, k, r, sigma, t, optionType);
    res := Ok(Compare(mc.value, bs, payoffs));
  }
}
