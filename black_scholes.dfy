/** The analytic pricer: the Black-Scholes closed form for European calls and
    puts, with an intrinsic-value branch when no time or no volatility is left. */
module BlackScholes {
  import opened Numerics
  import opened Options

  /** No time to maturity or no volatility: the closed form is not used. */
  predicate IsDegenerate(t: real, sigma: real) {
    t <= 0.0 || sigma <= 0.0
  }

  /** What the general branch needs to be defined: log(S0 / K) needs K != 0
      and S0 / K > 0. */
  predicate FormulaDefined(s0: real, k: real, t: real, sigma: real) {
    !IsDegenerate(t, sigma) ==> k != 0.0 && s0 / k > 0.0
  }

  /** d1 = (ln(S0 / K) + (r + sigma^2 / 2) T) / (sigma sqrt(T)). */
  function D1(lib: NumLib, s0: real, k: real, r: real, t: real, sigma: real): real
    requires lib.SqrtLaws() && t > 0.0 && sigma > 0.0 && k != 0.0
  {
    assert sigma * lib.sqrt(t) > 0.0;
    (lib.log(s0 / k) + (r + 0.5 * sigma * sigma) * t) / (sigma * lib.sqrt(t))
  }

  /** d2 = d1 - sigma sqrt(T). */
  function D2(lib: NumLib, s0: real, k: real, r: real, t: real, sigma: real): real
    requires lib.SqrtLaws() && t > 0.0 && sigma > 0.0 && k != 0.0
  {
    D1(lib, s0, k, r, t, sigma) - sigma * lib.sqrt(t)
  }

  /** black_scholes_price. In the degenerate branch every option type other
      than "call" is priced as a put and nothing is raised; in the general
      branch an option type other than "call" and "put" raises ValueError. */
  function BlackScholesPrice(lib: NumLib, s0: real, k: real, r: real, t: real, sigma: real, optionType: string): (res: Result<real>)
    requires lib.SqrtLaws()
    requires FormulaDefined(s0, k, t, sigma)
    ensures res.Err? <==> !IsDegenerate(t, sigma) && !IsKnownType(optionType)
    ensures res.Err? ==> res.error == ValueError(InvalidTypeMessage)
  {
    if IsDegenerate(t, sigma) then
      Ok(Payoff(optionType == Call, s0, k))
    else
      var d1 := D1(lib, s0, k, r, t, sigma);
      var d2 := D2(lib, s0, k, r, t, sigma);
      if optionType == Call then
        Ok(s0 * lib.normCdf(d1) - k * lib.exp(-r * t) * lib.normCdf(d2))
      else if optionType == Put then
        Ok(k * lib.exp(-r * t) * lib.normCdf(-d2) - s0 * lib.normCdf(-d1))
      else
        Err(ValueError(InvalidTypeMessage))
  }

  /** Degenerate branch: the intrinsic value S0 - K resp. K - S0 cut off at 0,
      for every option type; any type other than "call", invalid ones
      included, gets the put's value. */
  lemma DegenerateIsIntrinsic(lib: NumLib, s0: real, k: real, r: real, t: real, sigma: real, optionType: string)
    requires lib.SqrtLaws()
    requires IsDegenerate(t, sigma)
    ensures var res := BlackScholesPrice(lib, s0, k, r, t, sigma, optionType);
      && res.Ok?
      && res.value >= 0.0
      && res.value >= (if optionType == Call then s0 - k else k - s0)
      && (res.value == 0.0 || res.value == (if optionType == Call then s0 - k else k - s0))
      && (optionType != Call ==> res == BlackScholesPrice(lib, s0, k, r, t, sigma, Put))
  {
  }

  /** Degenerate branch: call minus put is S0 - K, undiscounted. */
  lemma DegenerateParity(lib: NumLib, s0: real, k: real, r: real, t: real, sigma: real)
    requires lib.SqrtLaws()
    requires IsDegenerate(t, sigma)
    ensures BlackScholesPrice(lib, s0, k, r, t, sigma, Call).value - BlackScholesPrice(lib, s0, k, r, t, sigma, Put).value == s0 - k
  {
    PayoffParity(s0, k);
  }

  /** Degenerate branch with time left but no volatility: the discounted
      put-call parity of the general branch fails whenever the discount
      factor is not 1 and the strike is not 0. */
  lemma DegenerateBreaksDiscountedParity(lib: NumLib, s0: real, k: real, r: real, t: real, sigma: real)
    requires lib.SqrtLaws() && lib.ExpLaws() && lib.ExpIncreasing()
    requires t > 0.0 && sigma <= 0.0
    requires k != 0.0 && r != 0.0
    ensures BlackScholesPrice(lib, s0, k, r, t, sigma, Call).value - BlackScholesPrice(lib, s0, k, r, t, sigma, Put).value
         != s0 - k * lib.exp(-r * t)
  {
    DegenerateParity(lib, s0, k, r, t, sigma);
    var x := -r * t;
    assert x != 0.0;
    if x < 0.0 {
      assert lib.exp(x) < lib.exp(0.0);
    } else {
      assert lib.exp(0.0) < lib.exp(x);
    }
    assert lib.exp(x) != 1.0;
    assert k * lib.exp(x) != k;
  }

  /** General branch: put-call parity, call - put = S0 - K e^(-rT), from the
      symmetry of the normal distribution function alone. */
  lemma PutCallParity(lib: NumLib, s0: real, k: real, r: real, t: real, sigma: real)
    requires lib.SqrtLaws() && lib.CdfLaws()
    requires !IsDegenerate(t, sigma)
    requires FormulaDefined(s0, k, t, sigma)
    ensures BlackScholesPrice(lib, s0, k, r, t, sigma, Call).value - BlackScholesPrice(lib, s0, k, r, t, sigma, Put).value
         == s0 - k * lib.exp(-r * t)
  {
    var d1 := D1(lib, s0, k, r, t, sigma);
    var d2 := D2(lib, s0, k, r, t, sigma);
    var disc := k * lib.exp(-r * t);
    var n1, m1 := lib.normCdf(d1), lib.normCdf(-d1);
    var n2, m2 := lib.normCdf(d2), lib.normCdf(-d2);
    assert n1 + m1 == 1.0 && n2 + m2 == 1.0;
    calc {
      (s0 * n1 - disc * n2) - (disc * m2 - s0 * m1);
      s0 * (n1 + m1) - disc * (n2 + m2);
      s0 - disc;
    }
  }

  /** General branch: a call is worth at most the share and a put at most the
      discounted strike. */
  lemma GeneralBranchBounds(lib: NumLib, s0: real, k: real, r: real, t: real, sigma: real)
    requires lib.SqrtLaws() && lib.CdfLaws() && lib.ExpLaws()
    requires !IsDegenerate(t, sigma)
    requires s0 > 0.0 && k > 0.0
    ensures BlackScholesPrice(lib, s0, k, r, t, sigma, Call).value <= s0
    ensures BlackScholesPrice(lib, s0, k, r, t, sigma, Put).value <= k * lib.exp(-r * t)
  {
    var d1 := D1(lib, s0, k, r, t, sigma);
    var d2 := D2(lib, s0, k, r, t, sigma);
    var disc := k * lib.exp(-r * t);
    assert disc > 0.0;
    var n1, m1 := lib.normCdf(d1), lib.normCdf(-d1);
    var n2, m2 := lib.normCdf(d2), lib.normCdf(-d2);
    assert 0.0 <= n1 <= 1.0 && 0.0 <= n2 <= 1.0 && 0.0 <= m1 <= 1.0 && 0.0 <= m2 <= 1.0;
    assert s0 * n1 <= s0 && disc * n2 >= 0.0;
    assert disc * m2 <= disc && s0 * m1 >= 0.0;
  }
}
