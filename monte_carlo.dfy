/** The simulation engine: geometric Brownian motion paths and the Monte Carlo
    estimate of a European option price from their terminal column. */
module MonteCarlo {
  import opened Numerics
  import opened Options

  /** The step size dt = T / n_steps; n_steps = 0 would divide by zero. */
  function TimeStep(t: real, nSteps: nat): real
    requires nSteps >= 1
  {
    t / nSteps as real
  }

  /** The log-return of one step driven by the standard normal draw z:
      (r - sigma^2 / 2) * dt + sigma * sqrt(dt) * z. */
  function LogIncrement(lib: NumLib, r: real, sigma: real, dt: real, z: real): real
  {
    (r - 0.5 * sigma * sigma) * dt + sigma * lib.sqrt(dt) * z
  }

  /** The draw matrix has one row of nSteps draws per simulated path. */
  predicate IsDrawMatrix(normals: seq<seq<real>>, nSims: nat, nSteps: nat) {
    |normals| == nSims && forall i :: 0 <= i < nSims ==> |normals[i]| == nSteps
  }

  /** The simulated price after `step` steps of a path started at s0 and driven
      by the draws of one row. */
  function PathPrice(lib: NumLib, s0: real, r: real, sigma: real, dt: real, draws: seq<real>, step: nat): real
    requires step <= |draws|
    decreases step
  {
    if step == 0 then s0
    else PathPrice(lib, s0, r, sigma, dt, draws, step - 1) * lib.exp(LogIncrement(lib, r, sigma, dt, draws[step - 1]))
  }

  /** Starting from a positive price, every simulated price is positive. */
  lemma {:induction false} PathPricePositive(lib: NumLib, s0: real, r: real, sigma: real, dt: real, draws: seq<real>, step: nat)
    requires lib.ExpLaws() && s0 > 0.0
    requires step <= |draws|
    ensures PathPrice(lib, s0, r, sigma, dt, draws, step) > 0.0
  {
    if step > 0 {
      PathPricePositive(lib, s0, r, sigma, dt, draws, step - 1);
      var prev := PathPrice(lib, s0, r, sigma, dt, draws, step - 1);
      var growth := lib.exp(LogIncrement(lib, r, sigma, dt, draws[step - 1]));
      assert growth > 0.0;
      assert prev * growth > 0.0;
    }
  }

  /** The price after `step` steps depends only on the first `step` draws of
      its own row. */
  lemma {:induction false} PathPriceCausal(lib: NumLib, s0: real, r: real, sigma: real, dt: real, draws1: seq<real>, draws2: seq<real>, step: nat)
    requires step <= |draws1| && step <= |draws2|
    requires draws1[..step] == draws2[..step]
    ensures PathPrice(lib, s0, r, sigma, dt, draws1, step) == PathPrice(lib, s0, r, sigma, dt, draws2, step)
  {
    if step > 0 {
      assert draws1[..step - 1] == draws1[..step][..step - 1];
      assert draws2[..step - 1] == draws2[..step][..step - 1];
      assert draws1[step - 1] == draws1[..step][step - 1];
      assert draws2[step - 1] == draws2[..step][step - 1];
      PathPriceCausal(lib, s0, r, sigma, dt, draws1, draws2, step - 1);
    }
  }

  /** With zero volatility the draws have no effect: all paths coincide. */
  lemma {:induction false} ZeroVolatilityPathsCoincide(lib: NumLib, s0: real, r: real, dt: real, draws1: seq<real>, draws2: seq<real>, step: nat)
    requires step <= |draws1| && step <= |draws2|
    ensures PathPrice(lib, s0, r, 0.0, dt, draws1, step) == PathPrice(lib, s0, r, 0.0, dt, draws2, step)
  {
    if step > 0 {
      ZeroVolatilityPathsCoincide(lib, s0, r, dt, draws1, draws2, step - 1);
      assert LogIncrement(lib, r, 0.0, dt, draws1[step - 1]) == LogIncrement(lib, r, 0.0, dt, draws2[step - 1]);
    }
  }

  /** The matrix state of generate_gbm_paths once columns 0 .. filled - 1 are
      written: those hold the simulated prices, the rest still the zeros of
      the initial allocation. */
  ghost predicate FilledUpTo(lib: NumLib, paths: array2<real>, s0: real, r: real, sigma: real, dt: real, normals: seq<seq<real>>, filled: nat)
    reads paths
  {
    && paths.Length1 >= 1
    && IsDrawMatrix(normals, paths.Length0, paths.Length1 - 1)
    && filled <= paths.Length1
    && (forall i, j :: 0 <= i < paths.Length0 && 0 <= j < filled ==> paths[i, j] == PathPrice(lib, s0, r, sigma, dt, normals[i], j))
    && (forall i, j :: 0 <= i < paths.Length0 && filled <= j < paths.Length1 ==> paths[i, j] == 0.0)
  }

  /** paths[:, 0] = S0, on a matrix that is still all zeros. */
  method SetInitialColumn(paths: array2<real>, s0: real, ghost lib: NumLib, ghost r: real, ghost sigma: real, ghost dt: real, ghost normals: seq<seq<real>>)
    requires paths.Length1 >= 1 && IsDrawMatrix(normals, paths.Length0, paths.Length1 - 1)
    requires forall i, j :: 0 <= i < paths.Length0 && 0 <= j < paths.Length1 ==> paths[i, j] == 0.0
    modifies paths
    ensures FilledUpTo(lib, paths, s0, r, sigma, dt, normals, 1)
  {
    var row := 0;
    while row < paths.Length0
      invariant 0 <= row <= paths.Length0
      invariant forall i, j :: 0 <= i < paths.Length0 && 0 <= j < paths.Length1 ==>
        paths[i, j] == if j == 0 && i < row then s0 else 0.0
    {
      paths[row, 0] := s0;
      row := row + 1;
    }
  }

  /** paths[:, t] = paths[:, t - 1] * exp(...): writes column col from column
      col - 1, row by row. */
  method FillColumn(lib: NumLib, paths: array2<real>, s0: real, r: real, sigma: real, dt: real, normals: seq<seq<real>>, col: nat)
    requires 1 <= col < paths.Length1
    requires FilledUpTo(lib, paths, s0, r, sigma, dt, normals, col)
    modifies paths
    ensures FilledUpTo(lib, paths, s0, r, sigma, dt, normals, col + 1)
  {
    var row := 0;
    while row < paths.Length0
      invariant 0 <= row <= paths.Length0
      invariant forall i :: 0 <= i < row ==> paths[i, col] == PathPrice(lib, s0, r, sigma, dt, normals[i], col)
      invariant forall i, j :: 0 <= i < paths.Length0 && 0 <= j < paths.Length1 && (j != col || row <= i) ==> paths[i, j] == old(paths[i, j])
    {
      paths[row, col] := paths[row, col - 1] * lib.exp(LogIncrement(lib, r, sigma, dt, normals[row][col - 1]));
      row := row + 1;
    }
  }

  /** The complete matrix generate_gbm_paths returns for the draws: one row
      per row of draws, nSteps + 1 columns, entry (i, j) the price of path i
      after j steps. */
  ghost predicate IsGbmMatrix(lib: NumLib, paths: array2<real>, s0: real, r: real, sigma: real, dt: real, normals: seq<seq<real>>)
    reads paths
  {
    && paths.Length1 >= 1
    && IsDrawMatrix(normals, paths.Length0, paths.Length1 - 1)
    && forall i, j :: 0 <= i < paths.Length0 && 0 <= j < paths.Length1 ==> paths[i, j] == PathPrice(lib, s0, r, sigma, dt, normals[i], j)
  }

  /** generate_gbm_paths: a new nSims x (nSteps + 1) matrix holding the
      simulated prices for the draws fixed before the loop; column 0 is s0. */
  method GenerateGbmPaths(lib: NumLib, s0: real, r: real, sigma: real, t: real, nSteps: nat, nSims: nat, normals: seq<seq<real>>)
    returns (paths: array2<real>)
    requires nSteps >= 1
    requires IsDrawMatrix(normals, nSims, nSteps)
    ensures fresh(paths)
    ensures paths.Length0 == nSims && paths.Length1 == nSteps + 1
    ensures forall i :: 0 <= i < nSims ==> paths[i, 0] == s0
    ensures IsGbmMatrix(lib, paths, s0, r, sigma, TimeStep(t, nSteps), normals)
    ensures TerminalPrices(paths) == SimulatedTerminalPrices(lib, s0, r, sigma, t, nSteps, normals)
  {
    var dt := t / nSteps as real;
    paths := new real[nSims, nSteps + 1]((_, _) => 0.0);
    SetInitialColumn(paths, s0, lib, r, sigma, dt, normals);

    var col := 1;
    while col <= nSteps
      invariant 1 <= col <= nSteps + 1
      invariant FilledUpTo(lib, paths, s0, r, sigma, dt, normals, col)
    {
      FillColumn(lib, paths, s0, r, sigma, dt, normals, col);
      col := col + 1;
    }

    assert dt == TimeStep(t, nSteps);
    assert FilledUpTo(lib, paths, s0, r, sigma, dt, normals, nSteps + 1);
    assert TerminalPrices(paths) == SimulatedTerminalPrices(lib, s0, r, sigma, t, nSteps, normals);
  }

  /** Every later column is the previous one grown by the exponential of one
      log-increment driven by the draw of that row and step. */
  lemma GbmMatrixRecurrence(lib: NumLib, paths: array2<real>, s0: real, r: real, sigma: real, dt: real, normals: seq<seq<real>>)
    requires IsGbmMatrix(lib, paths, s0, r, sigma, dt, normals)
    ensures forall i, j {:trigger normals[i][j]} :: 0 <= i < paths.Length0 && 0 <= j < paths.Length1 - 1 ==>
      paths[i, j + 1] == paths[i, j] * lib.exp(LogIncrement(lib, r, sigma, dt, normals[i][j]))
  {
    forall i, j | 0 <= i < paths.Length0 && 0 <= j < paths.Length1 - 1
      ensures paths[i, j + 1] == paths[i, j] * lib.exp(LogIncrement(lib, r, sigma, dt, normals[i][j]))
    {
      assert paths[i, j + 1] == PathPrice(lib, s0, r, sigma, dt, normals[i], j + 1);
    }
  }

  /** Starting from a positive price, every entry of the matrix is positive. */
  lemma GbmMatrixPositive(lib: NumLib, paths: array2<real>, s0: real, r: real, sigma: real, dt: real, normals: seq<seq<real>>)
    requires IsGbmMatrix(lib, paths, s0, r, sigma, dt, normals)
    requires lib.ExpLaws() && s0 > 0.0
    ensures forall i, j :: 0 <= i < paths.Length0 && 0 <= j < paths.Length1 ==> paths[i, j] > 0.0
  {
    forall i, j | 0 <= i < paths.Length0 && 0 <= j < paths.Length1
      ensures paths[i, j] > 0.0
    {
      PathPricePositive(lib, s0, r, sigma, dt, normals[i], j);
    }
  }

  /** With zero volatility all rows of the matrix are the same. */
  lemma GbmMatrixZeroVolatility(lib: NumLib, paths: array2<real>, s0: real, r: real, dt: real, normals: seq<seq<real>>)
    requires IsGbmMatrix(lib, paths, s0, r, 0.0, dt, normals)
    ensures forall i1, i2, j :: 0 <= i1 < paths.Length0 && 0 <= i2 < paths.Length0 && 0 <= j < paths.Length1 ==> paths[i1, j] == paths[i2, j]
  {
    forall i1, i2, j | 0 <= i1 < paths.Length0 && 0 <= i2 < paths.Length0 && 0 <= j < paths.Length1
      ensures paths[i1, j] == paths[i2, j]
    {
      ZeroVolatilityPathsCoincide(lib, s0, r, dt, normals[i1], normals[i2], j);
    }
  }

  /** Row i of the matrix is determined by row i of the draws, and its first
      j + 1 entries by the first j draws of that row: two generated matrices
      whose draws agree there agree there. */
  lemma GbmMatrixRowsIndependent(lib: NumLib, a: array2<real>, b: array2<real>, s0: real, r: real, sigma: real, dt: real,
                                 normalsA: seq<seq<real>>, normalsB: seq<seq<real>>, i: nat, j: nat)
    requires IsGbmMatrix(lib, a, s0, r, sigma, dt, normalsA) && IsGbmMatrix(lib, b, s0, r, sigma, dt, normalsB)
    requires i < a.Length0 && i < b.Length0 && j < a.Length1 && j < b.Length1
    requires normalsA[i][..j] == normalsB[i][..j]
    ensures forall c :: 0 <= c <= j ==> a[i, c] == b[i, c]
  {
    forall c | 0 <= c <= j
      ensures a[i, c] == b[i, c]
    {
      assert normalsA[i][..c] == normalsA[i][..j][..c];
      assert normalsB[i][..c] == normalsB[i][..j][..c];
      PathPriceCausal(lib, s0, r, sigma, dt, normalsA[i], normalsB[i], c);
    }
  }

  /** The terminal price of every simulated path, as a function of the draws. */
  function SimulatedTerminalPrices(lib: NumLib, s0: real, r: real, sigma: real, t: real, nSteps: nat, normals: seq<seq<real>>): (s: seq<real>)
    requires nSteps >= 1 && IsDrawMatrix(normals, |normals|, nSteps)
    ensures |s| == |normals|
  {
    seq(|normals|, i requires 0 <= i < |normals| => PathPrice(lib, s0, r, sigma, TimeStep(t, nSteps), normals[i], nSteps))
  }

  /** paths[:, -1]: the terminal price of every path. */
  function TerminalPrices(paths: array2<real>): (s: seq<real>)
    reads paths
    requires paths.Length1 >= 1
    ensures |s| == paths.Length0
    ensures forall i :: 0 <= i < |s| ==> s[i] == paths[i, paths.Length1 - 1]
  {
    seq(paths.Length0, i requires 0 <= i < paths.Length0 reads paths => paths[i, paths.Length1 - 1])
  }

  /** np.maximum(S_T - K, 0) for a call, np.maximum(K - S_T, 0) for a put. */
  function Payoffs(isCall: bool, terminal: seq<real>, k: real): (p: seq<real>)
    ensures |p| == |terminal|
    ensures forall i :: 0 <= i < |p| ==> p[i] == Payoff(isCall, terminal[i], k)
  {
    seq(|terminal|, i requires 0 <= i < |terminal| => Payoff(isCall, terminal[i], k))
  }

  /** np.exp(-r * T) * np.mean(payoffs): the mean payoff discounted from
      maturity to today. */
  function DiscountedMean(lib: NumLib, r: real, t: real, payoffs: seq<real>): real
    requires |payoffs| >= 1
  {
    lib.exp(-r * t) * Mean(payoffs)
  }

  /** price_option_mc: the discounted mean payoff of the terminal column; any
      option type other than "call" and "put" raises ValueError. */
  function PriceOptionMc(lib: NumLib, paths: array2<real>, k: real, r: real, t: real, optionType: string): (res: Result<real>)
    reads paths
    requires paths.Length0 >= 1 && paths.Length1 >= 1
    ensures res.Err? <==> !IsKnownType(optionType)
    ensures res.Err? ==> res.error == ValueError(InvalidTypeMessage)
  {
    var sT := TerminalPrices(paths);
    if optionType == Call then
      Ok(DiscountedMean(lib, r, t, Payoffs(true, sT, k)))
    else if optionType == Put then
      Ok(DiscountedMean(lib, r, t, Payoffs(false, sT, k)))
    else
      Err(ValueError(InvalidTypeMessage))
  }

  /** The price reads the terminal column only: two matrices of the same shape
      that agree on their last column are priced alike. */
  lemma PriceReadsOnlyTerminalColumn(lib: NumLib, a: array2<real>, b: array2<real>, k: real, r: real, t: real, optionType: string)
    requires a.Length0 >= 1 && a.Length1 >= 1 && b.Length0 == a.Length0 && b.Length1 == a.Length1
    requires forall i, j :: 0 <= i < a.Length0 && 0 <= j < a.Length1 && a[i, j] != b[i, j] ==> j < a.Length1 - 1
    ensures PriceOptionMc(lib, a, k, r, t, optionType) == PriceOptionMc(lib, b, k, r, t, optionType)
  {
    var last := a.Length1 - 1;
    forall i | 0 <= i < a.Length0
      ensures a[i, last] == b[i, last]
    {
      if a[i, last] != b[i, last] {
        assert false;
      }
    }
    assert TerminalPrices(a) == TerminalPrices(b);
    var pa := PriceOptionMc(lib, a, k, r, t, optionType);
    var pb := PriceOptionMc(lib, b, k, r, t, optionType);
    if IsKnownType(optionType) {
      assert pa.value == pb.value;
    }
  }

  /** The Monte Carlo price of a call or a put is never negative. */
  lemma MonteCarloPriceNonNegative(lib: NumLib, paths: array2<real>, k: real, r: real, t: real, optionType: string)
    requires lib.ExpLaws()
    requires paths.Length0 >= 1 && paths.Length1 >= 1
    requires IsKnownType(optionType)
    ensures PriceOptionMc(lib, paths, k, r, t, optionType).value >= 0.0
  {
    var p := Payoffs(optionType == Call, TerminalPrices(paths), k);
    MeanNonNegative(p);
    var d := lib.exp(-r * t);
    assert d > 0.0;
    assert d * Mean(p) >= 0.0;
  }

  /** Monte Carlo put-call parity on one set of paths: call minus put is the
      discounted mean terminal price minus the discounted strike. */
  lemma MonteCarloParity(lib: NumLib, paths: array2<real>, k: real, r: real, t: real)
    requires paths.Length0 >= 1 && paths.Length1 >= 1
    ensures PriceOptionMc(lib, paths, k, r, t, Call).value - PriceOptionMc(lib, paths, k, r, t, Put).value
         == lib.exp(-r * t) * (Mean(TerminalPrices(paths)) - k)
  {
    var sT := TerminalPrices(paths);
    var calls, puts := Payoffs(true, sT, k), Payoffs(false, sT, k);
    forall i | 0 <= i < |sT|
      ensures calls[i] - puts[i] == sT[i] - k
    {
      PayoffParity(sT[i], k);
    }
    MeanOfDifferences(calls, puts, sT, k);
    var d := lib.exp(-r * t);
    calc {
      d * Mean(calls) - d * Mean(puts);
      d * (Mean(calls) - Mean(puts));
      d * (Mean(sT) - k);
    }
  }
}
