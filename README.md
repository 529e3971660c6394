# Monte Carlo option pricer: a Dafny model

This project models the pricing core of a small European option pricer. The
core prices a call or a put two ways and compares the results:

- **Path generator** (`generate_gbm_paths`). It fills an `n_sims × (n_steps+1)`
  matrix with geometric Brownian motion paths. Column 0 is `S0`. Each later
  column is the previous column times `exp((r − σ²/2)·dt + σ·√dt·Z)`, where
  `dt = T / n_steps` and `Z` is a matrix of standard normal draws taken once
  before the loop.
- **Monte Carlo pricer** (`price_option_mc`). It takes the terminal column,
  turns it into call or put payoffs, and returns their discounted mean.
- **Analytic pricer** (`black_scholes_price`). This is the Black–Scholes closed
  form. When `T ≤ 0` or `σ ≤ 0` it returns the intrinsic value instead.
- **Agreement check** (the numeric part of the dashboard callback
  `update_output`). It runs both pricers on the same inputs, recomputes the
  payoff vector for a histogram, and reports whether the percent error is
  below 5%.

Everything is exact over Dafny `real`. The library calls `np.exp`, `np.log`,
`np.sqrt` and `scipy.stats.norm.cdf` are the four fields of `Numerics.NumLib`.
Each field is an arbitrary function `real -> real`. A lemma knows only the laws
its `requires` name:

- `ExpLaws`: `exp(x) > 0` and `exp(0) = 1`.
- `ExpIncreasing`: `exp` is strictly increasing.
- `SqrtLaws`: `sqrt(x) > 0` for `x > 0`.
- `CdfLaws`: `0 ≤ Φ(x) ≤ 1` and `Φ(x) + Φ(−x) = 1`.

The random draws are an input matrix `normals: seq<seq<real>>`.

Module layout:

- `Numerics` (numerics.dfy) holds `NumLib`, `Max`, `Abs`, `Sum` and `Mean`.
- `Options` (options.dfy) holds the option-type strings, the `ValueError`
  result and the payoff.
- `MonteCarlo` (monte_carlo.dfy) models monte_carlo.py.
- `BlackScholes` (black_scholes.dfy) models black_scholes.py.
- `App` (app.dfy) models the numeric part of app.py.

The path generator is imperative, as in the source. It allocates a zero-filled
`array2<real>` (the `np.zeros` of line 5), writes column 0, and then fills
columns 1..n_steps one at a time. Each column fill is a loop over the rows;
this is the vectorised assignment `paths[:, t] = …`. The pure function
`PathPrice` specifies the loop. The pricers and the agreement check are
functions and lemmas.

How the code behaves in corner cases a reader might not expect:

- For an unknown option type, the analytic pricer raises only in its general
  branch. The degenerate branch prices any string other than `"call"` as a put.
- Nothing validates `n_steps` or `n_sims`. `n_steps = 0` fails on the division
  `T / n_steps`, so it is a precondition. The counts are `nat`.
- The draws come from one global generator. Here they are a parameter.
- `price_option_mc` returns only the price. The app recomputes the payoff
  vector itself (app.py:162-165), and that copy treats every non-`"call"` type
  as a put.
- monte_carlo.py:19-27 has lost the opening quotes of its docstring, so the
  file does not parse as written. The model follows the evident intent, which
  is lines 29-39.

## Model

| member | source | states |
|---|---|---|
| MonteCarlo.GenerateGbmPaths | monte_carlo.py:3-15 | Requires `n_steps ≥ 1`, because `dt = T / n_steps`. Returns a new matrix with `n_sims` rows and `n_steps + 1` columns. Column 0 of every row is `S0`. Entry (i, j) is the price of path i after j steps for row i of the draws. The terminal column is the simulated terminal prices. |
| MonteCarlo.SetInitialColumn | monte_carlo.py:5-6 | From the all-zero allocation, afterwards column 0 holds `S0` and every other column still holds zeros. |
| MonteCarlo.FillColumn | monte_carlo.py:10-13 | Loop step: if columns `< t` hold the simulated prices and the rest are zero, then afterwards columns `≤ t` hold them and the rest are still zero. |
| MonteCarlo.GbmMatrixRecurrence | monte_carlo.py:11-13 | For every row i and step t ≥ 1, `paths[i][t] = paths[i][t−1] · exp((r − σ²/2)·dt + σ·√dt·Z[i][t−1])`. |
| MonteCarlo.PathPricePositive | monte_carlo.py:6-13 | If `S0 > 0` and `exp` is positive, every simulated price is strictly positive. Proved by induction on the step. |
| MonteCarlo.GbmMatrixPositive | monte_carlo.py:6-13 | If `S0 > 0`, every entry of the generated matrix is strictly positive. |
| MonteCarlo.PathPriceCausal | monte_carlo.py:11-13 | The price after t steps depends only on the first t draws of its own row. |
| MonteCarlo.GbmMatrixRowsIndependent | monte_carlo.py:8-13 | Two generated matrices agree on entries 0..j of row i whenever their draw matrices agree on the first j draws of row i. So row i depends only on row i of the draws. |
| MonteCarlo.ZeroVolatilityPathsCoincide | monte_carlo.py:11-13 | With σ = 0 the draws have no effect: any two draw rows give the same price at every step. |
| MonteCarlo.GbmMatrixZeroVolatility | monte_carlo.py:11-13 | With σ = 0 all rows of the generated matrix are identical. |
| MonteCarlo.Payoffs | monte_carlo.py:31-34 | One payoff per terminal price, each exactly `Payoff` of that price: `np.maximum(S_T − K, 0)` for a call, `np.maximum(K − S_T, 0)` for a put. |
| MonteCarlo.TerminalPrices | monte_carlo.py:29 | `paths[:, -1]`: one entry per row, and entry i is the last entry of row i. |
| MonteCarlo.PriceOptionMc | monte_carlo.py:29-39 | Raises `ValueError("option_type must be 'call' or 'put'")` exactly when the option type is neither `"call"` nor `"put"`. Otherwise returns a price. Needs at least one path. |
| MonteCarlo.PriceReadsOnlyTerminalColumn | monte_carlo.py:29-38 | Two matrices of the same shape that differ only in non-terminal columns get the same result, for every option type. |
| MonteCarlo.MonteCarloPriceNonNegative | monte_carlo.py:31-38 | For `"call"` and `"put"`, the Monte Carlo price is ≥ 0. |
| MonteCarlo.MonteCarloParity | monte_carlo.py:31-38 | On the same paths, MC call − MC put = `exp(−rT)·(mean(S_T) − K)`. |
| Options.Payoff | monte_carlo.py:32-34 | The payoff is ≥ 0 and ≥ `S_T − K` (call) or `K − S_T` (put), and it equals either 0 or that difference. So it is exactly the max with zero. |
| Options.PayoffParity | monte_carlo.py:32-34 | Per path, call payoff − put payoff = `S_T − K`. |
| Numerics.SumNonNegative | monte_carlo.py:38 | A vector of non-negative payoffs has a non-negative sum. Proved by induction. |
| Numerics.MeanOfDifferences | monte_carlo.py:38 | If `a[i] − b[i] = c[i] − K` for every i, then `mean(a) − mean(b) = mean(c) − K`. |
| BlackScholes.BlackScholesPrice | black_scholes.py:19-30 | Raises ValueError exactly when `T > 0`, `σ > 0` and the option type is neither `"call"` nor `"put"`. In the degenerate branch nothing raises. The general branch requires `K ≠ 0` and `S0 / K > 0`, because of `log(S0/K)`. |
| BlackScholes.DegenerateIsIntrinsic | black_scholes.py:19-20 | If `T ≤ 0` or `σ ≤ 0`, the result is the intrinsic value `max(0, S0−K)` for `"call"` and `max(0, K−S0)` otherwise, for any string. It is ≥ 0. Invalid strings get exactly the put's value. |
| BlackScholes.DegenerateParity | black_scholes.py:20 | In the degenerate branch, call − put = `S0 − K`. |
| BlackScholes.DegenerateBreaksDiscountedParity | black_scholes.py:19-20 | With `T > 0`, `σ ≤ 0`, `K ≠ 0` and `r ≠ 0`, call − put ≠ `S0 − K·e^(−rT)`. |
| BlackScholes.PutCallParity | black_scholes.py:22-28 | General branch, using `Φ(x) + Φ(−x) = 1`: call − put = `S0 − K·e^(−rT)`. Here call = `S0·Φ(d1) − K·e^(−rT)·Φ(d2)`, put = `K·e^(−rT)·Φ(−d2) − S0·Φ(−d1)` and `d2 = d1 − σ√T`. |
| BlackScholes.GeneralBranchBounds | black_scholes.py:22-28 | General branch with `S0, K > 0`: call ≤ `S0` and put ≤ `K·e^(−rT)`. |
| App.PercentError | app.py:119 | `abs(mc − bs) / bs · 100` needs `bs ≠ 0`. It is ≥ 0 when `bs > 0`, and it is 0 exactly when `mc = bs`. |
| App.AgreementMessage | app.py:184-187 | The message is one of the two texts, and it is the "reasonably close" one exactly when the percent error is strictly below 5. |
| App.Compare | app.py:119 | The report of an MC price against a non-zero analytic price: its percent error is `PercentError(mc, bs)`, 0 exactly when the prices agree, and ≥ 0 for `bs > 0`. Its message is the one `AgreementMessage` picks, so for `bs > 0` it says "close" exactly when `abs(mc − bs) < bs/20`. |
| App.CloseIffWithinFivePercent | app.py:184-187 | For `bs > 0`, the "reasonably close" message appears exactly when `abs(mc − bs) < bs/20`. An error of exactly 5% gets the "diverges" message. |
| App.AppPayoffs | app.py:162-165 | One non-negative payoff per path: a call for `"call"` and a put for any other value, with no error. |
| App.AppPayoffsMatchPricer | app.py:162-165 | For `"call"` and `"put"`, the app's payoffs are the ones the pricer averaged, so `mc_price = exp(−rT)·mean(payoffs)`. |
| App.AppPayoffsOfInvalidTypeArePuts | app.py:162-165 | For any other type, the pricer raises, but the app's recomputation silently yields the put payoffs. |
| App.PricePaths | app.py:117 | On one matrix, the MC price raises exactly for an unknown type. Otherwise it is the discounted mean (`exp(−rT)·mean`) of exactly the payoffs the app recomputes for its histogram (app.py:162-165). |
| App.SimulateAndPrice | app.py:114-117 | Generates the paths and prices them from one `S0, r, σ, T`. The payoffs are those of the simulated terminal prices. The MC price is their discounted mean. Raises exactly for an unknown type. |
| App.UpdateOutput | app.py:112-119 | Raises exactly for an unknown type, before the analytic price is computed; only then does it need the Black–Scholes preconditions. Otherwise it reports the payoffs of the simulated terminal prices, one non-negative entry per path. The MC price is their discounted mean. The Black–Scholes price uses the same `S0, K, r, σ, T`. The percent error is `abs(mc − bs) / bs · 100` of the two reported prices: 0 exactly when they agree, ≥ 0 when `bs > 0`. The message is "close" exactly when that error is below 5, which for `bs > 0` is exactly when `abs(mc − bs) < bs/20`. |

## Left out

- The Dash layout, the Plotly figures, the HSL colours, the histogram binning, the two-decimal price formatting, the message colour and `app.run` (app.py:11-91, 121-160, 166-199). These are presentation only.
- The distribution of `np.random.normal` and the global generator (monte_carlo.py:8). The draws are an arbitrary input matrix, and nothing statistical is claimed, including convergence of Monte Carlo to Black–Scholes.
- Floating point: rounding, nan, inf and warnings. The model is exact over `real`. `exp`, `log`, `sqrt` and `norm.cdf` are abstract, with only the laws listed above, so no numeric value such as the reference call price is derived.
- `SqrtLaws` and `ExpIncreasing` are two facts beyond the four laws of exp and Φ. `SqrtLaws` shows that the divisor `σ·√T` of `d1` is not zero. `ExpIncreasing` is used only by `DegenerateBreaksDiscountedParity`, to show that `exp(−rT) ≠ 1` when `rT ≠ 0`.
- Crash conditions are preconditions rather than modelled errors: `n_steps ≥ 1`, at least one path for the mean, `K ≠ 0` and `S0/K > 0` in the general Black–Scholes branch, and `bs ≠ 0` for the percent error. In Python, `n_steps = 0` raises ZeroDivisionError; an empty path matrix makes `np.mean` give nan with a RuntimeWarning; `K = 0` or a non-positive `S0/K` in `log` gives a ZeroDivisionError, nan or -inf. A zero analytic price does not raise: `mc_price` is a numpy float, so app.py:119 gives inf (or nan when `mc_price` is 0 too) with a RuntimeWarning, and the comparison at app.py:185 then shows the "diverges" message. This case is reachable, for example in the intrinsic-value branch with `S0 ≤ K` for a call; the model requires a non-zero analytic price instead. Negative counts are excluded by the `nat` type; numpy would raise on them.
- The default `option_type='call'` of `price_option_mc` (monte_carlo.py:18) and of `black_scholes_price` (black_scholes.py:4) is not modelled: the callback always passes the option type (app.py:117-118), so the default never takes effect.
- Option types are strings. Non-string values such as `None` are not modelled; they behave like an unknown string in every comparison.
- BlackScholes.BlackScholesPrice: non-negativity of the general-branch price is not stated, because it does not follow from the listed laws of Φ.
