# PGBL calculator core in Dafny

This project models the computational core of a PGBL-vs-taxable-investment calculator for Brazilian investors:

- **Tax rules.** The 2025 progressive income-tax (IRPF) brackets and the regressive pension schedule, with the lookups over them. Also the PGBL deduction cap, the IOF excise on large VGBL contributions, the legacy per-regime exit-rate selector and the "best of" exit rate.
- **Engine.** The wealth multipliers per unit invested: A for the taxable comparison and B for the PGBL plus its reinvested tax refund. Also the annualized delta in basis points, the derivation of the tax parameters from the form's inputs, and the simulation run. The run applies fees, builds one data point per year 0..N, finds the first break-even year and reads the terminal values back.
- **Signed session cookie.** How a cookie is created, and how it is verified: split on ".", a length check, then an XOR/OR comparison without early exit.
- **Scroll lock.** The shared counter behind the page's scroll lock, and the body's `overflow` style.
- **Route gate.** The middleware's allow/redirect decision.

The model is written in the form of the source:

- The tax rules, the closed-form multipliers, the cookie format and the route gate are functions, and lemmas state their properties.
- The simulation run and the cookie check are methods with loops, each proved against a specification. `Engine.RunSimulation` applies fees (`Engine.ApplyFees`) and calls `Engine.BuildSeries`, which holds the year loop; they are proved against `Engine.IsSimulationOf` and `Engine.SeriesOf`. The cookie check `Auth.VerifyAuthCookie` is proved against `Auth.AcceptsCookie`.
- The scroll lock is a class whose methods update `count` and `overflow` in place.

Files:

| file | module | models |
|---|---|---|
| common.dfy | `Common` | `Option`, `Min`, `Max` |
| types.dfy | `Types` | the records of `src/lib/types.ts` |
| taxrules.dfy | `TaxRules` | `src/lib/taxRules.ts` |
| engine.dfy | `Engine` | `src/lib/engine.ts` |
| defaults.dfy | `Defaults` | `src/lib/defaults.ts` and the engine's results for it |
| auth.dfy | `Auth` | `src/lib/auth.ts` |
| scrolllock.dfy | `ScrollLock` | `src/lib/scrollLock.ts` |
| middleware.dfy | `RouteGate` | `src/middleware.ts` |

Numbers are exact reals. `Math.pow` with a whole-number exponent is the recursive `Engine.Pow`. `Math.pow` with a fractional exponent is the function parameter `mathPow`. It is used for the refund leg, because the refund delay is used unrounded, and for the 1/N roots of the annualized delta. Only two laws about `mathPow` are ever assumed, and only by the lemmas that require `Engine.PowLaws`:

- one to any power is one;
- for a positive exponent, it is strictly increasing in a positive base.

The HMAC signer is the parameter `sign`, and the clock reading `Date.now()` is the parameter `now`.

### Where the engine differs from what the application describes

The model follows the code. The following gaps between the code and its comments or UI text are proved as lemmas:

- **Legacy exit rate.** The exit rate comes from the deprecated per-regime `estimateXout` at the horizon (src/lib/engine.ts:76-80). This contradicts the deprecation note that the engine "always uses best of" (src/lib/taxRules.ts:99).
  - `Defaults.ExitRateIsLegacySelector`: with the progressive regime, the default run pays 27.5% where "best of" is 15%.
  - `TaxRules.OptimisticXoutCanExceedBest`: the optimistic regime's 10% can exceed a best rate of 0.
  - `Defaults.ExitRateNotRecomputedPerYear`: the rate is not recomputed per year.
- **Entry benefit not gated.** The entry benefit `xin` is the marginal rate whatever the wrapper, filing mode or INSS status (`Engine.EligibilityDoesNotAffectRun`, `Defaults.IneligibleInvestorStillGetsRefund`).
- **No VGBL branch.** B has no VGBL gains-only branch: the fund part taxes the whole balance, principal included, so it is strictly below a gains-only-taxed balance whenever the return and exit rate are positive (`Engine.FundTaxesPrincipalToo`).
- **Fees reach A.** The fee-reduced return also drives the taxable comparison A (`Engine.FeesReduceComparatorToo`, `Defaults.FeesChangeComparatorInDefaultScenario`).
- **Breakdown gap.** Before the refund arrives (year < D), the yearly breakdown leaves the refund out while B counts it. The two components then fall short of B by exactly `xin` (`Engine.BreakdownGap`, `Engine.SeriesBreakdown`).
- **Unrounded inputs.** The refund delay D is not rounded up: in the default run the refund grows for 0.25 of year 1 (`Defaults.YearOneWealthB`). The contribution percentage is not clamped: the contribution is income × percentage for any percentage (`Engine.DerivedFrom`). The horizon is used as given.
- **Route gate rejects signed cookies.** The route gate accepts only the literal cookie "authenticated". A cookie made by `createAuthCookie` is therefore rejected on every protected path (`RouteGate.SignedCookieIsRejected`).

## Model

| member | source | states |
|---|---|---|
| Common.Min | src/lib/engine.ts:84 | `Math.min`: at most both arguments and equal to one of them |
| Common.Max | src/lib/engine.ts:110 | `Math.max`: at least both arguments and equal to one of them |
| TaxRules.ComputeVGBLIOF | src/lib/taxRules.ts:40-43 | IOF is 5% of the contribution above R$600k; it is non-negative, and zero exactly when the contribution is at most the threshold |
| TaxRules.IofIsContinuous | src/lib/taxRules.ts:40-43 | the excise never decreases and grows by at most 5% of the growth in contribution, so there is no jump at the threshold |
| TaxRules.FindBracket | src/lib/taxRules.ts:66 | `find`: the returned index is the first bracket whose closed upper limit covers the income; None exactly when no bracket does |
| TaxRules.ApplicableBracket | src/lib/taxRules.ts:78-79 | the bracket used is always a row of the table, via `find` or the last-row fallback |
| TaxRules.BracketAlwaysFound | src/lib/taxRules.ts:22 | the last bracket is unbounded, so `find` always succeeds and the fallback is dead |
| TaxRules.EstimateMarginalRate | src/lib/taxRules.ts:76-81 | income ≤ 0 gives 0; the rate is always one of 0, 7.5, 15, 22.5, 27.5% |
| TaxRules.MarginalRateMatchesThresholds | src/lib/taxRules.ts:17-23 | for every income, the table lookup equals the chain of inclusive thresholds 26963.20 / 33919.80 / 45012.60 / 55976.16 |
| TaxRules.MarginalRateBoundaries | src/lib/taxRules.ts:18-22 | upper limits are inclusive: 26963.20 gives 0, 26963.21 gives 7.5%, 55976.16 gives 22.5%, 120000 gives 27.5% |
| TaxRules.MarginalRateMonotone | src/lib/taxRules.ts:76-81 | a higher income never has a lower marginal rate |
| TaxRules.ComputeIRPF | src/lib/taxRules.ts:64-69 | the tax is never negative, and zero for income ≤ 0 |
| TaxRules.IrpfUsesMarginalBracket | src/lib/taxRules.ts:64-69 | the tax is computed in the same bracket as the marginal rate; it is at most income × marginal rate, and zero up to the exemption limit |
| TaxRules.BracketSeamsAgreeToHalfCentavo | src/lib/taxRules.ts:17-23 | at each finite bracket limit, the two neighbouring bracket formulas agree to within half a centavo |
| TaxRules.FindScheduleRow | src/lib/taxRules.ts:91-93 | the `for…of` search returns the first schedule row whose closed upper bound covers the holding period |
| TaxRules.GetRegressiveRate | src/lib/taxRules.ts:90-95 | the rate lies in [10%, 35%] |
| TaxRules.ScheduleAlwaysCovers | src/lib/taxRules.ts:58 | the last row is unbounded, so the `return 0.10` fallback is unreachable |
| TaxRules.RegressiveRateMatchesThresholds | src/lib/taxRules.ts:52-59 | for every holding period, the search equals the chain of inclusive bounds 2/4/6/8/10 years |
| TaxRules.RegressiveRateBoundaries | src/lib/taxRules.ts:86-95 | exactly 2 years gives 35%, just above gives 30%; exactly 10 gives 15%, just above gives 10% |
| TaxRules.RegressiveRateNonIncreasing | src/lib/taxRules.ts:52-59 | holding longer never raises the rate |
| TaxRules.EstimateXout | src/lib/taxRules.ts:101-116 | regressive gives the schedule rate at the horizon, progressive the marginal rate, optimistic 10% |
| TaxRules.ComputeBestXout | src/lib/taxRules.ts:124-126 | at most both the regressive and the progressive rate, and equal to one of them |
| TaxRules.LegacyXoutNeverBelowBest | src/lib/taxRules.ts:97-116 | for the progressive and regressive regimes the legacy rate is ≥ "best of", with equality exactly when the chosen regime is the cheaper one |
| TaxRules.OptimisticXoutCanExceedBest | src/lib/taxRules.ts:112-114 | the optimistic 10% exceeds a "best of" of 0 at R$20k income |
| Engine.Pow | src/lib/engine.ts:24 | a power of a positive base is positive; a base ≥ 1 gives ≥ 1; a base > 1 to a positive power is at least the base |
| Engine.WealthA | src/lib/engine.ts:23-26 | A is 1 at N = 0; it is (1+Y)^N with no gains tax and 1 with a 100% gains tax |
| Engine.TaxedGrowthBetween | src/lib/engine.ts:25 | taxing only the gains of a growth factor ≥ 1 at a rate in [0, 1] leaves between 1 and the growth factor |
| Engine.WealthABetweenPrincipalAndGrowth | src/lib/engine.ts:23-26 | for Y ≥ 0 and Z in [0, 1], A lies between the principal 1 and the gross growth (1+Y)^N |
| Engine.WealthB | src/lib/engine.ts:37-58 | when N ≤ D, B is (1+Y)^N·(1−Xout) + Xin; at N = 0, for D ≥ 0, it is 1 − Xout + Xin |
| Engine.FundNet | src/lib/engine.ts:45-46 | the fund part is 1 − Xout at N = 0, the gross growth (1+Y)^N with no exit tax, and 0 with a 100% exit tax |
| Engine.FundTaxesPrincipalToo | src/lib/engine.ts:45-46 | for a positive return and exit rate and N ≥ 1, the fund part (taxing the whole balance) is strictly below the balance with only its gains taxed at the same rate |
| Engine.RefundLeg | src/lib/engine.ts:54 | the reinvested refund is Xin with no growth or a 100% gains tax, and Xin × growth with no gains tax |
| Engine.AnnualizedDelta | src/lib/engine.ts:64-68 | 0 when N ≤ 0, a ≤ 0 or b ≤ 0; 0 when a = b |
| Engine.DeltaSignFollowsWealthOrder | src/lib/engine.ts:64-68 | where computed, the delta is ≥ 0 exactly when b ≥ a, and > 0 exactly when b > a |
| Engine.DeriveValues | src/lib/engine.ts:73-94 | the derived values depend only on the income, the regime, the horizon and the contribution share |
| Engine.DerivedFrom | src/lib/engine.ts:74-93 | xin is the marginal rate and xout the legacy selector at the horizon; the contribution is income × share; the deductible is at most the contribution and at most 12% of income, and equals one of them; the refund is deductible × xin |
| Engine.RefundWithinCap | src/lib/engine.ts:82-85 | for non-negative inputs, the refund lies between 0 and 27.5% of 12% of income |
| Engine.FeeAdjustedReturn | src/lib/engine.ts:107-115 | with fees disabled the return is Y unchanged |
| Engine.FeeAdjustedReturnBounds | src/lib/engine.ts:109-115 | with fees enabled, a non-negative admin fee and a performance fee in [0, 1], the return lies in [0, max(Y, 0)] |
| Engine.ApplyFees | src/lib/engine.ts:107-115 | the imperative fee block computes exactly the fee-adjusted return |
| Engine.BreakdownRefund | src/lib/engine.ts:128-135 | the breakdown's refund part is 0 before the refund year D, xin exactly at D, and the grown and gains-taxed refund after it |
| Engine.DataPointAt | src/lib/engine.ts:121-144 | a point carries its own year; at year 0, A = 1 and the delta is 0; equal A and B give delta 0 |
| Engine.BreakdownGap | src/lib/engine.ts:125-135 | from the refund year on, fund part + refund part = B; before it, they fall short of B by exactly xin |
| Engine.BuildSeries | src/lib/engine.ts:117-150 | the loop pushes exactly n+1 points, point k computed for year k, and records the first year after 0 with B ≥ A (None iff there is none) |
| Engine.RunSimulation | src/lib/engine.ts:99-166 | the result carries the inputs and derived values, N+1 points each computed for its own year, terminal values read from point N, the first break-even year in 1..N (None iff there is none), and the engine version |
| Engine.BreakEvenIsUnique | src/lib/engine.ts:146-149 | a series has at most one first break-even year |
| Engine.BreakEvenAtYearOne | src/lib/engine.ts:146-149 | if year 1 already has B ≥ A, the break-even year is 1 |
| Engine.SameParametersSameRun | src/lib/engine.ts:117-154 | two runs with the same horizon, effective return, rates, gains tax and delay give the same series, terminals and break-even year |
| Engine.SimulationIsDeterministic | src/lib/engine.ts:99-166 | the same inputs always give the same result |
| Engine.RunParametersIgnoreEligibility | src/lib/engine.ts:73-115 | two inputs differing only in wrapper, filing mode and INSS status give the same derived values and the same effective return |
| Engine.EligibilityDoesNotAffectRun | src/lib/engine.ts:74 | the wrapper, filing mode and INSS status change neither the derived values nor the series |
| Engine.SeriesStartsAtPar | src/lib/engine.ts:120-123 | point 0 has year 0, A = 1, delta 0 and, for D ≥ 0, B = 1 − xout + xin |
| Engine.SeriesBreakdown | src/lib/engine.ts:126-144 | each point carries its own year; its breakdown sums to B from year D on and falls short by xin before it |
| Engine.BreakEvenTestMatchesDelta | src/lib/engine.ts:123 | where both multipliers are positive, a year passes the break-even test exactly when its delta is ≥ 0 |
| Engine.FeesReduceComparatorToo | src/lib/engine.ts:121 | A and the refund leg of each point are computed with the fee-reduced return |
| Defaults.DefaultDerivedValues | src/lib/defaults.ts:3-17 | the default inputs derive xin 27.5%, xout 15%, deductible and contribution R$14400 and refund R$3960, with a 15% effective return |
| Defaults.DefaultSeriesPoint | src/lib/defaults.ts:3-17 | each point of a default run is computed with 15% return, 15% exit, 27.5% entry, 15% gains tax and a 0.75-year delay |
| Defaults.RefundLegAboveRefund | src/lib/engine.ts:133-134 | a refund reinvested at 15% for a positive time is worth more than the refund rate itself |
| Defaults.DefaultYearOneBreaksEven | src/lib/engine.ts:121-122 | year 1 of the default run: A = 1.1275 and B ≥ A |
| Defaults.YearOneWealthB | src/lib/engine.ts:45-57 | year-1 B of the default run is 1.15·0.85 plus the refund grown for a quarter year |
| Defaults.DefaultYearTenAboveOne | src/lib/engine.ts:121-122 | year 10 of the default run has both multipliers above 1 |
| Defaults.DefaultBreakEvenYear | src/lib/defaults.ts:3-17 | a default run breaks even in year 1 |
| Defaults.DefaultTerminalsAboveOne | src/lib/defaults.ts:3-17 | both terminal multipliers of a default run are above 1 |
| Defaults.DefaultScenario | src/lib/defaults.ts:3-17 | a default run has xin 27.5%, xout 15%, contribution 14400, refund 3960, both terminals above 1 and break-even in year 1 |
| Defaults.ExitRateIsLegacySelector | src/lib/engine.ts:76-80 | with the progressive regime, the default run's exit rate is 27.5% although "best of" gives 15% |
| Defaults.YearOneFundAtFifteenPercent | src/lib/engine.ts:126-127 | the year-1 fund part at 15% return and 15% exit is 1.15·0.85 |
| Defaults.ExitRateNotRecomputedPerYear | src/lib/engine.ts:101 | year 1 of the default run is taxed at the horizon's 15%, although "best of" for one year is 27.5% |
| Defaults.IneligibleInvestorStillGetsRefund | src/lib/engine.ts:74 | a VGBL investor filing the simplified return without INSS still gets 27.5% and a R$3960 refund |
| Defaults.YearOneComparator | src/lib/engine.ts:23-26 | A for one year at 14% is 1.119, and at 15% it is 1.1275, with 15% gains tax |
| Defaults.FeesChangeComparatorInDefaultScenario | src/lib/engine.ts:108-121 | with the 1% admin fee on, the default run's year-1 A is 1.119 rather than 1.1275 |
| Auth.Split | src/lib/auth.ts:21 | `split(".")` yields one more part than there are dots, and no part contains a dot |
| Auth.SplitThenJoin | src/lib/auth.ts:21 | joining the parts with the separator gives back the original string |
| Auth.SplitWithoutSeparator | src/lib/auth.ts:21 | a dot-free string splits into itself alone |
| Auth.SplitAroundSeparator | src/lib/auth.ts:21-23 | two dot-free strings joined by a dot split back into exactly those two |
| Auth.DigitChar | src/lib/auth.ts:15 | a digit prints as a character from '0' to '9' |
| Auth.DecimalDigits | src/lib/auth.ts:15 | a timestamp prints as a non-empty string of decimal digits |
| Auth.DecimalDigitsRoundTrip | src/lib/auth.ts:15 | the printed timestamp reads back as the same number |
| Auth.Payload | src/lib/auth.ts:15 | the payload "authenticated:" + digits contains no dot |
| Auth.CreateAuthCookie | src/lib/auth.ts:14-18 | the cookie is the payload, a dot and the signature of the payload; for a dot-free signature it splits back into exactly the payload and the signature |
| Auth.XorIsZero | src/lib/auth.ts:29 | two character codes XOR to zero exactly when they are equal |
| Auth.OrIsZero | src/lib/auth.ts:29 | the accumulated OR is zero exactly when both operands are zero, so one mismatch keeps it non-zero |
| Auth.VerifyAuthCookie | src/lib/auth.ts:20-32 | true exactly when the value splits into two parts and the second equals the signature of the first; true implies exactly one dot; false on a length mismatch |
| Auth.CreatedCookieVerifies | src/lib/auth.ts:14-32 | a freshly created cookie verifies, for any signer that outputs hexadecimal text |
| ScrollLock.CountAfter | src/lib/scrollLock.ts:4-14 | from any start, a sequence of calls leaves the counter at most one higher per call, and, for a start at least the number of calls, at most one lower per call |
| ScrollLock.Repeat | src/lib/scrollLock.ts:5-10 | k copies of one call, all of them that call |
| ScrollLock.CountAfterAppend | src/lib/scrollLock.ts:5-10 | the counter after a sequence of calls is the counter after a prefix, carried through the rest |
| ScrollLock.LocksAdd | src/lib/scrollLock.ts:5 | k locks raise the counter by k |
| ScrollLock.UnlocksSubtract | src/lib/scrollLock.ts:10 | j unlocks lower the counter by j, never below zero |
| ScrollLock.NestedLocksRelease | src/lib/scrollLock.ts:4-14 | from 0, k locks then j unlocks leave max(k − j, 0), which is positive exactly while j < k |
| ScrollLock.ExtraUnlocksAreHarmless | src/lib/scrollLock.ts:10 | unlocking more often than locking leaves the counter at 0 |
| ScrollLock.BodyScrollLock.constructor | src/lib/scrollLock.ts:2 | the lock starts with count 0 and no style, in a valid state |
| ScrollLock.BodyScrollLock.LockScroll | src/lib/scrollLock.ts:4-7 | count rises by 1, overflow becomes "hidden", and validity is kept |
| ScrollLock.BodyScrollLock.UnlockScroll | src/lib/scrollLock.ts:9-14 | count falls by 1 but not below 0; overflow is cleared when count reaches 0 and unchanged otherwise; validity is kept |
| ScrollLock.BodyScrollLock.Apply | src/lib/scrollLock.ts:4-14 | a sequence of calls leaves the counter at `CountAfter` of the old count and keeps count ≥ 0 with overflow "hidden" exactly while count > 0 |
| ScrollLock.NestedModals | src/lib/scrollLock.ts:9-14 | two nested modals: after the first close the page is still "hidden", after the second it is cleared, and a stray third close leaves it cleared |
| RouteGate.AnyPrefix | src/middleware.ts:13 | `some(startsWith)` holds exactly when some listed prefix starts the path |
| RouteGate.PublicPathsAreTwoPrefixes | src/middleware.ts:6 | the public list means a "/login" or "/api/auth" prefix |
| RouteGate.IsPublic | src/middleware.ts:12-16 | a path is public exactly when it starts with /login, /api/auth, /_next or /favicon, or is exactly /api/tax-rules |
| RouteGate.Middleware | src/middleware.ts:8-29 | passes exactly when the path starts with /login, /api/auth, /_next or /favicon, is exactly /api/tax-rules, or carries the cookie "authenticated"; otherwise redirects to /login |
| RouteGate.PublicPrefixesAreLoose | src/middleware.ts:13-15 | "/login-help", "/api/authz" and "/favicon-anything" pass without a cookie |
| RouteGate.TaxRulesMatchedExactly | src/middleware.ts:16 | "/api/tax-rules" passes; "/api/tax-rules/2025" and "/" without a cookie are redirected |
| RouteGate.LiteralCookieOpensEverything | src/middleware.ts:21-24 | the literal "authenticated" cookie passes on every path |
| RouteGate.SignedCookieIsRejected | src/middleware.ts:22 | a cookie made by `createAuthCookie` is never the literal and is redirected on every protected path |

## Left out

- The React components and pages, the chat route (a streaming proxy to a hosted model) and the login route (`src/app/api/auth/route.ts`). These are rendering, network and framework code; the cookie value the login route sets is used in `RouteGate.LiteralCookieOpensEverything`.
- `formatBRL`, `formatPct` and `formatBps` (src/lib/engine.ts:168-192). They are `Intl.NumberFormat` and float `toFixed` formatting.
- IEEE double rounding, and `Math.pow` at fractional exponents. Numbers are exact reals, and the fractional power is the parameter `mathPow`, constrained only by `Engine.PowLaws` where a lemma says so.
- The HMAC-SHA256 inside `signToken`, and the signing key taken from the environment. The signer is the parameter `sign`. `src/lib/authConstants.ts` (environment constants only) is not part of this model.
- `Date.now()`. It is the parameter `now`.
- Auth.CharCode: treats `charCodeAt` as the character's code point rather than its UTF-16 code unit. Strings are sequences of characters, and the comparison only needs codes to be equal exactly when the characters are.
- Auth.BitXor / Auth.BitOr: act on unbounded naturals rather than 32-bit integers. Character codes are below 2^31, so JavaScript's 32-bit operators give the same result there.
- Auth.VerifyAuthCookie: the absence of an early exit is visible only in the loop's shape (a `for` over every index); timing is not modelled.
- A fractional or negative horizon: the horizon is a natural number in `SimulationInputs`, because the source indexes `timeseries[N]`.
- The middleware's `config.matcher` regular expression, which is framework routing.
- The direct writes to `document.body.style.overflow` in `src/components/CompareDrawer.tsx`, which bypass the counter.
- The DOM itself. The body's overflow style is the field `overflow` of `ScrollLock.BodyScrollLock`, and the module-level counter is its field `count`.
- The UI-only types in `src/lib/types.ts` (view modes, saved scenarios, chat messages).
