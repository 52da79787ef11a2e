/**
 * The simulation engine (src/lib/engine.ts): closed-form wealth multipliers
 * for the taxable comparison (A) and the PGBL path (B), the derivation of the
 * tax parameters from the inputs, and the yearly loop that builds the series,
 * finds the break-even year and reads the terminal values back.
 *
 * Numbers are exact reals. Math.pow with a whole-number exponent is `Pow`;
 * Math.pow with a fractional exponent (the refund leg, whose delay is not
 * rounded, and the 1/N root of the annualized delta) is the parameter
 * `mathPow`, about which only `PowLaws` is ever assumed.
 */
module Engine {
  import opened Common
  import opened Types
  import opened TaxRules

  const EngineVersion: string := "1.0.0+rules-" + RulesVersion

  // ---------------------------------------------------------------------
  // Powers
  // ---------------------------------------------------------------------

  /** b^n for a whole-number exponent. */
  function Pow(b: real, n: nat): (p: real)
    ensures b > 0.0 ==> p > 0.0
    ensures b >= 1.0 ==> p >= 1.0
    ensures b > 1.0 && n >= 1 ==> p >= b
  {
    if n == 0 then 1.0
    else
      var rest := Pow(b, n - 1);
      assert b >= 1.0 ==> b * rest >= rest by {
        if b >= 1.0 { assert b * rest - rest == (b - 1.0) * rest; }
      }
      assert b > 1.0 && n >= 1 ==> b * rest >= b by {
        if b > 1.0 { assert b * rest - b == b * (rest - 1.0); }
      }
      b * rest
  }

  /**
   * What is assumed of Math.pow at fractional exponents, and only where a
   * lemma says so: for a positive exponent it is strictly increasing in a
   * positive base, and one to any power is one.
   */
  ghost predicate PowLaws(mathPow: (real, real) -> real) {
    && (forall e :: mathPow(1.0, e) == 1.0)
    && (forall b1, b2, e :: 0.0 < b1 < b2 && 0.0 < e ==> mathPow(b1, e) < mathPow(b2, e))
  }

  // ---------------------------------------------------------------------
  // Wealth multipliers
  // ---------------------------------------------------------------------

  /**
   * Taxable comparison: one unit grows at y for n years, then gains (not
   * principal) are taxed at z.
   */
  function WealthA(n: nat, y: real, z: real): (w: real)
    ensures n == 0 ==> w == 1.0
    ensures z == 0.0 ==> w == Pow(1.0 + y, n)
    ensures z == 1.0 ==> w == 1.0
  {
    var growth := Pow(1.0 + y, n);
    growth - z * (growth - 1.0)
  }

  /** A product of two non-negative reals is non-negative. */
  lemma MulNonNeg(a: real, b: real)
    requires a >= 0.0 && b >= 0.0
    ensures a * b >= 0.0
  {
  }

  /** Taxing only the gains of a growth factor g >= 1 at a rate in [0, 1] keeps the principal and at most g. */
  lemma TaxedGrowthBetween(g: real, z: real)
    requires g >= 1.0 && 0.0 <= z <= 1.0
    ensures 1.0 <= g - z * (g - 1.0) <= g
  {
    MulNonNeg(z, g - 1.0);
    MulNonNeg(1.0 - z, g - 1.0);
    assert (g - 1.0) - z * (g - 1.0) == (1.0 - z) * (g - 1.0);
  }

  /** With a non-negative return and a tax rate in [0, 1], A keeps the principal and at most the gross growth. */
  lemma WealthABetweenPrincipalAndGrowth(n: nat, y: real, z: real)
    requires y >= 0.0 && 0.0 <= z <= 1.0
    ensures 1.0 <= WealthA(n, y, z) <= Pow(1.0 + y, n)
  {
    var g := Pow(1.0 + y, n);
    TaxedGrowthBetween(g, z);
    assert WealthA(n, y, z) == g - z * (g - 1.0);
  }

  /** The in-fund PGBL balance after n years, with the whole balance taxed at xout. */
  function FundNet(n: nat, y: real, xout: real): (net: real)
    ensures n == 0 ==> net == 1.0 - xout
    ensures xout == 0.0 ==> net == Pow(1.0 + y, n)
    ensures xout == 1.0 ==> net == 0.0
  {
    Pow(1.0 + y, n) * (1.0 - xout)
  }

  /** The reinvested refund after growing by `growth`, with capital-gains tax on its gains only. */
  function RefundLeg(growth: real, xin: real, z: real): (leg: real)
    ensures growth == 1.0 ==> leg == xin
    ensures z == 0.0 ==> leg == xin * growth
    ensures z == 1.0 ==> leg == xin
  {
    xin * growth - z * xin * (growth - 1.0)
  }

  /**
   * PGBL wealth per unit invested after n years: the taxed fund balance plus
   * the refund xin, reinvested for n - d years when that is positive.
   */
  function WealthB(mathPow: (real, real) -> real, n: nat, y: real, xout: real, xin: real, z: real, d: real): (w: real)
    ensures n as real <= d ==> w == Pow(1.0 + y, n) * (1.0 - xout) + xin
    ensures n == 0 && d >= 0.0 ==> w == 1.0 - xout + xin
  {
    var pgblNet := FundNet(n, y, xout);
    var refundHorizon := Max(0.0, n as real - d);
    var refundComponent :=
      if refundHorizon <= 0.0 then xin
      else RefundLeg(mathPow(1.0 + y, refundHorizon), xin, z);
    pgblNet + refundComponent
  }

  /**
   * The fund part of B taxes the whole balance, principal included, in every
   * year and whatever the wrapper: for a positive return and exit rate it is
   * strictly below the balance with only its gains taxed.
   */
  lemma FundTaxesPrincipalToo(n: nat, y: real, xout: real)
    requires n >= 1 && y > 0.0 && xout > 0.0
    ensures FundNet(n, y, xout) < Pow(1.0 + y, n) - xout * (Pow(1.0 + y, n) - 1.0)
  {
    var g := Pow(1.0 + y, n);
    assert FundNet(n, y, xout) == g - xout * g;
    assert (g - xout * (g - 1.0)) - (g - xout * g) == xout;
  }

  /**
   * Annualized advantage of B over A in basis points, from the n-th roots;
   * zero when the horizon or either multiplier is not positive.
   */
  function AnnualizedDelta(mathPow: (real, real) -> real, a: real, b: real, n: int): (delta: real)
    ensures n <= 0 || a <= 0.0 || b <= 0.0 ==> delta == 0.0
    ensures a == b ==> delta == 0.0
  {
    if n <= 0 || a <= 0.0 || b <= 0.0 then 0.0
    else (mathPow(b, 1.0 / n as real) - mathPow(a, 1.0 / n as real)) * 10000.0
  }

  /** Where the delta is computed, its sign is the sign of b - a. */
  lemma DeltaSignFollowsWealthOrder(mathPow: (real, real) -> real, a: real, b: real, n: int)
    requires PowLaws(mathPow)
    requires n > 0 && a > 0.0 && b > 0.0
    ensures AnnualizedDelta(mathPow, a, b, n) >= 0.0 <==> b >= a
    ensures AnnualizedDelta(mathPow, a, b, n) > 0.0 <==> b > a
  {
    var e := 1.0 / n as real;
    assert e > 0.0;
    if a < b {
      assert mathPow(a, e) < mathPow(b, e);
    } else if b < a {
      assert mathPow(b, e) < mathPow(a, e);
    }
  }

  // ---------------------------------------------------------------------
  // Derived values and fees
  // ---------------------------------------------------------------------

  /**
   * Tax parameters of a run. Of the inputs it reads only the income, the
   * regime, the horizon and the contribution share: the wrapper, filing mode
   * and INSS status play no part.
   */
  function DeriveValues(inputs: SimulationInputs): (d: DerivedValues)
    ensures d == DerivedFrom(inputs.annualIncome, inputs.regime, inputs.horizonYears, inputs.contributionPct)
  {
    DerivedFrom(inputs.annualIncome, inputs.regime, inputs.horizonYears, inputs.contributionPct)
  }

  /**
   * The tax parameters from the four inputs they depend on. The entry benefit
   * is the marginal rate; the exit rate comes from the legacy per-regime
   * selector at the horizon; the deductible part of the contribution is capped
   * at 12% of income, and the refund is that part at the entry rate.
   */
  function DerivedFrom(annualIncome: real, regime: RedemptionRegime, horizonYears: nat, contributionPct: real): (d: DerivedValues)
    ensures d.xin == EstimateMarginalRate(annualIncome)
    ensures d.xout == EstimateXout(regime, horizonYears as real, annualIncome)
    ensures d.contributionAmount == annualIncome * contributionPct
    ensures d.deductibleAmount <= d.contributionAmount
    ensures d.deductibleAmount <= annualIncome * PgblDeductibleCap
    ensures d.deductibleAmount == d.contributionAmount || d.deductibleAmount == annualIncome * PgblDeductibleCap
    ensures d.refundAmount == d.deductibleAmount * d.xin
  {
    var xin := EstimateMarginalRate(annualIncome);
    var xout := EstimateXout(regime, horizonYears as real, annualIncome);
    var maxDeductible := annualIncome * PgblDeductibleCap;
    var contributionAmount := annualIncome * contributionPct;
    var deductibleAmount := Min(contributionAmount, maxDeductible);
    var refundAmount := deductibleAmount * xin;
    DerivedValues(xin, xout, deductibleAmount, contributionAmount, refundAmount)
  }

  /** The refund is at most 27.5% of 12% of income, and never negative for non-negative inputs. */
  lemma RefundWithinCap(inputs: SimulationInputs)
    requires inputs.annualIncome >= 0.0 && inputs.contributionPct >= 0.0
    ensures 0.0 <= DeriveValues(inputs).refundAmount <= inputs.annualIncome * PgblDeductibleCap * 0.275
  {
    var d := DeriveValues(inputs);
    assert 0.0 <= d.contributionAmount;
    assert 0.0 <= d.deductibleAmount <= inputs.annualIncome * PgblDeductibleCap;
    assert 0.0 <= d.xin <= 0.275;
    assert d.deductibleAmount * d.xin <= inputs.annualIncome * PgblDeductibleCap * d.xin;
    assert inputs.annualIncome * PgblDeductibleCap * d.xin <= inputs.annualIncome * PgblDeductibleCap * 0.275;
  }

  /**
   * The fund's return after fees: the admin fee is subtracted (floored at 0)
   * and then a positive performance fee scales it down.
   */
  function FeeAdjustedReturn(inputs: SimulationInputs): (effectiveY: real)
    ensures !inputs.feesEnabled ==> effectiveY == inputs.expectedReturn
  {
    if !inputs.feesEnabled then inputs.expectedReturn
    else
      var afterAdmin := Max(0.0, inputs.expectedReturn - inputs.adminFeePct);
      if inputs.performanceFeePct > 0.0 then afterAdmin * (1.0 - inputs.performanceFeePct)
      else afterAdmin
  }

  /** With fees on, a non-negative admin fee and a performance fee in [0, 1], the return lies in [0, max(Y, 0)]. */
  lemma FeeAdjustedReturnBounds(inputs: SimulationInputs)
    requires inputs.feesEnabled
    requires inputs.adminFeePct >= 0.0 && 0.0 <= inputs.performanceFeePct <= 1.0
    ensures 0.0 <= FeeAdjustedReturn(inputs) <= Max(inputs.expectedReturn, 0.0)
  {
    var afterAdmin := Max(0.0, inputs.expectedReturn - inputs.adminFeePct);
    assert 0.0 <= afterAdmin <= Max(inputs.expectedReturn, 0.0);
    if inputs.performanceFeePct > 0.0 {
      var f := 1.0 - inputs.performanceFeePct;
      assert 0.0 <= f <= 1.0;
      MulNonNeg(afterAdmin, f);
      MulNonNeg(afterAdmin, 1.0 - f);
      assert afterAdmin - afterAdmin * f == afterAdmin * (1.0 - f);
      assert afterAdmin * f <= afterAdmin;
      assert FeeAdjustedReturn(inputs) == afterAdmin * f;
    }
  }

  // ---------------------------------------------------------------------
  // The yearly series
  // ---------------------------------------------------------------------

  /** The refund part of the breakdown: 0 before the refund arrives, xin on arrival, then grown and taxed. */
  function BreakdownRefund(mathPow: (real, real) -> real, year: nat, y: real, xin: real, z: real, d: real): (refund: real)
    ensures (year as real) < d ==> refund == 0.0
    ensures (year as real) == d ==> refund == xin
    ensures (year as real) > d ==> refund == RefundLeg(mathPow(1.0 + y, year as real - d), xin, z)
  {
    var refundHorizon := Max(0.0, year as real - d);
    if refundHorizon <= 0.0 then (if year as real >= d then xin else 0.0)
    else RefundLeg(mathPow(1.0 + y, refundHorizon), xin, z)
  }

  /**
   * The breakdown adds up to WealthB from the refund year on; before it, the
   * breakdown leaves the refund out while WealthB counts it, so the sum falls
   * short by exactly xin.
   */
  lemma BreakdownGap(mathPow: (real, real) -> real, year: nat, y: real, xout: real, xin: real, z: real, d: real)
    ensures year as real >= d ==>
      FundNet(year, y, xout) + BreakdownRefund(mathPow, year, y, xin, z, d) == WealthB(mathPow, year, y, xout, xin, z, d)
    ensures year as real < d ==>
      WealthB(mathPow, year, y, xout, xin, z, d) - (FundNet(year, y, xout) + BreakdownRefund(mathPow, year, y, xin, z, d)) == xin
  {
  }

  /** The data point the loop records for `year`. */
  function DataPointAt(mathPow: (real, real) -> real, year: nat, y: real, xout: real, xin: real, z: real, d: real): (p: YearlyDataPoint)
    ensures p.year == year
    ensures year == 0 ==> p.wealthA == 1.0 && p.annualizedDelta == 0.0
    ensures p.wealthA == p.wealthB ==> p.annualizedDelta == 0.0
  {
    var a := WealthA(year, y, z);
    var b := WealthB(mathPow, year, y, xout, xin, z, d);
    YearlyDataPoint(
      year, a, b,
      FundNet(year, y, xout),
      BreakdownRefund(mathPow, year, y, xin, z, d),
      if year > 0 then AnnualizedDelta(mathPow, a, b, year) else 0.0)
  }

  /**
   * `be` is the first year after year 0 whose B is at least its A, or None
   * when no year of the series qualifies.
   */
  ghost predicate IsFirstBreakEven(ts: seq<YearlyDataPoint>, be: Option<nat>) {
    match be
    case None => forall k :: 1 <= k < |ts| ==> ts[k].wealthB < ts[k].wealthA
    case Some(year) =>
      && 1 <= year < |ts|
      && ts[year].wealthB >= ts[year].wealthA
      && forall k :: 1 <= k < year ==> ts[k].wealthB < ts[k].wealthA
  }

  /** The series of a run: one point per year 0..n, each computed with the run's parameters. */
  ghost predicate SeriesOf(mathPow: (real, real) -> real, ts: seq<YearlyDataPoint>, n: nat, y: real, xout: real, xin: real, z: real, d: real) {
    && |ts| == n + 1
    && forall k :: 0 <= k < |ts| ==> ts[k] == DataPointAt(mathPow, k, y, xout, xin, z, d)
  }

  /** What a run of the engine returns for `inputs`. */
  ghost predicate IsSimulationOf(mathPow: (real, real) -> real, inputs: SimulationInputs, r: SimulationResult) {
    var derived := DeriveValues(inputs);
    var n := inputs.horizonYears;
    && r.inputs == inputs
    && r.derived == derived
    && SeriesOf(mathPow, r.timeseries, n, FeeAdjustedReturn(inputs), derived.xout, derived.xin,
                inputs.capitalGainsTax, inputs.refundDelayYears)
    && r.terminalA == r.timeseries[n].wealthA
    && r.terminalB == r.timeseries[n].wealthB
    && r.annualizedDelta == r.timeseries[n].annualizedDelta
    && IsFirstBreakEven(r.timeseries, r.breakEvenYear)
    && r.engineVersion == EngineVersion
  }

  /** The fee block of the run: reassigns the return for the admin fee, then for a positive performance fee. */
  method ApplyFees(inputs: SimulationInputs) returns (effectiveY: real)
    ensures effectiveY == FeeAdjustedReturn(inputs)
  {
    effectiveY := inputs.expectedReturn;
    if inputs.feesEnabled {
      effectiveY := Max(0.0, inputs.expectedReturn - inputs.adminFeePct);
      if inputs.performanceFeePct > 0.0 {
        effectiveY := effectiveY * (1.0 - inputs.performanceFeePct);
      }
    }
  }

  /**
   * The yearly loop: one point per year 0..n, pushed in order, and the first
   * year after year 0 whose B is at least its A.
   */
  method BuildSeries(mathPow: (real, real) -> real, n: nat, y: real, xout: real, xin: real, z: real, d: real)
    returns (timeseries: seq<YearlyDataPoint>, breakEvenYear: Option<nat>)
    ensures SeriesOf(mathPow, timeseries, n, y, xout, xin, z, d)
    ensures IsFirstBreakEven(timeseries, breakEvenYear)
  {
    timeseries := [];
    breakEvenYear := None;
    var year: nat := 0;
    while year <= n
      invariant year <= n + 1
      invariant |timeseries| == year
      invariant forall k :: 0 <= k < year ==> timeseries[k] == DataPointAt(mathPow, k, y, xout, xin, z, d)
      invariant IsFirstBreakEven(timeseries, breakEvenYear)
    {
      var a := WealthA(year, y, z);
      var b := WealthB(mathPow, year, y, xout, xin, z, d);
      var delta := if year > 0 then AnnualizedDelta(mathPow, a, b, year) else 0.0;

      var pgblNet := FundNet(year, y, xout);
      var refundHorizon := Max(0.0, year as real - d);
      var refundComp: real;
      if refundHorizon <= 0.0 {
        refundComp := if year as real >= d then xin else 0.0;
      } else {
        var rg := mathPow(1.0 + y, refundHorizon);
        refundComp := RefundLeg(rg, xin, z);
      }

      var point := YearlyDataPoint(year, a, b, pgblNet, refundComp, delta);
      assert refundComp == BreakdownRefund(mathPow, year, y, xin, z, d);
      assert point == DataPointAt(mathPow, year, y, xout, xin, z, d);
      timeseries := timeseries + [point];

      if year > 0 && breakEvenYear.None? && b >= a {
        breakEvenYear := Some(year);
      }
      year := year + 1;
    }
  }

  /** Runs the simulation: derived values, fee adjustment, the yearly loop, terminal reads. */
  method RunSimulation(mathPow: (real, real) -> real, inputs: SimulationInputs) returns (result: SimulationResult)
    ensures IsSimulationOf(mathPow, inputs, result)
  {
    var derived := DeriveValues(inputs);
    var N := inputs.horizonYears;
    var effectiveY := ApplyFees(inputs);
    var timeseries, breakEvenYear := BuildSeries(mathPow, N, effectiveY, derived.xout, derived.xin,
                                                 inputs.capitalGainsTax, inputs.refundDelayYears);
    result := SimulationResult(
      inputs, derived, timeseries,
      timeseries[N].wealthA, timeseries[N].wealthB, timeseries[N].annualizedDelta,
      breakEvenYear, EngineVersion);
  }

  // ---------------------------------------------------------------------
  // Properties of a run
  // ---------------------------------------------------------------------

  /** At most one year is the first break-even year of a series. */
  lemma BreakEvenIsUnique(ts: seq<YearlyDataPoint>, be1: Option<nat>, be2: Option<nat>)
    requires IsFirstBreakEven(ts, be1) && IsFirstBreakEven(ts, be2)
    ensures be1 == be2
  {
    if be1.Some? { assert ts[be1.value].wealthB >= ts[be1.value].wealthA; }
    if be2.Some? { assert ts[be2.value].wealthB >= ts[be2.value].wealthA; }
  }

  /** When year 1 already has B at least A, the first break-even year is 1. */
  lemma BreakEvenAtYearOne(ts: seq<YearlyDataPoint>, be: Option<nat>)
    requires IsFirstBreakEven(ts, be)
    requires |ts| > 1 && ts[1].wealthB >= ts[1].wealthA
    ensures be == Some(1)
  {
    if be.Some? { assert be.value >= 1; }
  }

  /**
   * Two runs with the same horizon, fee-adjusted return, rates, gains tax and
   * refund delay produce the same series, terminal values and break-even year.
   */
  lemma SameParametersSameRun(mathPow: (real, real) -> real, i1: SimulationInputs, i2: SimulationInputs,
                              r1: SimulationResult, r2: SimulationResult)
    requires IsSimulationOf(mathPow, i1, r1) && IsSimulationOf(mathPow, i2, r2)
    requires i1.horizonYears == i2.horizonYears && FeeAdjustedReturn(i1) == FeeAdjustedReturn(i2)
    requires i1.capitalGainsTax == i2.capitalGainsTax && i1.refundDelayYears == i2.refundDelayYears
    requires DeriveValues(i1).xin == DeriveValues(i2).xin && DeriveValues(i1).xout == DeriveValues(i2).xout
    ensures r1.timeseries == r2.timeseries
    ensures r1.terminalA == r2.terminalA && r1.terminalB == r2.terminalB && r1.annualizedDelta == r2.annualizedDelta
    ensures r1.breakEvenYear == r2.breakEvenYear
  {
    assert |r1.timeseries| == |r2.timeseries|;
    forall k | 0 <= k < |r1.timeseries|
      ensures r1.timeseries[k] == r2.timeseries[k]
    {
    }
    assert r1.timeseries == r2.timeseries;
    BreakEvenIsUnique(r1.timeseries, r1.breakEvenYear, r2.breakEvenYear);
  }

  /** Running the same inputs twice gives identical results: the engine has no hidden state. */
  lemma SimulationIsDeterministic(mathPow: (real, real) -> real, inputs: SimulationInputs,
                                  r1: SimulationResult, r2: SimulationResult)
    requires IsSimulationOf(mathPow, inputs, r1) && IsSimulationOf(mathPow, inputs, r2)
    ensures r1 == r2
  {
    SameParametersSameRun(mathPow, inputs, inputs, r1, r2);
  }

  /**
   * The wrapper, the filing mode and INSS status change nothing in a run:
   * the entry benefit is not gated on eligibility and B has no VGBL branch.
   */
  lemma EligibilityDoesNotAffectRun(mathPow: (real, real) -> real, i1: SimulationInputs, i2: SimulationInputs,
                                    r1: SimulationResult, r2: SimulationResult)
    requires i2 == i1.(wrapper := i2.wrapper, filingMode := i2.filingMode, contributesToINSS := i2.contributesToINSS)
    requires IsSimulationOf(mathPow, i1, r1) && IsSimulationOf(mathPow, i2, r2)
    ensures r1.derived == r2.derived
    ensures r1.timeseries == r2.timeseries && r1.breakEvenYear == r2.breakEvenYear
  {
    RunParametersIgnoreEligibility(i1, i2);
    SameParametersSameRun(mathPow, i1, i2, r1, r2);
  }

  /** The derived values and the effective return read none of the eligibility fields. */
  lemma RunParametersIgnoreEligibility(i1: SimulationInputs, i2: SimulationInputs)
    requires i2 == i1.(wrapper := i2.wrapper, filingMode := i2.filingMode, contributesToINSS := i2.contributesToINSS)
    ensures DeriveValues(i1) == DeriveValues(i2)
    ensures FeeAdjustedReturn(i1) == FeeAdjustedReturn(i2)
  {
    assert i1.annualIncome == i2.annualIncome && i1.regime == i2.regime;
    assert i1.horizonYears == i2.horizonYears && i1.contributionPct == i2.contributionPct;
  }

  /** Year 0: A is 1, the delta is 0 and, for a non-negative delay, B is 1 - xout + xin. */
  lemma SeriesStartsAtPar(mathPow: (real, real) -> real, inputs: SimulationInputs, r: SimulationResult)
    requires IsSimulationOf(mathPow, inputs, r)
    ensures r.timeseries[0].year == 0
    ensures r.timeseries[0].wealthA == 1.0
    ensures r.timeseries[0].annualizedDelta == 0.0
    ensures inputs.refundDelayYears >= 0.0 ==> r.timeseries[0].wealthB == 1.0 - r.derived.xout + r.derived.xin
  {
    assert r.timeseries[0] == DataPointAt(mathPow, 0, FeeAdjustedReturn(inputs), r.derived.xout, r.derived.xin,
                                          inputs.capitalGainsTax, inputs.refundDelayYears);
  }

  /**
   * Each point carries its own year index; its components add up to B from
   * the refund year on and fall short by exactly xin before it.
   */
  lemma SeriesBreakdown(mathPow: (real, real) -> real, inputs: SimulationInputs, r: SimulationResult, k: nat)
    requires IsSimulationOf(mathPow, inputs, r)
    requires k <= inputs.horizonYears
    ensures r.timeseries[k].year == k
    ensures k as real >= inputs.refundDelayYears ==>
      r.timeseries[k].wealthB_pgbl + r.timeseries[k].wealthB_refund == r.timeseries[k].wealthB
    ensures k as real < inputs.refundDelayYears ==>
      r.timeseries[k].wealthB - (r.timeseries[k].wealthB_pgbl + r.timeseries[k].wealthB_refund) == r.derived.xin
  {
    var y, d := FeeAdjustedReturn(inputs), r.derived;
    assert r.timeseries[k] == DataPointAt(mathPow, k, y, d.xout, d.xin, inputs.capitalGainsTax, inputs.refundDelayYears);
    BreakdownGap(mathPow, k, y, d.xout, d.xin, inputs.capitalGainsTax, inputs.refundDelayYears);
  }

  /**
   * Where both multipliers are positive, a year passes the break-even test
   * exactly when its annualized delta is non-negative.
   */
  lemma BreakEvenTestMatchesDelta(mathPow: (real, real) -> real, inputs: SimulationInputs, r: SimulationResult, k: nat)
    requires PowLaws(mathPow)
    requires IsSimulationOf(mathPow, inputs, r)
    requires 1 <= k <= inputs.horizonYears
    requires r.timeseries[k].wealthA > 0.0 && r.timeseries[k].wealthB > 0.0
    ensures r.timeseries[k].annualizedDelta >= 0.0 <==> r.timeseries[k].wealthB >= r.timeseries[k].wealthA
  {
    var p := r.timeseries[k];
    assert p == DataPointAt(mathPow, k, FeeAdjustedReturn(inputs), r.derived.xout, r.derived.xin,
                            inputs.capitalGainsTax, inputs.refundDelayYears);
    DeltaSignFollowsWealthOrder(mathPow, p.wealthA, p.wealthB, k);
  }

  /** The fee-reduced return also drives the taxable comparison A, and the refund leg. */
  lemma FeesReduceComparatorToo(mathPow: (real, real) -> real, inputs: SimulationInputs, r: SimulationResult, k: nat)
    requires IsSimulationOf(mathPow, inputs, r)
    requires k <= inputs.horizonYears
    ensures r.timeseries[k].wealthA == WealthA(k, FeeAdjustedReturn(inputs), inputs.capitalGainsTax)
    ensures k as real > inputs.refundDelayYears ==>
      r.timeseries[k].wealthB_refund ==
        RefundLeg(mathPow(1.0 + FeeAdjustedReturn(inputs), k as real - inputs.refundDelayYears), r.derived.xin, inputs.capitalGainsTax)
  {
    assert r.timeseries[k] == DataPointAt(mathPow, k, FeeAdjustedReturn(inputs), r.derived.xout, r.derived.xin,
                                          inputs.capitalGainsTax, inputs.refundDelayYears);
  }
}
