/**
 * The form's default scenario (src/lib/defaults.ts) and what the engine
 * computes for it, including the places where the engine departs from
 * what the rest of the application describes.
 */
module Defaults {
  import opened Common
  import opened Types
  import opened TaxRules
  import opened Engine

  const DefaultInputs: SimulationInputs := SimulationInputs(
    annualIncome := 120000.0,
    filingMode := Complete,
    contributesToINSS := true,
    wrapper := PGBL,
    contributionPct := 0.12,
    regime := Regressive,
    expectedReturn := 0.15,
    horizonYears := 10,
    capitalGainsTax := 0.15,
    refundDelayYears := 0.75,
    adminFeePct := 0.01,
    performanceFeePct := 0.0,
    feesEnabled := false
  )

  /** Tax parameters of the default scenario; fees are off, so the fund grows at the full 15%. */
  lemma DefaultDerivedValues()
    ensures DeriveValues(DefaultInputs) == DerivedValues(0.275, 0.15, 14400.0, 14400.0, 3960.0)
    ensures FeeAdjustedReturn(DefaultInputs) == 0.15
  {
    MarginalRateMatchesThresholds(120000.0);
    RegressiveRateMatchesThresholds(10.0);
  }

  /** Every point of a default run is computed at 15% return, 15% exit, 27.5% entry, 15% gains tax, 0.75-year delay. */
  lemma DefaultSeriesPoint(mathPow: (real, real) -> real, r: SimulationResult, k: nat)
    requires IsSimulationOf(mathPow, DefaultInputs, r)
    requires k <= 10
    ensures r.timeseries[k] == DataPointAt(mathPow, k, 0.15, 0.15, 0.275, 0.15, 0.75)
  {
    DefaultDerivedValues();
  }

  /** A positive-exponent power of 1.15 is above 1, so the reinvested refund is worth more than xin. */
  lemma RefundLegAboveRefund(mathPow: (real, real) -> real, e: real)
    requires PowLaws(mathPow) && e > 0.0
    ensures RefundLeg(mathPow(1.15, e), 0.275, 0.15) > 0.275
  {
    assert mathPow(1.0, e) == 1.0;
    var g := mathPow(1.15, e);
    assert g > 1.0;
    assert RefundLeg(g, 0.275, 0.15) == 0.275 * (0.85 * g + 0.15);
  }

  /** Year 1 of the default scenario: A = 1.1275, and B is above it once the refund has grown for a quarter year. */
  lemma DefaultYearOneBreaksEven(mathPow: (real, real) -> real)
    requires PowLaws(mathPow)
    ensures var p := DataPointAt(mathPow, 1, 0.15, 0.15, 0.275, 0.15, 0.75);
            p.wealthA == 1.1275 && p.wealthB >= p.wealthA
  {
    YearOneComparator();
    YearOneWealthB(mathPow);
    RefundLegAboveRefund(mathPow, 0.25);
  }

  /** Year-1 PGBL multiplier of the default scenario: the taxed fund plus the refund grown for a quarter year. */
  lemma YearOneWealthB(mathPow: (real, real) -> real)
    ensures WealthB(mathPow, 1, 0.15, 0.15, 0.275, 0.15, 0.75)
         == 1.15 * 0.85 + RefundLeg(mathPow(1.15, 0.25), 0.275, 0.15)
  {
  }

  /** Year 10 of the default scenario: both multipliers are above 1. */
  lemma DefaultYearTenAboveOne(mathPow: (real, real) -> real)
    requires PowLaws(mathPow)
    ensures var p := DataPointAt(mathPow, 10, 0.15, 0.15, 0.275, 0.15, 0.75);
            p.wealthA > 1.0 && p.wealthB > 1.0
  {
    var big := Pow(1.15, 10);
    assert big >= 1.15;
    assert WealthA(10, 0.15, 0.15) == big - 0.15 * (big - 1.0);
    RefundLegAboveRefund(mathPow, 9.25);
    assert WealthB(mathPow, 10, 0.15, 0.15, 0.275, 0.15, 0.75)
        == big * 0.85 + RefundLeg(mathPow(1.15, 9.25), 0.275, 0.15);
  }

  /** The first break-even year of a default run is year 1. */
  lemma DefaultBreakEvenYear(mathPow: (real, real) -> real, r: SimulationResult)
    requires PowLaws(mathPow)
    requires IsSimulationOf(mathPow, DefaultInputs, r)
    ensures r.breakEvenYear == Some(1)
  {
    DefaultSeriesPoint(mathPow, r, 1);
    DefaultYearOneBreaksEven(mathPow);
    BreakEvenAtYearOne(r.timeseries, r.breakEvenYear);
  }

  /** Both terminal multipliers of a default run are above 1. */
  lemma DefaultTerminalsAboveOne(mathPow: (real, real) -> real, r: SimulationResult)
    requires PowLaws(mathPow)
    requires IsSimulationOf(mathPow, DefaultInputs, r)
    ensures r.terminalA > 1.0 && r.terminalB > 1.0
  {
    DefaultSeriesPoint(mathPow, r, 10);
    DefaultYearTenAboveOne(mathPow);
  }

  /**
   * Default scenario: entry benefit 27.5%, exit rate 15% (regressive at 10
   * years), both terminal multipliers above 1, break-even in year 1.
   */
  lemma DefaultScenario(mathPow: (real, real) -> real, r: SimulationResult)
    requires PowLaws(mathPow)
    requires IsSimulationOf(mathPow, DefaultInputs, r)
    ensures r.derived.xin == 0.275 && r.derived.xout == 0.15
    ensures r.derived.contributionAmount == 14400.0 && r.derived.refundAmount == 3960.0
    ensures r.terminalA > 1.0 && r.terminalB > 1.0
    ensures r.breakEvenYear == Some(1)
  {
    DefaultDerivedValues();
    DefaultTerminalsAboveOne(mathPow, r);
    DefaultBreakEvenYear(mathPow, r);
  }

  /**
   * The exit rate is not "best of": with the progressive regime chosen, a
   * 10-year horizon at R$120k pays 27.5% although the regressive 15% was available.
   */
  lemma ExitRateIsLegacySelector(mathPow: (real, real) -> real, r: SimulationResult)
    requires IsSimulationOf(mathPow, DefaultInputs.(regime := Progressive), r)
    ensures r.derived.xout == 0.275
    ensures ComputeBestXout(10.0, 120000.0) == 0.15
  {
    MarginalRateMatchesThresholds(120000.0);
    RegressiveRateMatchesThresholds(10.0);
  }

  /** The year-1 fund component of a run at 15% return taxed at 15% on exit. */
  lemma YearOneFundAtFifteenPercent(mathPow: (real, real) -> real)
    ensures DataPointAt(mathPow, 1, 0.15, 0.15, 0.275, 0.15, 0.75).wealthB_pgbl == 1.15 * (1.0 - 0.15)
  {
    assert Pow(1.15, 1) == 1.15;
  }

  /**
   * The exit rate is fixed at the horizon's rate for every year of the
   * series: in year 1 the fund is taxed at 15% although the best rate for a
   * one-year redemption is 27.5%.
   */
  lemma ExitRateNotRecomputedPerYear(mathPow: (real, real) -> real, r: SimulationResult)
    requires IsSimulationOf(mathPow, DefaultInputs, r)
    ensures r.timeseries[1].wealthB_pgbl == 1.15 * (1.0 - 0.15)
    ensures ComputeBestXout(1.0, 120000.0) == 0.275
  {
    MarginalRateMatchesThresholds(120000.0);
    RegressiveRateMatchesThresholds(1.0);
    DefaultSeriesPoint(mathPow, r, 1);
    YearOneFundAtFifteenPercent(mathPow);
  }

  /**
   * A VGBL investor filing the simplified return without INSS still gets the
   * full 27.5% entry benefit and a R$3960 refund.
   */
  lemma IneligibleInvestorStillGetsRefund()
    ensures var d := DeriveValues(DefaultInputs.(wrapper := VGBL, filingMode := Simplified, contributesToINSS := false));
            d.xin == 0.275 && d.refundAmount == 3960.0
  {
    MarginalRateMatchesThresholds(120000.0);
  }

  /** Year-1 comparison multipliers at 14% and at 15% return with 15% gains tax. */
  lemma YearOneComparator()
    ensures WealthA(1, 0.14, 0.15) == 1.119
    ensures WealthA(1, 0.15, 0.15) == 1.1275
  {
  }

  /** With fees on (1% admin), the comparison A of year 1 also grows at 14%, not 15%. */
  lemma FeesChangeComparatorInDefaultScenario(mathPow: (real, real) -> real, r: SimulationResult)
    requires IsSimulationOf(mathPow, DefaultInputs.(feesEnabled := true), r)
    ensures r.timeseries[1].wealthA == 1.119
    ensures WealthA(1, DefaultInputs.expectedReturn, DefaultInputs.capitalGainsTax) == 1.1275
  {
    var i := DefaultInputs.(feesEnabled := true);
    assert FeeAdjustedReturn(i) == 0.14;
    FeesReduceComparatorToo(mathPow, i, r, 1);
    YearOneComparator();
  }
}
