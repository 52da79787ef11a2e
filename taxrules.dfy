/**
 * Brazilian tax rules for the 2025 reference year (src/lib/taxRules.ts):
 * the progressive income-tax (IRPF) brackets, the regressive pension
 * schedule, the PGBL deduction cap and the IOF excise on large VGBL
 * contributions, with the lookups over them.
 */
module TaxRules {
  import opened Common
  import opened Types

  const TaxYear: nat := 2025
  const RulesVersion: string := "2025.1"

  /** An upper limit of a table row; `Unbounded` is JavaScript's Infinity. */
  datatype Limit = UpTo(bound: real) | Unbounded

  /** `x <= limit`, with every real below Infinity. */
  predicate Within(x: real, limit: Limit) {
    match limit
    case UpTo(b) => x <= b
    case Unbounded => true
  }

  datatype TaxBracket = TaxBracket(upTo: Limit, rate: real, deduction: real)

  /** Annual IRPF brackets, in ascending order of their upper limit. */
  const IrpfAnnualBrackets: seq<TaxBracket> := [
    TaxBracket(UpTo(26963.20), 0.000, 0.0),
    TaxBracket(UpTo(33919.80), 0.075, 2022.24),
    TaxBracket(UpTo(45012.60), 0.150, 4566.23),
    TaxBracket(UpTo(55976.16), 0.225, 7942.17),
    TaxBracket(Unbounded,      0.275, 10740.98)
  ]

  /** At most 12% of taxable income can be deducted through a PGBL. */
  const PgblDeductibleCap: real := 0.12

  const SelicRate: real := 0.15

  /** IOF on VGBL contributions above R$600k per year. */
  const IofVgblThreshold: real := 600000.0
  const IofVgblRate: real := 0.05

  datatype RegressiveBracket = RegressiveBracket(minYears: real, maxYears: Limit, rate: real)

  /** The regressive schedule; each row covers holding periods up to and including maxYears. */
  const RegressiveSchedule: seq<RegressiveBracket> := [
    RegressiveBracket(0.0, UpTo(2.0), 0.35),
    RegressiveBracket(2.0, UpTo(4.0), 0.30),
    RegressiveBracket(4.0, UpTo(6.0), 0.25),
    RegressiveBracket(6.0, UpTo(8.0), 0.20),
    RegressiveBracket(8.0, UpTo(10.0), 0.15),
    RegressiveBracket(10.0, Unbounded, 0.10)
  ]

  // ---------------------------------------------------------------------
  // IOF on VGBL contributions
  // ---------------------------------------------------------------------

  /** IOF due on an annual VGBL contribution: 5% of what exceeds the threshold. */
  function ComputeVGBLIOF(annualContribution: real): (iof: real)
    ensures iof == Max(0.0, annualContribution - IofVgblThreshold) * IofVgblRate
    ensures iof >= 0.0
    ensures annualContribution <= IofVgblThreshold <==> iof == 0.0
  {
    if annualContribution <= IofVgblThreshold then 0.0
    else (annualContribution - IofVgblThreshold) * IofVgblRate
  }

  /** The excise grows by at most 5% of the growth in contribution, so it has no jump at the threshold. */
  lemma IofIsContinuous(c1: real, c2: real)
    requires c1 <= c2
    ensures 0.0 <= ComputeVGBLIOF(c2) - ComputeVGBLIOF(c1) <= IofVgblRate * (c2 - c1)
  {
  }

  // ---------------------------------------------------------------------
  // Progressive brackets
  // ---------------------------------------------------------------------

  /**
   * Array.prototype.find over the brackets: the index of the first bracket
   * whose upper limit is at least `income`, if any.
   */
  function FindBracket(brackets: seq<TaxBracket>, income: real): (found: Option<nat>)
    ensures found.Some? ==> found.value < |brackets| && Within(income, brackets[found.value].upTo)
    ensures found.Some? ==> forall k :: 0 <= k < found.value ==> !Within(income, brackets[k].upTo)
    ensures found.None? <==> forall k :: 0 <= k < |brackets| ==> !Within(income, brackets[k].upTo)
  {
    if brackets == [] then None
    else if Within(income, brackets[0].upTo) then Some(0)
    else match FindBracket(brackets[1..], income)
      case None => None
      case Some(i) => Some(i + 1)
  }

  /** The bracket used for `income`: the one `find` returns, or else the last one. */
  function ApplicableBracket(income: real): (b: TaxBracket)
    ensures b in IrpfAnnualBrackets
  {
    match FindBracket(IrpfAnnualBrackets, income)
    case Some(i) => IrpfAnnualBrackets[i]
    case None => IrpfAnnualBrackets[|IrpfAnnualBrackets| - 1]
  }

  /** The last bracket is unbounded, so `find` always succeeds and the fallback is never taken. */
  lemma BracketAlwaysFound(income: real)
    ensures FindBracket(IrpfAnnualBrackets, income).Some?
  {
    assert Within(income, IrpfAnnualBrackets[4].upTo);
  }

  /** Marginal IRPF rate: the rate applied to the last real of income. */
  function EstimateMarginalRate(annualTaxableIncome: real): (rate: real)
    ensures annualTaxableIncome <= 0.0 ==> rate == 0.0
    ensures rate in {0.0, 0.075, 0.15, 0.225, 0.275}
  {
    if annualTaxableIncome <= 0.0 then 0.0
    else ApplicableBracket(annualTaxableIncome).rate
  }

  /** The bracket rates written out as a chain of closed upper bounds. */
  function MarginalRateByThresholds(income: real): real {
    if income <= 26963.20 then 0.0
    else if income <= 33919.80 then 0.075
    else if income <= 45012.60 then 0.15
    else if income <= 55976.16 then 0.225
    else 0.275
  }

  /** The table lookup agrees with the written-out thresholds for every income. */
  lemma MarginalRateMatchesThresholds(income: real)
    ensures EstimateMarginalRate(income) == MarginalRateByThresholds(income)
  {
    BracketAlwaysFound(income);
    var i := FindBracket(IrpfAnnualBrackets, income).value;
    assert i < 5;
    if i >= 1 { assert !Within(income, IrpfAnnualBrackets[0].upTo); }
    if i >= 2 { assert !Within(income, IrpfAnnualBrackets[1].upTo); }
    if i >= 3 { assert !Within(income, IrpfAnnualBrackets[2].upTo); }
    if i >= 4 { assert !Within(income, IrpfAnnualBrackets[3].upTo); }
  }

  /** Upper limits are inclusive: each limit still takes its own bracket's rate. */
  lemma MarginalRateBoundaries()
    ensures EstimateMarginalRate(26963.20) == 0.0
    ensures EstimateMarginalRate(26963.21) == 0.075
    ensures EstimateMarginalRate(55976.16) == 0.225
    ensures EstimateMarginalRate(120000.0) == 0.275
  {
    MarginalRateMatchesThresholds(26963.20);
    MarginalRateMatchesThresholds(26963.21);
    MarginalRateMatchesThresholds(55976.16);
    MarginalRateMatchesThresholds(120000.0);
  }

  /** A higher income never has a lower marginal rate. */
  lemma MarginalRateMonotone(i1: real, i2: real)
    requires i1 <= i2
    ensures EstimateMarginalRate(i1) <= EstimateMarginalRate(i2)
  {
    MarginalRateMatchesThresholds(i1);
    MarginalRateMatchesThresholds(i2);
  }

  /** Total annual IRPF: income times the bracket rate less the bracket deduction, never negative. */
  function ComputeIRPF(annualTaxableIncome: real): (tax: real)
    ensures tax >= 0.0
    ensures annualTaxableIncome <= 0.0 ==> tax == 0.0
  {
    if annualTaxableIncome <= 0.0 then 0.0
    else
      var bracket := ApplicableBracket(annualTaxableIncome);
      Max(0.0, annualTaxableIncome * bracket.rate - bracket.deduction)
  }

  /**
   * The tax is computed in the bracket that gives the marginal rate, so it
   * never exceeds income times that rate, and it is zero up to the exemption limit.
   */
  lemma IrpfUsesMarginalBracket(income: real)
    requires income > 0.0
    ensures ComputeIRPF(income) == Max(0.0, income * EstimateMarginalRate(income) - ApplicableBracket(income).deduction)
    ensures ComputeIRPF(income) <= income * EstimateMarginalRate(income)
    ensures income <= 26963.20 ==> ComputeIRPF(income) == 0.0
  {
    BracketAlwaysFound(income);
    var i := FindBracket(IrpfAnnualBrackets, income).value;
    assert IrpfAnnualBrackets[i].deduction >= 0.0;
    MarginalRateMatchesThresholds(income);
    if income <= 26963.20 {
      assert i == 0;
    }
  }

  /**
   * At each finite bracket limit, the two neighbouring bracket formulas give
   * the same tax to within half a centavo: the published deductions are rounded.
   */
  lemma BracketSeamsAgreeToHalfCentavo(k: nat)
    requires k + 1 < |IrpfAnnualBrackets|
    ensures IrpfAnnualBrackets[k].upTo.UpTo?
    ensures var u := IrpfAnnualBrackets[k].upTo.bound;
            var lo := IrpfAnnualBrackets[k];
            var hi := IrpfAnnualBrackets[k + 1];
            -0.005 <= (u * hi.rate - hi.deduction) - (u * lo.rate - lo.deduction) <= 0.005
  {
  }

  // ---------------------------------------------------------------------
  // Regressive schedule
  // ---------------------------------------------------------------------

  /** The `for…of` search: the index of the first row with holdingYears <= maxYears, if any. */
  function FindScheduleRow(schedule: seq<RegressiveBracket>, holdingYears: real): (found: Option<nat>)
    ensures found.Some? ==> found.value < |schedule| && Within(holdingYears, schedule[found.value].maxYears)
    ensures found.Some? ==> forall k :: 0 <= k < found.value ==> !Within(holdingYears, schedule[k].maxYears)
    ensures found.None? <==> forall k :: 0 <= k < |schedule| ==> !Within(holdingYears, schedule[k].maxYears)
  {
    if schedule == [] then None
    else if Within(holdingYears, schedule[0].maxYears) then Some(0)
    else match FindScheduleRow(schedule[1..], holdingYears)
      case None => None
      case Some(i) => Some(i + 1)
  }

  /** Regressive-regime rate for a holding period, with closed upper bounds and a 10% fallback. */
  function GetRegressiveRate(holdingYears: real): (rate: real)
    ensures 0.10 <= rate <= 0.35
  {
    match FindScheduleRow(RegressiveSchedule, holdingYears)
    case Some(i) => RegressiveSchedule[i].rate
    case None => 0.10
  }

  /** The last row is unbounded, so the 10% fallback after the loop is unreachable. */
  lemma ScheduleAlwaysCovers(holdingYears: real)
    ensures FindScheduleRow(RegressiveSchedule, holdingYears).Some?
  {
    assert Within(holdingYears, RegressiveSchedule[5].maxYears);
  }

  /** The schedule written out as a chain of closed upper bounds. */
  function RegressiveRateByThresholds(holdingYears: real): real {
    if holdingYears <= 2.0 then 0.35
    else if holdingYears <= 4.0 then 0.30
    else if holdingYears <= 6.0 then 0.25
    else if holdingYears <= 8.0 then 0.20
    else if holdingYears <= 10.0 then 0.15
    else 0.10
  }

  /** The schedule search agrees with the written-out thresholds for every holding period. */
  lemma RegressiveRateMatchesThresholds(holdingYears: real)
    ensures GetRegressiveRate(holdingYears) == RegressiveRateByThresholds(holdingYears)
  {
    ScheduleAlwaysCovers(holdingYears);
    var i := FindScheduleRow(RegressiveSchedule, holdingYears).value;
    assert i < 6;
    if i >= 1 { assert !Within(holdingYears, RegressiveSchedule[0].maxYears); }
    if i >= 2 { assert !Within(holdingYears, RegressiveSchedule[1].maxYears); }
    if i >= 3 { assert !Within(holdingYears, RegressiveSchedule[2].maxYears); }
    if i >= 4 { assert !Within(holdingYears, RegressiveSchedule[3].maxYears); }
    if i >= 5 { assert !Within(holdingYears, RegressiveSchedule[4].maxYears); }
  }

  /** Closed upper bounds: exactly 2 years is still 35%, and exactly 10 years is still 15%. */
  lemma RegressiveRateBoundaries()
    ensures GetRegressiveRate(2.0) == 0.35
    ensures GetRegressiveRate(2.0000001) == 0.30
    ensures GetRegressiveRate(10.0) == 0.15
    ensures GetRegressiveRate(10.0000001) == 0.10
  {
    RegressiveRateMatchesThresholds(2.0);
    RegressiveRateMatchesThresholds(2.0000001);
    RegressiveRateMatchesThresholds(10.0);
    RegressiveRateMatchesThresholds(10.0000001);
  }

  /** Holding longer never raises the regressive rate. */
  lemma RegressiveRateNonIncreasing(y1: real, y2: real)
    requires y1 <= y2
    ensures GetRegressiveRate(y2) <= GetRegressiveRate(y1)
  {
    RegressiveRateMatchesThresholds(y1);
    RegressiveRateMatchesThresholds(y2);
  }

  // ---------------------------------------------------------------------
  // Exit rates
  // ---------------------------------------------------------------------

  /** The deprecated per-regime exit-rate selector. */
  function EstimateXout(regime: RedemptionRegime, horizonYears: real, annualIncome: real): (xout: real)
    ensures regime == Regressive ==> xout == GetRegressiveRate(horizonYears)
    ensures regime == Progressive ==> xout == EstimateMarginalRate(annualIncome)
    ensures regime == Optimistic ==> xout == 0.10
  {
    match regime
    case Regressive => GetRegressiveRate(horizonYears)
    case Progressive => EstimateMarginalRate(annualIncome)
    case Optimistic => 0.10
  }

  /** The "best of" exit rate: the lower of the regressive and the progressive rate. */
  function ComputeBestXout(year: real, annualIncome: real): (xout: real)
    ensures xout <= GetRegressiveRate(year) && xout <= EstimateMarginalRate(annualIncome)
    ensures xout == GetRegressiveRate(year) || xout == EstimateMarginalRate(annualIncome)
  {
    Min(GetRegressiveRate(year), EstimateMarginalRate(annualIncome))
  }

  /**
   * For the progressive and regressive regimes the legacy selector is never
   * better for the investor than "best of", and equals it exactly when the
   * chosen regime is the cheaper one.
   */
  lemma LegacyXoutNeverBelowBest(regime: RedemptionRegime, horizonYears: real, annualIncome: real)
    requires regime != Optimistic
    ensures EstimateXout(regime, horizonYears, annualIncome) >= ComputeBestXout(horizonYears, annualIncome)
    ensures EstimateXout(regime, horizonYears, annualIncome) == ComputeBestXout(horizonYears, annualIncome)
            <==> (if regime == Regressive
                  then GetRegressiveRate(horizonYears) <= EstimateMarginalRate(annualIncome)
                  else EstimateMarginalRate(annualIncome) <= GetRegressiveRate(horizonYears))
  {
  }

  /** The optimistic regime's flat 10% can exceed "best of": with income below the exemption limit the best rate is 0. */
  lemma OptimisticXoutCanExceedBest()
    ensures EstimateXout(Optimistic, 10.0, 20000.0) == 0.10
    ensures ComputeBestXout(10.0, 20000.0) == 0.0
  {
    MarginalRateMatchesThresholds(20000.0);
  }
}
