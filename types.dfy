/**
 * The records that flow into and out of the simulation engine
 * (src/lib/types.ts). Numbers are exact reals; the horizon is a natural
 * number because the engine indexes the yearly series with it.
 */
module Types {
  import opened Common

  datatype FilingMode = Complete | Simplified

  datatype Wrapper = PGBL | VGBL

  /** The legacy single-regime selector for the tax paid at redemption. */
  datatype RedemptionRegime = Progressive | Regressive | Optimistic

  datatype SimulationInputs = SimulationInputs(
    annualIncome: real,
    filingMode: FilingMode,
    contributesToINSS: bool,
    wrapper: Wrapper,
    contributionPct: real,
    regime: RedemptionRegime,
    expectedReturn: real,
    horizonYears: nat,
    capitalGainsTax: real,
    refundDelayYears: real,
    adminFeePct: real,
    performanceFeePct: real,
    feesEnabled: bool
  )

  datatype DerivedValues = DerivedValues(
    xin: real,                // entry benefit: marginal income-tax rate
    xout: real,               // tax rate paid at redemption
    deductibleAmount: real,   // contribution that can be deducted (BRL)
    contributionAmount: real, // contribution actually made (BRL)
    refundAmount: real        // estimated tax refund (BRL)
  )

  /** One year of the two wealth trajectories, per unit of currency invested. */
  datatype YearlyDataPoint = YearlyDataPoint(
    year: nat,
    wealthA: real,          // taxable comparison investment
    wealthB: real,          // PGBL total
    wealthB_pgbl: real,     // PGBL in-fund component, net of exit tax
    wealthB_refund: real,   // refund reinvested outside the fund
    annualizedDelta: real   // basis points
  )

  datatype SimulationResult = SimulationResult(
    inputs: SimulationInputs,
    derived: DerivedValues,
    timeseries: seq<YearlyDataPoint>,
    terminalA: real,
    terminalB: real,
    annualizedDelta: real,
    breakEvenYear: Option<nat>,
    engineVersion: string
  )
}
