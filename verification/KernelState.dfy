/** The state the Kernel adjudicates against, and its limits. */
module KernelState {
  import opened Decimals
  import opened Domain

  datatype SystemMode = Active | ManageOnly | Halt

  datatype OpenPolicy = OpenPolicy(
    policyId: string,
    underlying: string,
    structure: Structure,
    shortStrike: real,
    longStrike: real,
    expiry: int,
    contracts: int,
    maxLoss: real,
    reserve: real)
  {
    function AssignmentCost(): real { shortStrike * 100.0 * contracts as real }
  }

  datatype AccountState = AccountState(
    nav: real,
    equity: real,
    buyingPower: real,
    peakEquity: real,
    dailyRealizedPnl: real,
    readOk: bool)
  {
    function DrawdownPct(): real {
      if peakEquity <= 0.0 then 0.0 else Div(peakEquity - equity, peakEquity)
    }
  }

  datatype KernelContext = KernelContext(
    now: int,
    account: AccountState,
    dataAsOf: int,
    mode: SystemMode,
    killSwitchEngaged: bool,
    marketOpen: bool,
    minutesSinceOpen: int,
    minutesToClose: int,
    openPolicies: seq<OpenPolicy>,
    portfolioNetDelta: real,
    portfolioNetVega: real,
    suppliedCandidateIds: set<string>,
    breachedUnderlyings: set<string>,
    existingClientOrderIds: set<string>)
  {
    function TotalReserve(): real { SumReserve(openPolicies) }
    function PortfolioMaxLoss(): real { SumMaxLoss(openPolicies) }
    function TotalAssignmentCost(): real { SumAssignment(openPolicies) }
    function ReserveFor(underlying: string): real { SumReserveFor(openPolicies, underlying) }
  }

  function SumReserve(ps: seq<OpenPolicy>): real {
    if ps == [] then 0.0 else ps[0].reserve + SumReserve(ps[1..])
  }

  function SumMaxLoss(ps: seq<OpenPolicy>): real {
    if ps == [] then 0.0 else ps[0].maxLoss + SumMaxLoss(ps[1..])
  }

  function SumAssignment(ps: seq<OpenPolicy>): real {
    if ps == [] then 0.0 else ps[0].AssignmentCost() + SumAssignment(ps[1..])
  }

  function SumReserveFor(ps: seq<OpenPolicy>, underlying: string): real {
    if ps == [] then 0.0
    else (if ps[0].underlying == underlying then ps[0].reserve else 0.0) + SumReserveFor(ps[1..], underlying)
  }

  datatype KernelLimits = KernelLimits(
    maxDeployedPct: real,
    maxPositionLossPct: real,
    maxOpenPolicies: int,
    maxUnderlyingConcentration: real,
    maxPortfolioRiskPct: real,
    maxNetDeltaPer10k: real,
    maxVegaPer100k: real,
    softFactor: real,
    maxDailyLossPct: real,
    maxDrawdownPct: real,
    minDteAtEntry: int,
    minLiquidityScore: real,
    maxBidAskPct: real,
    minEdgeRatio: real,
    blackoutOpenMin: int,
    blackoutCloseMin: int,
    maxDataAgeSec: int,
    verdictTtlSec: int,
    calibrationMultiplier: real)

  const DEFAULT_LIMITS := KernelLimits(
    0.60, 0.03, 8, 0.25, 0.15,
    15.0, 50.0, 0.5,
    0.03, 0.10,
    7, 0.55, 0.15, 0.05,
    15, 30, 120, 45,
    1.0)
}
