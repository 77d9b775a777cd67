/** The hard limits of src/core/config.py, restricted to what the risk kernel reads. */
module Limits {
  datatype RiskLimits = RiskLimits(
    maxRiskPerTrade: real,
    maxOpenRisk: real,
    maxDailyLoss: real,
    maxWeeklyDrawdown: real,
    maxEventRisk: real,
    maxCorrelatedExposure: real,
    maxMarginUsage: real,
    minFreeMargin: real,
    maxEffectiveLeverage: real,
    maxAssetExposure: real,
    maxAssetClassExposure: real,
    maxCurrencyExposure: real,
    stressScenariosR: seq<real>,
    stressMinFreeMargin: real,
    requireStop: bool,
    minRewardRisk: real,
    maxHoldingTimeS: int,
    kellyFraction: real,
    minNetAlpha: real,
    maxSlippagePct: real,
    maxStakeAbs: real,
    maxDataStalenessS: real,
    maxPublicDataStalenessS: real,
    maxOpenPositions: int,
    maxPositionsPerAsset: int,
    maxRejectedOrdersStreak: int,
    maxTradesPerDay: int)
  {
    /** What the field and model validators accept. */
    predicate Valid() {
      && 0.0 < kellyFraction <= 0.25
      && 0.0 < maxRiskPerTrade <= 0.25
      && 0.0 < maxOpenRisk <= 0.25
      && 0.0 < maxDailyLoss <= 0.25
      && 0.0 < maxWeeklyDrawdown <= 0.25
      && 0.0 < maxEventRisk <= 0.25
      && 0.0 < maxCorrelatedExposure <= 0.25
      && 0.0 < maxMarginUsage <= 1.0
      && 0.0 < minFreeMargin <= 1.0
      && 0.0 < stressMinFreeMargin <= 1.0
      && 0.0 < maxEffectiveLeverage <= 10.0
      && 0.0 < maxAssetExposure <= 10.0
      && 0.0 < maxAssetClassExposure <= 10.0
      && 0.0 < maxCurrencyExposure <= 10.0
      && minRewardRisk >= 1.0
      && maxRiskPerTrade <= maxOpenRisk
      && maxMarginUsage + minFreeMargin <= 1.0 + 0.000000001
    }
  }

  /** The defaults of the configuration. */
  const DEFAULT_LIMITS := RiskLimits(
    0.005, 0.02, 0.02, 0.05, 0.01, 0.015, 0.2, 0.7, 4.0, 3.0, 4.0, 4.0, [1.0, 2.0], 0.5, true, 1.5, 14400, 0.15,
    0.0005, 0.0005, 5.0, 5.0, 150.0, 10, 1, 8, 20)
}
