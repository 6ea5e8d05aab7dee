/**
 * The tuning constants of `model_elements/constants.py`. Their values are not part of this
 * model, so each one is an arbitrary constant whose only known property is its sign.
 */
module Constants {
  type PositiveReal = r: real | r > 0.0 witness 1.0
  type PositiveNat = n: nat | n > 0 witness 1

  /** Cost of building one housing unit; also the landlord's capital threshold for buying. */
  const HouseBuildCost: PositiveReal
  /** Rent index used while no rental has been recorded yet. */
  const StartRentPrice: PositiveReal
  /** Cost of renovating a unit from freshness 0 to freshness 1. */
  const FullHouseRenovationCost: PositiveReal
  /** Fraction of the price that a buyer's monthly housing income must cover. */
  const MortgageMonthlyFactor: PositiveReal
  /** Happiness below which a renter starts thinking about moving. */
  const HappinessFactorThreshold: PositiveReal
  /** Number of cells a landlord samples when looking for a unit to buy. */
  const DeveloperCellLookupCount: PositiveNat
  /** Mean starting capital of a landlord. */
  const StartLandlordsCapital: PositiveReal
}
