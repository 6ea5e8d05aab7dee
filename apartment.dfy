/** A housing unit: its prices, its condition and who owns or rents it (`apartment.py`). */
module Apartments {
  import opened Draws

  /** A grid coordinate. */
  type Position = (int, int)

  class Apartment {
    const position: Position
    /** Price for which the unit can be bought. */
    var price: real
    /** Monthly bills (utilities, maintenance, tax), paid to the town. */
    var bills: real
    /** Monthly rent, paid to the landlord. */
    var rent: real
    /** Condition of the unit, nominally in [0, 1]. */
    var freshness: real
    var occupied: bool
    var timeAtMarket: int
    var timeRented: int
    /** The renting resident, if any. */
    var tenant: object?
    /** The owner: a resident, a landlord, a developer or nobody. */
    var owner: object?
    /** Set when an owner-occupier gives the unit up and it is taken out of its cell. */
    var deleted: bool

    /** `u` is the `random()` behind the initial `random.uniform(0.95, 1.0)` freshness. */
    constructor (position: Position, price: real, bills: real, u: Unit,
                 owner: object? := null, rent: real := 0.0, occupied: bool := false)
      ensures this.position == position && this.price == price && this.bills == bills
      ensures this.owner == owner && this.rent == rent && this.occupied == occupied
      ensures tenant == null && !deleted
      ensures timeAtMarket == 0 && timeRented == 0
      ensures 0.95 <= freshness <= 1.0
    {
      this.position := position;
      freshness := Uniform(0.95, 1.0, u);
      this.price := price;
      this.bills := bills;
      this.rent := rent;
      this.occupied := occupied;
      timeAtMarket := 0;
      timeRented := 0;
      tenant := null;
      this.owner := owner;
      deleted := false;
    }

    /** Ages the unit: freshness is scaled by the decay rate. */
    method UpdateFreshness(decayRate: real := 0.99)
      modifies this`freshness
      ensures freshness == Decayed(old(freshness), decayRate)
    {
      freshness := freshness * decayRate;
    }

    /** Renovates the unit; `u` is the `random()` behind `random.uniform(0.85, 1.0)`. */
    method ResetFreshness(u: Unit)
      modifies this`freshness
      ensures freshness == Renovated(u)
    {
      freshness := Uniform(0.85, 1.0, u);
    }

    /** What living here costs a tenant per month; it depends on the rent and the bills only. */
    function FullCost(): (cost: real)
      reads this`rent, this`bills
      ensures cost == rent + bills
    {
      rent + bills
    }
  }

  /** Freshness after one decay step: never negative and never higher than before for a rate in [0, 1]. */
  function Decayed(freshness: real, decayRate: real): (r: real)
    ensures 0.0 <= freshness && 0.0 <= decayRate <= 1.0 ==> 0.0 <= r <= freshness
    ensures decayRate == 1.0 ==> r == freshness
  {
    ScaleWithin(freshness, decayRate);
    freshness * decayRate
  }

  /** Scaling a non-negative value by a factor in [0, 1] keeps it between 0 and itself. */
  lemma ScaleWithin(x: real, factor: real)
    ensures 0.0 <= x && 0.0 <= factor <= 1.0 ==> 0.0 <= x * factor <= x
  {
    if 0.0 <= x && 0.0 <= factor <= 1.0 {
      assert x - x * factor == x * (1.0 - factor);
      assert x * (1.0 - factor) >= 0.0;
    }
  }

  /** Freshness after a renovation draw: always in [0.85, 1.0]. */
  function Renovated(u: Unit): (r: real)
    ensures 0.85 <= r <= 1.0
  {
    Uniform(0.85, 1.0, u)
  }
}
