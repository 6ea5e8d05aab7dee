/** A grid cell: the apartments located there and its two listings (`cell_agent.py`). */
module Cells {
  import opened Draws
  import opened Lists
  import opened Apartments

  class Cell {
    const position: Position
    const propertyValue: real
    const locationFactor: real
    /** Bills baseline shared by every apartment of the cell. */
    var bills: real
    var apartments: seq<Apartment>
    /** Units offered for rent. */
    var toRent: seq<Apartment>
    /** Units offered for sale. */
    var toSell: seq<Apartment>

    /** Every apartment stands in the cell once. */
    ghost predicate Valid()
      reads this`apartments
    {
      Distinct(apartments)
    }

    constructor (propertyValue: real, locationFactor: real, bills: real, position: Position)
      ensures this.position == position && this.bills == bills
      ensures this.propertyValue == propertyValue && this.locationFactor == locationFactor
      ensures apartments == [] && toRent == [] && toSell == []
      ensures Valid()
    {
      this.position := position;
      this.bills := bills;
      apartments := [];
      toRent := [];
      toSell := [];
      this.propertyValue := propertyValue;
      this.locationFactor := locationFactor;
    }

    /**
     * One tick: the bills drift by the drawn relative `change` and are pushed onto every
     * apartment; each apartment ages, and is renovated when its draw `resetDraw(i)` is below 0.1
     * (`freshDraw(i)` is the draw behind that renovation). The frame leaves the apartment list
     * and both listings as they were.
     */
    method Step(change: real, resetDraw: nat -> Unit, freshDraw: nat -> Unit)
      requires Valid()
      modifies this`bills, apartments`bills, apartments`freshness
      ensures bills == DriftedBills(old(bills), change)
      ensures forall i :: 0 <= i < |apartments| ==> apartments[i].bills == bills
      ensures forall i :: 0 <= i < |apartments| ==>
        apartments[i].freshness == AgedFreshness(old(apartments[i].freshness), resetDraw(i), freshDraw(i))
    {
      bills := bills * (1.0 + change);
      var i := 0;
      while i < |apartments|
        invariant 0 <= i <= |apartments|
        invariant bills == DriftedBills(old(bills), change)
        invariant forall k :: 0 <= k < i ==> apartments[k].bills == bills
        invariant forall k :: 0 <= k < i ==>
          apartments[k].freshness == AgedFreshness(old(apartments[k].freshness), resetDraw(k), freshDraw(k))
        invariant forall k :: i <= k < |apartments| ==> apartments[k].freshness == old(apartments[k].freshness)
      {
        var apt := apartments[i];
        forall k | 0 <= k < |apartments| && k != i
          ensures apartments[k] != apt
        {
          DistinctAt(apartments, k, i);
        }
        apt.bills := bills;
        apt.UpdateFreshness();
        if resetDraw(i) < 0.1 {
          apt.ResetFreshness(freshDraw(i));
        }
        i := i + 1;
      }
    }
  }

  /** Cell bills after a drift: positive bills stay positive for any change above -1. */
  function DriftedBills(bills: real, change: real): (r: real)
    ensures bills > 0.0 && change > -1.0 ==> r > 0.0
    ensures change == 0.0 ==> r == bills
  {
    bills * (1.0 + change)
  }

  /**
   * Freshness after one cell tick: decayed by 0.99, unless the reset draw is below 0.1, in
   * which case the unit is renovated into [0.85, 1.0].
   */
  function AgedFreshness(freshness: real, resetDraw: Unit, u: Unit): (r: real)
    ensures resetDraw < 0.1 ==> 0.85 <= r <= 1.0
    ensures resetDraw >= 0.1 ==> r == Decayed(freshness, 0.99)
    ensures resetDraw >= 0.1 && 0.0 <= freshness ==> 0.0 <= r <= freshness
  {
    if resetDraw < 0.1 then Renovated(u) else Decayed(freshness, 0.99)
  }
}
