/**
 * The government developer (`gov_developer.py`): once a year, on its build month, it builds a
 * batch of units in one cell when too many residents own no home, and it sells them.
 */
module GovDevelopers {
  import opened Constants
  import opened Draws
  import opened Lists
  import opened Apartments
  import opened Cells
  import opened Markets

  /** Number of units in one construction batch, and the stock cap below which it builds. */
  const BatchSize: nat := 100

  class GovDeveloper {
    const profitMargin: real
    /** Month of the year (step modulo 12) on which it considers building. */
    const buildMonth: int
    /** Nominal; the government developer builds regardless of capital. */
    const capital: int
    /** Units built and not yet sold. */
    var ownedProperties: seq<Apartment>

    ghost predicate Valid()
      reads this
    {
      Distinct(ownedProperties)
    }

    /** `buildMonth` is the value of `random.randint(0, 11)`. */
    constructor (buildMonth: int)
      requires 0 <= buildMonth <= 11
      ensures this.buildMonth == buildMonth && profitMargin == 0.05 && capital == 1
      ensures ownedProperties == [] && Valid()
    {
      profitMargin := 0.05;
      this.buildMonth := buildMonth;
      ownedProperties := [];
      capital := 1;
    }

    /** Builds one unit in `cell` and lists it for sale; `u` is the draw behind its freshness. */
    method BuildHouse(cell: Cell, u: Unit) returns (apt: Apartment)
      modifies cell`apartments, cell`toSell, this`ownedProperties
      ensures fresh(apt)
      ensures cell.apartments == old(cell.apartments) + [apt]
      ensures cell.toSell == old(cell.toSell) + [apt]
      ensures ownedProperties == old(ownedProperties) + [apt]
      ensures apt.position == cell.position && apt.bills == cell.bills && apt.owner == this
      ensures apt.price == BuildPrice(profitMargin)
      ensures apt.rent == 0.0 && !apt.occupied && apt.tenant == null && !apt.deleted
      ensures apt.timeAtMarket == 0 && apt.timeRented == 0 && 0.95 <= apt.freshness <= 1.0
      ensures old(cell.Valid()) ==> cell.Valid()
      ensures old(Valid()) ==> Valid()
    {
      apt := new Apartment(cell.position, HouseBuildCost * (1.0 + profitMargin), cell.bills, u, owner := this);
      if old(cell.Valid()) {
        DistinctAppend(cell.apartments, apt);
      }
      if old(Valid()) {
        DistinctAppend(ownedProperties, apt);
      }
      cell.apartments := cell.apartments + [apt];
      cell.toSell := cell.toSell + [apt];
      ownedProperties := ownedProperties + [apt];
    }

    /** Keeps an unsold unit presentable: its freshness is floored at 0.85. */
    method ManageHouseForSale(apt: Apartment)
      modifies apt`freshness
      ensures apt.freshness == FlooredFreshness(old(apt.freshness))
    {
      apt.freshness := if apt.freshness >= 0.85 then apt.freshness else 0.85;
    }

    /**
     * Hands a unit over to its buyer: it leaves the developer's stock and the cell's for-sale
     * listing (each only when present), its price is recorded, and it is left ownerless and
     * empty for the buyer to take.
     */
    method SellHouse(apt: Apartment, market: Market)
      requires market.Valid()
      modifies this`ownedProperties, market.cellAt(apt.position)`toSell, market`recentSellPrices
      modifies apt`owner, apt`occupied, apt`timeAtMarket
      ensures ownedProperties ==
        if apt in old(ownedProperties) then RemoveFirst(old(ownedProperties), apt) else old(ownedProperties)
      ensures market.cellAt(apt.position).toSell ==
        if apt in old(market.cellAt(apt.position).toSell)
        then RemoveFirst(old(market.cellAt(apt.position).toSell), apt)
        else old(market.cellAt(apt.position).toSell)
      ensures market.recentSellPrices == old(market.recentSellPrices) + [apt.price]
      ensures apt.owner == null && !apt.occupied && apt.timeAtMarket == 0
      ensures old(Valid()) ==> Valid() && apt !in ownedProperties
    {
      if apt in ownedProperties {
        if Valid() {
          RemoveFirstDistinct(ownedProperties, apt);
        }
        ownedProperties := RemoveFirst(ownedProperties, apt);
      }
      var cell := market.cellAt(apt.position);
      if apt in cell.toSell {
        cell.toSell := RemoveFirst(cell.toSell, apt);
      }
      market.recentSellPrices := market.recentSellPrices + [apt.price];
      apt.owner := null;
      apt.occupied := false;
      apt.timeAtMarket := 0;
    }

    /**
     * One tick: every unsold unit is kept presentable; then, on the build month, when more
     * than 5% of the residents own no home and the stock is below 100 units, a batch of 100
     * units is built in `target` (the cell drawn by `random.choice`). `ownedApartments` holds
     * each resident's owned apartment, or null; `freshDraw(k)` is the draw behind the k-th new
     * unit's freshness.
     */
    method Step(step: nat, ownedApartments: seq<Apartment?>, market: Market, target: Cell,
                freshDraw: nat -> Unit) returns (built: seq<Apartment>)
      requires market.Valid() && target in market.allCells
      modifies this`ownedProperties, ownedProperties`freshness, target`apartments, target`toSell
      ensures forall a :: a in old(ownedProperties) ==> a.freshness == FlooredFreshness(old(a.freshness))
      ensures built != [] <==>
        BuildsNow(step, buildMonth, WithoutHome(ownedApartments), market.numResidents, |old(ownedProperties)|)
      ensures built != [] ==> |built| == BatchSize
      ensures Distinct(built)
      ensures ownedProperties == old(ownedProperties) + built
      ensures target.apartments == old(target.apartments) + built
      ensures target.toSell == old(target.toSell) + built
      ensures forall k :: 0 <= k < |built| ==> fresh(built[k])
      ensures forall k :: 0 <= k < |built| ==>
        built[k].owner == this && built[k].price == BuildPrice(profitMargin) &&
        built[k].bills == target.bills && built[k].position == target.position && !built[k].occupied
      ensures forall k :: 0 <= k < |built| ==>
        built[k].rent == 0.0 && built[k].tenant == null && !built[k].deleted &&
        built[k].timeAtMarket == 0 && built[k].timeRented == 0 && 0.95 <= built[k].freshness <= 1.0
      ensures old(target.Valid()) ==> target.Valid()
      ensures old(Valid()) ==> Valid()
    {
      ghost var stock := ownedProperties;
      var i := 0;
      while i < |ownedProperties|
        invariant 0 <= i <= |ownedProperties| && ownedProperties == stock
        modifies stock`freshness
        invariant forall a :: a in stock[..i] ==> a.freshness == FlooredFreshness(old(a.freshness))
        invariant forall a :: a in stock && a !in stock[..i] ==> a.freshness == old(a.freshness)
      {
        assert stock[..i + 1] == stock[..i] + [stock[i]];
        ManageHouseForSale(ownedProperties[i]);
        i := i + 1;
      }
      assert stock[..i] == stock;

      built := [];
      if step % 12 == buildMonth {
        var homeless := WithoutHome(ownedApartments);
        if (homeless as real) > (market.numResidents as real) * 0.05 && |ownedProperties| < BatchSize {
          var k := 0;
          while k < BatchSize
            invariant 0 <= k <= BatchSize && |built| == k
            invariant Distinct(built)
            invariant ownedProperties == old(ownedProperties) + built
            invariant target.apartments == old(target.apartments) + built
            invariant target.toSell == old(target.toSell) + built
            invariant forall j :: 0 <= j < k ==> fresh(built[j])
            invariant forall j :: 0 <= j < k ==>
              built[j].owner == this && built[j].price == BuildPrice(profitMargin) &&
              built[j].bills == target.bills && built[j].position == target.position && !built[j].occupied
            invariant forall j :: 0 <= j < k ==>
              built[j].rent == 0.0 && built[j].tenant == null && !built[j].deleted &&
              built[j].timeAtMarket == 0 && built[j].timeRented == 0 && 0.95 <= built[j].freshness <= 1.0
            invariant old(target.Valid()) ==> target.Valid()
            invariant old(Valid()) ==> Valid()
            invariant forall a :: a in old(ownedProperties) ==> a.freshness == FlooredFreshness(old(a.freshness))
          {
            var apt := BuildHouse(target, freshDraw(k));
            DistinctAppend(built, apt);
            built := built + [apt];
            k := k + 1;
          }
        }
      }
    }
  }

  /** Asking price of a newly built unit: the build cost plus the developer's margin. */
  function BuildPrice(profitMargin: real): (p: real)
    ensures profitMargin >= 0.0 ==> p >= HouseBuildCost
  {
    HouseBuildCost * (1.0 + profitMargin)
  }

  /** `max(freshness, 0.85)`: at least 0.85, never below the old value, and either the old value or 0.85. */
  function FlooredFreshness(freshness: real): (r: real)
    ensures r >= 0.85 && r >= freshness
    ensures r == freshness || r == 0.85
  {
    if freshness >= 0.85 then freshness else 0.85
  }

  /** How many residents own no apartment (renters included). */
  function WithoutHome(ownedApartments: seq<Apartment?>): (n: nat)
    ensures n <= |ownedApartments|
    ensures n == |ownedApartments| <==> forall i :: 0 <= i < |ownedApartments| ==> ownedApartments[i] == null
  {
    if ownedApartments == [] then 0
    else WithoutHome(ownedApartments[1..]) + (if ownedApartments[0] == null then 1 else 0)
  }

  /** The build decision: only on the build month, only below the stock cap, only above 5% without a home. */
  function BuildsNow(step: nat, buildMonth: int, withoutHome: nat, numResidents: nat, stock: nat): (b: bool)
    ensures b ==> step % 12 == buildMonth && stock < BatchSize
    ensures b ==> withoutHome > 0 && (withoutHome as real) > (numResidents as real) * 0.05
    ensures step % 12 == buildMonth && stock < BatchSize && 20 * withoutHome > numResidents ==> b
  {
    step % 12 == buildMonth && (withoutHome as real) > (numResidents as real) * 0.05 && stock < BatchSize
  }
}
