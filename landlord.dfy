/**
 * A landlord (`landlord_agent.py`): buys units listed for sale when it can afford them, lets
 * them out, collects rent, pays the bills of vacant units and adjusts their rents.
 */
module Landlords {
  import opened Constants
  import opened Draws
  import opened Lists
  import opened Apartments
  import opened Cells
  import opened Markets
  import opened GovDevelopers
  import opened RentalRules

  /** How a purchase attempt ended; `Aborted` is the exception that stops the simulation. */
  datatype Purchase = NotAttempted | NoOffer | Bought(apt: Apartment) | Aborted(apt: Apartment)

  /** A unit picked among the sampled cells' units for sale: the j-th unit of the i-th cell. */
  datatype Choice = NoChoice | Chosen(cell: nat, unit: nat)

  /** The management-relevant fields of a unit, as a value. */
  function HoldingOf(a: Apartment): Holding
    reads a
  {
    Holding(a.occupied, a.timeRented, a.timeAtMarket, a.rent, a.bills, a.freshness)
  }

  function Holdings(s: seq<Apartment>): (hs: seq<Holding>)
    reads s
    ensures |hs| == |s| && forall k :: 0 <= k < |s| ==> hs[k] == HoldingOf(s[k])
  {
    if s == [] then [] else Holdings(s[..|s| - 1]) + [HoldingOf(s[|s| - 1])]
  }

  /** A listed unit the landlord may buy: affordable, and not owned by the government developer. */
  predicate Purchasable(a: Apartment, capital: real)
    reads a
  {
    a.price <= capital && !(a.owner is GovDeveloper)
  }

  /** Every unit listed for sale in the given cells. */
  function Offered(cells: seq<Cell>): set<Apartment>
    reads cells
  {
    set i, j | 0 <= i < |cells| && 0 <= j < |cells[i].toSell| :: cells[i].toSell[j]
  }

  /** The ROI of the j-th unit for sale in the i-th sampled cell, with its draw. */
  function RoiAt(cells: seq<Cell>, i: nat, j: nat, rentIndex: real, margin: real, draw: (nat, nat) -> Unit): real
    requires i < |cells| && j < |cells[i].toSell|
    requires MonthlyRent(rentIndex, margin) != 0.0
    reads cells, cells[i].toSell[j]
  {
    var a := cells[i].toSell[j];
    Roi(a.price, a.freshness, draw(i, j), rentIndex, margin)
  }

  /**
   * `offer` is the landlord's choice among the units for sale in `cells`: nothing when no
   * unit is purchasable, otherwise a purchasable unit of least ROI, and the first one scanned
   * among those of least ROI.
   */
  ghost predicate IsBestOffer(cells: seq<Cell>, capital: real, rentIndex: real, margin: real,
                              draw: (nat, nat) -> Unit, offer: Choice)
    requires MonthlyRent(rentIndex, margin) != 0.0
    reads *
  {
    match offer
    case NoChoice =>
      forall i, j {:trigger Purchasable(cells[i].toSell[j], capital)} :: 0 <= i < |cells| && 0 <= j < |cells[i].toSell| ==> !Purchasable(cells[i].toSell[j], capital)
    case Chosen(bi, bj) =>
      bi < |cells| && bj < |cells[bi].toSell| && Purchasable(cells[bi].toSell[bj], capital) &&
      (forall i, j {:trigger Purchasable(cells[i].toSell[j], capital)} :: 0 <= i < |cells| && 0 <= j < |cells[i].toSell| && Purchasable(cells[i].toSell[j], capital) ==>
         RoiAt(cells, i, j, rentIndex, margin, draw) >= RoiAt(cells, bi, bj, rentIndex, margin, draw)) &&
      (forall i, j {:trigger Purchasable(cells[i].toSell[j], capital)} :: (0 <= i < |cells| && 0 <= j < |cells[i].toSell| && Purchasable(cells[i].toSell[j], capital) &&
                       Earlier(i, j, bi, bj)) ==>
         RoiAt(cells, i, j, rentIndex, margin, draw) > RoiAt(cells, bi, bj, rentIndex, margin, draw))
  }

  class LandlordAgent {
    /** Markup over the rent index that the landlord asks. */
    const profitMargin: real
    const startingCapital: real
    /** Units held for rent, let or vacant. */
    var ownedProperties: seq<Apartment>
    var aptsToRentCount: int
    /** Cash; it may go negative. */
    var capital: real

    /** `z` is the standard normal behind the `np.random.normal(1.0, 0.05)` capital factor. */
    constructor (profitMargin: real, z: real)
      ensures this.profitMargin == profitMargin
      ensures startingCapital == StartLandlordsCapital * Normal(1.0, 0.05, z) && capital == startingCapital
      ensures ownedProperties == [] && aptsToRentCount == 0
      ensures Valid()
    {
      this.profitMargin := profitMargin;
      ownedProperties := [];
      aptsToRentCount := 0;
      startingCapital := StartLandlordsCapital * Normal(1.0, 0.05, z);
      capital := StartLandlordsCapital * Normal(1.0, 0.05, z);
    }

    /**
     * The units held are listed once each and are all owned by this landlord: a purchase
     * takes over only an ownerless unit, so it never appends a unit already held.
     */
    predicate Valid()
      reads this, ownedProperties
    {
      Distinct(ownedProperties) && forall p :: p in ownedProperties ==> p.owner == this
    }

    /**
     * The search of a purchase: scans the sampled cells' units for sale in order, skipping
     * those priced above the capital, and keeps the first unit of strictly least ROI that no
     * government developer owns. `roiDraw(i, j)` is the renovation-factor draw of the ROI of
     * the j-th unit of the i-th cell.
     */
    method FindBestOffer(sampled: seq<Cell>, market: Market, roiDraw: (nat, nat) -> Unit)
      returns (best: Choice)
      requires MonthlyRent(market.RentIndex(), profitMargin) > 0.0
      ensures IsBestOffer(sampled, capital, market.RentIndex(), profitMargin, roiDraw, best)
    {
      var rentIndex := market.RentIndex();
      best := NoChoice;
      var bestRoi := 0.0;
      var i := 0;
      while i < |sampled|
        invariant 0 <= i <= |sampled|
        invariant best.NoChoice? ==> forall i', j' :: 0 <= i' < i && 0 <= j' < |sampled[i'].toSell| ==>
          !Purchasable(sampled[i'].toSell[j'], capital)
        invariant best.Chosen? ==> (best.cell < i && best.unit < |sampled[best.cell].toSell| &&
                                  Purchasable(sampled[best.cell].toSell[best.unit], capital) &&
                                  bestRoi == RoiAt(sampled, best.cell, best.unit, rentIndex, profitMargin, roiDraw))
        invariant best.Chosen? ==> forall i', j' ::
          (0 <= i' < i && 0 <= j' < |sampled[i'].toSell| && Purchasable(sampled[i'].toSell[j'], capital)) ==>
          RoiAt(sampled, i', j', rentIndex, profitMargin, roiDraw) >= bestRoi
        invariant best.Chosen? ==> forall i', j' ::
          (0 <= i' < |sampled| && 0 <= j' < |sampled[i'].toSell| && Purchasable(sampled[i'].toSell[j'], capital) &&
           Earlier(i', j', best.cell, best.unit)) ==>
          RoiAt(sampled, i', j', rentIndex, profitMargin, roiDraw) > bestRoi
      {
        var forSale := sampled[i].toSell;
        var j := 0;
        while j < |forSale|
          invariant 0 <= j <= |forSale|
          invariant best.NoChoice? ==> forall i', j' ::
            (0 <= i' < |sampled| && 0 <= j' < |sampled[i'].toSell| && Earlier(i', j', i, j)) ==>
            !Purchasable(sampled[i'].toSell[j'], capital)
          invariant best.Chosen? ==> (Earlier(best.cell, best.unit, i, j) &&
                                    best.cell < |sampled| && best.unit < |sampled[best.cell].toSell| &&
                                    Purchasable(sampled[best.cell].toSell[best.unit], capital) &&
                                    bestRoi == RoiAt(sampled, best.cell, best.unit, rentIndex, profitMargin, roiDraw))
          invariant best.Chosen? ==> forall i', j' ::
            (0 <= i' < |sampled| && 0 <= j' < |sampled[i'].toSell| && Purchasable(sampled[i'].toSell[j'], capital) &&
             Earlier(i', j', i, j)) ==>
            RoiAt(sampled, i', j', rentIndex, profitMargin, roiDraw) >= bestRoi
          invariant best.Chosen? ==> forall i', j' ::
            (0 <= i' < |sampled| && 0 <= j' < |sampled[i'].toSell| && Purchasable(sampled[i'].toSell[j'], capital) &&
             Earlier(i', j', best.cell, best.unit)) ==>
            RoiAt(sampled, i', j', rentIndex, profitMargin, roiDraw) > bestRoi
        {
          var apt := forSale[j];
          if apt.price <= capital {
            var roi := Roi(apt.price, apt.freshness, roiDraw(i, j), rentIndex, profitMargin);
            if (best.NoChoice? || roi < bestRoi) && !(apt.owner is GovDeveloper) {
              best := Chosen(i, j);
              bestRoi := roi;
            }
          }
          j := j + 1;
        }
        i := i + 1;
      }
    }

    /**
     * `buy_property`: takes the best offer of the sampled cells (see FindBestOffer) and, if
     * there is one, lists it for rent in its cell and takes it over: the capital pays its full
     * buying cost, the unit is renovated and priced at the asking rent, and both its counters
     * restart. Only an ownerless unit can be taken over: any owner left (a government developer
     * is excluded by the search) has no `sell_house`, so the purchase stops with an exception
     * right after the listing. `costDraw` and `freshDraw` are the draws behind the cost paid
     * and the renovation.
     */
    method BuyProperty(sampled: seq<Cell>, market: Market, roiDraw: (nat, nat) -> Unit,
                       costDraw: Unit, freshDraw: Unit) returns (outcome: Purchase, offer: Choice)
      requires Valid()
      requires market.Valid()
      requires MonthlyRent(market.RentIndex(), profitMargin) > 0.0
      modifies this`capital, this`ownedProperties, this`aptsToRentCount, market.allCells`toRent
      modifies Offered(sampled)`owner, Offered(sampled)`tenant, Offered(sampled)`freshness
      modifies Offered(sampled)`rent, Offered(sampled)`timeRented, Offered(sampled)`timeAtMarket
      ensures Valid()
      ensures old(IsBestOffer(sampled, capital, market.RentIndex(), profitMargin, roiDraw, offer))
      ensures outcome.NoOffer? <==> offer.NoChoice?
      ensures !outcome.NotAttempted?
      ensures offer.NoChoice? ==>
        capital == old(capital) && ownedProperties == old(ownedProperties) && aptsToRentCount == old(aptsToRentCount)
      ensures offer.Chosen? ==> (!outcome.NoOffer? && offer.cell < |sampled| && offer.unit < |sampled[offer.cell].toSell| &&
                               outcome.apt == sampled[offer.cell].toSell[offer.unit])
      // the unit taken, if any, is appended to its cell's rent listing, and no other listing changes
      ensures forall c :: c in market.allCells ==>
        c.toRent == if (outcome.Bought? || outcome.Aborted?) && c == market.cellAt(outcome.apt.position)
                    then old(c.toRent) + [outcome.apt] else old(c.toRent)
      ensures outcome.Aborted? ==> (old(outcome.apt.owner) != null && capital == old(capital) &&
                                    ownedProperties == old(ownedProperties) && aptsToRentCount == old(aptsToRentCount))
      ensures outcome.Bought? ==> var a := outcome.apt;
        old(a.owner) == null && a.owner == this && a.tenant == null && a.occupied == old(a.occupied) &&
        a.timeRented == 0 && a.timeAtMarket == 0 && a.freshness == Renovated(freshDraw) &&
        a.rent == MonthlyRent(market.RentIndex(), profitMargin) &&
        ownedProperties == old(ownedProperties) + [a] && aptsToRentCount == old(aptsToRentCount) + 1 &&
        capital == old(capital) - FullBuyCost(old(a.price), old(a.freshness), costDraw)
      ensures forall a: Apartment :: old(allocated(a)) && !(outcome.Bought? && a == outcome.apt) ==>
        HoldingOf(a) == old(HoldingOf(a)) && a.owner == old(a.owner) && a.tenant == old(a.tenant)
    {
      offer := FindBestOffer(sampled, market, roiDraw);
      if offer.NoChoice? {
        outcome := NoOffer;
        return;
      }
      var apt := sampled[offer.cell].toSell[offer.unit];
      var cell := market.cellAt(apt.position);
      cell.toRent := cell.toRent + [apt];
      if apt.owner != null {
        outcome := Aborted(apt);
        return;
      }
      capital := capital - FullBuyCost(apt.price, apt.freshness, costDraw);
      TakeOver(apt, market, freshDraw);
      outcome := Bought(apt);
    }

    /**
     * The takeover of an ownerless unit just paid for: it joins the units held, owned by this
     * landlord, without a tenant, renovated, priced at the asking rent and with both counters
     * restarted, and one more unit waits for a tenant.
     */
    method TakeOver(apt: Apartment, market: Market, freshDraw: Unit)
      requires Valid() && apt.owner == null
      modifies this`ownedProperties, this`aptsToRentCount
      modifies apt`owner, apt`tenant, apt`freshness, apt`rent, apt`timeRented, apt`timeAtMarket
      ensures Valid()
      ensures apt.owner == this && apt.tenant == null && apt.timeRented == 0 && apt.timeAtMarket == 0
      ensures apt.freshness == Renovated(freshDraw) && apt.rent == MonthlyRent(market.RentIndex(), profitMargin)
      ensures ownedProperties == old(ownedProperties) + [apt] && aptsToRentCount == old(aptsToRentCount) + 1
    {
      DistinctAppend<Apartment>(ownedProperties, apt);
      ownedProperties := ownedProperties + [apt];
      apt.owner := this;
      apt.tenant := null;
      apt.ResetFreshness(freshDraw);
      apt.rent := MonthlyRent(market.RentIndex(), profitMargin);
      apt.timeRented := 0;
      apt.timeAtMarket := 0;
      aptsToRentCount := aptsToRentCount + 1;
    }

    /** One month of management of one unit: see `Managed` and `CashFlow`. */
    method ManageRentalHouse(apt: Apartment, market: Market, d: RentalDraws)
      modifies apt`timeRented, apt`rent, apt`timeAtMarket, apt`freshness, this`capital
      ensures HoldingOf(apt) == Managed(old(HoldingOf(apt)), market.RentIndex(), d)
      ensures capital == old(capital) + CashFlow(old(HoldingOf(apt)), d)
    {
      if apt.occupied {
        apt.timeRented := apt.timeRented + 1;
        capital := capital + apt.rent;
        if apt.timeRented % 12 == 0 && d.raise < 0.5 {
          apt.rent := apt.rent * Normal(1.05, 0.02, d.growth);
          var avgRent := market.RentIndex();
          apt.rent := if apt.rent >= avgRent then apt.rent else avgRent;
        }
      } else {
        capital := capital - apt.bills;
        apt.timeAtMarket := apt.timeAtMarket + 1;
        if apt.timeAtMarket > 2 {
          apt.rent := apt.rent * 0.975;
          if apt.freshness < 0.4 {
            capital := capital - RenovationCost(apt.freshness, d.renovation);
            apt.ResetFreshness(d.refresh);
          }
        }
      }
    }

    /** Manages every owned unit in order, the k-th with draws `draws(k)`. */
    method ManageProperties(market: Market, draws: nat -> RentalDraws)
      requires Valid()
      modifies this`capital, ownedProperties`timeRented, ownedProperties`rent
      modifies ownedProperties`timeAtMarket, ownedProperties`freshness
      ensures Valid()
      ensures forall k :: 0 <= k < |ownedProperties| ==>
        HoldingOf(ownedProperties[k]) == Managed(old(HoldingOf(ownedProperties[k])), market.RentIndex(), draws(k))
      ensures capital == old(capital) + TotalCash(old(Holdings(ownedProperties)), draws)
    {
      var units := ownedProperties;
      ghost var before := Holdings(units);
      ghost var rentIndex := market.RentIndex();
      var i := 0;
      while i < |units|
        invariant 0 <= i <= |units| && ownedProperties == units
        invariant forall k :: 0 <= k < |units| ==>
          HoldingOf(units[k]) == if k < i then Managed(before[k], rentIndex, draws(k)) else before[k]
        invariant capital == old(capital) + TotalCash(before[..i], draws)
      {
        assert before[..i + 1][..i] == before[..i];
        var apt := units[i];
        label unmanaged:
        ManageRentalHouse(apt, market, draws(i));
        forall k | 0 <= k < |units| && k != i
          ensures HoldingOf(units[k]) == old@unmanaged(HoldingOf(units[k]))
        {
          DistinctAt(units, k, i);
        }
        i := i + 1;
      }
      assert before[..i] == before;
    }

    /**
     * A tenant takes the unit: it is marked occupied and owned by the landlord. A unit listed for
     * rent in its cell is then taken off the listing, gets fresh counters, its rent is cashed in
     * and recorded in the market's rent series, and one unit fewer is waiting for a tenant
     * (`listed`). For an unlisted unit the warning's message reads `apartment.index`, which a unit
     * does not have, so the call raises right after the first two changes.
     */
    method RentHouse(apt: Apartment, market: Market) returns (listed: bool)
      requires market.Valid()
      modifies apt`owner, apt`occupied, apt`timeRented, apt`timeAtMarket
      modifies this`capital, this`aptsToRentCount, market`recentRentPrices, market.cellAt(apt.position)`toRent
      ensures listed == (apt in old(market.cellAt(apt.position).toRent))
      ensures apt.owner == this && apt.occupied
      ensures listed ==>
        market.cellAt(apt.position).toRent == RemoveFirst(old(market.cellAt(apt.position).toRent), apt) &&
        apt.timeRented == 0 && apt.timeAtMarket == 0 &&
        capital == old(capital) + apt.rent && aptsToRentCount == old(aptsToRentCount) - 1 &&
        market.recentRentPrices == old(market.recentRentPrices) + [apt.rent]
      ensures !listed ==>
        market.cellAt(apt.position).toRent == old(market.cellAt(apt.position).toRent) &&
        apt.timeRented == old(apt.timeRented) && apt.timeAtMarket == old(apt.timeAtMarket) &&
        capital == old(capital) && aptsToRentCount == old(aptsToRentCount) &&
        market.recentRentPrices == old(market.recentRentPrices)
    {
      apt.owner := this;
      apt.occupied := true;
      var cell := market.cellAt(apt.position);
      if apt !in cell.toRent {
        return false;
      }
      cell.toRent := RemoveFirst(cell.toRent, apt);
      apt.timeRented := 0;
      apt.timeAtMarket := 0;
      capital := capital + apt.rent;
      aptsToRentCount := aptsToRentCount - 1;
      market.recentRentPrices := market.recentRentPrices + [apt.rent];
      listed := true;
    }

    /**
     * The tenant has left: the unit is vacant and tenantless with fresh counters, and one more
     * unit waits for a tenant. A unit not yet listed for rent in its cell is listed and priced at
     * the asking rent (`relisted`). For a unit already listed the warning's message reads
     * `apartment.index`, which a unit does not have, so the call raises before the repricing and
     * the old rent stays.
     */
    method TenantMovedOut(apt: Apartment, market: Market) returns (relisted: bool)
      requires market.Valid()
      modifies apt`owner, apt`occupied, apt`tenant, apt`timeAtMarket, apt`timeRented, apt`rent
      modifies this`aptsToRentCount, market.cellAt(apt.position)`toRent
      ensures relisted == (apt !in old(market.cellAt(apt.position).toRent))
      ensures apt.owner == this && !apt.occupied && apt.tenant == null
      ensures apt.timeAtMarket == 0 && apt.timeRented == 0
      ensures aptsToRentCount == old(aptsToRentCount) + 1
      ensures relisted ==>
        market.cellAt(apt.position).toRent == old(market.cellAt(apt.position).toRent) + [apt] &&
        apt.rent == MonthlyRent(market.RentIndex(), profitMargin)
      ensures !relisted ==>
        market.cellAt(apt.position).toRent == old(market.cellAt(apt.position).toRent) && apt.rent == old(apt.rent)
    {
      apt.owner := this;
      apt.occupied := false;
      apt.tenant := null;
      apt.timeAtMarket := 0;
      apt.timeRented := 0;
      aptsToRentCount := aptsToRentCount + 1;
      var cell := market.cellAt(apt.position);
      if apt in cell.toRent {
        return false;
      }
      cell.toRent := cell.toRent + [apt];
      apt.rent := MonthlyRent(market.RentIndex(), profitMargin);
      relisted := true;
    }

    /**
     * The purchase half of a tick: when the capital exceeds the build cost, the gate draw is
     * below 0.7 and fewer than 5 units wait for tenants, a purchase of the best offer is tried
     * (`BuyProperty`); otherwise nothing changes. Either way, the rent listings change at most
     * by the unit taken, and units already held keep their state unless the purchase takes one
     * of them over.
     */
    method TryPurchase(market: Market, buyDraw: Unit, sampled: seq<Cell>, roiDraw: (nat, nat) -> Unit,
                       costDraw: Unit, freshDraw: Unit) returns (outcome: Purchase, offer: Choice)
      requires Valid()
      requires market.Valid()
      requires MonthlyRent(market.RentIndex(), profitMargin) > 0.0
      modifies this`capital, this`ownedProperties, this`aptsToRentCount, market.allCells`toRent
      modifies Offered(sampled)`owner, Offered(sampled)`tenant, Offered(sampled)`freshness
      modifies Offered(sampled)`rent, Offered(sampled)`timeRented, Offered(sampled)`timeAtMarket
      ensures Valid()
      ensures !outcome.NotAttempted? <==> BuysNow(old(capital), buyDraw, old(aptsToRentCount))
      ensures outcome.NotAttempted? ==>
        offer.NoChoice? &&
        capital == old(capital) && ownedProperties == old(ownedProperties) && aptsToRentCount == old(aptsToRentCount)
      ensures !outcome.NotAttempted? ==>
        old(IsBestOffer(sampled, capital, market.RentIndex(), profitMargin, roiDraw, offer)) &&
        (outcome.NoOffer? <==> offer.NoChoice?)
      ensures offer.Chosen? ==>
        (outcome.Bought? || outcome.Aborted?) && offer.cell < |sampled| && offer.unit < |sampled[offer.cell].toSell| &&
        outcome.apt == sampled[offer.cell].toSell[offer.unit]
      ensures forall c :: c in market.allCells ==>
        c.toRent == if (outcome.Bought? || outcome.Aborted?) && c == market.cellAt(outcome.apt.position)
                    then old(c.toRent) + [outcome.apt] else old(c.toRent)
      ensures outcome.Bought? ==> (ownedProperties == old(ownedProperties) + [outcome.apt] &&
                                   aptsToRentCount == old(aptsToRentCount) + 1 && outcome.apt.owner == this)
      ensures forall k :: 0 <= k < |old(ownedProperties)| && !(outcome.Bought? && outcome.apt == old(ownedProperties)[k]) ==>
        HoldingOf(old(ownedProperties)[k]) == old(HoldingOf(ownedProperties[k]))
    {
      if BuysNow(capital, buyDraw, aptsToRentCount) {
        outcome, offer := BuyProperty(sampled, market, roiDraw, costDraw, freshDraw);
      } else {
        outcome, offer := NotAttempted, NoChoice;
      }
    }

    /**
     * One tick: every owned unit is managed; then, when the capital exceeds the build cost,
     * the gate draw is below 0.7 and fewer than 5 units wait for tenants, a purchase of the
     * best offer is tried (`TryPurchase`), judged on the capital and the units as management
     * has left them. (The liquidation branch of the source is switched off and is not part of
     * the step.)
     */
    method Step(market: Market, draws: nat -> RentalDraws, buyDraw: Unit, sampled: seq<Cell>,
                roiDraw: (nat, nat) -> Unit, costDraw: Unit, freshDraw: Unit) returns (outcome: Purchase, offer: Choice)
      requires Valid()
      requires market.Valid()
      requires MonthlyRent(market.RentIndex(), profitMargin) > 0.0
      modifies this`capital, this`ownedProperties, this`aptsToRentCount, market.allCells`toRent
      modifies ownedProperties`timeRented, ownedProperties`rent, ownedProperties`timeAtMarket, ownedProperties`freshness
      modifies Offered(sampled)`owner, Offered(sampled)`tenant, Offered(sampled)`freshness
      modifies Offered(sampled)`rent, Offered(sampled)`timeRented, Offered(sampled)`timeAtMarket
      ensures Valid()
      ensures !outcome.NotAttempted? <==>
        BuysNow(old(capital) + TotalCash(old(Holdings(ownedProperties)), draws), buyDraw, old(aptsToRentCount))
      ensures outcome.NotAttempted? ==>
        offer.NoChoice? &&
        capital == old(capital) + TotalCash(old(Holdings(ownedProperties)), draws) &&
        ownedProperties == old(ownedProperties) && aptsToRentCount == old(aptsToRentCount)
      ensures !outcome.NotAttempted? ==> (outcome.NoOffer? <==> offer.NoChoice?)
      ensures offer.Chosen? ==>
        (outcome.Bought? || outcome.Aborted?) && offer.cell < |sampled| && offer.unit < |sampled[offer.cell].toSell| &&
        outcome.apt == sampled[offer.cell].toSell[offer.unit]
      ensures forall c :: c in market.allCells ==>
        c.toRent == if (outcome.Bought? || outcome.Aborted?) && c == market.cellAt(outcome.apt.position)
                    then old(c.toRent) + [outcome.apt] else old(c.toRent)
      ensures outcome.Bought? ==> (ownedProperties == old(ownedProperties) + [outcome.apt] &&
                                   aptsToRentCount == old(aptsToRentCount) + 1 && outcome.apt.owner == this)
      ensures forall k :: 0 <= k < |old(ownedProperties)| && !(outcome.Bought? && outcome.apt == old(ownedProperties)[k]) ==>
        HoldingOf(old(ownedProperties)[k]) ==
          Managed(old(HoldingOf(ownedProperties[k])), market.RentIndex(), draws(k))
    {
      ghost var cash := TotalCash(Holdings(ownedProperties), draws);
      ManageProperties(market, draws);
      label managed:
      ghost var rentIndex := market.RentIndex();
      ghost var buys := BuysNow(capital, buyDraw, aptsToRentCount);
      assert capital == old(capital) + cash;
      outcome, offer := TryPurchase(market, buyDraw, sampled, roiDraw, costDraw, freshDraw);
      assert !outcome.NotAttempted? <==> buys;
      assert market.RentIndex() == rentIndex;
      forall k | 0 <= k < |old(ownedProperties)| && !(outcome.Bought? && outcome.apt == old(ownedProperties)[k])
        ensures HoldingOf(old(ownedProperties)[k]) == Managed(old(HoldingOf(ownedProperties[k])), rentIndex, draws(k))
      {
        assert HoldingOf(old(ownedProperties)[k]) == old@managed(HoldingOf(ownedProperties[k]));
      }
    }
  }
}
