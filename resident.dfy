/**
 * A resident (`resident_agent.py`): rents or buys a home among the units listed around it,
 * keeps track of how happy it is there, and moves or gives the home up as its step decides.
 */
module Residents {
  import opened Wrappers
  import opened Constants
  import opened Draws
  import opened Lists
  import opened Apartments
  import opened Cells
  import opened Markets
  import opened GovDevelopers
  import opened Landlords
  import opened RentalRules
  import opened Happiness

  /**
   * How `assign_apartment` ended. All but `Moved` are exceptions that stop the simulation:
   * the home to give up is missing from its cell (`list.remove`), the unit to buy has no
   * owner that sells (`sell_house`), the unit to rent has no owner that lets (`rent_house`),
   * or the unit to rent is not on its cell's rent listing (the warning of `rent_house` reads an
   * attribute `index` that a unit does not have).
   */
  datatype Assignment = Moved | NotInCell | NoSeller | NoLandlord | NotListed

  /** Which listing a search reads and which of its units it considers. */
  datatype Lookup =
    | RentOnly  // `find_apt_to_rent`: rentals costing strictly less than the income
    | Rent      // `find_apt_to_rent_or_buy`: rentals costing at most the income
    | Buy       // `find_apt_to_rent_or_buy`: units for sale whose monthly mortgage fits the income

  function Listing(kind: Lookup, c: Cell): seq<Apartment>
    reads c
  {
    if kind == Buy then c.toSell else c.toRent
  }

  /** The score a search gives a listed unit, or nothing when it passes the unit over. */
  function Entry(kind: Lookup, a: Apartment, income: real, unitDraw: Unit): Option<real>
    requires income != 0.0
    reads a
  {
    if unitDraw < 0.2 then None
    else
      match kind
      case RentOnly =>
        if a.FullCost() < income then Some(Affordability(a.FullCost(), a.freshness, income)) else None
      case Rent =>
        if a.FullCost() > income then None else Some(Affordability(a.FullCost(), a.freshness, income))
      case Buy =>
        if income < a.price * MortgageMonthlyFactor then None else Some(Affordability(a.bills, a.freshness, income))
  }

  /** What a search sees of the `i`-th cell's listing; nothing at all in a cell it skips. */
  function Row(kind: Lookup, units: seq<Apartment>, i: nat, income: real, searched: bool,
               unitDraw: (nat, nat) -> Unit): (r: seq<Option<real>>)
    requires income != 0.0
    reads units
    ensures |r| == |units|
  {
    if units == [] then []
    else
      var last := |units| - 1;
      Row(kind, units[..last], i, income, searched, unitDraw) +
        [if searched then Entry(kind, units[last], income, unitDraw(i, last)) else None]
  }

  /** The `j`-th unit of a visited cell is seen with its own score; in a skipped cell, nothing. */
  lemma {:induction false} RowAt(kind: Lookup, units: seq<Apartment>, i: nat, income: real, searched: bool,
                                 unitDraw: (nat, nat) -> Unit, j: nat)
    requires income != 0.0 && j < |units|
    ensures Row(kind, units, i, income, searched, unitDraw)[j] ==
      if searched then Entry(kind, units[j], income, unitDraw(i, j)) else None
  {
    var last := |units| - 1;
    if j < last {
      RowAt(kind, units[..last], i, income, searched, unitDraw, j);
    }
  }

  /** What a search sees of the listings of the cells it visits, cell by cell. */
  function Sighted(kind: Lookup, cells: seq<Cell>, income: real, searched: nat -> bool,
                   unitDraw: (nat, nat) -> Unit): (g: Grid)
    requires income != 0.0
    reads cells, Listed(cells)
    ensures |g| == |cells|
  {
    if cells == [] then []
    else
      var last := |cells| - 1;
      ListedPrefix(cells, last);
      assert forall j :: 0 <= j < |Listing(kind, cells[last])| ==> Listing(kind, cells[last])[j] in Listed(cells);
      Sighted(kind, cells[..last], income, searched, unitDraw) +
        [Row(kind, Listing(kind, cells[last]), last, income, searched(last), unitDraw)]
  }

  /** The `i`-th row of what a search sees is what it sees of the `i`-th cell's listing. */
  lemma {:induction false} SightedAt(kind: Lookup, cells: seq<Cell>, income: real, searched: nat -> bool,
                                     unitDraw: (nat, nat) -> Unit, i: nat)
    requires income != 0.0 && i < |cells|
    ensures Sighted(kind, cells, income, searched, unitDraw)[i] ==
      Row(kind, Listing(kind, cells[i]), i, income, searched(i), unitDraw)
  {
    var last := |cells| - 1;
    if i < last {
      SightedAt(kind, cells[..last], income, searched, unitDraw, i);
      assert cells[..last][i] == cells[i];
    }
  }

  /** Row by row, what a search sees. */
  lemma SightedRows(kind: Lookup, cells: seq<Cell>, income: real, searched: nat -> bool, unitDraw: (nat, nat) -> Unit)
    requires income != 0.0
    ensures var g := Sighted(kind, cells, income, searched, unitDraw);
      forall k :: 0 <= k < |cells| ==> g[k] == Row(kind, Listing(kind, cells[k]), k, income, searched(k), unitDraw)
  {
    forall k | 0 <= k < |cells|
      ensures Sighted(kind, cells, income, searched, unitDraw)[k] ==
        Row(kind, Listing(kind, cells[k]), k, income, searched(k), unitDraw)
    {
      SightedAt(kind, cells, income, searched, unitDraw, k);
    }
  }

  /** `find_apt_to_rent_or_buy` skips a cell when its draw falls below 0.1. */
  function Searched(cellDraw: nat -> Unit): nat -> bool
  {
    (i: nat) => cellDraw(i) >= 0.1
  }

  /** `find_apt_to_rent` searches every cell. */
  function EveryCell(): nat -> bool
  {
    (i: nat) => true
  }

  /** A rental the rent-or-buy search considers leaves a non-negative score. */
  lemma ConsideredRentalAffordable(a: Apartment, income: real, unitDraw: Unit)
    requires income > 0.0 && a.freshness > 0.0
    requires Entry(Rent, a, income, unitDraw).Some?
    ensures Entry(Rent, a, income, unitDraw).value >= 0.0
  {
    AffordabilitySign(a.FullCost(), a.freshness, income);
  }

  /**
   * The unit a search settles on is a listed unit of a cell it searched, and its score is that
   * unit's own score.
   */
  lemma SightedPick(kind: Lookup, cells: seq<Cell>, income: real, searched: nat -> bool, unitDraw: (nat, nat) -> Unit)
    requires income != 0.0
    ensures var best := FirstBest(Sighted(kind, cells, income, searched, unitDraw));
      best.Some? ==>
        var p := best.value;
        p.cell < |cells| && p.unit < |Listing(kind, cells[p.cell])| && searched(p.cell) &&
        Entry(kind, Listing(kind, cells[p.cell])[p.unit], income, unitDraw(p.cell, p.unit)) == Some(p.score)
  {
    var g := Sighted(kind, cells, income, searched, unitDraw);
    FirstBestIsFirstBest(g);
    var best := FirstBest(g);
    if best.Some? {
      var p := best.value;
      SightedAt(kind, cells, income, searched, unitDraw, p.cell);
      RowAt(kind, Listing(kind, cells[p.cell]), p.cell, income, searched(p.cell), unitDraw, p.unit);
    }
  }

  /** Every unit listed for rent or for sale in the given cells. */
  function Listed(cells: seq<Cell>): set<Apartment>
    reads cells
  {
    (set i, j | 0 <= i < |cells| && 0 <= j < |cells[i].toRent| :: cells[i].toRent[j]) +
    (set i, j | 0 <= i < |cells| && 0 <= j < |cells[i].toSell| :: cells[i].toSell[j])
  }
  /** Each unit of a cell's listings is among the listed units. */
  lemma ListedAt(cells: seq<Cell>, i: nat, j: nat)
    requires i < |cells|
    ensures j < |cells[i].toRent| ==> cells[i].toRent[j] in Listed(cells)
    ensures j < |cells[i].toSell| ==> cells[i].toSell[j] in Listed(cells)
  {
  }

  /** The units listed in the first `k` cells are among those listed in all of them. */
  lemma ListedPrefix(cells: seq<Cell>, k: nat)
    requires k <= |cells|
    ensures Listed(cells[..k]) <= Listed(cells)
  {
    forall a | a in Listed(cells[..k])
      ensures a in Listed(cells)
    {
      var i, j :| 0 <= i < k &&
        ((0 <= j < |cells[i].toRent| && cells[i].toRent[j] == a) || (0 <= j < |cells[i].toSell| && cells[i].toSell[j] == a));
    }
  }


  /** The landlord owning `a`, if a landlord owns it. */
  function LandlordOf(a: Apartment?): set<LandlordAgent>
    reads a
  {
    if a != null && a.owner is LandlordAgent then {a.owner as LandlordAgent} else {}
  }

  /** The government developer owning `a`, if one owns it. */
  function DeveloperOf(a: Apartment?): set<GovDeveloper>
    reads a
  {
    if a != null && a.owner is GovDeveloper then {a.owner as GovDeveloper} else {}
  }

  /** The landlords owning some of the given units. */
  function LandlordsOf(units: set<Apartment>): set<LandlordAgent>
    reads units
  {
    set a | a in units && a.owner is LandlordAgent :: a.owner as LandlordAgent
  }

  /** The government developers owning some of the given units. */
  function DevelopersOf(units: set<Apartment>): set<GovDeveloper>
    reads units
  {
    set a | a in units && a.owner is GovDeveloper :: a.owner as GovDeveloper
  }

  /** The cell where `a` stands, if there is a unit. */
  function CellOf(market: Market, a: Apartment?): set<Cell>
  {
    if a == null then {} else {market.cellAt(a.position)}
  }

  /** The units among `a`, `b` and `c` that exist. */
  function Units(a: Apartment?, b: Apartment?, c: Apartment?): set<Apartment>
  {
    (if a == null then {} else {a}) + (if b == null then {} else {b}) + (if c == null then {} else {c})
  }

  /**
   * Listings that keep their sale units and at most take `home` back on rent still list only
   * units among `units`, as long as `home` is one of them.
   */
  twostate lemma ListedAfterRelisting(cells: seq<Cell>, new home: Apartment, new units: set<Apartment>)
    requires old(Listed(cells)) <= units && home in units
    requires forall c :: c in cells ==>
      c.toSell == old(c.toSell) && (c.toRent == old(c.toRent) || c.toRent == Relisted(old(c.toRent), home))
    ensures Listed(cells) <= units
  {
    forall a | a in Listed(cells)
      ensures a in units
    {
      var i, j :| 0 <= i < |cells| &&
        ((0 <= j < |cells[i].toRent| && cells[i].toRent[j] == a) || (0 <= j < |cells[i].toSell| && cells[i].toSell[j] == a));
      if 0 <= j < |cells[i].toSell| && cells[i].toSell[j] == a {
        assert old(cells[i].toSell[j]) == a;
      } else if a != home {
        assert a in old(cells[i].toRent);
        var k :| 0 <= k < old(|cells[i].toRent|) && old(cells[i].toRent[k]) == a;
        assert old(cells[i].toRent[k] in Listed(cells));
      }
    }
  }

  /** Every unit among `units` that a landlord or a developer owns has that owner in `landlords` or `developers`. */
  ghost predicate OwnersWithin(units: set<Apartment>, landlords: set<LandlordAgent>, developers: set<GovDeveloper>)
    reads units
  {
    forall a :: a in units ==> LandlordOf(a) <= landlords && DeveloperOf(a) <= developers
  }

  class ResidentAgent {
    /** The share of the income spent on housing. */
    const income: real
    var rentedApartment: Apartment?
    var timeAptRented: int
    var ownedApartment: Apartment?
    var timeAptOwned: int
    const baseSearchingRadius: int
    var searchingRadius: int
    var happinessFactor: real

    /** A resident rents or owns at most one home. */
    ghost predicate Valid()
      reads this
    {
      rentedApartment == null || ownedApartment == null
    }

    constructor (income: real, searchingRadius: int := 2)
      ensures this.income == income * 0.6
      ensures rentedApartment == null && ownedApartment == null && timeAptRented == 0 && timeAptOwned == 0
      ensures baseSearchingRadius == searchingRadius && this.searchingRadius == searchingRadius
      ensures happinessFactor == 0.0
      ensures Valid()
    {
      this.income := income * 0.6;
      rentedApartment := null;
      timeAptRented := 0;
      ownedApartment := null;
      timeAptOwned := 0;
      baseSearchingRadius := searchingRadius;
      this.searchingRadius := searchingRadius;
      happinessFactor := 0.0;
    }

    /** The home as happiness sees it; a rented unit counts before an owned one. */
    function CurrentHome(): (h: Home)
      reads this`rentedApartment, this`ownedApartment, rentedApartment
      ensures h.Renting? <==> rentedApartment != null
      ensures h.Owning? <==> rentedApartment == null && ownedApartment != null
    {
      if rentedApartment != null then Renting(rentedApartment.FullCost(), rentedApartment.freshness)
      else if ownedApartment != null then Owning
      else Homeless
    }

    /** The resident's status at the start of a month. */
    function CurrentStatus(): (s: Status)
      reads this, rentedApartment
      ensures s.NoHome? <==> rentedApartment == null && ownedApartment == null
    {
      if rentedApartment != null then Tenant(timeAptRented, rentedApartment.FullCost())
      else if ownedApartment != null then Owner(timeAptOwned)
      else NoHome
    }

    /** `update_happiness`. */
    method UpdateHappiness()
      requires income != 0.0
      modifies this`happinessFactor
      ensures happinessFactor == HappinessOf(CurrentHome(), income)
    {
      if rentedApartment != null {
        var temp := Affordability(rentedApartment.FullCost(), rentedApartment.freshness, income);
        var h := if temp > 0.0 then Log(temp) + 1.0 else 0.0;
        happinessFactor := if h >= 0.0 then h else 0.0;
        return;
      }
      if ownedApartment != null {
        happinessFactor := 1.0;
        return;
      }
      happinessFactor := -1.0;
    }

    /**
     * First step of `assign_apartment` for an owner-occupier: the home is taken out of its
     * cell's apartment list and left deleted, ownerless, empty and without tenant. When the home
     * is missing from that list, `list.remove` raises and nothing has changed (`ok` false).
     */
    method GiveUpOwned(market: Market) returns (ok: bool)
      requires market.Valid() && ownedApartment != null
      modifies market.cellAt(ownedApartment.position)`apartments
      modifies ownedApartment`owner, ownedApartment`deleted, ownedApartment`occupied, ownedApartment`tenant
      ensures old(market.cellAt(ownedApartment.position).Valid()) ==> market.cellAt(ownedApartment.position).Valid()
      ensures var a := ownedApartment; var cell := market.cellAt(a.position);
        ok == (a in old(cell.apartments)) &&
        (ok ==> cell.apartments == RemoveFirst<Apartment>(old(cell.apartments), a) &&
                a.owner == null && a.deleted && !a.occupied && a.tenant == null) &&
        (!ok ==> cell.apartments == old(cell.apartments) && a.owner == old(a.owner) &&
                 a.deleted == old(a.deleted) && a.occupied == old(a.occupied) && a.tenant == old(a.tenant))
    {
      var home := ownedApartment;
      var cell := market.cellAt(home.position);
      if home !in cell.apartments {
        return false;
      }
      if cell.Valid() {
        RemoveFirstDistinct<Apartment>(cell.apartments, home);
      }
      cell.apartments := RemoveFirst<Apartment>(cell.apartments, home);
      home.owner := null;
      home.deleted := true;
      home.occupied := false;
      home.tenant := null;
      ok := true;
    }

    /**
     * Second step of `assign_apartment` for a tenant: the rented unit is left vacant with both
     * counters at zero, and its owner is told. A landlord owner relists it and reprices it
     * (see `TenantMovedOut`); when the unit is still listed, the landlord's call raises before
     * the repricing, and the raise is swallowed. Any other owner has no `tenant_moved_out`, and
     * that failure is swallowed too.
     */
    method LeaveRental(market: Market)
      requires market.Valid() && rentedApartment != null
      modifies rentedApartment`tenant, rentedApartment`occupied, rentedApartment`timeAtMarket
      modifies rentedApartment`timeRented, rentedApartment`owner, rentedApartment`rent
      modifies LandlordOf(rentedApartment)`aptsToRentCount, market.cellAt(rentedApartment.position)`toRent
      ensures var a := rentedApartment;
        a.tenant == null && !a.occupied && a.timeAtMarket == 0 && a.timeRented == 0 && a.owner == old(a.owner)
      ensures var a := rentedApartment; var cell := market.cellAt(a.position);
        if old(a.owner) is LandlordAgent then
          var landlord := old(a.owner) as LandlordAgent;
          landlord.aptsToRentCount == old(landlord.aptsToRentCount) + 1 &&
          if a in old(cell.toRent) then a.rent == old(a.rent) && cell.toRent == old(cell.toRent)
          else a.rent == MonthlyRent(market.RentIndex(), landlord.profitMargin) && cell.toRent == old(cell.toRent) + [a]
        else
          a.rent == old(a.rent) && cell.toRent == old(cell.toRent)
    {
      var home := rentedApartment;
      home.tenant := null;
      home.occupied := false;
      home.timeAtMarket := 0;
      home.timeRented := 0;
      if home.owner is LandlordAgent {
        var landlord := home.owner as LandlordAgent;
        var relisted := landlord.TenantMovedOut(home, market);
      }
    }

    /**
     * Buying in `assign_apartment`: the government developer owning the unit sells it
     * (`sell_house`), and the unit then belongs to the resident, occupied, with both counters
     * at zero. Any other owner has no `sell_house`: the call raises and nothing changes.
     */
    method BuyHome(apartment: Apartment, market: Market) returns (sold: bool)
      requires market.Valid()
      modifies this`ownedApartment, apartment`owner, apartment`occupied, apartment`timeAtMarket, apartment`timeRented
      modifies DeveloperOf(apartment)`ownedProperties, market`recentSellPrices, market.cellAt(apartment.position)`toSell
      ensures sold <==> old(apartment.owner) is GovDeveloper
      ensures !sold ==> unchanged(this) && unchanged(apartment) && unchanged(market) && unchanged(market.cellAt(apartment.position))
      ensures sold ==>
        ownedApartment == apartment && apartment.owner == this && apartment.occupied &&
        apartment.timeAtMarket == 0 && apartment.timeRented == 0
      ensures sold ==> var developer := old(apartment.owner) as GovDeveloper; var cell := market.cellAt(apartment.position);
        developer.ownedProperties == Delisted(old(developer.ownedProperties), apartment) &&
        cell.toSell == Delisted(old(cell.toSell), apartment) &&
        market.recentSellPrices == old(market.recentSellPrices) + [apartment.price]
    {
      if !(apartment.owner is GovDeveloper) {
        return false;
      }
      var developer := apartment.owner as GovDeveloper;
      developer.SellHouse(apartment, market);
      ownedApartment := apartment;
      apartment.occupied := true;
      apartment.timeAtMarket := 0;
      apartment.timeRented := 0;
      apartment.owner := this;
      sold := true;
    }

    /**
     * Renting in `assign_apartment`: the landlord owning the unit lets it (`rent_house`), and
     * the unit is then occupied with the resident as tenant. Any other owner has no
     * `rent_house`: the call raises and nothing changes. A unit missing from its cell's rent
     * listing makes `rent_house` raise after marking it occupied and owned by the landlord.
     */
    method RentHome(apartment: Apartment, market: Market) returns (outcome: Assignment)
      requires market.Valid()
      modifies this`rentedApartment, apartment`owner, apartment`occupied, apartment`tenant
      modifies apartment`timeAtMarket, apartment`timeRented
      modifies LandlordOf(apartment)`capital, LandlordOf(apartment)`aptsToRentCount
      modifies market`recentRentPrices, market.cellAt(apartment.position)`toRent
      ensures outcome == Moved || outcome == NoLandlord || outcome == NotListed
      ensures outcome == NoLandlord <==> !(old(apartment.owner) is LandlordAgent)
      ensures outcome == NotListed <==>
        old(apartment.owner) is LandlordAgent && apartment !in old(market.cellAt(apartment.position).toRent)
      ensures outcome == NoLandlord ==>
        unchanged(this) && unchanged(apartment) && unchanged(market) && unchanged(market.cellAt(apartment.position))
      ensures outcome == NotListed ==> var landlord := old(apartment.owner) as LandlordAgent;
        unchanged(this) && unchanged(market) && unchanged(market.cellAt(apartment.position)) &&
        apartment.owner == landlord && apartment.occupied && apartment.tenant == old(apartment.tenant) &&
        apartment.timeAtMarket == old(apartment.timeAtMarket) && apartment.timeRented == old(apartment.timeRented) &&
        landlord.capital == old(landlord.capital) && landlord.aptsToRentCount == old(landlord.aptsToRentCount)
      ensures outcome == Moved ==>
        rentedApartment == apartment && apartment.owner == old(apartment.owner) &&
        apartment.occupied && apartment.tenant == this && apartment.timeAtMarket == 0 && apartment.timeRented == 0
      ensures outcome == Moved ==> var landlord := old(apartment.owner) as LandlordAgent; var cell := market.cellAt(apartment.position);
        landlord.capital == old(landlord.capital) + apartment.rent &&
        landlord.aptsToRentCount == old(landlord.aptsToRentCount) - 1 &&
        cell.toRent == RemoveFirst(old(cell.toRent), apartment) &&
        market.recentRentPrices == old(market.recentRentPrices) + [apartment.rent]
    {
      if !(apartment.owner is LandlordAgent) {
        return NoLandlord;
      }
      var landlord := apartment.owner as LandlordAgent;
      var listed := landlord.RentHouse(apartment, market);
      if !listed {
        return NotListed;
      }
      rentedApartment := apartment;
      apartment.occupied := true;
      apartment.tenant := this;
      outcome := Moved;
    }

    /**
     * Steps one and two of `assign_apartment` with the reset that follows them: the owned home is
     * given up (`GiveUpOwned`), the rented one left (`LeaveRental`), and the resident is left
     * homeless with happiness -1. When the owned home is missing from its cell the removal
     * raises first, and nothing has changed (`ok` false).
     */
    method Vacate(market: Market) returns (ok: bool)
      requires market.Valid() && Valid()
      modifies this`rentedApartment, this`timeAptRented, this`ownedApartment, this`timeAptOwned, this`happinessFactor
      modifies market.allCells`apartments, market.allCells`toRent
      modifies Units(ownedApartment, rentedApartment, null)`owner, Units(ownedApartment, rentedApartment, null)`deleted
      modifies Units(ownedApartment, rentedApartment, null)`occupied, Units(ownedApartment, rentedApartment, null)`tenant
      modifies Units(ownedApartment, rentedApartment, null)`timeAtMarket, Units(ownedApartment, rentedApartment, null)`timeRented
      modifies Units(ownedApartment, rentedApartment, null)`rent, LandlordOf(rentedApartment)`aptsToRentCount
      ensures Valid()
      ensures forall c :: c in market.allCells && old(c.Valid()) ==> c.Valid()
      ensures var home := old(ownedApartment);
        ok == (home == null || home in old(market.cellAt(home.position).apartments))
      ensures !ok ==> unchanged(this) && unchanged(Units(old(ownedApartment), null, null)) && unchanged(market.allCells)
      ensures ok ==> rentedApartment == null && ownedApartment == null && timeAptRented == 0 && timeAptOwned == 0
      ensures ok ==> happinessFactor == -1.0
      ensures ok && old(ownedApartment) != null ==> var home := old(ownedApartment);
        home.owner == null && home.deleted && !home.occupied && home.tenant == null
      ensures ok ==> forall c :: c in market.allCells ==>
        c.apartments == if old(ownedApartment) != null && c == market.cellAt(old(ownedApartment).position)
                        then RemoveFirst<Apartment>(old(c.apartments), old(ownedApartment)) else old(c.apartments)
      ensures old(rentedApartment) != null ==> var home := old(rentedApartment);
        home.tenant == null && !home.occupied && home.timeAtMarket == 0 && home.timeRented == 0 &&
        home.owner == old(home.owner) && home.deleted == old(home.deleted)
      ensures old(rentedApartment) != null && old(rentedApartment.owner) is LandlordAgent ==>
        var home := old(rentedApartment); var landlord := old(home.owner) as LandlordAgent;
        landlord.aptsToRentCount == old(landlord.aptsToRentCount) + 1 &&
        home.rent == if old(home in market.cellAt(home.position).toRent) then old(home.rent)
                     else MonthlyRent(market.RentIndex(), landlord.profitMargin)
      ensures old(rentedApartment) != null && !(old(rentedApartment.owner) is LandlordAgent) ==>
        old(rentedApartment).rent == old(rentedApartment.rent)
      ensures forall c :: c in market.allCells ==>
        c.toRent == if old(rentedApartment) != null && old(rentedApartment.owner) is LandlordAgent &&
                       c == market.cellAt(old(rentedApartment).position)
                    then Relisted(old(c.toRent), old(rentedApartment)) else old(c.toRent)
    {
      if ownedApartment != null {
        ok := GiveUpOwned(market);
        if !ok {
          return;
        }
      }
      if rentedApartment != null {
        LeaveRental(market);
      }
      ok := true;
      rentedApartment := null;
      timeAptRented := 0;
      ownedApartment := null;
      timeAptOwned := 0;
      happinessFactor := -1.0;
    }

    /**
     * Who owns `apartment` once the resident has vacated its homes: nobody when it is the home
     * the resident owned, and otherwise its owner as it stands.
     */
    ghost function OwnerAfterVacating(apartment: Apartment): object?
      reads this, apartment
    {
      if apartment == ownedApartment then null else apartment.owner
    }

    /**
     * Whether `apartment` is on its cell's rent listing once the resident has vacated: it is
     * already listed, or it is the home the resident rents from a landlord, who relists it.
     */
    ghost predicate ListedAfterVacating(market: Market, apartment: Apartment)
      requires market.Valid()
      reads this, rentedApartment, market, market.cellAt(apartment.position)
    {
      apartment in market.cellAt(apartment.position).toRent ||
      (apartment == rentedApartment && rentedApartment.owner is LandlordAgent)
    }

    /**
     * The rest of `assign_apartment`, once the resident has vacated: buy or rent `apartment`
     * (`BuyHome`, `RentHome`), or stay homeless when there is none, and refresh happiness. An
     * owner without the needed method makes the call raise before anything has changed; a
     * landlord's unit missing from the rent listing makes it raise once the unit is marked occupied.
     */
    method MoveIn(apartment: Apartment?, owned: bool, market: Market) returns (outcome: Assignment)
      requires market.Valid() && rentedApartment == null && ownedApartment == null && income != 0.0
      modifies this`ownedApartment, this`rentedApartment, this`happinessFactor
      modifies Units(apartment, null, null)`owner, Units(apartment, null, null)`occupied, Units(apartment, null, null)`tenant
      modifies Units(apartment, null, null)`timeAtMarket, Units(apartment, null, null)`timeRented
      modifies DeveloperOf(apartment)`ownedProperties, LandlordOf(apartment)`capital, LandlordOf(apartment)`aptsToRentCount
      modifies market`recentSellPrices, market`recentRentPrices, CellOf(market, apartment)`toSell, CellOf(market, apartment)`toRent
      ensures forall c :: c in market.allCells && old(c.Valid()) ==> c.Valid()
      ensures outcome != NotInCell
      ensures outcome == NoSeller <==> apartment != null && owned && !(old(apartment.owner) is GovDeveloper)
      ensures outcome == NoLandlord <==> apartment != null && !owned && !(old(apartment.owner) is LandlordAgent)
      ensures outcome == NotListed <==>
        apartment != null && !owned && old(apartment.owner) is LandlordAgent &&
        apartment !in old(market.cellAt(apartment.position).toRent)
      ensures outcome == NotListed ==> apartment != null && apartment.occupied && apartment.owner == old(apartment.owner)
      ensures ownedApartment == (if outcome == Moved && owned then apartment else null)
      ensures rentedApartment == (if outcome == Moved && !owned then apartment else null)
      ensures happinessFactor == if outcome == Moved then HappinessOf(CurrentHome(), income) else old(happinessFactor)
      ensures outcome == Moved && apartment != null ==>
        apartment.occupied && if owned then apartment.owner == this else apartment.tenant == this
      ensures apartment == null ==> unchanged(market.allCells)
    {
      outcome := Moved;
      if apartment != null {
        if owned {
          var sold := BuyHome(apartment, market);
          if !sold {
            return NoSeller;
          }
        } else {
          var rented := RentHome(apartment, market);
          if rented != Moved {
            return rented;
          }
        }
      }
      UpdateHappiness();
    }

    /**
     * `assign_apartment`: vacate the current home, then move into `apartment` (bought when
     * `owned`, rented otherwise), or stay homeless when there is none, and refresh happiness.
     * The ways it raises are outcomes: the owned home missing from its cell (nothing has
     * changed), a unit whose owner does not sell or let it, and a landlord's unit missing from
     * the rent listing (in these the resident has already vacated and is left homeless with
     * happiness -1). What the move does to the units, the owners and the listings is stated by
     * `GiveUpOwned`, `LeaveRental`, `BuyHome` and `RentHome`.
     */
    method AssignApartment(apartment: Apartment?, owned: bool, market: Market) returns (outcome: Assignment)
      requires market.Valid() && Valid() && income != 0.0
      modifies this`rentedApartment, this`timeAptRented, this`ownedApartment, this`timeAptOwned, this`happinessFactor
      modifies market`recentSellPrices, market`recentRentPrices
      modifies market.allCells`apartments, market.allCells`toRent, market.allCells`toSell
      modifies Units(ownedApartment, rentedApartment, apartment)`owner, Units(ownedApartment, rentedApartment, apartment)`deleted
      modifies Units(ownedApartment, rentedApartment, apartment)`occupied, Units(ownedApartment, rentedApartment, apartment)`tenant
      modifies Units(ownedApartment, rentedApartment, apartment)`timeAtMarket
      modifies Units(ownedApartment, rentedApartment, apartment)`timeRented, Units(ownedApartment, rentedApartment, apartment)`rent
      modifies LandlordOf(rentedApartment)`aptsToRentCount, LandlordOf(apartment)`aptsToRentCount, LandlordOf(apartment)`capital
      modifies DeveloperOf(apartment)`ownedProperties
      ensures Valid()
      ensures forall c :: c in market.allCells && old(c.Valid()) ==> c.Valid()
      // the owned home missing from its cell stops everything before any change
      ensures var home := old(ownedApartment);
        outcome == NotInCell <==> home != null && home !in old(market.cellAt(home.position).apartments)
      ensures outcome == NotInCell ==> unchanged(this) && unchanged(Units(old(ownedApartment), null, null))
      // a unit to buy needs a developer, a unit to rent a landlord, as the unit stands after vacating
      ensures outcome == NoSeller <==>
        outcome != NotInCell && apartment != null && owned && !(old(OwnerAfterVacating(apartment)) is GovDeveloper)
      ensures outcome == NoLandlord <==>
        outcome != NotInCell && apartment != null && !owned && !(old(OwnerAfterVacating(apartment)) is LandlordAgent)
      // and the landlord's unit must be on the rent listing once the resident has left it
      ensures outcome == NotListed <==>
        outcome != NotInCell && apartment != null && !owned && old(OwnerAfterVacating(apartment)) is LandlordAgent &&
        !old(ListedAfterVacating(market, apartment))
      // otherwise the resident holds just the new home, if any
      ensures outcome != NotInCell ==>
        timeAptRented == 0 && timeAptOwned == 0 &&
        ownedApartment == (if outcome == Moved && owned then apartment else null) &&
        rentedApartment == (if outcome == Moved && !owned then apartment else null) &&
        happinessFactor == (if outcome == Moved then HappinessOf(CurrentHome(), income) else -1.0)
      ensures outcome == Moved && apartment != null ==>
        apartment.occupied && if owned then apartment.owner == this else apartment.tenant == this
      // moving out to nowhere only puts the rented home back on its landlord's listing
      ensures apartment == null ==> forall c :: c in market.allCells ==>
        c.toSell == old(c.toSell) &&
        c.toRent == if old(rentedApartment) != null && old(rentedApartment.owner) is LandlordAgent &&
                       c == market.cellAt(old(rentedApartment).position)
                    then Relisted(old(c.toRent), old(rentedApartment)) else old(c.toRent)
      ensures apartment == null && old(rentedApartment) != null ==> old(rentedApartment).owner == old(rentedApartment.owner)
    {
      ghost var owner := if apartment != null then OwnerAfterVacating(apartment) else null;
      ghost var listed := apartment != null && ListedAfterVacating(market, apartment);
      var ok := Vacate(market);
      if !ok {
        return NotInCell;
      }
      if apartment == null {
        UpdateHappiness();
        return Moved;
      }
      assert apartment.owner == owner && (apartment in market.cellAt(apartment.position).toRent <==> listed);
      outcome := MoveIn(apartment, owned, market);
    }

    /**
     * The unit-by-unit scan of one cell's listing (`units`, the `i`-th cell's): a considered
     * unit replaces the best found so far only with a strictly greater score.
     */
    method ScanRow(kind: Lookup, units: seq<Apartment>, i: nat, unitDraw: (nat, nat) -> Unit,
                   ghost g: Grid, best: Option<Pick>) returns (next: Option<Pick>)
      requires income != 0.0
      requires i < |g| && g[i] == Row(kind, units, i, income, true, unitDraw)
      requires best == ScanTo(g, i, 0)
      ensures next == ScanTo(g, i + 1, 0)
    {
      next := best;
      var j := 0;
      while j < |units|
        invariant 0 <= j <= |units|
        invariant next == ScanTo(g, i, j)
      {
        var seen := Entry(kind, units[j], income, unitDraw(i, j));
        RowAt(kind, units, i, income, true, unitDraw, j);
        if seen.Some? && (next.None? || seen.value > next.value.score) {
          next := Some(Pick(i, j, seen.value));
        }
        j := j + 1;
      }
    }

    /** One cell of the rent-or-buy search: skipped on a draw below 0.1, else both listings scanned. */
    method SurveyCell(cells: seq<Cell>, i: nat, cellDraw: nat -> Unit, rentDraw: (nat, nat) -> Unit,
                      saleDraw: (nat, nat) -> Unit, ghost rents: Grid, ghost sales: Grid,
                      rental: Option<Pick>, purchase: Option<Pick>) returns (rental': Option<Pick>, purchase': Option<Pick>)
      requires income != 0.0 && i < |cells| && i < |rents| && i < |sales|
      requires rents[i] == Row(Rent, cells[i].toRent, i, income, cellDraw(i) >= 0.1, rentDraw)
      requires sales[i] == Row(Buy, cells[i].toSell, i, income, cellDraw(i) >= 0.1, saleDraw)
      requires rental == ScanTo(rents, i, 0) && purchase == ScanTo(sales, i, 0)
      ensures rental' == ScanTo(rents, i + 1, 0) && purchase' == ScanTo(sales, i + 1, 0)
    {
      if cellDraw(i) < 0.1 {
        forall k | 0 <= k < |rents[i]|
          ensures rents[i][k].None?
        {
          RowAt(Rent, cells[i].toRent, i, income, false, rentDraw, k);
        }
        forall k | 0 <= k < |sales[i]|
          ensures sales[i][k].None?
        {
          RowAt(Buy, cells[i].toSell, i, income, false, saleDraw, k);
        }
        ScanSkipsEmptyRow(rents, i, |rents[i]|);
        ScanSkipsEmptyRow(sales, i, |sales[i]|);
        rental', purchase' := rental, purchase;
      } else {
        var forSale := cells[i].toSell;
        rental' := ScanRow(Rent, cells[i].toRent, i, rentDraw, rents, rental);
        purchase' := ScanRow(Buy, forSale, i, saleDraw, sales, purchase);
      }
    }

    /**
     * The scans of `find_apt_to_rent_or_buy`: over the cells whose draw is not below 0.1, the
     * rental and the unit for sale of greatest score, each the first found among equals.
     */
    method Survey(cells: seq<Cell>, cellDraw: nat -> Unit, rentDraw: (nat, nat) -> Unit, saleDraw: (nat, nat) -> Unit,
                  ghost rents: Grid, ghost sales: Grid)
      returns (rental: Option<Pick>, purchase: Option<Pick>)
      requires income != 0.0
      requires |rents| == |sales| == |cells|
      requires forall k :: 0 <= k < |cells| ==>
        rents[k] == Row(Rent, cells[k].toRent, k, income, cellDraw(k) >= 0.1, rentDraw) &&
        sales[k] == Row(Buy, cells[k].toSell, k, income, cellDraw(k) >= 0.1, saleDraw)
      ensures rental == FirstBest(rents) && purchase == FirstBest(sales)
    {
      rental, purchase := None, None;
      var i := 0;
      while i < |cells|
        invariant 0 <= i <= |cells| && |rents| == |sales| == |cells|
        invariant forall k :: 0 <= k < |cells| ==>
          rents[k] == Row(Rent, cells[k].toRent, k, income, cellDraw(k) >= 0.1, rentDraw) &&
          sales[k] == Row(Buy, cells[k].toSell, k, income, cellDraw(k) >= 0.1, saleDraw)
        invariant rental == ScanTo(rents, i, 0) && purchase == ScanTo(sales, i, 0)
      {
        rental, purchase := SurveyCell(cells, i, cellDraw, rentDraw, saleDraw, rents, sales, rental, purchase);
        i := i + 1;
      }
    }

    /** The scan of `find_apt_to_rent`: every cell, rentals costing less than the income. */
    method SurveyRentals(cells: seq<Cell>, rentDraw: (nat, nat) -> Unit, ghost rents: Grid) returns (rental: Option<Pick>)
      requires income != 0.0
      requires |rents| == |cells|
      requires forall k :: 0 <= k < |cells| ==> rents[k] == Row(RentOnly, cells[k].toRent, k, income, true, rentDraw)
      ensures rental == FirstBest(rents)
    {
      rental := None;
      var i := 0;
      while i < |cells|
        invariant 0 <= i <= |cells| && |rents| == |cells|
        invariant forall k :: 0 <= k < |cells| ==> rents[k] == Row(RentOnly, cells[k].toRent, k, income, true, rentDraw)
        invariant rental == ScanTo(rents, i, 0)
      {
        rental := ScanRow(RentOnly, cells[i].toRent, i, rentDraw, rents, rental);
        i := i + 1;
      }
    }

    /**
     * The choice of `find_apt_to_rent_or_buy`, before anything changes: the best rental and the
     * best purchase of the survey, settled by `Decide` against the current happiness, and the
     * unit the move names.
     */
    method ChooseHome(cells: seq<Cell>, cellDraw: nat -> Unit, rentDraw: (nat, nat) -> Unit,
                      saleDraw: (nat, nat) -> Unit, ghost rents: Grid, ghost sales: Grid)
      returns (move: Move, unit: Apartment?)
      requires income != 0.0
      requires rents == Sighted(Rent, cells, income, Searched(cellDraw), rentDraw)
      requires sales == Sighted(Buy, cells, income, Searched(cellDraw), saleDraw)
      ensures move == Decide(FirstBest(rents), FirstBest(sales), happinessFactor)
      ensures move == Stay <==> unit == null
      ensures move.RentAt? ==>
        move.cell < |cells| && move.unit < |cells[move.cell].toRent| && unit == cells[move.cell].toRent[move.unit]
      ensures move.BuyAt? ==>
        move.cell < |cells| && move.unit < |cells[move.cell].toSell| && unit == cells[move.cell].toSell[move.unit]
      ensures unit != null ==> unit in Listed(cells)
    {
      SightedPick(Rent, cells, income, Searched(cellDraw), rentDraw);
      SightedPick(Buy, cells, income, Searched(cellDraw), saleDraw);
      SightedRows(Rent, cells, income, Searched(cellDraw), rentDraw);
      SightedRows(Buy, cells, income, Searched(cellDraw), saleDraw);
      var rental, purchase := Survey(cells, cellDraw, rentDraw, saleDraw, rents, sales);
      move := Decide(rental, purchase, happinessFactor);
      match move
      case Stay => unit := null;
      case RentAt(c, u) =>
        unit := cells[c].toRent[u];
        ListedAt(cells, c, u);
      case BuyAt(c, u) =>
        unit := cells[c].toSell[u];
        ListedAt(cells, c, u);
    }

    /**
     * The choice of `find_apt_to_rent`, before anything changes: the best affordable rental,
     * taken only when its score beats the current happiness.
     */
    method ChooseRental(cells: seq<Cell>, rentDraw: (nat, nat) -> Unit, ghost rents: Grid)
      returns (move: Move, unit: Apartment?)
      requires income != 0.0
      requires rents == Sighted(RentOnly, cells, income, EveryCell(), rentDraw)
      ensures var best := FirstBest(rents);
        move == if best.Some? && best.value.score > happinessFactor
                then RentAt(best.value.cell, best.value.unit) else Stay
      ensures move == Stay <==> unit == null
      ensures move.RentAt? ==>
        move.cell < |cells| && move.unit < |cells[move.cell].toRent| && unit == cells[move.cell].toRent[move.unit]
      ensures unit != null ==> unit in Listed(cells)
    {
      SightedPick(RentOnly, cells, income, EveryCell(), rentDraw);
      SightedRows(RentOnly, cells, income, EveryCell(), rentDraw);
      var rental := SurveyRentals(cells, rentDraw, rents);
      if rental.Some? && rental.value.score > happinessFactor {
        move := RentAt(rental.value.cell, rental.value.unit);
        unit := cells[move.cell].toRent[move.unit];
        ListedAt(cells, move.cell, move.unit);
      } else {
        move, unit := Stay, null;
      }
    }

    /**
     * The move both searches end in: the resident takes `unit` (bought when `owned`, rented
     * otherwise) through `AssignApartment`, and a completed move brings the search radius
     * back to its base value. `units`, `landlords` and `developers` bound what the move may
     * touch: the unit, the resident's homes, and their owners.
     */
    method Relocate(unit: Apartment, owned: bool, market: Market, ghost units: set<Apartment>,
                    ghost landlords: set<LandlordAgent>, ghost developers: set<GovDeveloper>)
      returns (outcome: Assignment)
      requires market.Valid() && Valid() && income != 0.0
      requires unit in units && Units(ownedApartment, rentedApartment, null) <= units
      requires OwnersWithin(units, landlords, developers)
      modifies this`rentedApartment, this`timeAptRented, this`ownedApartment, this`timeAptOwned
      modifies this`happinessFactor, this`searchingRadius, market`recentSellPrices, market`recentRentPrices
      modifies market.allCells`apartments, market.allCells`toRent, market.allCells`toSell
      modifies units`owner, units`deleted, units`occupied, units`tenant, units`timeAtMarket, units`timeRented, units`rent
      modifies landlords`aptsToRentCount, landlords`capital, developers`ownedProperties
      ensures Valid()
      ensures forall c :: c in market.allCells && old(c.Valid()) ==> c.Valid()
      ensures outcome == Moved ==>
        ownedApartment == (if owned then unit else null) && rentedApartment == (if owned then null else unit) &&
        happinessFactor == HappinessOf(CurrentHome(), income)
      ensures searchingRadius == if outcome == Moved then baseSearchingRadius else old(searchingRadius)
    {
      outcome := AssignApartment(unit, owned, market);
      if outcome == Moved {
        searchingRadius := baseSearchingRadius;
      }
    }

    /**
     * `find_apt_to_rent_or_buy` over the cells of the neighbourhood: survey them, settle
     * between the best rental and the best purchase (`Decide`), and move there, the search
     * radius then returning to its base value; without a move, only happiness is refreshed.
     * `outcome` is what the move ended in, when there was one.
     */
    method FindAptToRentOrBuy(cells: seq<Cell>, cellDraw: nat -> Unit, rentDraw: (nat, nat) -> Unit,
                              saleDraw: (nat, nat) -> Unit, market: Market, ghost rents: Grid, ghost sales: Grid,
                              ghost units: set<Apartment>, ghost landlords: set<LandlordAgent>,
                              ghost developers: set<GovDeveloper>)
      returns (move: Move, outcome: Option<Assignment>)
      requires market.Valid() && Valid() && income != 0.0
      requires rents == Sighted(Rent, cells, income, Searched(cellDraw), rentDraw)
      requires sales == Sighted(Buy, cells, income, Searched(cellDraw), saleDraw)
      requires Listed(cells) + Units(ownedApartment, rentedApartment, null) <= units
      requires OwnersWithin(units, landlords, developers)
      modifies this`rentedApartment, this`timeAptRented, this`ownedApartment, this`timeAptOwned
      modifies this`happinessFactor, this`searchingRadius, market`recentSellPrices, market`recentRentPrices
      modifies market.allCells`apartments, market.allCells`toRent, market.allCells`toSell
      modifies units`owner, units`deleted, units`occupied, units`tenant, units`timeAtMarket, units`timeRented, units`rent
      modifies landlords`aptsToRentCount, landlords`capital, developers`ownedProperties
      ensures Valid()
      ensures forall c :: c in market.allCells && old(c.Valid()) ==> c.Valid()
      ensures move == Decide(FirstBest(rents), FirstBest(sales), old(happinessFactor))
      ensures move == Stay ==>
        outcome == None && rentedApartment == old(rentedApartment) && ownedApartment == old(ownedApartment) &&
        searchingRadius == old(searchingRadius) && happinessFactor == HappinessOf(CurrentHome(), income)
      ensures move.RentAt? ==> move.cell < |cells| && move.unit < old(|cells[move.cell].toRent|)
      ensures move.BuyAt? ==> move.cell < |cells| && move.unit < old(|cells[move.cell].toSell|)
      ensures move.RentAt? && outcome == Some(Moved) ==>
        rentedApartment == old(cells[move.cell].toRent[move.unit]) && ownedApartment == null
      ensures move.BuyAt? && outcome == Some(Moved) ==>
        ownedApartment == old(cells[move.cell].toSell[move.unit]) && rentedApartment == null
      ensures move != Stay ==>
        outcome.Some? && searchingRadius == (if outcome == Some(Moved) then baseSearchingRadius else old(searchingRadius))
      ensures outcome == Some(Moved) ==>
        Valid() && (rentedApartment != null || ownedApartment != null) && happinessFactor == HappinessOf(CurrentHome(), income)
    {
      var unit;
      move, unit := ChooseHome(cells, cellDraw, rentDraw, saleDraw, rents, sales);
      if move == Stay {
        UpdateHappiness();
        return move, None;
      }
      var result := Relocate(unit, move.BuyAt?, market, units, landlords, developers);
      outcome := Some(result);
    }

    /**
     * `find_apt_to_rent` over the cells of the neighbourhood: rent the best rental when its
     * score beats the current happiness, the search radius then returning to its base value;
     * otherwise widen the search radius by one and refresh happiness.
     */
    method FindAptToRent(cells: seq<Cell>, rentDraw: (nat, nat) -> Unit, market: Market, ghost rents: Grid,
                         ghost units: set<Apartment>, ghost landlords: set<LandlordAgent>,
                         ghost developers: set<GovDeveloper>)
      returns (move: Move, outcome: Option<Assignment>)
      requires market.Valid() && Valid() && income != 0.0
      requires rents == Sighted(RentOnly, cells, income, EveryCell(), rentDraw)
      requires Listed(cells) + Units(ownedApartment, rentedApartment, null) <= units
      requires OwnersWithin(units, landlords, developers)
      modifies this`rentedApartment, this`timeAptRented, this`ownedApartment, this`timeAptOwned
      modifies this`happinessFactor, this`searchingRadius, market`recentSellPrices, market`recentRentPrices
      modifies market.allCells`apartments, market.allCells`toRent, market.allCells`toSell
      modifies units`owner, units`deleted, units`occupied, units`tenant, units`timeAtMarket, units`timeRented, units`rent
      modifies landlords`aptsToRentCount, landlords`capital, developers`ownedProperties
      ensures Valid()
      ensures forall c :: c in market.allCells && old(c.Valid()) ==> c.Valid()
      ensures var best := FirstBest(rents);
        move == if best.Some? && best.value.score > old(happinessFactor)
                then RentAt(best.value.cell, best.value.unit) else Stay
      ensures move == Stay ==>
        outcome == None && rentedApartment == old(rentedApartment) && ownedApartment == old(ownedApartment) &&
        searchingRadius == old(searchingRadius) + 1 && happinessFactor == HappinessOf(CurrentHome(), income)
      ensures move.RentAt? ==> move.cell < |cells| && move.unit < old(|cells[move.cell].toRent|)
      ensures move.RentAt? && outcome == Some(Moved) ==>
        rentedApartment == old(cells[move.cell].toRent[move.unit]) && ownedApartment == null
      ensures move.RentAt? && outcome == Some(Moved) ==> happinessFactor == HappinessOf(CurrentHome(), income)
      ensures move.RentAt? ==>
        outcome.Some? && searchingRadius == (if outcome == Some(Moved) then baseSearchingRadius else old(searchingRadius))
    {
      var unit;
      move, unit := ChooseRental(cells, rentDraw, rents);
      if move == Stay {
        outcome := None;
        searchingRadius := searchingRadius + 1;
        UpdateHappiness();
      } else {
        var result := Relocate(unit, false, market, units, landlords, developers);
        outcome := Some(result);
      }
    }

    /**
     * `assign_apartment(None, False)` for a tenant: leaving the rental cannot fail and leaves
     * the resident homeless with happiness -1. The listings of `cells` then hold the rented
     * unit at most in addition, so they still list only units among `units`, whose owners
     * have not changed.
     */
    method MoveOut(cells: seq<Cell>, market: Market, ghost units: set<Apartment>,
                   ghost landlords: set<LandlordAgent>, ghost developers: set<GovDeveloper>)
      returns (left: Assignment)
      requires market.Valid() && Valid() && income != 0.0 && rentedApartment != null
      requires forall c :: c in cells ==> c in market.allCells
      requires Listed(cells) + Units(ownedApartment, rentedApartment, null) <= units
      requires OwnersWithin(units, landlords, developers)
      modifies this`rentedApartment, this`timeAptRented, this`ownedApartment, this`timeAptOwned, this`happinessFactor
      modifies market`recentSellPrices, market`recentRentPrices
      modifies market.allCells`apartments, market.allCells`toRent, market.allCells`toSell
      modifies units`owner, units`deleted, units`occupied, units`tenant, units`timeAtMarket, units`timeRented, units`rent
      modifies landlords`aptsToRentCount
      ensures forall c :: c in market.allCells && old(c.Valid()) ==> c.Valid()
      ensures left == Moved && Valid()
      ensures rentedApartment == null && ownedApartment == null && happinessFactor == -1.0
      ensures Listed(cells) <= units && OwnersWithin(units, landlords, developers)
    {
      ghost var home := rentedApartment;
      left := AssignApartment(null, false, market);
      ListedAfterRelisting(cells, home, units);
      forall a | a in units
        ensures a.owner == old(a.owner)
      {
      }
    }

    /**
     * The tenant's way out of a too dear rental in `step`: leave it (`MoveOut`), then search
     * from no home (`find_apt_to_rent_or_buy`) over the listings as leaving has left them.
     */
    method MoveOutAndSearch(cells: seq<Cell>, cellDraw: nat -> Unit, rentDraw: (nat, nat) -> Unit,
                            saleDraw: (nat, nat) -> Unit, market: Market, ghost units: set<Apartment>,
                            ghost landlords: set<LandlordAgent>, ghost developers: set<GovDeveloper>)
      returns (left: Assignment, move: Move, found: Option<Assignment>)
      requires market.Valid() && Valid() && income != 0.0 && rentedApartment != null
      requires forall c :: c in cells ==> c in market.allCells
      requires Listed(cells) + Units(ownedApartment, rentedApartment, null) <= units
      requires OwnersWithin(units, landlords, developers)
      modifies this`rentedApartment, this`timeAptRented, this`ownedApartment, this`timeAptOwned
      modifies this`happinessFactor, this`searchingRadius, market`recentSellPrices, market`recentRentPrices
      modifies market.allCells`apartments, market.allCells`toRent, market.allCells`toSell
      modifies units`owner, units`deleted, units`occupied, units`tenant, units`timeAtMarket, units`timeRented, units`rent
      modifies landlords`aptsToRentCount, landlords`capital, developers`ownedProperties
      ensures Valid()
      ensures forall c :: c in market.allCells && old(c.Valid()) ==> c.Valid()
      ensures left == Moved
      ensures move == Stay <==> found == None
      ensures move == Stay ==> rentedApartment == null && ownedApartment == null && happinessFactor == -1.0
      ensures found == Some(Moved) ==>
        Valid() && (rentedApartment != null || ownedApartment != null) && searchingRadius == baseSearchingRadius &&
        happinessFactor == HappinessOf(CurrentHome(), income)
    {
      left := MoveOut(cells, market, units, landlords, developers);
      ghost var rents := Sighted(Rent, cells, income, Searched(cellDraw), rentDraw);
      ghost var sales := Sighted(Buy, cells, income, Searched(cellDraw), saleDraw);
      move, found := FindAptToRentOrBuy(cells, cellDraw, rentDraw, saleDraw, market, rents, sales,
                                        units, landlords, developers);
    }

    /**
     * The tenant's month in `step`, once `StepAction` has chosen `action`: one more month in
     * the rental, then a search from the rental, or leaving it and searching from no home, or
     * refreshing happiness.
     */
    method TenantMonth(action: Action, cells: seq<Cell>, cellDraw: nat -> Unit, rentDraw: (nat, nat) -> Unit,
                       saleDraw: (nat, nat) -> Unit, market: Market, ghost units: set<Apartment>,
                       ghost landlords: set<LandlordAgent>, ghost developers: set<GovDeveloper>)
      returns (left: Option<Assignment>, move: Move, found: Option<Assignment>)
      requires market.Valid() && Valid() && income != 0.0 && rentedApartment != null
      requires action == Search || action == LeaveAndSearch || action == Refresh
      requires forall c :: c in cells ==> c in market.allCells
      requires Listed(cells) + Units(ownedApartment, rentedApartment, null) <= units
      requires OwnersWithin(units, landlords, developers)
      modifies this`rentedApartment, this`timeAptRented, this`ownedApartment, this`timeAptOwned
      modifies this`happinessFactor, this`searchingRadius, market`recentSellPrices, market`recentRentPrices
      modifies market.allCells`apartments, market.allCells`toRent, market.allCells`toSell
      modifies units`owner, units`deleted, units`occupied, units`tenant, units`timeAtMarket, units`timeRented, units`rent
      modifies landlords`aptsToRentCount, landlords`capital, developers`ownedProperties
      ensures Valid()
      ensures forall c :: c in market.allCells && old(c.Valid()) ==> c.Valid()
      ensures action == Refresh ==>
        left == None && move == Stay && found == None &&
        rentedApartment == old(rentedApartment) && ownedApartment == null &&
        timeAptRented == old(timeAptRented) + 1 && happinessFactor == HappinessOf(CurrentHome(), income)
      ensures action == Search ==> left == None
      ensures action == Search ==>
        move == Decide(FirstBest(old(Sighted(Rent, cells, income, Searched(cellDraw), rentDraw))),
                       FirstBest(old(Sighted(Buy, cells, income, Searched(cellDraw), saleDraw))),
                       old(happinessFactor))
      ensures action == LeaveAndSearch ==> left == Some(Moved)
      ensures action == LeaveAndSearch && move == Stay ==>
        rentedApartment == null && ownedApartment == null && happinessFactor == -1.0
      ensures action != Refresh ==> (move == Stay <==> found == None)
      ensures action != Refresh && found == Some(Moved) ==>
        Valid() && (rentedApartment != null || ownedApartment != null) && searchingRadius == baseSearchingRadius &&
        happinessFactor == HappinessOf(CurrentHome(), income)
    {
      ghost var rents := Sighted(Rent, cells, income, Searched(cellDraw), rentDraw);
      ghost var sales := Sighted(Buy, cells, income, Searched(cellDraw), saleDraw);
      timeAptRented := timeAptRented + 1;
      left := None;
      if action == Search {
        move, found := FindAptToRentOrBuy(cells, cellDraw, rentDraw, saleDraw, market, rents, sales,
                                          units, landlords, developers);
      } else if action == LeaveAndSearch {
        var result;
        result, move, found := MoveOutAndSearch(cells, cellDraw, rentDraw, saleDraw, market, units, landlords, developers);
        left := Some(result);
      } else {
        move, found := Stay, None;
        UpdateHappiness();
      }
    }

    /**
     * The owner-occupier's month in `step`, once `StepAction` has chosen `action`: one more
     * month in the home and happiness refreshed, then, when it is time, the home given up
     * through `assign_apartment(None, False)`, which fails only when the home is missing from
     * its cell.
     */
    method OwnerMonth(action: Action, market: Market) returns (left: Option<Assignment>)
      requires market.Valid() && Valid() && income != 0.0 && ownedApartment != null && rentedApartment == null
      requires action == Refresh || action == RefreshAndLeave
      modifies this`rentedApartment, this`timeAptRented, this`ownedApartment, this`timeAptOwned, this`happinessFactor
      modifies market`recentSellPrices, market`recentRentPrices
      modifies market.allCells`apartments, market.allCells`toRent, market.allCells`toSell
      modifies ownedApartment`owner, ownedApartment`deleted, ownedApartment`occupied, ownedApartment`tenant
      modifies ownedApartment`timeAtMarket, ownedApartment`timeRented, ownedApartment`rent
      ensures Valid()
      ensures forall c :: c in market.allCells && old(c.Valid()) ==> c.Valid()
      ensures action == Refresh ==>
        left == None && ownedApartment == old(ownedApartment) && rentedApartment == null &&
        timeAptOwned == old(timeAptOwned) + 1 && happinessFactor == 1.0
      ensures action == RefreshAndLeave ==> left == Some(Moved) || left == Some(NotInCell)
      ensures action == RefreshAndLeave && left == Some(Moved) ==>
        rentedApartment == null && ownedApartment == null && happinessFactor == -1.0
      ensures action == RefreshAndLeave && left == Some(NotInCell) ==>
        ownedApartment == old(ownedApartment) && timeAptOwned == old(timeAptOwned) + 1 && happinessFactor == 1.0
    {
      timeAptOwned := timeAptOwned + 1;
      UpdateHappiness();
      left := None;
      if action == RefreshAndLeave {
        var result := AssignApartment(null, false, market);
        left := Some(result);
      }
    }

    /**
     * `step` for one month, its random draws given as parameters: `lookDraw` for a homeless
     * resident, `moveDraw` for a tenant; the search runs over `cells`, cells of the market grid,
     * with the draws of `FindAptToRentOrBuy`. What happens follows `StepAction`: a homeless
     * resident searches or stays idle; a tenant and an owner-occupier live their month
     * (`TenantMonth`, `OwnerMonth`). `left` is how leaving ended and `found` how the search's
     * move ended, when there was one.
     */
    method Step(avgRent: real, avgPrice: real, lookDraw: Unit, moveDraw: Unit, cells: seq<Cell>,
                cellDraw: nat -> Unit, rentDraw: (nat, nat) -> Unit, saleDraw: (nat, nat) -> Unit,
                market: Market, ghost units: set<Apartment>, ghost landlords: set<LandlordAgent>,
                ghost developers: set<GovDeveloper>)
      returns (action: Action, left: Option<Assignment>, move: Move, found: Option<Assignment>)
      requires market.Valid() && Valid() && income != 0.0
      requires forall c :: c in cells ==> c in market.allCells
      requires Listed(cells) + Units(ownedApartment, rentedApartment, null) <= units
      requires OwnersWithin(units, landlords, developers)
      modifies this`rentedApartment, this`timeAptRented, this`ownedApartment, this`timeAptOwned
      modifies this`happinessFactor, this`searchingRadius, market`recentSellPrices, market`recentRentPrices
      modifies market.allCells`apartments, market.allCells`toRent, market.allCells`toSell
      modifies units`owner, units`deleted, units`occupied, units`tenant, units`timeAtMarket, units`timeRented, units`rent
      modifies landlords`aptsToRentCount, landlords`capital, developers`ownedProperties
      ensures Valid()
      ensures forall c :: c in market.allCells && old(c.Valid()) ==> c.Valid()
      ensures action == StepAction(old(CurrentStatus()), income, old(happinessFactor), avgRent, avgPrice, lookDraw, moveDraw)
      ensures action == Idle ==> unchanged(this) && left == None && move == Stay && found == None
      // staying on: one more month in the home, happiness refreshed
      ensures action == Refresh ==>
        left == None && move == Stay && found == None &&
        rentedApartment == old(rentedApartment) && ownedApartment == old(ownedApartment) &&
        (if rentedApartment != null then timeAptRented == old(timeAptRented) + 1
         else timeAptOwned == old(timeAptOwned) + 1) &&
        happinessFactor == HappinessOf(CurrentHome(), income)
      // a search from where the resident stands: the choice of `find_apt_to_rent_or_buy`
      ensures action == Search ==> left == None
      ensures action == Search ==>
        move == Decide(FirstBest(old(Sighted(Rent, cells, income, Searched(cellDraw), rentDraw))),
                       FirstBest(old(Sighted(Buy, cells, income, Searched(cellDraw), saleDraw))),
                       old(happinessFactor))
      // leaving the rental cannot fail, and the search then starts from no home
      ensures action == LeaveAndSearch ==> left == Some(Moved)
      ensures action == LeaveAndSearch && move == Stay ==>
        rentedApartment == null && ownedApartment == null && happinessFactor == -1.0
      ensures action == Search || action == LeaveAndSearch ==> (move == Stay <==> found == None)
      ensures (action == Search || action == LeaveAndSearch) && found == Some(Moved) ==>
        Valid() && (rentedApartment != null || ownedApartment != null) && searchingRadius == baseSearchingRadius &&
        happinessFactor == HappinessOf(CurrentHome(), income)
      // the owner-occupier's sixty-first month: the home goes, unless it is missing from its cell
      ensures action == RefreshAndLeave ==> (left == Some(Moved) || left == Some(NotInCell)) && move == Stay && found == None
      ensures action == RefreshAndLeave && left == Some(Moved) ==>
        rentedApartment == null && ownedApartment == null && happinessFactor == -1.0
      ensures action == RefreshAndLeave && left == Some(NotInCell) ==>
        ownedApartment == old(ownedApartment) && timeAptOwned == old(timeAptOwned) + 1 && happinessFactor == 1.0
    {
      action := StepAction(CurrentStatus(), income, happinessFactor, avgRent, avgPrice, lookDraw, moveDraw);
      left, move, found := None, Stay, None;
      if rentedApartment != null {
        left, move, found := TenantMonth(action, cells, cellDraw, rentDraw, saleDraw, market, units, landlords, developers);
      } else if ownedApartment != null {
        left := OwnerMonth(action, market);
      } else if action == Search {
        ghost var rents := Sighted(Rent, cells, income, Searched(cellDraw), rentDraw);
        ghost var sales := Sighted(Buy, cells, income, Searched(cellDraw), saleDraw);
        move, found := FindAptToRentOrBuy(cells, cellDraw, rentDraw, saleDraw, market, rents, sales,
                                          units, landlords, developers);
      }
    }
  }
}
