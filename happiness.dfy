/**
 * The pure rules behind a resident's happiness and choice of home (`resident_agent.py`):
 * the affordability score of a unit, the happiness of the current home, the choice between
 * the best rental and the best purchase found, and the decision tree of a monthly step.
 */
module Happiness {
  import opened Wrappers
  import opened Constants
  import opened Lists

  /** The natural logarithm `math.log`; only its use, never its values, matters to the model. */
  const Log: real -> real

  /**
   * `(1 - cost / income) * freshness`: the share of the housing budget a unit leaves over,
   * weighted by its condition. Renters weigh the rent plus the bills, buyers the bills alone.
   */
  function Affordability(cost: real, freshness: real, income: real): (score: real)
    requires income != 0.0
  {
    (1.0 - cost / income) * freshness
  }

  /** A cost within a positive budget leaves a non-negative score, one above it a non-positive one. */
  lemma AffordabilitySign(cost: real, freshness: real, income: real)
    requires income > 0.0 && freshness > 0.0
    ensures cost < income ==> Affordability(cost, freshness, income) > 0.0
    ensures cost == income ==> Affordability(cost, freshness, income) == 0.0
    ensures cost > income ==> Affordability(cost, freshness, income) < 0.0
  {
    var share := 1.0 - cost / income;
    assert cost < income ==> cost / income < 1.0;
    assert cost > income ==> cost / income > 1.0;
    assert Affordability(cost, freshness, income) == share * freshness;
  }

  /** A cheaper unit in at least as good a condition scores at least as high. */
  lemma AffordabilityMonotone(cost1: real, cost2: real, freshness1: real, freshness2: real, income: real)
    requires income > 0.0 && cost1 <= cost2 && cost2 <= income && 0.0 <= freshness2 <= freshness1
    ensures Affordability(cost1, freshness1, income) >= Affordability(cost2, freshness2, income)
  {
    var share1, share2 := 1.0 - cost1 / income, 1.0 - cost2 / income;
    assert cost1 / income <= cost2 / income;
    assert 0.0 <= share2 <= share1;
    assert share1 * freshness1 >= share2 * freshness1;
    assert share2 * freshness1 >= share2 * freshness2;
  }

  /** `max(log(t) + 1 if t > 0 else 0, 0)`: the happiness a score stands for, never negative. */
  function Transform(t: real): (h: real)
    ensures h >= 0.0
    ensures t <= 0.0 ==> h == 0.0
    ensures h > 0.0 ==> t > 0.0 && h == Log(t) + 1.0
    ensures t > 0.0 && Log(t) + 1.0 >= 0.0 ==> h == Log(t) + 1.0
  {
    var raw := if t > 0.0 then Log(t) + 1.0 else 0.0;
    if raw >= 0.0 then raw else 0.0
  }

  /** The resident's home as far as happiness goes. */
  datatype Home = Homeless | Renting(fullCost: real, freshness: real) | Owning

  /**
   * `update_happiness`: a renter's happiness is the transformed affordability of the rented
   * unit, an owner-occupier's is 1 and a homeless resident's is -1.
   */
  function HappinessOf(home: Home, income: real): (h: real)
    requires income != 0.0
    ensures home.Homeless? <==> h < 0.0
    ensures home.Homeless? ==> h == -1.0
    ensures home.Owning? ==> h == 1.0
    ensures home.Renting? ==> h == Transform(Affordability(home.fullCost, home.freshness, income))
  {
    match home
    case Renting(fullCost, freshness) => Transform(Affordability(fullCost, freshness, income))
    case Owning => 1.0
    case Homeless => -1.0
  }

  /** A renter whose rent and bills eat the whole budget is exactly as happy as zero. */
  lemma UnaffordableRentIsJoyless(fullCost: real, freshness: real, income: real)
    requires income > 0.0 && freshness > 0.0 && fullCost >= income
    ensures HappinessOf(Renting(fullCost, freshness), income) == 0.0
  {
    AffordabilitySign(fullCost, freshness, income);
  }

  /** The best unit found by a search: the `unit`-th listed unit of the `cell`-th cell searched. */
  datatype Pick = Pick(cell: nat, unit: nat, score: real)

  /** Where a search leads. */
  datatype Move = Stay | RentAt(cell: nat, unit: nat) | BuyAt(cell: nat, unit: nat)

  /** The happiness a search result stands for; no result stands for 0. */
  function Prospect(p: Option<Pick>): (h: real)
    ensures h >= 0.0
    ensures p.None? ==> h == 0.0
  {
    match p
    case None => 0.0
    case Some(pick) => Transform(pick.score)
  }

  /**
   * The choice of `find_apt_to_rent_or_buy` between the best rental and the best purchase:
   * the purchase when its prospect is at least the rental's (ties go to buying), the rental
   * otherwise; the chosen unit is taken only when its raw score beats the current happiness.
   */
  function Decide(rental: Option<Pick>, purchase: Option<Pick>, current: real): (m: Move)
    ensures m.BuyAt? <==> purchase.Some? && Prospect(purchase) >= Prospect(rental) && purchase.value.score > current
    ensures m.BuyAt? ==> m == BuyAt(purchase.value.cell, purchase.value.unit)
    ensures m.RentAt? <==>
      rental.Some? && (purchase.None? || Prospect(purchase) < Prospect(rental)) && rental.value.score > current
    ensures m.RentAt? ==> m == RentAt(rental.value.cell, rental.value.unit)
    ensures rental.None? && purchase.None? ==> m == Stay
  {
    if purchase.Some? && Prospect(purchase) >= Prospect(rental) then
      if purchase.value.score > current then BuyAt(purchase.value.cell, purchase.value.unit) else Stay
    else if rental.Some? then
      if rental.value.score > current then RentAt(rental.value.cell, rental.value.unit) else Stay
    else
      Stay
  }

  /** A purchase is never passed over for a rental that promises no more happiness. */
  lemma {:induction false} BuyingWinsTies(rental: Pick, purchase: Pick, current: real)
    requires Transform(purchase.score) == Transform(rental.score)
    requires purchase.score > current
    ensures Decide(Some(rental), Some(purchase), current) == BuyAt(purchase.cell, purchase.unit)
  {
    assert Prospect(Some(purchase)) == Prospect(Some(rental));
  }

  /**
   * What a search sees of the listings of the cells it visits, cell by cell and unit by unit:
   * the score of each unit it considers, or nothing for a unit it passes over.
   */
  type Grid = seq<seq<Option<real>>>

  predicate InGrid(g: Grid, i: int, j: int)
  {
    0 <= i < |g| && 0 <= j < |g[i]|
  }

  /**
   * `best` is the result of scanning `g` up to, not including, position (i, j): nothing when
   * no unit scanned so far was considered, otherwise a considered unit of greatest score, the
   * first one scanned among those (a later unit replaces the best only with a strictly
   * greater score).
   */
  ghost predicate BestUpTo(g: Grid, best: Option<Pick>, i: int, j: int)
  {
    match best
    case None =>
      forall i', j' :: InGrid(g, i', j') && Earlier(i', j', i, j) ==> g[i'][j'].None?
    case Some(p) =>
      InGrid(g, p.cell, p.unit) && Earlier(p.cell, p.unit, i, j) && g[p.cell][p.unit] == Some(p.score) &&
      (forall i', j' :: InGrid(g, i', j') && Earlier(i', j', i, j) && g[i'][j'].Some? ==> g[i'][j'].value <= p.score) &&
      (forall i', j' :: InGrid(g, i', j') && Earlier(i', j', p.cell, p.unit) && g[i'][j'].Some? ==>
         g[i'][j'].value < p.score)
  }

  /** `best` is the result of scanning all of `g`. */
  ghost predicate IsFirstBest(g: Grid, best: Option<Pick>)
  {
    BestUpTo(g, best, |g|, 0)
  }

  /**
   * One step of the scan: the unit at (i, j) replaces the best when it is considered and
   * either nothing was found yet or it scores strictly more.
   */
  lemma BestUpToStep(g: Grid, best: Option<Pick>, i: nat, j: nat, next: Option<Pick>)
    requires InGrid(g, i, j) && BestUpTo(g, best, i, j)
    requires next == if g[i][j].Some? && (best.None? || g[i][j].value > best.value.score)
                     then Some(Pick(i, j, g[i][j].value)) else best
    ensures BestUpTo(g, next, i, j + 1)
  {
    forall i', j' | InGrid(g, i', j')
      ensures Earlier(i', j', i, j + 1) <==> Earlier(i', j', i, j) || (i' == i && j' == j)
    {
    }
  }

  /** Having scanned a whole row is having scanned up to the start of the next. */
  lemma BestUpToNextRow(g: Grid, best: Option<Pick>, i: nat)
    requires i < |g| && BestUpTo(g, best, i, |g[i]|)
    ensures BestUpTo(g, best, i + 1, 0)
  {
    forall i', j' | InGrid(g, i', j')
      ensures Earlier(i', j', i, |g[i]|) <==> Earlier(i', j', i + 1, 0)
    {
    }
  }

  /** The places a scan of `g` can have reached: before a unit of a row, or past the last row. */
  predicate ScanPoint(g: Grid, i: int, j: int)
  {
    0 <= i <= |g| && 0 <= j && (i < |g| ==> j <= |g[i]|) && (i == |g| ==> j == 0)
  }

  /**
   * The rule of the scan at (i, j): what it sees there replaces the best when it is
   * considered and nothing was found yet or it scores strictly more.
   */
  function Consider(best: Option<Pick>, i: nat, j: nat, seen: Option<real>): Option<Pick>
  {
    if seen.Some? && (best.None? || seen.value > best.value.score) then Some(Pick(i, j, seen.value)) else best
  }

  /** The best a scan of `g` holds on reaching (i, j). */
  function ScanTo(g: Grid, i: nat, j: nat): Option<Pick>
    requires ScanPoint(g, i, j)
    decreases i, j
  {
    if j > 0 then Consider(ScanTo(g, i, j - 1), i, j - 1, g[i][j - 1])
    else if i > 0 then ScanTo(g, i - 1, |g[i - 1]|)
    else None
  }

  /** The result of a whole scan of `g`. */
  function FirstBest(g: Grid): Option<Pick>
  {
    ScanTo(g, |g|, 0)
  }

  /** Wherever the scan is, it holds the first best of what it has seen. */
  lemma {:induction false} ScanToIsBest(g: Grid, i: nat, j: nat)
    requires ScanPoint(g, i, j)
    ensures BestUpTo(g, ScanTo(g, i, j), i, j)
    decreases i, j
  {
    if j > 0 {
      ScanToIsBest(g, i, j - 1);
      BestUpToStep(g, ScanTo(g, i, j - 1), i, j - 1, ScanTo(g, i, j));
    } else if i > 0 {
      ScanToIsBest(g, i - 1, |g[i - 1]|);
      BestUpToNextRow(g, ScanTo(g, i - 1, |g[i - 1]|), i - 1);
    }
  }

  /** The scan finds the considered unit of greatest score, the first one among equals. */
  lemma FirstBestIsFirstBest(g: Grid)
    ensures IsFirstBest(g, FirstBest(g))
  {
    ScanToIsBest(g, |g|, 0);
  }

  /** A row whose units are all passed over leaves the scan's best as it was. */
  lemma {:induction false} ScanSkipsEmptyRow(g: Grid, i: nat, j: nat)
    requires i < |g| && j <= |g[i]|
    requires forall k :: 0 <= k < |g[i]| ==> g[i][k].None?
    ensures ScanTo(g, i, j) == ScanTo(g, i, 0)
  {
    if j > 0 {
      ScanSkipsEmptyRow(g, i, j - 1);
    }
  }

  /** The scan's result is determined by what it sees: two results of the same scan coincide. */
  lemma {:induction false} FirstBestUnique(g: Grid, b1: Option<Pick>, b2: Option<Pick>)
    requires IsFirstBest(g, b1) && IsFirstBest(g, b2)
    ensures b1 == b2
  {
    match b1
    case None =>
    case Some(p1) =>
      assert g[p1.cell][p1.unit].Some?;
      var p2 := b2.value;
      assert g[p2.cell][p2.unit].Some?;
      assert p1.score == p2.score;
  }

  /** Where the status of a resident leads in a month. */
  datatype Action =
    | Idle              // homeless and not looking
    | Search            // look for a unit to rent or buy
    | LeaveAndSearch    // give the rented unit up as too dear, then look
    | Refresh           // stay and recompute happiness
    | RefreshAndLeave   // recompute happiness, then give the owned unit up

  /** The status of a resident at the start of a month. */
  datatype Status = NoHome | Tenant(monthsRented: int, fullCost: real) | Owner(monthsOwned: int)

  /**
   * The decision tree of `step`. A homeless resident looks for a home when the income beats
   * 80% of the average rent or of the average price's monthly mortgage, or else when the
   * `lookDraw` falls below 0.1. A tenant, one month further on, looks again when unhappy
   * (below the threshold and beaten by the `moveDraw`) after six months, or in any case after
   * twelve; otherwise a rent above 120% of the income makes them leave and look; otherwise
   * they stay. An owner-occupier, one month further on, stays and, after sixty months, leaves.
   */
  function StepAction(status: Status, income: real, happiness: real, avgRent: real, avgPrice: real,
                      lookDraw: real, moveDraw: real): (a: Action)
    ensures status.NoHome? ==> (a == Search || a == Idle)
    ensures status.NoHome? ==> (a == Search <==>
      income > avgRent * 0.8 || income > avgPrice * MortgageMonthlyFactor * 0.8 || lookDraw < 0.1)
    ensures status.Tenant? ==> (a == Search || a == LeaveAndSearch || a == Refresh)
    ensures status.Tenant? && status.monthsRented + 1 > 12 ==> a == Search
    ensures status.Tenant? && status.monthsRented + 1 <= 6 ==>
      a == (if status.fullCost > income * 1.2 then LeaveAndSearch else Refresh)
    ensures status.Tenant? ==> (a == Search <==>
      (happiness < HappinessFactorThreshold && moveDraw > happiness && status.monthsRented + 1 > 6) ||
      status.monthsRented + 1 > 12)
    ensures status.Tenant? && a != Search ==> (a == LeaveAndSearch <==> status.fullCost > income * 1.2)
    ensures status.Owner? ==> (a == RefreshAndLeave <==> status.monthsOwned + 1 > 60)
    ensures status.Owner? ==> (a == RefreshAndLeave || a == Refresh)
  {
    match status
    case NoHome =>
      if income > avgRent * 0.8 || income > avgPrice * MortgageMonthlyFactor * 0.8 || lookDraw < 0.1
      then Search else Idle
    case Tenant(months, fullCost) =>
      var t := months + 1;
      if (happiness < HappinessFactorThreshold && moveDraw > happiness && t > 6) || t > 12 then Search
      else if fullCost > income * 1.2 then LeaveAndSearch
      else Refresh
    case Owner(months) =>
      if months + 1 > 60 then RefreshAndLeave else Refresh
  }
}
