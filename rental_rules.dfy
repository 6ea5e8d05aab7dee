/**
 * The landlord's pricing and accounting rules as values (`landlord_agent.py`): the ROI of a
 * candidate purchase, and what one month of management does to a rental unit and to the
 * landlord's cash.
 */
module RentalRules {
  import opened Constants
  import opened Draws
  import opened Apartments

  /** The fields of a unit that rental management reads and writes. */
  datatype Holding = Holding(occupied: bool, timeRented: int, timeAtMarket: int,
                             rent: real, bills: real, freshness: real)

  /**
   * The draws of one month of management: `raise` decides a rent rise (below 0.5), `growth`
   * is the standard normal behind `np.random.normal(1.05, 0.02)`, `renovation` the draw
   * behind the renovation cost factor `random.uniform(0.8, 1.2)`, `refresh` the draw behind
   * the new freshness.
   */
  datatype RentalDraws = RentalDraws(raise: Unit, growth: real, renovation: Unit, refresh: Unit)

  /** Asking rent: the rent index marked up by the landlord's profit margin. */
  function MonthlyRent(rentIndex: real, profitMargin: real): (r: real)
    ensures rentIndex > 0.0 && profitMargin > -1.0 ==> r > 0.0
    ensures profitMargin >= 0.0 && rentIndex >= 0.0 ==> r >= rentIndex
  {
    var markup := 1.0 + profitMargin;
    MulPositive(rentIndex, markup);
    rentIndex * markup
  }

  /** Renovation cost: proportional to the missing freshness, scaled by a factor in [0.8, 1.2]. */
  function RenovationCost(freshness: real, u: Unit): (c: real)
    ensures freshness < 1.0 ==> c > 0.0
    ensures freshness == 1.0 ==> c == 0.0
  {
    var factor := Uniform(0.8, 1.2, u);
    var missing := FullHouseRenovationCost * (1.0 - freshness);
    MulPositive(FullHouseRenovationCost, 1.0 - freshness);
    MulPositive(missing, factor);
    missing * factor
  }

  /**
   * What buying a unit really costs: its price, plus a renovation surcharge only when its
   * freshness is below 0.7.
   */
  function FullBuyCost(price: real, freshness: real, u: Unit): (c: real)
    ensures freshness >= 0.7 ==> c == price
    ensures freshness < 0.7 ==> c > price
  {
    var surcharge := if freshness < 0.7 then 1.0 - freshness else 0.0;
    var factor := Uniform(0.8, 1.2, u);
    var scaled := surcharge * FullHouseRenovationCost;
    assert freshness < 0.7 ==> scaled > 0.0;
    price + scaled * factor
  }

  /** ROI in months: how many months of asking rent pay back the full buying cost. */
  function Roi(price: real, freshness: real, u: Unit, rentIndex: real, profitMargin: real): (months: real)
    requires MonthlyRent(rentIndex, profitMargin) != 0.0
    ensures months * MonthlyRent(rentIndex, profitMargin) == FullBuyCost(price, freshness, u)
  {
    FullBuyCost(price, freshness, u) / MonthlyRent(rentIndex, profitMargin)
  }

  /**
   * One month of management of a unit. An occupied unit accrues a month of tenure and, on
   * each twelfth month when the rise draw is below 0.5, its rent grows by the drawn factor
   * but never below the rent index. A vacant unit accrues a month on the market; from its
   * third month on the market its rent drops by 2.5% every month, and a unit that has also
   * fallen below freshness 0.4 is renovated.
   */
  function Managed(h: Holding, rentIndex: real, d: RentalDraws): (r: Holding)
    ensures r.occupied == h.occupied && r.bills == h.bills
    ensures h.occupied ==>
      r.timeRented == h.timeRented + 1 && r.timeAtMarket == h.timeAtMarket && r.freshness == h.freshness
    ensures h.occupied && r.rent != h.rent ==> r.timeRented % 12 == 0 && r.rent >= rentIndex
    ensures h.occupied && (h.timeRented + 1) % 12 != 0 ==> r.rent == h.rent
    ensures !h.occupied ==> r.timeAtMarket == h.timeAtMarket + 1 && r.timeRented == h.timeRented
    ensures !h.occupied ==> r.rent == if r.timeAtMarket > 2 then h.rent * 0.975 else h.rent
    ensures !h.occupied && r.freshness != h.freshness ==>
      r.timeAtMarket > 2 && h.freshness < 0.4 && 0.85 <= r.freshness <= 1.0
    ensures !h.occupied && r.timeAtMarket > 2 && h.freshness < 0.4 ==> 0.85 <= r.freshness <= 1.0
  {
    if h.occupied then
      var months := h.timeRented + 1;
      if months % 12 == 0 && d.raise < 0.5 then
        var grown := h.rent * Normal(1.05, 0.02, d.growth);
        h.(timeRented := months, rent := if grown >= rentIndex then grown else rentIndex)
      else
        h.(timeRented := months)
    else
      var months := h.timeAtMarket + 1;
      if months > 2 then
        h.(timeAtMarket := months, rent := h.rent * 0.975,
           freshness := if h.freshness < 0.4 then Renovated(d.refresh) else h.freshness)
      else
        h.(timeAtMarket := months)
  }

  /**
   * The landlord's cash from one month of management: the rent of an occupied unit, or the
   * bills of a vacant one, plus the renovation cost when the unit gets renovated.
   */
  function CashFlow(h: Holding, d: RentalDraws): (c: real)
    ensures h.occupied ==> c == h.rent
    ensures !h.occupied && (h.timeAtMarket + 1 <= 2 || h.freshness >= 0.4) ==> c == -h.bills
    ensures !h.occupied && h.timeAtMarket + 1 > 2 && h.freshness < 0.4 ==> c < -h.bills
  {
    if h.occupied then h.rent
    else if h.timeAtMarket + 1 > 2 && h.freshness < 0.4 then -h.bills - RenovationCost(h.freshness, d.renovation)
    else -h.bills
  }

  /** Cash from managing a list of units in order, the k-th with draws `d(k)`. */
  function TotalCash(hs: seq<Holding>, d: nat -> RentalDraws): real
  {
    if hs == [] then 0.0 else TotalCash(hs[..|hs| - 1], d) + CashFlow(hs[|hs| - 1], d(|hs| - 1))
  }

  /** With every unit let, a month of management earns exactly the sum of the rents. */
  lemma {:induction false} TotalCashAllLet(hs: seq<Holding>, d: nat -> RentalDraws)
    requires forall k :: 0 <= k < |hs| ==> hs[k].occupied
    ensures TotalCash(hs, d) == TotalRent(hs)
  {
    if hs != [] {
      TotalCashAllLet(hs[..|hs| - 1], d);
    }
  }

  function TotalRent(hs: seq<Holding>): real
  {
    if hs == [] then 0.0 else TotalRent(hs[..|hs| - 1]) + hs[|hs| - 1].rent
  }

  /** The purchase gate of a landlord's step. */
  function BuysNow(capital: real, draw: Unit, aptsToRentCount: int): (b: bool)
    ensures b ==> capital > HouseBuildCost && aptsToRentCount < 5
    ensures b ==> draw < 0.7
    ensures capital > HouseBuildCost && aptsToRentCount < 5 && draw < 0.7 ==> b
  {
    capital > HouseBuildCost && draw < 0.7 && aptsToRentCount < 5
  }
}
