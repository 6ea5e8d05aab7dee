/**
 * The simulation-wide state the agents share: the cell at each grid position and the two
 * series of recent transaction prices that serve as market indices.
 */
module Markets {
  import opened Constants
  import opened Apartments
  import opened Cells

  class Market {
    /** `cell_agents_layer.data[position]`: the cell standing at each position. */
    const cellAt: Position -> Cell
    /** Every cell of the grid. */
    const allCells: set<Cell>
    const numResidents: nat
    var recentRentPrices: seq<real>
    var recentSellPrices: seq<real>

    /** The lookup only ever yields cells of the grid. */
    ghost predicate Valid()
    {
      forall p: Position :: cellAt(p) in allCells
    }

    constructor (cellAt: Position -> Cell, allCells: set<Cell>, numResidents: nat)
      requires forall p: Position :: cellAt(p) in allCells
      ensures Valid()
      ensures this.cellAt == cellAt && this.allCells == allCells && this.numResidents == numResidents
      ensures recentRentPrices == [] && recentSellPrices == []
    {
      this.cellAt := cellAt;
      this.allCells := allCells;
      this.numResidents := numResidents;
      recentRentPrices := [];
      recentSellPrices := [];
    }

    /**
     * The rent index the landlords price against: the mean of the recent rents, or the
     * starting rent while none has been recorded.
     */
    function RentIndex(): (r: real)
      reads this`recentRentPrices
      ensures recentRentPrices == [] ==> r == StartRentPrice
      ensures (forall i :: 0 <= i < |recentRentPrices| ==> recentRentPrices[i] > 0.0) ==> r > 0.0
    {
      MeanOr(recentRentPrices, StartRentPrice)
    }
  }

  function Sum(s: seq<real>): real
  {
    if s == [] then 0.0 else Sum(s[..|s| - 1]) + s[|s| - 1]
  }

  /** `np.mean(s) if s else fallback`. */
  function MeanOr(s: seq<real>, fallback: real): (r: real)
    ensures s == [] ==> r == fallback
    ensures s != [] ==> r * (|s| as real) == Sum(s)
    ensures fallback > 0.0 && (forall i :: 0 <= i < |s| ==> s[i] > 0.0) ==> r > 0.0
  {
    if s == [] then fallback
    else
      SumPositive(s);
      Sum(s) / (|s| as real)
  }

  /** A sum of positive prices is positive. */
  lemma {:induction false} SumPositive(s: seq<real>)
    requires s != []
    ensures (forall i :: 0 <= i < |s| ==> s[i] > 0.0) ==> Sum(s) > 0.0
  {
    if |s| > 1 {
      SumPositive(s[..|s| - 1]);
    }
  }

  /** The mean of prices lying in [lo, hi] lies in [lo, hi] too. */
  lemma MeanWithin(s: seq<real>, lo: real, hi: real)
    requires s != []
    requires forall i :: 0 <= i < |s| ==> lo <= s[i] <= hi
    ensures lo <= MeanOr(s, 0.0) <= hi
  {
    SumWithin(s, lo, hi);
    var n := |s| as real;
    var m := MeanOr(s, 0.0);
    assert m * n == Sum(s);
    assert n * lo <= m * n <= n * hi;
  }

  lemma {:induction false} SumWithin(s: seq<real>, lo: real, hi: real)
    requires forall i :: 0 <= i < |s| ==> lo <= s[i] <= hi
    ensures (|s| as real) * lo <= Sum(s) <= (|s| as real) * hi
  {
    if s != [] {
      SumWithin(s[..|s| - 1], lo, hi);
    }
  }
}
