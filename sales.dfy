// The production plan (calculate_sales.py): for each period, the integer
// numbers of ducks and fish that maximise profit within the required
// minimums, the factory maximums and the pellet budget.
module Sales {
  import opened Records

  /** The keyword parameters of `solve_amount_problem`. Profits are floats
      in the program; pellet amounts and capacities are integers. */
  datatype Params = Params(
    profitPerDuck: real,
    profitPerFish: real,
    pelletsPerDuck: int,
    pelletsPerFish: int,
    maxAllowedPellets: int,
    maxCountDucks: int,
    maxCountFish: int)

  /** The defaults every call in the program uses. */
  const DefaultParams: Params := Params(5.0, 4.0, 100, 125, 50000, 400, 300)

  /** The result columns Optimal_Ducks, Optimal_Fish, Optimal_Total and
      Optimal_Profit, or the report that no integer point meets the
      constraints. */
  datatype Allocation =
    | Optimal(optimalDucks: nat, optimalFish: nat, optimalTotal: nat, optimalProfit: real)
    | Infeasible

  /** The objective "Total Sales Amount". */
  function Objective(p: Params, ducks: int, fish: int): real {
    p.profitPerDuck * (ducks as real) + p.profitPerFish * (fish as real)
  }

  /** The integer points the program's problem admits: both variables have
      lower bound 0, then "Min Ducks", "Min Fishes", the two factory
      restrictions and the pellet limit. */
  predicate Feasible(p: Params, requiredDucks: int, requiredFishes: int, ducks: int, fish: int) {
    && 0 <= ducks && 0 <= fish
    && requiredDucks <= ducks
    && requiredFishes <= fish
    && ducks <= p.maxCountDucks
    && fish <= p.maxCountFish
    && Pellets(p, ducks, fish) <= p.maxAllowedPellets
  }

  /** Lexicographic order on (ducks, fish) points, used to pick one optimum. */
  predicate LexLess(d1: int, f1: int, d2: int, f2: int) {
    d1 < d2 || (d1 == d2 && f1 < f2)
  }

  predicate LexLeq(d1: int, f1: int, d2: int, f2: int) {
    d1 < d2 || (d1 == d2 && f1 <= f2)
  }

  /** A candidate (ducks, fish, profit) is at least as good as the point
      (d, f): strictly more profitable, or as profitable and not later in
      lexicographic order. */
  predicate Preferred(p: Params, ducks: int, fish: int, profit: real, d: int, f: int) {
    Objective(p, d, f) < profit || (Objective(p, d, f) == profit && LexLeq(ducks, fish, d, f))
  }

  /** What a correct answer to one period's problem is: Infeasible exactly
      when no integer point meets the constraints; otherwise a feasible
      point with its total and profit that is at least as good as every
      feasible point, so it maximises profit and, among the maximisers, is
      the lexicographically least. */
  ghost predicate IsSolution(p: Params, requiredDucks: int, requiredFishes: int, r: Allocation) {
    match r
    case Infeasible =>
      forall d, f :: !Feasible(p, requiredDucks, requiredFishes, d, f)
    case Optimal(ducks, fish, total, profit) =>
      && Feasible(p, requiredDucks, requiredFishes, ducks, fish)
      && total == ducks + fish
      && profit == Objective(p, ducks, fish)
      && forall d, f :: Feasible(p, requiredDucks, requiredFishes, d, f) ==> Preferred(p, ducks, fish, profit, d, f)
  }

  /** IsSolution restricted to the points lexicographically before (d, f):
      what the search below has established after visiting those points. */
  ghost predicate SolvedBefore(p: Params, requiredDucks: int, requiredFishes: int, r: Allocation, d: int, f: int) {
    match r
    case Infeasible =>
      forall d', f' :: Feasible(p, requiredDucks, requiredFishes, d', f') ==> !LexLess(d', f', d, f)
    case Optimal(ducks, fish, total, profit) =>
      && Feasible(p, requiredDucks, requiredFishes, ducks, fish)
      && LexLess(ducks, fish, d, f)
      && total == ducks + fish
      && profit == Objective(p, ducks, fish)
      && forall d', f' :: Feasible(p, requiredDucks, requiredFishes, d', f') && LexLess(d', f', d, f) ==>
           Preferred(p, ducks, fish, profit, d', f')
  }

  /** Pellets used by a plan: the left-hand side of "Pellets Limit". */
  function Pellets(p: Params, ducks: int, fish: int): int {
    p.pelletsPerDuck * ducks + p.pelletsPerFish * fish
  }

  /** One step of the search: the point (ducks, fish) of the box replaces the
      best plan so far when it meets the pellet limit and is strictly more
      profitable. */
  function Visit(p: Params, best: Allocation, ducks: nat, fish: nat): Allocation {
    if Pellets(p, ducks, fish) <= p.maxAllowedPellets then
      var profit := Objective(p, ducks, fish);
      if best.Infeasible? || profit > best.optimalProfit then Optimal(ducks, fish, ducks + fish, profit)
      else best
    else best
  }

  /** Visiting the next point of the box extends what is known by one point. */
  lemma {:induction false} VisitExtends(p: Params, requiredDucks: int, requiredFishes: int, best: Allocation, ducks: nat, fish: nat)
    requires LowerBound(requiredDucks) <= ducks <= p.maxCountDucks
    requires LowerBound(requiredFishes) <= fish <= p.maxCountFish
    requires SolvedBefore(p, requiredDucks, requiredFishes, best, ducks, fish)
    ensures SolvedBefore(p, requiredDucks, requiredFishes, Visit(p, best, ducks, fish), ducks, fish + 1)
  {
    var next := Visit(p, best, ducks, fish);
    assert Feasible(p, requiredDucks, requiredFishes, ducks, fish) <==> Pellets(p, ducks, fish) <= p.maxAllowedPellets;
    forall d, f | Feasible(p, requiredDucks, requiredFishes, d, f) && LexLess(d, f, ducks, fish + 1)
      ensures next.Optimal? && Preferred(p, next.optimalDucks, next.optimalFish, next.optimalProfit, d, f)
    {
      if LexLess(d, f, ducks, fish) {
        assert best.Optimal? && Preferred(p, best.optimalDucks, best.optimalFish, best.optimalProfit, d, f);
      } else {
        assert d == ducks && f == fish;
        if best.Optimal? {
          assert LexLess(best.optimalDucks, best.optimalFish, ducks, fish);
        }
      }
    }
  }

  /** Past the last fish count of a row, the row is done. */
  lemma {:induction false} RowDone(p: Params, requiredDucks: int, requiredFishes: int, best: Allocation, ducks: int, fish: int)
    requires fish > p.maxCountFish
    requires SolvedBefore(p, requiredDucks, requiredFishes, best, ducks, fish)
    ensures SolvedBefore(p, requiredDucks, requiredFishes, best, ducks + 1, LowerBound(requiredFishes))
  {
  }

  /** Past the last duck count, the whole box is done. */
  lemma {:induction false} SearchDone(p: Params, requiredDucks: int, requiredFishes: int, best: Allocation, ducks: int)
    requires ducks > p.maxCountDucks
    requires SolvedBefore(p, requiredDucks, requiredFishes, best, ducks, LowerBound(requiredFishes))
    ensures IsSolution(p, requiredDucks, requiredFishes, best)
  {
  }

  /** `solve_amount_problem`, with an exhaustive search over the integer box
      that the bounds define in place of the external MILP solver. Points are
      visited in lexicographic order and the best one is replaced only by a
      strictly more profitable one. Unlike the program, which returns the
      solver's variable values whatever its status, the result reports
      infeasibility explicitly. */
  method SolveAmountProblem(p: Params, requiredDucks: int, requiredFishes: int) returns (r: Allocation)
    ensures IsSolution(p, requiredDucks, requiredFishes, r)
  {
    var lowDucks, lowFish := LowerBound(requiredDucks), LowerBound(requiredFishes);
    r := Infeasible;
    var ducks := lowDucks;
    while ducks <= p.maxCountDucks
      invariant lowDucks <= ducks
      invariant SolvedBefore(p, requiredDucks, requiredFishes, r, ducks, lowFish)
    {
      var fish := lowFish;
      while fish <= p.maxCountFish
        invariant lowFish <= fish
        invariant SolvedBefore(p, requiredDucks, requiredFishes, r, ducks, fish)
      {
        VisitExtends(p, requiredDucks, requiredFishes, r, ducks, fish);
        r := Visit(p, r, ducks, fish);
        fish := fish + 1;
      }
      RowDone(p, requiredDucks, requiredFishes, r, ducks, fish);
      ducks := ducks + 1;
    }
    SearchDone(p, requiredDucks, requiredFishes, r, ducks);
  }

  /** The answer to a problem is unique: the search's tie-break makes the
      result reproducible. */
  lemma {:induction false} SolutionUnique(p: Params, requiredDucks: int, requiredFishes: int, r1: Allocation, r2: Allocation)
    requires IsSolution(p, requiredDucks, requiredFishes, r1)
    requires IsSolution(p, requiredDucks, requiredFishes, r2)
    ensures r1 == r2
  {
    match r1
    case Infeasible =>
    case Optimal(d1, f1, _, _) =>
      assert Feasible(p, requiredDucks, requiredFishes, d1, f1);
      var d2, f2 := r2.optimalDucks, r2.optimalFish;
      assert Feasible(p, requiredDucks, requiredFishes, d2, f2);
      assert Preferred(p, d1, f1, r1.optimalProfit, d2, f2);
      assert Preferred(p, d2, f2, r2.optimalProfit, d1, f1);
  }

  /** The effective lower bound of a variable: its required minimum or 0. */
  function LowerBound(required: int): (b: nat)
    ensures b >= required && (required >= 0 ==> b == required)
  {
    if required > 0 then required else 0
  }

  lemma MulMonotone(a: int, x: int, y: int)
    requires 0 <= a && x <= y
    ensures a * x <= a * y
  {
    assert a * y == a * x + a * (y - x);
  }

  /** With non-negative pellet costs, a period's problem is infeasible
      exactly when a required minimum exceeds its factory maximum or the
      minimums alone already exceed the pellet budget. */
  lemma {:induction false} FeasibilityCriterion(p: Params, requiredDucks: int, requiredFishes: int)
    requires p.pelletsPerDuck >= 0 && p.pelletsPerFish >= 0
    ensures (exists d, f :: Feasible(p, requiredDucks, requiredFishes, d, f)) <==>
      && LowerBound(requiredDucks) <= p.maxCountDucks
      && LowerBound(requiredFishes) <= p.maxCountFish
      && p.pelletsPerDuck * LowerBound(requiredDucks) + p.pelletsPerFish * LowerBound(requiredFishes) <= p.maxAllowedPellets
  {
    var ld, lf := LowerBound(requiredDucks), LowerBound(requiredFishes);
    if exists d, f :: Feasible(p, requiredDucks, requiredFishes, d, f) {
      var d, f :| Feasible(p, requiredDucks, requiredFishes, d, f);
      MulMonotone(p.pelletsPerDuck, ld, d);
      MulMonotone(p.pelletsPerFish, lf, f);
    } else {
      if ld <= p.maxCountDucks && lf <= p.maxCountFish
         && p.pelletsPerDuck * ld + p.pelletsPerFish * lf <= p.maxAllowedPellets {
        assert Feasible(p, requiredDucks, requiredFishes, ld, lf);
      }
    }
  }

  /** Requiring more ducks than the factory can make (500 against 400) has
      no solution under the default parameters. */
  lemma {:induction false} DefaultTooManyDucks(r: Allocation)
    requires IsSolution(DefaultParams, 500, 0, r)
    ensures r == Infeasible
  {
  }

  /** With the default parameters and required (50 ducks, 40 fish), the plan
      is 400 ducks and 80 fish for a profit of 2320: ducks earn more per
      pellet, so they go to capacity and the remaining 10000 pellets buy 80
      fish. */
  lemma {:induction false} DefaultScenario(r: Allocation)
    requires IsSolution(DefaultParams, 50, 40, r)
    ensures r == Optimal(400, 80, 480, 2320.0)
  {
    var p := DefaultParams;
    assert Feasible(p, 50, 40, 400, 80);
    match r
    case Infeasible =>
    case Optimal(d, f, _, profit) =>
      assert Preferred(p, d, f, profit, 400, 80);
      // 125 * (5d + 4f) = 4 * (100d + 125f) + 225d <= 4 * 50000 + 225 * 400.
      assert 125 * (5 * d + 4 * f) == 4 * (100 * d + 125 * f) + 225 * d;
      assert Objective(p, d, f) == (5 * d + 4 * f) as real;
  }

  /** The row of `process_data`: the input row followed by its four result
      columns. */
  datatype SalesRow = SalesRow(record: Record, allocation: Allocation)

  /** `process_data`: every input row is solved on its own, with its Ducks
      count as the required ducks and its Fish count as the required fish,
      and keeps its place in the table. */
  method ProcessData(rows: seq<Record>) returns (out: seq<SalesRow>)
    ensures |out| == |rows|
    ensures forall i :: 0 <= i < |rows| ==>
      && out[i].record == rows[i]
      && IsSolution(DefaultParams, rows[i].ducks, rows[i].fish, out[i].allocation)
  {
    out := [];
    for i := 0 to |rows|
      invariant |out| == i
      invariant forall k :: 0 <= k < i ==>
        && out[k].record == rows[k]
        && IsSolution(DefaultParams, rows[k].ducks, rows[k].fish, out[k].allocation)
    {
      var allocation := SolveAmountProblem(DefaultParams, rows[i].ducks, rows[i].fish);
      out := out + [SalesRow(rows[i], allocation)];
    }
  }
}
