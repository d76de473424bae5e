/** Selecting one policy per task by success minus a cost price, for a frozen grid of prices, and
    the oracle that selects with the observed outcomes themselves. */
module Frontier {
  import opened Common
  import opened Pareto
  import opened Reals

  datatype Prediction = Prediction(successProb: real, costMean: real)
  datatype Observation = Observation(verified: bool, cost: real)

  /** A policy's success and cost on one task, predicted or observed. */
  datatype Cell = Cell(success: real, cost: real)

  type Table = seq<seq<Cell>>

  function Predicted(predictions: seq<seq<Prediction>>): Table {
    seq(|predictions|, i requires 0 <= i < |predictions| =>
      seq(|predictions[i]|, j requires 0 <= j < |predictions[i]| =>
        Cell(predictions[i][j].successProb, predictions[i][j].costMean)))
  }

  function Observed(outcomes: seq<seq<Observation>>): Table {
    seq(|outcomes|, i requires 0 <= i < |outcomes| =>
      seq(|outcomes[i]|, j requires 0 <= j < |outcomes[i]| =>
        Cell(if outcomes[i][j].verified then 1.0 else 0.0, outcomes[i][j].cost)))
  }

  // ---- One task ----

  function Score(c: Cell, price: real): real {
    c.success - price * c.cost
  }

  /** Higher score, then lower cost, then lower index. */
  predicate Beats(cells: seq<Cell>, price: real, i: nat, j: nat)
    requires i < |cells| && j < |cells|
  {
    var a, b := Score(cells[i], price), Score(cells[j], price);
    a > b || (a == b && (cells[i].cost < cells[j].cost || (cells[i].cost == cells[j].cost && i < j)))
  }

  lemma Challenge(cells: seq<Cell>, price: real, i: nat, before: nat)
    requires before < i < |cells|
    requires forall j :: 0 <= j < i && j != before ==> Beats(cells, price, before, j)
    ensures Beats(cells, price, i, before) ==> forall j :: 0 <= j < i ==> Beats(cells, price, i, j)
    ensures !Beats(cells, price, i, before) ==> Beats(cells, price, before, i)
  {
    hide Score;
    forall j | 0 <= j < i && Beats(cells, price, i, before) ensures Beats(cells, price, i, j) {
      assert j == before || Beats(cells, price, before, j);
    }
  }

  function BestAmong(cells: seq<Cell>, price: real, n: nat): (best: nat)
    requires 0 < n <= |cells|
    ensures best < n && forall j :: 0 <= j < n && j != best ==> Beats(cells, price, best, j)
  {
    if n == 1 then 0
    else
      var before := BestAmong(cells, price, n - 1);
      Challenge(cells, price, n - 1, before);
      if Beats(cells, price, n - 1, before) then n - 1 else before
  }

  function Best(cells: seq<Cell>, price: real): (best: nat)
    requires cells != []
    ensures best < |cells| && forall j :: 0 <= j < |cells| && j != best ==> Beats(cells, price, best, j)
  {
    BestAmong(cells, price, |cells|)
  }

  lemma BestScores(cells: seq<Cell>, price: real, j: nat)
    requires j < |cells|
    ensures var b := cells[Best(cells, price)];
      && Score(cells[j], price) <= Score(b, price)
      && (Score(cells[j], price) == Score(b, price) ==> b.cost <= cells[j].cost)
  {
    if j != Best(cells, price) {
      assert Beats(cells, price, Best(cells, price), j);
    }
  }

  /** A higher price never selects more cost, nor more success, on any task. */
  lemma PickFalls(cells: seq<Cell>, low: real, high: real)
    requires cells != [] && 0.0 <= low < high
    ensures cells[Best(cells, high)].cost <= cells[Best(cells, low)].cost
    ensures cells[Best(cells, high)].success <= cells[Best(cells, low)].success
  {
    hide Best;
    BestScores(cells, low, Best(cells, high));
    BestScores(cells, high, Best(cells, low));
    Revealed(cells[Best(cells, low)], cells[Best(cells, high)], low, high);
  }

  lemma Revealed(a: Cell, b: Cell, low: real, high: real)
    requires 0.0 <= low < high && Score(a, low) >= Score(b, low) && Score(b, high) >= Score(a, high)
    ensures b.cost <= a.cost && b.success <= a.success
  {
    var d := a.cost - b.cost;
    assert (high - low) * d >= 0.0;
    assert d >= 0.0;
    assert low * d >= 0.0;
    assert low * d == low * a.cost - low * b.cost;
  }

  // ---- All tasks ----

  ghost predicate Full(t: Table) {
    forall i :: 0 <= i < |t| ==> t[i] != []
  }

  predicate Fits(t: Table, picks: seq<nat>) {
    |picks| == |t| && forall i :: 0 <= i < |t| ==> picks[i] < |t[i]|
  }

  function Picks(t: Table, price: real): (picks: seq<nat>)
    requires Full(t)
    ensures Fits(t, picks)
  {
    seq(|t|, i requires 0 <= i < |t| => Best(t[i], price))
  }

  function SuccessSum(t: Table, picks: seq<nat>): real
    requires Fits(t, picks)
  {
    if t == [] then 0.0
    else var n := |t| - 1; SuccessSum(t[..n], picks[..n]) + t[n][picks[n]].success
  }

  function CostSum(t: Table, picks: seq<nat>): real
    requires Fits(t, picks)
  {
    if t == [] then 0.0
    else var n := |t| - 1; CostSum(t[..n], picks[..n]) + t[n][picks[n]].cost
  }

  function MeanPoint(t: Table, picks: seq<nat>): Point
    requires t != [] && Fits(t, picks)
  {
    Point(CostSum(t, picks) / |t| as real, SuccessSum(t, picks) / |t| as real)
  }

  lemma PicksPrefix(t: Table, price: real)
    requires Full(t) && t != []
    ensures Full(t[..|t| - 1]) && Picks(t, price)[..|t| - 1] == Picks(t[..|t| - 1], price)
    ensures t[|t| - 1] != [] && Picks(t, price)[|t| - 1] == Best(t[|t| - 1], price)
  {}

  /** Main result: raising the price lowers the selected mean cost and the selected mean success,
      both as seen by the selection. */
  lemma {:induction false} SelectionFalls(t: Table, low: real, high: real)
    requires Full(t) && 0.0 <= low < high
    ensures CostSum(t, Picks(t, high)) <= CostSum(t, Picks(t, low))
    ensures SuccessSum(t, Picks(t, high)) <= SuccessSum(t, Picks(t, low))
  {
    hide Best, Picks;
    if t != [] {
      PicksPrefix(t, low);
      PicksPrefix(t, high);
      SelectionFalls(t[..|t| - 1], low, high);
      PickFalls(t[|t| - 1], low, high);
    }
  }

  /** Main result: at its own price the selection is worth at least as much as any assignment, and
      among assignments of equal worth it is cheapest. */
  lemma {:induction false} SelectionIsBest(t: Table, price: real, picks: seq<nat>)
    requires Full(t) && Fits(t, picks)
    ensures var mine := Picks(t, price);
      var best := SuccessSum(t, mine) - price * CostSum(t, mine);
      var other := SuccessSum(t, picks) - price * CostSum(t, picks);
      other <= best && (other == best ==> CostSum(t, mine) <= CostSum(t, picks))
  {
    hide Best, Picks;
    if t != [] {
      var n := |t| - 1;
      var mine := Picks(t, price);
      PicksPrefix(t, price);
      SelectionIsBest(t[..n], price, picks[..n]);
      BestScores(t[n], price, picks[n]);
      Distribute(price, CostSum(t[..n], mine[..n]), t[n][mine[n]].cost);
      Distribute(price, CostSum(t[..n], picks[..n]), t[n][picks[n]].cost);
    }
  }

  lemma Distribute(price: real, a: real, b: real)
    ensures price * (a + b) == price * a + price * b
  {}

  /** Main result: no assignment whatsoever dominates a selection made on the outcomes. At price
      zero this rests on the cost tie-break. */
  lemma OracleIsUndominated(t: Table, price: real, picks: seq<nat>)
    requires Full(t) && t != [] && Fits(t, picks) && price >= 0.0
    ensures !Dominates(MeanPoint(t, picks), MeanPoint(t, Picks(t, price)))
  {
    hide Picks, SuccessSum, CostSum;
    var mine, n := Picks(t, price), |t| as real;
    SelectionIsBest(t, price, picks);
    DivideKeepsOrder(CostSum(t, picks), CostSum(t, mine), n);
    DivideKeepsOrder(SuccessSum(t, mine), SuccessSum(t, picks), n);
    var saved := CostSum(t, mine) - CostSum(t, picks);
    if saved >= 0.0 {
      assert price * saved >= 0.0;
      assert price * saved == price * CostSum(t, mine) - price * CostSum(t, picks);
    }
  }

  function OraclePoints(t: Table, grid: seq<real>): seq<Point>
    requires Full(t) && t != []
  {
    seq(|grid|, k requires 0 <= k < |grid| => MeanPoint(t, Picks(t, grid[k])))
  }

  /** Main result: filtering the oracle's operating points removes none of them. */
  lemma OracleFrontierKeepsEveryPoint(t: Table, grid: seq<real>)
    requires Full(t) && t != [] && forall price <- grid :: price >= 0.0
    ensures forall p <- OraclePoints(t, grid) :: p in FrontierOf(OraclePoints(t, grid))
  {
    var points := OraclePoints(t, grid);
    FrontierIsExact(points);
    hide FrontierOf, MeanPoint, Picks;
    forall p, q | p in points && q in points ensures !Dominates(q, p) {
      var i :| 0 <= i < |grid| && points[i] == p;
      var j :| 0 <= j < |grid| && points[j] == q;
      assert grid[i] in grid;
      OracleIsUndominated(t, grid[i], Picks(t, grid[j]));
    }
  }

  // ---- Pure success ----

  function MostSuccess(row: seq<Cell>): (most: real)
    requires row != []
    ensures forall c <- row :: c.success <= most
    ensures exists c <- row :: c.success == most
  {
    if |row| == 1 then row[0].success
    else
      var rest := MostSuccess(row[1..]);
      assert row == [row[0]] + row[1..];
      if row[0].success >= rest then row[0].success else rest
  }

  function PureSuccessSum(t: Table): real
    requires Full(t)
  {
    if t == [] then 0.0
    else
      var n := |t| - 1;
      PureSuccessSum(t[..n]) + MostSuccess(t[n])
  }

  /** Pure success bounds every assignment and is what the oracle attains at price zero. */
  lemma {:induction false} PureSuccessIsAttained(t: Table, picks: seq<nat>)
    requires Full(t) && Fits(t, picks)
    ensures SuccessSum(t, picks) <= PureSuccessSum(t) == SuccessSum(t, Picks(t, 0.0))
  {
    hide Best, Picks;
    if t != [] {
      var n := |t| - 1;
      PicksPrefix(t, 0.0);
      PureSuccessIsAttained(t[..n], picks[..n]);
      var j :| 0 <= j < |t[n]| && t[n][j].success == MostSuccess(t[n]);
      BestScores(t[n], 0.0, j);
      assert t[n][picks[n]] in t[n] && t[n][Best(t[n], 0.0)] in t[n];
    }
  }

  // ---- The evaluation ----

  ghost predicate WellFormed(predictions: seq<seq<Prediction>>, outcomes: seq<seq<Observation>>, grid: seq<real>) {
    && predictions != [] && |outcomes| == |predictions|
    && 0.0 in grid && (forall price <- grid :: price >= 0.0)
    && predictions[0] != []
    && forall i :: 0 <= i < |predictions| ==> RowOk(predictions[i], outcomes[i], |predictions[0]|)
  }

  ghost predicate RowOk(predictions: seq<Prediction>, outcomes: seq<Observation>, policies: nat) {
    && |predictions| == policies && |outcomes| == policies
    && forall j :: 0 <= j < policies ==> CellOk(predictions[j], outcomes[j])
  }

  predicate CellOk(p: Prediction, o: Observation) {
    0.0 <= p.successProb <= 1.0 && p.costMean >= 0.0 && o.cost >= 0.0
  }

  method Validate(predictions: seq<seq<Prediction>>, outcomes: seq<seq<Observation>>, grid: seq<real>)
    returns (ok: bool)
    ensures ok <==>
      && predictions != [] && |outcomes| == |predictions| && predictions[0] != []
      && 0.0 in grid && (forall price <- grid :: price >= 0.0)
      && (forall i :: 0 <= i < |predictions| ==> |predictions[i]| == |outcomes[i]| == |predictions[0]|)
      && forall i, j :: 0 <= i < |predictions| && 0 <= j < |predictions[i]| ==>
           && 0.0 <= predictions[i][j].successProb <= 1.0
           && predictions[i][j].costMean >= 0.0 && outcomes[i][j].cost >= 0.0
    ensures ok <==> WellFormed(predictions, outcomes, grid)
  {
    if predictions == [] || |outcomes| != |predictions| || grid == [] || 0.0 !in grid {
      return false;
    }
    if (exists price <- grid :: price < 0.0) || predictions[0] == [] {
      return false;
    }
    var policies := |predictions[0]|;
    for i := 0 to |predictions|
      invariant forall k :: 0 <= k < i ==> RowOk(predictions[k], outcomes[k], policies)
    {
      if |predictions[i]| != policies || |outcomes[i]| != policies {
        return false;
      }
      for j := 0 to policies
        invariant forall k :: 0 <= k < j ==> CellOk(predictions[i][k], outcomes[i][k])
      {
        if !CellOk(predictions[i][j], outcomes[i][j]) {
          return false;
        }
      }
    }
    return true;
  }

  datatype Selected = Selected(price: real, success: real, cost: real, picks: seq<nat>)

  function SelectedAt(choice: Table, observed: Table, price: real): Selected
    requires Full(choice) && observed != [] && Fits(observed, Picks(choice, price))
  {
    var p := MeanPoint(observed, Picks(choice, price));
    Selected(price, p.success, p.cost, Picks(choice, price))
  }

  ghost predicate Matching(choice: Table, observed: Table) {
    Full(choice) && |choice| == |observed| && forall i :: 0 <= i < |choice| ==> |choice[i]| == |observed[i]|
  }

  method SelectOne(choice: Table, observed: Table, price: real) returns (selected: Selected)
    requires Matching(choice, observed) && observed != []
    ensures selected == SelectedAt(choice, observed, price)
  {
    hide Best;
    var picks: seq<nat>, success, cost := [], 0.0, 0.0;
    for i := 0 to |choice|
      invariant picks == Picks(choice, price)[..i]
      invariant success == SuccessSum(observed[..i], picks)
      invariant cost == CostSum(observed[..i], picks)
    {
      var best := Best(choice[i], price);
      success, cost := success + observed[i][best].success, cost + observed[i][best].cost;
      ghost var more := picks + [best];
      assert observed[..i + 1][..i] == observed[..i] && more[..i] == picks;
      picks := picks + [best];
    }
    assert observed[..|choice|] == observed && picks == Picks(choice, price);
    selected := Selected(price, success / |observed| as real, cost / |observed| as real, picks);
  }

  method SelectForGrid(choice: Table, observed: Table, grid: seq<real>) returns (results: seq<Selected>)
    requires Matching(choice, observed) && observed != []
    ensures |results| == |grid|
    ensures forall k :: 0 <= k < |grid| ==> results[k] == SelectedAt(choice, observed, grid[k])
  {
    hide SelectedAt, Picks;
    results := [];
    for k := 0 to |grid|
      invariant |results| == k
      invariant forall j :: 0 <= j < k ==> results[j] == SelectedAt(choice, observed, grid[j])
    {
      var selected := SelectOne(choice, observed, grid[k]);
      results := results + [selected];
    }
  }

  /** The common cost bound; costs are non-negative, so starting from zero changes nothing. */
  function MaxCost(t: Table): real {
    if t == [] then 0.0
    else var n := |t| - 1; Max(MaxCost(t[..n]), RowMax(t[n]))
  }

  function RowMax(row: seq<Cell>): real {
    if row == [] then 0.0
    else var n := |row| - 1; Max(RowMax(row[..n]), row[n].cost)
  }

  function PointsOf(results: seq<Selected>): seq<Point> {
    seq(|results|, k requires 0 <= k < |results| => Point(results[k].cost, results[k].success))
  }

  // ---- What the figures mean for predictions and outcomes ----

  /** The prediction a price prefers: highest worth, then lowest cost, then lowest index. */
  ghost predicate Preferred(row: seq<Prediction>, price: real, b: nat) {
    && b < |row|
    && forall j :: 0 <= j < |row| && j != b ==>
         var mine, other := row[b].successProb - price * row[b].costMean, row[j].successProb - price * row[j].costMean;
         mine > other || (mine == other && (row[b].costMean < row[j].costMean
                                            || (row[b].costMean == row[j].costMean && b < j)))
  }

  function Worth(o: Observation, price: real): real {
    (if o.verified then 1.0 else 0.0) - price * o.cost
  }

  /** The observed outcome a price prefers. */
  ghost predicate PreferredOutcome(row: seq<Observation>, price: real, b: nat) {
    && b < |row|
    && forall j :: 0 <= j < |row| && j != b ==>
         || Worth(row[b], price) > Worth(row[j], price)
         || (Worth(row[b], price) == Worth(row[j], price)
             && (row[b].cost < row[j].cost || (row[b].cost == row[j].cost && b < j)))
  }

  ghost predicate PicksFit(outcomes: seq<seq<Observation>>, picks: seq<nat>) {
    |picks| == |outcomes| && forall i :: 0 <= i < |outcomes| ==> picks[i] < |outcomes[i]|
  }

  /** The tasks whose picked outcome was verified. */
  ghost function VerifiedTasks(outcomes: seq<seq<Observation>>, picks: seq<nat>): set<nat>
    requires PicksFit(outcomes, picks)
  {
    set i: nat | i < |outcomes| && outcomes[i][picks[i]].verified
  }

  function PickedCost(outcomes: seq<seq<Observation>>, picks: seq<nat>, n: nat): real
    requires n <= |outcomes| && n <= |picks| && forall i :: 0 <= i < n ==> picks[i] < |outcomes[i]|
  {
    if n == 0 then 0.0 else PickedCost(outcomes, picks, n - 1) + outcomes[n - 1][picks[n - 1]].cost
  }

  /** The tasks that some policy verified. */
  ghost function SolvableTasks(outcomes: seq<seq<Observation>>): set<nat> {
    set i: nat | i < |outcomes| && exists o <- outcomes[i] :: o.verified
  }

  /** A selection counts the verified tasks among its picks and adds up their costs. */
  ghost predicate Counts(r: Selected, outcomes: seq<seq<Observation>>) {
    && outcomes != [] && PicksFit(outcomes, r.picks)
    && r.success * |outcomes| as real == |VerifiedTasks(outcomes, r.picks)| as real
    && r.cost * |outcomes| as real == PickedCost(outcomes, r.picks, |outcomes|)
  }

  lemma {:induction false} SuccessCounts(outcomes: seq<seq<Observation>>, picks: seq<nat>)
    requires PicksFit(outcomes, picks)
    ensures Fits(Observed(outcomes), picks)
    ensures SuccessSum(Observed(outcomes), picks) == |VerifiedTasks(outcomes, picks)| as real
  {
    if outcomes != [] {
      var n := |outcomes| - 1;
      SuccessCounts(outcomes[..n], picks[..n]);
      assert Observed(outcomes)[..n] == Observed(outcomes[..n]);
      var before := VerifiedTasks(outcomes[..n], picks[..n]);
      if outcomes[n][picks[n]].verified {
        assert VerifiedTasks(outcomes, picks) == before + {n};
      } else {
        assert VerifiedTasks(outcomes, picks) == before;
      }
    }
  }

  lemma {:induction false} CostCounts(outcomes: seq<seq<Observation>>, picks: seq<nat>, n: nat)
    requires PicksFit(outcomes, picks) && n <= |outcomes|
    ensures Fits(Observed(outcomes)[..n], picks[..n])
    ensures CostSum(Observed(outcomes)[..n], picks[..n]) == PickedCost(outcomes, picks, n)
  {
    if n > 0 {
      CostCounts(outcomes, picks, n - 1);
      assert Observed(outcomes)[..n][..n - 1] == Observed(outcomes)[..n - 1];
      assert picks[..n][..n - 1] == picks[..n - 1];
    }
  }

  lemma BestIsPreferred(row: seq<Prediction>, cells: seq<Cell>, price: real)
    requires cells != [] && |cells| == |row|
    requires forall j :: 0 <= j < |row| ==> cells[j] == Cell(row[j].successProb, row[j].costMean)
    ensures Preferred(row, price, Best(cells, price))
  {
    var b := Best(cells, price);
    hide Best;
    forall j | 0 <= j < |row| && j != b
      ensures
        var mine, other := row[b].successProb - price * row[b].costMean, row[j].successProb - price * row[j].costMean;
        mine > other || (mine == other && (row[b].costMean < row[j].costMean
                                           || (row[b].costMean == row[j].costMean && b < j)))
    {
      assert Beats(cells, price, b, j);
    }
  }

  lemma BestIsPreferredOutcome(row: seq<Observation>, cells: seq<Cell>, price: real)
    requires cells != [] && |cells| == |row|
    requires forall j :: 0 <= j < |row| ==> cells[j] == Cell(if row[j].verified then 1.0 else 0.0, row[j].cost)
    ensures PreferredOutcome(row, price, Best(cells, price))
  {
    var b := Best(cells, price);
    hide Best;
    assert forall j :: 0 <= j < |row| ==> Score(cells[j], price) == Worth(row[j], price);
    forall j | 0 <= j < |row| && j != b
      ensures
        || Worth(row[b], price) > Worth(row[j], price)
        || (Worth(row[b], price) == Worth(row[j], price)
            && (row[b].cost < row[j].cost || (row[b].cost == row[j].cost && b < j)))
    {
      assert Beats(cells, price, b, j);
    }
  }

  lemma MeansCount(total: real, mean: real, n: nat)
    requires n > 0 && mean == total / n as real
    ensures mean * n as real == total
  {}

  lemma MeanCounts(outcomes: seq<seq<Observation>>, picks: seq<nat>, r: Selected)
    requires outcomes != [] && PicksFit(outcomes, picks) && Fits(Observed(outcomes), picks) && r.picks == picks
    requires var p := MeanPoint(Observed(outcomes), picks); r.success == p.success && r.cost == p.cost
    ensures Counts(r, outcomes)
  {
    hide SuccessSum, CostSum, PickedCost, VerifiedTasks;
    SuccessCounts(outcomes, picks);
    CostCounts(outcomes, picks, |outcomes|);
    assert Observed(outcomes)[..|outcomes|] == Observed(outcomes) && picks[..|outcomes|] == picks;
    MeansCount(SuccessSum(Observed(outcomes), picks), r.success, |outcomes|);
    MeansCount(CostSum(Observed(outcomes), picks), r.cost, |outcomes|);
  }

  /** A selection by predictions: what it counts, and that every pick is the preferred prediction. */
  lemma SelectionMeans(predictions: seq<seq<Prediction>>, outcomes: seq<seq<Observation>>, grid: seq<real>, price: real)
    requires WellFormed(predictions, outcomes, grid)
    ensures var choice, observed := Predicted(predictions), Observed(outcomes);
      && Matching(choice, observed) && observed != []
      && var r := SelectedAt(choice, observed, price);
         && r.price == price && Counts(r, outcomes)
         && forall i :: 0 <= i < |predictions| ==> Preferred(predictions[i], price, r.picks[i])
  {
    hide Best, CellOk;
    var choice, observed := Predicted(predictions), Observed(outcomes);
    WellFormedTables(predictions, outcomes, grid);
    var r := SelectedAt(choice, observed, price);
    MeanCounts(outcomes, r.picks, r);
    forall i | 0 <= i < |predictions| ensures Preferred(predictions[i], price, r.picks[i]) {
      BestIsPreferred(predictions[i], choice[i], price);
    }
  }

  /** The same with the outcomes themselves. */
  lemma OracleMeans(predictions: seq<seq<Prediction>>, outcomes: seq<seq<Observation>>, grid: seq<real>, price: real)
    requires WellFormed(predictions, outcomes, grid)
    ensures var observed := Observed(outcomes);
      && Matching(observed, observed) && observed != []
      && var r := SelectedAt(observed, observed, price);
         && r.price == price && Counts(r, outcomes)
         && forall i :: 0 <= i < |outcomes| ==> PreferredOutcome(outcomes[i], price, r.picks[i])
  {
    hide Best, CellOk;
    var observed := Observed(outcomes);
    WellFormedTables(predictions, outcomes, grid);
    var r := SelectedAt(observed, observed, price);
    MeanCounts(outcomes, r.picks, r);
    forall i | 0 <= i < |outcomes| ensures PreferredOutcome(outcomes[i], price, r.picks[i]) {
      BestIsPreferredOutcome(outcomes[i], observed[i], price);
    }
  }

  lemma WellFormedTables(predictions: seq<seq<Prediction>>, outcomes: seq<seq<Observation>>, grid: seq<real>)
    requires WellFormed(predictions, outcomes, grid)
    ensures var choice, observed := Predicted(predictions), Observed(outcomes);
      && Matching(choice, observed) && Matching(observed, observed) && observed != [] && |predictions| == |outcomes|
      && forall i :: 0 <= i < |outcomes| ==> |predictions[i]| == |outcomes[i]| > 0
  {
    hide CellOk;
    assert forall i :: 0 <= i < |predictions| ==> RowOk(predictions[i], outcomes[i], |predictions[0]|);
  }

  /** At price zero the oracle verifies every task that some policy verified. */
  lemma PureSuccessCounts(outcomes: seq<seq<Observation>>, picks: seq<nat>)
    requires PicksFit(outcomes, picks)
    requires forall i :: 0 <= i < |outcomes| ==> PreferredOutcome(outcomes[i], 0.0, picks[i])
    ensures VerifiedTasks(outcomes, picks) == SolvableTasks(outcomes)
  {
    forall i: nat | i < |outcomes| && exists o <- outcomes[i] :: o.verified ensures outcomes[i][picks[i]].verified {
      var j :| 0 <= j < |outcomes[i]| && outcomes[i][j].verified;
      assert j != picks[i] ==> Worth(outcomes[i][picks[i]], 0.0) >= Worth(outcomes[i][j], 0.0);
    }
  }

  /** The cost bound is the largest observed cost. */
  ghost predicate CostBound(bound: real, outcomes: seq<seq<Observation>>) {
    && (forall i, j :: 0 <= i < |outcomes| && 0 <= j < |outcomes[i]| ==> outcomes[i][j].cost <= bound)
    && (bound == 0.0 || exists i, j :: 0 <= i < |outcomes| && 0 <= j < |outcomes[i]| && outcomes[i][j].cost == bound)
  }

  lemma {:induction false} RowMaxIs(row: seq<Cell>)
    ensures forall j :: 0 <= j < |row| ==> row[j].cost <= RowMax(row)
    ensures RowMax(row) == 0.0 || exists j :: 0 <= j < |row| && row[j].cost == RowMax(row)
  {
    if row != [] {
      RowMaxIs(row[..|row| - 1]);
    }
  }

  lemma {:induction false} MaxCostIs(t: Table)
    ensures forall i, j :: 0 <= i < |t| && 0 <= j < |t[i]| ==> t[i][j].cost <= MaxCost(t)
    ensures MaxCost(t) == 0.0 || exists i, j :: 0 <= i < |t| && 0 <= j < |t[i]| && t[i][j].cost == MaxCost(t)
  {
    if t != [] {
      var n := |t| - 1;
      MaxCostIs(t[..n]);
      RowMaxIs(t[n]);
    }
  }

  lemma BoundOfOutcomes(outcomes: seq<seq<Observation>>)
    ensures CostBound(MaxCost(Observed(outcomes)), outcomes)
  {
    var t := Observed(outcomes);
    MaxCostIs(t);
    hide MaxCost;
    forall i, j | 0 <= i < |outcomes| && 0 <= j < |outcomes[i]| ensures outcomes[i][j].cost <= MaxCost(t) {
      assert t[i][j].cost <= MaxCost(t);
    }
    if MaxCost(t) != 0.0 {
      var i, j :| 0 <= i < |t| && 0 <= j < |t[i]| && t[i][j].cost == MaxCost(t);
      assert outcomes[i][j].cost == MaxCost(t);
    }
  }

  datatype Report = Report(
    results: seq<Selected>, frontierPoints: seq<Point>, area: real, pureSuccess: real,
    oracle: seq<Selected>, oracleArea: real, oraclePureSuccess: real, regret: real)

  ghost function ResultPoints(choice: Table, observed: Table, grid: seq<real>): seq<Point>
    requires Matching(choice, observed) && observed != []
  {
    seq(|grid|, k requires 0 <= k < |grid| => MeanPoint(observed, Picks(choice, grid[k])))
  }

  /** The report, read off predictions and outcomes: each point counts the verified tasks of its picks and
      their costs, its picks being those its price prefers; the areas are those of its own points up to
      the largest observed cost; pure success is that at price zero, of the oracle that of every task
      some policy verified. */
  ghost predicate Faithful(r: Report, predictions: seq<seq<Prediction>>, outcomes: seq<seq<Observation>>,
                           grid: seq<real>, log: real -> real) {
    && |r.results| == |grid| == |r.oracle| && |predictions| == |outcomes|
    && (forall k :: 0 <= k < |grid| ==>
          && r.results[k].price == grid[k] == r.oracle[k].price
          && Counts(r.results[k], outcomes) && Counts(r.oracle[k], outcomes)
          && (forall i :: 0 <= i < |outcomes| ==>
                && Preferred(predictions[i], grid[k], r.results[k].picks[i])
                && PreferredOutcome(outcomes[i], grid[k], r.oracle[k].picks[i]))
          && (grid[k] == 0.0 ==> r.pureSuccess == r.results[k].success))
    && r.frontierPoints == FrontierOf(CostAndSuccess(r.results))
    && (exists bound ::
          && CostBound(bound, outcomes) && r.area == Area(r.frontierPoints, log, bound)
          && r.oracleArea == Area(FrontierOf(CostAndSuccess(r.oracle)), log, bound))
    && r.oraclePureSuccess * |outcomes| as real == |SolvableTasks(outcomes)| as real
    && r.regret == r.oraclePureSuccess - r.pureSuccess >= 0.0
  }

  ghost function CostAndSuccess(results: seq<Selected>): seq<Point> {
    seq(|results|, k requires 0 <= k < |results| => Point(results[k].cost, results[k].success))
  }

  /** The report in terms of the two tables. */
  ghost predicate Reports(r: Report, choice: Table, observed: Table, grid: seq<real>, log: real -> real) {
    && Matching(choice, observed) && Full(observed) && observed != []
    && |r.results| == |grid| == |r.oracle|
    && (forall k :: 0 <= k < |grid| ==> r.results[k] == SelectedAt(choice, observed, grid[k]))
    && (forall k :: 0 <= k < |grid| ==> r.oracle[k] == SelectedAt(observed, observed, grid[k]))
    && r.frontierPoints == FrontierOf(ResultPoints(choice, observed, grid))
    && r.area == Area(r.frontierPoints, log, MaxCost(observed))
    && r.oracleArea == Area(FrontierOf(OraclePoints(observed, grid)), log, MaxCost(observed))
    && r.pureSuccess == MeanPoint(observed, Picks(choice, 0.0)).success
    && r.oraclePureSuccess == MeanPoint(observed, Picks(observed, 0.0)).success
    && r.regret == r.oraclePureSuccess - r.pureSuccess >= 0.0
  }

  lemma ReportIsFaithful(r: Report, predictions: seq<seq<Prediction>>, outcomes: seq<seq<Observation>>, grid: seq<real>,
                         log: real -> real)
    requires WellFormed(predictions, outcomes, grid)
    requires Reports(r, Predicted(predictions), Observed(outcomes), grid, log)
    ensures Faithful(r, predictions, outcomes, grid, log)
  {
    hide Best, Picks, MeanPoint, FrontierOf, MaxCost, Area, Predicted, Observed, Preferred, PreferredOutcome;
    hide CellOk, Matching, RowOk, SolvableTasks, CostBound, VerifiedTasks, PickedCost;
    var choice, observed := Predicted(predictions), Observed(outcomes);
    forall k | 0 <= k < |grid|
      ensures r.results[k].price == grid[k] == r.oracle[k].price
      ensures Counts(r.results[k], outcomes) && Counts(r.oracle[k], outcomes)
      ensures forall i :: 0 <= i < |outcomes| ==>
        && Preferred(predictions[i], grid[k], r.results[k].picks[i])
        && PreferredOutcome(outcomes[i], grid[k], r.oracle[k].picks[i])
    {
      SelectionMeans(predictions, outcomes, grid, grid[k]);
      OracleMeans(predictions, outcomes, grid, grid[k]);
    }
    assert CostAndSuccess(r.results) == ResultPoints(choice, observed, grid);
    assert CostAndSuccess(r.oracle) == OraclePoints(observed, grid);
    BoundOfOutcomes(outcomes);
    OraclePure(predictions, outcomes, grid);
  }

  lemma OraclePure(predictions: seq<seq<Prediction>>, outcomes: seq<seq<Observation>>, grid: seq<real>)
    requires WellFormed(predictions, outcomes, grid)
    ensures var observed := Observed(outcomes);
      && Full(observed) && observed != []
      && MeanPoint(observed, Picks(observed, 0.0)).success * |outcomes| as real == |SolvableTasks(outcomes)| as real
  {
    hide Best, CellOk, SuccessSum, CostSum, PreferredOutcome;
    OracleMeans(predictions, outcomes, grid, 0.0);
    var r := SelectedAt(Observed(outcomes), Observed(outcomes), 0.0);
    PureSuccessCounts(outcomes, r.picks);
  }

  method ComputeFrontier(predictions: seq<seq<Prediction>>, outcomes: seq<seq<Observation>>, grid: seq<real>,
                         log: real -> real)
    returns (report: Result<Report>)
    ensures report.Ok? <==> WellFormed(predictions, outcomes, grid)
    ensures report.Ok? ==> Reports(report.value, Predicted(predictions), Observed(outcomes), grid, log)
    ensures report.Ok? ==> Faithful(report.value, predictions, outcomes, grid, log)
  {
    hide Best, Picks, FrontierOf, MaxCost, Area, SuccessSum, PureSuccessSum, CostSum, Faithful;
    var ok := Validate(predictions, outcomes, grid);
    if !ok {
      return Err("malformed predictions, outcomes or grid");
    }
    var choice, observed := Predicted(predictions), Observed(outcomes);
    var results := SelectForGrid(choice, observed, grid);
    var maxCost := MaxCost(observed);
    var area := FrontierArea(PointsOf(results), log, maxCost);
    var points := ParetoFrontier(PointsOf(results));
    assert PointsOf(results) == ResultPoints(choice, observed, grid);
    var zero := FirstZero(results);
    var oracle := SelectForGrid(observed, observed, grid);
    assert PointsOf(oracle) == OraclePoints(observed, grid);
    var oracleArea := FrontierArea(PointsOf(oracle), log, maxCost);
    var pure := PureSuccess(observed);
    PureSuccessIsAttained(observed, zero.picks);
    DivideKeepsOrder(SuccessSum(observed, zero.picks), PureSuccessSum(observed), |observed| as real);
    var r := Report(results, points, area, zero.success, oracle, oracleArea, pure, pure - zero.success);
    ReportIsFaithful(r, predictions, outcomes, grid, log);
    report := Ok(r);
  }

  ghost predicate InRange(t: Table) {
    forall i, j :: 0 <= i < |t| && 0 <= j < |t[i]| ==> 0.0 <= t[i][j].success <= 1.0 && 0.0 <= t[i][j].cost
  }

  lemma {:induction false} RowMaxBounds(row: seq<Cell>, j: nat)
    requires j < |row|
    ensures row[j].cost <= RowMax(row)
  {
    if j < |row| - 1 {
      RowMaxBounds(row[..|row| - 1], j);
    }
  }

  lemma {:induction false} SuccessInRange(t: Table, picks: seq<nat>)
    requires InRange(t) && Fits(t, picks)
    ensures 0.0 <= SuccessSum(t, picks) <= |t| as real
  {
    if t != [] {
      SuccessInRange(t[..|t| - 1], picks[..|t| - 1]);
    }
  }

  lemma {:induction false} CostInRange(t: Table, picks: seq<nat>)
    requires InRange(t) && Fits(t, picks)
    ensures 0.0 <= CostSum(t, picks) <= Rectangle(MaxCost(t), |t| as real)
  {
    hide Rectangle;
    if t != [] {
      var n := |t| - 1;
      CostInRange(t[..n], picks[..n]);
      RowMaxBounds(t[n], picks[n]);
      Accumulate(n, MaxCost(t[..n]), MaxCost(t), CostSum(t[..n], picks[..n]), t[n][picks[n]].cost);
    } else {
      FlatRectangle(MaxCost(t));
    }
  }

  lemma Accumulate(n: nat, low: real, high: real, total: real, more: real)
    requires low <= high && total <= Rectangle(low, n as real) && more <= high
    ensures total + more <= Rectangle(high, (n + 1) as real)
  {
    RectangleGrows(low, high, n as real);
    RectangleSplits(high, n as real, 1.0);
  }

  lemma MeanInRange(t: Table, picks: seq<nat>)
    requires InRange(t) && Fits(t, picks) && t != []
    ensures var p := MeanPoint(t, picks); 0.0 <= p.success <= 1.0 && 0.0 <= p.cost <= MaxCost(t)
  {
    hide SuccessSum, CostSum, MaxCost;
    SuccessInRange(t, picks);
    CostInRange(t, picks);
    var n := |t| as real;
    DivideKeepsOrder(0.0, SuccessSum(t, picks), n);
    DivideKeepsOrder(SuccessSum(t, picks), n, n);
    DivideKeepsOrder(0.0, CostSum(t, picks), n);
    DivideKeepsOrder(CostSum(t, picks), Rectangle(MaxCost(t), n), n);
    assert Rectangle(MaxCost(t), n) / n == MaxCost(t);
  }

  /** Every reported frontier area lies between 0 and the transformed cost bound, with the width
      between its own first and last attained success. */
  lemma ReportedAreaIsNormalised(choice: Table, observed: Table, grid: seq<real>, log: real -> real)
    requires Matching(choice, observed) && observed != [] && grid != [] && InRange(observed)
    requires StrictlyIncreasing(log) && log(0.0) == 0.0
    ensures var area := Area(FrontierOf(ResultPoints(choice, observed, grid)), log, MaxCost(observed));
      0.0 <= area <= log(MaxCost(observed))
  {
    hide MeanPoint, MaxCost, Picks;
    forall k | 0 <= k < |grid|
      ensures var p := MeanPoint(observed, Picks(choice, grid[k]));
        0.0 <= p.success <= 1.0 && 0.0 <= p.cost <= MaxCost(observed)
    {
      MeanInRange(observed, Picks(choice, grid[k]));
    }
    AreaIsNormalised(ResultPoints(choice, observed, grid), log, MaxCost(observed));
  }

  method FirstZero(results: seq<Selected>) returns (zero: Selected)
    requires exists r <- results :: r.price == 0.0
    ensures zero in results && zero.price == 0.0
  {
    for i := 0 to |results|
      invariant forall k :: 0 <= k < i ==> results[k].price != 0.0
    {
      if results[i].price == 0.0 {
        return results[i];
      }
    }
    assert false;
  }

  method PureSuccess(t: Table) returns (mean: real)
    requires Full(t) && t != []
    ensures mean == PureSuccessSum(t) / |t| as real
  {
    var sum := 0.0;
    for i := 0 to |t|
      invariant Full(t[..i]) && sum == PureSuccessSum(t[..i])
    {
      assert t[..i + 1][..i] == t[..i];
      sum := sum + MostSuccess(t[i]);
    }
    assert t[..|t|] == t;
    mean := sum / |t| as real;
  }
}
