/** Fixed, uniform, predicted and hindsight treatment assignments on complete panels. */
module TreatmentStrategies {
  import opened Common
  import opened Reals
  import opened Sorting
  import opened TreatmentPanels

  /** Every panel has a row for every listed bundle. */
  ghost predicate Covers(panels: seq<Panel>, ids: seq<string>) {
    forall k :: 0 <= k < |panels| ==> Has(panels[k], ids)
  }

  ghost predicate Has(p: Panel, ids: seq<string>) {
    forall j :: 0 <= j < |ids| ==> ids[j] in p.rows
  }

  ghost predicate Assigns(panels: seq<Panel>, assignment: seq<string>) {
    |assignment| == |panels| && forall k :: 0 <= k < |panels| ==> assignment[k] in panels[k].rows
  }

  function Success(p: Panel, b: string): int
    requires b in p.rows
  {
    Bit(p.rows[b].success)
  }

  function Successes(panels: seq<Panel>, assignment: seq<string>): int
    requires Assigns(panels, assignment)
  {
    if panels == [] then 0
    else var n := |panels| - 1; Successes(panels[..n], assignment[..n]) + Success(panels[n], assignment[n])
  }

  predicate AnySuccess(p: Panel, ids: seq<string>) {
    exists b <- ids :: b in p.rows && p.rows[b].success
  }

  function OracleSuccesses(panels: seq<Panel>, ids: seq<string>): int
    requires Covers(panels, ids)
  {
    if panels == [] then 0
    else var n := |panels| - 1; OracleSuccesses(panels[..n], ids) + Bit(AnySuccess(panels[n], ids))
  }

  // ---- Hindsight ----

  ghost predicate FirstOf(p: Panel, ids: seq<string>, b: string)
    requires ids != [] && Has(p, ids)
  {
    if exists j :: 0 <= j < |ids| && p.rows[ids[j]].success then
      exists j ::
        && 0 <= j < |ids| && b == ids[j] && p.rows[b].success
        && forall i :: 0 <= i < j ==> !p.rows[ids[i]].success
    else b == ids[0]
  }

  /** The first successful bundle in the given order, or the first of all. */
  function FirstSuccess(p: Panel, ids: seq<string>): (b: string)
    requires ids != [] && Has(p, ids)
    ensures b in ids && b in p.rows && (p.rows[b].success <==> AnySuccess(p, ids))
  {
    if p.rows[ids[0]].success || |ids| == 1 then ids[0]
    else
      assert ids == [ids[0]] + ids[1..];
      var later := FirstSuccess(p, ids[1..]);
      if p.rows[later].success then later else ids[0]
  }

  lemma {:induction false} FirstSuccessIsFirst(p: Panel, ids: seq<string>)
    requires ids != [] && Has(p, ids)
    ensures FirstOf(p, ids, FirstSuccess(p, ids))
  {
    if !p.rows[ids[0]].success && |ids| > 1 {
      var rest := ids[1..];
      FirstSuccessIsFirst(p, rest);
      hide AnySuccess;
      assert forall j :: 1 <= j < |ids| ==> ids[j] == rest[j - 1];
      if j :| 0 <= j < |ids| && p.rows[ids[j]].success {
        assert p.rows[rest[j - 1]].success;
        var i :| 0 <= i < |rest| && FirstSuccess(p, rest) == rest[i] && p.rows[rest[i]].success
                 && forall h :: 0 <= h < i ==> !p.rows[rest[h]].success;
        assert ids[i + 1] == rest[i];
      }
    }
  }

  method HindsightAssignment(panels: seq<Panel>, ids: seq<string>) returns (assignment: seq<string>)
    requires ids != [] && Covers(panels, ids)
    ensures Assigns(panels, assignment)
    ensures Successes(panels, assignment) == OracleSuccesses(panels, ids)
    ensures forall k :: 0 <= k < |panels| ==> FirstOf(panels[k], ids, assignment[k])
  {
    hide FirstOf, AnySuccess, FirstSuccess;
    assignment := [];
    for k := 0 to |panels|
      invariant |assignment| == k && forall j :: 0 <= j < k ==> FirstOf(panels[j], ids, assignment[j])
      invariant Covers(panels[..k], ids) && Assigns(panels[..k], assignment)
      invariant Successes(panels[..k], assignment) == OracleSuccesses(panels[..k], ids)
    {
      assert panels[k] in panels && panels[..k + 1][..k] == panels[..k];
      var choice := FirstSuccess(panels[k], ids);
      FirstSuccessIsFirst(panels[k], ids);
      ghost var more := assignment + [choice];
      assert more[..k] == assignment;
      assignment := assignment + [choice];
    }
    assert panels[..|panels|] == panels;
  }

  ghost predicate Within(assignment: seq<string>, ids: seq<string>) {
    forall b <- assignment :: b in ids
  }

  /** Main result: no assignment from the menu beats the realised oracle, so every regret is
      non-negative; the hindsight assignment attains it. */
  lemma {:induction false} OracleBounds(panels: seq<Panel>, assignment: seq<string>, ids: seq<string>)
    requires Covers(panels, ids) && Assigns(panels, assignment) && Within(assignment, ids)
    ensures Successes(panels, assignment) <= OracleSuccesses(panels, ids)
  {
    if panels != [] {
      var n := |panels| - 1;
      assert panels[n] in panels && assignment[n] in assignment;
      OracleBounds(panels[..n], assignment[..n], ids);
    }
  }

  // ---- Fixed treatments and the uniform baseline ----

  function Always(panels: seq<Panel>, b: string): seq<string> {
    seq(|panels|, _ => b)
  }

  /** Successes of one panel over all listed bundles. */
  function RowSum(p: Panel, ids: seq<string>): int
    requires Has(p, ids)
  {
    if ids == [] then 0 else RowSum(p, ids[..|ids| - 1]) + Success(p, ids[|ids| - 1])
  }

  /** All successes, panel by panel. */
  function GridSum(panels: seq<Panel>, ids: seq<string>): int
    requires Covers(panels, ids)
  {
    if panels == [] then 0
    else
      var n := |panels| - 1;
      GridSum(panels[..n], ids) + RowSum(panels[n], ids)
  }

  /** All successes, treatment by treatment. */
  function AlwaysSum(panels: seq<Panel>, ids: seq<string>): int
    requires Covers(panels, ids)
  {
    if ids == [] then 0
    else
      var b := ids[|ids| - 1];
      AlwaysSum(panels, ids[..|ids| - 1]) + Successes(panels, Always(panels, b))
  }

  lemma {:induction false} OneBundleMore(panels: seq<Panel>, ids: seq<string>, b: string)
    requires Covers(panels, ids + [b])
    ensures Covers(panels, ids) && Assigns(panels, Always(panels, b))
    ensures GridSum(panels, ids + [b]) == GridSum(panels, ids) + Successes(panels, Always(panels, b))
  {
    forall k | 0 <= k < |panels| ensures Has(panels[k], ids) && b in panels[k].rows {
      assert Has(panels[k], ids + [b]) && (ids + [b])[|ids|] == b;
      assert forall j :: 0 <= j < |ids| ==> (ids + [b])[j] == ids[j];
    }
    if panels != [] {
      var n := |panels| - 1;
      assert panels[n] in panels;
      OneBundleMore(panels[..n], ids, b);
      assert Always(panels, b)[..n] == Always(panels[..n], b);
      assert (ids + [b])[..|ids|] == ids;
    }
  }

  /** Exchanging the order of summation: panel by panel equals treatment by treatment. */
  lemma {:induction false} SumsExchange(panels: seq<Panel>, ids: seq<string>)
    requires Covers(panels, ids)
    ensures GridSum(panels, ids) == AlwaysSum(panels, ids)
  {
    if ids == [] {
      EmptyGrid(panels);
    } else {
      var n := |ids| - 1;
      SumsExchange(panels, ids[..n]);
      assert ids == ids[..n] + [ids[n]];
      OneBundleMore(panels, ids[..n], ids[n]);
    }
  }

  lemma {:induction false} EmptyGrid(panels: seq<Panel>)
    ensures GridSum(panels, []) == 0
  {
    if panels != [] {
      EmptyGrid(panels[..|panels| - 1]);
    }
  }

  method UniformRate(panels: seq<Panel>, ids: seq<string>) returns (rate: real)
    requires panels != [] && ids != [] && Covers(panels, ids)
    ensures rate == GridSum(panels, ids) as real / (|panels| * |ids|) as real
  {
    var sum := 0;
    for i := 0 to |panels|
      invariant Covers(panels[..i], ids) && sum == GridSum(panels[..i], ids)
    {
      assert panels[i] in panels && panels[..i + 1][..i] == panels[..i];
      for j := 0 to |ids|
        invariant sum == GridSum(panels[..i], ids) + RowSum(panels[i], ids[..j])
      {
        assert ids[..j + 1][..j] == ids[..j];
        if panels[i].rows[ids[j]].success {
          sum := sum + 1;
        }
      }
      assert ids[..|ids|] == ids;
    }
    assert panels[..|panels|] == panels;
    assert |panels| * |ids| > 0;
    rate := sum as real / (|panels| * |ids|) as real;
  }

  function AlwaysRate(panels: seq<Panel>, b: string): real
    requires panels != [] && Assigns(panels, Always(panels, b))
  {
    Successes(panels, Always(panels, b)) as real / |panels| as real
  }

  /** The sum of the rates of the fixed treatments. */
  function RateSum(panels: seq<Panel>, ids: seq<string>): real
    requires panels != [] && Covers(panels, ids)
  {
    if ids == [] then 0.0
    else
      var b := ids[|ids| - 1];
      RateSum(panels, ids[..|ids| - 1]) + AlwaysRate(panels, b)
  }

  lemma {:induction false} RatesAreSums(panels: seq<Panel>, ids: seq<string>)
    requires panels != [] && Covers(panels, ids)
    ensures RateSum(panels, ids) == AlwaysSum(panels, ids) as real / |panels| as real
  {
    if ids != [] {
      var n := |ids| - 1;
      assert ids[n] in ids;
      RatesAreSums(panels, ids[..n]);
      AddQuotients(AlwaysSum(panels, ids[..n]) as real, Successes(panels, Always(panels, ids[n])) as real,
                   |panels| as real);
    }
  }

  lemma AddQuotients(a: real, b: real, n: real)
    requires n != 0.0
    ensures a / n + b / n == (a + b) / n
  {}

  lemma DivideTwice(a: real, n: nat, k: nat)
    requires n > 0 && k > 0
    ensures n * k > 0 && a / (n * k) as real == a / n as real / k as real
  {
    assert (n * k) as real == n as real * k as real;
  }

  /** Main result: the exact uniform rate is the mean of the fixed treatments' rates. */
  lemma UniformIsTheMeanOfFixed(panels: seq<Panel>, ids: seq<string>)
    requires panels != [] && ids != [] && Covers(panels, ids)
    ensures |panels| * |ids| > 0
    ensures GridSum(panels, ids) as real / (|panels| * |ids|) as real == RateSum(panels, ids) / |ids| as real
  {
    hide GridSum, AlwaysSum, RateSum;
    SumsExchange(panels, ids);
    RatesAreSums(panels, ids);
    DivideTwice(GridSum(panels, ids) as real, |panels|, |ids|);
  }

  lemma {:induction false} SomeRateReachesTheMean(panels: seq<Panel>, ids: seq<string>) returns (best: string)
    requires panels != [] && ids != [] && Covers(panels, ids)
    ensures best in ids && Assigns(panels, Always(panels, best))
    ensures RateSum(panels, ids) <= Times(|ids| as real, AlwaysRate(panels, best))
  {
    hide AlwaysRate, Times;
    var n := |ids| - 1;
    assert ids[n] in ids;
    if n == 0 {
      best := ids[0];
      assert ids[..0] == [];
      Once(AlwaysRate(panels, best));
    } else {
      var before := SomeRateReachesTheMean(panels, ids[..n]);
      assert before in ids;
      var here, there := AlwaysRate(panels, ids[n]), AlwaysRate(panels, before);
      best := if here >= there then ids[n] else before;
      Scale(n as real, there, AlwaysRate(panels, best));
    }
  }

  lemma Once(x: real)
    ensures Times(1.0, x) == x
  {}

  lemma Scale(n: real, low: real, high: real)
    requires n >= 0.0 && low <= high
    ensures Times(n, low) <= Times(n, high) && Times(n + 1.0, high) == Times(n, high) + high
  {
    assert n * (high - low) >= 0.0;
  }

  /** The best fixed treatment is never worse than assigning treatments uniformly at random. */
  lemma BestFixedBeatsUniform(panels: seq<Panel>, ids: seq<string>) returns (best: string)
    requires panels != [] && ids != [] && Covers(panels, ids)
    ensures best in ids && Assigns(panels, Always(panels, best)) && |panels| * |ids| > 0
    ensures GridSum(panels, ids) as real / (|panels| * |ids|) as real <= AlwaysRate(panels, best)
  {
    hide GridSum, RateSum, AlwaysRate, Times;
    UniformIsTheMeanOfFixed(panels, ids);
    best := SomeRateReachesTheMean(panels, ids);
    var k, r := |ids| as real, AlwaysRate(panels, best);
    DivideKeepsOrder(RateSum(panels, ids), Times(k, r), k);
    DivideOut(k, r);
  }

  lemma DivideOut(k: real, r: real)
    requires k != 0.0
    ensures Times(k, r) / k == r
  {}

  // ---- The figures as counts ----

  /** The panels that an assignment solves, those that some listed bundle solves, and the solved cells. */
  ghost function Solved(panels: seq<Panel>, assignment: seq<string>): set<nat> {
    set k: nat |
      && k < |panels| && k < |assignment|
      && assignment[k] in panels[k].rows && panels[k].rows[assignment[k]].success
  }

  ghost function Solvable(panels: seq<Panel>, ids: seq<string>): set<nat> {
    set k: nat | k < |panels| && SomeSucceeds(panels[k], ids)
  }

  ghost predicate SomeSucceeds(p: Panel, ids: seq<string>) {
    exists j :: 0 <= j < |ids| && ids[j] in p.rows && p.rows[ids[j]].success
  }

  lemma SomeMeansAny(p: Panel, ids: seq<string>)
    ensures AnySuccess(p, ids) <==> SomeSucceeds(p, ids)
  {}

  ghost function SolvedCells(panels: seq<Panel>, ids: seq<string>): set<(nat, nat)> {
    set k: nat, j: nat | k < |panels| && j < |ids| && ids[j] in panels[k].rows && panels[k].rows[ids[j]].success
      :: (k, j)
  }

  lemma {:induction false} SuccessesCount(panels: seq<Panel>, assignment: seq<string>)
    requires Assigns(panels, assignment)
    ensures Successes(panels, assignment) == |Solved(panels, assignment)|
  {
    if panels != [] {
      var n := |panels| - 1;
      SuccessesCount(panels[..n], assignment[..n]);
      if panels[n].rows[assignment[n]].success {
        assert Solved(panels, assignment) == Solved(panels[..n], assignment[..n]) + {n};
      } else {
        assert Solved(panels, assignment) == Solved(panels[..n], assignment[..n]);
      }
    }
  }

  lemma {:induction false} OracleCounts(panels: seq<Panel>, ids: seq<string>)
    requires Covers(panels, ids)
    ensures OracleSuccesses(panels, ids) == |Solvable(panels, ids)|
  {
    hide AnySuccess, SomeSucceeds;
    if panels != [] {
      var n := |panels| - 1;
      OracleCounts(panels[..n], ids);
      SomeMeansAny(panels[n], ids);
      if AnySuccess(panels[n], ids) {
        assert Solvable(panels, ids) == Solvable(panels[..n], ids) + {n};
      } else {
        assert Solvable(panels, ids) == Solvable(panels[..n], ids);
      }
    }
  }

  ghost function RowCells(panels: seq<Panel>, k: nat, ids: seq<string>): set<(nat, nat)>
    requires k < |panels|
  {
    set j: nat | j < |ids| && ids[j] in panels[k].rows && panels[k].rows[ids[j]].success :: (k, j)
  }

  lemma RowSplit(panels: seq<Panel>, k: nat, ids: seq<string>)
    requires k < |panels| && ids != [] && Has(panels[k], ids)
    ensures var n := |ids| - 1;
      |RowCells(panels, k, ids)| == |RowCells(panels, k, ids[..n])| + Success(panels[k], ids[n])
  {
    var n := |ids| - 1;
    var before, all := RowCells(panels, k, ids[..n]), RowCells(panels, k, ids);
    assert forall j: nat :: j < n ==> ids[..n][j] == ids[j];
    assert (k, n) !in before;
    assert all == if panels[k].rows[ids[n]].success then before + {(k, n)} else before;
  }

  lemma {:induction false} RowCounts(panels: seq<Panel>, k: nat, ids: seq<string>)
    requires k < |panels| && Has(panels[k], ids)
    ensures RowSum(panels[k], ids) == |RowCells(panels, k, ids)|
  {
    hide RowCells, Success;
    if ids == [] {
      NoRowCells(panels, k);
    } else {
      RowCounts(panels, k, ids[..|ids| - 1]);
      RowSplit(panels, k, ids);
    }
  }

  lemma NoRowCells(panels: seq<Panel>, k: nat)
    requires k < |panels|
    ensures RowCells(panels, k, []) == {}
  {}

  lemma CellsSplit(panels: seq<Panel>, ids: seq<string>)
    requires panels != []
    ensures var n := |panels| - 1;
      |SolvedCells(panels, ids)| == |SolvedCells(panels[..n], ids)| + |RowCells(panels, n, ids)|
  {
    var n := |panels| - 1;
    var before, row := SolvedCells(panels[..n], ids), RowCells(panels, n, ids);
    assert SolvedCells(panels, ids) == before + row;
    assert before * row == {};
  }

  lemma {:induction false} GridCounts(panels: seq<Panel>, ids: seq<string>)
    requires Covers(panels, ids)
    ensures GridSum(panels, ids) == |SolvedCells(panels, ids)|
  {
    hide SolvedCells, RowCells, RowSum, Has;
    if panels == [] {
      NoCells(ids);
    } else {
      var n := |panels| - 1;
      GridCounts(panels[..n], ids);
      RowCounts(panels, n, ids);
      CellsSplit(panels, ids);
    }
  }

  lemma NoCells(ids: seq<string>)
    ensures SolvedCells([], ids) == {}
  {}

  // ---- Choosing by prediction ----

  /** Highest predicted mean, then smallest bundle id. */
  predicate Precedes(a: string, b: string, means: map<string, real>)
    requires a in means && b in means
  {
    means[a] > means[b] || (means[a] == means[b] && StringLe(a, b))
  }

  predicate Predicts(means: map<string, real>, ids: seq<string>) {
    forall b <- ids :: b in means
  }

  ghost predicate BestBy(b: string, ids: seq<string>, means: map<string, real>)
    requires Predicts(means, ids)
  {
    b in ids && forall c <- ids :: Precedes(b, c, means)
  }

  method ArgMax(ids: seq<string>, means: map<string, real>) returns (best: string)
    requires ids != [] && Predicts(means, ids)
    ensures BestBy(best, ids, means)
  {
    StringOrder();
    best := ids[0];
    for i := 1 to |ids|
      invariant best in ids[..i] && forall c <- ids[..i] :: Precedes(best, c, means)
    {
      assert ids[..i + 1] == ids[..i] + [ids[i]];
      if !Precedes(best, ids[i], means) {
        best := ids[i];
      }
    }
    assert ids[..|ids|] == ids;
  }

  /** The best bundle is unique, so it does not depend on the order in which the menu lists them. */
  lemma ArgMaxIsOrderFree(a: string, b: string, ids: seq<string>, others: seq<string>, means: map<string, real>)
    requires multiset(ids) == multiset(others) && Predicts(means, ids) && Predicts(means, others)
    requires BestBy(a, ids, means) && BestBy(b, others, means)
    ensures a == b
  {
    assert a in multiset(ids) && b in multiset(others);
    assert a in others && b in ids;
    StringLeTotal(a, b);
  }

  method SelectTreatmentArgmax(panels: seq<Panel>, predictions: seq<map<string, real>>, treatments: seq<Treatment>)
    returns (result: Result<seq<string>>)
    ensures result.Ok? <==>
      (panels != [] && |predictions| == |panels| && treatments != []
       && forall k :: 0 <= k < |predictions| ==> Predicts(predictions[k], BundleIds(treatments)))
    ensures result.Ok? ==>
      && |result.value| == |panels|
      && forall k :: 0 <= k < |panels| ==> BestBy(result.value[k], BundleIds(treatments), predictions[k])
    ensures result.Ok? ==>
      forall k :: 0 <= k < |panels| ==>
        var best, means := result.value[k], predictions[k];
        && best in BundleIds(treatments) && best in means
        && forall b <- BundleIds(treatments) ::
             b in means && means[b] <= means[best] && (means[b] == means[best] ==> StringLe(best, b))
  {
    if panels == [] || |predictions| != |panels| || treatments == [] {
      return Err("nothing to allocate");
    }
    var ids := Sort(StringLe, BundleIds(treatments));
    SortedIds(treatments);
    hide Sort, BundleIds, BestBy;
    var assignment := [];
    for k := 0 to |panels|
      invariant |assignment| == k
      invariant forall j :: 0 <= j < k ==> Predicts(predictions[j], BundleIds(treatments))
      invariant forall j :: 0 <= j < k ==> BestBy(assignment[j], BundleIds(treatments), predictions[j])
    {
      if !Predicts(predictions[k], ids) {
        return Err("missing treatment predictions");
      }
      var best := ArgMax(ids, predictions[k]);
      SameBest(best, ids, BundleIds(treatments), predictions[k]);
      assignment := assignment + [best];
    }
    return Ok(assignment);
  }

  lemma SameBest(best: string, ids: seq<string>, others: seq<string>, means: map<string, real>)
    requires (forall b :: b in ids <==> b in others) && Predicts(means, ids) && BestBy(best, ids, means)
    ensures Predicts(means, others) && BestBy(best, others, means)
  {}

  lemma SortedIds(treatments: seq<Treatment>)
    requires treatments != []
    ensures var ids := Sort(StringLe, BundleIds(treatments));
      ids != [] && forall b :: b in ids <==> b in BundleIds(treatments)
  {
    StringOrder();
    SortSorts(StringLe, BundleIds(treatments));
    assert BundleIds(treatments)[0] in BundleIds(treatments);
  }

  // ---- All strategies side by side ----

  datatype Strategy = Strategy(successes: int, regret: int)

  datatype Report = Report(
    ids: seq<string>, always: seq<Strategy>, uniformRate: real, uniformRegret: real,
    neural: Strategy, hindsight: Strategy)

  function Outcome(panels: seq<Panel>, assignment: seq<string>, ids: seq<string>): Strategy
    requires Covers(panels, ids) && Assigns(panels, assignment)
  {
    Strategy(Successes(panels, assignment), OracleSuccesses(panels, ids) - Successes(panels, assignment))
  }

  lemma CoveredAssigns(panels: seq<Panel>, assignment: seq<string>, ids: seq<string>)
    requires Covers(panels, ids) && |assignment| == |panels| && Within(assignment, ids)
    ensures Assigns(panels, assignment)
  {
    forall k | 0 <= k < |panels| ensures assignment[k] in panels[k].rows {
      assert assignment[k] in assignment && Has(panels[k], ids);
      var j :| 0 <= j < |ids| && ids[j] == assignment[k];
    }
  }

  lemma AlwaysWithin(panels: seq<Panel>, b: string, ids: seq<string>)
    requires b in ids
    ensures Within(Always(panels, b), ids) && |Always(panels, b)| == |panels|
  {}

  /** The regrets of the report: never negative, zero with hindsight. */
  ghost predicate Sound(r: Report, panels: seq<Panel>) {
    && panels != [] && |r.always| == |r.ids|
    && (forall j :: 0 <= j < |r.ids| ==> r.always[j].regret >= 0)
    && r.neural.regret >= 0 && r.hindsight.regret == 0 && r.uniformRegret >= 0.0
    && exists j :: 0 <= j < |r.ids| && r.uniformRate <= r.always[j].successes as real / |panels| as real
  }

  /** The figures of the strategies that are not one assignment, and of the oracle. */
  ghost predicate Figures(r: Report, panels: seq<Panel>)
    requires Covers(panels, r.ids)
  {
    && |panels| * |r.ids| > 0 && r.uniformRate == GridSum(panels, r.ids) as real / (|panels| * |r.ids|) as real
    && r.uniformRegret == OracleSuccesses(panels, r.ids) as real - Times(r.uniformRate, |panels| as real)
    && r.hindsight == Strategy(OracleSuccesses(panels, r.ids), 0)
  }

  /** Main result: the comparison succeeds exactly on a usable menu, and its report is sound. */
  method CompareTreatmentStrategies(panels: seq<Panel>, neural: seq<string>, treatments: seq<Treatment>,
                                    randomTrials: int, bootstrapTrials: int)
    returns (result: Result<Report>)
    ensures result.Ok? <==>
      (panels != [] && randomTrials >= 1 && bootstrapTrials >= 1
       && treatments != [] && Unique(BundleIds(treatments)) && |neural| == |panels|
       && Within(neural, BundleIds(treatments)) && Covers(panels, BundleIds(treatments)))
    ensures result.Ok? ==>
      var r := result.value;
      && r.ids == Sort(StringLe, BundleIds(treatments)) && Covers(panels, r.ids)
      && Assigns(panels, neural) && r.neural == Outcome(panels, neural, r.ids)
      && (forall j :: 0 <= j < |r.ids| ==>
            |r.always| == |r.ids| && Assigns(panels, Always(panels, r.ids[j]))
            && r.always[j] == Outcome(panels, Always(panels, r.ids[j]), r.ids))
      && Figures(r, panels) && Sound(r, panels)
  {
    hide Covers, Assigns, Outcome, Successes, OracleSuccesses, BundleIds, GridSum, Times, Always;
    var menu := BundleIds(treatments);
    if panels == [] || randomTrials < 1 || bootstrapTrials < 1 || treatments == [] || |neural| != |panels| {
      return Err("nothing to compare");
    }
    DistinctCount(menu);
    if |set b | b in menu| != |menu| || exists b <- neural :: b !in menu {
      return Err("duplicate or unknown treatments");
    }
    SortedIds(treatments);
    var ids := Sort(StringLe, menu);
    hide Sort;
    SameCover(panels, menu, ids);
    var covered := CheckCovers(panels, ids);
    if !covered {
      return Err("panel has no row for a treatment");
    }
    WithinSame(neural, menu, ids);
    var report := ReportAll(panels, neural, ids);
    result := Ok(report);
  }

  lemma WithinSame(assignment: seq<string>, a: seq<string>, b: seq<string>)
    requires forall x :: x in b <==> x in a
    ensures Within(assignment, b) <==> Within(assignment, a)
  {}

  /** Every strategy over a checked menu. */
  method ReportAll(panels: seq<Panel>, neural: seq<string>, ids: seq<string>) returns (r: Report)
    requires panels != [] && ids != [] && Covers(panels, ids) && |neural| == |panels| && Within(neural, ids)
    ensures r.ids == ids && Assigns(panels, neural) && r.neural == Outcome(panels, neural, r.ids)
    ensures |r.always| == |ids|
    ensures forall j :: 0 <= j < |ids| ==>
      Assigns(panels, Always(panels, ids[j])) && r.always[j] == Outcome(panels, Always(panels, ids[j]), ids)
    ensures Figures(r, panels) && Sound(r, panels)
  {
    hide Covers, Assigns, Outcome, Successes, OracleSuccesses, GridSum, Times, Always;
    var always := EvaluateFixed(panels, ids);
    var rate := UniformRate(panels, ids);
    var predicted := Evaluate(panels, neural, ids);
    var oracle := OracleSuccesses(panels, ids);
    var hindsight := HindsightAssignment(panels, ids);
    r := Report(ids, always, rate, oracle as real - Times(rate, |panels| as real), predicted,
                Strategy(Successes(panels, hindsight), oracle - Successes(panels, hindsight)));
    GridIsNotEmpty(panels, r);
    UniformIsBeaten(panels, r);
  }

  lemma GridIsNotEmpty(panels: seq<Panel>, r: Report)
    requires panels != [] && r.ids != [] && Covers(panels, r.ids)
    ensures |panels| * |r.ids| > 0
  {}

  method EvaluateFixed(panels: seq<Panel>, ids: seq<string>) returns (always: seq<Strategy>)
    requires Covers(panels, ids)
    ensures |always| == |ids|
    ensures forall j :: 0 <= j < |ids| ==>
      Assigns(panels, Always(panels, ids[j])) && always[j] == Outcome(panels, Always(panels, ids[j]), ids)
    ensures forall j :: 0 <= j < |ids| ==> always[j].regret >= 0
  {
    hide Covers, Assigns, Always, Outcome;
    always := [];
    for j := 0 to |ids|
      invariant |always| == j
      invariant forall i :: 0 <= i < j ==>
        Assigns(panels, Always(panels, ids[i])) && always[i] == Outcome(panels, Always(panels, ids[i]), ids)
      invariant forall i :: 0 <= i < j ==> always[i].regret >= 0
    {
      AlwaysWithin(panels, ids[j], ids);
      var strategy := Evaluate(panels, Always(panels, ids[j]), ids);
      always := always + [strategy];
    }
  }

  method Evaluate(panels: seq<Panel>, assignment: seq<string>, ids: seq<string>) returns (strategy: Strategy)
    requires Covers(panels, ids) && |assignment| == |panels| && Within(assignment, ids)
    ensures Assigns(panels, assignment) && strategy == Outcome(panels, assignment, ids) && strategy.regret >= 0
  {
    CoveredAssigns(panels, assignment, ids);
    OracleBounds(panels, assignment, ids);
    strategy := Outcome(panels, assignment, ids);
  }

  lemma SameCover(panels: seq<Panel>, a: seq<string>, b: seq<string>)
    requires forall x :: x in a <==> x in b
    ensures Covers(panels, a) <==> Covers(panels, b)
  {
    forall p: Panel ensures Has(p, a) <==> Has(p, b) {
      if Has(p, a) {
        forall j | 0 <= j < |b| ensures b[j] in p.rows {
          assert b[j] in b;
          var i :| 0 <= i < |a| && a[i] == b[j];
        }
      }
      if Has(p, b) {
        forall j | 0 <= j < |a| ensures a[j] in p.rows {
          assert a[j] in a;
          var i :| 0 <= i < |b| && b[i] == a[j];
        }
      }
    }
  }

  method CheckCovers(panels: seq<Panel>, ids: seq<string>) returns (ok: bool)
    ensures ok <==> Covers(panels, ids)
  {
    for k := 0 to |panels|
      invariant Covers(panels[..k], ids)
    {
      for j := 0 to |ids|
        invariant Has(panels[k], ids[..j])
      {
        if ids[j] !in panels[k].rows {
          return false;
        }
      }
      assert ids[..|ids|] == ids;
    }
    assert panels[..|panels|] == panels;
    return true;
  }

  lemma {:induction false} UniformIsBeaten(panels: seq<Panel>, r: Report)
    requires panels != [] && r.ids != [] && Covers(panels, r.ids) && |r.always| == |r.ids|
    requires |panels| * |r.ids| > 0 ==> r.uniformRate == GridSum(panels, r.ids) as real / (|panels| * |r.ids|) as real
    requires r.uniformRegret == OracleSuccesses(panels, r.ids) as real - Times(r.uniformRate, |panels| as real)
    requires forall j :: 0 <= j < |r.ids| ==>
      Assigns(panels, Always(panels, r.ids[j])) && r.always[j] == Outcome(panels, Always(panels, r.ids[j]), r.ids)
    requires forall j :: 0 <= j < |r.ids| ==> r.always[j].regret >= 0
    ensures r.uniformRegret >= 0.0
    ensures exists j :: 0 <= j < |r.ids| && r.uniformRate <= r.always[j].successes as real / |panels| as real
  {
    hide GridSum, Successes, OracleSuccesses, Times;
    var best := BestFixedBeatsUniform(panels, r.ids);
    var j :| 0 <= j < |r.ids| && r.ids[j] == best;
    var won := r.always[j].successes as real;
    assert r.uniformRate <= won / |panels| as real;
    TimesBack(r.uniformRate, won, |panels| as real);
    assert r.always[j].successes <= OracleSuccesses(panels, r.ids);
    assert won <= OracleSuccesses(panels, r.ids) as real;
  }

  lemma TimesBack(rate: real, won: real, n: real)
    requires n > 0.0 && rate <= won / n
    ensures Times(rate, n) <= won
  {
    assert (won / n - rate) * n >= 0.0;
    assert won / n * n == won;
  }

  /** Main result: the figures of a comparison as counts of panels and cells, read off their rows. */
  lemma ReportCounts(r: Report, panels: seq<Panel>, neural: seq<string>)
    requires Covers(panels, r.ids) && Assigns(panels, neural) && r.neural == Outcome(panels, neural, r.ids)
    requires |r.always| == |r.ids| && Figures(r, panels)
    requires forall j :: 0 <= j < |r.ids| ==>
      Assigns(panels, Always(panels, r.ids[j])) && r.always[j] == Outcome(panels, Always(panels, r.ids[j]), r.ids)
    ensures var solvable := |Solvable(panels, r.ids)|;
      && r.neural == Strategy(|Solved(panels, neural)|, solvable - |Solved(panels, neural)|)
      && (forall j :: 0 <= j < |r.ids| ==>
            var solved := |Solved(panels, seq(|panels|, _ => r.ids[j]))|;
            r.always[j] == Strategy(solved, solvable - solved))
      && r.hindsight == Strategy(solvable, 0)
      && r.uniformRate * (|panels| * |r.ids|) as real == |SolvedCells(panels, r.ids)| as real
      && r.uniformRegret == solvable as real - r.uniformRate * |panels| as real
  {
    hide Successes, OracleSuccesses, GridSum, Assigns, Covers;
    SuccessesCount(panels, neural);
    OracleCounts(panels, r.ids);
    GridCounts(panels, r.ids);
    forall j | 0 <= j < |r.ids|
      ensures Successes(panels, Always(panels, r.ids[j])) == |Solved(panels, seq(|panels|, _ => r.ids[j]))|
    {
      SuccessesCount(panels, Always(panels, r.ids[j]));
      assert Always(panels, r.ids[j]) == seq(|panels|, _ => r.ids[j]);
    }
  }
}
