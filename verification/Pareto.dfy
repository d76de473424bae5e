/** The nondominated operating points of an allocator and the area under their curve. */
module Pareto {
  import opened Common
  import opened Sorting

  datatype Point = Point(cost: real, success: real)

  /** At least as much success at no more cost, and better in one of them. */
  predicate Dominates(p: Point, q: Point) {
    p.success >= q.success && p.cost <= q.cost && (p.success > q.success || p.cost < q.cost)
  }

  predicate Before(p: Point, q: Point) {
    p.cost < q.cost || (p.cost == q.cost && p.success < q.success)
  }

  // ---- Sorting a set of points ----

  function InsertPoint(p: Point, s: seq<Point>): seq<Point> {
    if s == [] || Before(p, s[0]) then [p] + s
    else if p == s[0] then s
    else [s[0]] + InsertPoint(p, s[1..])
  }

  /** The distinct points in ascending order of cost, then success. */
  function SortedSet(points: seq<Point>): seq<Point> {
    if points == [] then [] else InsertPoint(points[0], SortedSet(points[1..]))
  }

  ghost predicate Ascending(s: seq<Point>) {
    forall i, j :: 0 <= i < j < |s| ==> Before(s[i], s[j])
  }

  lemma {:induction false} InsertPointAscends(p: Point, s: seq<Point>)
    requires Ascending(s)
    ensures Ascending(InsertPoint(p, s))
    ensures forall x :: x in InsertPoint(p, s) <==> x == p || x in s
  {
    if s == [] || Before(p, s[0]) || p == s[0] {
    } else {
      var rest := InsertPoint(p, s[1..]);
      InsertPointAscends(p, s[1..]);
      forall j | 0 <= j < |rest| ensures Before(s[0], rest[j]) {
        assert rest[j] == p || rest[j] in s[1..];
      }
    }
  }

  lemma {:induction false} SortedSetAscends(points: seq<Point>)
    ensures Ascending(SortedSet(points))
    ensures forall x :: x in SortedSet(points) <==> x in points
  {
    if points != [] {
      SortedSetAscends(points[1..]);
      InsertPointAscends(points[0], SortedSet(points[1..]));
      assert points == [points[0]] + points[1..];
    }
  }

  // ---- The frontier ----

  ghost predicate Undominated(points: seq<Point>, p: Point) {
    forall q <- points :: !Dominates(q, p)
  }

  ghost function Survivors(sorted: seq<Point>, all: seq<Point>): seq<Point> {
    if sorted == [] then []
    else
      var n := |sorted| - 1;
      Survivors(sorted[..n], all) + if Undominated(all, sorted[n]) then [sorted[n]] else []
  }

  ghost function FrontierOf(points: seq<Point>): seq<Point> {
    Survivors(SortedSet(points), SortedSet(points))
  }

  /** Some of the first k points dominates p. */
  predicate DominatedBy(points: seq<Point>, k: nat, p: Point)
    requires k <= |points|
  {
    k > 0 && (DominatedBy(points, k - 1, p) || Dominates(points[k - 1], p))
  }

  lemma {:induction false} DominatedByAll(points: seq<Point>, k: nat, p: Point)
    requires k <= |points|
    ensures DominatedBy(points, k, p) <==> !Undominated(points[..k], p)
  {
    if k > 0 {
      DominatedByAll(points, k - 1, p);
      assert points[..k] == points[..k - 1] + [points[k - 1]];
    }
  }

  /** One flag per point: a point that is already flagged is not compared again. */
  method MarkDominated(points: seq<Point>) returns (dominated: array<bool>)
    ensures fresh(dominated) && dominated.Length == |points|
    ensures forall j :: 0 <= j < |points| ==> dominated[j] == !Undominated(points, points[j])
  {
    hide Dominates, Undominated;
    var n := |points|;
    dominated := new bool[n](_ => false);
    for i := 0 to n
      invariant forall j :: 0 <= j < n ==> dominated[j] == DominatedBy(points, i, points[j])
    {
      for j := 0 to n
        invariant forall x :: 0 <= x < j ==> dominated[x] == DominatedBy(points, i + 1, points[x])
        invariant forall x :: j <= x < n ==> dominated[x] == DominatedBy(points, i, points[x])
      {
        NeverItself(points[i]);
        if i == j || dominated[j] {
          continue;
        }
        if Dominates(points[i], points[j]) {
          dominated[j] := true;
        }
      }
    }
    forall j | 0 <= j < n ensures dominated[j] == !Undominated(points, points[j]) {
      DominatedByAll(points, n, points[j]);
      assert points[..n] == points;
    }
  }

  lemma NeverItself(p: Point)
    ensures !Dominates(p, p)
  {}

  method ParetoFrontier(points: seq<Point>) returns (frontier: seq<Point>)
    ensures frontier == FrontierOf(points)
  {
    hide Undominated;
    if points == [] {
      return [];
    }
    var distinct := SortedSet(points);
    var dominated := MarkDominated(distinct);
    frontier := [];
    for i := 0 to |distinct|
      invariant frontier == Survivors(distinct[..i], distinct)
    {
      assert distinct[..i + 1][..i] == distinct[..i];
      if !dominated[i] {
        frontier := frontier + [distinct[i]];
      }
    }
    assert distinct[..|distinct|] == distinct;
  }

  ghost predicate Staircase(f: seq<Point>) {
    forall i, j :: 0 <= i < j < |f| ==> f[i].cost < f[j].cost && f[i].success < f[j].success
  }

  lemma {:induction false} SurvivorsAre(sorted: seq<Point>, all: seq<Point>)
    requires Ascending(sorted)
    ensures Ascending(Survivors(sorted, all))
    ensures forall p :: p in Survivors(sorted, all) <==> p in sorted && Undominated(all, p)
  {
    if sorted != [] {
      var n := |sorted| - 1;
      SurvivorsAre(sorted[..n], all);
      assert sorted == sorted[..n] + [sorted[n]];
      forall p <- Survivors(sorted[..n], all) ensures Before(p, sorted[n]) {
        assert p in sorted[..n];
      }
    }
  }

  /** Main result: the frontier holds exactly the undominated points, as a strictly rising
      staircase in cost and success. */
  lemma FrontierIsExact(points: seq<Point>)
    ensures forall p :: p in FrontierOf(points) <==> p in points && Undominated(points, p)
    ensures Staircase(FrontierOf(points))
  {
    var sorted, f := SortedSet(points), FrontierOf(points);
    SortedSetAscends(points);
    SurvivorsAre(sorted, sorted);
    forall p ensures Undominated(sorted, p) <==> Undominated(points, p) {}
    forall i, j | 0 <= i < j < |f| ensures f[i].cost < f[j].cost && f[i].success < f[j].success {
      assert f[i] in f && f[j] in f;
      assert Before(f[i], f[j]) && !Dominates(f[i], f[j]) && !Dominates(f[j], f[i]);
    }
  }

  ghost function Dominators(points: seq<Point>, p: Point): set<Point> {
    set q | q in points && Dominates(q, p)
  }

  lemma FewerIn(a: set<Point>, b: set<Point>)
    requires a < b
    ensures |a| < |b|
  {
    assert b == a + (b - a);
    assert b - a != {};
  }

  /** Climbing from any input through its dominators ends on the frontier. */
  lemma {:induction false} FrontierCovers(points: seq<Point>, p: Point) returns (f: Point)
    requires p in points
    ensures f in FrontierOf(points) && f.cost <= p.cost && f.success >= p.success
    decreases |Dominators(points, p)|
  {
    FrontierIsExact(points);
    if Undominated(points, p) {
      f := p;
    } else {
      var q :| q in points && Dominates(q, p);
      assert q in Dominators(points, p) && q !in Dominators(points, q);
      FewerIn(Dominators(points, q), Dominators(points, p));
      f := FrontierCovers(points, q);
    }
  }

  lemma HasMember(s: seq<Point>)
    ensures s == [] || exists p :: p in s
  {
    if s != [] {
      assert s[0] in s;
    }
  }

  lemma {:induction false} AscendingIsDetermined(a: seq<Point>, b: seq<Point>)
    requires Ascending(a) && Ascending(b)
    requires forall p :: p in a <==> p in b
    ensures a == b
  {
    if a == [] || b == [] {
      HasMember(a);
      HasMember(b);
    } else {
      assert a[0] in a && b[0] in b;
      var i :| 0 <= i < |b| && b[i] == a[0];
      var j :| 0 <= j < |a| && a[j] == b[0];
      assert a[0] == b[0];
      assert a == [a[0]] + a[1..] && b == [b[0]] + b[1..];
      assert a[0] !in a[1..] && b[0] !in b[1..];
      forall p ensures p in a[1..] <==> p in b[1..] {
        assert p in a[1..] <==> p in a && p != a[0];
        assert p in b[1..] <==> p in b && p != b[0];
      }
      AscendingIsDetermined(a[1..], b[1..]);
    }
  }

  /** Main result: permuting, repeating or adding dominated points leaves the frontier unchanged. */
  lemma FrontierIgnoresDominated(points: seq<Point>, more: seq<Point>)
    requires forall p <- points :: p in more
    requires forall p <- more :: p in points || !Undominated(points, p)
    ensures FrontierOf(more) == FrontierOf(points)
  {
    hide Undominated, FrontierOf;
    FrontierIsExact(points);
    FrontierIsExact(more);
    forall p ensures p in FrontierOf(more) <==> p in FrontierOf(points) {
      SameSurvivor(points, more, p);
    }
    AscendingIsDetermined(FrontierOf(more), FrontierOf(points));
  }

  lemma SameSurvivor(points: seq<Point>, more: seq<Point>, p: Point)
    requires forall p <- points :: p in more
    requires forall p <- more :: p in points || !Undominated(points, p)
    ensures p in points && Undominated(points, p) <==> p in more && Undominated(more, p)
  {
    if p in points && Undominated(points, p) {
      forall q <- more ensures !Dominates(q, p) {
        if q !in points {
          var r :| r in points && Dominates(r, q);
          assert !Dominates(r, p);
        }
      }
    }
  }

  predicate NoDearer(p: Point, q: Point) {
    p.cost <= q.cost
  }

  /** The operating points are sorted by cost once more; on a staircase that changes nothing. */
  lemma {:induction false} SortingAgainChangesNothing(f: seq<Point>)
    requires Staircase(f)
    ensures Sort(NoDearer, f) == f
  {
    if f != [] {
      SortingAgainChangesNothing(f[1..]);
      assert f == [f[0]] + f[1..];
    }
  }

  // ---- The area under the frontier ----

  ghost predicate StrictlyIncreasing(log: real -> real) {
    forall x, y :: 0.0 <= x < y ==> log(x) < log(y)
  }

  function Rectangle(height: real, width: real): real {
    height * width
  }

  /** The area between two neighbouring points, joined by a straight line. */
  function Trapezoid(p: Point, q: Point, log: real -> real): real {
    (p.success + q.success) * (log(q.cost) - log(p.cost)) / 2.0
  }

  function Trapezoids(f: seq<Point>, log: real -> real): real {
    if |f| < 2 then 0.0
    else
      var n := |f| - 1;
      Trapezoids(f[..n], log) + Trapezoid(f[n - 1], f[n], log)
  }

  function Max(a: real, b: real): real {
    if a >= b then a else b
  }

  /** The last attained success is extended to the common cost bound. */
  function Area(f: seq<Point>, log: real -> real, maxCost: real): real {
    if f == [] then 0.0
    else
      var last := f[|f| - 1];
      Trapezoids(f, log) + Rectangle(last.success, log(Max(maxCost, last.cost)) - log(last.cost))
  }

  method FrontierArea(points: seq<Point>, log: real -> real, maxCost: real) returns (area: real)
    ensures area == Area(FrontierOf(points), log, maxCost)
  {
    if points == [] {
      return 0.0;
    }
    var frontier := ParetoFrontier(points);
    if frontier == [] {
      return 0.0;
    }
    hide Trapezoid, Rectangle, FrontierOf;
    area := 0.0;
    for k := 1 to |frontier|
      invariant area == Trapezoids(frontier[..k], log)
    {
      assert frontier[..k + 1][..k] == frontier[..k];
      area := area + Trapezoid(frontier[k - 1], frontier[k], log);
    }
    assert frontier[..|frontier|] == frontier;
    var last := frontier[|frontier| - 1];
    area := area + Rectangle(last.success, log(Max(maxCost, last.cost)) - log(last.cost));
  }

  lemma RectangleGrows(low: real, high: real, width: real)
    requires low <= high && width >= 0.0
    ensures Rectangle(low, width) <= Rectangle(high, width)
  {
    assert (high - low) * width >= 0.0;
  }

  lemma RectangleSplits(height: real, left: real, right: real)
    ensures Rectangle(height, left + right) == Rectangle(height, left) + Rectangle(height, right)
  {}

  lemma TrapezoidBetween(p: Point, q: Point, log: real -> real)
    requires p.success <= q.success && log(p.cost) <= log(q.cost)
    ensures Rectangle(p.success, log(q.cost) - log(p.cost)) <= Trapezoid(p, q, log)
         <= Rectangle(q.success, log(q.cost) - log(p.cost))
  {
    var width := log(q.cost) - log(p.cost);
    assert (q.success - p.success) * width >= 0.0;
    assert (p.success + q.success) * width == p.success * width + q.success * width;
  }

  lemma {:induction false} TrapezoidBounds(f: seq<Point>, log: real -> real)
    requires f != [] && Staircase(f) && StrictlyIncreasing(log) && forall p <- f :: p.cost >= 0.0
    ensures var first, last := f[0], f[|f| - 1];
      var width := log(last.cost) - log(first.cost);
      width >= 0.0 && Rectangle(first.success, width) <= Trapezoids(f, log) <= Rectangle(last.success, width)
  {
    hide Rectangle, Trapezoid;
    var first, last := f[0], f[|f| - 1];
    if |f| > 1 {
      var n := |f| - 1;
      TrapezoidBounds(f[..n], log);
      var before := f[n - 1];
      var left, right := log(before.cost) - log(first.cost), log(last.cost) - log(before.cost);
      RectangleSplits(first.success, left, right);
      RectangleSplits(last.success, left, right);
      RectangleGrows(before.success, last.success, left);
      RectangleGrows(first.success, before.success, right);
      TrapezoidBetween(before, last, log);
    } else {
      FlatRectangle(first.success);
    }
  }

  lemma FlatRectangle(height: real)
    ensures Rectangle(height, 0.0) == 0.0
  {}

  /** Main result: the area lies between the first and the last attained success over the whole
      width of the transformed cost axis. */
  lemma AreaBounds(points: seq<Point>, log: real -> real, maxCost: real)
    requires points != [] && StrictlyIncreasing(log) && forall p <- points :: p.cost >= 0.0
    ensures var f := FrontierOf(points);
      && f != [] && Staircase(f)
      && var width := log(Max(maxCost, f[|f| - 1].cost)) - log(f[0].cost);
         && width >= 0.0
         && Rectangle(f[0].success, width) <= Area(f, log, maxCost) <= Rectangle(f[|f| - 1].success, width)
  {
    hide FrontierOf, Rectangle, Trapezoids;
    var f := FrontierOf(points);
    FrontierIsExact(points);
    assert points[0] in points;
    var some := FrontierCovers(points, points[0]);
    TrapezoidBounds(f, log);
    var first, last := f[0], f[|f| - 1];
    assert first in f && last in f;
    var left, right := log(last.cost) - log(first.cost), log(Max(maxCost, last.cost)) - log(last.cost);
    RectangleSplits(first.success, left, right);
    RectangleSplits(last.success, left, right);
    RectangleGrows(first.success, last.success, right);
  }

  /** With success in [0, 1] and log(0) = 0 the area is itself between 0 and log(maxCost). */
  lemma AreaIsNormalised(points: seq<Point>, log: real -> real, maxCost: real)
    requires points != [] && StrictlyIncreasing(log) && log(0.0) == 0.0
    requires forall p <- points :: 0.0 <= p.cost <= maxCost && 0.0 <= p.success <= 1.0
    ensures 0.0 <= Area(FrontierOf(points), log, maxCost) <= log(maxCost)
  {
    var f := FrontierOf(points);
    AreaBounds(points, log, maxCost);
    FrontierIsExact(points);
    hide FrontierOf, Area, Rectangle;
    var first, last := f[0], f[|f| - 1];
    assert first in f && last in f;
    Normalise(first.success, last.success, Area(f, log, maxCost), log(maxCost) - log(first.cost));
  }

  lemma Normalise(low: real, high: real, area: real, width: real)
    requires 0.0 <= low && high <= 1.0 && width >= 0.0 && Rectangle(low, width) <= area <= Rectangle(high, width)
    ensures 0.0 <= area <= width
  {
    assert low * width >= 0.0 && (1.0 - high) * width >= 0.0;
  }

  /** The area depends on the operating points only through the undominated ones. */
  lemma AreaIgnoresDominated(points: seq<Point>, more: seq<Point>, log: real -> real, maxCost: real)
    requires forall p <- points :: p in more
    requires forall p <- more :: p in points || !Undominated(points, p)
    ensures Area(FrontierOf(more), log, maxCost) == Area(FrontierOf(points), log, maxCost)
  {
    FrontierIgnoresDominated(points, more);
  }

  // ---- One more point ----

  /** How many frontier points cost less than p: with p undominated, those it leaves standing on its left. */
  function Cheaper(f: seq<Point>, p: Point): (i: nat)
    ensures i <= |f|
  {
    if f == [] || f[|f| - 1].cost < p.cost then |f| else Cheaper(f[..|f| - 1], p)
  }

  /** How many succeed no more often: all but those it leaves standing on its right. */
  function NoBetter(f: seq<Point>, p: Point): (j: nat)
    ensures j <= |f|
  {
    if f == [] || f[|f| - 1].success <= p.success then |f| else NoBetter(f[..|f| - 1], p)
  }

  lemma {:induction false} CountsCut(f: seq<Point>, p: Point)
    requires Staircase(f)
    ensures forall k :: 0 <= k < |f| ==> (f[k].cost < p.cost <==> k < Cheaper(f, p))
    ensures forall k :: 0 <= k < |f| ==> (f[k].success <= p.success <==> k < NoBetter(f, p))
  {
    if f != [] {
      var n := |f| - 1;
      CountsCut(f[..n], p);
      assert forall k :: 0 <= k < n ==> f[..n][k] == f[k] && f[k].cost < f[n].cost && f[k].success < f[n].success;
    }
  }

  /** A point no input dominates or equals either beats a frontier point in cost or loses to it in success. */
  lemma OffTheFrontier(points: seq<Point>, p: Point, q: Point)
    requires Undominated(points, p) && p !in points && q in FrontierOf(points)
    ensures q.cost > p.cost || q.success < p.success
  {
    FrontierIsExact(points);
    hide FrontierOf;
    assert !Dominates(q, p) && q != p;
  }

  /** Where a new undominated point cuts the frontier: what lies between is exactly what it dominates. */
  lemma Cuts(points: seq<Point>, p: Point)
    requires Undominated(points, p) && p !in points
    ensures var f := FrontierOf(points);
      && Staircase(f) && Cheaper(f, p) <= NoBetter(f, p)
      && (forall k :: 0 <= k < Cheaper(f, p) ==> f[k].cost < p.cost && f[k].success < p.success)
      && (forall k :: Cheaper(f, p) <= k < NoBetter(f, p) ==> f[k].cost >= p.cost && f[k].success <= p.success)
      && (forall k :: NoBetter(f, p) <= k < |f| ==> f[k].cost > p.cost && f[k].success > p.success)
  {
    var f := FrontierOf(points);
    FrontierIsExact(points);
    CountsCut(f, p);
    forall k | 0 <= k < |f| ensures f[k].cost > p.cost || f[k].success < p.success {
      OffTheFrontier(points, p, f[k]);
    }
    hide FrontierOf;
    var i, j := Cheaper(f, p), NoBetter(f, p);
    if j < |f| {
      assert f[j].success > p.success;
    }
  }

  /** The frontier with one more point: what it drives out is replaced by it. */
  function Inserted(f: seq<Point>, p: Point): seq<Point>
    requires Cheaper(f, p) <= NoBetter(f, p)
  {
    f[..Cheaper(f, p)] + ([p] + f[NoBetter(f, p)..])
  }

  lemma InsertedAscends(f: seq<Point>, p: Point)
    requires Staircase(f) && Cheaper(f, p) <= NoBetter(f, p)
    requires forall k :: 0 <= k < Cheaper(f, p) ==> f[k].cost < p.cost
    requires forall k :: NoBetter(f, p) <= k < |f| ==> f[k].cost > p.cost
    ensures Ascending(Inserted(f, p))
  {}

  lemma InsertedMembers(f: seq<Point>, p: Point, x: Point)
    requires Cheaper(f, p) <= NoBetter(f, p)
    requires forall k :: 0 <= k < Cheaper(f, p) ==> !Dominates(p, f[k])
    requires forall k :: Cheaper(f, p) <= k < NoBetter(f, p) ==> Dominates(p, f[k])
    requires forall k :: NoBetter(f, p) <= k < |f| ==> !Dominates(p, f[k])
    ensures x in Inserted(f, p) <==> x == p || (x in f && !Dominates(p, x))
  {
    hide Dominates;
    var i, j := Cheaper(f, p), NoBetter(f, p);
    assert f == f[..i] + f[i..j] + f[j..];
    if x in f && !Dominates(p, x) {
      var k :| 0 <= k < |f| && f[k] == x;
      if k < i {
        assert x == f[..i][k];
      } else {
        assert x == f[j..][k - j];
      }
    }
  }

  /** Main result: a new undominated point joins the frontier and drives out exactly what it dominates. */
  lemma InsertedFrontier(points: seq<Point>, p: Point)
    requires Undominated(points, p) && p !in points
    ensures var f := FrontierOf(points);
      && Cheaper(f, p) <= NoBetter(f, p) && FrontierOf([p] + points) == Inserted(f, p)
      && forall k :: 0 <= k < |f| ==> (Dominates(p, f[k]) <==> Cheaper(f, p) <= k < NoBetter(f, p))
  {
    var f, more := FrontierOf(points), [p] + points;
    Cuts(points, p);
    FrontierIsExact(points);
    FrontierIsExact(more);
    hide FrontierOf, Inserted, Cheaper, NoBetter;
    forall k | 0 <= k < |f| ensures Dominates(p, f[k]) <==> Cheaper(f, p) <= k < NoBetter(f, p) {
      assert f[k] in f;
    }
    InsertedAscends(f, p);
    StaircaseAscends(FrontierOf(more));
    hide Dominates;
    forall x ensures x in FrontierOf(more) <==> x in Inserted(f, p) {
      InsertedMembers(f, p, x);
      SurvivesOneMore(points, p, x);
    }
    AscendingIsDetermined(FrontierOf(more), Inserted(f, p));
  }

  lemma SurvivesOneMore(points: seq<Point>, p: Point, x: Point)
    requires Undominated(points, p)
    ensures x in [p] + points && Undominated([p] + points, x)
       <==> x == p || (x in points && Undominated(points, x) && !Dominates(p, x))
  {
    NeverItself(p);
    hide Dominates;
    assert Undominated([p] + points, x) <==> Undominated(points, x) && !Dominates(p, x);
  }

  lemma StaircaseAscends(f: seq<Point>)
    requires Staircase(f)
    ensures Ascending(f)
  {}

  // ---- What it does to the area ----

  lemma {:induction false} TrapezoidsSplit(a: seq<Point>, b: seq<Point>, log: real -> real)
    requires a != [] && b != []
    ensures Trapezoids(a + b, log) == Trapezoids(a, log) + Trapezoid(a[|a| - 1], b[0], log) + Trapezoids(b, log)
  {
    hide Trapezoid;
    var n := |b| - 1;
    if n == 0 {
      assert (a + b)[..|a|] == a;
    } else {
      TrapezoidsSplit(a, b[..n], log);
      assert (a + b)[..|a + b| - 1] == a + b[..n];
    }
  }

  lemma AreaSplit(a: seq<Point>, b: seq<Point>, log: real -> real, maxCost: real)
    requires a != [] && b != []
    ensures Area(a + b, log, maxCost) == Trapezoids(a, log) + Trapezoid(a[|a| - 1], b[0], log) + Area(b, log, maxCost)
  {
    TrapezoidsSplit(a, b, log);
    hide Trapezoid, Rectangle, Trapezoids;
    assert (a + b)[|a + b| - 1] == b[|b| - 1];
  }

  /** The area from a point on: the trapezoid to the rest, or the rectangle to the bound. */
  lemma AreaFrom(p: Point, rest: seq<Point>, log: real -> real, maxCost: real)
    requires p.cost <= maxCost
    ensures Area([p] + rest, log, maxCost)
         == if rest == [] then Rectangle(p.success, log(maxCost) - log(p.cost))
            else Trapezoid(p, rest[0], log) + Area(rest, log, maxCost)
  {
    if rest == [] {
      assert [p] + rest == [p];
    } else {
      AreaSplit([p], rest, log, maxCost);
    }
  }

  /** How far p lies above the straight line from a to b, on the transformed axis, times its width. */
  function AboveChord(a: Point, p: Point, b: Point, log: real -> real): real {
    Rectangle(p.success - a.success, log(b.cost) - log(a.cost))
    - Rectangle(b.success - a.success, log(p.cost) - log(a.cost))
  }

  lemma TwoTrapezoids(a: Point, p: Point, b: Point, log: real -> real)
    ensures Trapezoid(a, p, log) + Trapezoid(p, b, log) - Trapezoid(a, b, log) == AboveChord(a, p, b, log) / 2.0
  {
    TwoProducts(a.success, p.success, b.success, log(a.cost), log(p.cost), log(b.cost));
  }

  lemma TwoProducts(a: real, p: real, b: real, la: real, lp: real, lb: real)
    ensures (a + p) * (lp - la) / 2.0 + (p + b) * (lb - lp) / 2.0 - (a + b) * (lb - la) / 2.0
         == ((p - a) * (lb - la) - (b - a) * (lp - la)) / 2.0
  {}

  /** What a point that drives nothing out changes between two neighbours: half of what it lies above
      their chord. */
  lemma InsertedAreaExactly(f: seq<Point>, p: Point, log: real -> real, maxCost: real)
    requires Cheaper(f, p) == NoBetter(f, p) && 0 < Cheaper(f, p) < |f|
    ensures var i := Cheaper(f, p);
      Area(Inserted(f, p), log, maxCost) == Area(f, log, maxCost) + AboveChord(f[i - 1], p, f[i], log) / 2.0
  {
    hide Trapezoid, AboveChord, Area;
    var i := Cheaper(f, p);
    var left, right := f[..i], f[i..];
    assert f == left + right;
    AreaSplit(left, right, log, maxCost);
    AreaSplit(left, [p] + right, log, maxCost);
    AreaSplit([p], right, log, maxCost);
    TwoTrapezoids(f[i - 1], p, f[i], log);
  }

  /** Where the bound and the axis let every piece of the area count. */
  ghost predicate Ordinary(p: Point, maxCost: real) {
    0.0 <= p.cost <= maxCost && p.success >= 0.0
  }

  /** Costs in order are in order on the transformed axis. */
  lemma LogOrder(log: real -> real, low: real, high: real)
    requires StrictlyIncreasing(log) && 0.0 <= low <= high
    ensures log(low) <= log(high)
  {}

  lemma RectangleSign(height: real, width: real)
    requires height >= 0.0 && width >= 0.0
    ensures Rectangle(height, width) >= 0.0
  {}

  /** Points that p drives out, within the bound. */
  ghost predicate Under(g: seq<Point>, p: Point, maxCost: real) {
    forall q <- g :: 0.0 <= p.cost <= q.cost <= maxCost && 0.0 <= q.success <= p.success
  }

  lemma UnderEnds(g: seq<Point>, p: Point, maxCost: real)
    requires g != [] && Under(g, p, maxCost)
    ensures 0.0 <= p.cost <= g[0].cost && p.cost <= g[|g| - 1].cost <= maxCost
    ensures 0.0 <= g[|g| - 1].success <= p.success && g[0].success <= p.success
    ensures forall q <- g :: q.cost >= 0.0
  {
    assert g[0] in g && g[|g| - 1] in g;
  }

  /** The stretch itself, and its levels on the axis. */
  lemma StretchItself(p: Point, g: seq<Point>, log: real -> real, maxCost: real)
    requires g != [] && Staircase(g) && StrictlyIncreasing(log) && Under(g, p, maxCost)
    ensures var last := g[|g| - 1];
      && log(p.cost) <= log(g[0].cost) <= log(last.cost) <= log(maxCost)
      && Rectangle(p.success, log(g[0].cost) - log(p.cost)) + Trapezoids(g, log)
         <= Rectangle(p.success, log(last.cost) - log(p.cost))
  {
    hide Rectangle, Trapezoids, StrictlyIncreasing, Staircase, Under;
    var last := g[|g| - 1];
    UnderEnds(g, p, maxCost);
    TrapezoidBounds(g, log);
    LogOrder(log, p.cost, g[0].cost);
    LogOrder(log, last.cost, maxCost);
    var x0, xg, xp := log(g[0].cost), log(last.cost), log(p.cost);
    RectangleGrows(last.success, p.success, xg - x0);
    RectangleSplits(p.success, x0 - xp, xg - x0);
  }

  /** A stretch that p drives out, with what follows it, covers no more than p does from its own cost on. */
  lemma StretchShrinks(p: Point, g: seq<Point>, rest: seq<Point>, log: real -> real, maxCost: real)
    requires g != [] && Staircase(g) && StrictlyIncreasing(log) && Under(g, p, maxCost)
    requires rest != [] ==> rest[0].success >= p.success && rest[0].cost > g[|g| - 1].cost
    ensures Rectangle(p.success, log(g[0].cost) - log(p.cost)) + Area(g + rest, log, maxCost)
         <= Area([p] + rest, log, maxCost)
  {
    hide Rectangle, Trapezoid, Trapezoids, Staircase, StrictlyIncreasing, Under;
    var last := g[|g| - 1];
    UnderEnds(g, p, maxCost);
    StretchItself(p, g, log, maxCost);
    AreaFrom(p, rest, log, maxCost);
    if rest == [] {
      assert g + rest == g;
      var x, y := log(last.cost) - log(p.cost), log(maxCost) - log(last.cost);
      RectangleGrows(last.success, p.success, y);
      RectangleSplits(p.success, x, y);
    } else {
      hide Area;
      AreaSplit(g, rest, log, maxCost);
      LogOrder(log, last.cost, rest[0].cost);
      WiderTrapezoid(last, p, rest[0], log);
    }
  }

  /** From a lower point further right to a higher one covers less than from p, even with p's level
      filled in up to it. */
  lemma WiderTrapezoid(low: Point, p: Point, high: Point, log: real -> real)
    requires low.success <= p.success <= high.success && log(p.cost) <= log(low.cost) <= log(high.cost)
    ensures Rectangle(p.success, log(low.cost) - log(p.cost)) + Trapezoid(low, high, log) <= Trapezoid(p, high, log)
  {
    WiderProducts(low.success, p.success, high.success, log(low.cost) - log(p.cost), log(high.cost) - log(low.cost));
  }

  lemma WiderProducts(low: real, p: real, high: real, gap: real, width: real)
    requires low <= p <= high && gap >= 0.0 && width >= 0.0
    ensures p * gap + (low + high) * width / 2.0 <= (p + high) * (gap + width) / 2.0
  {
    RectangleSign(high - p, gap);
    RectangleSign(p - low, width);
    WiderIdentity(low, p, high, gap, width);
  }

  lemma WiderIdentity(low: real, p: real, high: real, gap: real, width: real)
    ensures (p + high) * (gap + width) / 2.0 - p * gap - (low + high) * width / 2.0
         == (Rectangle(high - p, gap) + Rectangle(p - low, width)) / 2.0
  {}

  /** From the left neighbour to a stretch that p drives out covers no more than to p and on at its level. */
  lemma StepUpShrinks(a: Point, p: Point, g: Point, log: real -> real)
    requires a.success <= p.success && g.success <= p.success && log(a.cost) <= log(p.cost) <= log(g.cost)
    ensures Trapezoid(a, g, log) <= Trapezoid(a, p, log) + Rectangle(p.success, log(g.cost) - log(p.cost))
  {
    StepProducts(a.success, p.success, g.success, log(p.cost) - log(a.cost), log(g.cost) - log(p.cost));
  }

  lemma StepProducts(a: real, p: real, g: real, width: real, gap: real)
    requires a <= p && g <= p && width >= 0.0 && gap >= 0.0
    ensures (a + g) * (width + gap) / 2.0 <= (a + p) * width / 2.0 + p * gap
  {
    RectangleSign(p - g, width);
    RectangleSign(p - a, gap);
    RectangleSign(p - g, gap);
    StepIdentity(a, p, g, width, gap);
  }

  lemma StepIdentity(a: real, p: real, g: real, width: real, gap: real)
    ensures (a + p) * width / 2.0 + p * gap - (a + g) * (width + gap) / 2.0
         == (Rectangle(p - g, width) + Rectangle(p - a, gap) + Rectangle(p - g, gap)) / 2.0
  {}

  /** Replacing such a stretch by p, whatever stands on its left, never lowers the area. */
  lemma ReplacedKeepsArea(left: seq<Point>, p: Point, g: seq<Point>, rest: seq<Point>, log: real -> real, maxCost: real)
    requires g != [] && Staircase(g) && StrictlyIncreasing(log) && Under(g, p, maxCost)
    requires rest != [] ==> rest[0].success >= p.success && rest[0].cost > g[|g| - 1].cost
    requires left != [] ==> var a := left[|left| - 1]; 0.0 <= a.cost < p.cost && a.success < p.success
    ensures Area(left + ([p] + rest), log, maxCost) >= Area(left + (g + rest), log, maxCost)
  {
    hide Rectangle, Trapezoid, Trapezoids, Area, StrictlyIncreasing, Staircase, Under;
    UnderEnds(g, p, maxCost);
    StretchShrinks(p, g, rest, log, maxCost);
    LogOrder(log, p.cost, g[0].cost);
    if left == [] {
      assert left + ([p] + rest) == [p] + rest && left + (g + rest) == g + rest;
      RectangleSign(p.success, log(g[0].cost) - log(p.cost));
    } else {
      var a := left[|left| - 1];
      AreaSplit(left, g + rest, log, maxCost);
      AreaSplit(left, [p] + rest, log, maxCost);
      LogOrder(log, a.cost, p.cost);
      StepUpShrinks(a, p, g[0], log);
    }
  }

  /** A point that drives something out never lowers the area. */
  lemma DrivingOutKeepsArea(f: seq<Point>, p: Point, i: nat, j: nat, log: real -> real, maxCost: real)
    requires Staircase(f) && StrictlyIncreasing(log) && Ordinary(p, maxCost) && forall q <- f :: Ordinary(q, maxCost)
    requires i < j <= |f|
    requires i > 0 ==> f[i - 1].cost < p.cost && f[i - 1].success < p.success
    requires forall k :: i <= k < j ==> f[k].cost >= p.cost && f[k].success <= p.success
    requires j < |f| ==> f[j].cost > p.cost && f[j].success > p.success
    ensures Area(f[..i] + ([p] + f[j..]), log, maxCost) >= Area(f, log, maxCost)
  {
    hide Area, StrictlyIncreasing;
    var left, g, rest := f[..i], f[i..j], f[j..];
    assert f == left + (g + rest);
    SliceIsUnder(f, p, i, j, maxCost);
    hide Staircase, Ordinary, Under;
    ReplacedKeepsArea(left, p, g, rest, log, maxCost);
  }

  lemma SliceIsUnder(f: seq<Point>, p: Point, i: nat, j: nat, maxCost: real)
    requires Staircase(f) && Ordinary(p, maxCost) && forall q <- f :: Ordinary(q, maxCost)
    requires i < j <= |f| && forall k :: i <= k < j ==> f[k].cost >= p.cost && f[k].success <= p.success
    ensures Under(f[i..j], p, maxCost) && Staircase(f[i..j])
    ensures i > 0 ==> f[i - 1].cost >= 0.0
    ensures j < |f| ==> f[j - 1].cost < f[j].cost
  {
    assert forall k :: 0 <= k < |f| ==> f[k] in f;
    forall q <- f[i..j] ensures 0.0 <= p.cost <= q.cost <= maxCost && 0.0 <= q.success <= p.success {
      var k :| 0 <= k < j - i && f[i..j][k] == q;
      assert q == f[i + k];
    }
  }

  /** A point before the frontier never lowers the area. */
  lemma FrontKeepsArea(f: seq<Point>, p: Point, log: real -> real, maxCost: real)
    requires StrictlyIncreasing(log) && Ordinary(p, maxCost)
    requires f != [] ==> f[0].cost > p.cost && f[0].success > p.success
    ensures Area([p] + f, log, maxCost) >= Area(f, log, maxCost)
  {
    LogOrder(log, p.cost, maxCost);
    AreaFrom(p, f, log, maxCost);
    hide Rectangle, Trapezoid, Trapezoids;
    if f == [] {
      RectangleSign(p.success, log(maxCost) - log(p.cost));
    } else {
      hide Area;
      LogOrder(log, p.cost, f[0].cost);
      TrapezoidBetween(p, f[0], log);
      RectangleSign(p.success, log(f[0].cost) - log(p.cost));
    }
  }

  /** A point past the frontier never lowers the area. */
  lemma BackKeepsArea(f: seq<Point>, p: Point, log: real -> real, maxCost: real)
    requires StrictlyIncreasing(log) && Ordinary(p, maxCost)
    requires f != [] && 0.0 <= f[|f| - 1].cost < p.cost && f[|f| - 1].success < p.success
    ensures Area(f + [p], log, maxCost) >= Area(f, log, maxCost)
  {
    var last := f[|f| - 1];
    LogOrder(log, last.cost, p.cost);
    LogOrder(log, p.cost, maxCost);
    AreaSplit(f, [p], log, maxCost);
    hide Rectangle, Trapezoid, StrictlyIncreasing;
    TrapezoidBetween(last, p, log);
    var x, y := log(p.cost) - log(last.cost), log(maxCost) - log(p.cost);
    RectangleSplits(last.success, x, y);
    RectangleGrows(last.success, p.success, y);
  }

  lemma EndsKeepArea(f: seq<Point>, p: Point, log: real -> real, maxCost: real)
    requires StrictlyIncreasing(log) && Ordinary(p, maxCost) && forall q <- f :: Ordinary(q, maxCost)
    requires Cheaper(f, p) == NoBetter(f, p) && (Cheaper(f, p) == 0 || Cheaper(f, p) == |f|)
    requires forall k :: 0 <= k < Cheaper(f, p) ==> f[k].cost < p.cost && f[k].success < p.success
    requires forall k :: NoBetter(f, p) <= k < |f| ==> f[k].cost > p.cost && f[k].success > p.success
    ensures Area(Inserted(f, p), log, maxCost) >= Area(f, log, maxCost)
  {
    hide Area, StrictlyIncreasing, Cheaper, NoBetter;
    if Cheaper(f, p) == 0 {
      assert f[0..] == f && Inserted(f, p) == [p] + f;
      FrontKeepsArea(f, p, log, maxCost);
    } else {
      assert f[|f| - 1] in f;
      assert f[..|f|] == f && Inserted(f, p) == f + [p];
      BackKeepsArea(f, p, log, maxCost);
    }
  }

  /** Main result, for every new operating point: it lowers the area exactly if no point dominates it, it
      drives none out, and it lies strictly between two neighbours and below their chord. */
  lemma MorePointsLowerAreaExactly(points: seq<Point>, p: Point, log: real -> real, maxCost: real)
    requires StrictlyIncreasing(log) && Ordinary(p, maxCost) && forall q <- points :: Ordinary(q, maxCost)
    ensures var f := FrontierOf(points);
      var i := Cheaper(f, p);
      Area(FrontierOf([p] + points), log, maxCost) < Area(f, log, maxCost)
      <==> (Undominated(points, p) && i == NoBetter(f, p) && 0 < i < |f| && AboveChord(f[i - 1], p, f[i], log) < 0.0)
  {
    var f := FrontierOf(points);
    FrontierIsExact(points);
    hide FrontierOf, Area, AboveChord, Ordinary, Cheaper, NoBetter, StrictlyIncreasing;
    if !Undominated(points, p) || p in points {
      FrontierIgnoresDominated(points, [p] + points);
      if p in points && Undominated(points, p) {
        OnTheFrontier(f, p);
      }
    } else {
      Cuts(points, p);
      InsertedFrontier(points, p);
      if Cheaper(f, p) < NoBetter(f, p) {
        DrivingOutKeepsArea(f, p, Cheaper(f, p), NoBetter(f, p), log, maxCost);
      } else if Cheaper(f, p) == 0 || Cheaper(f, p) == |f| {
        EndsKeepArea(f, p, log, maxCost);
      } else {
        InsertedAreaExactly(f, p, log, maxCost);
      }
    }
  }

  /** A point of the frontier itself does not count as cheaper, but as no better. */
  lemma OnTheFrontier(f: seq<Point>, p: Point)
    requires Staircase(f) && p in f
    ensures Cheaper(f, p) < NoBetter(f, p)
  {
    CountsCut(f, p);
    var k :| 0 <= k < |f| && f[k] == p;
  }

  /** An instance: adding an undominated operating point can lower the area. */
  lemma MorePointsLessArea(log: real -> real)
    requires forall x :: log(x) == x
    ensures var points, p := [Point(0.0, 0.0), Point(4.0, 1.0)], Point(3.0, 0.5);
      && p in FrontierOf([p] + points)
      && Area(FrontierOf([p] + points), log, 4.0) < Area(FrontierOf(points), log, 4.0)
  {
    var a, b, p := Point(0.0, 0.0), Point(4.0, 1.0), Point(3.0, 0.5);
    var points := [a, b];
    hide FrontierOf, Area;
    FrontierIsExact(points);
    assert points[0] in points && points[1] in points;
    StaircaseAscends(FrontierOf(points));
    AscendingIsDetermined(FrontierOf(points), points);
    CountsCut(points, p);
    FrontierIsExact([p] + points);
    assert Undominated([p] + points, p);
    assert AboveChord(a, p, b, log) == -1.0;
    MorePointsLowerAreaExactly(points, p, log, 4.0);
  }
}
