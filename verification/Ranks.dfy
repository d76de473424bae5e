/** Tie-aware average ranks and the rank correlation built on them. */
module Ranks {
  import opened Common
  import opened Reals
  import opened Sorting

  // ---- Counting ----

  function CountLess(values: seq<real>, v: real): nat {
    if values == [] then 0 else (if values[0] < v then 1 else 0) + CountLess(values[1..], v)
  }

  function CountEqual(values: seq<real>, v: real): nat {
    if values == [] then 0 else (if values[0] == v then 1 else 0) + CountEqual(values[1..], v)
  }

  /** The mean of the 1-based positions that `v` occupies among the sorted values. */
  function Rank(values: seq<real>, v: real): real {
    CountLess(values, v) as real + (CountEqual(values, v) as real + 1.0) / 2.0
  }

  function RanksOf(values: seq<real>): seq<real> {
    seq(|values|, i requires 0 <= i < |values| => Rank(values, values[i]))
  }

  // ---- The bucket loop ----

  datatype Indexed = Indexed(index: nat, value: real)

  predicate NoLarger(a: Indexed, b: Indexed) {
    a.value <= b.value
  }

  predicate AtMost(a: real, b: real) {
    a <= b
  }

  function ValueOf(e: Indexed): real {
    e.value
  }

  function Enumerate(values: seq<real>): seq<Indexed> {
    seq(|values|, i requires 0 <= i < |values| => Indexed(i, values[i]))
  }

  lemma {:induction false} InsertKeepsCounts(x: real, s: seq<real>, v: real)
    ensures CountLess(Insert(AtMost, x, s), v) == CountLess([x] + s, v)
    ensures CountEqual(Insert(AtMost, x, s), v) == CountEqual([x] + s, v)
  {
    assert ([x] + s)[1..] == s;
    if s != [] && !AtMost(x, s[0]) {
      InsertKeepsCounts(x, s[1..], v);
      assert ([x] + s[1..])[1..] == s[1..];
      assert Insert(AtMost, x, s)[1..] == Insert(AtMost, x, s[1..]);
    }
  }

  lemma {:induction false} SortKeepsCounts(s: seq<real>, v: real)
    ensures CountLess(Sort(AtMost, s), v) == CountLess(s, v)
    ensures CountEqual(Sort(AtMost, s), v) == CountEqual(s, v)
  {
    if s != [] {
      SortKeepsCounts(s[1..], v);
      InsertKeepsCounts(s[0], Sort(AtMost, s[1..]), v);
      assert ([s[0]] + Sort(AtMost, s[1..]))[1..] == Sort(AtMost, s[1..]);
    }
  }

  /** In a sorted sequence the smaller values come first and the equal ones sit together. */
  lemma {:induction false} BucketCounts(s: seq<real>, v: real, i: nat, j: nat)
    requires i <= j <= |s|
    requires forall k :: 0 <= k < i ==> s[k] < v
    requires forall k :: i <= k < j ==> s[k] == v
    requires forall k :: j <= k < |s| ==> s[k] > v
    ensures CountLess(s, v) == i && CountEqual(s, v) == j - i
  {
    if s != [] {
      if i > 0 {
        BucketCounts(s[1..], v, i - 1, j - 1);
      } else {
        BucketCounts(s[1..], v, 0, if j > 0 then j - 1 else 0);
      }
    }
  }

  ghost predicate Placed(s: seq<Indexed>, p: nat) {
    exists e :: e in s && e.index == p
  }

  lemma SortedValues(values: seq<real>)
    ensures Mapped(ValueOf, Sort(NoLarger, Enumerate(values))) == Sort(AtMost, values)
  {
    var e := Enumerate(values);
    SortMapped(NoLarger, AtMost, ValueOf, e);
    assert Mapped(ValueOf, e) == values;
  }

  lemma SortedIndexed(values: seq<real>)
    ensures var s := Sort(NoLarger, Enumerate(values));
      && |s| == |values|
      && (forall j, k :: 0 <= j < k < |s| ==> s[j].value <= s[k].value)
      && (forall e <- s :: e.index < |values| && e.value == values[e.index])
      && (forall p :: 0 <= p < |values| ==> Placed(s, p))
  {
    var e := Enumerate(values);
    var s := Sort(NoLarger, e);
    SortSorts(NoLarger, e);
    hide Sort;
    forall j, k | 0 <= j < k < |s| ensures s[j].value <= s[k].value {
      assert NoLarger(s[j], s[k]);
    }
    forall p | 0 <= p < |values| ensures Placed(s, p) {
      assert e[p] in e && e[p] in s;
    }
  }

  /** The loop's average position is the closed form. */
  lemma BucketRank(values: seq<real>, i: nat, j: nat)
    requires var s := Sort(NoLarger, Enumerate(values));
      && i < j <= |s|
      && (forall k :: i <= k < j ==> s[k].value == s[i].value)
      && (forall k :: 0 <= k < i ==> s[k].value < s[i].value)
      && (j < |s| ==> s[j].value != s[i].value)
    ensures Rank(values, Sort(NoLarger, Enumerate(values))[i].value) == (i + j + 1) as real / 2.0
  {
    var s := Sort(NoLarger, Enumerate(values));
    SortedIndexed(values);
    SortedValues(values);
    var v, sorted := s[i].value, Sort(AtMost, values);
    assert forall k :: 0 <= k < |s| ==> sorted[k] == ValueOf(s[k]);
    BucketCounts(sorted, v, i, j);
    SortKeepsCounts(values, v);
  }

  method RankValues(values: seq<real>) returns (ranks: array<real>)
    ensures fresh(ranks) && ranks[..] == RanksOf(values)
  {
    hide Rank, Sort, Enumerate;
    var n := |values|;
    ranks := new real[n](_ => 0.0);
    var sorted := Sort(NoLarger, Enumerate(values));
    SortedIndexed(values);
    var i := 0;
    while i < n
      invariant i <= n
      invariant forall k, m :: 0 <= k < i <= m < n ==> sorted[k].value < sorted[m].value
      invariant forall k :: 0 <= k < i ==> ranks[sorted[k].index] == Rank(values, values[sorted[k].index])
    {
      var v := sorted[i].value;
      var j := i;
      while j < n && sorted[j].value == v
        invariant i <= j <= n
        invariant forall k :: i <= k < j ==> sorted[k].value == v
      {
        j := j + 1;
      }
      var rank := (i + j + 1) as real / 2.0;
      BucketRank(values, i, j);
      assert rank == Rank(values, v);
      FillBucket(ranks, sorted, values, i, j, rank);
      i := j;
    }
    forall p | 0 <= p < n ensures ranks[p] == RanksOf(values)[p] {
      assert Placed(sorted, p);
      var e :| e in sorted && e.index == p;
      var k :| 0 <= k < n && sorted[k] == e;
    }
  }

  method FillBucket(ranks: array<real>, sorted: seq<Indexed>, values: seq<real>, i: nat, j: nat, rank: real)
    requires i <= j <= |sorted| && ranks.Length == |values|
    requires forall e <- sorted :: e.index < |values| && e.value == values[e.index]
    requires forall k :: i <= k < j ==> Rank(values, sorted[k].value) == rank
    requires forall k :: 0 <= k < i ==> ranks[sorted[k].index] == Rank(values, values[sorted[k].index])
    modifies ranks
    ensures forall k :: 0 <= k < j ==> ranks[sorted[k].index] == Rank(values, values[sorted[k].index])
  {
    hide Rank;
    for k := i to j
      invariant forall m :: 0 <= m < k ==> ranks[sorted[m].index] == Rank(values, values[sorted[m].index])
    {
      ranks[sorted[k].index] := rank;
    }
  }

  // ---- What ranks preserve ----

  lemma {:induction false} CountsAreOrdered(s: seq<real>, u: real, v: real)
    requires u < v
    ensures CountLess(s, u) + CountEqual(s, u) <= CountLess(s, v)
  {
    if s != [] {
      CountsAreOrdered(s[1..], u, v);
    }
  }

  lemma {:induction false} OccursOnce(s: seq<real>, i: nat)
    requires i < |s|
    ensures CountEqual(s, s[i]) >= 1
  {
    if i > 0 {
      OccursOnce(s[1..], i - 1);
    }
  }

  /** Main result: ranks order and tie exactly as the values do. */
  lemma RanksPreserveOrder(values: seq<real>, i: nat, j: nat)
    requires i < |values| && j < |values|
    ensures values[i] < values[j] <==> RanksOf(values)[i] < RanksOf(values)[j]
    ensures values[i] == values[j] <==> RanksOf(values)[i] == RanksOf(values)[j]
  {
    OccursOnce(values, i);
    OccursOnce(values, j);
    if values[i] < values[j] {
      CountsAreOrdered(values, values[i], values[j]);
    } else if values[j] < values[i] {
      CountsAreOrdered(values, values[j], values[i]);
    }
  }

  function Sum(s: seq<real>): real {
    if s == [] then 0.0 else s[0] + Sum(s[1..])
  }

  function RankTotal(values: seq<real>, over: seq<real>): real {
    if over == [] then 0.0 else Rank(values, over[0]) + RankTotal(values, over[1..])
  }

  /** A further value x pushes up each rank above it by one and each rank tied with it by a half. */
  lemma {:induction false} OneMoreValue(x: real, values: seq<real>, over: seq<real>)
    ensures RankTotal([x] + values, over)
         == RankTotal(values, over) + (|over| - CountLess(over, x) - CountEqual(over, x)) as real
            + CountEqual(over, x) as real / 2.0
  {
    assert ([x] + values)[1..] == values;
    if over != [] {
      OneMoreValue(x, values, over[1..]);
    }
  }

  lemma {:induction false} RankTotalIsTriangular(values: seq<real>)
    ensures RankTotal(values, values) == (|values| * (|values| + 1)) as real / 2.0
  {
    if values != [] {
      var x, rest := values[0], values[1..];
      RankTotalIsTriangular(rest);
      OneMoreValue(x, rest, rest);
      assert values == [x] + rest;
      Triangle(|rest|);
    }
  }

  lemma Triangle(n: nat)
    ensures ((n + 1) * (n + 2)) as real / 2.0 == (n * (n + 1)) as real / 2.0 + n as real + 1.0
  {
    assert (n + 1) * (n + 2) == n * (n + 1) + 2 * n + 2;
  }

  lemma {:induction false} RanksSum(values: seq<real>, over: seq<real>, ranks: seq<real>)
    requires |ranks| == |over| && forall i :: 0 <= i < |over| ==> ranks[i] == Rank(values, over[i])
    ensures Sum(ranks) == RankTotal(values, over)
  {
    if over != [] {
      RanksSum(values, over[1..], ranks[1..]);
    }
  }

  /** Main result: however the values tie, their ranks sum to n(n+1)/2. */
  lemma RanksSumTriangular(values: seq<real>)
    ensures Sum(RanksOf(values)) == (|values| * (|values| + 1)) as real / 2.0
  {
    RanksSum(values, values, RanksOf(values));
    RankTotalIsTriangular(values);
  }

  // ---- Spearman's rho ----

  function Centred(s: seq<real>, mean: real): seq<real> {
    seq(|s|, i requires 0 <= i < |s| => s[i] - mean)
  }

  /** Pairs beyond the shorter sequence are dropped, as zip drops them. */
  function Dot(a: seq<real>, b: seq<real>): real {
    if a == [] || b == [] then 0.0 else a[0] * b[0] + Dot(a[1..], b[1..])
  }

  lemma {:induction false} SelfDotIsNonNegative(a: seq<real>)
    ensures Dot(a, a) >= 0.0
  {
    if a != [] {
      SelfDotIsNonNegative(a[1..]);
      SquareIsNonNegative(a[0]);
    }
  }

  /** One step of Cauchy-Schwarz: the cross term is bounded by the two mixed squares. */
  lemma CrossTerm(s: real, p: real, q: real, a: real, b: real)
    requires p >= 0.0 && q >= 0.0 && s * s <= p * q
    ensures (s + a * b) * (s + a * b) <= (p + a * a) * (q + b * b)
  {
    var left, right := p * (b * b), q * (a * a);
    SquareIsNonNegative(a);
    SquareIsNonNegative(b);
    assert left >= 0.0 && right >= 0.0;
    var twice := 2.0 * (s * (a * b));
    CrossSquares(s, p, q, a, b);
    SquareOrder(left + right, twice);
    assert (s + a * b) * (s + a * b) == s * s + twice + (a * b) * (a * b);
    assert (p + a * a) * (q + b * b) == p * q + left + right + (a * a) * (b * b);
    assert (a * b) * (a * b) == (a * a) * (b * b);
  }

  lemma CrossSquares(s: real, p: real, q: real, a: real, b: real)
    requires p >= 0.0 && q >= 0.0 && s * s <= p * q
    ensures var twice, mixed := 2.0 * (s * (a * b)), p * (b * b) + q * (a * a); twice * twice <= mixed * mixed
  {
    var ab := a * b;
    var left, right := p * (b * b), q * (a * a);
    SquareIsNonNegative(ab);
    SquareIsNonNegative(left - right);
    assert (p * q - s * s) * (ab * ab) >= 0.0;
    assert (s * ab) * (s * ab) == (s * s) * (ab * ab);
    assert left * right == (p * q) * (ab * ab);
    assert (left + right) * (left + right) == (left - right) * (left - right) + 4.0 * (left * right);
  }

  lemma {:induction false} CauchySchwarz(a: seq<real>, b: seq<real>)
    ensures Dot(a, b) * Dot(a, b) <= Dot(a, a) * Dot(b, b)
  {
    SelfDotIsNonNegative(a);
    SelfDotIsNonNegative(b);
    if a != [] && b != [] {
      CauchySchwarz(a[1..], b[1..]);
      SelfDotIsNonNegative(a[1..]);
      SelfDotIsNonNegative(b[1..]);
      CrossTerm(Dot(a[1..], b[1..]), Dot(a[1..], a[1..]), Dot(b[1..], b[1..]), a[0], b[0]);
    } else {
      assert Dot(a, a) * Dot(b, b) >= 0.0;
    }
  }

  /** The denominator of rho. */
  function Spread(a: seq<real>, b: seq<real>, sqrt: real -> real): real {
    sqrt(Dot(a, a)) * sqrt(Dot(b, b))
  }

  function CentredRanks(values: seq<real>, n: nat): seq<real>
    requires n > 0
  {
    Centred(RanksOf(values), Sum(RanksOf(values)) / n as real)
  }

  method MeanOver(values: seq<real>, n: nat) returns (mean: real)
    requires n > 0
    ensures mean == Sum(values) / n as real
  {
    var sum := 0.0;
    for i := 0 to |values|
      invariant sum + Sum(values[i..]) == Sum(values)
    {
      assert values[i..][1..] == values[i + 1..];
      sum := sum + values[i];
    }
    mean := sum / n as real;
  }

  /** None stands for "not a number". */
  method SpearmanRho(xs: seq<real>, ys: seq<real>, sqrt: real -> real) returns (rho: Option<real>)
    requires SquareRoot(sqrt)
    ensures |xs| < 3 || |ys| < 3 ==> rho.None?
    ensures |xs| >= 3 && |ys| >= 3 ==>
      var a, b := CentredRanks(xs, |xs|), CentredRanks(ys, |xs|);
      rho == if Spread(a, b, sqrt) == 0.0 then None else Some(Dot(a, b) / Spread(a, b, sqrt))
  {
    hide RanksOf, Dot, Spread;
    if |xs| < 3 || |ys| < 3 {
      return None;
    }
    var rx := RankValues(xs);
    var ry := RankValues(ys);
    var n := rx.Length;
    Lengths(xs);
    assert rx[..] == RanksOf(xs);
    assert n == |rx[..]| == |xs|;
    var meanX := MeanOver(rx[..], n);
    var meanY := MeanOver(ry[..], n);
    var a, b := Centred(rx[..], meanX), Centred(ry[..], meanY);
    var den := Spread(a, b, sqrt);
    if den == 0.0 {
      return None;
    }
    return Some(Dot(a, b) / den);
  }

  lemma Lengths(values: seq<real>)
    ensures |RanksOf(values)| == |values|
  {}

  /** Main result: a defined rho lies between -1 and 1, even when the lengths differ. */
  lemma RhoIsBounded(a: seq<real>, b: seq<real>, sqrt: real -> real)
    requires SquareRoot(sqrt) && Spread(a, b, sqrt) != 0.0
    ensures -1.0 <= Dot(a, b) / Spread(a, b, sqrt) <= 1.0
  {
    hide Dot, Spread;
    CauchySchwarz(a, b);
    SpreadSquared(a, b, sqrt);
    SquareOrder(Spread(a, b, sqrt), Dot(a, b));
    RatioBound(Dot(a, b), Spread(a, b, sqrt));
  }

  lemma SpreadSquared(a: seq<real>, b: seq<real>, sqrt: real -> real)
    requires SquareRoot(sqrt)
    ensures Spread(a, b, sqrt) >= 0.0 && Spread(a, b, sqrt) * Spread(a, b, sqrt) == Dot(a, a) * Dot(b, b)
  {
    hide Dot;
    SelfDotIsNonNegative(a);
    SelfDotIsNonNegative(b);
    RootProduct(sqrt(Dot(a, a)), sqrt(Dot(b, b)), Dot(a, a), Dot(b, b));
  }

  lemma RootProduct(x: real, y: real, p: real, q: real)
    requires x >= 0.0 && y >= 0.0 && x * x == p && y * y == q
    ensures x * y >= 0.0 && (x * y) * (x * y) == p * q
  {}

  predicate Constant(s: seq<real>) {
    forall i, j :: 0 <= i < j < |s| ==> s[i] == s[j]
  }

  lemma {:induction false} SelfDotVanishes(a: seq<real>)
    ensures Dot(a, a) == 0.0 <==> forall i :: 0 <= i < |a| ==> a[i] == 0.0
  {
    if a != [] {
      SelfDotVanishes(a[1..]);
      SelfDotIsNonNegative(a[1..]);
      SquareIsNonNegative(a[0]);
      SquareVanishes(a[0]);
      assert forall i :: 0 < i < |a| ==> a[i] == a[1..][i - 1];
      assert forall i :: 0 <= i < |a[1..]| ==> a[1..][i] == a[i + 1];
    }
  }

  lemma {:induction false} ConstantSum(s: seq<real>, v: real)
    requires forall i :: 0 <= i < |s| ==> s[i] == v
    ensures Sum(s) == |s| as real * v
  {
    if s != [] {
      ConstantSum(s[1..], v);
    }
  }

  /** The centred ranks of a sequence vanish exactly when the sequence is constant. */
  lemma ConstantMeansZero(values: seq<real>)
    requires values != []
    ensures Dot(CentredRanks(values, |values|), CentredRanks(values, |values|)) == 0.0 <==> Constant(values)
  {
    hide RanksOf, Dot, CentredRanks;
    SelfDotVanishes(CentredRanks(values, |values|));
    CentredLength(values);
    if Constant(values) {
      ConstantIsCentred(values);
    } else {
      var i, j :| 0 <= i < j < |values| && values[i] != values[j];
      DifferentRanks(values, i, j);
    }
  }

  lemma CentredLength(values: seq<real>)
    requires values != []
    ensures |CentredRanks(values, |values|)| == |values|
  {}

  lemma ConstantIsCentred(values: seq<real>)
    requires values != [] && Constant(values)
    ensures forall i :: 0 <= i < |CentredRanks(values, |values|)| ==> CentredRanks(values, |values|)[i] == 0.0
  {
    var ranks := RanksOf(values);
    forall i | 0 <= i < |ranks| ensures ranks[i] == ranks[0] {
      RanksPreserveOrder(values, 0, i);
    }
    Lengths(values);
    ConstantSum(ranks, ranks[0]);
    MeanOfConstant(|values| as real, ranks[0]);
    hide RanksOf, Sum;
    var mean := Sum(ranks) / |values| as real;
    assert mean == ranks[0];
  }

  lemma MeanOfConstant(n: real, v: real)
    requires n != 0.0
    ensures n * v / n == v
  {}

  lemma DifferentRanks(values: seq<real>, i: nat, j: nat)
    requires i < |values| && j < |values| && values[i] != values[j]
    ensures var a := CentredRanks(values, |values|); a[i] != a[j]
  {
    hide Rank, Sum;
    RanksPreserveOrder(values, i, j);
    Lengths(values);
  }

  /** For sequences of one length, rho is undefined exactly when they are too short or one is constant. */
  lemma RhoIsDefined(xs: seq<real>, ys: seq<real>, sqrt: real -> real)
    requires SquareRoot(sqrt) && |xs| == |ys| >= 3
    ensures var a, b := CentredRanks(xs, |xs|), CentredRanks(ys, |xs|);
      Spread(a, b, sqrt) == 0.0 <==> Constant(xs) || Constant(ys)
  {
    var a, b := CentredRanks(xs, |xs|), CentredRanks(ys, |xs|);
    hide CentredRanks, Dot;
    ConstantMeansZero(xs);
    ConstantMeansZero(ys);
    SelfDotIsNonNegative(a);
    SelfDotIsNonNegative(b);
    ZeroProduct(sqrt(Dot(a, a)), sqrt(Dot(b, b)));
    SquareVanishes(sqrt(Dot(a, a)));
    SquareVanishes(sqrt(Dot(b, b)));
  }

  lemma ZeroProduct(x: real, y: real)
    ensures x * y == 0.0 <==> x == 0.0 || y == 0.0
  {}

  // ---- Rho depends on order alone ----

  ghost predicate SameOrder(xs: seq<real>, ys: seq<real>) {
    |xs| == |ys| && forall i, j :: 0 <= i < |xs| && 0 <= j < |xs| ==> (xs[i] < xs[j] <==> ys[i] < ys[j])
  }

  lemma {:induction false} SameCounts(xs: seq<real>, ys: seq<real>, x: real, y: real)
    requires |xs| == |ys|
    requires forall i :: 0 <= i < |xs| ==> (xs[i] < x <==> ys[i] < y) && (xs[i] == x <==> ys[i] == y)
    ensures CountLess(xs, x) == CountLess(ys, y) && CountEqual(xs, x) == CountEqual(ys, y)
  {
    if xs != [] {
      SameCounts(xs[1..], ys[1..], x, y);
    }
  }

  /** Main result: two sequences in the same order, ties included, have equal ranks, and so a
      defined rho between them is exactly 1. */
  lemma SameOrderIsPerfect(xs: seq<real>, ys: seq<real>, sqrt: real -> real)
    requires SameOrder(xs, ys) && SquareRoot(sqrt) && |xs| >= 3 && !Constant(xs)
    ensures RanksOf(xs) == RanksOf(ys)
    ensures var a, b := CentredRanks(xs, |xs|), CentredRanks(ys, |xs|);
      Spread(a, b, sqrt) == Dot(a, b) != 0.0
  {
    forall i | 0 <= i < |xs| ensures RanksOf(xs)[i] == RanksOf(ys)[i] {
      SameCounts(xs, ys, xs[i], ys[i]);
    }
    ConstantMeansZero(xs);
    SelfDotIsNonNegative(CentredRanks(xs, |xs|));
  }
}
