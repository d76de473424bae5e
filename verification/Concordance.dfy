/** Kendall's tau-b and pairwise ranking accuracy, both counted over all pairs of positions. */
module Concordance {
  import opened Common
  import opened Reals

  datatype Tally = Tally(concordant: nat, discordant: nat, tiesX: nat, tiesY: nat, tiesBoth: nat, pairs: nat)

  const NOTHING := Tally(0, 0, 0, 0, 0, 0)

  /** Adds one pair of positions, by the signs of its two differences. */
  function Pair(t: Tally, dx: real, dy: real): Tally {
    Tally(t.concordant + if (dx > 0.0 && dy > 0.0) || (dx < 0.0 && dy < 0.0) then 1 else 0,
          t.discordant + if (dx > 0.0 && dy < 0.0) || (dx < 0.0 && dy > 0.0) then 1 else 0,
          t.tiesX + if dx == 0.0 then 1 else 0,
          t.tiesY + if dy == 0.0 then 1 else 0,
          t.tiesBoth + if dx == 0.0 && dy == 0.0 then 1 else 0,
          t.pairs + 1)
  }

  /** The pairs (i, k) with i < k < j, after those of the rows before i. */
  function Row(t: Tally, xs: seq<real>, ys: seq<real>, i: nat, j: nat): Tally
    requires i < j <= |xs| <= |ys|
    decreases j
  {
    if j == i + 1 then t
    else Pair(Row(t, xs, ys, i, j - 1), xs[i] - xs[j - 1], ys[i] - ys[j - 1])
  }

  /** All pairs whose first position is below i. */
  function Pairs(xs: seq<real>, ys: seq<real>, i: nat): Tally
    requires i <= |xs| <= |ys|
  {
    if i == 0 then NOTHING else Row(Pairs(xs, ys, i - 1), xs, ys, i - 1, |xs|)
  }

  lemma ProductSign(dx: real, dy: real)
    ensures dx * dy > 0.0 <==> (dx > 0.0 && dy > 0.0) || (dx < 0.0 && dy < 0.0)
    ensures dx * dy < 0.0 <==> (dx > 0.0 && dy < 0.0) || (dx < 0.0 && dy > 0.0)
  {}

  /** Tau-b of two lists; none where its denominator is zero. */
  function Tau(xs: seq<real>, ys: seq<real>, sqrt: real -> real): Option<real>
    requires |xs| <= |ys|
  {
    var t := Pairs(xs, ys, |xs|);
    if |xs| < 2 || Denominator(t, |xs|, sqrt) == 0.0 then None
    else Some(Numerator(t) / Denominator(t, |xs|, sqrt))
  }

  /** None stands for "not a number"; the error is an index past the end of the second list. */
  method KendallTau(xs: seq<real>, ys: seq<real>, sqrt: real -> real) returns (tau: Result<Option<real>>)
    ensures tau.Err? <==> 2 <= |xs| && |ys| < |xs|
    ensures |xs| < 2 ==> tau == Ok(None)
    ensures 2 <= |xs| <= |ys| ==> tau == Ok(Tau(xs, ys, sqrt))
  {
    var n := |xs|;
    if n < 2 {
      return Ok(None);
    }
    var concordant, discordant, tiesX, tiesY := 0, 0, 0, 0;
    ghost var both, pairs: nat := 0, 0;
    if |ys| < n {
      return Err("list index out of range");
    }
    hide Times, Untied;
    for i := 0 to n
      invariant Pairs(xs, ys, i) == Tally(concordant, discordant, tiesX, tiesY, both, pairs)
    {
      for j := i + 1 to n
        invariant Row(Pairs(xs, ys, i), xs, ys, i, j) == Tally(concordant, discordant, tiesX, tiesY, both, pairs)
      {
        var dx, dy := xs[i] - xs[j], ys[i] - ys[j];
        ProductSign(dx, dy);
        if dx == 0.0 {
          tiesX := tiesX + 1;
        }
        if dy == 0.0 {
          tiesY := tiesY + 1;
        }
        if dx * dy > 0.0 {
          concordant := concordant + 1;
        } else if dx * dy < 0.0 {
          discordant := discordant + 1;
        }
        both, pairs := both + (if dx == 0.0 && dy == 0.0 then 1 else 0), pairs + 1;
      }
    }
    var denominator := sqrt(Times(Untied(n, tiesX), Untied(n, tiesY)));
    if denominator == 0.0 {
      return Ok(None);
    }
    return Ok(Some((concordant - discordant) as real / denominator));
  }

  function Numerator(t: Tally): real {
    (t.concordant - t.discordant) as real
  }

  function Untied(n: nat, ties: nat): real {
    (n * (n - 1)) as real / 2.0 - ties as real
  }

  function Denominator(t: Tally, n: nat, sqrt: real -> real): real {
    sqrt(Times(Untied(n, t.tiesX), Untied(n, t.tiesY)))
  }

  // ---- Counting laws ----

  ghost predicate Balanced(t: Tally) {
    && t.pairs == t.concordant + t.discordant + t.tiesX + t.tiesY - t.tiesBoth
    && t.tiesBoth <= t.tiesX && t.tiesBoth <= t.tiesY
  }

  lemma {:induction false} RowBalances(t: Tally, xs: seq<real>, ys: seq<real>, i: nat, j: nat)
    requires i < j <= |xs| <= |ys| && Balanced(t)
    ensures Balanced(Row(t, xs, ys, i, j)) && Row(t, xs, ys, i, j).pairs == t.pairs + (j - i - 1)
    decreases j
  {
    if j > i + 1 {
      RowBalances(t, xs, ys, i, j - 1);
    }
  }

  /** The number of pairs whose first position is below i. */
  function PairCount(n: nat, i: nat): nat
    requires i <= n
  {
    if i == 0 then 0 else PairCount(n, i - 1) + (n - i)
  }

  lemma {:induction false} PairCountIs(n: nat, i: nat)
    requires i <= n
    ensures 2 * PairCount(n, i) == i * (2 * n - i - 1)
  {
    if i > 0 {
      PairCountIs(n, i - 1);
      assert i * (2 * n - i - 1) == (i - 1) * (2 * n - (i - 1) - 1) + 2 * (n - i);
    }
  }

  lemma {:induction false} PairsBalance(xs: seq<real>, ys: seq<real>, i: nat)
    requires i <= |xs| <= |ys|
    ensures Balanced(Pairs(xs, ys, i)) && Pairs(xs, ys, i).pairs == PairCount(|xs|, i)
  {
    if i > 0 {
      PairsBalance(xs, ys, i - 1);
      RowBalances(Pairs(xs, ys, i - 1), xs, ys, i - 1, |xs|);
    }
  }

  /** Main result: every pair is counted once, n(n-1)/2 in all, and the concordant and discordant
      ones together never exceed the pairs untied on either side. */
  lemma UntiedBoundsBoth(xs: seq<real>, ys: seq<real>)
    requires |xs| <= |ys|
    ensures var t := Pairs(xs, ys, |xs|);
      && 2 * t.pairs == |xs| * (|xs| - 1)
      && t.concordant + t.discordant <= t.pairs - t.tiesX
      && t.concordant + t.discordant <= t.pairs - t.tiesY
  {
    PairsBalance(xs, ys, |xs|);
    PairCountIs(|xs|, |xs|);
  }

  lemma DenominatorSquared(xs: seq<real>, ys: seq<real>, sqrt: real -> real)
    requires |xs| <= |ys| && SquareRoot(sqrt)
    ensures var t := Pairs(xs, ys, |xs|);
      var d := Denominator(t, |xs|, sqrt);
      d >= 0.0 && Times(d, d) == Times((t.pairs - t.tiesX) as real, (t.pairs - t.tiesY) as real)
  {
    UntiedBoundsBoth(xs, ys);
    hide Pairs;
    var t, n := Pairs(xs, ys, |xs|), |xs|;
    UntiedIs(n, t.pairs, t.tiesX);
    UntiedIs(n, t.pairs, t.tiesY);
    hide Untied;
    TimesIsNonNegative(Untied(n, t.tiesX), Untied(n, t.tiesY));
  }

  lemma TimesIsNonNegative(x: real, y: real)
    requires x >= 0.0 && y >= 0.0
    ensures Times(x, y) >= 0.0
  {}

  lemma UntiedIs(n: nat, pairs: nat, ties: nat)
    requires 2 * pairs == n * (n - 1)
    ensures Untied(n, ties) == (pairs - ties) as real
  {}

  /** Main result: tau-b lies between -1 and 1. */
  lemma TauIsBounded(xs: seq<real>, ys: seq<real>, sqrt: real -> real)
    requires |xs| <= |ys| && SquareRoot(sqrt)
    ensures var tau := Tau(xs, ys, sqrt); tau.Some? ==> -1.0 <= tau.value <= 1.0
  {
    UntiedBoundsBoth(xs, ys);
    DenominatorSquared(xs, ys, sqrt);
    hide Pairs, Denominator, Times, Numerator;
    var t := Pairs(xs, ys, |xs|);
    NumeratorWithin(t);
    var d := Denominator(t, |xs|, sqrt);
    WithinRoot(Numerator(t), (t.concordant + t.discordant) as real,
               (t.pairs - t.tiesX) as real, (t.pairs - t.tiesY) as real, d);
    if d != 0.0 {
      RatioBound(Numerator(t), d);
    }
  }

  lemma NumeratorWithin(t: Tally)
    ensures var both := (t.concordant + t.discordant) as real; -both <= Numerator(t) <= both
  {}

  lemma WithinRoot(x: real, both: real, a: real, b: real, root: real)
    requires -both <= x <= both && both <= a && both <= b && root >= 0.0 && Times(root, root) == Times(a, b)
    ensures -root <= x <= root
  {
    assert (both - x) * (both + x) >= 0.0;
    assert (a - both) * b >= 0.0 && both * (b - both) >= 0.0;
    SquareOrder(root, x);
  }

  /** Main result: a defined tau is 1 exactly when no pair is discordant and every pair tied on one
      side is tied on both. */
  lemma TauIsOneExactly(xs: seq<real>, ys: seq<real>, sqrt: real -> real)
    requires |xs| <= |ys| && SquareRoot(sqrt)
    ensures var t, tau := Pairs(xs, ys, |xs|), Tau(xs, ys, sqrt);
      tau.Some? ==> (tau.value == 1.0 <==> (t.discordant == 0 && t.tiesX == t.tiesBoth == t.tiesY))
  {
    PairsBalance(xs, ys, |xs|);
    DenominatorSquared(xs, ys, sqrt);
    hide Pairs, Denominator, Times;
    var t := Pairs(xs, ys, |xs|);
    if Denominator(t, |xs|, sqrt) != 0.0 {
      Tight(Numerator(t), (t.pairs - t.tiesX) as real, (t.pairs - t.tiesY) as real, Denominator(t, |xs|, sqrt));
      WholeQuotient(Numerator(t), Denominator(t, |xs|, sqrt));
    }
  }

  lemma WholeQuotient(a: real, b: real)
    requires b != 0.0
    ensures a / b == 1.0 <==> a == b
  {
    assert a == (a / b) * b;
  }

  lemma Tight(x: real, a: real, b: real, root: real)
    requires x <= a && x <= b && a >= 0.0 && b >= 0.0 && root > 0.0 && Times(root, root) == Times(a, b)
    ensures x == root <==> x == a == b
  {
    if x == root && (x < a || x < b) {
      MoreThanSquare(x, a, b);
    } else if x == a == b {
      SquareGrows(0.0, root);
      assert x > 0.0;
      SameSquare(x, root);
    }
  }

  lemma MoreThanSquare(x: real, a: real, b: real)
    requires 0.0 < x <= a && x <= b && (x < a || x < b)
    ensures a * b > x * x
  {
    assert a * b - x * x == (a - x) * b + x * (b - x);
    if x < a {
      assert (a - x) * b > 0.0 && x * (b - x) >= 0.0;
    } else {
      assert x * (b - x) > 0.0;
    }
  }

  lemma SameSquare(x: real, y: real)
    requires x > 0.0 && y > 0.0 && x * x == y * y
    ensures x == y
  {
    if x > y {
      SquareGrows(y, x);
    } else if x < y {
      SquareGrows(x, y);
    }
  }

  // ---- Symmetry and sign ----

  function Swapped(t: Tally): Tally {
    t.(tiesX := t.tiesY, tiesY := t.tiesX)
  }

  lemma {:induction false} RowIsSymmetric(t: Tally, xs: seq<real>, ys: seq<real>, i: nat, j: nat)
    requires i < j <= |xs| == |ys|
    ensures Row(Swapped(t), ys, xs, i, j) == Swapped(Row(t, xs, ys, i, j))
    decreases j
  {
    if j > i + 1 {
      RowIsSymmetric(t, xs, ys, i, j - 1);
    }
  }

  /** Exchanging the two lists exchanges only the tie counts. */
  lemma {:induction false} PairsSwap(xs: seq<real>, ys: seq<real>, i: nat)
    requires i <= |xs| == |ys|
    ensures Pairs(ys, xs, i) == Swapped(Pairs(xs, ys, i))
  {
    if i > 0 {
      PairsSwap(xs, ys, i - 1);
      RowIsSymmetric(Pairs(xs, ys, i - 1), xs, ys, i - 1, |xs|);
    }
  }

  lemma SwappedTau(t: Tally, n: nat, sqrt: real -> real)
    ensures Numerator(Swapped(t)) == Numerator(t) && Denominator(Swapped(t), n, sqrt) == Denominator(t, n, sqrt)
  {
    hide Times, Untied;
    TimesCommutes(Untied(n, t.tiesX), Untied(n, t.tiesY));
  }

  /** Main result: tau does not depend on which list comes first. */
  lemma TauIsSymmetric(xs: seq<real>, ys: seq<real>, sqrt: real -> real)
    requires |xs| == |ys|
    ensures Tau(ys, xs, sqrt) == Tau(xs, ys, sqrt)
  {
    hide Pairs, Numerator, Denominator;
    PairsSwap(xs, ys, |xs|);
    SwappedTau(Pairs(xs, ys, |xs|), |xs|, sqrt);
  }

  function Negated(s: seq<real>): seq<real> {
    seq(|s|, i requires 0 <= i < |s| => -s[i])
  }

  function Flipped(t: Tally): Tally {
    t.(concordant := t.discordant, discordant := t.concordant)
  }

  lemma {:induction false} RowFlips(t: Tally, xs: seq<real>, ys: seq<real>, i: nat, j: nat)
    requires i < j <= |xs| <= |ys|
    ensures Row(Flipped(t), xs, Negated(ys), i, j) == Flipped(Row(t, xs, ys, i, j))
    decreases j
  {
    if j > i + 1 {
      RowFlips(t, xs, ys, i, j - 1);
    }
  }

  /** Negating one list exchanges concordant and discordant pairs. */
  lemma {:induction false} PairsFlip(xs: seq<real>, ys: seq<real>, i: nat)
    requires i <= |xs| <= |ys|
    ensures Pairs(xs, Negated(ys), i) == Flipped(Pairs(xs, ys, i))
  {
    if i > 0 {
      PairsFlip(xs, ys, i - 1);
      RowFlips(Pairs(xs, ys, i - 1), xs, ys, i - 1, |xs|);
    }
  }

  lemma FlippedTau(t: Tally, n: nat, sqrt: real -> real)
    ensures Numerator(Flipped(t)) == -Numerator(t) && Denominator(Flipped(t), n, sqrt) == Denominator(t, n, sqrt)
  {}

  /** Main result: negating one list negates tau and leaves it undefined where it was. */
  lemma TauFlips(xs: seq<real>, ys: seq<real>, sqrt: real -> real)
    requires |xs| <= |ys|
    ensures var tau, flipped := Tau(xs, ys, sqrt), Tau(xs, Negated(ys), sqrt);
      (tau.None? <==> flipped.None?) && (tau.Some? ==> flipped == Some(-tau.value))
  {
    hide Pairs, Numerator, Denominator;
    PairsFlip(xs, ys, |xs|);
    FlippedTau(Pairs(xs, ys, |xs|), |xs|, sqrt);
    var t := Pairs(xs, ys, |xs|);
    if Denominator(t, |xs|, sqrt) != 0.0 {
      NegateQuotient(Numerator(t), Denominator(t, |xs|, sqrt));
    }
  }

  lemma NegateQuotient(a: real, b: real)
    requires b != 0.0
    ensures (-a) / b == -(a / b)
  {}

  // ---- Pairwise accuracy ----

  /** Hits are the concordant pairs and the joint ties. */
  method PairwiseAccuracy(predicted: seq<real>, truth: seq<real>) returns (accuracy: Result<Option<real>>)
    ensures accuracy.Err? <==> 2 <= |predicted| && |truth| < |predicted|
    ensures |predicted| < 2 ==> accuracy == Ok(None)
    ensures 2 <= |predicted| <= |truth| ==>
      var t := Pairs(predicted, truth, |predicted|);
      t.pairs > 0 && accuracy == Ok(Some((t.concordant + t.tiesBoth) as real / t.pairs as real))
  {
    var n := |predicted|;
    if n < 2 {
      return Ok(None);
    }
    if |truth| < n {
      return Err("list index out of range");
    }
    var correct, total := 0, 0;
    for i := 0 to n
      invariant var t := Pairs(predicted, truth, i); t.concordant + t.tiesBoth == correct && t.pairs == total
    {
      for j := i + 1 to n
        invariant var t := Row(Pairs(predicted, truth, i), predicted, truth, i, j);
          t.concordant + t.tiesBoth == correct && t.pairs == total
      {
        var dp, dt := predicted[i] - predicted[j], truth[i] - truth[j];
        ProductSign(dp, dt);
        total := total + 1;
        if dp * dt > 0.0 || (dp == 0.0 && dt == 0.0) {
          correct := correct + 1;
        }
      }
    }
    UntiedBoundsBoth(predicted, truth);
    assert n * (n - 1) >= 2;
    return Ok(Some(correct as real / total as real));
  }

  lemma AccuracyIsBounded(xs: seq<real>, ys: seq<real>)
    requires 2 <= |xs| <= |ys| && Pairs(xs, ys, |xs|).pairs > 0
    ensures var t := Pairs(xs, ys, |xs|);
      && 0.0 <= (t.concordant + t.tiesBoth) as real / t.pairs as real <= 1.0
      && (t.concordant + t.tiesBoth == t.pairs <==> (t.discordant == 0 && t.tiesX == t.tiesBoth == t.tiesY))
  {
    PairsBalance(xs, ys, |xs|);
    hide Pairs;
    var t := Pairs(xs, ys, |xs|);
    PartOfWhole(t.concordant + t.tiesBoth, t.pairs);
  }

  lemma PartOfWhole(part: nat, whole: nat)
    requires part <= whole && whole > 0
    ensures 0.0 <= part as real / whole as real <= 1.0
  {
    DivideKeepsOrder(0.0, part as real, whole as real);
    DivideKeepsOrder(part as real, whole as real, whole as real);
  }

  // ---- The tally, pair by pair ----

  datatype Kind = Agreeing | Opposed | TiedX | TiedY | TiedBoth | Any

  /** How the two lists order the positions a and b. */
  ghost predicate Is(kind: Kind, xs: seq<real>, ys: seq<real>, a: nat, b: nat)
    requires a < b < |xs| <= |ys|
  {
    match kind
    case Agreeing => (xs[a] < xs[b] && ys[a] < ys[b]) || (xs[a] > xs[b] && ys[a] > ys[b])
    case Opposed => (xs[a] < xs[b] && ys[a] > ys[b]) || (xs[a] > xs[b] && ys[a] < ys[b])
    case TiedX => xs[a] == xs[b]
    case TiedY => ys[a] == ys[b]
    case TiedBoth => xs[a] == xs[b] && ys[a] == ys[b]
    case Any => true
  }

  /** The pairs of a kind whose first position is below i, or is i with the second below j. */
  ghost function Seen(kind: Kind, xs: seq<real>, ys: seq<real>, i: nat, j: nat): set<(nat, nat)>
    requires |xs| <= |ys|
  {
    set a: nat, b: nat | a < b < |xs| && Reached(i, j, a, b) && Is(kind, xs, ys, a, b) :: (a, b)
  }

  ghost predicate Reached(i: nat, j: nat, a: nat, b: nat) {
    a < i || (a == i && b < j)
  }

  /** All pairs of a kind. */
  ghost function Of(kind: Kind, xs: seq<real>, ys: seq<real>): set<(nat, nat)>
    requires |xs| <= |ys|
  {
    set a: nat, b: nat | a < b < |xs| && Is(kind, xs, ys, a, b) :: (a, b)
  }

  ghost predicate Counts(t: Tally, xs: seq<real>, ys: seq<real>, i: nat, j: nat)
    requires |xs| <= |ys|
  {
    && t.concordant == |Seen(Agreeing, xs, ys, i, j)| && t.discordant == |Seen(Opposed, xs, ys, i, j)|
    && t.tiesX == |Seen(TiedX, xs, ys, i, j)| && t.tiesY == |Seen(TiedY, xs, ys, i, j)|
    && t.tiesBoth == |Seen(TiedBoth, xs, ys, i, j)| && t.pairs == |Seen(Any, xs, ys, i, j)|
  }

  lemma OneMoreSeen(kind: Kind, xs: seq<real>, ys: seq<real>, i: nat, j: nat)
    requires i < j < |xs| <= |ys|
    ensures |Seen(kind, xs, ys, i, j + 1)| == |Seen(kind, xs, ys, i, j)| + if Is(kind, xs, ys, i, j) then 1 else 0
  {
    hide Is;
    var before, after := Seen(kind, xs, ys, i, j), Seen(kind, xs, ys, i, j + 1);
    assert forall a: nat, b: nat :: Reached(i, j + 1, a, b) <==> Reached(i, j, a, b) || (a == i && b == j);
    assert (i, j) !in before;
    hide Reached;
    if Is(kind, xs, ys, i, j) {
      assert after == before + {(i, j)};
    } else {
      assert after == before;
    }
  }

  lemma NextRowSeen(kind: Kind, xs: seq<real>, ys: seq<real>, i: nat)
    requires i < |xs| <= |ys|
    ensures Seen(kind, xs, ys, i, |xs|) == Seen(kind, xs, ys, i + 1, i + 2)
  {
    hide Is;
  }

  lemma PairCounts(t: Tally, xs: seq<real>, ys: seq<real>, i: nat, j: nat)
    requires i < j < |xs| <= |ys| && Counts(t, xs, ys, i, j)
    ensures Counts(Pair(t, xs[i] - xs[j], ys[i] - ys[j]), xs, ys, i, j + 1)
  {
    hide Seen;
    OneMoreSeen(Agreeing, xs, ys, i, j);
    OneMoreSeen(Opposed, xs, ys, i, j);
    OneMoreSeen(TiedX, xs, ys, i, j);
    OneMoreSeen(TiedY, xs, ys, i, j);
    OneMoreSeen(TiedBoth, xs, ys, i, j);
    OneMoreSeen(Any, xs, ys, i, j);
  }

  lemma {:induction false} RowCounts(t: Tally, xs: seq<real>, ys: seq<real>, i: nat, j: nat)
    requires i < j <= |xs| <= |ys| && Counts(t, xs, ys, i, i + 1)
    ensures Counts(Row(t, xs, ys, i, j), xs, ys, i, j)
    decreases j
  {
    hide Counts, Pair;
    if j > i + 1 {
      RowCounts(t, xs, ys, i, j - 1);
      PairCounts(Row(t, xs, ys, i, j - 1), xs, ys, i, j - 1);
    }
  }

  lemma {:induction false} PairsCount(xs: seq<real>, ys: seq<real>, i: nat)
    requires i <= |xs| <= |ys|
    ensures Counts(Pairs(xs, ys, i), xs, ys, i, i + 1)
  {
    if i == 0 {
      NothingSeen(xs, ys);
    } else {
      PairsCount(xs, ys, i - 1);
      RowCounts(Pairs(xs, ys, i - 1), xs, ys, i - 1, |xs|);
      hide Seen;
      NextRowSeen(Agreeing, xs, ys, i - 1);
      NextRowSeen(Opposed, xs, ys, i - 1);
      NextRowSeen(TiedX, xs, ys, i - 1);
      NextRowSeen(TiedY, xs, ys, i - 1);
      NextRowSeen(TiedBoth, xs, ys, i - 1);
      NextRowSeen(Any, xs, ys, i - 1);
    }
  }

  lemma NothingSeen(xs: seq<real>, ys: seq<real>)
    requires |xs| <= |ys|
    ensures forall kind :: Seen(kind, xs, ys, 0, 1) == {}
  {}

  /** Main result: what the tally counts, each pair of positions by how the two lists order it. */
  lemma TallyCounts(xs: seq<real>, ys: seq<real>)
    requires |xs| <= |ys|
    ensures var t := Pairs(xs, ys, |xs|);
      && t.concordant == |Of(Agreeing, xs, ys)| && t.discordant == |Of(Opposed, xs, ys)|
      && t.tiesX == |Of(TiedX, xs, ys)| && t.tiesY == |Of(TiedY, xs, ys)|
      && t.tiesBoth == |Of(TiedBoth, xs, ys)| && t.pairs == |Of(Any, xs, ys)|
  {
    PairsCount(xs, ys, |xs|);
    hide Pairs;
    forall kind ensures Seen(kind, xs, ys, |xs|, |xs| + 1) == Of(kind, xs, ys) {
      AllSeen(kind, xs, ys);
    }
    hide Seen, Of;
  }

  lemma AllSeen(kind: Kind, xs: seq<real>, ys: seq<real>)
    requires |xs| <= |ys|
    ensures Seen(kind, xs, ys, |xs|, |xs| + 1) == Of(kind, xs, ys)
  {
    hide Is;
  }

  ghost predicate Varies(s: seq<real>, n: nat)
    requires n <= |s|
  {
    exists a, b :: 0 <= a < b < n && s[a] != s[b]
  }

  lemma SubsetEqual<T>(a: set<T>, b: set<T>)
    requires a <= b
    ensures |a| <= |b| && (|a| == |b| <==> a == b)
  {
    assert b == a + (b - a);
  }

  lemma TiesLeave(xs: seq<real>, ys: seq<real>)
    requires |xs| <= |ys|
    ensures var t := Pairs(xs, ys, |xs|);
      && t.tiesX <= t.pairs && t.tiesY <= t.pairs
      && (t.tiesX < t.pairs <==> Varies(xs, |xs|)) && (t.tiesY < t.pairs <==> Varies(ys, |xs|))
  {
    TallyCounts(xs, ys);
    hide Pairs;
    var all := Of(Any, xs, ys);
    SubsetEqual(Of(TiedX, xs, ys), all);
    SubsetEqual(Of(TiedY, xs, ys), all);
    if a, b :| 0 <= a < b < |xs| && xs[a] != xs[b] {
      assert (a, b) in all && (a, b) !in Of(TiedX, xs, ys);
    }
    if a, b :| 0 <= a < b < |xs| && ys[a] != ys[b] {
      assert (a, b) in all && (a, b) !in Of(TiedY, xs, ys);
    }
  }

  /** Tau is undefined exactly if one of the two lists is constant, as it is with fewer than two positions. */
  lemma TauIsDefined(xs: seq<real>, ys: seq<real>, sqrt: real -> real)
    requires |xs| <= |ys| && SquareRoot(sqrt)
    ensures Tau(xs, ys, sqrt).Some? <==> Varies(xs, |xs|) && Varies(ys, |xs|)
  {
    TiesLeave(xs, ys);
    DenominatorSquared(xs, ys, sqrt);
    hide Pairs, Denominator;
    var t := Pairs(xs, ys, |xs|);
    var d := Denominator(t, |xs|, sqrt);
    ZeroProduct(d, d);
    ZeroProduct((t.pairs - t.tiesX) as real, (t.pairs - t.tiesY) as real);
  }

  lemma ZeroProduct(x: real, y: real)
    ensures Times(x, y) == 0.0 <==> x == 0.0 || y == 0.0
  {}
}
