/** Splitting tasks and policies into non-empty parts, and nested calibration prefixes. */
module Splits {
  import opened Common
  import opened Reals

  // ---- Sizes ----

  function SumOf(ratios: seq<real>): real {
    if ratios == [] then 0.0 else SumOf(ratios[..|ratios| - 1]) + ratios[|ratios| - 1]
  }

  function Total(counts: seq<int>): int {
    if counts == [] then 0 else Total(counts[..|counts| - 1]) + counts[|counts| - 1]
  }

  predicate AllPositive(ratios: seq<real>) {
    forall i :: 0 <= i < |ratios| ==> ratios[i] > 0.0
  }

  lemma {:induction false} SumIsPositive(ratios: seq<real>)
    requires AllPositive(ratios)
    ensures SumOf(ratios) >= 0.0 && (ratios != [] ==> SumOf(ratios) > 0.0)
  {
    if ratios != [] {
      SumIsPositive(ratios[..|ratios| - 1]);
    }
  }

  /** What a ratio is due of n items. */
  function Due(n: nat, ratio: real, sum: real): real
    requires sum != 0.0
  {
    n as real * ratio / sum
  }

  /** At least one item, and otherwise the rounded-down share. */
  function Share(n: nat, ratio: real, sum: real): int
    requires sum != 0.0
  {
    var share := Due(n, ratio, sum).Floor;
    if share > 1 then share else 1
  }

  function Shares(n: nat, ratios: seq<real>): (shares: seq<int>)
    requires SumOf(ratios) != 0.0
    ensures |shares| == |ratios|
  {
    seq(|ratios|, i requires 0 <= i < |ratios| => Share(n, ratios[i], SumOf(ratios)))
  }

  /** What is left for the first part when every other part takes its share. */
  function Remainder(n: nat, ratios: seq<real>): int
    requires ratios != [] && SumOf(ratios) != 0.0
  {
    n - (Total(Shares(n, ratios)) - Shares(n, ratios)[0])
  }

  lemma {:induction false} UpdateTotal(counts: seq<int>, v: int)
    requires counts != []
    ensures Total(counts[0 := v]) == Total(counts) - counts[0] + v
  {
    var n := |counts| - 1;
    if n > 0 {
      UpdateTotal(counts[..n], v);
      assert counts[0 := v][..n] == counts[..n][0 := v];
    } else {
      assert counts[0 := v][..0] == counts[..0];
    }
  }

  function Flatten(parts: seq<seq<string>>): seq<string> {
    if parts == [] then [] else Flatten(parts[..|parts| - 1]) + parts[|parts| - 1]
  }

  predicate AllNonEmpty(counts: seq<int>) {
    forall i :: 0 <= i < |counts| ==> counts[i] >= 1
  }

  lemma {:induction false} PrefixTotal(counts: seq<int>, k: nat)
    requires k <= |counts| && AllNonEmpty(counts)
    ensures k <= Total(counts[..k]) <= Total(counts) - (|counts| - k)
    decreases |counts|
  {
    if k < |counts| {
      PrefixTotal(counts[..|counts| - 1], k);
      assert counts[..|counts| - 1][..k] == counts[..k];
    } else {
      assert counts[..k] == counts;
      if k > 0 {
        PrefixTotal(counts[..k - 1], k - 1);
        assert counts[..k - 1][..k - 1] == counts[..k - 1];
      }
    }
  }

  // ---- One dimension ----

  ghost predicate Splittable(n: nat, ratios: seq<real>): (b: bool)
    ensures b ==> SumOf(ratios) > 0.0
  {
    n >= |ratios| > 0 && AllPositive(ratios) && SumOf(ratios) > 0.0 && Remainder(n, ratios) >= 1
  }

  ghost predicate SplitOf(parts: seq<seq<string>>, items: seq<string>, ratios: seq<real>)
    requires SumOf(ratios) > 0.0
  {
    && |parts| == |ratios| && Flatten(parts) == items
    && (forall i :: 0 <= i < |parts| ==> parts[i] != [])
    && (forall i :: 1 <= i < |parts| ==> |parts[i]| == Share(|items|, ratios[i], SumOf(ratios)))
  }

  method ComputeShares(n: nat, ratios: seq<real>) returns (counts: array<int>)
    requires SumOf(ratios) != 0.0
    ensures fresh(counts) && counts[..] == Shares(n, ratios)
  {
    hide Share;
    counts := new int[|ratios|];
    for i := 0 to |ratios|
      invariant forall k :: 0 <= k < i ==> counts[k] == Shares(n, ratios)[k]
    {
      counts[i] := Share(n, ratios[i], SumOf(ratios));
    }
  }

  /** The sizes, repaired in place: what is missing or in excess goes to the first part. */
  method RepairCounts(counts: array<int>, n: nat)
    requires counts.Length > 0
    modifies counts
    ensures counts[..] == old(counts[..])[0 := n - (Total(old(counts[..])) - old(counts[0]))]
    ensures Total(counts[..]) == n
  {
    ghost var was := counts[..];
    var total := SumArray(counts);
    if total < n {
      counts[0] := counts[0] + (n - total);
    } else if total > n {
      counts[0] := counts[0] - (total - n);
    }
    UpdateTotal(was, n - (Total(was) - was[0]));
    assert counts[..] == was[0 := n - (Total(was) - was[0])];
  }

  method NoneEmpty(counts: array<int>) returns (ok: bool)
    ensures ok <==> AllNonEmpty(counts[..])
  {
    for i := 0 to counts.Length
      invariant forall k :: 0 <= k < i ==> counts[k] >= 1
    {
      if counts[i] < 1 {
        assert counts[..][i] < 1;
        return false;
      }
    }
    return true;
  }

  /** Only the repaired part can be empty. */
  lemma OnlyTheFirstCanBeEmpty(n: nat, ratios: seq<real>)
    requires ratios != [] && SumOf(ratios) != 0.0
    ensures AllNonEmpty(Shares(n, ratios)[0 := Remainder(n, ratios)]) <==> Remainder(n, ratios) >= 1
  {
    var counts := Shares(n, ratios)[0 := Remainder(n, ratios)];
    assert counts[0] == Remainder(n, ratios);
    assert forall i :: 1 <= i < |counts| ==> counts[i] == Share(n, ratios[i], SumOf(ratios)) >= 1;
  }

  method SumArray(a: array<int>) returns (sum: int)
    ensures sum == Total(a[..])
  {
    sum := 0;
    for i := 0 to a.Length
      invariant sum == Total(a[..i])
    {
      assert a[..i + 1][..i] == a[..i];
      sum := sum + a[i];
    }
    assert a[..a.Length] == a[..];
  }

  /** Main result: a dimension is rejected exactly when it has fewer items than parts, a ratio is not
      positive, or the shares leave nothing for the first part; otherwise its parts, laid end to
      end, are the shuffled items. */
  method SplitDimension(items: seq<string>, ratios: seq<real>) returns (parts: Option<seq<seq<string>>>)
    requires ratios != []
    ensures parts.Some? <==>
      && |items| >= |ratios| && (forall i :: 0 <= i < |ratios| ==> ratios[i] > 0.0)
      && SumOf(ratios) > 0.0 && Remainder(|items|, ratios) >= 1
    ensures parts.Some? <==> Splittable(|items|, ratios)
    ensures parts.Some? ==>
      && Flatten(parts.value) == items && |parts.value| == |ratios|
      && (forall part <- parts.value :: part != [])
      && (forall i :: 1 <= i < |ratios| ==>
            var share, size := Due(|items|, ratios[i], SumOf(ratios)), |parts.value[i]|;
            share < (size + 1) as real && (size as real <= share || size == 1))
    ensures parts.Some? ==> SplitOf(parts.value, items, ratios)
  {
    hide Shares, Share, Due, SumOf, Flatten;
    var n := |items|;
    if n < |ratios| {
      return None;
    }
    for i := 0 to |ratios|
      invariant forall k :: 0 <= k < i ==> ratios[k] > 0.0
    {
      if ratios[i] <= 0.0 {
        return None;
      }
    }
    assert AllPositive(ratios);
    SumIsPositive(ratios);
    var counts := ComputeShares(n, ratios);
    RepairCounts(counts, n);
    var ok := NoneEmpty(counts);
    OnlyTheFirstCanBeEmpty(n, ratios);
    if !ok {
      return None;
    }
    var cut := Cut(items, counts);
    CountsOfParts(n, ratios, counts[..]);
    assert forall i :: 0 <= i < |cut| ==> |cut[i]| == counts[..][i];
    forall i | 1 <= i < |ratios|
      ensures var share, size := Due(n, ratios[i], SumOf(ratios)), |cut[i]|;
        share < (size + 1) as real && (size as real <= share || size == 1)
    {
      ShareIsRounded(n, ratios[i], SumOf(ratios));
      assert |cut[i]| == Share(n, ratios[i], SumOf(ratios));
    }
    return Some(cut);
  }

  lemma ShareIsRounded(n: nat, ratio: real, sum: real)
    requires sum != 0.0
    ensures var share, size := Due(n, ratio, sum), Share(n, ratio, sum);
      share < (size + 1) as real && (size as real <= share || size == 1)
  {}

  /** Slices of the given sizes, each clamped to what is left; the clamp never bites. */
  method Cut(items: seq<string>, counts: array<int>) returns (parts: seq<seq<string>>)
    requires AllNonEmpty(counts[..]) && Total(counts[..]) == |items|
    ensures |parts| == counts.Length && Flatten(parts) == items
    ensures forall k :: 0 <= k < |parts| ==> |parts[k]| == counts[..][k]
  {
    parts := [];
    var offset := 0;
    ghost var sizes := counts[..];
    assert sizes[..|sizes|] == sizes;
    for i := 0 to counts.Length
      invariant |parts| == i && offset == Total(sizes[..i]) && 0 <= offset <= |items|
      invariant Flatten(parts) == items[..offset]
      invariant forall k :: 0 <= k < i ==> |parts[k]| == sizes[k]
    {
      PrefixTotal(sizes, i + 1);
      assert sizes[..i + 1][..i] == sizes[..i];
      var count := if counts[i] < |items| - offset then counts[i] else |items| - offset;
      assert count == sizes[i];
      ghost var before := parts;
      parts := parts + [items[offset..offset + count]];
      assert parts[..i] == before;
      offset := offset + count;
    }
    assert items[..|items|] == items;
  }

  lemma CountsOfParts(n: nat, ratios: seq<real>, counts: seq<int>)
    requires ratios != [] && SumOf(ratios) > 0.0 && counts == Shares(n, ratios)[0 := Remainder(n, ratios)]
    ensures |counts| == |ratios|
    ensures forall i :: 1 <= i < |ratios| ==> counts[i] == Share(n, ratios[i], SumOf(ratios))
  {}

  /** When every part but the first is due at least one item, the split is never rejected. */
  lemma {:induction false} LargeSharesAreAccepted(n: nat, ratios: seq<real>)
    requires |ratios| > 0 && AllPositive(ratios) && SumOf(ratios) > 0.0 && n > 0
    requires forall i :: 1 <= i < |ratios| ==> Due(n, ratios[i], SumOf(ratios)) >= 1.0
    ensures Remainder(n, ratios) >= 1
  {
    hide Share, Due, Remainder;
    var sum := SumOf(ratios);
    SharesBelow(n, ratios, sum, |ratios|);
    assert ratios[..|ratios|] == ratios;
    PrefixShares(n, ratios);
    RealShare(n, sum, ratios[0]);
  }

  function SharesTo(n: nat, ratios: seq<real>, sum: real, k: nat): int
    requires k <= |ratios| && sum != 0.0
  {
    if k <= 1 then 0 else SharesTo(n, ratios, sum, k - 1) + Share(n, ratios[k - 1], sum)
  }

  lemma {:induction false} PrefixSharesTo(n: nat, ratios: seq<real>, k: nat)
    requires 1 <= k <= |ratios| && SumOf(ratios) != 0.0
    ensures Total(Shares(n, ratios)[..k]) == Shares(n, ratios)[0] + SharesTo(n, ratios, SumOf(ratios), k)
  {
    hide Share;
    var shares := Shares(n, ratios);
    assert shares[..k][..k - 1] == shares[..k - 1];
    if k > 1 {
      PrefixSharesTo(n, ratios, k - 1);
    }
  }

  lemma PrefixShares(n: nat, ratios: seq<real>)
    requires ratios != [] && SumOf(ratios) != 0.0
    ensures Remainder(n, ratios) == n - SharesTo(n, ratios, SumOf(ratios), |ratios|)
  {
    PrefixSharesTo(n, ratios, |ratios|);
    assert Shares(n, ratios)[..|ratios|] == Shares(n, ratios);
  }

  lemma {:induction false} SharesBelow(n: nat, ratios: seq<real>, sum: real, k: nat)
    requires 1 <= k <= |ratios| && sum > 0.0
    requires forall i :: 1 <= i < |ratios| ==> Due(n, ratios[i], sum) >= 1.0
    ensures SharesTo(n, ratios, sum, k) as real <= Due(n, SumOf(ratios[..k]) - ratios[0], sum)
  {
    hide Share, SumOf, Due;
    SumPrefix(ratios, k);
    if k > 1 {
      SharesBelow(n, ratios, sum, k - 1);
      ShareBelow(n, ratios[k - 1], sum);
      AddShares(n, SumOf(ratios[..k - 1]) - ratios[0], ratios[k - 1], sum);
    } else {
      NoShares(n, sum);
    }
  }

  lemma SumPrefix(ratios: seq<real>, k: nat)
    requires 1 <= k <= |ratios|
    ensures SumOf(ratios[..k]) == SumOf(ratios[..k - 1]) + ratios[k - 1] && SumOf(ratios[..0]) == 0.0
  {
    assert ratios[..k][..k - 1] == ratios[..k - 1];
  }

  lemma NoShares(n: nat, sum: real)
    requires sum != 0.0
    ensures Due(n, 0.0, sum) == 0.0
  {}

  lemma ShareBelow(n: nat, ratio: real, sum: real)
    requires sum > 0.0 && Due(n, ratio, sum) >= 1.0
    ensures Share(n, ratio, sum) as real <= Due(n, ratio, sum)
  {}

  lemma AddShares(n: nat, a: real, b: real, sum: real)
    requires sum != 0.0
    ensures Due(n, a, sum) + Due(n, b, sum) == Due(n, a + b, sum)
  {}

  lemma RealShare(n: nat, sum: real, first: real)
    requires n > 0 && sum > 0.0 && first > 0.0
    ensures Due(n, sum - first, sum) < n as real
  {
    DivideKeepsOrder(n as real * (sum - first), n as real * sum, sum);
    assert n as real * first > 0.0;
    assert n as real * (sum - first) == n as real * sum - n as real * first;
    assert n as real * sum / sum == n as real;
  }

  // ---- Both dimensions ----

  /** Internal errors are the two checks after the split; rejections come before it. */
  datatype Failure = Rejected | Internal

  datatype Outcome = Done(tasks: seq<seq<string>>, policies: seq<seq<string>>) | Failed(why: Failure)

  /** Main result: the split either rejects its input or returns two partitions; the consistency
      checks that follow it never fail. The shuffles may be any permutations. */
  method PolicyTaskSplit(tasks: seq<string>, policies: seq<string>, taskRatios: seq<real>, policyRatios: seq<real>,
                         shuffledTasks: seq<string>, shuffledPolicies: seq<string>)
    returns (outcome: Outcome)
    requires |taskRatios| == 6 && |policyRatios| == 3
    requires multiset(shuffledTasks) == multiset(tasks) && multiset(shuffledPolicies) == multiset(policies)
    ensures outcome.Done? <==>
      Unique(tasks) && Unique(policies) && Splittable(|tasks|, taskRatios) && Splittable(|policies|, policyRatios)
    ensures outcome.Failed? ==> outcome.why == Rejected
    ensures outcome.Done? ==>
      && SplitOf(outcome.tasks, shuffledTasks, taskRatios) && SplitOf(outcome.policies, shuffledPolicies, policyRatios)
      && multiset(Flatten(outcome.tasks)) == multiset(tasks)
      && multiset(Flatten(outcome.policies)) == multiset(policies)
  {
    hide Splittable, SplitOf;
    DistinctCount(tasks);
    DistinctCount(policies);
    if |tasks| != |set t | t in tasks| || |policies| != |set p | p in policies| {
      return Failed(Rejected);
    }
    assert |shuffledTasks| == |multiset(shuffledTasks)| == |tasks|;
    assert |shuffledPolicies| == |multiset(shuffledPolicies)| == |policies|;
    var taskParts := SplitDimension(shuffledTasks, taskRatios);
    if taskParts.None? {
      return Failed(Rejected);
    }
    var policyParts := SplitDimension(shuffledPolicies, policyRatios);
    if policyParts.None? {
      return Failed(Rejected);
    }
    FlatIs(taskParts.value, shuffledTasks, taskRatios);
    FlatIs(policyParts.value, shuffledPolicies, policyRatios);
    var allTasks, allPolicies := Flatten(taskParts.value), Flatten(policyParts.value);
    SameSet(shuffledTasks, tasks);
    SameSet(shuffledPolicies, policies);
    if |allTasks| != |tasks| || |set t | t in allTasks| != |tasks| {
      return Failed(Internal);
    }
    if |allPolicies| != |policies| || |set p | p in allPolicies| != |policies| {
      return Failed(Internal);
    }
    return Done(taskParts.value, policyParts.value);
  }

  lemma FlatIs(parts: seq<seq<string>>, items: seq<string>, ratios: seq<real>)
    requires Splittable(|items|, ratios) && SplitOf(parts, items, ratios)
    ensures Flatten(parts) == items
  {}

  lemma SameSet(a: seq<string>, b: seq<string>)
    requires multiset(a) == multiset(b)
    ensures (set x | x in a) == (set x | x in b) && forall x :: x in a <==> x in b
  {
    forall x ensures x in a <==> x in b {
      assert x in a <==> x in multiset(a);
      assert x in b <==> x in multiset(b);
    }
  }

  // ---- Calibration prefixes ----

  /** Main result: one repetition-free order of the tasks, as long as the largest size asked for, and
      for each size exactly its prefix, so that every smaller subset begins every larger one. */
  method FrozenCalibrationSplit(tasks: seq<string>, sizes: seq<int>, shuffled: seq<string>)
    returns (result: Result<(seq<string>, map<int, seq<string>>)>)
    requires multiset(shuffled) == multiset(tasks)
    ensures result.Ok? <==>
      && tasks != [] && sizes != [] && (forall i, j :: 0 <= i < j < |tasks| ==> tasks[i] != tasks[j])
      && (forall k <- sizes :: 0 <= k <= |tasks|) && (forall i, j :: 0 <= i < j < |sizes| ==> sizes[i] <= sizes[j])
    ensures result.Ok? ==>
      var (ordered, subsets) := result.value;
      && ordered <= shuffled && sizes != [] && |ordered| == sizes[|sizes| - 1]
      && (forall k :: k in subsets <==> k in sizes)
      && (forall k <- sizes :: 0 <= k <= |ordered| && k in subsets && subsets[k] == ordered[..k])
    ensures result.Ok? ==> Frozen(result.value.0, result.value.1, tasks, sizes)
  {
    hide Frozen;
    if tasks == [] || sizes == [] {
      return Err("tasks and sizes must not be empty");
    }
    if exists k <- sizes :: k < 0 {
      return Err("sizes must be nonnegative");
    }
    for i := 1 to |sizes|
      invariant forall a, b :: 0 <= a < b < i ==> sizes[a] <= sizes[b]
    {
      if sizes[i] < sizes[i - 1] {
        return Err("sizes must be non-decreasing");
      }
    }
    DistinctCount(tasks);
    if |tasks| != |set t | t in tasks| {
      return Err("calibration tasks must be unique");
    }
    var most := sizes[|sizes| - 1];
    assert most in sizes;
    if |tasks| < most {
      return Err("not enough calibration tasks");
    }
    ShuffleKeeps(shuffled, tasks);
    var ordered := shuffled[..most];
    var subsets := Prefixes(ordered, sizes);
    FrozenBy(ordered, subsets, shuffled, tasks, sizes);
    return Ok((ordered, subsets));
  }

  ghost predicate Frozen(ordered: seq<string>, subsets: map<int, seq<string>>, tasks: seq<string>, sizes: seq<int>) {
    && Unique(ordered) && (forall t <- ordered :: t in tasks)
    && sizes != [] && |ordered| == sizes[|sizes| - 1]
    && (forall k :: k in subsets <==> k in sizes)
    && (forall k <- sizes :: 0 <= k <= |ordered| && k in subsets && subsets[k] == ordered[..k])
    && forall j, k :: j in sizes && k in sizes && j <= k ==> j in subsets && k in subsets && subsets[j] <= subsets[k]
  }

  lemma ShuffleKeeps(shuffled: seq<string>, tasks: seq<string>)
    requires multiset(shuffled) == multiset(tasks)
    ensures |shuffled| == |tasks| && (Unique(shuffled) <==> Unique(tasks)) && forall x :: x in shuffled <==> x in tasks
  {
    assert |shuffled| == |multiset(shuffled)| == |tasks|;
    SameSet(shuffled, tasks);
    DistinctCount(shuffled);
    DistinctCount(tasks);
  }

  method Prefixes(ordered: seq<string>, sizes: seq<int>) returns (subsets: map<int, seq<string>>)
    requires forall k <- sizes :: 0 <= k <= |ordered|
    ensures forall k :: k in subsets <==> k in sizes
    ensures forall k <- sizes :: k in subsets && subsets[k] == ordered[..k]
  {
    subsets := map[];
    for i := 0 to |sizes|
      invariant forall k :: k in subsets <==> k in sizes[..i]
      invariant forall k <- sizes[..i] :: 0 <= k <= |ordered| && k in subsets && subsets[k] == ordered[..k]
    {
      assert sizes[i] in sizes && sizes[..i + 1] == sizes[..i] + [sizes[i]];
      subsets := subsets[sizes[i] := ordered[..sizes[i]]];
    }
    assert sizes[..|sizes|] == sizes;
  }

  lemma FrozenBy(ordered: seq<string>, subsets: map<int, seq<string>>, shuffled: seq<string>, tasks: seq<string>,
                 sizes: seq<int>)
    requires sizes != [] && 0 <= sizes[|sizes| - 1] <= |shuffled| && ordered == shuffled[..sizes[|sizes| - 1]]
    requires Unique(shuffled) && forall x :: x in shuffled <==> x in tasks
    requires forall k :: k in subsets <==> k in sizes
    requires forall k <- sizes :: 0 <= k <= |ordered| && k in subsets && subsets[k] == ordered[..k]
    ensures Frozen(ordered, subsets, tasks, sizes)
  {
    assert forall i :: 0 <= i < |ordered| ==> ordered[i] == shuffled[i];
    forall t <- ordered ensures t in tasks {
      assert t in shuffled;
    }
  }
}
