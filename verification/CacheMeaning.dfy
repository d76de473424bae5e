/** What the five statuses of a comparison mean, read off the two cells field by field. */
module CacheMeaning {
  import opened Common
  import opened CacheReceipts
  import opened CacheCompare

  /** Position k holds the expected pair in both cells. */
  ghost predicate Position(off: CanaryCell, on: CanaryCell, order: seq<string>, k: nat) {
    && k < |order| && k < |off.attempts| && k < |on.attempts|
    && off.attempts[k].pairId == order[k] && on.attempts[k].pairId == order[k]
  }

  /** Turn t of position k is compared: both cells list as many turns there. */
  ghost predicate Reached(off: CanaryCell, on: CanaryCell, order: seq<string>, k: nat, t: nat) {
    && Position(off, on, order, k) && off.attempts[k].turns.Some? && on.attempts[k].turns.Some?
    && t < |off.attempts[k].turns.value| == |on.attempts[k].turns.value|
  }

  function OffTurn(off: CanaryCell, k: nat, t: nat): TurnReceipt
    requires k < |off.attempts| && off.attempts[k].turns.Some? && t < |off.attempts[k].turns.value|
  {
    off.attempts[k].turns.value[t]
  }

  ghost function PairAt(off: CanaryCell, on: CanaryCell, order: seq<string>, k: nat, t: nat): TurnPair
    requires Reached(off, on, order, k, t)
  {
    TurnPair(order[k], t + 1, OffTurn(off, k, t), OffTurn(on, k, t), off.attempts[k].sampling, on.attempts[k].sampling)
  }

  lemma {:induction false} ComparedHas(off: CanaryCell, on: CanaryCell, order: seq<string>, n: nat, k: nat, t: nat)
    requires k < n <= |order| && Reached(off, on, order, k, t)
    ensures PairAt(off, on, order, k, t) in Compared(off.attempts, on.attempts, order, n)
  {
    if k < n - 1 {
      ComparedHas(off, on, order, n - 1, k, t);
    } else {
      var pairs := PairsOf(off.attempts[k], on.attempts[k], order[k], |off.attempts[k].turns.value|);
      assert pairs[t] == PairAt(off, on, order, k, t);
    }
  }

  lemma {:induction false} ComparedIs(off: CanaryCell, on: CanaryCell, order: seq<string>, n: nat, p: TurnPair)
    returns (k: nat, t: nat)
    requires n <= |order| && p in Compared(off.attempts, on.attempts, order, n)
    ensures k < n && Reached(off, on, order, k, t) && p == PairAt(off, on, order, k, t)
  {
    if p in Compared(off.attempts, on.attempts, order, n - 1) {
      k, t := ComparedIs(off, on, order, n - 1, p);
    } else {
      k := n - 1;
      var pairs := PairsOf(off.attempts[k], on.attempts[k], order[k], |off.attempts[k].turns.value|);
      t :| 0 <= t < |pairs| && pairs[t] == p;
    }
  }

  /** A check of all compared turns is a check of every turn reached. */
  lemma EveryTurn(off: CanaryCell, on: CanaryCell, order: seq<string>, ok: TurnPair -> bool)
    ensures (forall p <- Compared(off.attempts, on.attempts, order, |order|) :: ok(p))
       <==> forall k: nat, t: nat :: Reached(off, on, order, k, t) ==> ok(PairAt(off, on, order, k, t))
  {
    hide Compared;
    var pairs := Compared(off.attempts, on.attempts, order, |order|);
    if forall p <- pairs :: ok(p) {
      forall k: nat, t: nat | Reached(off, on, order, k, t) ensures ok(PairAt(off, on, order, k, t)) {
        ComparedHas(off, on, order, |order|, k, t);
      }
    }
    if forall k: nat, t: nat :: Reached(off, on, order, k, t) ==> ok(PairAt(off, on, order, k, t)) {
      forall p <- pairs ensures ok(p) {
        var k, t := ComparedIs(off, on, order, |order|, p);
      }
    }
  }

  /** The input status passes exactly if the two cells hold the expected pairs under one configuration,
      with as many turns, and every two turns sent the same bytes, cost the same tokens and belong to
      their pair. */
  lemma InputMeans(off: CanaryCell, on: CanaryCell, order: seq<string>)
    ensures InputClean(off, on, order) <==>
      (&& |off.attempts| == |order| == |on.attempts|
       && (forall k :: 0 <= k < |order| ==> off.attempts[k].pairId == order[k] == on.attempts[k].pairId)
       && off.runtime.commonHash == on.runtime.commonHash
       && (forall k :: 0 <= k < |order| && off.attempts[k].turns.Some? && on.attempts[k].turns.Some? ==>
             |off.attempts[k].turns.value| == |on.attempts[k].turns.value|)
       && (forall k: nat, t: nat :: Reached(off, on, order, k, t) ==>
             var a, b := OffTurn(off, k, t), OffTurn(on, k, t);
             && a.pairId == order[k] == b.pairId
             && a.requestHash.Some? && a.requestHash == b.requestHash
             && a.usage.logicalPrompt == b.usage.logicalPrompt && a.usage.output == b.usage.output
             && a.usage.total == b.usage.total
             && (a.reused.Some? && a.promptTokens.Some? && b.reused.Some? && b.promptTokens.Some? ==>
                   a.promptTokens.value + a.reused.value == b.promptTokens.value + b.reused.value)))
  {
    hide Compared;
    EveryTurn(off, on, order, TurnInput);
    if Ordered(off.attempts, order) && Ordered(on.attempts, order) {
      assert forall k :: 0 <= k < |order| ==> Aligned(off.attempts, on.attempts, order, k);
      assert EachAligned(off.attempts, on.attempts, order, |order|, TurnCounts) <==>
        forall k :: 0 <= k < |order| ==> TurnCounts(off.attempts[k], on.attempts[k]);
    }
  }

  /** The sampling status: both attempts of a pair record the same sampling, and every turn its seed. */
  lemma SamplingMeans(off: CanaryCell, on: CanaryCell, order: seq<string>)
    ensures SamplingClean(off, on, order) <==>
      (&& (forall k: nat :: Position(off, on, order, k) ==>
             off.attempts[k].sampling.Some? && off.attempts[k].sampling == on.attempts[k].sampling)
       && (forall k: nat, t: nat :: Reached(off, on, order, k, t) ==>
             off.attempts[k].sampling.Some? && on.attempts[k].sampling.Some? ==>
               var seed := off.attempts[k].sampling.value.seed;
               OffTurn(off, k, t).seed == seed && OffTurn(on, k, t).seed == seed))
  {
    hide Compared;
    EveryTurn(off, on, order, TurnSampling);
    assert forall k: nat :: k < |order| ==>
      (Position(off, on, order, k) <==> Aligned(off.attempts, on.attempts, order, k));
  }

  ghost predicate OneDigest(a: Option<string>, b: Option<string>) {
    a.Some? && b.Some? && a.value == b.value && |a.value| == 64
  }

  /** The behaviour status: each pair has the same final output, tool trajectory and verifier result, and
      every two turns the same assistant content and as many generated tokens. */
  lemma BehaviorMeans(off: CanaryCell, on: CanaryCell, order: seq<string>)
    ensures BehaviorClean(off, on, order) <==>
      (&& (forall k: nat :: Position(off, on, order, k) ==>
             var a, b := off.attempts[k], on.attempts[k];
             && OneDigest(a.finalOutput, b.finalOutput) && OneDigest(a.toolTrajectory, b.toolTrajectory)
             && OneDigest(a.verifierResult, b.verifierResult))
       && (forall k: nat, t: nat :: Reached(off, on, order, k, t) ==>
             var a, b := OffTurn(off, k, t), OffTurn(on, k, t);
             && a.assistantHash == b.assistantHash
             && (a.predictedTokens.Some? && b.predictedTokens.Some? ==>
                   a.predictedTokens.value == b.predictedTokens.value)))
  {
    hide Compared;
    EveryTurn(off, on, order, TurnBehavior);
    assert forall k: nat :: k < |order| ==>
      (Position(off, on, order, k) <==> Aligned(off.attempts, on.attempts, order, k));
  }

  /** What the server says of one turn agrees with what the provider says. */
  ghost predicate Agreeing(t: TurnReceipt) {
    && t.mechanicsValid && t.reused.Some? && t.usage.cacheRead == t.reused
    && t.predictedTokens.Some? && t.usage.output == t.predictedTokens
  }

  /** The mechanics status: eligible runtimes, turns listed everywhere, and in every turn its number, its
      runtime, valid mechanics, nothing reused with the cache off, and agreeing counters. */
  lemma MechanicsMeans(off: CanaryCell, on: CanaryCell, order: seq<string>)
    ensures MechanicsClean(off, on, order) <==>
      (&& off.runtime.eligible && on.runtime.eligible
       && (forall k: nat :: Position(off, on, order, k) ==> off.attempts[k].turns.Some? && on.attempts[k].turns.Some?)
       && (forall k: nat, t: nat :: Reached(off, on, order, k, t) ==>
             var a, b := OffTurn(off, k, t), OffTurn(on, k, t);
             && a.turn == Some(t + 1) == b.turn && a.runtime == off.runtime && b.runtime == on.runtime
             && Agreeing(a) && Agreeing(b) && a.reused == Some(0)
             && (a.promptTokens.Some? && b.promptTokens.Some? ==>
                   && a.usage.input == a.promptTokens && b.usage.input == b.promptTokens
                   && a.usage.logicalPrompt == Some(a.promptTokens.value + a.reused.value)
                   && b.usage.logicalPrompt == Some(b.promptTokens.value + b.reused.value))))
  {
    hide Compared;
    EveryTurn(off, on, order, p => TurnMechanics(p, off.runtime, on.runtime));
    assert forall k: nat :: k < |order| ==>
      (Position(off, on, order, k) <==> Aligned(off.attempts, on.attempts, order, k));
  }

  /** A turn receipt that may enter a comparison: numbered from 1, its verdict backed by its codes. */
  ghost predicate Admissible(t: TurnReceipt) {
    t.turn.Some? && t.turn.value >= 1 && (t.mechanicsValid <==> t.codes == {})
  }

  /** Input is compared exactly if both runtimes are valid and of the modes that their cells name, the order
      is a repetition-free one, the threshold a fraction, and every turn reached is admissible. */
  lemma FormMeans(off: CanaryCell, on: CanaryCell, order: seq<string>, threshold: real)
    ensures WellFormed(off, on, order, threshold) <==>
      (&& ValidRuntime(off.runtime) && off.mode == Off && off.runtime.mode == Off
       && ValidRuntime(on.runtime) && on.mode == On && on.runtime.mode == On
       && order != [] && (forall i, j :: 0 <= i < j < |order| ==> order[i] != order[j])
       && 0.0 <= threshold && threshold < 1.0
       && forall k: nat, t: nat :: Reached(off, on, order, k, t) ==>
            Admissible(OffTurn(off, k, t)) && Admissible(OffTurn(on, k, t)))
  {
    hide Compared, ValidRuntime;
    EveryTurn(off, on, order, BothValid);
  }

  /** The performance status: clean mechanics, prompt times everywhere, and over the compared turns more than
      the threshold's part of the cache-off time saved. */
  lemma PerformanceMeans(off: CanaryCell, on: CanaryCell, order: seq<string>, threshold: real)
    ensures PerformanceClean(off, on, order, threshold) <==>
      (&& MechanicsClean(off, on, order)
       && (forall k: nat, t: nat :: Reached(off, on, order, k, t) ==>
             OffTurn(off, k, t).promptSeconds.Some? && OffTurn(on, k, t).promptSeconds.Some?)
       && var (a, b) := Seconds(Compared(off.attempts, on.attempts, order, |order|));
          a > 0.0 && b < a - threshold * a)
  {
    hide Compared, MechanicsClean, Seconds;
    EveryTurn(off, on, order, TurnTimed);
  }
}
