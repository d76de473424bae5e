/** What acceptance of the cache canary means for tokens and time. */
module CacheConservation {
  import opened Common
  import opened CacheReceipts
  import opened CacheCompare
  import opened CacheMeaning

  /** All provider turns of the first n attempts, in order. */
  function TurnsOf(attempts: seq<Attempt>, n: nat): seq<TurnReceipt>
    requires n <= |attempts|
  {
    if n == 0 then []
    else TurnsOf(attempts, n - 1) + if attempts[n - 1].turns.Some? then attempts[n - 1].turns.value else []
  }

  function AllTurns(cell: CanaryCell): seq<TurnReceipt> {
    TurnsOf(cell.attempts, |cell.attempts|)
  }

  function Count(o: Option<int>): int {
    if o.Some? then o.value else 0
  }

  function PromptTokens(turns: seq<TurnReceipt>): int {
    if turns == [] then 0 else PromptTokens(turns[..|turns| - 1]) + Count(turns[|turns| - 1].promptTokens)
  }

  function CacheReads(turns: seq<TurnReceipt>): int {
    if turns == [] then 0 else CacheReads(turns[..|turns| - 1]) + Count(turns[|turns| - 1].usage.cacheRead)
  }

  function Offs(pairs: seq<TurnPair>): seq<TurnReceipt> {
    seq(|pairs|, i requires 0 <= i < |pairs| => pairs[i].off)
  }

  function Ons(pairs: seq<TurnPair>): seq<TurnReceipt> {
    seq(|pairs|, i requires 0 <= i < |pairs| => pairs[i].on)
  }

  /** Every position is aligned and has matching turn lists. */
  ghost predicate AllMatched(off: seq<Attempt>, on: seq<Attempt>, order: seq<string>) {
    && Ordered(off, order) && Ordered(on, order)
    && forall k :: 0 <= k < |order| ==> Matched(off[k], on[k])
  }

  lemma {:induction false} EveryTurnIsCompared(off: seq<Attempt>, on: seq<Attempt>, order: seq<string>, n: nat)
    requires n <= |order| && AllMatched(off, on, order)
    ensures Offs(Compared(off, on, order, n)) == TurnsOf(off, n)
    ensures Ons(Compared(off, on, order, n)) == TurnsOf(on, n)
  {
    if n > 0 {
      var k := n - 1;
      EveryTurnIsCompared(off, on, order, k);
      assert Aligned(off, on, order, k) && Matched(off[k], on[k]);
      var pairs := PairsOf(off[k], on[k], order[k], |off[k].turns.value|);
      assert Offs(pairs) == off[k].turns.value && Ons(pairs) == on[k].turns.value;
      Projected(Compared(off, on, order, k), pairs);
    }
  }

  lemma Projected(a: seq<TurnPair>, b: seq<TurnPair>)
    ensures Offs(a + b) == Offs(a) + Offs(b) && Ons(a + b) == Ons(a) + Ons(b)
  {}

  lemma CleanMatches(off: CanaryCell, on: CanaryCell, order: seq<string>)
    requires InputClean(off, on, order) && MechanicsClean(off, on, order)
    ensures AllMatched(off.attempts, on.attempts, order)
  {
    hide Compared, Matched;
    forall k | 0 <= k < |order| ensures Matched(off.attempts[k], on.attempts[k]) {
      assert Aligned(off.attempts, on.attempts, order, k);
      assert TurnsListed(off.attempts[k], on.attempts[k]);
      assert TurnCounts(off.attempts[k], on.attempts[k]);
    }
  }

  /** One accepted pair of turns: the tokens reused with the cache on are exactly the prompt tokens
      the server no longer evaluates. */
  ghost predicate Conserved(p: TurnPair) {
    && p.off.promptTokens.Some? && p.on.promptTokens.Some? && p.on.reused.Some?
    && p.on.usage.cacheRead == p.on.reused && p.off.usage.cacheRead == Some(0)
    && p.on.reused.value == p.off.promptTokens.value - p.on.promptTokens.value
    && p.off.predictedTokens.Some? && p.off.predictedTokens == p.on.predictedTokens
  }

  /** Two turns that did the same: one request, one answer. */
  ghost predicate Alike(a: TurnReceipt, b: TurnReceipt) {
    && a.requestHash.Some? && a.requestHash == b.requestHash && a.assistantHash == b.assistantHash
    && a.predictedTokens.Some? && a.predictedTokens == b.predictedTokens
  }

  function PromptSeconds(turns: seq<TurnReceipt>): real {
    if turns == [] then 0.0
    else
      var n := |turns| - 1;
      PromptSeconds(turns[..n]) + if turns[n].promptSeconds.Some? then turns[n].promptSeconds.value else 0.0
  }

  lemma {:induction false} SecondsAdd(pairs: seq<TurnPair>)
    requires forall p <- pairs :: p.off.promptSeconds.Some? && p.on.promptSeconds.Some?
    ensures Seconds(pairs) == (PromptSeconds(Offs(pairs)), PromptSeconds(Ons(pairs)))
  {
    hide Offs, Ons;
    LastSides(pairs);
    if pairs != [] {
      var n := |pairs| - 1;
      SecondsAdd(pairs[..n]);
      assert pairs[n] in pairs;
    }
  }

  lemma LastSides(pairs: seq<TurnPair>)
    ensures |Offs(pairs)| == |Ons(pairs)| == |pairs|
    ensures pairs != [] ==>
      var n := |pairs| - 1;
      && Offs(pairs)[n] == pairs[n].off && Offs(pairs)[..n] == Offs(pairs[..n])
      && Ons(pairs)[n] == pairs[n].on && Ons(pairs)[..n] == Ons(pairs[..n])
  {}

  lemma TurnIsConserved(p: TurnPair, off: RuntimeReceipt, on: RuntimeReceipt)
    requires TurnInput(p) && TurnMechanics(p, off, on) && TurnBehavior(p) && Faithful(p.off) && Faithful(p.on)
    ensures Conserved(p) && Alike(p.off, p.on)
  {}

  lemma {:induction false} SumsConserve(pairs: seq<TurnPair>)
    requires forall p <- pairs :: Conserved(p)
    ensures ReusedOn(pairs) == CacheReads(Ons(pairs)) == PromptTokens(Offs(pairs)) - PromptTokens(Ons(pairs))
    ensures CacheReads(Offs(pairs)) == 0
  {
    if pairs != [] {
      var n := |pairs| - 1;
      SumsConserve(pairs[..n]);
      assert Conserved(pairs[n]);
      assert Offs(pairs)[..n] == Offs(pairs[..n]) && Ons(pairs)[..n] == Ons(pairs[..n]);
    }
  }

  ghost predicate BuiltTurns(cell: CanaryCell) {
    forall t <- AllTurns(cell) :: Faithful(t)
  }

  /** Main result: acceptance of two cells of builder-made receipts means that the two runs had the
      same pairs and turns, every two turns the same request and the same answer; that the reused tokens
      reported are those the provider says it read from cache and exactly those the server did not
      evaluate again; and that prompt evaluation took less than (1 - threshold) of the time. */
  lemma AcceptanceConservesTokens(off: CanaryCell, on: CanaryCell, order: seq<string>, threshold: real)
    requires WellFormed(off, on, order, threshold) && Accepted(off, on, order, threshold)
    requires BuiltTurns(off) && BuiltTurns(on)
    ensures AllMatched(off.attempts, on.attempts, order)
    ensures var pairs := Compared(off.attempts, on.attempts, order, |order|);
      var offTurns, onTurns := AllTurns(off), AllTurns(on);
      && |pairs| == |offTurns| == |onTurns|
      && ReusedOn(pairs) == CacheReads(onTurns) == PromptTokens(offTurns) - PromptTokens(onTurns)
      && CacheReads(offTurns) == 0
      && (forall i :: 0 <= i < |offTurns| ==>
            && offTurns[i].requestHash.Some? && offTurns[i].requestHash == onTurns[i].requestHash
            && offTurns[i].assistantHash == onTurns[i].assistantHash
            && offTurns[i].predictedTokens.Some? && offTurns[i].predictedTokens == onTurns[i].predictedTokens)
      && Seconds(pairs) == (PromptSeconds(offTurns), PromptSeconds(onTurns))
      && PromptSeconds(onTurns) < (1.0 - threshold) * PromptSeconds(offTurns)
  {
    hide *;
    Unpack(off, on, order, threshold);
    var pairs := Compared(off.attempts, on.attempts, order, |order|);
    CleanMatches(off, on, order);
    Lengths(off, on, order);
    EveryTurnIsCompared(off.attempts, on.attempts, order, |order|);
    AllTurnsIs(off, on, order);
    Sides(pairs);
    forall p <- pairs ensures Conserved(p) {
      PairIsClean(off, on, order, p);
      TurnIsConserved(p, off.runtime, on.runtime);
    }
    SumsConserve(pairs);
    forall i | 0 <= i < |pairs| ensures Alike(Offs(pairs)[i], Ons(pairs)[i]) {
      assert pairs[i] in pairs;
      PairIsClean(off, on, order, pairs[i]);
      TurnIsConserved(pairs[i], off.runtime, on.runtime);
    }
    forall i | 0 <= i < |pairs|
      ensures
        && AllTurns(off)[i].requestHash.Some? && AllTurns(off)[i].requestHash == AllTurns(on)[i].requestHash
        && AllTurns(off)[i].assistantHash == AllTurns(on)[i].assistantHash
        && AllTurns(off)[i].predictedTokens.Some? && AllTurns(off)[i].predictedTokens == AllTurns(on)[i].predictedTokens
    {
      AlikeMeans(AllTurns(off)[i], AllTurns(on)[i]);
    }
    TimedPairs(off, on, order, threshold);
    SecondsAdd(pairs);
    Threshold(Seconds(pairs).0, Seconds(pairs).1, threshold);
  }

  lemma Unpack(off: CanaryCell, on: CanaryCell, order: seq<string>, threshold: real)
    requires Accepted(off, on, order, threshold)
    ensures InputClean(off, on, order) && SamplingClean(off, on, order)
    ensures BehaviorClean(off, on, order) && MechanicsClean(off, on, order)
    ensures var (a, b) := Seconds(Compared(off.attempts, on.attempts, order, |order|)); a - b > threshold * a
  {
    hide InputClean, BehaviorClean, MechanicsClean, SamplingClean, Compared;
  }

  lemma Threshold(a: real, b: real, threshold: real)
    requires a - b > threshold * a
    ensures b < (1.0 - threshold) * a
  {
    assert (1.0 - threshold) * a == a - threshold * a;
  }

  lemma Lengths(off: CanaryCell, on: CanaryCell, order: seq<string>)
    requires AllMatched(off.attempts, on.attempts, order)
    ensures |off.attempts| == |on.attempts| == |order|
  {}

  lemma AllTurnsIs(off: CanaryCell, on: CanaryCell, order: seq<string>)
    requires |off.attempts| == |on.attempts| == |order|
    ensures AllTurns(off) == TurnsOf(off.attempts, |order|) && AllTurns(on) == TurnsOf(on.attempts, |order|)
  {}

  lemma Sides(pairs: seq<TurnPair>)
    ensures |Offs(pairs)| == |Ons(pairs)| == |pairs|
    ensures forall i :: 0 <= i < |pairs| ==> Offs(pairs)[i] == pairs[i].off && Ons(pairs)[i] == pairs[i].on
  {}

  lemma AlikeMeans(a: TurnReceipt, b: TurnReceipt)
    requires Alike(a, b)
    ensures a.requestHash.Some? && a.requestHash == b.requestHash && a.assistantHash == b.assistantHash
    ensures a.predictedTokens.Some? && a.predictedTokens == b.predictedTokens
  {}

  lemma TimedPairs(off: CanaryCell, on: CanaryCell, order: seq<string>, threshold: real)
    requires Accepted(off, on, order, threshold)
    ensures forall p <- Compared(off.attempts, on.attempts, order, |order|) ::
      p.off.promptSeconds.Some? && p.on.promptSeconds.Some?
  {
    hide InputClean, BehaviorClean, MechanicsClean, SamplingClean, Compared;
  }

  /** And attempt by attempt: the same sampling, whose seed every turn used, and the same final output, tool
      trajectory and verifier result. */
  lemma AcceptedAttemptsAgree(off: CanaryCell, on: CanaryCell, order: seq<string>, threshold: real, k: nat)
    requires Accepted(off, on, order, threshold) && k < |order|
    ensures Position(off, on, order, k)
    ensures var a, b := off.attempts[k], on.attempts[k];
      && a.sampling.Some? && a.sampling == b.sampling
      && OneDigest(a.finalOutput, b.finalOutput) && OneDigest(a.toolTrajectory, b.toolTrajectory)
      && OneDigest(a.verifierResult, b.verifierResult)
      && a.turns.Some? && b.turns.Some? && |a.turns.value| == |b.turns.value|
      && forall t :: 0 <= t < |a.turns.value| ==>
           && a.turns.value[t].seed == b.turns.value[t].seed == a.sampling.value.seed
           && a.turns.value[t].turn == Some(t + 1) == b.turns.value[t].turn
  {
    Unpack(off, on, order, threshold);
    hide Compared, InputClean, SamplingClean, BehaviorClean, MechanicsClean;
    InputMeans(off, on, order);
    SamplingMeans(off, on, order);
    BehaviorMeans(off, on, order);
    MechanicsMeans(off, on, order);
    var a, b := off.attempts[k], on.attempts[k];
    forall t: nat | t < |a.turns.value|
      ensures a.turns.value[t].seed == b.turns.value[t].seed == a.sampling.value.seed
      ensures a.turns.value[t].turn == Some(t + 1) == b.turns.value[t].turn
    {
      assert Reached(off, on, order, k, t);
      assert OffTurn(off, k, t) == a.turns.value[t] && OffTurn(on, k, t) == b.turns.value[t];
    }
  }

  lemma PairIsClean(off: CanaryCell, on: CanaryCell, order: seq<string>, p: TurnPair)
    requires InputClean(off, on, order) && BehaviorClean(off, on, order) && MechanicsClean(off, on, order)
    requires BuiltTurns(off) && BuiltTurns(on)
    requires p in Compared(off.attempts, on.attempts, order, |order|)
    requires Offs(Compared(off.attempts, on.attempts, order, |order|)) == AllTurns(off)
    requires Ons(Compared(off.attempts, on.attempts, order, |order|)) == AllTurns(on)
    ensures TurnInput(p) && TurnMechanics(p, off.runtime, on.runtime) && TurnBehavior(p)
    ensures Faithful(p.off) && Faithful(p.on)
  {
    hide TurnInput, TurnMechanics, TurnBehavior, Faithful, Compared, AllTurns;
    var pairs := Compared(off.attempts, on.attempts, order, |order|);
    var i :| 0 <= i < |pairs| && pairs[i] == p;
    assert AllTurns(off)[i] == p.off && AllTurns(on)[i] == p.on;
    assert p.off in AllTurns(off) && p.on in AllTurns(on);
  }

  /** The two runtimes of an accepted comparison differ only in the prompt-cache switch. */
  lemma AcceptedRuntimesDifferInOneSwitch(off: CanaryCell, on: CanaryCell, order: seq<string>, threshold: real)
    requires WellFormed(off, on, order, threshold) && Accepted(off, on, order, threshold)
    ensures off.runtime.identity == on.runtime.identity && off.runtime.fields.Keys == on.runtime.fields.Keys
    ensures forall f <- off.runtime.fields :: f != "prompt_cache" ==> off.runtime.fields[f] == on.runtime.fields[f]
    ensures off.runtime.mode == Off && on.runtime.mode == On
  {
    hide Compared;
    CommonDigestPinsTheRest(off.runtime, on.runtime);
  }
}
