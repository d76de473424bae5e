/** Comparing a cache-off cell with a cache-on cell, turn by turn. */
module CacheCompare {
  import opened Common
  import opened CacheReceipts
  import Reals

  datatype Sampling = Sampling(seed: int, settings: string)

  datatype Attempt = Attempt(
    pairId: string, sampling: Option<Sampling>,
    finalOutput: Option<string>, toolTrajectory: Option<string>, verifierResult: Option<string>,
    turns: Option<seq<TurnReceipt>>)

  datatype CanaryCell = CanaryCell(mode: Mode, runtime: RuntimeReceipt, attempts: seq<Attempt>)

  datatype Errors = Errors(
    input: seq<string>, sampling: seq<string>, behavior: seq<string>, mechanics: seq<string>, performance: seq<string>)

  const CLEAN := Errors([], [], [], [], [])

  /** Two turns that are compared, with what surrounds them. */
  datatype TurnPair = TurnPair(
    pairId: string, index: nat, off: TurnReceipt, on: TurnReceipt,
    offSampling: Option<Sampling>, onSampling: Option<Sampling>)

  // ---- What each group of checks asks of one pair of turns ----

  predicate Tally(t: TurnReceipt) {
    t.reused.Some? && t.promptTokens.Some?
  }

  function Logical(t: TurnReceipt): int
    requires Tally(t)
  {
    t.promptTokens.value + t.reused.value
  }

  predicate TurnInput(p: TurnPair) {
    && p.off.pairId == p.pairId && p.on.pairId == p.pairId
    && p.off.requestHash.Some? && p.on.requestHash == p.off.requestHash
    && p.off.usage.logicalPrompt == p.on.usage.logicalPrompt
    && p.off.usage.output == p.on.usage.output && p.off.usage.total == p.on.usage.total
    && (Tally(p.off) && Tally(p.on) ==> Logical(p.off) == Logical(p.on))
  }

  predicate TurnSampling(p: TurnPair) {
    p.offSampling.Some? && p.onSampling.Some? ==>
      p.off.seed == p.offSampling.value.seed && p.on.seed == p.offSampling.value.seed
  }

  predicate TurnBehavior(p: TurnPair) {
    && p.off.assistantHash == p.on.assistantHash
    && (p.off.predictedTokens.Some? && p.on.predictedTokens.Some? ==> p.off.predictedTokens == p.on.predictedTokens)
  }

  predicate TurnProvenance(p: TurnPair, offRuntime: RuntimeReceipt, onRuntime: RuntimeReceipt) {
    && p.off.turn == Some(p.index) && p.on.turn == Some(p.index)
    && p.off.runtime == offRuntime && p.on.runtime == onRuntime
    && p.off.mechanicsValid && p.on.mechanicsValid
  }

  predicate TurnCounters(p: TurnPair) {
    && p.off.reused == Some(0) && p.on.reused.Some?
    && p.off.usage.cacheRead == p.off.reused && p.on.usage.cacheRead == p.on.reused
    && (Tally(p.off) && Tally(p.on) ==> TurnTokens(p.off) && TurnTokens(p.on))
    && p.off.predictedTokens.Some? && p.on.predictedTokens.Some?
    && p.off.usage.output == p.off.predictedTokens && p.on.usage.output == p.on.predictedTokens
  }

  predicate TurnMechanics(p: TurnPair, offRuntime: RuntimeReceipt, onRuntime: RuntimeReceipt) {
    TurnProvenance(p, offRuntime, onRuntime) && TurnCounters(p)
  }

  predicate TurnTokens(t: TurnReceipt)
    requires Tally(t)
  {
    t.usage.logicalPrompt == Some(Logical(t)) && t.usage.input == t.promptTokens
  }

  predicate TurnTimed(p: TurnPair) {
    p.off.promptSeconds.Some? && p.on.promptSeconds.Some?
  }

  method NoteInput(errors: seq<string>, p: TurnPair) returns (r: seq<string>)
    ensures r == [] <==> errors == [] && TurnInput(p)
  {
    r := Noted(errors, p.off.pairId != p.pairId || p.on.pairId != p.pairId, "provider_turn_pair_mismatch");
    if p.off.requestHash.None? || p.on.requestHash.None? {
      r := Noted(r, true, "request_hash_unobservable");
    } else {
      r := Noted(r, p.off.requestHash != p.on.requestHash, "request_hash_mismatch");
    }
    r := Noted(r, p.off.usage.logicalPrompt != p.on.usage.logicalPrompt,
               "provider_usage_logical_prompt_tokens_mismatch");
    r := Noted(r, p.off.usage.output != p.on.usage.output, "provider_usage_output_mismatch");
    r := Noted(r, p.off.usage.total != p.on.usage.total, "provider_usage_total_tokens_mismatch");
    if Tally(p.off) && Tally(p.on) {
      r := Noted(r, Logical(p.off) != Logical(p.on), "server_logical_prompt_tokens_mismatch");
    }
  }

  method NoteSampling(errors: seq<string>, p: TurnPair) returns (r: seq<string>)
    ensures r == [] <==> errors == [] && TurnSampling(p)
  {
    r := errors;
    if p.offSampling.Some? && p.onSampling.Some? {
      var seed := p.offSampling.value.seed;
      r := Noted(r, p.off.seed != seed || p.on.seed != seed, "provider_turn_sampling_seed_mismatch");
    }
  }

  method NoteBehavior(errors: seq<string>, p: TurnPair) returns (r: seq<string>)
    ensures r == [] <==> errors == [] && TurnBehavior(p)
  {
    r := Noted(errors, p.off.assistantHash != p.on.assistantHash, "assistant_content_mismatch");
    if p.off.predictedTokens.Some? && p.on.predictedTokens.Some? {
      r := Noted(r, p.off.predictedTokens != p.on.predictedTokens, "server_predicted_tokens_mismatch");
    }
  }

  method NoteProvenance(errors: seq<string>, p: TurnPair, offRuntime: RuntimeReceipt, onRuntime: RuntimeReceipt)
    returns (r: seq<string>)
    ensures r == [] <==> errors == [] && TurnProvenance(p, offRuntime, onRuntime)
  {
    r := Noted(errors, p.off.turn != Some(p.index) || p.on.turn != Some(p.index), "provider_turn_correlation_mismatch");
    r := Noted(r, p.off.runtime != offRuntime, "cache_off_runtime_receipt_mismatch");
    r := Noted(r, p.on.runtime != onRuntime, "cache_on_runtime_receipt_mismatch");
    r := Noted(r, !p.off.mechanicsValid, "cache_off_mechanics_invalid");
    r := Noted(r, !p.on.mechanicsValid, "cache_on_mechanics_invalid");
  }

  method NoteCounters(errors: seq<string>, p: TurnPair) returns (r: seq<string>)
    ensures r == [] <==> errors == [] && TurnCounters(p)
  {
    hide Noted;
    r := Noted(errors, p.off.reused != Some(0), "cache_off_reused_prefix_nonzero_or_unobservable");
    r := Noted(r, p.on.reused.None?, "cache_on_reused_prefix_unobservable");
    r := Noted(r, p.off.reused.Some? && p.off.usage.cacheRead != p.off.reused,
               "cache_off_provider_server_reuse_mismatch");
    r := Noted(r, p.on.reused.Some? && p.on.usage.cacheRead != p.on.reused, "cache_on_provider_server_reuse_mismatch");
    if Tally(p.off) && Tally(p.on) {
      r := Noted(r, p.off.usage.logicalPrompt != Some(Logical(p.off)), "cache_off_provider_server_prompt_mismatch");
      r := Noted(r, p.on.usage.logicalPrompt != Some(Logical(p.on)), "cache_on_provider_server_prompt_mismatch");
      r := Noted(r, p.off.usage.input != p.off.promptTokens, "cache_off_provider_server_input_mismatch");
      r := Noted(r, p.on.usage.input != p.on.promptTokens, "cache_on_provider_server_input_mismatch");
    }
    if p.off.predictedTokens.None? || p.on.predictedTokens.None? {
      r := Noted(r, true, "server_predicted_tokens_unobservable");
    } else {
      r := Noted(r, p.off.usage.output != p.off.predictedTokens, "cache_off_provider_server_output_mismatch");
      r := Noted(r, p.on.usage.output != p.on.predictedTokens, "cache_on_provider_server_output_mismatch");
    }
  }

  // ---- Which turns are compared ----

  /** Position k holds the expected pair in both cells. */
  predicate Aligned(off: seq<Attempt>, on: seq<Attempt>, order: seq<string>, k: nat)
    requires k < |order|
  {
    k < |off| && k < |on| && off[k].pairId == order[k] && on[k].pairId == order[k]
  }

  predicate Matched(off: Attempt, on: Attempt) {
    off.turns.Some? && on.turns.Some? && |off.turns.value| == |on.turns.value|
  }

  function PairsOf(off: Attempt, on: Attempt, pairId: string, n: nat): (pairs: seq<TurnPair>)
    requires Matched(off, on) && n <= |off.turns.value|
    ensures |pairs| == n
  {
    seq(n, t requires 0 <= t < n =>
      TurnPair(pairId, t + 1, off.turns.value[t], on.turns.value[t], off.sampling, on.sampling))
  }

  /** The turns of the first n pairs that the comparison reaches. */
  function Compared(off: seq<Attempt>, on: seq<Attempt>, order: seq<string>, n: nat): seq<TurnPair>
    requires n <= |order|
  {
    if n == 0 then []
    else
      var k := n - 1;
      Compared(off, on, order, k)
      + if Aligned(off, on, order, k) && Matched(off[k], on[k])
        then PairsOf(off[k], on[k], order[k], |off[k].turns.value|) else []
  }

  function ReusedOn(pairs: seq<TurnPair>): int {
    if pairs == [] then 0
    else
      var p := pairs[|pairs| - 1];
      ReusedOn(pairs[..|pairs| - 1]) + if p.on.reused.Some? then p.on.reused.value else 0
  }

  function Seconds(pairs: seq<TurnPair>): (real, real) {
    if pairs == [] then (0.0, 0.0)
    else
      var p := pairs[|pairs| - 1];
      var (off, on) := Seconds(pairs[..|pairs| - 1]);
      if TurnTimed(p) then (off + p.off.promptSeconds.value, on + p.on.promptSeconds.value) else (off, on)
  }

  // ---- What each group asks of the cells ----

  predicate SameDigest(off: Option<string>, on: Option<string>) {
    off.Some? && |off.value| == 64 && on == off
  }

  predicate AttemptBehavior(off: Attempt, on: Attempt) {
    && SameDigest(off.finalOutput, on.finalOutput) && SameDigest(off.toolTrajectory, on.toolTrajectory)
    && SameDigest(off.verifierResult, on.verifierResult)
  }

  ghost predicate EachAligned(off: seq<Attempt>, on: seq<Attempt>, order: seq<string>, n: nat,
                              ok: (Attempt, Attempt) -> bool)
    requires n <= |order|
  {
    forall k :: 0 <= k < n ==> (Aligned(off, on, order, k) ==> ok(off[k], on[k]))
  }

  predicate SameSampling(off: Attempt, on: Attempt) {
    off.sampling.Some? && off.sampling == on.sampling
  }

  predicate TurnsListed(off: Attempt, on: Attempt) {
    off.turns.Some? && on.turns.Some?
  }

  predicate TurnCounts(off: Attempt, on: Attempt) {
    TurnsListed(off, on) ==> Matched(off, on)
  }

  predicate Ordered(attempts: seq<Attempt>, order: seq<string>) {
    |attempts| == |order| && forall k :: 0 <= k < |order| ==> attempts[k].pairId == order[k]
  }

  ghost predicate InputClean(off: CanaryCell, on: CanaryCell, order: seq<string>) {
    && Ordered(off.attempts, order) && Ordered(on.attempts, order)
    && off.runtime.commonHash == on.runtime.commonHash
    && EachAligned(off.attempts, on.attempts, order, |order|, TurnCounts)
    && forall p <- Compared(off.attempts, on.attempts, order, |order|) :: TurnInput(p)
  }

  ghost predicate SamplingClean(off: CanaryCell, on: CanaryCell, order: seq<string>) {
    && EachAligned(off.attempts, on.attempts, order, |order|, SameSampling)
    && forall p <- Compared(off.attempts, on.attempts, order, |order|) :: TurnSampling(p)
  }

  ghost predicate BehaviorClean(off: CanaryCell, on: CanaryCell, order: seq<string>) {
    && EachAligned(off.attempts, on.attempts, order, |order|, AttemptBehavior)
    && forall p <- Compared(off.attempts, on.attempts, order, |order|) :: TurnBehavior(p)
  }

  ghost predicate MechanicsClean(off: CanaryCell, on: CanaryCell, order: seq<string>) {
    && off.runtime.eligible && on.runtime.eligible
    && EachAligned(off.attempts, on.attempts, order, |order|, TurnsListed)
    && forall p <- Compared(off.attempts, on.attempts, order, |order|) :: TurnMechanics(p, off.runtime, on.runtime)
  }

  ghost predicate PerformanceClean(off: CanaryCell, on: CanaryCell, order: seq<string>, threshold: real) {
    var pairs := Compared(off.attempts, on.attempts, order, |order|);
    && MechanicsClean(off, on, order)
    && (forall p <- pairs :: TurnTimed(p))
    && Seconds(pairs).0 > 0.0
    && Seconds(pairs).0 - Seconds(pairs).1 > threshold * Seconds(pairs).0
  }

  ghost predicate WellFormed(off: CanaryCell, on: CanaryCell, order: seq<string>, threshold: real) {
    && ValidRuntime(off.runtime) && ValidRuntime(on.runtime)
    && off.mode == Off == off.runtime.mode && on.mode == On == on.runtime.mode
    && order != [] && Unique(order) && 0.0 <= threshold < 1.0
    && forall p <- Compared(off.attempts, on.attempts, order, |order|) :: BothValid(p)
  }

  datatype Report = Report(
    errors: Errors, turns: nat, reused: Option<int>, offSeconds: Option<real>, onSeconds: Option<real>,
    savings: Option<real>, fraction: Option<real>, accepted: bool)

  // ---- Verdicts: which of the five lists are still empty ----

  datatype Verdict = Verdict(input: bool, sampling: bool, behavior: bool, mechanics: bool, performance: bool)

  function And(a: Verdict, b: Verdict): Verdict {
    Verdict(a.input && b.input, a.sampling && b.sampling, a.behavior && b.behavior,
            a.mechanics && b.mechanics, a.performance && b.performance)
  }

  const FINE := Verdict(true, true, true, true, true)

  function Of(e: Errors): Verdict {
    Verdict(e.input == [], e.sampling == [], e.behavior == [], e.mechanics == [], e.performance == [])
  }

  function TurnVerdict(p: TurnPair, off: RuntimeReceipt, on: RuntimeReceipt): Verdict {
    Verdict(TurnInput(p), TurnSampling(p), TurnBehavior(p), TurnMechanics(p, off, on), TurnTimed(p))
  }

  function TurnsVerdict(pairs: seq<TurnPair>, off: RuntimeReceipt, on: RuntimeReceipt): Verdict {
    if pairs == [] then FINE
    else And(TurnsVerdict(pairs[..|pairs| - 1], off, on), TurnVerdict(pairs[|pairs| - 1], off, on))
  }

  function AttemptVerdict(off: Attempt, on: Attempt): Verdict {
    Verdict(TurnCounts(off, on), SameSampling(off, on), AttemptBehavior(off, on), TurnsListed(off, on), true)
  }

  /** The checks at position k that concern whole attempts. */
  function PositionVerdict(off: seq<Attempt>, on: seq<Attempt>, order: seq<string>, k: nat): Verdict
    requires k < |order|
  {
    if k >= |off| || k >= |on| then FINE.(input := false)
    else if !Aligned(off, on, order, k) then FINE
    else AttemptVerdict(off[k], on[k])
  }

  // ---- The comparison loops ----

  method CompareTurn(before: Errors, p: TurnPair, off: RuntimeReceipt, on: RuntimeReceipt) returns (e: Errors)
    ensures Of(e) == And(Of(before), TurnVerdict(p, off, on))
  {
    hide TurnInput, TurnSampling, TurnBehavior, TurnProvenance, TurnCounters, TurnTimed;
    var input := NoteInput(before.input, p);
    var sampling := NoteSampling(before.sampling, p);
    var behavior := NoteBehavior(before.behavior, p);
    var provenance := NoteProvenance(before.mechanics, p, off, on);
    var mechanics := NoteCounters(provenance, p);
    var performance := Noted(before.performance, !TurnTimed(p), "prompt_timing_unobservable");
    e := Errors(input, sampling, behavior, mechanics, performance);
  }

  /** Running results: the error lists and totals over the turns compared so far. */
  datatype Progress = Progress(errors: Errors, reused: int, offSeconds: real, onSeconds: real, turns: nat)

  ghost predicate Totals(w: Progress, pairs: seq<TurnPair>) {
    w.reused == ReusedOn(pairs) && (w.offSeconds, w.onSeconds) == Seconds(pairs) && w.turns == |pairs|
  }

  predicate BothValid(p: TurnPair) {
    ValidTurn(p.off) && ValidTurn(p.on)
  }

  method Advance(w: Progress, p: TurnPair, off: RuntimeReceipt, on: RuntimeReceipt, ghost before: seq<TurnPair>)
    returns (next: Progress)
    requires Totals(w, before)
    ensures Totals(next, before + [p]) && Of(next.errors) == And(Of(w.errors), TurnVerdict(p, off, on))
  {
    hide TurnVerdict;
    assert (before + [p])[..|before|] == before;
    var e := CompareTurn(w.errors, p, off, on);
    next := w.(errors := e, turns := w.turns + 1);
    if p.on.reused.Some? {
      next := next.(reused := w.reused + p.on.reused.value);
    }
    if TurnTimed(p) {
      next := next.(offSeconds := w.offSeconds + p.off.promptSeconds.value,
                    onSeconds := w.onSeconds + p.on.promptSeconds.value);
    }
  }

  lemma AndAssociates(a: Verdict, b: Verdict, c: Verdict)
    ensures And(And(a, b), c) == And(a, And(b, c))
    ensures And(a, FINE) == a && And(FINE, a) == a
    ensures And(a, b) == And(b, a)
  {}

  method CompareTurns(w: Progress, off: Attempt, on: Attempt, pairId: string,
                      offRuntime: RuntimeReceipt, onRuntime: RuntimeReceipt, ghost before: seq<TurnPair>)
    returns (valid: bool, next: Progress)
    requires Matched(off, on) && Totals(w, before)
    ensures var pairs := PairsOf(off, on, pairId, |off.turns.value|);
      && (valid <==> forall p <- pairs :: BothValid(p))
      && (valid ==> Totals(next, before + pairs))
      && (valid ==> Of(next.errors) == And(Of(w.errors), TurnsVerdict(pairs, offRuntime, onRuntime)))
  {
    hide TurnVerdict, BothValid, Totals, Of, And;
    var n := |off.turns.value|;
    ghost var pairs := PairsOf(off, on, pairId, n);
    next := w;
    AndAssociates(Of(w.errors), FINE, FINE);
    assert before + [] == before;
    for t := 0 to n
      invariant forall p <- pairs[..t] :: BothValid(p)
      invariant Totals(next, before + pairs[..t])
      invariant Of(next.errors) == And(Of(w.errors), TurnsVerdict(pairs[..t], offRuntime, onRuntime))
    {
      var p := TurnPair(pairId, t + 1, off.turns.value[t], on.turns.value[t], off.sampling, on.sampling);
      assert p == pairs[t] && p in pairs;
      if !BothValid(p) {
        return false, next;
      }
      assert pairs[..t + 1] == pairs[..t] + [p] && pairs[..t + 1][..t] == pairs[..t];
      assert before + pairs[..t] + [p] == before + pairs[..t + 1];
      AndAssociates(Of(w.errors), TurnsVerdict(pairs[..t], offRuntime, onRuntime),
                    TurnVerdict(p, offRuntime, onRuntime));
      next := Advance(next, p, offRuntime, onRuntime, before + pairs[..t]);
    }
    assert pairs[..n] == pairs;
    return true, next;
  }

  method NoteAttempts(before: Errors, off: Attempt, on: Attempt) returns (e: Errors)
    ensures Of(e) == And(Of(before), AttemptVerdict(off, on))
  {
    var sampling := before.sampling;
    if off.sampling.None? || on.sampling.None? {
      sampling := Noted(sampling, true, "sampling_receipt_missing");
    } else {
      sampling := Noted(sampling, off.sampling != on.sampling, "sampling_receipt_mismatch");
    }
    var behavior := Noted(before.behavior, !SameDigest(off.finalOutput, on.finalOutput), "final_output_sha256");
    behavior := Noted(behavior, !SameDigest(off.toolTrajectory, on.toolTrajectory), "tool_trajectory_sha256");
    behavior := Noted(behavior, !SameDigest(off.verifierResult, on.verifierResult), "verifier_result_sha256");
    var mechanics := Noted(before.mechanics, !TurnsListed(off, on), "provider_turn_receipts_missing");
    var input := Noted(before.input, TurnsListed(off, on) && !Matched(off, on), "provider_turn_count_mismatch");
    e := Errors(input, sampling, behavior, mechanics, before.performance);
  }

  /** One position of the manifest order. */
  method ComparePosition(w: Progress, off: CanaryCell, on: CanaryCell, order: seq<string>, k: nat)
    returns (valid: bool, next: Progress)
    requires k < |order| && Totals(w, Compared(off.attempts, on.attempts, order, k))
    ensures var pairs := NewPairs(off.attempts, on.attempts, order, k);
      && (valid <==> forall p <- pairs :: BothValid(p))
      && (valid ==> Totals(next, Compared(off.attempts, on.attempts, order, k + 1)))
      && (valid ==> Of(next.errors) == And(Of(w.errors), StepVerdict(off, on, order, k)))
  {
    hide Totals, And, AttemptVerdict, TurnsVerdict, BothValid, PairsOf;
    ghost var before := Compared(off.attempts, on.attempts, order, k);
    assert Compared(off.attempts, on.attempts, order, k + 1) == before + NewPairs(off.attempts, on.attempts, order, k);
    assert before + [] == before;
    NoTurns(off.runtime, on.runtime);
    if k >= |off.attempts| || k >= |on.attempts| {
      MissingInput(w.errors);
      var missing := w.errors.(input := Noted(w.errors.input, true, "missing_pair"));
      SameTotals(w, missing, before);
      return true, w.(errors := missing);
    }
    var offAttempt, onAttempt := off.attempts[k], on.attempts[k];
    if offAttempt.pairId != order[k] || onAttempt.pairId != order[k] {
      AndAssociates(Of(w.errors), FINE, FINE);
      return true, w;
    }
    var e := NoteAttempts(w.errors, offAttempt, onAttempt);
    AndAssociates(AttemptVerdict(offAttempt, onAttempt), FINE, FINE);
    SameTotals(w, e, before);
    if !TurnsListed(offAttempt, onAttempt) || !Matched(offAttempt, onAttempt) {
      return true, w.(errors := e);
    }
    valid, next := CompareTurns(w.(errors := e), offAttempt, onAttempt, order[k], off.runtime, on.runtime, before);
    AndAssociates(Of(w.errors), AttemptVerdict(offAttempt, onAttempt),
                  TurnsVerdict(NewPairs(off.attempts, on.attempts, order, k), off.runtime, on.runtime));
  }

  function NewPairs(off: seq<Attempt>, on: seq<Attempt>, order: seq<string>, k: nat): seq<TurnPair>
    requires k < |order|
  {
    if Aligned(off, on, order, k) && Matched(off[k], on[k])
    then PairsOf(off[k], on[k], order[k], |off[k].turns.value|) else []
  }

  function StepVerdict(off: CanaryCell, on: CanaryCell, order: seq<string>, k: nat): Verdict
    requires k < |order|
  {
    And(PositionVerdict(off.attempts, on.attempts, order, k),
        TurnsVerdict(NewPairs(off.attempts, on.attempts, order, k), off.runtime, on.runtime))
  }

  function StepsVerdict(off: CanaryCell, on: CanaryCell, order: seq<string>, n: nat): Verdict
    requires n <= |order|
  {
    if n == 0 then FINE else And(StepsVerdict(off, on, order, n - 1), StepVerdict(off, on, order, n - 1))
  }

  lemma NoTurns(off: RuntimeReceipt, on: RuntimeReceipt)
    ensures TurnsVerdict([], off, on) == FINE && forall p <- [] :: BothValid(p)
  {}

  lemma MissingInput(e: Errors)
    ensures Of(e.(input := Noted(e.input, true, "missing_pair"))) == And(Of(e), And(FINE.(input := false), FINE))
  {}

  lemma SameTotals(w: Progress, e: Errors, pairs: seq<TurnPair>)
    requires Totals(w, pairs)
    ensures Totals(w.(errors := e), pairs)
  {}

  // ---- Verdicts and the conditions they stand for ----

  lemma {:induction false} TurnsVerdictMeans(pairs: seq<TurnPair>, off: RuntimeReceipt, on: RuntimeReceipt)
    ensures var v := TurnsVerdict(pairs, off, on);
      && (v.input <==> forall p <- pairs :: TurnInput(p))
      && (v.sampling <==> forall p <- pairs :: TurnSampling(p))
      && (v.behavior <==> forall p <- pairs :: TurnBehavior(p))
      && (v.mechanics <==> forall p <- pairs :: TurnMechanics(p, off, on))
      && (v.performance <==> forall p <- pairs :: TurnTimed(p))
  {
    hide TurnInput, TurnSampling, TurnBehavior, TurnMechanics, TurnTimed;
    if pairs != [] {
      var n := |pairs| - 1;
      TurnsVerdictMeans(pairs[..n], off, on);
      assert pairs == pairs[..n] + [pairs[n]];
    }
  }

  lemma {:induction false} TurnsVerdictSplits(a: seq<TurnPair>, b: seq<TurnPair>, off: RuntimeReceipt,
                                              on: RuntimeReceipt)
    ensures TurnsVerdict(a + b, off, on) == And(TurnsVerdict(a, off, on), TurnsVerdict(b, off, on))
  {
    hide TurnVerdict;
    if b == [] {
      assert a + b == a;
    } else {
      var n := |b| - 1;
      TurnsVerdictSplits(a, b[..n], off, on);
      assert (a + b)[..|a + b| - 1] == a + b[..n];
    }
  }

  /** What the positions ask for, as one condition per list. */
  ghost predicate PositionsMean(v: Verdict, off: seq<Attempt>, on: seq<Attempt>, order: seq<string>, n: nat)
    requires n <= |order|
  {
    && (v.input <==> n <= |off| && n <= |on| && EachAligned(off, on, order, n, TurnCounts))
    && (v.sampling <==> EachAligned(off, on, order, n, SameSampling))
    && (v.behavior <==> EachAligned(off, on, order, n, AttemptBehavior))
    && (v.mechanics <==> EachAligned(off, on, order, n, TurnsListed))
    && v.performance
  }

  lemma PositionExtends(v: Verdict, off: seq<Attempt>, on: seq<Attempt>, order: seq<string>, n: nat)
    requires n < |order| && PositionsMean(v, off, on, order, n)
    ensures PositionsMean(And(v, PositionVerdict(off, on, order, n)), off, on, order, n + 1)
  {
    hide TurnCounts, SameSampling, AttemptBehavior, TurnsListed;
    var w := And(v, PositionVerdict(off, on, order, n));
    EachExtends(off, on, order, n, TurnCounts);
    EachExtends(off, on, order, n, SameSampling);
    EachExtends(off, on, order, n, AttemptBehavior);
    EachExtends(off, on, order, n, TurnsListed);
    hide EachAligned;
  }

  lemma EachExtends(off: seq<Attempt>, on: seq<Attempt>, order: seq<string>, n: nat, ok: (Attempt, Attempt) -> bool)
    requires n < |order|
    ensures EachAligned(off, on, order, n + 1, ok)
      <==> EachAligned(off, on, order, n, ok) && (Aligned(off, on, order, n) ==> ok(off[n], on[n]))
  {
    hide Aligned;
  }

  lemma {:induction false} StepsSeparate(off: CanaryCell, on: CanaryCell, order: seq<string>, n: nat)
    returns (v: Verdict)
    requires n <= |order|
    ensures PositionsMean(v, off.attempts, on.attempts, order, n)
    ensures StepsVerdict(off, on, order, n)
         == And(v, TurnsVerdict(Compared(off.attempts, on.attempts, order, n), off.runtime, on.runtime))
  {
    hide *;
    if n == 0 {
      v := FINE;
      NoSteps(off, on, order);
    } else {
      var before := StepsSeparate(off, on, order, n - 1);
      var compared := Compared(off.attempts, on.attempts, order, n - 1);
      var pairs := NewPairs(off.attempts, on.attempts, order, n - 1);
      PositionExtends(before, off.attempts, on.attempts, order, n - 1);
      v := And(before, PositionVerdict(off.attempts, on.attempts, order, n - 1));
      ComparedGrows(off.attempts, on.attempts, order, n - 1);
      OneStep(off, on, order, n);
      TurnsVerdictSplits(compared, pairs, off.runtime, on.runtime);
      Regroup(before, TurnsVerdict(compared, off.runtime, on.runtime),
              PositionVerdict(off.attempts, on.attempts, order, n - 1), TurnsVerdict(pairs, off.runtime, on.runtime));
    }
  }

  lemma NoSteps(off: CanaryCell, on: CanaryCell, order: seq<string>)
    ensures PositionsMean(FINE, off.attempts, on.attempts, order, 0)
    ensures StepsVerdict(off, on, order, 0)
         == And(FINE, TurnsVerdict(Compared(off.attempts, on.attempts, order, 0), off.runtime, on.runtime))
  {
    hide TurnCounts, SameSampling, AttemptBehavior, TurnsListed, Aligned;
  }

  lemma OneStep(off: CanaryCell, on: CanaryCell, order: seq<string>, n: nat)
    requires 0 < n <= |order|
    ensures StepsVerdict(off, on, order, n)
         == And(StepsVerdict(off, on, order, n - 1),
                And(PositionVerdict(off.attempts, on.attempts, order, n - 1),
                    TurnsVerdict(NewPairs(off.attempts, on.attempts, order, n - 1), off.runtime, on.runtime)))
  {
    hide PositionVerdict, TurnsVerdict, NewPairs, And;
  }

  lemma Regroup(a: Verdict, b: Verdict, c: Verdict, d: Verdict)
    ensures And(And(a, b), And(c, d)) == And(And(a, c), And(b, d))
  {}

  /** Before the turn checks: the manifest orders, the common configuration and the eligibility. */
  function CellVerdict(off: CanaryCell, on: CanaryCell, order: seq<string>): Verdict {
    Verdict(Ordered(off.attempts, order) && Ordered(on.attempts, order)
            && off.runtime.commonHash == on.runtime.commonHash,
            true, true, off.runtime.eligible && on.runtime.eligible, true)
  }

  lemma VerdictMeansClean(off: CanaryCell, on: CanaryCell, order: seq<string>)
    ensures var v := And(CellVerdict(off, on, order), StepsVerdict(off, on, order, |order|));
      && (v.input <==> InputClean(off, on, order))
      && (v.sampling <==> SamplingClean(off, on, order))
      && (v.behavior <==> BehaviorClean(off, on, order))
      && (v.mechanics <==> MechanicsClean(off, on, order))
      && (v.performance <==> forall p <- Compared(off.attempts, on.attempts, order, |order|) :: TurnTimed(p))
  {
    hide StepsVerdict, TurnsVerdict, Compared, EachAligned;
    hide TurnInput, TurnSampling, TurnBehavior, TurnMechanics, TurnTimed;
    var positions := StepsSeparate(off, on, order, |order|);
    TurnsVerdictMeans(Compared(off.attempts, on.attempts, order, |order|), off.runtime, on.runtime);
  }

  ghost predicate InputFormed(off: CanaryCell, on: CanaryCell, order: seq<string>, threshold: real) {
    && ValidRuntime(off.runtime) && ValidRuntime(on.runtime)
    && off.mode == Off == off.runtime.mode && on.mode == On == on.runtime.mode
    && order != [] && Unique(order) && 0.0 <= threshold < 1.0
  }

  lemma WellFormedMeans(off: CanaryCell, on: CanaryCell, order: seq<string>, threshold: real)
    ensures WellFormed(off, on, order, threshold)
      <==> InputFormed(off, on, order, threshold)
           && forall p <- Compared(off.attempts, on.attempts, order, |order|) :: BothValid(p)
  {}

  lemma Thresholds(off: CanaryCell, on: CanaryCell, order: seq<string>, threshold: real)
    requires InputFormed(off, on, order, threshold)
    ensures 0.0 <= threshold
  {}

  method CheckInput(off: CanaryCell, on: CanaryCell, order: seq<string>, threshold: real) returns (ok: bool)
    ensures ok <==> InputFormed(off, on, order, threshold)
  {
    var offOk := ValidateRuntimeReceipt(off.runtime);
    var onOk := ValidateRuntimeReceipt(on.runtime);
    if !offOk || off.mode != Off || off.runtime.mode != Off || !onOk || on.mode != On || on.runtime.mode != On {
      return false;
    }
    DistinctCount(order);
    return order != [] && |set o | o in order| == |order| && 0.0 <= threshold < 1.0;
  }

  method StartErrors(off: CanaryCell, on: CanaryCell, order: seq<string>) returns (e: Errors)
    ensures Of(e) == CellVerdict(off, on, order)
  {
    var input := Noted([], !Ordered(off.attempts, order), "cache_off_manifest_order_mismatch");
    input := Noted(input, !Ordered(on.attempts, order), "cache_on_manifest_order_mismatch");
    input := Noted(input, off.runtime.commonHash != on.runtime.commonHash, "runtime_common_configuration_mismatch");
    var mechanics := Noted([], !off.runtime.eligible, "cache_off_runtime_ineligible");
    mechanics := Noted(mechanics, !on.runtime.eligible, "cache_on_runtime_ineligible");
    e := CLEAN.(input := input, mechanics := mechanics);
  }

  lemma StartTotals(off: CanaryCell, on: CanaryCell, order: seq<string>, e: Errors)
    ensures Compared(off.attempts, on.attempts, order, 0) == [] && Totals(Progress(e, 0, 0.0, 0.0, 0), [])
    ensures And(CellVerdict(off, on, order), StepsVerdict(off, on, order, 0)) == CellVerdict(off, on, order)
  {}

  lemma ComparedGrows(off: seq<Attempt>, on: seq<Attempt>, order: seq<string>, k: nat)
    requires k < |order|
    ensures Compared(off, on, order, k + 1) == Compared(off, on, order, k) + NewPairs(off, on, order, k)
    ensures forall p <- Compared(off, on, order, k + 1) :: p in Compared(off, on, order, |order|)
    decreases |order| - k
  {
    if k + 1 < |order| {
      ComparedGrows(off, on, order, k + 1);
    }
  }

  lemma StepsGrow(v: Verdict, off: CanaryCell, on: CanaryCell, order: seq<string>, k: nat)
    requires k < |order|
    ensures And(And(v, StepsVerdict(off, on, order, k)), StepVerdict(off, on, order, k))
         == And(v, StepsVerdict(off, on, order, k + 1))
  {
    hide StepVerdict;
  }

  method Finish(w: Progress, off: CanaryCell, on: CanaryCell, order: seq<string>, threshold: real)
    returns (r: Report)
    requires Totals(w, Compared(off.attempts, on.attempts, order, |order|)) && 0.0 <= threshold
    requires Of(w.errors) == And(CellVerdict(off, on, order), StepsVerdict(off, on, order, |order|))
    ensures Reports(r, off, on, order, threshold)
  {
    hide InputClean, SamplingClean, BehaviorClean, MechanicsClean, Compared, Seconds, ReusedOn, TurnTimed,
         CellVerdict, StepsVerdict;
    VerdictMeansClean(off, on, order);
    var performance := Noted(w.errors.performance, w.errors.mechanics != [], "mechanics_invalid_for_performance_claim");
    var savings: Option<real>, fraction: Option<real> := None, None;
    if performance == [] && w.offSeconds > 0.0 {
      FractionOverThreshold(w.offSeconds, w.onSeconds, threshold);
      savings := Some(w.offSeconds - w.onSeconds);
      fraction := Some(savings.value / w.offSeconds);
      performance := Noted(performance, fraction.value <= threshold, "prompt_evaluation_savings_below_threshold");
    } else {
      performance := Noted(performance, performance == [], "cache_off_prompt_evaluation_time_not_positive");
    }
    var e := w.errors.(performance := performance);
    var fast := performance == [];
    r := Report(e, w.turns, if e.mechanics == [] then Some(w.reused) else None,
                if fast then Some(w.offSeconds) else None, if fast then Some(w.onSeconds) else None,
                if fast then savings else None, if fast then fraction else None, e == CLEAN);
  }

  lemma FractionOverThreshold(off: real, on: real, threshold: real)
    requires off > 0.0
    ensures (off - on) / off > threshold <==> off - on > threshold * off
  {
    Reals.DivideKeepsOrder(threshold * off, off - on, off);
    assert threshold * off / off == threshold;
  }

  ghost predicate Reports(r: Report, off: CanaryCell, on: CanaryCell, order: seq<string>, threshold: real) {
    var pairs := Compared(off.attempts, on.attempts, order, |order|);
    && (r.errors.input == [] <==> InputClean(off, on, order))
    && (r.errors.sampling == [] <==> SamplingClean(off, on, order))
    && (r.errors.behavior == [] <==> BehaviorClean(off, on, order))
    && (r.errors.mechanics == [] <==> MechanicsClean(off, on, order))
    && (r.errors.performance == [] <==> PerformanceClean(off, on, order, threshold))
    && (r.accepted <==> Accepted(off, on, order, threshold))
    && r.turns == |pairs|
    && r.reused == (if MechanicsClean(off, on, order) then Some(ReusedOn(pairs)) else None)
    && (PerformanceClean(off, on, order, threshold) ==>
          && r.offSeconds == Some(Seconds(pairs).0) && r.onSeconds == Some(Seconds(pairs).1)
          && r.savings == Some(Seconds(pairs).0 - Seconds(pairs).1)
          && r.fraction == Some((Seconds(pairs).0 - Seconds(pairs).1) / Seconds(pairs).0))
    && (!PerformanceClean(off, on, order, threshold) ==>
          r.offSeconds == r.onSeconds == r.savings == r.fraction == None)
  }

  ghost predicate Accepted(off: CanaryCell, on: CanaryCell, order: seq<string>, threshold: real) {
    && InputClean(off, on, order) && SamplingClean(off, on, order) && BehaviorClean(off, on, order)
    && MechanicsClean(off, on, order) && PerformanceClean(off, on, order, threshold)
  }

  /** Main result: the report exists exactly for well-formed input, each of its five statuses passes
      exactly when its declarative condition holds, and its totals are those of the compared turns. */
  method CompareCells(off: CanaryCell, on: CanaryCell, order: seq<string>, threshold: real)
    returns (result: Result<Report>)
    ensures result.Ok? <==> WellFormed(off, on, order, threshold)
    ensures result.Ok? ==> Reports(result.value, off, on, order, threshold)
  {
    hide *;
    var wellFormed := CheckInput(off, on, order, threshold);
    if !wellFormed {
      WellFormedMeans(off, on, order, threshold);
      return Err("malformed cells, order or threshold");
    }
    var e := StartErrors(off, on, order);
    var w := Progress(e, 0, 0.0, 0.0, 0);
    StartTotals(off, on, order, e);
    WellFormedMeans(off, on, order, threshold);
    for k := 0 to |order|
      invariant forall p <- Compared(off.attempts, on.attempts, order, k) :: BothValid(p)
      invariant Totals(w, Compared(off.attempts, on.attempts, order, k))
      invariant Of(w.errors) == And(CellVerdict(off, on, order), StepsVerdict(off, on, order, k))
    {
      ComparedGrows(off.attempts, on.attempts, order, k);
      var valid, next := ComparePosition(w, off, on, order, k);
      if !valid {
        return Err("invalid provider-turn receipt");
      }
      StepsGrow(CellVerdict(off, on, order), off, on, order, k);
      w := next;
    }
    assert 0.0 <= threshold by { Thresholds(off, on, order, threshold); }
    var r := Finish(w, off, on, order, threshold);
    return Ok(r);
  }
}
