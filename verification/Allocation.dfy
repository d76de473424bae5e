/** Allocating a fixed number of deliberate tasks by predicted uplift, and the exact-k oracle. */
module Allocation {
  import opened Common
  import opened Reals
  import opened Sorting

  datatype Row = Row(success: bool, tokens: Option<int>, toolCalls: Option<int>, messages: Option<int>)

  datatype Pair = Pair(taskId: string, direct: Row, deliberate: Row)

  datatype Policy = Direct | Deliberate

  function RowOf(p: Pair, policy: Policy): Row {
    if policy.Deliberate? then p.deliberate else p.direct
  }

  ghost predicate DistinctTasks(pairs: seq<Pair>) {
    forall i, j :: 0 <= i < j < |pairs| ==> pairs[i].taskId != pairs[j].taskId
  }

  // ---- Sums over chosen indices ----

  function SumIn(values: seq<real>, chosen: set<nat>): real {
    if values == [] then 0.0
    else
      var n := |values| - 1;
      SumIn(values[..n], chosen) + if n in chosen then values[n] else 0.0
  }

  ghost predicate Indices(chosen: set<nat>, n: nat) {
    forall i <- chosen :: i < n
  }

  function Shifted(values: seq<real>, t: real): seq<real> {
    seq(|values|, i requires 0 <= i < |values| => values[i] - t)
  }

  lemma {:induction false} SumInShifted(values: seq<real>, chosen: set<nat>, t: real)
    requires Indices(chosen, |values|)
    ensures SumIn(values, chosen) == SumIn(Shifted(values, t), chosen) + Times(t, |chosen| as real)
  {
    hide SumIn, Shifted, Times;
    if values == [] {
      assert chosen == {};
      TimesNone(t);
      NoValues(chosen, t);
    } else {
      var n := |values| - 1;
      var fewer := chosen - {n};
      SumInShifted(values[..n], fewer, t);
      SumInLast(values, chosen);
      ShiftedLast(values, t);
      SumInLast(Shifted(values, t), chosen);
      SumInDrops(values[..n], chosen, n);
      SumInDrops(Shifted(values[..n], t), chosen, n);
      if n in chosen {
        assert |chosen| == |fewer| + 1;
        TimesMore(t, |fewer|);
      } else {
        assert fewer == chosen;
      }
    }
  }

  lemma NoValues(chosen: set<nat>, t: real)
    ensures SumIn([], chosen) == 0.0 && Shifted([], t) == []
  {}

  lemma SumInLast(values: seq<real>, chosen: set<nat>)
    requires values != []
    ensures var n := |values| - 1;
      SumIn(values, chosen) == SumIn(values[..n], chosen) + if n in chosen then values[n] else 0.0
  {}

  lemma ShiftedLast(values: seq<real>, t: real)
    requires values != []
    ensures var n := |values| - 1;
      && |Shifted(values, t)| == |values| && |Shifted(values[..n], t)| == n
      && Shifted(values, t)[..n] == Shifted(values[..n], t) && Shifted(values, t)[n] == values[n] - t
  {}

  lemma TimesNone(t: real)
    ensures Times(t, 0.0) == 0.0
  {}

  lemma TimesMore(t: real, n: nat)
    ensures Times(t, (n + 1) as real) == Times(t, n as real) + t
  {}

  /** An index past the end of the values contributes nothing. */
  lemma {:induction false} SumInDrops(values: seq<real>, chosen: set<nat>, n: nat)
    requires n >= |values|
    ensures SumIn(values, chosen) == SumIn(values, chosen - {n})
  {
    if values != [] {
      SumInDrops(values[..|values| - 1], chosen, n);
    }
  }

  lemma {:induction false} SumInMonotone(values: seq<real>, a: set<nat>, b: set<nat>)
    requires forall i :: 0 <= i < |values| ==>
      (if i in a then values[i] else 0.0) <= (if i in b then values[i] else 0.0)
    ensures SumIn(values, a) <= SumIn(values, b)
  {
    if values != [] {
      SumInMonotone(values[..|values| - 1], a, b);
    }
  }

  // ---- Ranking ----

  datatype Entry = Entry(index: nat, uplift: real, taskId: string)

  predicate Ahead(a: Entry, b: Entry) {
    a.uplift > b.uplift || (a.uplift == b.uplift && StringLe(a.taskId, b.taskId))
  }

  lemma AheadOrders()
    ensures TotalPreorder(Ahead)
  {
    StringOrder();
  }

  function Entries(pairs: seq<Pair>, uplift: seq<real>): seq<Entry>
    requires |uplift| == |pairs|
  {
    seq(|pairs|, i requires 0 <= i < |pairs| => Entry(i, uplift[i], pairs[i].taskId))
  }

  function Ranked(pairs: seq<Pair>, uplift: seq<real>): seq<Entry>
    requires |uplift| == |pairs|
  {
    Sort(Ahead, Entries(pairs, uplift))
  }

  function IndexSet(entries: seq<Entry>): set<nat> {
    set e | e in entries :: e.index
  }

  /** The indices of the first k ranked tasks. */
  function Top(pairs: seq<Pair>, uplift: seq<real>, k: nat): set<nat>
    requires |uplift| == |pairs|
  {
    var ranked := Ranked(pairs, uplift);
    IndexSet(if k <= |ranked| then ranked[..k] else ranked)
  }

  lemma RankedPermutes(pairs: seq<Pair>, uplift: seq<real>)
    requires |uplift| == |pairs|
    ensures var ranked := Ranked(pairs, uplift);
      && |ranked| == |pairs| && Sorted(Ahead, ranked)
      && (forall i, j :: 0 <= i < j < |ranked| ==> ranked[i].index != ranked[j].index)
      && (forall e <- ranked :: e.index < |pairs| && e == Entries(pairs, uplift)[e.index])
      && (forall i :: 0 <= i < |pairs| ==> Entries(pairs, uplift)[i] in ranked)
  {
    var entries := Entries(pairs, uplift);
    AheadOrders();
    SortSorts(Ahead, entries);
    assert Unique(entries) by {
      forall i, j | 0 <= i < j < |entries| ensures entries[i] != entries[j] {
        assert entries[i].index == i && entries[j].index == j;
      }
    }
    var ranked := Ranked(pairs, uplift);
    PermutationKeepsUnique(entries, ranked);
    forall i, j | 0 <= i < j < |ranked| ensures ranked[i].index != ranked[j].index {
      assert ranked[i] in ranked && ranked[j] in ranked && ranked[i] != ranked[j];
    }
  }

  lemma {:induction false} IndexSetSize(entries: seq<Entry>)
    requires forall i, j :: 0 <= i < j < |entries| ==> entries[i].index != entries[j].index
    ensures |IndexSet(entries)| == |entries|
  {
    if entries != [] {
      var rest := entries[1..];
      assert forall i, j :: 0 <= i < j < |rest| ==> rest[i] == entries[i + 1] && rest[j] == entries[j + 1];
      IndexSetSize(rest);
      assert IndexSet(entries) == {entries[0].index} + IndexSet(rest);
      assert entries[0].index !in IndexSet(rest);
    }
  }

  /** The top k are k tasks, none of which is out-ranked in uplift by a task left out. */
  lemma TopIsTop(pairs: seq<Pair>, uplift: seq<real>, k: nat)
    requires |uplift| == |pairs| && k <= |pairs|
    ensures var top := Top(pairs, uplift, k);
      && |top| == k && Indices(top, |pairs|)
      && forall i, j :: i in top && 0 <= j < |pairs| && j !in top ==> uplift[i] >= uplift[j]
  {
    hide Ranked;
    RankedPermutes(pairs, uplift);
    var ranked := Ranked(pairs, uplift);
    IndexSetSize(ranked[..k]);
    forall i, j | i in Top(pairs, uplift, k) && 0 <= j < |pairs| && j !in Top(pairs, uplift, k)
      ensures uplift[i] >= uplift[j]
    {
      PickedOutranks(pairs, uplift, ranked, k, i, j);
    }
  }

  lemma PickedOutranks(pairs: seq<Pair>, uplift: seq<real>, ranked: seq<Entry>, k: nat, i: nat, j: nat)
    requires |uplift| == |pairs| && k <= |ranked| && Sorted(Ahead, ranked)
    requires forall e <- ranked :: e.index < |pairs| && e == Entries(pairs, uplift)[e.index]
    requires forall i :: 0 <= i < |pairs| ==> Entries(pairs, uplift)[i] in ranked
    requires i in IndexSet(ranked[..k]) && j < |pairs| && j !in IndexSet(ranked[..k])
    ensures i < |pairs| && uplift[i] >= uplift[j]
  {
    hide Ahead;
    var a :| a in ranked[..k] && a.index == i;
    var x :| 0 <= x < k && ranked[x] == a;
    assert a in ranked;
    var b := Entries(pairs, uplift)[j];
    assert b !in ranked[..k];
    assert ranked == ranked[..k] + ranked[k..];
    var y :| k <= y < |ranked| && ranked[y] == b;
    AheadIsNotLess(ranked[x], ranked[y]);
  }

  lemma AheadIsNotLess(a: Entry, b: Entry)
    ensures Ahead(a, b) ==> a.uplift >= b.uplift
  {
    hide StringLe;
  }

  /** Main result (exchange): among all choices of exactly k tasks, the k ranked first have the
      largest total uplift, whatever the uplift values are. */
  lemma TopMaximisesUplift(pairs: seq<Pair>, uplift: seq<real>, k: nat, other: set<nat>)
    requires |uplift| == |pairs| && k <= |pairs|
    requires Indices(other, |pairs|) && |other| == k
    ensures SumIn(uplift, other) <= SumIn(uplift, Top(pairs, uplift, k))
  {
    TopIsTop(pairs, uplift, k);
    Exchange(uplift, Top(pairs, uplift, k), other);
  }

  lemma Exchange(uplift: seq<real>, top: set<nat>, other: set<nat>)
    requires Indices(top, |uplift|) && Indices(other, |uplift|) && |top| == |other|
    requires forall i, j :: i in top && 0 <= j < |uplift| && j !in top ==> uplift[i] >= uplift[j]
    ensures SumIn(uplift, other) <= SumIn(uplift, top)
  {
    hide SumIn, Shifted, Times;
    if top != {} {
      var t := Threshold(uplift, top);
      SumInShifted(uplift, top, t);
      SumInShifted(uplift, other, t);
      ShiftedFavoursTop(uplift, top, other, t);
    } else {
      assert |other| == 0;
      assert other == {};
    }
  }

  lemma ShiftedFavoursTop(uplift: seq<real>, top: set<nat>, other: set<nat>, t: real)
    requires forall i :: 0 <= i < |uplift| ==> if i in top then uplift[i] >= t else uplift[i] <= t
    ensures SumIn(Shifted(uplift, t), other) <= SumIn(Shifted(uplift, t), top)
  {
    hide SumIn;
    SumInMonotone(Shifted(uplift, t), other, top);
  }

  /** The smallest uplift inside a nonempty set that dominates everything outside it. */
  lemma Threshold(uplift: seq<real>, top: set<nat>) returns (t: real)
    requires top != {} && Indices(top, |uplift|)
    requires forall i, j :: i in top && 0 <= j < |uplift| && j !in top ==> uplift[i] >= uplift[j]
    ensures forall i :: 0 <= i < |uplift| ==> if i in top then uplift[i] >= t else uplift[i] <= t
  {
    var least := Least(uplift, top);
    t := uplift[least];
  }

  lemma Least(uplift: seq<real>, top: set<nat>) returns (least: nat)
    requires top != {} && Indices(top, |uplift|)
    ensures least in top && forall i <- top :: uplift[least] <= uplift[i]
  {
    least :| least in top;
    if top != {least} {
      var rest := top - {least};
      var other := Least(uplift, rest);
      if uplift[other] < uplift[least] {
        least := other;
      }
    }
  }

  // ---- Outcomes of an assignment ----

  function Assignment(n: nat, chosen: set<nat>): seq<Policy> {
    seq(n, i requires 0 <= i < n => if i in chosen then Deliberate else Direct)
  }

  function DeliberateSet(assignment: seq<Policy>): set<nat> {
    set i | 0 <= i < |assignment| && assignment[i].Deliberate?
  }

  function Successes(pairs: seq<Pair>, assignment: seq<Policy>): int
    requires |assignment| == |pairs|
  {
    if pairs == [] then 0
    else
      var n := |pairs| - 1;
      Successes(pairs[..n], assignment[..n]) + Bit(RowOf(pairs[n], assignment[n]).success)
  }

  datatype Column = Tokens | ToolCalls | Messages

  function Cell(r: Row, c: Column): Option<int> {
    match c
    case Tokens => r.tokens
    case ToolCalls => r.toolCalls
    case Messages => r.messages
  }

  /** The observable costs of the assigned rows; missing ones are left out of their mean. */
  function Observable(pairs: seq<Pair>, assignment: seq<Policy>, c: Column): seq<int>
    requires |assignment| == |pairs|
  {
    if pairs == [] then []
    else
      var n := |pairs| - 1;
      var cell := Cell(RowOf(pairs[n], assignment[n]), c);
      Observable(pairs[..n], assignment[..n], c) + if cell.Some? then [cell.value] else []
  }

  function Total(values: seq<int>): int {
    if values == [] then 0 else Total(values[..|values| - 1]) + values[|values| - 1]
  }

  function Mean(values: seq<int>): Option<real> {
    if values == [] then None else Some(Total(values) as real / |values| as real)
  }

  datatype Aggregate = Aggregate(
    n: nat, successes: int, successRate: Option<real>,
    meanTokens: Option<real>, meanToolCalls: Option<real>, meanMessages: Option<real>, costN: nat)

  method AggregateWithAssignment(pairs: seq<Pair>, assignment: seq<Policy>) returns (result: Result<Aggregate>)
    ensures result.Err? <==> |assignment| != |pairs|
    ensures result.Ok? ==>
      var a := result.value;
      && a.n == |pairs| && a.successes == Successes(pairs, assignment)
      && a.successRate == (if pairs == [] then None else Some(Successes(pairs, assignment) as real / |pairs| as real))
      && a.meanTokens == Mean(Observable(pairs, assignment, Tokens))
      && a.meanToolCalls == Mean(Observable(pairs, assignment, ToolCalls))
      && a.meanMessages == Mean(Observable(pairs, assignment, Messages))
      && a.costN == |Observable(pairs, assignment, Tokens)|
  {
    if |assignment| != |pairs| {
      return Err("assignment length must equal the number of pairs");
    }
    var successes := 0;
    var tokens, tools, messages := [], [], [];
    for i := 0 to |assignment|
      invariant successes == Successes(pairs[..i], assignment[..i])
      invariant tokens == Observable(pairs[..i], assignment[..i], Tokens)
      invariant tools == Observable(pairs[..i], assignment[..i], ToolCalls)
      invariant messages == Observable(pairs[..i], assignment[..i], Messages)
    {
      assert pairs[..i + 1][..i] == pairs[..i] && assignment[..i + 1][..i] == assignment[..i];
      var row := RowOf(pairs[i], assignment[i]);
      if row.success {
        successes := successes + 1;
      }
      if row.tokens.Some? {
        tokens := tokens + [row.tokens.value];
      }
      if row.toolCalls.Some? {
        tools := tools + [row.toolCalls.value];
      }
      if row.messages.Some? {
        messages := messages + [row.messages.value];
      }
    }
    assert pairs[..|pairs|] == pairs && assignment[..|pairs|] == assignment;
    return Ok(Aggregate(|pairs|, successes,
                        if pairs == [] then None else Some(successes as real / |pairs| as real),
                        Mean(tokens), Mean(tools), Mean(messages), |tokens|));
  }

  function ObservedUplift(pairs: seq<Pair>): seq<real> {
    seq(|pairs|,
        i requires 0 <= i < |pairs| => (Bit(pairs[i].deliberate.success) - Bit(pairs[i].direct.success)) as real)
  }

  /** Successes are those of always-direct plus the observed uplift of the deliberate tasks. */
  lemma {:induction false} SuccessesByUplift(pairs: seq<Pair>, assignment: seq<Policy>)
    requires |assignment| == |pairs|
    ensures Successes(pairs, assignment) as real
         == Successes(pairs, Assignment(|pairs|, {})) as real + SumIn(ObservedUplift(pairs), DeliberateSet(assignment))
  {
    if pairs != [] {
      var n := |pairs| - 1;
      SuccessesByUplift(pairs[..n], assignment[..n]);
      assert ObservedUplift(pairs)[..n] == ObservedUplift(pairs[..n]);
      assert Assignment(|pairs|, {})[..n] == Assignment(n, {});
      assert DeliberateSet(assignment[..n]) == DeliberateSet(assignment) - {n};
      SumInDrops(ObservedUplift(pairs[..n]), DeliberateSet(assignment), n);
    }
  }

  lemma AssignmentChooses(n: nat, chosen: set<nat>)
    requires Indices(chosen, n)
    ensures DeliberateSet(Assignment(n, chosen)) == chosen
  {}

  function OracleAssignment(pairs: seq<Pair>, k: nat): seq<Policy> {
    Assignment(|pairs|, Top(pairs, ObservedUplift(pairs), k))
  }

  /** Main result: the oracle at budget k has at least as many successes as any assignment with
      exactly k deliberate tasks. */
  lemma OracleIsBestAtItsBudget(pairs: seq<Pair>, assignment: seq<Policy>, k: nat)
    requires |assignment| == |pairs| && |DeliberateSet(assignment)| == k <= |pairs|
    ensures Successes(pairs, assignment) <= Successes(pairs, OracleAssignment(pairs, k))
    ensures |DeliberateSet(OracleAssignment(pairs, k))| == k
  {
    var uplift := ObservedUplift(pairs);
    TopIsTop(pairs, uplift, k);
    AssignmentChooses(|pairs|, Top(pairs, uplift, k));
    TopMaximisesUplift(pairs, uplift, k, DeliberateSet(assignment));
    SuccessesByUplift(pairs, assignment);
    SuccessesByUplift(pairs, OracleAssignment(pairs, k));
  }

  function PerTaskOracle(pairs: seq<Pair>): int {
    if pairs == [] then 0
    else
      var n := |pairs| - 1;
      PerTaskOracle(pairs[..n]) + Bit(pairs[n].direct.success || pairs[n].deliberate.success)
  }

  function Regret(pairs: seq<Pair>, assignment: seq<Policy>): int
    requires |assignment| == |pairs|
  {
    PerTaskOracle(pairs) - Successes(pairs, assignment)
  }

  lemma {:induction false} RegretIsNonNegative(pairs: seq<Pair>, assignment: seq<Policy>)
    requires |assignment| == |pairs|
    ensures Regret(pairs, assignment) >= 0
  {
    if pairs != [] {
      var n := |pairs| - 1;
      RegretIsNonNegative(pairs[..n], assignment[..n]);
    }
  }

  /** Deliberate wherever that succeeds. */
  function BestPerTask(pairs: seq<Pair>): seq<Policy> {
    seq(|pairs|, i requires 0 <= i < |pairs| => if pairs[i].deliberate.success then Deliberate else Direct)
  }

  /** The per-task oracle is attained, and counts the tasks on which some policy succeeds. */
  lemma {:induction false} OracleIsAttained(pairs: seq<Pair>)
    ensures Regret(pairs, BestPerTask(pairs)) == 0
    ensures PerTaskOracle(pairs) == |SolvedTasks(pairs)|
  {
    if pairs != [] {
      var n := |pairs| - 1;
      OracleIsAttained(pairs[..n]);
      assert BestPerTask(pairs)[..n] == BestPerTask(pairs[..n]);
      if pairs[n].direct.success || pairs[n].deliberate.success {
        assert SolvedTasks(pairs) == SolvedTasks(pairs[..n]) + {n};
      } else {
        assert SolvedTasks(pairs) == SolvedTasks(pairs[..n]);
      }
    }
  }

  ghost function SolvedTasks(pairs: seq<Pair>): set<nat> {
    set i: nat | i < |pairs| && (pairs[i].direct.success || pairs[i].deliberate.success)
  }

  // ---- The neural choice and its budget ----

  /** Half-up rounding of fraction * n, clamped to 0..n. */
  function BudgetK(fraction: real, n: nat): int {
    var rounded := (fraction * n as real + 0.5).Floor;
    var upper := if rounded < n then rounded else n;
    if upper > 0 then upper else 0
  }

  /** The clamp never bites: k is a nearest integer to fraction * n. */
  lemma BudgetIsNearest(fraction: real, n: nat)
    requires 0.0 <= fraction <= 1.0
    ensures var k := BudgetK(fraction, n);
      && 0 <= k <= n && k == (fraction * n as real + 0.5).Floor
      && -0.5 < k as real - fraction * n as real <= 0.5
  {
    var x := fraction * n as real;
    PartOf(fraction, n as real);
  }

  function SelectedIds(pairs: seq<Pair>, chosen: set<nat>): seq<string> {
    if pairs == [] then []
    else
      var n := |pairs| - 1;
      SelectedIds(pairs[..n], chosen) + if n in chosen then [pairs[n].taskId] else []
  }

  function SelectDeliberateTasks(pairs: seq<Pair>, uplift: seq<real>, fraction: real): Result<(seq<string>, int)> {
    if pairs == [] then Err("cannot select deliberate tasks from an empty pair list")
    else if |uplift| != |pairs| then Err("uplift must have one value per paired task")
    else if !(0.0 <= fraction <= 1.0) then Err("deliberate_fraction must be in [0, 1]")
    else
      var k := BudgetK(fraction, |pairs|);
      Ok((SelectedIds(pairs, Top(pairs, uplift, if k > 0 then k else 0)), k))
  }

  /** How the comparison turns selected ids back into an assignment. */
  function AssignmentOfIds(pairs: seq<Pair>, ids: seq<string>): seq<Policy> {
    seq(|pairs|, i requires 0 <= i < |pairs| => if pairs[i].taskId in ids then Deliberate else Direct)
  }

  lemma {:induction false} SelectedIdsNameTheChosen(pairs: seq<Pair>, chosen: set<nat>)
    ensures forall id <- SelectedIds(pairs, chosen) ::
      exists i :: 0 <= i < |pairs| && i in chosen && pairs[i].taskId == id
    ensures forall i :: 0 <= i < |pairs| && i in chosen ==> pairs[i].taskId in SelectedIds(pairs, chosen)
  {
    if pairs != [] {
      SelectedIdsNameTheChosen(pairs[..|pairs| - 1], chosen);
      var n := |pairs| - 1;
      forall id <- SelectedIds(pairs, chosen)
        ensures exists i :: 0 <= i < |pairs| && i in chosen && pairs[i].taskId == id
      {
        if id in SelectedIds(pairs[..n], chosen) {
          var i :| 0 <= i < n && i in chosen && pairs[..n][i].taskId == id;
          assert pairs[i].taskId == id;
        } else {
          assert n in chosen && pairs[n].taskId == id;
        }
      }
    }
  }

  /** The selected ids and their assignment stand for exactly k deliberate tasks: those on top. */
  lemma SelectionHasExactlyK(pairs: seq<Pair>, uplift: seq<real>, fraction: real)
    requires DistinctTasks(pairs) && SelectDeliberateTasks(pairs, uplift, fraction).Ok?
    ensures var (ids, k) := SelectDeliberateTasks(pairs, uplift, fraction).value;
      && 0 <= k <= |pairs|
      && DeliberateSet(AssignmentOfIds(pairs, ids)) == Top(pairs, uplift, k)
      && |DeliberateSet(AssignmentOfIds(pairs, ids))| == k
  {
    var (ids, k) := SelectDeliberateTasks(pairs, uplift, fraction).value;
    BudgetIsNearest(fraction, |pairs|);
    TopIsTop(pairs, uplift, k);
    var top := Top(pairs, uplift, k);
    SelectedIdsNameTheChosen(pairs, top);
    assert DeliberateSet(AssignmentOfIds(pairs, ids)) == top by {
      forall i | 0 <= i < |pairs| && pairs[i].taskId in ids ensures i in top {
        var j :| 0 <= j < |pairs| && j in top && pairs[j].taskId == pairs[i].taskId;
        assert i == j;
      }
    }
  }

  /** Main result: the neural choice never beats the oracle at the same budget, and its own
      predicted total uplift is the largest any k tasks could have. */
  lemma NeuralChoiceIsBounded(pairs: seq<Pair>, uplift: seq<real>, fraction: real, other: set<nat>)
    requires DistinctTasks(pairs) && SelectDeliberateTasks(pairs, uplift, fraction).Ok?
    requires Indices(other, |pairs|) && |other| == SelectDeliberateTasks(pairs, uplift, fraction).value.1
    ensures var (ids, k) := SelectDeliberateTasks(pairs, uplift, fraction).value;
      var neural := AssignmentOfIds(pairs, ids);
      && Successes(pairs, neural) <= Successes(pairs, OracleAssignment(pairs, k))
      && SumIn(uplift, other) <= SumIn(uplift, DeliberateSet(neural))
  {
    var (ids, k) := SelectDeliberateTasks(pairs, uplift, fraction).value;
    SelectionHasExactlyK(pairs, uplift, fraction);
    OracleIsBestAtItsBudget(pairs, AssignmentOfIds(pairs, ids), k);
    TopMaximisesUplift(pairs, uplift, k, other);
  }

  /** Totals over the subsets drawn. */
  function TrialSuccesses(pairs: seq<Pair>, trials: seq<set<nat>>): int {
    if trials == [] then 0
    else
      var n := |trials| - 1;
      TrialSuccesses(pairs, trials[..n]) + Successes(pairs, Assignment(|pairs|, trials[n]))
  }

  function TrialRegret(pairs: seq<Pair>, trials: seq<set<nat>>): int {
    if trials == [] then 0
    else
      var n := |trials| - 1;
      TrialRegret(pairs, trials[..n]) + Regret(pairs, Assignment(|pairs|, trials[n]))
  }

  lemma TrialsSnoc(pairs: seq<Pair>, trials: seq<set<nat>>, trial: set<nat>)
    ensures TrialSuccesses(pairs, trials + [trial])
         == TrialSuccesses(pairs, trials) + Successes(pairs, Assignment(|pairs|, trial))
    ensures TrialRegret(pairs, trials + [trial])
         == TrialRegret(pairs, trials) + Regret(pairs, Assignment(|pairs|, trial))
  {
    assert (trials + [trial])[..|trials|] == trials;
  }

  /** Whatever k-subsets the random mix draws, their mean success never exceeds the oracle's, and their
      mean regret is never less. */
  lemma {:induction false} RandomMixIsBounded(pairs: seq<Pair>, k: nat, trials: seq<set<nat>>)
    requires k <= |pairs|
    requires forall t <- trials :: Indices(t, |pairs|) && |t| == k
    ensures TrialSuccesses(pairs, trials) <= |trials| * Successes(pairs, OracleAssignment(pairs, k))
    ensures TrialRegret(pairs, trials) >= |trials| * Regret(pairs, OracleAssignment(pairs, k))
    ensures trials != [] ==>
      TrialSuccesses(pairs, trials) as real / |trials| as real <= Successes(pairs, OracleAssignment(pairs, k)) as real
  {
    hide Top, Successes, PerTaskOracle;
    var oracle := OracleAssignment(pairs, k);
    if trials != [] {
      var n := |trials| - 1;
      RandomMixIsBounded(pairs, k, trials[..n]);
      TrialIsBounded(pairs, k, trials[n]);
      OneMore(|trials|, Successes(pairs, oracle));
      OneMore(|trials|, Regret(pairs, oracle));
      MeanBound(TrialSuccesses(pairs, trials), |trials|, Successes(pairs, oracle));
    }
  }

  lemma TrialIsBounded(pairs: seq<Pair>, k: nat, trial: set<nat>)
    requires k <= |pairs| && Indices(trial, |pairs|) && |trial| == k
    ensures Successes(pairs, Assignment(|pairs|, trial)) <= Successes(pairs, OracleAssignment(pairs, k))
  {
    hide OracleAssignment, Successes;
    AssignmentChooses(|pairs|, trial);
    OracleIsBestAtItsBudget(pairs, Assignment(|pairs|, trial), k);
  }

  lemma OneMore(count: nat, best: int)
    ensures count * best == (count - 1) * best + best
  {}

  lemma MeanBound(total: int, count: nat, best: int)
    requires count > 0 && total <= count * best
    ensures total as real / count as real <= best as real
  {
    assert total as real <= count as real * best as real;
    assert (count as real * best as real - total as real) / count as real >= 0.0;
  }

  // ---- Cost-adjusted uplift ----

  function Scaled(uplift: seq<real>, c: real): seq<real>
    requires c != 0.0
  {
    seq(|uplift|, i requires 0 <= i < |uplift| => uplift[i] / c)
  }

  /** Dividing every uplift by the same positive cost changes no selection. */
  lemma CostAdjustmentKeepsSelection(pairs: seq<Pair>, uplift: seq<real>, fraction: real, c: real)
    requires c > 0.0 && |uplift| == |pairs|
    ensures SelectDeliberateTasks(pairs, Scaled(uplift, c), fraction) == SelectDeliberateTasks(pairs, uplift, fraction)
  {
    var f := (e: Entry) => e.(uplift := e.uplift / c);
    assert Entries(pairs, Scaled(uplift, c)) == Mapped(f, Entries(pairs, uplift));
    forall a: Entry, b: Entry ensures Ahead(f(a), f(b)) == Ahead(a, b) {
      DivisionKeepsOrder(a.uplift, b.uplift, c);
    }
    SortMapped(Ahead, Ahead, f, Entries(pairs, uplift));
    forall k: nat ensures Top(pairs, Scaled(uplift, c), k) == Top(pairs, uplift, k) {
      var ranked := Ranked(pairs, uplift);
      MappedIndices(f, if k <= |ranked| then ranked[..k] else ranked);
      if k <= |ranked| {
        assert Mapped(f, ranked)[..k] == Mapped(f, ranked[..k]);
      }
    }
  }

  lemma DivisionKeepsOrder(a: real, b: real, c: real)
    requires c > 0.0
    ensures a / c > b / c <==> a > b
    ensures a / c == b / c <==> a == b
  {
    assert a == (a / c) * c && b == (b / c) * c;
  }

  lemma MappedIndices(f: Entry -> Entry, entries: seq<Entry>)
    requires forall e :: f(e).index == e.index
    ensures IndexSet(Mapped(f, entries)) == IndexSet(entries)
  {
    var mapped := Mapped(f, entries);
    forall x ensures x in IndexSet(mapped) <==> x in IndexSet(entries) {
      if e :| e in entries && e.index == x {
        var i :| 0 <= i < |entries| && entries[i] == e;
        assert mapped[i] in mapped && mapped[i].index == x;
      }
      if e :| e in mapped && e.index == x {
        var i :| 0 <= i < |mapped| && mapped[i] == e;
        assert entries[i] in entries && entries[i].index == x;
      }
    }
  }

  // ---- All strategies side by side ----

  ghost predicate DrawsKSubsets(n: nat, draw: (nat, nat) -> set<nat>) {
    forall k: nat, t: nat :: k <= n ==> Indices(draw(k, t), n) && |draw(k, t)| == k
  }

  datatype Strategy = Strategy(successes: int, regret: int)

  datatype Comparison = Comparison(
    k: nat, alwaysDirect: Strategy, alwaysDeliberate: Strategy, neural: Strategy, oracle: Strategy,
    randomMix: Strategy, trials: nat)

  function Outcome(pairs: seq<Pair>, assignment: seq<Policy>): Strategy
    requires |assignment| == |pairs|
  {
    Strategy(Successes(pairs, assignment), Regret(pairs, assignment))
  }

  lemma {:induction false} TasksOfIndices(pairs: seq<Pair>, chosen: set<nat>)
    requires DistinctTasks(pairs) && Indices(chosen, |pairs|)
    ensures |set i | i in chosen :: pairs[i].taskId| == |chosen|
  {
    var tasks := set i | i in chosen :: pairs[i].taskId;
    if chosen != {} {
      var i :| i in chosen;
      TasksOfIndices(pairs, chosen - {i});
      var fewer := set j | j in chosen - {i} :: pairs[j].taskId;
      assert tasks == fewer + {pairs[i].taskId};
      assert pairs[i].taskId !in fewer;
    }
  }

  /** With known ids, the number of distinct ids is the number of deliberate tasks. */
  lemma SelectionSize(pairs: seq<Pair>, ids: seq<string>)
    requires DistinctTasks(pairs)
    requires forall id <- ids :: exists i :: 0 <= i < |pairs| && pairs[i].taskId == id
    ensures |DeliberateSet(AssignmentOfIds(pairs, ids))| == |set id | id in ids| <= |pairs|
  {
    var chosen := DeliberateSet(AssignmentOfIds(pairs, ids));
    TasksOfIndices(pairs, chosen);
    assert (set i | i in chosen :: pairs[i].taskId) == (set id | id in ids);
    IndexCount(chosen, |pairs|);
  }

  lemma {:induction false} IndexCount(chosen: set<nat>, n: nat)
    requires Indices(chosen, n)
    ensures |chosen| <= n
  {
    if n > 0 {
      IndexCount(chosen - {n - 1}, n - 1);
    } else {
      assert chosen == {};
    }
  }

  /** The subsets drawn in the trials of a random mix. */
  function Drawn(draw: (nat, nat) -> set<nat>, k: nat, trials: nat): seq<set<nat>> {
    seq(trials, t requires 0 <= t < trials => draw(k, t))
  }

  lemma DrawnSnoc(draw: (nat, nat) -> set<nat>, k: nat, trials: nat)
    ensures Drawn(draw, k, trials + 1) == Drawn(draw, k, trials) + [draw(k, trials)]
  {}

  /** `randomMix` totals its trials; the means that are reported divide both by their number. */
  method CompareStrategies(pairs: seq<Pair>, ids: seq<string>, randomTrials: int, bootstrapTrials: int,
                           draw: (nat, nat) -> set<nat>)
    returns (result: Result<Comparison>)
    requires DistinctTasks(pairs) && DrawsKSubsets(|pairs|, draw)
    ensures result.Ok? <==>
      (pairs != [] && randomTrials >= 1 && bootstrapTrials >= 1
       && forall id <- ids :: exists i :: 0 <= i < |pairs| && pairs[i].taskId == id)
    ensures result.Ok? ==>
      var c := result.value;
      && c.k == |DeliberateSet(AssignmentOfIds(pairs, ids))|
      && c.neural == Outcome(pairs, AssignmentOfIds(pairs, ids))
      && c.oracle == Outcome(pairs, OracleAssignment(pairs, c.k))
      && c.alwaysDirect == Outcome(pairs, Assignment(|pairs|, {}))
      && c.alwaysDeliberate == Outcome(pairs, seq(|pairs|, _ => Deliberate))
      && c.trials == randomTrials
      && c.randomMix == Strategy(TrialSuccesses(pairs, Drawn(draw, c.k, c.trials)),
                                 TrialRegret(pairs, Drawn(draw, c.k, c.trials)))
    ensures result.Ok? ==>
      var c := result.value;
      && c.neural.successes <= c.oracle.successes && c.randomMix.successes <= c.trials * c.oracle.successes
      && 0 <= c.oracle.regret <= c.neural.regret && 0 <= c.alwaysDirect.regret && 0 <= c.alwaysDeliberate.regret
      && c.randomMix.regret >= c.trials * c.oracle.regret
  {
    hide Successes, PerTaskOracle, Top;
    if pairs == [] || randomTrials < 1 || bootstrapTrials < 1 {
      return Err("nothing to compare");
    }
    for i := 0 to |ids|
      invariant forall j :: 0 <= j < i ==> exists p :: 0 <= p < |pairs| && pairs[p].taskId == ids[j]
    {
      if !exists p :: 0 <= p < |pairs| && pairs[p].taskId == ids[i] {
        assert ids[i] in ids;
        return Err("selected task ids are not among the paired tasks");
      }
    }
    var neural := AssignmentOfIds(pairs, ids);
    var k := |set id | id in ids|;
    SelectionSize(pairs, ids);
    var oracle := OracleAssignment(pairs, k);
    OracleIsBestAtItsBudget(pairs, neural, k);
    var direct, deliberate := Assignment(|pairs|, {}), seq(|pairs|, _ => Deliberate);
    RegretIsNonNegative(pairs, oracle);
    RegretIsNonNegative(pairs, direct);
    RegretIsNonNegative(pairs, deliberate);
    var mix := RandomMix(pairs, k, randomTrials, draw);
    RandomMixIsBounded(pairs, k, Drawn(draw, k, randomTrials));
    result := Ok(Comparison(k, Outcome(pairs, direct), Outcome(pairs, deliberate), Outcome(pairs, neural),
                            Outcome(pairs, oracle), mix, randomTrials));
  }

  method RandomMix(pairs: seq<Pair>, k: nat, trials: nat, draw: (nat, nat) -> set<nat>) returns (mix: Strategy)
    ensures mix == Strategy(TrialSuccesses(pairs, Drawn(draw, k, trials)), TrialRegret(pairs, Drawn(draw, k, trials)))
  {
    hide Successes, Regret, TrialSuccesses, TrialRegret, Drawn;
    NothingDrawn(pairs, draw, k);
    var successes, regret := 0, 0;
    for t := 0 to trials
      invariant successes == TrialSuccesses(pairs, Drawn(draw, k, t)) && regret == TrialRegret(pairs, Drawn(draw, k, t))
    {
      DrawnSnoc(draw, k, t);
      TrialsSnoc(pairs, Drawn(draw, k, t), draw(k, t));
      var trial := Assignment(|pairs|, draw(k, t));
      successes := successes + Successes(pairs, trial);
      regret := regret + Regret(pairs, trial);
    }
    mix := Strategy(successes, regret);
  }

  lemma NothingDrawn(pairs: seq<Pair>, draw: (nat, nat) -> set<nat>, k: nat)
    ensures TrialSuccesses(pairs, Drawn(draw, k, 0)) == 0 && TrialRegret(pairs, Drawn(draw, k, 0)) == 0
  {}
}
