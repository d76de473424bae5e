/** The auditor of budget receipts, and when it accepts what the extension writes. */
module BudgetAudit {
  import opened Budget
  import opened Common

  /** One normalised tool execution as the auditor sees it. */
  datatype TraceEntry = TraceEntry(id: string, budgetRejected: bool, operationAborted: bool, preExecutionRejected: bool)
  {
    predicate Blocked() { budgetRejected || operationAborted }
    predicate Executed() { !Blocked() && !preExecutionRejected }
  }

  function TraceIds(trace: seq<TraceEntry>): seq<string> {
    seq(|trace|, i requires 0 <= i < |trace| => trace[i].id)
  }

  function ExecutedIds(trace: seq<TraceEntry>): seq<string> {
    if trace == [] then []
    else (if trace[0].Executed() then [trace[0].id] else []) + ExecutedIds(trace[1..])
  }

  function Elements(ids: seq<string>): set<string> {
    set x | x in ids
  }

  predicate ValidIds(ids: seq<string>) {
    "" !in ids && |Elements(ids)| == |ids|
  }

  function Readable(ids: seq<string>): seq<string> {
    if ValidIds(ids) then ids else []
  }

  /** What a receipt has to say for a budget of `k` admitted tool calls, stated without the
      order or redundancy of the individual checks. */
  ghost predicate ReceiptOk(r: Receipt, trace: seq<TraceEntry>, providerTurns: int, k: nat) {
    && r.violations == []
    && ValidIds(r.attemptIds) && ValidIds(r.admittedIds) && ValidIds(r.executedIds)
    && ValidIds(r.rejectedIds) && ValidIds(r.suppressedIds)
    && r.turnLimit == r.attemptLimit == k + 1 && r.admissionLimit == k
    && 1 <= r.admissions <= k + 1 && 0 <= r.blocks <= 1
    && r.gateChecks == r.admissions + r.blocks && providerTurns == r.admissions
    && r.attemptCount == |r.attemptIds| <= k + 1
    && r.executedCount == |r.executedIds| <= r.admittedCount == |r.admittedIds| <= k
    && r.rejectedCount == |r.rejectedIds| == r.attemptCount - r.admittedCount
    && r.suppressedCount == |r.suppressedIds|
    && Included(r.admittedIds, r.attemptIds) && Included(r.executedIds, r.admittedIds)
    && r.rejectedIds == Without(r.attemptIds, r.admittedIds)
    && Apart(r.suppressedIds, r.attemptIds)
    && TraceOk(r, trace)
  }

  ghost predicate Apart(a: seq<string>, b: seq<string>) {
    forall x <- a :: x !in b
  }

  /** One execution per attempt, with the same ids, and the executed ones in order. */
  predicate TraceFits(attempts: seq<string>, executed: seq<string>, trace: seq<TraceEntry>) {
    && |trace| == |attempts| && Elements(TraceIds(trace)) == Elements(attempts)
    && ExecutedIds(trace) == executed
  }

  ghost predicate TraceOk(r: Receipt, trace: seq<TraceEntry>) {
    TraceFits(r.attemptIds, r.executedIds, trace)
  }

  /** The checks one by one, growing a list of problems. */
  method BudgetReceiptErrors(r: Receipt, trace: seq<TraceEntry>, providerTurns: int, k: nat)
    returns (errors: seq<string>)
    ensures errors == [] <==> ReceiptOk(r, trace, providerTurns, k)
  {
    errors := [];
    var counts := [
      ("provider_turn_limit", r.turnLimit), ("provider_request_admissions", r.admissions),
      ("provider_request_blocks", r.blocks), ("provider_gate_checks", r.gateChecks),
      ("tool_attempt_limit", r.attemptLimit), ("tool_attempt_count", r.attemptCount),
      ("tool_admission_limit", r.admissionLimit), ("admitted_tool_call_count", r.admittedCount),
      ("executed_tool_call_count", r.executedCount),
      ("pre_admission_rejected_tool_call_count", r.rejectedCount),
      ("suppressed_tool_request_count", r.suppressedCount)];
    for i := 0 to |counts|
      invariant errors == [] <==> forall j :: 0 <= j < i ==> counts[j].1 >= 0
    {
      if counts[i].1 < 0 {
        errors := errors + [counts[i].0 + " invalid"];
      }
    }
    assert errors == [] <==> CountsValid(r) by { CountsAreListed(r, counts); }
    var lists := [
      ("tool_attempt_ids", r.attemptIds), ("admitted_tool_call_ids", r.admittedIds),
      ("executed_tool_call_ids", r.executedIds),
      ("pre_admission_rejected_tool_call_ids", r.rejectedIds),
      ("suppressed_tool_request_ids", r.suppressedIds)];
    for i := 0 to |lists|
      invariant errors == [] <==> CountsValid(r) && forall j :: 0 <= j < i ==> ValidIds(lists[j].1)
    {
      if !ValidIds(lists[i].1) {
        errors := errors + [lists[i].0 + " invalid"];
      }
    }
    assert errors == [] <==> CountsValid(r) && ListsValid(r) by { ListsAreListed(r, lists); }

    if r.violations != [] {
      errors := errors + ["invariant violation"];
    }
    var providerErrors := ProviderErrors(r, providerTurns, k);
    var toolErrors := ToolErrors(r, k);
    var lengthErrors := LengthErrors(r);
    var idErrors := IdErrors(r, trace);
    errors := errors + providerErrors + toolErrors + lengthErrors + idErrors;
  }

  predicate CountsValid(r: Receipt) {
    && r.turnLimit >= 0 && r.admissions >= 0 && r.blocks >= 0 && r.gateChecks >= 0
    && r.attemptLimit >= 0 && r.attemptCount >= 0 && r.admissionLimit >= 0 && r.admittedCount >= 0
    && r.executedCount >= 0 && r.rejectedCount >= 0 && r.suppressedCount >= 0
  }

  lemma CountsAreListed(r: Receipt, counts: seq<(string, int)>)
    requires |counts| == 11
    requires counts[0].1 == r.turnLimit && counts[1].1 == r.admissions && counts[2].1 == r.blocks
    requires counts[3].1 == r.gateChecks && counts[4].1 == r.attemptLimit && counts[5].1 == r.attemptCount
    requires counts[6].1 == r.admissionLimit && counts[7].1 == r.admittedCount && counts[8].1 == r.executedCount
    requires counts[9].1 == r.rejectedCount && counts[10].1 == r.suppressedCount
    ensures CountsValid(r) <==> forall j :: 0 <= j < |counts| ==> counts[j].1 >= 0
  {}

  predicate ListsValid(r: Receipt) {
    && ValidIds(r.attemptIds) && ValidIds(r.admittedIds) && ValidIds(r.executedIds)
    && ValidIds(r.rejectedIds) && ValidIds(r.suppressedIds)
  }

  lemma ListsAreListed(r: Receipt, lists: seq<(string, seq<string>)>)
    requires |lists| == 5
    requires lists[0].1 == r.attemptIds && lists[1].1 == r.admittedIds && lists[2].1 == r.executedIds
    requires lists[3].1 == r.rejectedIds && lists[4].1 == r.suppressedIds
    ensures ListsValid(r) <==> forall j :: 0 <= j < |lists| ==> ValidIds(lists[j].1)
  {}

  method ProviderErrors(r: Receipt, providerTurns: int, k: nat) returns (errors: seq<string>)
    ensures CountsValid(r) ==> (errors == [] <==>
      && r.turnLimit == k + 1 && 1 <= r.admissions <= k + 1 && r.blocks <= 1
      && r.gateChecks == r.admissions + r.blocks && providerTurns == r.admissions)
  {
    errors := [];
    if r.turnLimit != k + 1 {
      errors := errors + ["provider turn limit mismatch"];
    }
    if r.admissions >= 0 && !(1 <= r.admissions <= k + 1) {
      errors := errors + ["provider admissions out of bounds"];
    }
    if r.blocks >= 0 && r.blocks !in {0, 1} {
      errors := errors + ["provider blocks out of bounds"];
    }
    if r.admissions >= 0 && r.blocks >= 0 && r.gateChecks != r.admissions + r.blocks {
      errors := errors + ["provider gate accounting mismatch"];
    }
    if r.gateChecks > k + 2 {
      errors := errors + ["provider gate checks exceed bound"];
    }
    if r.admissions >= 0 && providerTurns != r.admissions {
      errors := errors + ["provider turns do not match budget receipt"];
    }
  }

  method ToolErrors(r: Receipt, k: nat) returns (errors: seq<string>)
    ensures CountsValid(r) ==> (errors == [] <==>
      && r.attemptLimit == k + 1 && r.admissionLimit == k
      && r.attemptCount <= k + 1 && r.executedCount <= r.admittedCount <= k
      && r.rejectedCount == r.attemptCount - r.admittedCount)
  {
    errors := [];
    if r.attemptLimit != k + 1 {
      errors := errors + ["tool attempt limit mismatch"];
    }
    if r.admissionLimit != k {
      errors := errors + ["tool admission limit mismatch"];
    }
    if r.attemptCount > k + 1 {
      errors := errors + ["tool attempts exceed bound"];
    }
    if r.admittedCount > k {
      errors := errors + ["tool admissions exceed bound"];
    }
    if r.executedCount >= 0 && r.admittedCount >= 0 && r.executedCount > r.admittedCount {
      errors := errors + ["executions exceed admissions"];
    }
    if r.attemptCount >= 0 && r.admittedCount >= 0
      && (r.rejectedCount < 0 || r.rejectedCount != r.attemptCount - r.admittedCount) {
      errors := errors + ["rejection accounting mismatch"];
    }
  }

  method LengthErrors(r: Receipt) returns (errors: seq<string>)
    ensures CountsValid(r) && ListsValid(r) ==> (errors == [] <==>
      && r.attemptCount == |r.attemptIds| && r.admittedCount == |r.admittedIds|
      && r.executedCount == |r.executedIds| && r.rejectedCount == |r.rejectedIds|
      && r.suppressedCount == |r.suppressedIds|)
  {
    errors := [];
    var pairs := [
      (r.attemptIds, r.attemptCount), (r.admittedIds, r.admittedCount), (r.executedIds, r.executedCount),
      (r.rejectedIds, r.rejectedCount), (r.suppressedIds, r.suppressedCount)];
    assert forall j :: 0 <= j < 5 ==>
      pairs[j].0 in {r.attemptIds, r.admittedIds, r.executedIds, r.rejectedIds, r.suppressedIds};
    for i := 0 to |pairs|
      invariant CountsValid(r) && ListsValid(r) ==>
        (errors == [] <==> forall j :: 0 <= j < i ==> pairs[j].1 == |pairs[j].0|)
    {
      if ValidIds(pairs[i].0) && pairs[i].1 >= 0 && |pairs[i].0| != pairs[i].1 {
        errors := errors + ["count mismatch"];
      }
    }
    assert (forall j :: 0 <= j < 5 ==> pairs[j].1 == |pairs[j].0|) ==>
      && pairs[0].1 == |pairs[0].0| && pairs[1].1 == |pairs[1].0| && pairs[2].1 == |pairs[2].0|
      && pairs[3].1 == |pairs[3].0| && pairs[4].1 == |pairs[4].0|;
  }

  method IdErrors(r: Receipt, trace: seq<TraceEntry>) returns (errors: seq<string>)
    ensures ListsValid(r) ==> (errors == [] <==>
      && Included(r.admittedIds, r.attemptIds) && Included(r.executedIds, r.admittedIds)
      && r.rejectedIds == Without(r.attemptIds, r.admittedIds)
      && Apart(r.suppressedIds, r.attemptIds) && TraceOk(r, trace))
  {
    hide ValidIds, TraceFits, Without, Apart, Included;
    var attempts, admitted, executed := Readable(r.attemptIds), Readable(r.admittedIds), Readable(r.executedIds);
    var listErrors := ListErrors(attempts, admitted, executed, Readable(r.rejectedIds), Readable(r.suppressedIds));
    var traceErrors := TraceErrors(attempts, executed, trace);
    errors := listErrors + traceErrors;
  }

  method ListErrors(attempts: seq<string>, admitted: seq<string>, executed: seq<string>, rejected: seq<string>,
                    suppressed: seq<string>)
    returns (errors: seq<string>)
    ensures errors == [] <==>
      (&& Included(admitted, attempts) && Included(executed, admitted)
       && rejected == Without(attempts, admitted) && Apart(suppressed, attempts))
  {
    hide Noted, Without;
    errors := Noted([], exists x <- admitted :: x !in attempts, "admission without attempt");
    errors := Noted(errors, exists x <- executed :: x !in admitted, "execution without admission");
    errors := Noted(errors, rejected != Without(attempts, admitted), "rejected id partition mismatch");
    errors := Noted(errors, exists x <- suppressed :: x in attempts, "suppressed request was attempted");
  }

  method TraceErrors(attempts: seq<string>, executed: seq<string>, trace: seq<TraceEntry>)
    returns (errors: seq<string>)
    ensures errors == [] <==> TraceFits(attempts, executed, trace)
  {
    var traceIds := TraceIds(trace);
    errors := Noted([], |traceIds| != |attempts| || Elements(traceIds) != Elements(attempts),
                    "tool trace does not match budget receipt");
    errors := Noted(errors, ExecutedIds(trace) != executed, "executed tools do not match budget receipt");
  }

  // ---- Counting ids ----

  lemma DistinctSize(ids: seq<string>)
    ensures Unique(ids) <==> |Elements(ids)| == |ids|
    ensures |Elements(ids)| <= |ids|
  {
    DistinctCount(ids);
  }

  lemma {:induction false} WithoutElements(ids: seq<string>, removed: seq<string>)
    ensures Elements(Without(ids, removed)) == Elements(ids) - Elements(removed)
    ensures Unique(ids) ==> Unique(Without(ids, removed))
  {
    if ids != [] {
      WithoutElements(ids[1..], removed);
      assert Elements(ids) == {ids[0]} + Elements(ids[1..]);
      var tail := Without(ids[1..], removed);
      var head := if ids[0] in removed then [] else [ids[0]];
      assert Elements(head + tail) == Elements(head) + Elements(tail);
      if Unique(ids) {
        assert forall i, j :: 0 <= i < j < |ids[1..]| ==> ids[1..][i] == ids[i + 1] && ids[1..][j] == ids[j + 1];
        assert ids[0] !in ids[1..];
        assert ids[0] !in Elements(tail);
      }
    }
  }

  /** The rejected ids of a receipt are counted by attempts minus admissions. */
  lemma RejectedCount(s: State)
    requires Unique(s.attemptIds) && Unique(s.admittedIds) && Included(s.admittedIds, s.attemptIds)
    ensures |Without(s.attemptIds, s.admittedIds)| == |s.attemptIds| - |s.admittedIds|
  {
    var rejected := Without(s.attemptIds, s.admittedIds);
    WithoutElements(s.attemptIds, s.admittedIds);
    DistinctSize(s.attemptIds);
    DistinctSize(s.admittedIds);
    DistinctSize(rejected);
    assert Elements(s.admittedIds) <= Elements(s.attemptIds);
    assert |Elements(s.attemptIds) - Elements(s.admittedIds)| == |Elements(s.attemptIds)| - |Elements(s.admittedIds)|;
  }

  // ---- The verdict on what the extension writes ----

  /** A state whose receipt will pass: what only the host or the model can spoil. */
  ghost predicate Auditable(s: State) {
    && s.violations == []
    && s.admissions >= 1
    && "" !in s.attemptIds && "" !in s.suppressedIds
    && Apart(s.suppressedIds, s.attemptIds)
  }

  /** Main result, with no assumption about the host: after any events whatever, the receipt
      passes exactly when the recorded violations are empty, a request was admitted, no
      attempted or suppressed call has an empty id and no suppressed call was attempted.
      Every other clause of the auditor is implied. */
  lemma ReceiptVerdict(c: Config, events: seq<Event>, k: nat, trace: seq<TraceEntry>, providerTurns: int)
    ensures var s := Run(c, FRESH, events);
      ReceiptOk(MakeReceipt(c, s), trace, providerTurns, k) <==>
        && c == Config(k + 1, k)
        && Auditable(s)
        && providerTurns == s.admissions
        && TraceOk(MakeReceipt(c, s), trace)
  {
    RunKeepsAccounted(c, FRESH, events);
    var s := Run(c, FRESH, events);
    DistinctSize(s.attemptIds);
    DistinctSize(s.admittedIds);
    DistinctSize(s.executedIds);
    DistinctSize(s.suppressedIds);
    if s.violations == [] {
      RejectedCount(s);
      WithoutElements(s.attemptIds, s.admittedIds);
      DistinctSize(Without(s.attemptIds, s.admittedIds));
      ExecutedWithinAdmitted(s);
      if "" !in s.attemptIds {
        assert "" !in Elements(Without(s.attemptIds, s.admittedIds));
      }
    }
  }

  lemma ExecutedWithinAdmitted(s: State)
    requires Unique(s.executedIds) && Unique(s.admittedIds) && Included(s.executedIds, s.admittedIds)
    ensures |s.executedIds| <= |s.admittedIds|
  {
    DistinctSize(s.executedIds);
    DistinctSize(s.admittedIds);
    SubsetSize(Elements(s.executedIds), Elements(s.admittedIds));
  }
}
