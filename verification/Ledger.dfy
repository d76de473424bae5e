/** The baseline ledger: one record per panel in manifest order, each carrying its reserved and
    consumed budget. */
module Ledger {
  import opened Common
  import opened Budget
  import opened BudgetAudit
  import opened Lines

  /** Frozen limits of one execution: panels, admitted tool calls and output tokens per turn. */
  datatype Limits = Limits(panels: nat, toolCalls: nat, tokensPerTurn: nat, wallSeconds: nat)

  datatype Capacity = Capacity(
    attempts: int, turns: int, gateChecks: int, outputTokens: int, toolAttempts: int, admitted: int, wallSeconds: int)

  function Plus(a: Capacity, b: Capacity): Capacity {
    Capacity(a.attempts + b.attempts, a.turns + b.turns, a.gateChecks + b.gateChecks,
             a.outputTokens + b.outputTokens, a.toolAttempts + b.toolAttempts,
             a.admitted + b.admitted, a.wallSeconds + b.wallSeconds)
  }

  const NOTHING := Capacity(0, 0, 0, 0, 0, 0, 0)

  function Reserved(l: Limits): Capacity {
    Capacity(1, l.toolCalls + 1, l.toolCalls + 2, (l.toolCalls + 1) * l.tokensPerTurn,
             l.toolCalls + 1, l.toolCalls, l.wallSeconds)
  }

  function Scaled(n: int, c: Capacity): Capacity {
    Capacity(n * c.attempts, n * c.turns, n * c.gateChecks, n * c.outputTokens,
             n * c.toolAttempts, n * c.admitted, n * c.wallSeconds)
  }

  function WorstCase(l: Limits): Capacity {
    var turns := l.toolCalls + 1;
    Capacity(l.panels, l.panels * turns, l.panels * (turns + 1), l.panels * turns * l.tokensPerTurn,
             l.panels * turns, l.panels * l.toolCalls, l.panels * l.wallSeconds)
  }

  function Remaining(l: Limits, attempts: int): Result<Capacity> {
    if attempts < 0 || attempts > l.panels then Err("remaining attempt count is outside the authorization")
    else Ok(Scaled(attempts, Reserved(l)))
  }

  datatype Reservation = Reservation(before: Capacity, panel: Capacity, after: Capacity)

  function Reserve(l: Limits, index: int): Result<Reservation> {
    if index < 0 || index >= l.panels then Err("panel index is outside the authorization")
    else Ok(Reservation(Scaled(l.panels - index, Reserved(l)), Reserved(l), Scaled(l.panels - index - 1, Reserved(l))))
  }

  /** Reservations telescope from the authorised worst case down to nothing. */
  lemma ReservationsTelescope(l: Limits, i: nat)
    requires i < l.panels
    ensures Reserve(l, i).Ok?
    ensures var r := Reserve(l, i).value;
      && r.before == Plus(r.panel, r.after)
      && Remaining(l, l.panels - i) == Ok(r.before) && Remaining(l, l.panels - i - 1) == Ok(r.after)
      && (i == 0 ==> r.before == WorstCase(l))
      && (i + 1 == l.panels ==> r.after == NOTHING)
      && (i + 1 < l.panels ==> r.after == Reserve(l, i + 1).value.before)
  {
    ScaledStep(l.panels - i, Reserved(l));
    if i == 0 {
      WorstCaseIsScaled(l);
    }
  }

  lemma ScaledStep(n: int, c: Capacity)
    ensures Scaled(n, c) == Plus(c, Scaled(n - 1, c))
  {}

  lemma WorstCaseIsScaled(l: Limits)
    ensures WorstCase(l) == Scaled(l.panels, Reserved(l))
  {
    assert l.panels * (l.toolCalls + 1) * l.tokensPerTurn == l.panels * ((l.toolCalls + 1) * l.tokensPerTurn);
  }

  // ---- Attempts ----

  /** The parts of one attempt item that its structural checks bound. */
  datatype Attempt = Attempt(
    outputTokens: real, turns: int, assistantMessages: int, syntheticMessages: int, toolCallCount: int,
    receipt: Receipt, trace: seq<TraceEntry>, piSeconds: real, otherSeconds: seq<real>)

  function BlockedIndices(trace: seq<TraceEntry>, from: nat): seq<nat>
    requires from <= |trace|
    decreases |trace| - from
  {
    if from == |trace| then []
    else (if trace[from].Blocked() then [from] else []) + BlockedIndices(trace, from + 1)
  }

  function BlockedCount(trace: seq<TraceEntry>): nat {
    |BlockedIndices(trace, 0)|
  }

  /** No structural problem: every count in bounds, at most one locally blocked call, which is
      the last one, and a receipt that passes its own audit. */
  ghost predicate AttemptOk(a: Attempt, l: Limits) {
    && 0.0 <= a.outputTokens <= (a.turns * l.tokensPerTurn) as real
    && 1 <= a.turns <= l.toolCalls + 1
    && 0 <= a.syntheticMessages <= 1 && a.assistantMessages == a.turns + a.syntheticMessages
    && a.toolCallCount == |a.trace| <= l.toolCalls + 1
    && (forall i :: 0 <= i < |a.trace| && a.trace[i].Blocked() ==> i == |a.trace| - 1)
    && (BlockedCount(a.trace) > 0 ==> a.receipt.admittedCount == l.toolCalls || a.receipt.suppressedCount > 0)
    && a.syntheticMessages == BlockedCount(a.trace) + a.receipt.blocks
    && ReceiptOk(a.receipt, a.trace, a.turns, l.toolCalls)
    && a.piSeconds >= 0.0 && forall i :: 0 <= i < |a.otherSeconds| ==> a.otherSeconds[i] >= 0.0
  }

  lemma {:induction false} BlockedIndicesAreExact(trace: seq<TraceEntry>, from: nat)
    requires from <= |trace|
    ensures forall x <- BlockedIndices(trace, from) :: from <= x < |trace| && trace[x].Blocked()
    ensures forall i :: from <= i < |trace| && trace[i].Blocked() ==> i in BlockedIndices(trace, from)
    ensures forall i, j :: 0 <= i < j < |BlockedIndices(trace, from)| ==>
      BlockedIndices(trace, from)[i] < BlockedIndices(trace, from)[j]
    decreases |trace| - from
  {
    if from < |trace| {
      BlockedIndicesAreExact(trace, from + 1);
      var rest := BlockedIndices(trace, from + 1);
      assert forall j :: 0 <= j < |rest| ==> rest[j] in rest;
      if trace[from].Blocked() {
        assert BlockedIndices(trace, from) == [from] + rest;
      } else {
        assert BlockedIndices(trace, from) == rest;
      }
    }
  }

  /** Blocked locally: rejected for its budget or aborted. */
  ghost predicate Stopped(t: TraceEntry) {
    t.budgetRejected || t.operationAborted
  }

  ghost predicate LastStopped(trace: seq<TraceEntry>) {
    trace != [] && Stopped(trace[|trace| - 1])
  }

  lemma BlockedAtTheEnd(trace: seq<TraceEntry>)
    requires forall i :: 0 <= i < |trace| - 1 ==> !Stopped(trace[i])
    ensures BlockedCount(trace) == if LastStopped(trace) then 1 else 0
  {
    BlockedIndicesAreExact(trace, 0);
    var blocked := BlockedIndices(trace, 0);
    var last := |trace| - 1;
    assert forall x <- blocked :: x == last && LastStopped(trace);
    if LastStopped(trace) {
      assert trace[last].Blocked() && last in blocked;
      if |blocked| > 1 {
        TwoDiffer(blocked);
      }
    } else if blocked != [] {
      FirstIn(blocked);
    }
  }

  lemma TwoDiffer(s: seq<nat>)
    requires |s| > 1 && s[0] < s[1]
    ensures exists x, y :: x in s && y in s && x != y
  {
    assert s[0] in s && s[1] in s;
  }

  lemma FirstIn(s: seq<nat>)
    requires s != []
    ensures exists x :: x in s
  {
    assert s[0] in s;
  }

  /** The same without counting blocked calls: none but the last call was stopped locally, and that one is either
      the last admitted or leaves suppressed requests, and has its synthetic message. */
  ghost predicate Sound(a: Attempt, l: Limits) {
    && 0.0 <= a.outputTokens <= (a.turns * l.tokensPerTurn) as real && 1 <= a.turns <= l.toolCalls + 1
    && 0 <= a.syntheticMessages <= 1 && a.assistantMessages == a.turns + a.syntheticMessages
    && a.toolCallCount == |a.trace| <= l.toolCalls + 1
    && (forall i :: 0 <= i < |a.trace| - 1 ==> !Stopped(a.trace[i]))
    && (LastStopped(a.trace) ==> a.receipt.admittedCount == l.toolCalls || a.receipt.suppressedCount > 0)
    && a.syntheticMessages == (if LastStopped(a.trace) then 1 else 0) + a.receipt.blocks
    && ReceiptOk(a.receipt, a.trace, a.turns, l.toolCalls)
    && a.piSeconds >= 0.0 && forall i :: 0 <= i < |a.otherSeconds| ==> a.otherSeconds[i] >= 0.0
  }

  lemma OnlyTheLastBlocked(trace: seq<TraceEntry>)
    ensures (forall i :: 0 <= i < |trace| && trace[i].Blocked() ==> i == |trace| - 1)
       <==> forall i :: 0 <= i < |trace| - 1 ==> !Stopped(trace[i])
  {
    assert forall i :: 0 <= i < |trace| ==> (trace[i].Blocked() <==> Stopped(trace[i]));
  }

  /** An attempt passes exactly if it is sound in this sense. */
  lemma AttemptOkMeans(a: Attempt, l: Limits)
    ensures AttemptOk(a, l) <==> Sound(a, l)
  {
    hide ReceiptOk, BlockedCount, LastStopped, Stopped;
    OnlyTheLastBlocked(a.trace);
    if forall i :: 0 <= i < |a.trace| - 1 ==> !Stopped(a.trace[i]) {
      BlockedAtTheEnd(a.trace);
    }
  }

  method AttemptStructuralErrors(a: Attempt, l: Limits) returns (errors: seq<string>)
    ensures errors == [] <==> AttemptOk(a, l)
    ensures errors == [] <==> Sound(a, l)
  {
    hide Sound, ValidIds, TraceOk, Included, Apart, Without;
    AttemptOkMeans(a, l);
    var countErrors := CountErrors(a, l);
    var blockErrors := BlockErrors(a, l);
    var receiptErrors := BudgetReceiptErrors(a.receipt, a.trace, a.turns, l.toolCalls);
    var timingErrors := TimingErrors(a);
    errors := countErrors + blockErrors + receiptErrors + timingErrors;
    if a.turns > 0 && a.outputTokens > (a.turns * l.tokensPerTurn) as real {
      errors := errors + ["usage.output exceeds the provider-request token bound"];
    }
  }

  method CountErrors(a: Attempt, l: Limits) returns (errors: seq<string>)
    ensures errors == [] <==>
      (&& 0.0 <= a.outputTokens && 1 <= a.turns <= l.toolCalls + 1 && 0 <= a.syntheticMessages <= 1
       && a.assistantMessages == a.turns + a.syntheticMessages
       && a.toolCallCount == |a.trace| <= l.toolCalls + 1
       && a.receipt.admittedCount <= l.toolCalls)
  {
    var messages := MessageErrors(a, l);
    var calls := CallErrors(a, l);
    errors := messages + calls;
  }

  method MessageErrors(a: Attempt, l: Limits) returns (errors: seq<string>)
    ensures errors == [] <==>
      (&& 0.0 <= a.outputTokens && 1 <= a.turns <= l.toolCalls + 1 && 0 <= a.syntheticMessages <= 1
       && a.assistantMessages == a.turns + a.syntheticMessages)
  {
    hide Noted;
    errors := Noted([], a.outputTokens < 0.0, "usage.output invalid");
    errors := Noted(errors, a.assistantMessages < 0, "assistant_message_count invalid");
    errors := Noted(errors, a.syntheticMessages < 0 || a.syntheticMessages > 1,
                    "synthetic_assistant_message_count invalid");
    var turns := if a.turns < 0 then "provider_turn_count invalid" else "provider_turn_count must be positive";
    errors := Noted(errors, a.turns < 1, turns);
    errors := Noted(errors, a.turns > l.toolCalls + 1, "provider_turn_count exceeds the frozen bound");
    errors := Noted(errors, a.assistantMessages != a.turns + a.syntheticMessages,
                    "assistant-message accounting mismatch");
  }

  method CallErrors(a: Attempt, l: Limits) returns (errors: seq<string>)
    ensures errors == [] <==>
      (a.toolCallCount == |a.trace| <= l.toolCalls + 1 && a.receipt.admittedCount <= l.toolCalls)
  {
    hide Noted;
    var bounded := 0 <= a.toolCallCount <= l.toolCalls + 1;
    errors := Noted([], !bounded, "tool_call_count invalid");
    errors := Noted(errors, bounded && a.toolCallCount != |a.trace|, "tool_call_count does not match tool_trace");
    errors := Noted(errors, a.receipt.admittedCount > l.toolCalls,
                    "budget-admitted tool attempts exceed the frozen bound");
  }

  method BlockErrors(a: Attempt, l: Limits) returns (errors: seq<string>)
    ensures errors == [] <==>
      (&& (forall i :: 0 <= i < |a.trace| && a.trace[i].Blocked() ==> i == |a.trace| - 1)
       && (BlockedCount(a.trace) > 0 ==> a.receipt.admittedCount == l.toolCalls || a.receipt.suppressedCount > 0)
       && a.syntheticMessages == BlockedCount(a.trace) + a.receipt.blocks)
  {
    errors := [];
    TerminalBlock(a.trace);
    var blocked := BlockedIndices(a.trace, 0);
    if blocked != [] && (|blocked| != 1 || blocked[0] != |a.trace| - 1
                         || (a.receipt.admittedCount != l.toolCalls && !(a.receipt.suppressedCount > 0))) {
      errors := errors + ["budget-blocked tool attempt is not terminal"];
    }
    if a.syntheticMessages != |blocked| + a.receipt.blocks {
      errors := errors + ["synthetic assistant and local-block counts mismatch"];
    }
  }

  method TimingErrors(a: Attempt) returns (errors: seq<string>)
    ensures errors == [] <==> (a.piSeconds >= 0.0 && forall i :: 0 <= i < |a.otherSeconds| ==> a.otherSeconds[i] >= 0.0)
  {
    errors := if a.piSeconds < 0.0 then ["timing.pi_seconds invalid"] else [];
    for i := 0 to |a.otherSeconds|
      invariant errors == [] <==> (a.piSeconds >= 0.0 && forall j :: 0 <= j < i ==> a.otherSeconds[j] >= 0.0)
    {
      errors := Noted(errors, a.otherSeconds[i] < 0.0, "timing invalid");
    }
  }

  lemma TerminalBlock(trace: seq<TraceEntry>)
    ensures var blocked := BlockedIndices(trace, 0);
      (blocked == [] || (|blocked| == 1 && blocked[0] == |trace| - 1))
      <==> forall i :: 0 <= i < |trace| && trace[i].Blocked() ==> i == |trace| - 1
  {
    BlockedIndicesAreExact(trace, 0);
    var blocked := BlockedIndices(trace, 0);
    if |blocked| > 1 {
      assert blocked[0] < blocked[1];
      assert blocked[0] in blocked && blocked[1] in blocked;
    } else if |blocked| == 1 {
      assert blocked == [blocked[0]];
      assert blocked[0] in blocked;
    }
  }

  // ---- Records and the strict loader ----

  datatype Status = Completed | InfrastructureInvalid | Unknown

  /** The first 16 hex digits of a hash of authorization and panel; collisions are not modelled. */
  datatype AttemptId = AttemptId(authorization: string, panelId: string)

  /** `fieldsOk` stands for the field checks that bind nothing else here: embedded hash, schema,
      the remaining binds, task and panel copies, timestamps, and the error object of an
      infrastructure-invalid record. `notes` is the free text no check restricts: what the agent
      process wrote to standard error, the details of its tool trace, the error message. */
  datatype Record = Record(
    authorization: string, panelId: string, panelIndex: int, attemptId: AttemptId, status: Status,
    reservation: Reservation, attempt: Attempt, consumed: Consumption, notes: string, fieldsOk: bool)

  datatype Consumption = Consumption(
    attempts: int, turns: int, gateChecks: int, gateBlocks: int, outputTokens: real,
    toolAttempts: int, admitted: int, executed: int, rejected: int, blocked: int, suppressed: int, wallSeconds: real)

  function Consumed(a: Attempt): Consumption {
    Consumption(1, a.turns, a.receipt.gateChecks, a.receipt.blocks, a.outputTokens,
                |a.trace|, a.receipt.admittedCount, a.receipt.executedCount, a.receipt.rejectedCount,
                BlockedCount(a.trace), a.receipt.suppressedCount, a.piSeconds)
  }

  /** The setting a ledger is checked against: the manifest's panel ids, the limits, and the digests of
      manifest, registry, preflights and source tree with the name of the result file. */
  datatype Manifest = Manifest(panels: seq<string>, limits: Limits, binds: string)

  ghost predicate Frozen(m: Manifest) {
    Unique(m.panels) && |m.panels| == m.limits.panels
  }

  ghost predicate ValidRecord(m: Manifest, authorization: string, r: Record) {
    && r.fieldsOk && r.authorization == authorization
    && 0 <= r.panelIndex < |m.panels| && m.panels[r.panelIndex] == r.panelId
    && r.attemptId == AttemptId(authorization, r.panelId)
    && r.status != Unknown
    && Reserve(m.limits, r.panelIndex) == Ok(r.reservation)
    && (r.status == Completed ==> AttemptOk(r.attempt, m.limits) && r.consumed == Consumed(r.attempt))
  }

  method ValidateRecord(m: Manifest, authorization: string, r: Record) returns (errors: seq<string>)
    requires Frozen(m)
    ensures errors == [] <==>
      && r.fieldsOk && r.authorization == authorization
      && 0 <= r.panelIndex < |m.panels| && m.panels[r.panelIndex] == r.panelId
      && r.attemptId == AttemptId(authorization, r.panelId)
      && Reserve(m.limits, r.panelIndex) == Ok(r.reservation)
      && (r.status == InfrastructureInvalid
          || (r.status == Completed && AttemptOk(r.attempt, m.limits) && r.consumed == Consumed(r.attempt)))
    ensures errors == [] <==> ValidRecord(m, authorization, r)
  {
    hide AttemptOk, Consumed;
    if !r.fieldsOk {
      return ["record fields invalid"];
    }
    errors := [];
    if r.authorization != authorization {
      errors := errors + ["record.authorization_hash mismatch"];
    }
    if r.panelId !in m.panels {
      return errors + ["unknown panel_id"];
    }
    var index := IndexOf(m.panels, r.panelId);
    if r.panelIndex != index {
      errors := errors + ["record.panel_index mismatch"];
    }
    if r.attemptId != AttemptId(authorization, r.panelId) {
      errors := errors + ["record.attempt_id is not the deterministic panel id"];
    }
    if r.status == Unknown {
      return errors + ["unknown record status"];
    }
    if Reserve(m.limits, index) != Ok(r.reservation) {
      errors := errors + ["record.budget mismatch"];
    }
    if r.status == InfrastructureInvalid {
      return;
    }
    var structural := AttemptStructuralErrors(r.attempt, m.limits);
    errors := errors + structural;
    if r.consumed != Consumed(r.attempt) {
      errors := errors + ["record.budget consumed mismatch"];
    }
  }

  function IndexOf(panels: seq<string>, id: string): (index: nat)
    requires id in panels
    ensures index < |panels| && panels[index] == id
  {
    if panels[0] == id then 0 else 1 + IndexOf(panels[1..], id)
  }

  // ---- The ledger as text ----

  datatype Line = Blank | Malformed | Parsed(record: Record)

  /** How a record becomes a line, and what the loader makes of a line. */
  datatype Codec = Codec(render: Record -> string, decode: Decoder)

  type Decoder = d: string -> Line | forall s :: Spaces(s) ==> d(s) == Blank witness _ => Blank

  /** The line of a record is one JSON object: white space may stand before it, but neither other
      text glued before it nor a proper prefix of it parses. The writer keeps non-ASCII text, so the
      separators of the free text stay in the line. */
  ghost predicate Legible(x: Codec, r: Record) {
    && x.render(r) != "" && !Boundary(x.render(r)[0])
    && (forall open, k :: Clean(open) && 0 < k <= |x.render(r)| ==>
          x.decode(open + x.render(r)[..k]) == if Spaces(open) && k == |x.render(r)| then Parsed(r) else Malformed)
    && (Separated(r.notes) ==> !Clean(x.render(r)))
  }

  function Decoded(x: Codec, lines: seq<string>): seq<Line> {
    seq(|lines|, i requires 0 <= i < |lines| => x.decode(lines[i]))
  }

  function ReadLines(x: Codec, text: string): seq<Line> {
    Decoded(x, Pieces([], text))
  }

  /** The records a text holds, if every line of it can be read. */
  function Held(x: Codec, text: string): seq<Record> {
    Records(ReadLines(x, text))
  }

  predicate Parses(x: Codec, text: string) {
    Malformed !in ReadLines(x, text)
  }

  /** What the strict loader demands. */
  ghost predicate Loads(m: Manifest, x: Codec, authorization: string, text: string) {
    Parses(x, text) && ManifestPrefix(m, authorization, Held(x, text))
  }

  /** Nothing but spaces is waiting to be continued by the next line. */
  predicate Closed(text: string) {
    Spaces(Tail(text))
  }

  /** The text of records appended one after another. */
  function Rendered(x: Codec, records: seq<Record>): string {
    if records == [] then "" else Rendered(x, records[..|records| - 1]) + x.render(records[|records| - 1]) + "\n"
  }

  predicate OneLine(x: Codec, r: Record) {
    Clean(x.render(r))
  }

  predicate AllOneLine(x: Codec, records: seq<Record>) {
    forall r <- records :: OneLine(x, r)
  }

  ghost predicate AllLegible(x: Codec, records: seq<Record>) {
    forall r <- records :: Legible(x, r)
  }

  function Records(lines: seq<Line>): seq<Record> {
    if lines == [] then []
    else (if lines[0].Parsed? then [lines[0].record] else []) + Records(lines[1..])
  }

  /** Record `k` is a valid record of manifest panel `k`. */
  ghost predicate ManifestPrefix(m: Manifest, authorization: string, records: seq<Record>) {
    forall k :: 0 <= k < |records| ==> ValidRecord(m, authorization, records[k]) && records[k].panelIndex == k
  }

  lemma {:induction false} RecordsAppend(a: seq<Line>, b: seq<Line>)
    ensures Records(a + b) == Records(a) + Records(b)
  {
    if a == [] {
      assert a + b == b;
    } else {
      assert (a + b)[1..] == a[1..] + b;
      RecordsAppend(a[1..], b);
      var head := if a[0].Parsed? then [a[0].record] else [];
      assert head + (Records(a[1..]) + Records(b)) == head + Records(a[1..]) + Records(b);
    }
  }

  lemma RecordsSnoc(lines: seq<Line>, i: nat)
    requires i < |lines|
    ensures Records(lines[..i + 1]) == Records(lines[..i]) + if lines[i].Parsed? then [lines[i].record] else []
  {
    assert lines[..i + 1] == lines[..i] + [lines[i]];
    RecordsAppend(lines[..i], [lines[i]]);
  }

  lemma RecordsPrefix(lines: seq<Line>, i: nat)
    requires i <= |lines|
    ensures Records(lines[..i]) <= Records(lines)
  {
    assert lines == lines[..i] + lines[i..];
    RecordsAppend(lines[..i], lines[i..]);
  }

  lemma PrefixExtends(m: Manifest, authorization: string, records: seq<Record>, record: Record)
    requires ManifestPrefix(m, authorization, records)
    requires ValidRecord(m, authorization, record) && record.panelIndex == |records|
    ensures ManifestPrefix(m, authorization, records + [record])
  {}

  /** In a manifest-order prefix no panel and no attempt id occurs twice. */
  lemma PrefixHasNoDuplicates(m: Manifest, authorization: string, records: seq<Record>, i: nat, j: nat)
    requires Frozen(m) && ManifestPrefix(m, authorization, records) && i < j < |records|
    ensures records[i].panelId != records[j].panelId && records[i].attemptId != records[j].attemptId
  {
    hide ManifestPrefix, ValidRecord;
    RecordNamesItsPanel(m, authorization, records, i);
    RecordNamesItsPanel(m, authorization, records, j);
    assert m.panels[i] != m.panels[j];
    AttemptIdsDiffer(authorization, records[i].panelId, records[j].panelId);
  }

  lemma AttemptIdsDiffer(authorization: string, a: string, b: string)
    requires a != b
    ensures AttemptId(authorization, a) != AttemptId(authorization, b)
  {
    assert AttemptId(authorization, a).panelId != AttemptId(authorization, b).panelId;
  }

  lemma RecordNamesItsPanel(m: Manifest, authorization: string, records: seq<Record>, k: nat)
    requires ManifestPrefix(m, authorization, records) && k < |records|
    ensures k < |m.panels| && records[k].panelId == m.panels[k]
    ensures records[k].attemptId == AttemptId(authorization, records[k].panelId)
  {
    hide AttemptOk, Reserve;
    assert ValidRecord(m, authorization, records[k]) && records[k].panelIndex == k;
  }

  lemma PrefixIsNeeded(m: Manifest, authorization: string, all: seq<Record>, k: nat)
    requires k < |all| && ManifestPrefix(m, authorization, all)
    ensures ValidRecord(m, authorization, all[k]) && all[k].panelIndex == k
  {}

  /** Loading one parsed line: accepted exactly if it is a valid record of the next panel. */
  method LoadRecord(m: Manifest, authorization: string, records: seq<Record>, record: Record,
                    seenPanels: set<string>, seenAttempts: set<AttemptId>)
    returns (problem: Option<string>)
    requires Frozen(m) && ManifestPrefix(m, authorization, records)
    requires forall p <- seenPanels :: exists k :: 0 <= k < |records| && records[k].panelId == p
    requires forall t <- seenAttempts :: exists k :: 0 <= k < |records| && records[k].attemptId == t
    ensures problem.None? <==> ManifestPrefix(m, authorization, records + [record])
  {
    ghost var next := records + [record];
    if record.panelId in seenPanels {
      if ManifestPrefix(m, authorization, next) {
        ghost var k :| 0 <= k < |records| && records[k].panelId == record.panelId;
        PrefixHasNoDuplicates(m, authorization, next, k, |records|);
      }
      return Some("duplicate panel");
    }
    if record.attemptId in seenAttempts {
      if ManifestPrefix(m, authorization, next) {
        ghost var k :| 0 <= k < |records| && records[k].attemptId == record.attemptId;
        PrefixHasNoDuplicates(m, authorization, next, k, |records|);
      }
      return Some("duplicate attempt id");
    }
    var errors := ValidateRecord(m, authorization, record);
    if errors != [] || record.panelIndex != |records| {
      if ManifestPrefix(m, authorization, next) {
        PrefixIsNeeded(m, authorization, next, |records|);
      }
      return Some(if errors != [] then "invalid baseline panel record" else "ledger is not a manifest-order prefix");
    }
    PrefixExtends(m, authorization, records, record);
    return None;
  }

  lemma PrefixOfPrefix(m: Manifest, authorization: string, records: seq<Record>, all: seq<Record>)
    requires records <= all && ManifestPrefix(m, authorization, all)
    ensures ManifestPrefix(m, authorization, records)
  {}

  // ---- What an append does to the next load ----

  lemma DecodedSum(x: Codec, a: seq<string>, b: seq<string>)
    ensures Decoded(x, a + b) == Decoded(x, a) + Decoded(x, b)
  {}

  lemma GluedPrefix(x: Codec, open: string, r: Record, k: nat)
    requires Legible(x, r) && Clean(open) && 0 < k <= |x.render(r)|
    ensures x.decode(open + x.render(r)[..k]) == if Spaces(open) && k == |x.render(r)| then Parsed(r) else Malformed
    ensures !Boundary(x.render(r)[0])
  {}

  /** The line of a record, continuing whatever stood open. */
  lemma OpenRecord(x: Codec, open: string, r: Record)
    requires Legible(x, r) && Clean(open)
    ensures var lines := Decoded(x, Pieces(open, x.render(r)));
      if OneLine(x, r) && Spaces(open) then lines == [Parsed(r)] else Malformed in lines
  {
    var line := x.render(r);
    assert |line| > 0;
    hide Legible, Spaces, Boundary, Pieces;
    if Clean(line) {
      CleanIsOnePiece(open, line);
      assert line[..|line|] == line;
      GluedPrefix(x, open, r, |line|);
      assert Decoded(x, [open + line]) == [x.decode(open + line)];
    } else {
      var k := CutAtFirstBoundary(open, line);
      GluedPrefix(x, open, r, 1);
      GluedPrefix(x, open, r, k);
      assert Decoded(x, Pieces(open, line))[0] == Malformed;
    }
  }

  lemma ReadAppend(x: Codec, text: string, r: Record)
    ensures ReadLines(x, text) == Decoded(x, Finished(text)) + [x.decode(Tail(text))]
    ensures ReadLines(x, text + x.render(r) + "\n")
         == Decoded(x, Finished(text)) + Decoded(x, Pieces(Tail(text), x.render(r))) + [Blank]
  {
    hide Pieces;
    PiecesOfAppend(text, x.render(r));
    assert Pieces([], text) == Finished(text) + [Tail(text)];
    DecodedSum(x, Finished(text), [Tail(text)]);
    DecodedSum(x, Finished(text) + Pieces(Tail(text), x.render(r)), [[]]);
    DecodedSum(x, Finished(text), Pieces(Tail(text), x.render(r)));
    assert Decoded(x, [[]]) == [Blank];
  }

  /** An append can be read back exactly if all the rest could be, its line holds no boundary, and
      only spaces stood open before it; and then it adds that one record. */
  lemma {:induction false} AppendIsReadBack(x: Codec, text: string, r: Record)
    requires Legible(x, r)
    ensures var next := text + x.render(r) + "\n";
      && Closed(next)
      && (Parses(x, next) <==> Parses(x, text) && OneLine(x, r) && Closed(text))
      && (Parses(x, next) ==> Held(x, next) == Held(x, text) + [r])
  {
    ReadAppend(x, text, r);
    TailIsClean(text);
    OpenRecord(x, Tail(text), r);
    PiecesOfAppend(text, x.render(r));
    OpenTail(x, text, r);
    hide Pieces, Legible, Finished;
    var kept, added := Decoded(x, Finished(text)), Decoded(x, Pieces(Tail(text), x.render(r)));
    RecordsAppend(kept, [x.decode(Tail(text))]);
    RecordsAppend(kept + added, [Blank]);
    RecordsAppend(kept, added);
  }

  /** An open tail that cannot be read is not spaces. */
  lemma OpenTail(x: Codec, text: string, r: Record)
    ensures Closed(text) ==> x.decode(Tail(text)) == Blank
  {}

  /** Main result, for every text and all records: what was appended is read back exactly if the text
      could be read and was closed and no appended line holds a boundary. */
  lemma {:induction false} AppendsAreReadBack(x: Codec, text: string, records: seq<Record>)
    requires AllLegible(x, records)
    ensures var all := text + Rendered(x, records);
      && (records != [] ==> Closed(all))
      && (Parses(x, all) <==> Parses(x, text) && (records == [] || Closed(text)) && AllOneLine(x, records))
      && (Parses(x, all) ==> Held(x, all) == Held(x, text) + records)
  {
    hide Legible, Parses, Held, Closed;
    if records == [] {
      assert text + Rendered(x, records) == text;
    } else {
      var n := |records| - 1;
      AppendsAreReadBack(x, text, records[..n]);
      AppendIsReadBack(x, text + Rendered(x, records[..n]), records[n]);
      assert text + Rendered(x, records) == text + Rendered(x, records[..n]) + x.render(records[n]) + "\n";
      assert records == records[..n] + [records[n]];
      if n == 0 {
        assert text + Rendered(x, records[..n]) == text;
      }
    }
  }

  lemma NothingHeld(x: Codec)
    ensures Parses(x, "") && Held(x, "") == [] && Closed("")
  {
    assert ReadLines(x, "") == [Blank] && [Blank][1..] == [];
  }

  /** Loading a file the writer made from nothing returns what was appended, exactly if none of its
      lines holds a boundary. */
  lemma WrittenIsReadBack(x: Codec, records: seq<Record>)
    requires AllLegible(x, records)
    ensures Parses(x, Rendered(x, records)) <==> AllOneLine(x, records)
    ensures Parses(x, Rendered(x, records)) ==> Held(x, Rendered(x, records)) == records
  {
    NothingHeld(x);
    AppendsAreReadBack(x, "", records);
    assert "" + Rendered(x, records) == Rendered(x, records);
    assert [] + records == records;
  }

  /** The strict loader. It accepts exactly the files whose non-blank lines all parse and form a
      manifest-order prefix; the duplicate-panel and duplicate-attempt checks never decide. */
  method LoadLedger(m: Manifest, x: Codec, authorization: string, text: string) returns (result: Result<seq<Record>>)
    requires Frozen(m)
    ensures result.Ok? <==> Loads(m, x, authorization, text)
    ensures result.Ok? ==> result.value == Held(x, text)
  {
    hide ValidRecord, Pieces, Decoded;
    var records: seq<Record> := [];
    var seenPanels: set<string> := {};
    var seenAttempts: set<AttemptId> := {};
    var lines := ReadLines(x, text);
    for i := 0 to |lines|
      invariant records == Records(lines[..i])
      invariant Malformed !in lines[..i] && ManifestPrefix(m, authorization, records)
      invariant forall p <- seenPanels :: exists k :: 0 <= k < |records| && records[k].panelId == p
      invariant forall t <- seenAttempts :: exists k :: 0 <= k < |records| && records[k].attemptId == t
    {
      RecordsSnoc(lines, i);
      RecordsPrefix(lines, i + 1);
      match lines[i] {
        case Blank =>
        case Malformed =>
          return Err("invalid baseline JSONL line");
        case Parsed(record) =>
          var problem := LoadRecord(m, authorization, records, record, seenPanels, seenAttempts);
          if problem.Some? {
            if ManifestPrefix(m, authorization, Records(lines)) {
              PrefixOfPrefix(m, authorization, records + [record], Records(lines));
            }
            return Err(problem.value);
          }
          ghost var next := records + [record];
          assert next[|records|] == record && forall k :: 0 <= k < |records| ==> next[k] == records[k];
          seenPanels := seenPanels + {record.panelId};
          seenAttempts := seenAttempts + {record.attemptId};
          records := records + [record];
      }
      assert lines[..i + 1] == lines[..i] + [lines[i]];
    }
    assert lines[..|lines|] == lines;
    return Ok(records);
  }

  // ---- Consumption of a whole ledger ----

  datatype Totals = Totals(turns: int, gateChecks: int, outputTokens: real, toolAttempts: int, admitted: int)

  function TotalConsumed(records: seq<Record>): Totals {
    if records == [] then Totals(0, 0, 0.0, 0, 0)
    else
      var rest := TotalConsumed(records[1..]);
      if records[0].status != Completed then rest
      else
        var c := records[0].consumed;
        Totals(rest.turns + c.turns, rest.gateChecks + c.gateChecks, rest.outputTokens + c.outputTokens,
               rest.toolAttempts + c.toolAttempts, rest.admitted + c.admitted)
  }

  ghost predicate Within(t: Totals, c: Capacity) {
    && t.turns <= c.turns && t.gateChecks <= c.gateChecks && t.outputTokens <= c.outputTokens as real
    && t.toolAttempts <= c.toolAttempts && t.admitted <= c.admitted
  }

  lemma ProductMonotone(a: int, b: int, t: nat)
    requires a <= b
    ensures a * t <= b * t
  {
    assert (b - a) * t >= 0;
  }

  lemma AttemptBounds(a: Attempt, l: Limits)
    requires AttemptOk(a, l)
    ensures a.turns <= l.toolCalls + 1 && a.receipt.gateChecks <= l.toolCalls + 2
    ensures |a.trace| <= l.toolCalls + 1 && a.receipt.admittedCount <= l.toolCalls
    ensures a.outputTokens <= (a.turns * l.tokensPerTurn) as real
  {}

  /** One completed record stays within the reservation of its panel. */
  lemma CompletedRecordWithinReservation(m: Manifest, authorization: string, r: Record)
    requires ValidRecord(m, authorization, r) && r.status == Completed
    ensures var c := r.consumed;
      Within(Totals(c.turns, c.gateChecks, c.outputTokens, c.toolAttempts, c.admitted), Reserved(m.limits))
  {
    AttemptBounds(r.attempt, m.limits);
    ProductMonotone(r.attempt.turns, m.limits.toolCalls + 1, m.limits.tokensPerTurn);
  }

  lemma {:induction false} ConsumedWithinScaled(m: Manifest, authorization: string, records: seq<Record>)
    requires forall r <- records :: ValidRecord(m, authorization, r)
    ensures Within(TotalConsumed(records), Scaled(|records|, Reserved(m.limits)))
  {
    if records != [] {
      ConsumedWithinScaled(m, authorization, records[1..]);
      ScaledStep(|records|, Reserved(m.limits));
      if records[0].status == Completed {
        CompletedRecordWithinReservation(m, authorization, records[0]);
      } else {
        assert Reserved(m.limits).outputTokens >= 0;
      }
    }
  }

  /** Main result: whatever ledger the loader accepts, what its completed records consumed is
      within what the panels recorded so far had reserved, hence within the worst case. */
  lemma AcceptedLedgerWithinWorstCase(m: Manifest, authorization: string, records: seq<Record>)
    requires Frozen(m) && ManifestPrefix(m, authorization, records)
    ensures |records| <= m.limits.panels
    ensures Within(TotalConsumed(records), Scaled(|records|, Reserved(m.limits)))
    ensures Within(TotalConsumed(records), WorstCase(m.limits))
  {
    hide AttemptOk, TotalConsumed, Consumed, Reserve;
    if |records| > 0 {
      assert records[|records| - 1].panelIndex == |records| - 1;
    }
    ConsumedWithinScaled(m, authorization, records);
    WorstCaseIsScaled(m.limits);
    ScaledMonotone(|records|, m.limits.panels, Reserved(m.limits));
  }

  lemma ScaledMonotone(n: nat, k: nat, c: Capacity)
    requires n <= k
    requires c.turns >= 0 && c.gateChecks >= 0 && c.outputTokens >= 0 && c.toolAttempts >= 0 && c.admitted >= 0
    ensures n * c.turns <= k * c.turns && n * c.gateChecks <= k * c.gateChecks
    ensures n * c.outputTokens <= k * c.outputTokens
    ensures n * c.toolAttempts <= k * c.toolAttempts && n * c.admitted <= k * c.admitted
  {
    assert (k - n) * c.turns >= 0 && (k - n) * c.gateChecks >= 0 && (k - n) * c.outputTokens >= 0;
    assert (k - n) * c.toolAttempts >= 0 && (k - n) * c.admitted >= 0;
  }

  /** Wall time is not bounded by these checks: a valid record stays valid with any duration. */
  lemma WallSecondsUnbounded(m: Manifest, authorization: string, r: Record, seconds: real)
    requires ValidRecord(m, authorization, r) && r.status == Completed && seconds >= 0.0
    ensures var slow := r.(attempt := r.attempt.(piSeconds := seconds),
                           consumed := r.consumed.(wallSeconds := seconds));
      ValidRecord(m, authorization, slow) && slow.consumed.wallSeconds == seconds
  {}

  // ---- A completed record ----

  const SAMPLE := Manifest(["panel"], Limits(1, 1, 100, 60), "binds")

  const SAMPLE_RECEIPT := Receipt(2, 2, 0, 2, 2, 1, ["call"], 1, 1, ["call"], 1, ["call"], 0, [], 0, [], [])

  /** One admitted tool call, then a final answer. */
  const SAMPLE_ATTEMPT := Attempt(
    40.0, 2, 2, 0, 1, SAMPLE_RECEIPT, [TraceEntry("call", false, false, false)], 1.0, [])

  function SampleRecord(authorization: string, notes: string): Record {
    Record(authorization, "panel", 0, AttemptId(authorization, "panel"), Completed,
           Reserve(SAMPLE.limits, 0).value, SAMPLE_ATTEMPT, Consumed(SAMPLE_ATTEMPT), notes, true)
  }

  lemma SampleReceiptIsValid()
    ensures ReceiptOk(SAMPLE_RECEIPT, SAMPLE_ATTEMPT.trace, 2, 1)
  {
    var ids, none: seq<string> := ["call"], [];
    assert Elements(ids) == {"call"} && Elements(none) == {};
    assert ids[1..] == [];
    assert Without(ids, ids) == none;
    var trace := SAMPLE_ATTEMPT.trace;
    assert trace[1..] == [];
    assert TraceIds(trace) == ids && ExecutedIds(trace) == ids;
  }

  /** There are completed records every check accepts, whatever free text they carry. */
  lemma SampleIsValid(authorization: string, notes: string)
    ensures Frozen(SAMPLE) && |SAMPLE.panels| == 1
    ensures var r := SampleRecord(authorization, notes);
      ValidRecord(SAMPLE, authorization, r) && r.status == Completed && r.notes == notes
  {
    SampleReceiptIsValid();
    hide ReceiptOk;
    var trace := SAMPLE_ATTEMPT.trace;
    assert !trace[0].Blocked() && BlockedIndices(trace, 1) == [];
    assert BlockedIndices(trace, 0) == [];
  }

  /** Spaces, and nothing else, before the line. */
  predicate AfterSpaces(s: string, line: string) {
    |line| <= |s| && s[|s| - |line|..] == line && Spaces(s[..|s| - |line|])
  }

  /** A codec for one record, whose line is an opening brace and the free text. */
  function SoleCodec(r: Record): Codec {
    var line := "{" + r.notes;
    Codec(_ => line, s => if Spaces(s) then Blank else if AfterSpaces(s, line) then Parsed(r) else Malformed)
  }

  /** What is assumed of a codec can be had, whether or not the line holds a boundary. */
  lemma LegibleCanBeHad(r: Record)
    requires '{' !in r.notes
    ensures Legible(SoleCodec(r), r)
  {
    var x, line := SoleCodec(r), "{" + r.notes;
    forall open, k | Clean(open) && 0 < k <= |line|
      ensures x.decode(open + line[..k]) == if Spaces(open) && k == |line| then Parsed(r) else Malformed
    {
      var s := open + line[..k];
      assert s[|open|] == '{' && s[|open|] in s;
      OnlyAfterSpaces(open, line, k);
    }
    if Separated(r.notes) {
      assert forall c <- r.notes :: c in line;
    }
  }

  /** A line whose only brace is its first character follows spaces in one way only. */
  lemma OnlyAfterSpaces(open: string, line: string, k: nat)
    requires 0 < k <= |line| && line[0] == '{' && '{' !in line[1..]
    ensures AfterSpaces(open + line[..k], line) <==> Spaces(open) && k == |line|
  {
    var s := open + line[..k];
    LastBraceOfSum(open, line[..k]);
    if AfterSpaces(s, line) {
      var before := s[..|s| - |line|];
      assert s == before + line;
      LastBraceOfSum(before, line);
      assert before == open;
    } else if k == |line| {
      assert line[..k] == line && s[..|open|] == open && s[|open|..] == line;
    }
  }
}
