/** Normalising a recorded event stream, with the one locally synthesised abort kept out of the
    provider turns. */
module Events {
  import opened Common
  import opened JsonValues

  datatype Item = Call(id: Option<string>) | Text(text: string) | OtherItem

  datatype Message = Message(
    assistant: bool, content: seq<Item>, provider: Option<string>, model: Option<string>,
    usage: Json, stopReason: Option<string>, errorMessage: Option<string>)

  /** A tool result, with the three verdicts that are read off its text. */
  datatype ToolResult = ToolResult(raw: string, operationAborted: bool, budgetRejected: bool,
                                   preExecutionRejected: bool)

  datatype Execution = Execution(callId: Option<string>, name: string, result: ToolResult, isError: bool)

  datatype Event =
    | Session(id: string)
    | MessageEnd(message: Message)
    | ExecutionStart
    | ExecutionEnd(execution: Execution)
    | Other

  /** What the classification reads from a budget receipt. */
  datatype BudgetReceipt = BudgetReceipt(knownSchema: bool, requestBlocks: int)

  predicate IsAssistant(e: Event): (b: bool)
    ensures b ==> e.MessageEnd?
  {
    e.MessageEnd? && e.message.assistant
  }

  // ---- Is this assistant message the local abort? ----

  const ZERO_FIELDS: seq<string> := ["input", "output", "cacheRead", "cacheWrite", "totalTokens"]

  predicate IsZero(v: Json) {
    v == Int(0) || v == Num(0.0)
  }

  predicate HasZeroTokenUsage(m: Message) {
    m.usage.Obj? && forall f <- ZERO_FIELDS :: f in m.usage.fields && IsZero(m.usage.fields[f])
  }

  predicate LocalShape(m: Message) {
    m.assistant && m.content == [] && m.provider.Some? && m.model.Some? && HasZeroTokenUsage(m)
  }

  predicate AbortedRequest(m: Message) {
    m.stopReason == Some("aborted") && m.errorMessage == Some("Request aborted")
  }

  predicate AbortedOperation(m: Message) {
    m.stopReason == Some("error") && m.errorMessage == Some("This operation was aborted")
  }

  predicate BudgetBlocked(receipt: Option<BudgetReceipt>) {
    receipt.Some? && receipt.value.knownSchema && receipt.value.requestBlocks == 1
  }

  /** Ends the backward search for an aborted tool call. */
  predicate Anchors(e: Event) {
    e.ExecutionEnd? || IsAssistant(e)
  }

  ghost predicate QuietAfter(events: seq<Event>, i: nat) {
    forall j :: i < j < |events| ==> !events[j].ExecutionStart? && !Anchors(events[j])
  }

  ghost predicate NoneBetween(events: seq<Event>, low: nat, high: nat, stops: Event -> bool)
    requires high <= |events|
  {
    forall j :: low < j < high ==> !stops(events[j])
  }

  ghost predicate Requested(m: Message, id: string) {
    exists item <- m.content :: item.Call? && item.id == Some(id)
  }

  /** The last assistant message before the aborted execution asked for that very call. */
  ghost predicate LinkedCall(events: seq<Event>, a: nat, p: nat)
    requires p < a < |events|
  {
    && events[a].ExecutionEnd? && events[a].execution.callId.Some? && events[a].execution.callId.value != ""
    && IsAssistant(events[p]) && NoneBetween(events, p, a, IsAssistant)
    && Requested(events[p].message, events[a].execution.callId.value)
  }

  ghost predicate AbortedBefore(events: seq<Event>, i: nat, a: nat)
    requires a < i < |events|
  {
    events[a].ExecutionEnd? && events[a].execution.result.operationAborted && NoneBetween(events, a, i, Anchors)
  }

  ghost predicate FollowsToolAbort(events: seq<Event>, i: nat)
    requires i < |events|
  {
    exists a, p :: 0 <= p < a < i && AbortedBefore(events, i, a) && LinkedCall(events, a, p)
  }

  /** The local abort: a terminal, empty, zero-usage message explained by the budget receipt or by
      an aborted tool call that the provider had requested. */
  ghost predicate Synthetic(events: seq<Event>, receipt: Option<BudgetReceipt>, i: nat)
    requires i < |events|
  {
    && events[i].MessageEnd? && LocalShape(events[i].message) && QuietAfter(events, i)
    && var m := events[i].message;
       || (BudgetBlocked(receipt) && AbortedRequest(m))
       || ((AbortedRequest(m) || AbortedOperation(m)) && FollowsToolAbort(events, i))
  }

  method IsTerminalSyntheticAbort(events: seq<Event>, receipt: Option<BudgetReceipt>, i: nat) returns (synthetic: bool)
    requires i < |events| && IsAssistant(events[i])
    ensures synthetic <==> Synthetic(events, receipt, i)
  {
    hide FollowsToolAbort;
    var m := events[i].message;
    if !LocalShape(m) {
      return false;
    }
    for j := i + 1 to |events|
      invariant forall k :: i < k < j ==> !events[k].ExecutionStart? && !Anchors(events[k])
    {
      if events[j].ExecutionStart? || events[j].ExecutionEnd? {
        return false;
      }
      if IsAssistant(events[j]) {
        return false;
      }
    }
    if BudgetBlocked(receipt) && AbortedRequest(m) {
      return true;
    }
    if !AbortedOperation(m) && !AbortedRequest(m) {
      return false;
    }
    synthetic := TracesToolAbort(events, i);
  }

  method TracesToolAbort(events: seq<Event>, i: nat) returns (found: bool)
    requires i < |events|
    ensures found <==> FollowsToolAbort(events, i)
  {
    var anchor := LastBefore(events, i, Anchors);
    if anchor.None? || !events[anchor.value].ExecutionEnd? || !events[anchor.value].execution.result.operationAborted {
      return false;
    }
    var a := anchor.value;
    var id := events[a].execution.callId;
    if id.None? || id.value == "" {
      OnlyAnchor(events, i, a);
      return false;
    }
    var requester := LastBefore(events, a, IsAssistant);
    OnlyAnchor(events, i, a);
    if requester.None? {
      return false;
    }
    var p := requester.value;
    found := false;
    for k := 0 to |events[p].message.content|
      invariant found <==> exists item <- events[p].message.content[..k] :: item.Call? && item.id == id
    {
      var item := events[p].message.content[k];
      assert events[p].message.content[..k + 1] == events[p].message.content[..k] + [item];
      if item.Call? && item.id == id {
        found := true;
      }
    }
    assert events[p].message.content[..|events[p].message.content|] == events[p].message.content;
    assert found <==> Requested(events[p].message, id.value);
    OnlyRequester(events, i, a, p);
  }

  /** Both backward loops: the nearest earlier event at which the search stops. */
  method LastBefore(events: seq<Event>, i: nat, stops: Event -> bool) returns (last: Option<nat>)
    requires i <= |events|
    ensures last.None? <==> forall j :: 0 <= j < i ==> !stops(events[j])
    ensures last.Some? ==> last.value < i && stops(events[last.value]) && NoneBetween(events, last.value, i, stops)
  {
    var j := i;
    while j > 0
      invariant 0 <= j <= i
      invariant forall k :: j <= k < i ==> !stops(events[k])
    {
      j := j - 1;
      if stops(events[j]) {
        return Some(j);
      }
    }
    return None;
  }

  lemma OnlyAnchor(events: seq<Event>, i: nat, a: nat)
    requires a < i < |events| && Anchors(events[a]) && NoneBetween(events, a, i, Anchors)
    ensures forall b :: 0 <= b < i && AbortedBefore(events, i, b) ==> b == a
  {}

  lemma OnlyRequester(events: seq<Event>, i: nat, a: nat, p: nat)
    requires p < a < i < |events| && AbortedBefore(events, i, a)
    requires events[a].execution.callId.Some? && events[a].execution.callId.value != ""
    requires forall b :: 0 <= b < i && AbortedBefore(events, i, b) ==> b == a
    requires IsAssistant(events[p]) && NoneBetween(events, p, a, IsAssistant)
    ensures FollowsToolAbort(events, i) <==> Requested(events[p].message, events[a].execution.callId.value)
  {
    if FollowsToolAbort(events, i) {
      var b, q :| 0 <= q < b < i && AbortedBefore(events, i, b) && LinkedCall(events, b, q);
      assert b == a && q <= p <= q;
    }
    if Requested(events[p].message, events[a].execution.callId.value) {
      assert LinkedCall(events, a, p);
    }
  }

  /** The local abort is the last assistant message, so there is at most one. */
  lemma AtMostOneSynthetic(events: seq<Event>, receipt: Option<BudgetReceipt>, i: nat, j: nat)
    requires i < |events| && j < |events| && Synthetic(events, receipt, i)
    ensures IsAssistant(events[j]) ==> j <= i
    ensures Synthetic(events, receipt, j) ==> j == i
  {
    hide FollowsToolAbort;
  }

  // ---- Token counts ----

  datatype Counts = Counts(input: int, output: int, cacheRead: int, cacheWrite: int, reasoning: int, total: int)

  const NO_COUNTS := Counts(0, 0, 0, 0, 0, 0)

  function Plus(a: Counts, b: Counts): Counts {
    Counts(a.input + b.input, a.output + b.output, a.cacheRead + b.cacheRead, a.cacheWrite + b.cacheWrite,
           a.reasoning + b.reasoning, a.total + b.total)
  }

  predicate Falsy(v: Json) {
    v == Null || v == Bool(false) || v == Int(0) || v == Num(0.0) || v == Str("") || (v.Obj? && v.fields == map[])
  }

  function Truncate(r: real): int {
    if r >= 0.0 then r.Floor else -((-r).Floor)
  }

  /** int(value or 0), as the running totals read one counter. */
  function Amount(v: Json, parseInt: string -> Option<int>): Option<int> {
    if Falsy(v) then Some(0)
    else
      match v
      case Int(i) => Some(i)
      case Bool(_) => Some(1)
      case Num(r) => Some(Truncate(r))
      case Str(s) => parseInt(s)
      case _ => None
  }

  /** `usage or {}`, of which an object is asked. */
  function UsageFields(usage: Json): Option<map<string, Json>> {
    if usage.Obj? then Some(usage.fields) else if Falsy(usage) then Some(map[]) else None
  }

  function Amounts(usage: Json, parseInt: string -> Option<int>): Option<Counts> {
    var fields := UsageFields(usage);
    if fields.None? then None
    else
      var input, output := Amount(Get(fields.value, "input"), parseInt), Amount(Get(fields.value, "output"), parseInt);
      var read := Amount(Get(fields.value, "cacheRead"), parseInt);
      var write := Amount(Get(fields.value, "cacheWrite"), parseInt);
      var reasoning := Amount(Get(fields.value, "reasoning"), parseInt);
      var total := Amount(Get(fields.value, "totalTokens"), parseInt);
      if input.Some? && output.Some? && read.Some? && write.Some? && reasoning.Some? && total.Some?
      then Some(Counts(input.value, output.value, read.value, write.value, reasoning.value, total.value))
      else None
  }

  // ---- Provider turns ----

  /** None where the provider did not report a counter. */
  datatype TurnUsage = TurnUsage(
    input: Option<int>, output: Option<int>, cacheRead: Option<int>, cacheWrite: Option<int>,
    reasoning: Option<int>, total: Option<int>)

  datatype ProviderTurn = ProviderTurn(index: nat, event: nat, usage: TurnUsage, stopReason: Option<string>)

  predicate WholeCount(v: Json) {
    (v.Int? && v.i >= 0) || (v.Num? && v.r >= 0.0 && v.r == v.r.Floor as real)
  }

  predicate CountOk(fields: map<string, Json>, key: string) {
    key in fields ==> WholeCount(fields[key])
  }

  function CountOf(fields: map<string, Json>, key: string): Option<int>
    requires CountOk(fields, key)
  {
    if key !in fields then None else Some(if fields[key].Int? then fields[key].i else fields[key].r.Floor)
  }

  function ProviderFields(usage: Json): map<string, Json> {
    if usage.Obj? then usage.fields else map[]
  }

  predicate UsageOk(usage: Json) {
    var f := ProviderFields(usage);
    && CountOk(f, "input") && CountOk(f, "output") && CountOk(f, "cacheRead") && CountOk(f, "cacheWrite")
    && CountOk(f, "reasoning") && CountOk(f, "totalTokens")
  }

  function UsageOf(usage: Json): TurnUsage
    requires UsageOk(usage)
  {
    var f := ProviderFields(usage);
    TurnUsage(CountOf(f, "input"), CountOf(f, "output"), CountOf(f, "cacheRead"), CountOf(f, "cacheWrite"),
              CountOf(f, "reasoning"), CountOf(f, "totalTokens"))
  }

  function Reported(o: Option<int>): int {
    if o.Some? then o.value else 0
  }

  function CountsOf(u: TurnUsage): Counts {
    Counts(Reported(u.input), Reported(u.output), Reported(u.cacheRead), Reported(u.cacheWrite),
           Reported(u.reasoning), Reported(u.total))
  }

  lemma CountIsAmount(fields: map<string, Json>, key: string, parseInt: string -> Option<int>)
    requires CountOk(fields, key)
    ensures Amount(Get(fields, key), parseInt) == Some(Reported(CountOf(fields, key)))
  {}

  /** For a provider turn, what is reported and what is added to the totals agree. */
  lemma ReportedIsAdded(usage: Json, parseInt: string -> Option<int>)
    requires UsageOk(usage) && UsageFields(usage).Some?
    ensures Amounts(usage, parseInt) == Some(CountsOf(UsageOf(usage)))
  {
    var f := ProviderFields(usage);
    hide Amount, CountOk, CountOf;
    CountIsAmount(f, "input", parseInt);
    CountIsAmount(f, "output", parseInt);
    CountIsAmount(f, "cacheRead", parseInt);
    CountIsAmount(f, "cacheWrite", parseInt);
    CountIsAmount(f, "reasoning", parseInt);
    CountIsAmount(f, "totalTokens", parseInt);
    assert UsageFields(usage) == Some(f);
  }

  /** Whether one assistant message can be accounted for at all. */
  predicate Countable(m: Message, synthetic: bool, parseInt: string -> Option<int>) {
    Amounts(m.usage, parseInt).Some? && (synthetic || UsageOk(m.usage))
  }

  // ---- The fold ----

  /** Everything the loop gathers that does not ask whether a message is synthetic. */
  datatype Gathered = Gathered(
    session: Option<string>, assistants: nat, usage: Counts, executions: seq<Execution>, rejections: nat,
    finalText: Option<seq<string>>, preamble: seq<string>, requested: bool)

  const EMPTY := Gathered(None, 0, NO_COUNTS, [], 0, None, [], false)

  function Texts(content: seq<Item>): seq<string> {
    if content == [] then []
    else
      var n := |content| - 1;
      Texts(content[..n]) + if content[n].Text? then [content[n].text] else []
  }

  /** Text written before the first tool request of the whole stream. */
  function Preamble(texts: seq<string>, requested: bool, content: seq<Item>): (seq<string>, bool) {
    if content == [] then (texts, requested)
    else
      var n := |content| - 1;
      var (t, r) := Preamble(texts, requested, content[..n]);
      if content[n].Call? then (t, true)
      else if content[n].Text? && !r && content[n].text != "" then (t + [content[n].text], r)
      else (t, r)
  }

  function Step(g: Gathered, e: Event, parseInt: string -> Option<int>): Gathered {
    match e
    case Session(id) => g.(session := Some(id))
    case MessageEnd(m) =>
      if !m.assistant then g
      else
        var (preamble, requested) := Preamble(g.preamble, g.requested, m.content);
        var texts := Texts(m.content);
        var counts := Amounts(m.usage, parseInt);
        g.(assistants := g.assistants + 1,
           usage := if counts.Some? then Plus(g.usage, counts.value) else g.usage,
           preamble := preamble, requested := requested,
           finalText := if texts == [] then g.finalText else Some(texts))
    case ExecutionEnd(x) =>
      g.(executions := g.executions + [x], rejections := g.rejections + if x.result.budgetRejected then 1 else 0)
    case _ => g
  }

  function Gather(events: seq<Event>, parseInt: string -> Option<int>): Gathered {
    if events == [] then EMPTY else Step(Gather(events[..|events| - 1], parseInt), events[|events| - 1], parseInt)
  }

  ghost predicate AllCountable(events: seq<Event>, receipt: Option<BudgetReceipt>, parseInt: string -> Option<int>,
                               n: nat)
    requires n <= |events|
  {
    forall i :: 0 <= i < n && IsAssistant(events[i]) ==>
      Countable(events[i].message, Synthetic(events, receipt, i), parseInt)
  }

  /** The provider-backed turns among the first n events. */
  ghost function Turns(events: seq<Event>, receipt: Option<BudgetReceipt>, n: nat): seq<ProviderTurn>
    requires n <= |events|
  {
    if n == 0 then []
    else
      var before, e := Turns(events, receipt, n - 1), events[n - 1];
      if IsAssistant(e) && !Synthetic(events, receipt, n - 1) && UsageOk(e.message.usage)
      then before + [ProviderTurn(|before| + 1, n - 1, UsageOf(e.message.usage), e.message.stopReason)]
      else before
  }

  ghost function SyntheticIndices(events: seq<Event>, receipt: Option<BudgetReceipt>): set<nat> {
    set i: nat | i < |events| && Synthetic(events, receipt, i)
  }

  datatype Normalized = Normalized(gathered: Gathered, turns: seq<ProviderTurn>, synthetics: nat)

  method NormalizePiEvents(events: seq<Event>, receipt: Option<BudgetReceipt>, parseInt: string -> Option<int>)
    returns (result: Result<Normalized>)
    ensures result.Ok? <==> AllCountable(events, receipt, parseInt, |events|)
    ensures result.Ok? ==>
      && result.value.gathered == Gather(events, parseInt)
      && result.value.turns == Turns(events, receipt, |events|)
      && result.value.synthetics == |SyntheticIndices(events, receipt)|
  {
    var synthetics := FindSynthetics(events, receipt);
    hide *;
    var session: Option<string>, finalText: Option<seq<string>> := None, None;
    var assistants: nat, rejections: nat := 0, 0;
    var usage := Counts(0, 0, 0, 0, 0, 0);
    var executions: seq<Execution>, preamble: seq<string>, turns: seq<ProviderTurn> := [], [], [];
    var requested := false;
    Beginning(events, receipt, parseInt);
    NothingGathered();
    for i := 0 to |events|
      invariant AllCountable(events, receipt, parseInt, i)
      invariant Gather(events[..i], parseInt)
             == Gathered(session, assistants, usage, executions, rejections, finalText, preamble, requested)
      invariant turns == Turns(events, receipt, i)
    {
      var e := events[i];
      GatherStep(events, parseInt, i);
      TurnsStep(events, receipt, i);
      CountableStep(events, receipt, parseInt, i);
      StepBy(Gather(events[..i], parseInt), e, parseInt);
      match e {
        case Session(id) =>
          session := Some(id);
        case MessageEnd(m) =>
          if !m.assistant {
            continue;
          }
          if !Countable(m, i in synthetics, parseInt) {
            return Err("assistant usage must be a non-negative integer");
          }
          CountableTurn(m, i in synthetics, parseInt);
          assistants := assistants + 1;
          if i !in synthetics {
            turns := turns + [ProviderTurn(|turns| + 1, i, UsageOf(m.usage), m.stopReason)];
          }
          var counts := Amounts(m.usage, parseInt).value;
          usage := Counts(usage.input + counts.input, usage.output + counts.output, usage.cacheRead + counts.cacheRead,
                          usage.cacheWrite + counts.cacheWrite, usage.reasoning + counts.reasoning,
                          usage.total + counts.total);
          var texts;
          preamble, requested, texts := ReadContent(preamble, requested, m.content);
          if texts != [] {
            finalText := Some(texts);
          }
        case ExecutionEnd(x) =>
          if x.result.budgetRejected {
            rejections := rejections + 1;
          }
          executions := executions + [x];
        case _ =>
      }
    }
    assert events[..|events|] == events;
    return Ok(Normalized(Gathered(session, assistants, usage, executions, rejections, finalText, preamble, requested),
                         turns, |synthetics|));
  }

  lemma NothingGathered()
    ensures EMPTY == Gathered(None, 0, Counts(0, 0, 0, 0, 0, 0), [], 0, None, [], false)
  {}

  /** The step of the fold, spelt out by the kind of event. */
  lemma StepBy(g: Gathered, e: Event, parseInt: string -> Option<int>)
    ensures IsAssistant(e) <==> e.MessageEnd? && e.message.assistant
    ensures e.Session? ==> Step(g, e, parseInt) == g.(session := Some(e.id))
    ensures e.ExecutionEnd? ==>
      Step(g, e, parseInt) == g.(executions := g.executions + [e.execution],
                                 rejections := g.rejections + if e.execution.result.budgetRejected then 1 else 0)
    ensures e.ExecutionStart? || e.Other? || (e.MessageEnd? && !e.message.assistant) ==> Step(g, e, parseInt) == g
    ensures e.MessageEnd? && e.message.assistant && Amounts(e.message.usage, parseInt).Some? ==>
      var c := Amounts(e.message.usage, parseInt).value;
      var texts := Texts(e.message.content);
      var (preamble, requested) := Preamble(g.preamble, g.requested, e.message.content);
      Step(g, e, parseInt)
      == Gathered(g.session, g.assistants + 1,
                  Counts(g.usage.input + c.input, g.usage.output + c.output, g.usage.cacheRead + c.cacheRead,
                         g.usage.cacheWrite + c.cacheWrite, g.usage.reasoning + c.reasoning, g.usage.total + c.total),
                  g.executions, g.rejections, if texts == [] then g.finalText else Some(texts), preamble, requested)
  {
    hide Amounts, Preamble, Texts;
  }

  /** One message's content: text before the first tool request, and all its texts. */
  method ReadContent(before: seq<string>, requestedBefore: bool, content: seq<Item>)
    returns (preamble: seq<string>, requested: bool, texts: seq<string>)
    ensures (preamble, requested) == Preamble(before, requestedBefore, content) && texts == Texts(content)
  {
    preamble, requested, texts := before, requestedBefore, [];
    for i := 0 to |content|
      invariant (preamble, requested) == Preamble(before, requestedBefore, content[..i])
      invariant texts == Texts(content[..i])
    {
      assert content[..i + 1][..i] == content[..i];
      var item := content[i];
      if item.Call? {
        requested := true;
      } else if item.Text? && !requested {
        if item.text != "" {
          preamble := preamble + [item.text];
        }
      }
      if item.Text? {
        texts := texts + [item.text];
      }
    }
    assert content[..|content|] == content;
  }

  method FindSynthetics(events: seq<Event>, receipt: Option<BudgetReceipt>) returns (synthetics: set<nat>)
    ensures synthetics == SyntheticIndices(events, receipt)
    ensures forall i: nat :: i < |events| ==> (i in synthetics <==> Synthetic(events, receipt, i))
  {
    hide Synthetic;
    synthetics := {};
    for i := 0 to |events|
      invariant forall k: nat :: k in synthetics <==> k < i && Synthetic(events, receipt, k)
    {
      NotAssistant(events, receipt, i);
      if IsAssistant(events[i]) {
        var synthetic := IsTerminalSyntheticAbort(events, receipt, i);
        if synthetic {
          synthetics := synthetics + {i};
        }
      }
    }
  }

  lemma Beginning(events: seq<Event>, receipt: Option<BudgetReceipt>, parseInt: string -> Option<int>)
    ensures AllCountable(events, receipt, parseInt, 0) && Gather(events[..0], parseInt) == EMPTY
    ensures Turns(events, receipt, 0) == []
  {}

  lemma GatherStep(events: seq<Event>, parseInt: string -> Option<int>, n: nat)
    requires n < |events|
    ensures Gather(events[..n + 1], parseInt) == Step(Gather(events[..n], parseInt), events[n], parseInt)
  {
    hide Step;
    assert events[..n + 1][..n] == events[..n];
  }

  lemma TurnsStep(events: seq<Event>, receipt: Option<BudgetReceipt>, n: nat)
    requires n < |events|
    ensures var before, e := Turns(events, receipt, n), events[n];
      Turns(events, receipt, n + 1) ==
        if IsAssistant(e) && !Synthetic(events, receipt, n) && UsageOk(e.message.usage)
        then before + [ProviderTurn(|before| + 1, n, UsageOf(e.message.usage), e.message.stopReason)]
        else before
  {
    hide Synthetic, UsageOk, UsageOf;
  }

  lemma CountableStep(events: seq<Event>, receipt: Option<BudgetReceipt>, parseInt: string -> Option<int>, n: nat)
    requires n < |events|
    ensures AllCountable(events, receipt, parseInt, n + 1)
      <==> AllCountable(events, receipt, parseInt, n)
           && (IsAssistant(events[n]) ==> Countable(events[n].message, Synthetic(events, receipt, n), parseInt))
    ensures AllCountable(events, receipt, parseInt, |events|) ==> AllCountable(events, receipt, parseInt, n + 1)
  {
    hide Synthetic, Countable;
  }

  lemma NotAssistant(events: seq<Event>, receipt: Option<BudgetReceipt>, i: nat)
    requires i < |events|
    ensures Synthetic(events, receipt, i) ==> IsAssistant(events[i])
  {
    hide FollowsToolAbort;
  }

  lemma CountableTurn(m: Message, synthetic: bool, parseInt: string -> Option<int>)
    requires Countable(m, synthetic, parseInt)
    ensures Amounts(m.usage, parseInt).Some? && (synthetic || UsageOk(m.usage))
  {}

  // ---- Accounting laws ----

  function TurnTotals(turns: seq<ProviderTurn>): Counts {
    if turns == [] then NO_COUNTS
    else Plus(TurnTotals(turns[..|turns| - 1]), CountsOf(turns[|turns| - 1].usage))
  }

  /** What the synthetic messages among the first n events add to the totals. */
  ghost function SyntheticCounts(events: seq<Event>, receipt: Option<BudgetReceipt>, parseInt: string -> Option<int>,
                                 n: nat): Counts
    requires n <= |events|
  {
    if n == 0 then NO_COUNTS
    else
      var before := SyntheticCounts(events, receipt, parseInt, n - 1);
      if Synthetic(events, receipt, n - 1) && Amounts(events[n - 1].message.usage, parseInt).Some?
      then Plus(before, Amounts(events[n - 1].message.usage, parseInt).value) else before
  }

  /** A synthetic message has only its reasoning tokens to add. */
  lemma SyntheticAddsOnlyReasoning(m: Message, parseInt: string -> Option<int>)
    requires LocalShape(m) && Amounts(m.usage, parseInt).Some?
    ensures Amounts(m.usage, parseInt).value
         == NO_COUNTS.(reasoning := Amount(Get(m.usage.fields, "reasoning"), parseInt).value)
  {
    forall i | 0 <= i < |ZERO_FIELDS| ensures Amount(Get(m.usage.fields, ZERO_FIELDS[i]), parseInt) == Some(0) {
      assert ZERO_FIELDS[i] in ZERO_FIELDS;
    }
    assert ZERO_FIELDS[0] == "input" && ZERO_FIELDS[1] == "output" && ZERO_FIELDS[2] == "cacheRead"
        && ZERO_FIELDS[3] == "cacheWrite" && ZERO_FIELDS[4] == "totalTokens";
  }

  lemma {:induction false} TotalsSplit(events: seq<Event>, receipt: Option<BudgetReceipt>,
                                       parseInt: string -> Option<int>, n: nat)
    requires n <= |events| && AllCountable(events, receipt, parseInt, n)
    ensures Gather(events[..n], parseInt).usage
         == Plus(TurnTotals(Turns(events, receipt, n)), SyntheticCounts(events, receipt, parseInt, n))
  {
    hide *;
    if n == 0 {
      Beginning(events, receipt, parseInt);
      NothingCounted(events, receipt, parseInt);
    } else {
      CountableStep(events, receipt, parseInt, n - 1);
      TotalsSplit(events, receipt, parseInt, n - 1);
      GatherStep(events, parseInt, n - 1);
      TurnsStep(events, receipt, n - 1);
      SyntheticStep(events, receipt, parseInt, n - 1);
      var e := events[n - 1];
      NotAssistant(events, receipt, n - 1);
      StepAddsUsage(Gather(events[..n - 1], parseInt), e, parseInt);
      if IsAssistant(e) {
        CountableTurn(e.message, Synthetic(events, receipt, n - 1), parseInt);
        if !Synthetic(events, receipt, n - 1) {
          HasFields(e.message.usage, parseInt);
          ReportedIsAdded(e.message.usage, parseInt);
          var before := Turns(events, receipt, n - 1);
          OneMoreTurn(before, ProviderTurn(|before| + 1, n - 1, UsageOf(e.message.usage), e.message.stopReason));
        }
        Reassociate(TurnTotals(Turns(events, receipt, n - 1)), SyntheticCounts(events, receipt, parseInt, n - 1),
                    Amounts(e.message.usage, parseInt).value);
      }
    }
  }

  lemma NothingCounted(events: seq<Event>, receipt: Option<BudgetReceipt>, parseInt: string -> Option<int>)
    ensures SyntheticCounts(events, receipt, parseInt, 0) == NO_COUNTS && TurnTotals([]) == NO_COUNTS
    ensures EMPTY.usage == NO_COUNTS == Plus(NO_COUNTS, NO_COUNTS) && NO_COUNTS.reasoning == 0
  {}

  lemma SyntheticStep(events: seq<Event>, receipt: Option<BudgetReceipt>, parseInt: string -> Option<int>, n: nat)
    requires n < |events|
    ensures var before := SyntheticCounts(events, receipt, parseInt, n);
      SyntheticCounts(events, receipt, parseInt, n + 1) ==
        if IsAssistant(events[n]) && Synthetic(events, receipt, n) && Amounts(events[n].message.usage, parseInt).Some?
        then Plus(before, Amounts(events[n].message.usage, parseInt).value) else before
  {
    hide Synthetic, Amounts;
    NotAssistant(events, receipt, n);
  }

  lemma StepAddsUsage(g: Gathered, e: Event, parseInt: string -> Option<int>)
    ensures Step(g, e, parseInt).usage ==
      if IsAssistant(e) && Amounts(e.message.usage, parseInt).Some?
      then Plus(g.usage, Amounts(e.message.usage, parseInt).value) else g.usage
  {
    hide Amounts, Preamble, Texts, Plus;
  }

  lemma OneMoreTurn(before: seq<ProviderTurn>, turn: ProviderTurn)
    ensures TurnTotals(before + [turn]) == Plus(TurnTotals(before), CountsOf(turn.usage))
  {
    assert (before + [turn])[..|before|] == before;
  }

  lemma Reassociate(a: Counts, b: Counts, c: Counts)
    ensures Plus(Plus(a, b), c) == Plus(Plus(a, c), b) == Plus(a, Plus(b, c))
  {}

  lemma HasFields(usage: Json, parseInt: string -> Option<int>)
    ensures Amounts(usage, parseInt).Some? ==> UsageFields(usage).Some?
  {}

  /** With at most one synthetic index, its counts are those of that one message, or nothing. */
  lemma {:induction false} OneSyntheticCounts(events: seq<Event>, receipt: Option<BudgetReceipt>,
                                              parseInt: string -> Option<int>, i: nat, n: nat)
    requires i < |events| && n <= |events| && Synthetic(events, receipt, i) && IsAssistant(events[i])
    requires Amounts(events[i].message.usage, parseInt).Some?
    ensures SyntheticCounts(events, receipt, parseInt, n)
         == if i < n then Amounts(events[i].message.usage, parseInt).value else NO_COUNTS
  {
    hide Synthetic, Amounts;
    if n > 0 {
      OneSyntheticCounts(events, receipt, parseInt, i, n - 1);
      NotAssistant(events, receipt, n - 1);
      if Synthetic(events, receipt, n - 1) {
        AtMostOneSynthetic(events, receipt, i, n - 1);
      }
    }
  }

  lemma {:induction false} NoSyntheticCounts(events: seq<Event>, receipt: Option<BudgetReceipt>,
                                             parseInt: string -> Option<int>, n: nat)
    requires n <= |events| && forall i: nat :: i < |events| ==> !Synthetic(events, receipt, i)
    ensures SyntheticCounts(events, receipt, parseInt, n) == NO_COUNTS
  {
    hide Synthetic;
    if n > 0 {
      NoSyntheticCounts(events, receipt, parseInt, n - 1);
    }
  }

  /** The synthetic message of the stream, if there is one. */
  ghost predicate IsTheSynthetic(events: seq<Event>, receipt: Option<BudgetReceipt>, i: nat) {
    i < |events| && IsAssistant(events[i]) && Synthetic(events, receipt, i)
  }

  /** Main result: every counter except reasoning is the sum over the provider turns alone, and the
      reasoning counter exceeds that sum by exactly what the synthetic message reports: the zero-usage
      test does not look at it. */
  lemma CountersAreProviderSums(events: seq<Event>, receipt: Option<BudgetReceipt>, parseInt: string -> Option<int>,
                                i: nat)
    requires AllCountable(events, receipt, parseInt, |events|) && IsTheSynthetic(events, receipt, i)
    ensures var total, turns := Gather(events, parseInt).usage, TurnTotals(Turns(events, receipt, |events|));
      var reasoning := Reasoning(events[i].message, parseInt);
      reasoning.Some? && total == turns.(reasoning := turns.reasoning + reasoning.value)
  {
    hide *;
    SyntheticAt(events, receipt, i);
    assert events[..|events|] == events;
    TotalsSplit(events, receipt, parseInt, |events|);
    SyntheticIsCountable(events, receipt, parseInt, i);
    OneSyntheticCounts(events, receipt, parseInt, i, |events|);
    OnlyReasoning(events, receipt, parseInt, i);
    AddReasoning(TurnTotals(Turns(events, receipt, |events|)), Reasoning(events[i].message, parseInt).value);
  }

  lemma SyntheticAt(events: seq<Event>, receipt: Option<BudgetReceipt>, i: nat)
    requires IsTheSynthetic(events, receipt, i)
    ensures i < |events| && IsAssistant(events[i]) && Synthetic(events, receipt, i)
  {
    hide Synthetic;
  }

  /** Without a synthetic message all six counters are the sums over the provider turns. */
  lemma WithoutSyntheticAllCountersAgree(events: seq<Event>, receipt: Option<BudgetReceipt>,
                                         parseInt: string -> Option<int>)
    requires AllCountable(events, receipt, parseInt, |events|) && forall i: nat :: !IsTheSynthetic(events, receipt, i)
    ensures Gather(events, parseInt).usage == TurnTotals(Turns(events, receipt, |events|))
  {
    hide *;
    assert events[..|events|] == events;
    TotalsSplit(events, receipt, parseInt, |events|);
    forall i: nat | i < |events| ensures !Synthetic(events, receipt, i) {
      NotAssistant(events, receipt, i);
      NotTheSynthetic(events, receipt, i);
    }
    NoSyntheticCounts(events, receipt, parseInt, |events|);
    AddReasoning(TurnTotals(Turns(events, receipt, |events|)), 0);
  }

  lemma NotTheSynthetic(events: seq<Event>, receipt: Option<BudgetReceipt>, i: nat)
    requires i < |events| && !IsTheSynthetic(events, receipt, i)
    ensures IsAssistant(events[i]) ==> !Synthetic(events, receipt, i)
  {
    hide Synthetic;
  }

  function Reasoning(m: Message, parseInt: string -> Option<int>): Option<int> {
    if m.usage.Obj? then Amount(Get(m.usage.fields, "reasoning"), parseInt) else Some(0)
  }

  lemma SyntheticIsCountable(events: seq<Event>, receipt: Option<BudgetReceipt>, parseInt: string -> Option<int>,
                             i: nat)
    requires i < |events| && IsAssistant(events[i]) && AllCountable(events, receipt, parseInt, |events|)
    ensures Amounts(events[i].message.usage, parseInt).Some?
  {
    hide Synthetic, Amounts, UsageOk;
  }

  lemma OnlyReasoning(events: seq<Event>, receipt: Option<BudgetReceipt>, parseInt: string -> Option<int>, i: nat)
    requires i < |events| && IsAssistant(events[i]) && Synthetic(events, receipt, i)
    requires Amounts(events[i].message.usage, parseInt).Some?
    ensures var r := Reasoning(events[i].message, parseInt);
      r.Some? && Amounts(events[i].message.usage, parseInt).value == NO_COUNTS.(reasoning := r.value)
  {
    hide FollowsToolAbort, Amount;
    SyntheticAddsOnlyReasoning(events[i].message, parseInt);
  }

  lemma AddReasoning(turns: Counts, r: int)
    ensures Plus(turns, NO_COUNTS.(reasoning := r)) == turns.(reasoning := turns.reasoning + r)
    ensures Plus(turns, NO_COUNTS) == turns
  {}

  const THINKING_ABORT := Message(
    true, [], Some("p"), Some("m"),
    Obj(map["input" := Int(0), "output" := Int(0), "cacheRead" := Int(0), "cacheWrite" := Int(0),
            "totalTokens" := Int(0), "reasoning" := Int(7)]),
    Some("aborted"), Some("Request aborted"))

  lemma ThinkingAbortCounts(parseInt: string -> Option<int>)
    ensures THINKING_ABORT.stopReason == Some("aborted") && THINKING_ABORT.errorMessage == Some("Request aborted")
    ensures LocalShape(THINKING_ABORT) && Amounts(THINKING_ABORT.usage, parseInt) == Some(NO_COUNTS.(reasoning := 7))
  {
    var f := THINKING_ABORT.usage.fields;
    assert Get(f, "input") == Get(f, "output") == Int(0);
    assert Get(f, "cacheRead") == Get(f, "cacheWrite") == Get(f, "totalTokens") == Int(0);
    assert Get(f, "reasoning") == Int(7);
  }

  /** A recorded stream whose reasoning counter covers more than its provider turns. */
  lemma ReasoningMayExceedTheTurns(parseInt: string -> Option<int>)
    ensures var events, receipt := [MessageEnd(THINKING_ABORT)], Some(BudgetReceipt(true, 1));
      && Synthetic(events, receipt, 0) && AllCountable(events, receipt, parseInt, 1)
      && Gather(events, parseInt).usage.reasoning == 7 && Turns(events, receipt, 1) == []
  {
    hide *;
    var m, receipt := THINKING_ABORT, Some(BudgetReceipt(true, 1));
    var events := [MessageEnd(m)];
    ThinkingAbortCounts(parseInt);
    AloneIsSynthetic(m, parseInt);
    Beginning(events, receipt, parseInt);
    GatherStep(events, parseInt, 0);
    TurnsStep(events, receipt, 0);
    CountableStep(events, receipt, parseInt, 0);
    StepAddsUsage(Gather(events[..0], parseInt), events[0], parseInt);
    NothingCounted(events, receipt, parseInt);
    AddReasoning(NO_COUNTS, 7);
    assert events[..1] == events;
  }

  lemma AloneIsSynthetic(m: Message, parseInt: string -> Option<int>)
    requires LocalShape(m) && m.stopReason == Some("aborted") && m.errorMessage == Some("Request aborted")
    requires Amounts(m.usage, parseInt).Some?
    ensures Synthetic([MessageEnd(m)], Some(BudgetReceipt(true, 1)), 0) && IsAssistant(MessageEnd(m))
    ensures Countable(m, true, parseInt)
  {
    hide HasZeroTokenUsage, Amounts;
  }

  /** Main result: at most one message is classed synthetic, and the assistant messages are the
      provider turns plus it. */
  lemma MessagesBalance(events: seq<Event>, receipt: Option<BudgetReceipt>, parseInt: string -> Option<int>)
    requires AllCountable(events, receipt, parseInt, |events|)
    ensures Gather(events, parseInt).assistants
         == |Turns(events, receipt, |events|)| + |SyntheticIndices(events, receipt)|
    ensures |SyntheticIndices(events, receipt)| <= 1
  {
    hide *;
    assert events[..|events|] == events;
    BalanceUpTo(events, receipt, parseInt, |events|);
    AllBelow(events, receipt);
    OneIndex(events, receipt);
  }

  ghost function SyntheticBelow(events: seq<Event>, receipt: Option<BudgetReceipt>, n: nat): set<nat>
    requires n <= |events|
  {
    set i: nat | i < n && Synthetic(events, receipt, i)
  }

  lemma AllBelow(events: seq<Event>, receipt: Option<BudgetReceipt>)
    ensures SyntheticBelow(events, receipt, |events|) == SyntheticIndices(events, receipt)
  {
    hide Synthetic;
  }

  lemma OneIndex(events: seq<Event>, receipt: Option<BudgetReceipt>)
    ensures |SyntheticIndices(events, receipt)| <= 1
  {
    hide Synthetic;
    var all := SyntheticIndices(events, receipt);
    if i :| i in all {
      forall j <- all ensures j == i {
        AtMostOneSynthetic(events, receipt, i, j);
      }
      assert all == {i};
    }
  }

  lemma BelowStep(events: seq<Event>, receipt: Option<BudgetReceipt>, n: nat)
    requires n < |events|
    ensures |SyntheticBelow(events, receipt, n + 1)|
         == |SyntheticBelow(events, receipt, n)| + if Synthetic(events, receipt, n) then 1 else 0
  {
    hide Synthetic;
    var before := SyntheticBelow(events, receipt, n);
    assert SyntheticBelow(events, receipt, n + 1) == if Synthetic(events, receipt, n) then before + {n} else before;
  }

  lemma {:induction false} BalanceUpTo(events: seq<Event>, receipt: Option<BudgetReceipt>,
                                       parseInt: string -> Option<int>, n: nat)
    requires n <= |events| && AllCountable(events, receipt, parseInt, n)
    ensures Gather(events[..n], parseInt).assistants
         == |Turns(events, receipt, n)| + |SyntheticBelow(events, receipt, n)|
  {
    hide *;
    if n == 0 {
      Beginning(events, receipt, parseInt);
      NoneBelow(events, receipt);
    } else {
      CountableStep(events, receipt, parseInt, n - 1);
      BalanceUpTo(events, receipt, parseInt, n - 1);
      GatherStep(events, parseInt, n - 1);
      TurnsStep(events, receipt, n - 1);
      BelowStep(events, receipt, n - 1);
      NotAssistant(events, receipt, n - 1);
      StepCountsAssistants(Gather(events[..n - 1], parseInt), events[n - 1], parseInt);
      if IsAssistant(events[n - 1]) {
        CountableTurn(events[n - 1].message, Synthetic(events, receipt, n - 1), parseInt);
      }
    }
  }

  lemma NoneBelow(events: seq<Event>, receipt: Option<BudgetReceipt>)
    ensures SyntheticBelow(events, receipt, 0) == {} && EMPTY.assistants == 0
  {}

  lemma StepCountsAssistants(g: Gathered, e: Event, parseInt: string -> Option<int>)
    ensures Step(g, e, parseInt).assistants == g.assistants + if IsAssistant(e) then 1 else 0
  {
    hide Amounts, Preamble, Texts, Plus;
  }

  // ---- Erasing the synthetic message ----

  /** Equal up to the message count and the reasoning tokens. */
  predicate SameButReasoning(a: Gathered, b: Gathered) {
    a.(assistants := 0, usage := a.usage.(reasoning := 0)) == b.(assistants := 0, usage := b.usage.(reasoning := 0))
  }

  lemma StepKeepsAgreement(a: Gathered, b: Gathered, e: Event, parseInt: string -> Option<int>)
    requires SameButReasoning(a, b)
    ensures SameButReasoning(Step(a, e, parseInt), Step(b, e, parseInt))
  {
    hide Amounts, Preamble, Texts;
  }

  lemma SyntheticChangesOnlyReasoning(g: Gathered, m: Message, parseInt: string -> Option<int>)
    requires LocalShape(m) && Amounts(m.usage, parseInt).Some?
    ensures SameButReasoning(Step(g, MessageEnd(m), parseInt), g)
  {
    SyntheticAddsOnlyReasoning(m, parseInt);
    hide Amounts, Amount;
  }

  function Erased(events: seq<Event>, i: nat): seq<Event>
    requires i < |events|
  {
    events[..i] + events[i + 1..]
  }

  lemma {:induction false} ErasureAgrees(events: seq<Event>, parseInt: string -> Option<int>, i: nat, n: nat)
    requires i < n <= |events| && events[i].MessageEnd?
    requires LocalShape(events[i].message) && Amounts(events[i].message.usage, parseInt).Some?
    ensures SameButReasoning(Gather(events[..n], parseInt), Gather(Erased(events[..n], i), parseInt))
  {
    hide SameButReasoning, Step, LocalShape, Amounts;
    GatherStep(events, parseInt, n - 1);
    if n == i + 1 {
      assert Erased(events[..n], i) == events[..i];
      SyntheticChangesOnlyReasoning(Gather(events[..i], parseInt), events[i].message, parseInt);
    } else {
      ErasureAgrees(events, parseInt, i, n - 1);
      var shorter := Erased(events[..n - 1], i);
      assert Erased(events[..n], i) == shorter + [events[n - 1]];
      assert (shorter + [events[n - 1]])[..|shorter|] == shorter;
      StepKeepsAgreement(Gather(events[..n - 1], parseInt), Gather(shorter, parseInt), events[n - 1], parseInt);
    }
  }

  /** Main result: deleting the synthetic message changes none of the input, output, cache and total
      counters, the tool executions, the rejections, the session, the final text or the preamble. */
  lemma ErasingTheSyntheticChangesNothingElse(events: seq<Event>, receipt: Option<BudgetReceipt>,
                                              parseInt: string -> Option<int>, i: nat)
    requires i < |events| && Synthetic(events, receipt, i) && AllCountable(events, receipt, parseInt, |events|)
    ensures SameButReasoning(Gather(events, parseInt), Gather(Erased(events, i), parseInt))
  {
    hide FollowsToolAbort, Gather, Amounts, SameButReasoning;
    NotAssistant(events, receipt, i);
    SyntheticIsCountable(events, receipt, parseInt, i);
    assert events[..|events|] == events;
    ErasureAgrees(events, parseInt, i, |events|);
  }

  /** The stream without its synthetic message still normalises, whatever is then last. */
  lemma ErasedStillNormalises(events: seq<Event>, receipt: Option<BudgetReceipt>, parseInt: string -> Option<int>,
                              i: nat)
    requires i < |events| && Synthetic(events, receipt, i) && AllCountable(events, receipt, parseInt, |events|)
    ensures var rest := Erased(events, i); AllCountable(rest, receipt, parseInt, |rest|)
  {
    hide Synthetic, Amounts, UsageOk;
    var rest := Erased(events, i);
    forall k | 0 <= k < |rest| && IsAssistant(rest[k])
      ensures Countable(rest[k].message, Synthetic(rest, receipt, k), parseInt)
    {
      var original := if k < i then k else k + 1;
      assert rest[k] == events[original];
      if Synthetic(events, receipt, original) {
        AtMostOneSynthetic(events, receipt, i, original);
      }
      assert Countable(events[original].message, Synthetic(events, receipt, original), parseInt);
    }
  }

  // ---- The turns of the erased stream ----

  /** Nothing after position i speaks or runs. */
  lemma QuietTail(events: seq<Event>, receipt: Option<BudgetReceipt>, i: nat)
    requires i < |events| && Synthetic(events, receipt, i)
    ensures IsAssistant(events[i])
    ensures forall j :: i < j < |events| ==>
      !events[j].ExecutionStart? && !Anchors(events[j]) && !IsAssistant(events[j])
  {
    hide FollowsToolAbort, LocalShape;
    NotAssistant(events, receipt, i);
  }

  lemma FollowsAlike(a: seq<Event>, b: seq<Event>, k: nat)
    requires k < |a| && k < |b| && a[..k] == b[..k]
    ensures FollowsToolAbort(a, k) ==> FollowsToolAbort(b, k)
  {
    assert forall j :: 0 <= j < k ==> a[j] == a[..k][j] == b[..k][j] == b[j];
    if FollowsToolAbort(a, k) {
      var x, p :| 0 <= p < x < k && AbortedBefore(a, k, x) && LinkedCall(a, x, p);
      assert AbortedBefore(b, k, x) && LinkedCall(b, x, p);
    }
  }

  /** Before the erased message, the rest of the stream is judged like the prefix on its own. */
  lemma JudgedAlike(events: seq<Event>, receipt: Option<BudgetReceipt>, i: nat, k: nat)
    requires k < i < |events| && Synthetic(events, receipt, i)
    ensures Synthetic(Erased(events, i), receipt, k) <==> Synthetic(events[..i], receipt, k)
  {
    hide FollowsToolAbort, LocalShape, AbortedRequest, AbortedOperation, BudgetBlocked;
    var rest, before := Erased(events, i), events[..i];
    QuietTail(events, receipt, i);
    assert rest[..k] == before[..k] && rest[k] == before[k];
    FollowsAlike(rest, before, k);
    FollowsAlike(before, rest, k);
    assert QuietAfter(rest, k) <==> QuietAfter(before, k) by {
      assert forall j :: k < j < i ==> rest[j] == before[j];
      assert forall j :: i <= j < |rest| ==> rest[j] == events[j + 1];
    }
  }

  lemma {:induction false} TurnsAgree(a: seq<Event>, b: seq<Event>, receipt: Option<BudgetReceipt>, n: nat)
    requires n <= |a| && n <= |b| && a[..n] == b[..n]
    requires forall k :: 0 <= k < n ==> !Synthetic(a, receipt, k) && !Synthetic(b, receipt, k)
    ensures Turns(a, receipt, n) == Turns(b, receipt, n)
  {
    hide Synthetic, UsageOk, UsageOf;
    if n > 0 {
      assert a[n - 1] == a[..n][n - 1] == b[..n][n - 1] == b[n - 1];
      assert a[..n - 1] == a[..n][..n - 1] && b[..n - 1] == b[..n][..n - 1];
      TurnsAgree(a, b, receipt, n - 1);
    }
  }

  lemma {:induction false} TurnsStay(events: seq<Event>, receipt: Option<BudgetReceipt>, from: nat, to: nat)
    requires from <= to <= |events|
    requires forall k :: from <= k < to ==> !IsAssistant(events[k]) || Synthetic(events, receipt, k)
    ensures Turns(events, receipt, to) == Turns(events, receipt, from)
  {
    hide Synthetic, UsageOk, UsageOf;
    if from < to {
      TurnsStay(events, receipt, from, to - 1);
    }
  }

  /** The synthetic message is the only one, so the turns are those of what stands before it. */
  lemma TurnsBefore(events: seq<Event>, receipt: Option<BudgetReceipt>, i: nat)
    requires i < |events| && Synthetic(events, receipt, i)
    ensures Turns(events, receipt, |events|) == Turns(events, receipt, i)
    ensures forall k :: 0 <= k < i ==> !Synthetic(events, receipt, k)
  {
    hide Synthetic;
    QuietTail(events, receipt, i);
    TurnsStay(events, receipt, i, |events|);
    forall k | 0 <= k < i ensures !Synthetic(events, receipt, k) {
      if Synthetic(events, receipt, k) {
        AtMostOneSynthetic(events, receipt, i, k);
      }
    }
  }

  /** Main result: erasing the synthetic message keeps the provider turns exactly if the stream before it
      does not itself end in a synthetic message; otherwise exactly the last turn is lost, because that
      message is then taken for the local abort. */
  lemma ErasureKeepsTurnsExactly(events: seq<Event>, receipt: Option<BudgetReceipt>, parseInt: string -> Option<int>,
                                 i: nat)
    requires i < |events| && Synthetic(events, receipt, i) && AllCountable(events, receipt, parseInt, |events|)
    ensures var rest, turns := Erased(events, i), Turns(events, receipt, |events|);
      if forall k :: 0 <= k < i ==> !Synthetic(events[..i], receipt, k)
      then Turns(rest, receipt, |rest|) == turns
      else |turns| > 0 && Turns(rest, receipt, |rest|) == turns[..|turns| - 1]
  {
    hide Synthetic, Turns, Countable;
    var rest := Erased(events, i);
    TurnsBefore(events, receipt, i);
    RestIsQuiet(events, receipt, i);
    TurnsStay(rest, receipt, i, |rest|);
    forall k | 0 <= k < i ensures Synthetic(rest, receipt, k) <==> Synthetic(events[..i], receipt, k) {
      JudgedAlike(events, receipt, i, k);
    }
    assert rest[..i] == events[..i];
    if q :| 0 <= q < i && Synthetic(rest, receipt, q) {
      LastTurnLost(events, rest, receipt, parseInt, q, i);
    } else {
      TurnsAgree(events, rest, receipt, i);
    }
  }

  lemma RestIsQuiet(events: seq<Event>, receipt: Option<BudgetReceipt>, i: nat)
    requires i < |events| && Synthetic(events, receipt, i)
    ensures var rest := Erased(events, i); forall k :: i <= k < |rest| ==> !IsAssistant(rest[k])
  {
    hide Synthetic;
    QuietTail(events, receipt, i);
    var rest := Erased(events, i);
    assert forall k :: i <= k < |rest| ==> rest[k] == events[k + 1];
  }

  /** A message that is a turn of the one stream and synthetic in the other, with the same events before it. */
  lemma LastTurnLost(events: seq<Event>, rest: seq<Event>, receipt: Option<BudgetReceipt>,
                     parseInt: string -> Option<int>, q: nat, i: nat)
    requires q < i <= |rest| && i <= |events| && events[..i] == rest[..i] && Synthetic(rest, receipt, q)
    requires forall k :: 0 <= k < i ==> !Synthetic(events, receipt, k)
    requires AllCountable(events, receipt, parseInt, |events|)
    ensures var turns := Turns(events, receipt, i);
      |turns| > 0 && Turns(rest, receipt, i) == turns[..|turns| - 1]
  {
    hide Synthetic, UsageOf;
    assert forall k :: 0 <= k < i ==> events[k] == events[..i][k] == rest[..i][k] == rest[k];
    assert events[..q] == events[..i][..q] && rest[..q] == rest[..i][..q];
    TurnsBefore(rest, receipt, q);
    TurnsAgree(events, rest, receipt, q);
    QuietTail(rest, receipt, q);
    TurnsStay(rest, receipt, q, i);
    TurnsStay(events, receipt, q + 1, i);
    CountableTurn(events[q].message, false, parseInt);
    assert Turns(events, receipt, q + 1)[..|Turns(events, receipt, q)|] == Turns(events, receipt, q);
  }

  lemma AgainIsSynthetic(m: Message)
    requires LocalShape(m) && m.stopReason == Some("aborted") && m.errorMessage == Some("Request aborted")
    ensures var events, receipt := [MessageEnd(m), MessageEnd(m)], Some(BudgetReceipt(true, 1));
      Synthetic(events, receipt, 1) && !Synthetic(events, receipt, 0)
  {
    hide HasZeroTokenUsage, FollowsToolAbort;
    var events := [MessageEnd(m), MessageEnd(m)];
    assert Anchors(events[1]);
  }

  lemma ThinkingAbortIsCountable(parseInt: string -> Option<int>)
    ensures Countable(THINKING_ABORT, false, parseInt) && Countable(THINKING_ABORT, true, parseInt)
  {
    ThinkingAbortCounts(parseInt);
    var f := THINKING_ABORT.usage.fields;
    assert Get(f, "input") == Get(f, "output") == Int(0);
    assert Get(f, "cacheRead") == Get(f, "cacheWrite") == Get(f, "totalTokens") == Int(0);
    assert Get(f, "reasoning") == Int(7);
  }

  /** An instance of the other case: of two aborts in a row the first is a turn, and no longer one once
      the second is erased. */
  lemma ErasureMayLoseATurn(parseInt: string -> Option<int>)
    ensures var events := [MessageEnd(THINKING_ABORT), MessageEnd(THINKING_ABORT)];
      var receipt := Some(BudgetReceipt(true, 1));
      && Synthetic(events, receipt, 1) && AllCountable(events, receipt, parseInt, 2)
      && |Turns(events, receipt, 2)| == 1 && Turns(Erased(events, 1), receipt, 1) == []
  {
    var m, receipt := THINKING_ABORT, Some(BudgetReceipt(true, 1));
    var events := [MessageEnd(m), MessageEnd(m)];
    hide *;
    ThinkingAbortCounts(parseInt);
    ThinkingAbortIsCountable(parseInt);
    AgainIsSynthetic(m);
    AloneIsSynthetic(m, parseInt);
    Beginning(events, receipt, parseInt);
    CountableStep(events, receipt, parseInt, 0);
    CountableStep(events, receipt, parseInt, 1);
    CountableTurn(m, false, parseInt);
    TurnsStep(events, receipt, 0);
    TurnsStep(events, receipt, 1);
    ErasedIs(m);
    Beginning([MessageEnd(m)], receipt, parseInt);
    TurnsStep([MessageEnd(m)], receipt, 0);
  }

  lemma ErasedIs(m: Message)
    ensures Erased([MessageEnd(m), MessageEnd(m)], 1) == [MessageEnd(m)] && IsAssistant(MessageEnd(m)) == m.assistant
  {}
}
