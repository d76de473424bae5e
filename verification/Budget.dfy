/** The gym budget extension: provider requests and tool attempts are capped independently
    and the session ends with one machine-readable receipt. */
module Budget {
  import opened Common

  datatype Config = Config(turnLimit: nat, toolLimit: nat)

  const BUDGETED_TOOLS: set<string> := {"bash", "unbrowser", "semantic_table", "semantic_form"}

  /** One content item of an assistant message. A tool call without a string id is kept apart:
      the extension does not count it, but drops it when it rewrites a message. */
  datatype Item =
    | ToolCall(id: string, name: string)
    | UnidentifiedCall
    | Prose(text: string)

  datatype Event =
    | SessionStart(startup: bool)
    | ProviderRequest
    | MessageEnd(assistant: bool, content: seq<Item>)
    | ExecutionStart(id: string)
    | AdmissionHook(name: string, id: string, signalAborted: bool)
    | ToolResult(name: string, id: string)
    | Settled

  /** What a handler does besides updating the state. */
  datatype Reply =
    | Continue
    | Abort
    | AbortKeeping(content: seq<Item>)
    | Block
    | AppendExhaustedNote
    | Emit(receipt: Receipt)

  datatype State = State(
    admissions: nat, blocks: nat, attemptCount: nat,
    attemptIds: seq<string>, admittedIds: seq<string>, executedIds: seq<string>,
    suppressedIds: seq<string>, violations: seq<string>, emitted: bool)

  /** The counts are integers, not naturals: an auditor reads them back from a file. */
  datatype Receipt = Receipt(
    turnLimit: int, admissions: int, blocks: int, gateChecks: int,
    attemptLimit: int, attemptCount: int, attemptIds: seq<string>,
    admissionLimit: int, admittedCount: int, admittedIds: seq<string>,
    executedCount: int, executedIds: seq<string>,
    rejectedCount: int, rejectedIds: seq<string>,
    suppressedCount: int, suppressedIds: seq<string>,
    violations: seq<string>)

  const FRESH := State(0, 0, 0, [], [], [], [], [], false)

  // ---- Handlers as functions of the state ----

  function UniquePush(values: seq<string>, value: string): seq<string> {
    if value in values then values else values + [value]
  }

  function NotedDuplicate(violations: seq<string>, values: seq<string>, value: string, kind: string): seq<string> {
    Noted(violations, value in values, "duplicate_" + kind + ":" + value)
  }

  function Calls(content: seq<Item>): seq<Item>
    ensures forall c <- Calls(content) :: c.ToolCall? && c in content
  {
    if content == [] then []
    else
      var n := |content| - 1;
      var before := Calls(content[..n]);
      if content[n].ToolCall? then before + [content[n]] else before
  }

  function Keep(content: seq<Item>, terminal: string): seq<Item> {
    if content == [] then []
    else
      (if content[0].Prose? || (content[0].ToolCall? && content[0].id == terminal) then [content[0]] else [])
      + Keep(content[1..], terminal)
  }

  function Suppress(s: State, calls: seq<Item>): State
    requires forall c <- calls :: c.ToolCall?
    decreases calls
  {
    if calls == [] then s
    else
      var id := calls[0].id;
      Suppress(s.(suppressedIds := UniquePush(s.suppressedIds, id),
                  violations := NotedDuplicate(s.violations, s.suppressedIds, id, "suppressed_tool_request_id")),
               calls[1..])
  }

  lemma {:induction false} SuppressedAre(s: State, calls: seq<Item>)
    requires forall c <- calls :: c.ToolCall?
    decreases calls
    ensures forall id ::
      id in Suppress(s, calls).suppressedIds <==> id in s.suppressedIds || exists c <- calls :: c.id == id
  {
    if calls != [] {
      var id := calls[0].id;
      var next := s.(suppressedIds := UniquePush(s.suppressedIds, id),
                     violations := NotedDuplicate(s.violations, s.suppressedIds, id, "suppressed_tool_request_id"));
      SuppressedAre(next, calls[1..]);
      assert calls == [calls[0]] + calls[1..];
    }
  }

  /** The calls stand at these positions, which are all that hold one. */
  ghost predicate CallsAt(calls: seq<Item>, content: seq<Item>, at: seq<nat>) {
    && |at| == |calls| && (forall p, q :: 0 <= p < q < |at| ==> at[p] < at[q])
    && (forall p :: 0 <= p < |at| ==> at[p] < |content| && calls[p] == content[at[p]])
    && forall i: nat :: i < |content| && content[i].ToolCall? ==> i in at
  }

  lemma MoreCallsAt(calls: seq<Item>, content: seq<Item>, at: seq<nat>)
    requires content != [] && CallsAt(calls, content[..|content| - 1], at)
    ensures var n := |content| - 1;
      if content[n].ToolCall? then CallsAt(calls + [content[n]], content, at + [n]) else CallsAt(calls, content, at)
  {
    var n := |content| - 1;
    forall i: nat | i < n && content[i].ToolCall? ensures i in at {
      assert content[..n][i] == content[i];
    }
  }

  lemma NoCallsAt()
    ensures CallsAt([], [], [])
  {}

  /** The tool calls of a message are all of them, in order. */
  lemma {:induction false} CallsByPosition(content: seq<Item>) returns (at: seq<nat>)
    ensures CallsAt(Calls(content), content, at)
  {
    hide CallsAt;
    at := [];
    NoCallsAt();
    if content != [] {
      var n := |content| - 1;
      at := CallsByPosition(content[..n]);
      MoreCallsAt(Calls(content[..n]), content, at);
      at := if content[n].ToolCall? then at + [n] else at;
    }
  }

  function Without(values: seq<string>, removed: seq<string>): seq<string> {
    if values == [] then []
    else (if values[0] in removed then [] else [values[0]]) + Without(values[1..], removed)
  }

  function MakeReceipt(c: Config, s: State): Receipt {
    var rejected := Without(s.attemptIds, s.admittedIds);
    Receipt(c.turnLimit, s.admissions, s.blocks, s.admissions + s.blocks,
            c.toolLimit + 1, s.attemptCount, s.attemptIds,
            c.toolLimit, |s.admittedIds|, s.admittedIds,
            |s.executedIds|, s.executedIds,
            |rejected|, rejected,
            |s.suppressedIds|, s.suppressedIds,
            s.violations)
  }

  predicate RequestBlocked(c: Config, s: State) {
    s.admissions >= c.turnLimit || s.attemptCount >= c.toolLimit + 1 || s.violations != []
  }

  function RemainingAttempts(c: Config, s: State): nat {
    if s.attemptCount <= c.toolLimit then c.toolLimit + 1 - s.attemptCount else 0
  }

  function Handle(c: Config, s: State, e: Event): (State, Reply) {
    match e
    case SessionStart(startup) => (if startup then FRESH else s, Continue)
    case ProviderRequest =>
      if RequestBlocked(c, s) then
        (s.(blocks := s.blocks + 1,
            violations := Noted(s.violations, s.blocks >= 1, "multiple_provider_request_blocks")),
         Abort)
      else (s.(admissions := s.admissions + 1), Continue)
    case MessageEnd(assistant, content) =>
      var calls := Calls(content);
      if !assistant || |calls| <= RemainingAttempts(c, s) then (s, Continue)
      else (Suppress(s, calls[1..]), AbortKeeping(Keep(content, calls[0].id)))
    case ExecutionStart(id) =>
      var t := s.(attemptCount := s.attemptCount + 1);
      if t.attemptCount > c.toolLimit + 1 then
        (t.(violations := s.violations + ["tool_attempt_limit_bypassed"]), Abort)
      else if id in s.attemptIds then
        (t.(violations := s.violations + ["duplicate_tool_attempt_id:" + id]), Abort)
      else (t.(attemptIds := s.attemptIds + [id]), Continue)
    case AdmissionHook(name, id, signalAborted) =>
      if name !in BUDGETED_TOOLS then (s, Continue)
      else if signalAborted || |s.admittedIds| >= c.toolLimit then (s, Block)
      else
        (s.(admittedIds := UniquePush(s.admittedIds, id),
            violations := NotedDuplicate(
              Noted(s.violations, id !in s.attemptIds, "admission_without_attempt:" + id),
              s.admittedIds, id, "admitted_tool_call_id")),
         Continue)
    case ToolResult(name, id) =>
      if name !in BUDGETED_TOOLS then (s, Continue)
      else
        (s.(executedIds := UniquePush(s.executedIds, id),
            violations := NotedDuplicate(
              Noted(s.violations, id !in s.admittedIds, "execution_without_admission:" + id),
              s.executedIds, id, "executed_tool_call_id")),
         if |s.admittedIds| < c.toolLimit then Continue else AppendExhaustedNote)
    case Settled =>
      if s.emitted then (s, Continue)
      else (s.(emitted := true), Emit(MakeReceipt(c, s)))
  }

  // ---- The extension object: one mutable state shared by all handlers ----

  class Extension {
    const config: Config
    var admissions: nat
    var blocks: nat
    var attemptCount: nat
    var attemptIds: seq<string>
    var admittedIds: seq<string>
    var executedIds: seq<string>
    var suppressedIds: seq<string>
    var violations: seq<string>
    var emitted: bool

    function Current(): State
      reads this
    {
      State(admissions, blocks, attemptCount, attemptIds, admittedIds, executedIds, suppressedIds, violations, emitted)
    }

    constructor (config: Config)
      ensures this.config == config && Current() == FRESH && Accounted(config, Current())
    {
      this.config := config;
      admissions, blocks, attemptCount := 0, 0, 0;
      attemptIds, admittedIds, executedIds, suppressedIds, violations := [], [], [], [], [];
      emitted := false;
    }

    /** No handler can lose the accounting. */
    lemma Keeps(e: Event)
      ensures Accounted(config, Current()) ==> Accounted(config, Handle(config, Current(), e).0)
    {
      if Accounted(config, Current()) {
        HandleKeepsAccounted(config, Current(), e);
      }
    }

    method OnSessionStart(startup: bool)
      modifies this
      ensures Current() == Handle(config, old(Current()), SessionStart(startup)).0
      ensures old(Accounted(config, Current())) ==> Accounted(config, Current())
    {
      Keeps(SessionStart(startup));
      if startup {
        admissions, blocks, attemptCount := 0, 0, 0;
        attemptIds, admittedIds, executedIds, suppressedIds, violations := [], [], [], [], [];
        emitted := false;
      }
    }

    method OnProviderRequest() returns (reply: Reply)
      modifies this
      ensures (Current(), reply) == Handle(config, old(Current()), ProviderRequest)
      ensures var stop := old(admissions >= config.turnLimit || attemptCount > config.toolLimit || violations != []);
        && reply == (if stop then Abort else Continue)
        && admissions == old(admissions) + (if stop then 0 else 1) && blocks == old(blocks) + (if stop then 1 else 0)
      ensures old(Accounted(config, Current())) ==> Accounted(config, Current())
    {
      Keeps(ProviderRequest);
      if admissions >= config.turnLimit || attemptCount >= config.toolLimit + 1 || |violations| > 0 {
        blocks := blocks + 1;
        if blocks > 1 {
          violations := violations + ["multiple_provider_request_blocks"];
        }
        return Abort;
      }
      admissions := admissions + 1;
      return Continue;
    }

    method OnMessageEnd(assistant: bool, content: seq<Item>) returns (reply: Reply)
      modifies this
      ensures (Current(), reply) == Handle(config, old(Current()), MessageEnd(assistant, content))
      ensures var calls := |Calls(content)|;
        var over := assistant && calls > 0 && calls + old(attemptCount) > config.toolLimit + 1;
        if over then reply == AbortKeeping(Keep(content, Calls(content)[0].id)) else reply == Continue
      ensures reply.AbortKeeping? ==> Calls(content) != [] && forall id ::
        id in suppressedIds <==> id in old(suppressedIds) || exists c <- Calls(content)[1..] :: c.id == id
      ensures !reply.AbortKeeping? ==> Current() == old(Current())
      ensures old(Accounted(config, Current())) ==> Accounted(config, Current())
    {
      Keeps(MessageEnd(assistant, content));
      if !assistant {
        return Continue;
      }
      var remaining := RemainingAttempts(config, Current());
      var toolCalls := Calls(content);
      if |toolCalls| <= remaining {
        return Continue;
      }
      ghost var all := Suppress(Current(), toolCalls[1..]);
      SuppressedAre(Current(), toolCalls[1..]);
      var i := 1;
      while i < |toolCalls|
        invariant 1 <= i <= |toolCalls|
        invariant Suppress(Current(), toolCalls[i..]) == all
      {
        assert toolCalls[i..][1..] == toolCalls[i + 1..];
        violations := NotedDuplicate(violations, suppressedIds, toolCalls[i].id, "suppressed_tool_request_id");
        suppressedIds := UniquePush(suppressedIds, toolCalls[i].id);
        i := i + 1;
      }
      return AbortKeeping(Keep(content, toolCalls[0].id));
    }

    method OnExecutionStart(id: string) returns (reply: Reply)
      modifies this
      ensures (Current(), reply) == Handle(config, old(Current()), ExecutionStart(id))
      ensures attemptCount == old(attemptCount) + 1
      ensures reply == Continue <==> attemptCount <= config.toolLimit + 1 && id !in old(attemptIds)
      ensures attemptIds == old(attemptIds) + if reply == Continue then [id] else []
      ensures old(Accounted(config, Current())) ==> Accounted(config, Current())
    {
      Keeps(ExecutionStart(id));
      attemptCount := attemptCount + 1;
      if attemptCount > config.toolLimit + 1 {
        violations := violations + ["tool_attempt_limit_bypassed"];
        return Abort;
      }
      if id in attemptIds {
        violations := violations + ["duplicate_tool_attempt_id:" + id];
        return Abort;
      }
      attemptIds := UniquePush(attemptIds, id);
      return Continue;
    }

    method OnAdmissionHook(name: string, id: string, signalAborted: bool) returns (reply: Reply)
      modifies this
      ensures (Current(), reply) == Handle(config, old(Current()), AdmissionHook(name, id, signalAborted))
      ensures reply == Block <==>
        name in BUDGETED_TOOLS && (signalAborted || |old(admittedIds)| >= config.toolLimit)
      ensures reply != Block && name in BUDGETED_TOOLS ==>
        id in admittedIds && admittedIds == old(admittedIds) + if id in old(admittedIds) then [] else [id]
      ensures reply == Block || name !in BUDGETED_TOOLS ==> Current() == old(Current())
      ensures old(Accounted(config, Current())) ==> Accounted(config, Current())
    {
      Keeps(AdmissionHook(name, id, signalAborted));
      if name !in BUDGETED_TOOLS {
        return Continue;
      }
      if signalAborted || |admittedIds| >= config.toolLimit {
        return Block;
      }
      if id !in attemptIds {
        violations := violations + ["admission_without_attempt:" + id];
      }
      violations := NotedDuplicate(violations, admittedIds, id, "admitted_tool_call_id");
      admittedIds := UniquePush(admittedIds, id);
      return Continue;
    }

    method OnToolResult(name: string, id: string) returns (reply: Reply)
      modifies this
      ensures (Current(), reply) == Handle(config, old(Current()), ToolResult(name, id))
      ensures executedIds == old(executedIds) + if name !in BUDGETED_TOOLS || id in old(executedIds) then [] else [id]
      ensures reply == AppendExhaustedNote <==> name in BUDGETED_TOOLS && |admittedIds| >= config.toolLimit
      ensures old(Accounted(config, Current())) ==> Accounted(config, Current())
    {
      Keeps(ToolResult(name, id));
      if name !in BUDGETED_TOOLS {
        return Continue;
      }
      if id !in admittedIds {
        violations := violations + ["execution_without_admission:" + id];
      }
      violations := NotedDuplicate(violations, executedIds, id, "executed_tool_call_id");
      executedIds := UniquePush(executedIds, id);
      if |admittedIds| < config.toolLimit {
        return Continue;
      }
      return AppendExhaustedNote;
    }

    method OnSettled() returns (reply: Reply)
      modifies this
      ensures (Current(), reply) == Handle(config, old(Current()), Settled)
      ensures reply.Emit? <==> !old(emitted)
      ensures old(Accounted(config, Current())) ==> Accounted(config, Current())
    {
      Keeps(Settled);
      if emitted {
        return Continue;
      }
      emitted := true;
      return Emit(MakeReceipt(config, Current()));
    }
  }

  // ---- Runs ----

  function Run(c: Config, s: State, events: seq<Event>): State
    decreases events
  {
    if events == [] then s else Run(c, Handle(c, s, events[0]).0, events[1..])
  }

  /** The receipts written to stderr during a run, in order. */
  function Emissions(c: Config, s: State, events: seq<Event>): seq<Receipt>
    decreases events
  {
    if events == [] then []
    else
      var (next, reply) := Handle(c, s, events[0]);
      (if reply.Emit? then [reply.receipt] else []) + Emissions(c, next, events[1..])
  }

  ghost predicate Included(inner: seq<string>, outer: seq<string>) {
    forall x <- inner :: x in outer
  }

  /** Holds after every event sequence whatever the host does: each uniqueness and cap is
      either respected or recorded as a violation. */
  ghost predicate Accounted(c: Config, s: State) {
    && Unique(s.attemptIds) && Unique(s.admittedIds) && Unique(s.executedIds) && Unique(s.suppressedIds)
    && s.admissions <= c.turnLimit && |s.admittedIds| <= c.toolLimit
    && (s.violations == [] ==>
          && s.blocks <= 1
          && s.attemptCount == |s.attemptIds| <= c.toolLimit + 1
          && Included(s.admittedIds, s.attemptIds)
          && Included(s.executedIds, s.admittedIds))
  }

  lemma {:induction false} SuppressChanges(s: State, calls: seq<Item>)
    requires forall c <- calls :: c.ToolCall?
    requires Unique(s.suppressedIds)
    decreases calls
    ensures var t := Suppress(s, calls);
      && t == s.(suppressedIds := t.suppressedIds, violations := t.violations)
      && Unique(t.suppressedIds) && s.violations <= t.violations
      && Included(s.suppressedIds, t.suppressedIds)
      && (forall x <- t.suppressedIds :: x in s.suppressedIds || exists c <- calls :: c.id == x)
  {
    if calls != [] {
      var id := calls[0].id;
      var next := s.(suppressedIds := UniquePush(s.suppressedIds, id),
                     violations := NotedDuplicate(s.violations, s.suppressedIds, id, "suppressed_tool_request_id"));
      SuppressChanges(next, calls[1..]);
    }
  }

  lemma MessageKeepsAccounted(c: Config, s: State, assistant: bool, content: seq<Item>)
    requires Accounted(c, s)
    ensures Accounted(c, Handle(c, s, MessageEnd(assistant, content)).0)
  {
    hide Suppress, Keep;
    if assistant && |Calls(content)| > RemainingAttempts(c, s) {
      SuppressChanges(s, Calls(content)[1..]);
    }
  }

  lemma StartKeepsAccounted(c: Config, s: State, id: string)
    requires Accounted(c, s)
    ensures Accounted(c, Handle(c, s, ExecutionStart(id)).0)
  {}

  lemma AdmissionKeepsAccounted(c: Config, s: State, name: string, id: string, signalAborted: bool)
    requires Accounted(c, s)
    ensures Accounted(c, Handle(c, s, AdmissionHook(name, id, signalAborted)).0)
  {}

  lemma ResultKeepsAccounted(c: Config, s: State, name: string, id: string)
    requires Accounted(c, s)
    ensures Accounted(c, Handle(c, s, ToolResult(name, id)).0)
  {}

  lemma RequestKeepsAccounted(c: Config, s: State)
    requires Accounted(c, s)
    ensures Accounted(c, Handle(c, s, ProviderRequest).0)
  {}

  lemma OthersKeepAccounted(c: Config, s: State, e: Event)
    requires Accounted(c, s) && (e.SessionStart? || e.Settled?)
    ensures Accounted(c, Handle(c, s, e).0)
  {}

  lemma HandleKeepsAccounted(c: Config, s: State, e: Event)
    requires Accounted(c, s)
    ensures Accounted(c, Handle(c, s, e).0)
  {
    hide Accounted, Handle;
    match e
    case ProviderRequest => RequestKeepsAccounted(c, s);
    case MessageEnd(assistant, content) => MessageKeepsAccounted(c, s, assistant, content);
    case ExecutionStart(id) => StartKeepsAccounted(c, s, id);
    case AdmissionHook(name, id, signalAborted) => AdmissionKeepsAccounted(c, s, name, id, signalAborted);
    case ToolResult(name, id) => ResultKeepsAccounted(c, s, name, id);
    case _ => OthersKeepAccounted(c, s, e);
  }

  lemma {:induction false} RunKeepsAccounted(c: Config, s: State, events: seq<Event>)
    requires Accounted(c, s)
    ensures Accounted(c, Run(c, s, events))
    decreases events
  {
    if events != [] {
      HandleKeepsAccounted(c, s, events[0]);
      RunKeepsAccounted(c, Handle(c, s, events[0]).0, events[1..]);
    }
  }

  // ---- What a session records, event by event ----

  /** The values of a list in the order of their first occurrence. */
  function Firsts(ids: seq<string>): seq<string> {
    if ids == [] then []
    else
      var n := |ids| - 1;
      Firsts(ids[..n]) + if ids[n] in ids[..n] then [] else [ids[n]]
  }

  lemma {:induction false} FirstsAre(ids: seq<string>)
    ensures forall x :: x in Firsts(ids) <==> x in ids
    ensures Unique(Firsts(ids)) && |Firsts(ids)| == |set x | x in ids|
  {
    if ids != [] {
      var n := |ids| - 1;
      FirstsAre(ids[..n]);
      assert ids == ids[..n] + [ids[n]];
      assert (set x | x in ids) == (set x | x in ids[..n]) + {ids[n]};
    }
  }

  /** The ids of budgeted hooks whose signal was not aborted. */
  function Asked(events: seq<Event>): seq<string> {
    if events == [] then []
    else
      var n := |events| - 1;
      var e := events[n];
      if e.AdmissionHook? && e.name in BUDGETED_TOOLS && !e.signalAborted then Asked(events[..n]) + [e.id]
      else Asked(events[..n])
  }

  /** The ids of budgeted results. */
  function Answered(events: seq<Event>): seq<string> {
    if events == [] then []
    else
      var n := |events| - 1;
      var e := events[n];
      if e.ToolResult? && e.name in BUDGETED_TOOLS then Answered(events[..n]) + [e.id] else Answered(events[..n])
  }

  /** The ids of all started calls. */
  function Started(events: seq<Event>): seq<string> {
    if events == [] then []
    else
      var n := |events| - 1;
      if events[n].ExecutionStart? then Started(events[..n]) + [events[n].id] else Started(events[..n])
  }

  function Upto(ids: seq<string>, n: nat): seq<string> {
    if |ids| <= n then ids else ids[..n]
  }

  lemma {:induction false} RunSnoc(c: Config, s: State, events: seq<Event>)
    requires events != []
    ensures var n := |events| - 1; Run(c, s, events) == Handle(c, Run(c, s, events[..n]), events[n]).0
    decreases events
  {
    var n := |events| - 1;
    hide Handle;
    if n == 0 {
      assert events[1..] == [] && events[..0] == [];
    } else {
      RunSnoc(c, Handle(c, s, events[0]).0, events[1..]);
      assert events[1..][..n - 1] == events[..n][1..] && events[..n][0] == events[0];
    }
  }

  lemma SuppressKeepsLists(s: State, calls: seq<Item>)
    requires forall c <- calls :: c.ToolCall?
    ensures var t := Suppress(s, calls);
      && t == s.(suppressedIds := t.suppressedIds, violations := t.violations)
    decreases calls
  {}

  /** What one event adds to the three lists of a session. */
  lemma HandleLists(c: Config, s: State, e: Event)
    requires e != SessionStart(true)
    ensures var t := Handle(c, s, e).0;
      && t.admittedIds ==
           (if e.AdmissionHook? && e.name in BUDGETED_TOOLS && !e.signalAborted && |s.admittedIds| < c.toolLimit
            then UniquePush(s.admittedIds, e.id) else s.admittedIds)
      && t.executedIds ==
           (if e.ToolResult? && e.name in BUDGETED_TOOLS then UniquePush(s.executedIds, e.id) else s.executedIds)
      && t.attemptCount == s.attemptCount + (if e.ExecutionStart? then 1 else 0)
      && t.attemptIds ==
           (if e.ExecutionStart? && s.attemptCount <= c.toolLimit then UniquePush(s.attemptIds, e.id) else s.attemptIds)
  {
    if e.MessageEnd? && e.assistant && |Calls(e.content)| > RemainingAttempts(c, s) {
      SuppressKeepsLists(s, Calls(e.content)[1..]);
    }
  }

  lemma PushFirsts(ids: seq<string>, id: string, limit: nat)
    ensures |Upto(Firsts(ids), limit)| < limit ==>
      UniquePush(Upto(Firsts(ids), limit), id) == Upto(Firsts(ids + [id]), limit)
    ensures |Upto(Firsts(ids), limit)| >= limit ==> Upto(Firsts(ids), limit) == Upto(Firsts(ids + [id]), limit)
    ensures UniquePush(Firsts(ids), id) == Firsts(ids + [id])
  {
    assert (ids + [id])[..|ids|] == ids;
    FirstsAre(ids);
  }

  /** Main result: a session admits exactly the first `toolLimit` distinct ids that budgeted hooks ask for
      with a live signal, so as many of them as the limit allows; it executes the ids of all budgeted
      results, and attempts those of its first `toolLimit + 1` starts. */
  lemma {:induction false} SessionLists(c: Config, events: seq<Event>)
    requires SessionStart(true) !in events
    ensures var s := Run(c, FRESH, events);
      && s.admittedIds == Upto(Firsts(Asked(events)), c.toolLimit)
      && s.executedIds == Firsts(Answered(events))
      && s.attemptCount == |Started(events)| && s.attemptIds == Firsts(Upto(Started(events), c.toolLimit + 1))
  {
    hide Handle, Run, Firsts, Upto, UniquePush;
    if events == [] {
      EmptySession(c);
    } else {
      var n := |events| - 1;
      var before, e := events[..n], events[n];
      assert forall x <- before :: x in events;
      SessionLists(c, before);
      RunSnoc(c, FRESH, events);
      HandleLists(c, Run(c, FRESH, before), e);
      match e
      case AdmissionHook(_, id, _) => PushFirsts(Asked(before), id, c.toolLimit);
      case ToolResult(_, id) => PushFirsts(Answered(before), id, 0);
      case ExecutionStart(id) => PushStarted(Started(before), id, c.toolLimit + 1);
      case _ =>
    }
  }

  lemma EmptySession(c: Config)
    ensures Run(c, FRESH, []) == FRESH
    ensures Firsts([]) == [] && Upto([], c.toolLimit) == [] && Upto([], c.toolLimit + 1) == []
  {}

  lemma PushStarted(ids: seq<string>, id: string, limit: nat)
    ensures Firsts(Upto(ids + [id], limit))
         == if |ids| < limit then UniquePush(Firsts(Upto(ids, limit)), id) else Firsts(Upto(ids, limit))
  {
    if |ids| < limit {
      PushFirsts(ids, id, limit);
    } else if |ids| == limit {
      assert (ids + [id])[..limit] == ids;
    } else {
      assert (ids + [id])[..limit] == ids[..limit];
    }
  }

  /** The number of admitted calls is the smaller of the limit and of the distinct ids asked for. */
  lemma AdmittedCount(c: Config, events: seq<Event>)
    requires SessionStart(true) !in events
    ensures var asked := |set x | x in Asked(events)|;
      |Run(c, FRESH, events).admittedIds| == if asked < c.toolLimit then asked else c.toolLimit
  {
    SessionLists(c, events);
    FirstsAre(Asked(events));
  }

  /** One receipt per session: the first settled event writes it, later ones do not. */
  lemma {:induction false} ReceiptEmittedOnce(c: Config, s: State, events: seq<Event>)
    requires SessionStart(true) !in events
    ensures |Emissions(c, s, events)| == if Settled in events && !s.emitted then 1 else 0
    ensures Run(c, s, events).emitted == (s.emitted || Settled in events)
    decreases events
  {
    if events != [] {
      var e := events[0];
      if e.MessageEnd? && e.assistant && |Calls(e.content)| > RemainingAttempts(c, s) {
        SuppressKeepsEmitted(s, Calls(e.content)[1..]);
      }
      ReceiptEmittedOnce(c, Handle(c, s, e).0, events[1..]);
      assert Settled in events <==> e == Settled || Settled in events[1..];
    }
  }

  lemma SuppressKeepsEmitted(s: State, calls: seq<Item>)
    requires forall c <- calls :: c.ToolCall?
    ensures Suppress(s, calls).emitted == s.emitted
    decreases calls
  {}

  /** Every receipt a run writes is the receipt of the state some prefix of the run leads to. */
  lemma {:induction false} EmittedReceiptIsOfAPrefix(c: Config, s: State, events: seq<Event>, r: Receipt)
    requires r in Emissions(c, s, events)
    ensures exists k :: 0 <= k < |events| && events[k] == Settled && r == MakeReceipt(c, Run(c, s, events[..k]))
    decreases events
  {
    var (next, reply) := Handle(c, s, events[0]);
    if reply.Emit? && reply.receipt == r {
      assert events[..0] == [];
      assert events[0] == Settled && r == MakeReceipt(c, Run(c, s, events[..0]));
    } else {
      EmittedReceiptIsOfAPrefix(c, next, events[1..], r);
      var k :| 0 <= k < |events[1..]| && events[1..][k] == Settled
        && r == MakeReceipt(c, Run(c, next, events[1..][..k]));
      assert events[..k + 1][1..] == events[1..][..k];
      assert events[k + 1] == Settled && r == MakeReceipt(c, Run(c, s, events[..k + 1]));
    }
  }

  /** Rewriting an over-cap batch keeps all prose in order, every call that carries the terminal id, and
      nothing else. */
  lemma {:induction false} KeepRetainsProseAndTerminalCall(content: seq<Item>, terminal: string)
    ensures forall c ::
      c in Keep(content, terminal) <==> c in content && (c.Prose? || (c.ToolCall? && c.id == terminal))
    ensures ProseOf(Keep(content, terminal)) == ProseOf(content)
  {
    if content != [] {
      KeepRetainsProseAndTerminalCall(content[1..], terminal);
      var kept := content[0].Prose? || (content[0].ToolCall? && content[0].id == terminal);
      ProseOfAppend(if kept then [content[0]] else [], Keep(content[1..], terminal));
    }
  }

  function ProseOf(content: seq<Item>): seq<Item> {
    if content == [] then [] else (if content[0].Prose? then [content[0]] else []) + ProseOf(content[1..])
  }

  lemma ProseOfAppend(a: seq<Item>, b: seq<Item>)
    requires |a| <= 1
    ensures ProseOf(a + b) == ProseOf(a) + ProseOf(b)
  {
    if a != [] {
      assert (a + b)[1..] == b;
    } else {
      assert a + b == b;
    }
  }
}
