/** The agent host the budget extension is loaded into, as a protocol over the same events,
    and what every conforming session guarantees. */
module BudgetHost {
  import opened Budget
  import opened BudgetAudit
  import opened Common

  /** `seen` are all call ids of past messages; a call is first retained, then started, then
      running between its admission hook and its result. */
  datatype Host = Host(
    aborted: bool, awaiting: bool, seen: set<string>, names: map<string, string>,
    retained: set<string>, started: set<string>, running: set<string>)

  const IDLE := Host(false, false, {}, map[], {}, {}, {})

  function CallIds(content: seq<Item>): seq<string> {
    var calls := Calls(content);
    seq(|calls|, i requires 0 <= i < |calls| => calls[i].id)
  }

  function CallNames(calls: seq<Item>): map<string, string>
    requires forall c <- calls :: c.ToolCall?
  {
    if calls == [] then map[] else CallNames(calls[1..])[calls[0].id := calls[0].name]
  }

  ghost predicate FreshCalls(h: Host, content: seq<Item>) {
    && UnidentifiedCall !in content
    && Unique(CallIds(content))
    && forall id <- CallIds(content) :: id != "" && id !in h.seen
  }

  /** What the host may do next: it requests only when it has not been aborted and has no request
      outstanding; messages with calls answer an admitted request; only retained calls start; hooks
      and results belong to started calls. */
  ghost predicate May(h: Host, e: Event) {
    match e
    case SessionStart(startup) => !startup
    case ProviderRequest => !h.aborted && !h.awaiting
    case MessageEnd(assistant, content) => assistant && Calls(content) != [] ==> h.awaiting && FreshCalls(h, content)
    case ExecutionStart(id) => id in h.retained
    case AdmissionHook(name, id, _) => id in h.started && id in h.names && h.names[id] == name
    case ToolResult(name, id) => id in h.running && id in h.names && h.names[id] == name
    case Settled => true
  }

  function After(h: Host, e: Event, reply: Reply): Host {
    match e
    case SessionStart(_) => h
    case ProviderRequest => if reply.Abort? then h.(aborted := true) else h.(awaiting := true)
    case MessageEnd(assistant, content) =>
      if !assistant then h
      else
        var kept := Calls(if reply.AbortKeeping? then reply.content else content);
        h.(awaiting := false,
           aborted := h.aborted || reply.AbortKeeping?,
           seen := h.seen + Elements(CallIds(content)),
           names := h.names + CallNames(kept),
           retained := h.retained + set c | c in kept :: if c.ToolCall? then c.id else "")
    case ExecutionStart(id) =>
      h.(retained := h.retained - {id}, started := h.started + {id}, aborted := h.aborted || reply.Abort?)
    case AdmissionHook(_, id, _) =>
      if reply.Block? then h.(started := h.started - {id}, aborted := true)
      else h.(started := h.started - {id}, running := h.running + {id})
    case ToolResult(_, id) => h.(running := h.running - {id})
    case Settled => h
  }

  ghost predicate Conforming(c: Config, s: State, h: Host, events: seq<Event>)
    decreases events
  {
    events != [] ==>
      && May(h, events[0])
      && var (next, reply) := Handle(c, s, events[0]);
         Conforming(c, next, After(h, events[0], reply), events[1..])
  }

  /** The host starts every retained call before it requests again. */
  ghost predicate Draining(c: Config, s: State, h: Host, events: seq<Event>)
    decreases events
  {
    events != [] ==>
      && (events[0].ProviderRequest? ==> h.retained == {})
      && var (next, reply) := Handle(c, s, events[0]);
         Draining(c, next, After(h, events[0], reply), events[1..])
  }

  function Starts(events: seq<Event>): nat {
    if events == [] then 0 else (if events[0].ExecutionStart? then 1 else 0) + Starts(events[1..])
  }

  /** No more open calls than attempts left. */
  ghost predicate Counted(c: Config, s: State, h: Host) {
    && s.attemptCount + |h.retained| <= c.toolLimit + 1
    && (h.awaiting ==> h.retained == {} && s.attemptCount <= c.toolLimit)
  }

  /** What extension and host jointly keep as long as the attempt limit is kept: no violation, every
      id in exactly one place, and nothing happens before a first admitted request. */
  ghost predicate Joint(c: Config, s: State, h: Host) {
    && s.violations == [] && (s.blocks > 0 ==> s.blocks == 1 && h.aborted)
    && Unique(s.attemptIds) && s.attemptCount == |s.attemptIds| <= c.toolLimit + 1
    && (s.admissions == 0 ==> !h.awaiting && h.retained == {} && s.attemptIds == [] && s.blocks == 0 && h.seen == {})
    && Calling(s, h)
  }

  ghost predicate Calling(s: State, h: Host) {
    && "" !in h.seen && h.names.Keys <= h.seen && h.retained <= h.names.Keys
    && Elements(s.attemptIds) <= h.seen && Elements(s.suppressedIds) <= h.seen
    && (forall id <- h.retained :: id !in s.attemptIds)
    && (forall id <- s.suppressedIds :: id !in s.attemptIds && id !in h.retained)
    && Included(s.admittedIds, s.attemptIds) && Included(s.executedIds, s.admittedIds)
    && (forall id <- h.started :: id in s.attemptIds && id in h.names && id !in s.admittedIds && id !in h.running)
    && (forall id <- h.running :: id in s.attemptIds && id in h.names && id !in s.executedIds
         && (h.names[id] in BUDGETED_TOOLS ==> id in s.admittedIds))
  }

  lemma {:induction false} SuppressFresh(s: State, calls: seq<Item>)
    requires forall c <- calls :: c.ToolCall? && c.id !in s.suppressedIds
    requires forall i, j :: 0 <= i < j < |calls| ==> calls[i].id != calls[j].id
    ensures var t := Suppress(s, calls);
      && t == s.(suppressedIds := t.suppressedIds)
      && (forall x <- t.suppressedIds :: x in s.suppressedIds || exists c <- calls :: c.id == x)
    decreases calls
  {
    if calls != [] {
      var next := s.(suppressedIds := UniquePush(s.suppressedIds, calls[0].id));
      assert Suppress(s, calls) == Suppress(next, calls[1..]);
      SuppressFresh(next, calls[1..]);
    }
  }

  lemma {:induction false} CallsAppend(a: seq<Item>, b: seq<Item>)
    ensures Calls(a + b) == Calls(a) + Calls(b)
  {
    if b == [] {
      assert a + b == a;
    } else {
      CallsAppend(a, b[..|b| - 1]);
      assert (a + b)[..|a + b| - 1] == a + b[..|b| - 1];
    }
  }

  lemma CallsOfOne(item: Item)
    ensures Calls([item]) == if item.ToolCall? then [item] else []
  {
    assert [item][..0] == [];
  }

  /** The rewritten message keeps exactly the calls that carry the terminal id. */
  lemma {:induction false} KeptCalls(content: seq<Item>, terminal: string)
    ensures var kept := Calls(Keep(content, terminal));
      && (forall x <- kept :: x in Calls(content) && x.id == terminal)
      && (forall x <- Calls(content) :: x.id == terminal ==> x in kept)
  {
    if content != [] {
      KeptCalls(content[1..], terminal);
      var head := if content[0].Prose? || (content[0].ToolCall? && content[0].id == terminal) then [content[0]] else [];
      CallsAppend(head, Keep(content[1..], terminal));
      CallsAppend([content[0]], content[1..]);
      CallsOfOne(content[0]);
      assert content == [content[0]] + content[1..];
    }
  }

  lemma {:induction false} NamesOfCalls(calls: seq<Item>)
    requires forall c <- calls :: c.ToolCall?
    ensures CallNames(calls).Keys == set c | c in calls :: if c.ToolCall? then c.id else ""
  {
    if calls != [] {
      NamesOfCalls(calls[1..]);
      assert forall c <- calls :: c == calls[0] || c in calls[1..];
    }
  }

  lemma RetainedSize(calls: seq<Item>)
    requires forall c <- calls :: c.ToolCall?
    ensures |set c | c in calls :: if c.ToolCall? then c.id else ""| <= |calls|
  {
    var ids := seq(|calls|, i requires 0 <= i < |calls| => calls[i].id);
    DistinctSize(ids);
    assert Elements(ids) == set c | c in calls :: if c.ToolCall? then c.id else "" by {
      forall x ensures x in Elements(ids) <==> x in (set c | c in calls :: if c.ToolCall? then c.id else "") {
        if x in Elements(ids) {
          var i :| 0 <= i < |ids| && ids[i] == x;
          assert calls[i] in calls;
        }
        if c :| c in calls && x == c.id {
          var i :| 0 <= i < |calls| && calls[i] == c;
          assert ids[i] == x;
        }
      }
    }
  }

  /** Receiving a message: fresh ids become seen, some of them retained, others suppressed. */
  lemma ReceiveKeepsCalling(s: State, h: Host, t: State, g: Host, arriving: set<string>, kept: map<string, string>)
    requires Calling(s, h) && arriving !! h.seen && "" !in arriving && kept.Keys <= arriving
    requires t == s.(suppressedIds := t.suppressedIds)
    requires forall x <- t.suppressedIds :: x in s.suppressedIds || x in arriving - kept.Keys
    requires g.seen == h.seen + arriving && g.names == h.names + kept && g.retained == h.retained + kept.Keys
    requires g.started == h.started && g.running == h.running
    ensures Calling(t, g)
  {
    assert Elements(t.attemptIds) == Elements(s.attemptIds);
    assert forall id <- h.running :: g.names[id] == h.names[id];
    assert forall x <- t.suppressedIds :: x in s.suppressedIds ==> x in Elements(s.suppressedIds);
    assert forall x <- s.attemptIds :: x in Elements(s.attemptIds);
  }

  lemma FreshIds(h: Host, content: seq<Item>)
    requires FreshCalls(h, content)
    ensures Elements(CallIds(content)) !! h.seen && "" !in Elements(CallIds(content))
    ensures forall c <- Calls(content) :: c.id in Elements(CallIds(content))
    ensures forall i, j :: 0 <= i < j < |Calls(content)| ==> Calls(content)[i].id != Calls(content)[j].id
  {
    var calls := Calls(content);
    assert forall i :: 0 <= i < |calls| ==> CallIds(content)[i] == calls[i].id;
  }

  lemma WholeMessageKeepsJoint(c: Config, s: State, h: Host, content: seq<Item>)
    requires Joint(c, s, h) && h.awaiting && FreshCalls(h, content)
    ensures Joint(c, s, After(h, MessageEnd(true, content), Continue))
  {
    FreshIds(h, content);
    NamesOfCalls(Calls(content));
    ReceiveKeepsCalling(s, h, s, After(h, MessageEnd(true, content), Continue), Elements(CallIds(content)),
                        CallNames(Calls(content)));
  }

  lemma CutMessageKeepsJoint(c: Config, s: State, h: Host, content: seq<Item>)
    requires Joint(c, s, h) && h.awaiting && FreshCalls(h, content)
    requires Calls(content) != []
    ensures var t := Suppress(s, Calls(content)[1..]);
      && t.admissions == s.admissions
      && Joint(c, t, After(h, MessageEnd(true, content), AbortKeeping(Keep(content, Calls(content)[0].id))))
  {
    var calls := Calls(content);
    var terminal := calls[0].id;
    var kept := Calls(Keep(content, terminal));
    FreshIds(h, content);
    KeptCalls(content, terminal);
    NamesOfCalls(kept);
    assert CallNames(kept).Keys == {terminal} by {
      assert calls[0] in kept;
    }
    SuppressSiblings(s, h, content);
    ReceiveKeepsCalling(s, h, Suppress(s, calls[1..]),
                        After(h, MessageEnd(true, content), AbortKeeping(Keep(content, terminal))),
                        Elements(CallIds(content)), CallNames(kept));
  }

  lemma SuppressSiblings(s: State, h: Host, content: seq<Item>)
    requires Calling(s, h) && FreshCalls(h, content) && Calls(content) != []
    ensures var t := Suppress(s, Calls(content)[1..]);
      && t == s.(suppressedIds := t.suppressedIds)
      && forall x <- t.suppressedIds :: x in s.suppressedIds || x in Elements(CallIds(content)) - {Calls(content)[0].id}
  {
    var calls := Calls(content);
    FreshIds(h, content);
    assert forall x <- s.suppressedIds :: x in Elements(s.suppressedIds);
    assert forall i :: 0 <= i < |calls[1..]| ==> calls[1..][i] == calls[i + 1];
    SuppressFresh(s, calls[1..]);
  }

  lemma QuietMessageKeepsJoint(c: Config, s: State, h: Host, content: seq<Item>)
    requires Joint(c, s, h) && Calls(content) == []
    ensures Joint(c, s, After(h, MessageEnd(true, content), Continue))
  {
    assert h.names + CallNames([]) == h.names;
    assert h.seen + Elements(CallIds(content)) == h.seen;
    assert After(h, MessageEnd(true, content), Continue).retained == h.retained;
  }

  lemma StartKeepsJoint(c: Config, s: State, h: Host, id: string)
    requires Joint(c, s, h) && May(h, ExecutionStart(id)) && s.attemptCount <= c.toolLimit
    ensures var (next, reply) := Handle(c, s, ExecutionStart(id));
      Joint(c, next, After(h, ExecutionStart(id), reply))
  {
    assert Elements(s.attemptIds + [id]) == Elements(s.attemptIds) + {id};
  }

  lemma AdmitKeepsCalling(s: State, h: Host, id: string)
    requires Calling(s, h) && id in h.started
    ensures Calling(s.(admittedIds := s.admittedIds + [id]),
                    h.(started := h.started - {id}, running := h.running + {id}))
  {}

  lemma PassKeepsCalling(s: State, h: Host, id: string)
    requires Calling(s, h) && id in h.started && h.names[id] !in BUDGETED_TOOLS
    ensures Calling(s, h.(started := h.started - {id}, running := h.running + {id}))
  {
    assert id !in s.executedIds;
  }

  lemma HookKeepsJoint(c: Config, s: State, h: Host, name: string, id: string, signalAborted: bool)
    requires Joint(c, s, h) && May(h, AdmissionHook(name, id, signalAborted))
    ensures var (next, reply) := Handle(c, s, AdmissionHook(name, id, signalAborted));
      Joint(c, next, After(h, AdmissionHook(name, id, signalAborted), reply))
  {
    if name !in BUDGETED_TOOLS {
      PassKeepsCalling(s, h, id);
    } else if signalAborted || |s.admittedIds| >= c.toolLimit {
      assert Calling(s, h.(started := h.started - {id}, aborted := true));
    } else {
      AdmitKeepsCalling(s, h, id);
      assert Handle(c, s, AdmissionHook(name, id, signalAborted)).0 == s.(admittedIds := s.admittedIds + [id]);
    }
  }

  lemma ResultKeepsJoint(c: Config, s: State, h: Host, name: string, id: string)
    requires Joint(c, s, h) && May(h, ToolResult(name, id))
    ensures var (next, reply) := Handle(c, s, ToolResult(name, id));
      Joint(c, next, After(h, ToolResult(name, id), reply))
  {}

  lemma StepKeepsJoint(c: Config, s: State, h: Host, e: Event)
    requires c.turnLimit >= 1 && Joint(c, s, h) && May(h, e)
    requires e.ExecutionStart? ==> s.attemptCount <= c.toolLimit
    ensures var (next, reply) := Handle(c, s, e);
      && Joint(c, next, After(h, e, reply))
      && next.admissions >= s.admissions && (e == ProviderRequest ==> next.admissions >= 1)
      && (e != ProviderRequest ==> next.admissions == s.admissions)
  {
    match e
    case SessionStart(_) =>
    case ProviderRequest =>
    case MessageEnd(assistant, content) =>
      if assistant {
        if Calls(content) == [] {
          QuietMessageKeepsJoint(c, s, h, content);
        } else if |Calls(content)| <= RemainingAttempts(c, s) {
          WholeMessageKeepsJoint(c, s, h, content);
        } else {
          CutMessageKeepsJoint(c, s, h, content);
        }
      }
    case ExecutionStart(id) => StartKeepsJoint(c, s, h, id);
    case AdmissionHook(name, id, signalAborted) => HookKeepsJoint(c, s, h, name, id, signalAborted);
    case ToolResult(name, id) => ResultKeepsJoint(c, s, h, name, id);
    case Settled =>
  }

  /** Outside a startup violations never go away, and the counter counts every start. */
  lemma HandleCounts(c: Config, s: State, e: Event)
    requires e != SessionStart(true)
    ensures var next := Handle(c, s, e).0;
      && next.attemptCount == s.attemptCount + (if e.ExecutionStart? then 1 else 0)
      && (s.violations != [] ==> next.violations != [])
      && (e.ExecutionStart? && s.attemptCount > c.toolLimit ==> next.violations != [])
  {
    if e.MessageEnd? && e.assistant && |Calls(e.content)| > RemainingAttempts(c, s) {
      SuppressGrows(s, Calls(e.content)[1..]);
    }
  }

  lemma {:induction false} SuppressGrows(s: State, calls: seq<Item>)
    requires forall call <- calls :: call.ToolCall?
    ensures Suppress(s, calls).attemptCount == s.attemptCount
    ensures s.violations != [] ==> Suppress(s, calls).violations != []
    decreases calls
  {
    if calls != [] {
      SuppressGrows(s.(suppressedIds := UniquePush(s.suppressedIds, calls[0].id),
                       violations := NotedDuplicate(s.violations, s.suppressedIds, calls[0].id,
                                                    "suppressed_tool_request_id")),
                    calls[1..]);
    }
  }

  lemma {:induction false} RunCounts(c: Config, s: State, h: Host, events: seq<Event>)
    requires Conforming(c, s, h, events)
    ensures Run(c, s, events).attemptCount == s.attemptCount + Starts(events)
    ensures s.violations != [] ==> Run(c, s, events).violations != []
    decreases events
  {
    if events != [] {
      HandleCounts(c, s, events[0]);
      var (next, reply) := Handle(c, s, events[0]);
      RunCounts(c, next, After(h, events[0], reply), events[1..]);
    }
  }

  /** A conforming host keeps the joint state exactly as long as it starts no call past the limit. */
  lemma {:induction false} ConformingKeepsJoint(c: Config, s: State, h: Host, events: seq<Event>)
    requires c.turnLimit >= 1 && Joint(c, s, h) && Conforming(c, s, h, events)
    ensures Run(c, s, events).violations == [] <==> s.attemptCount + Starts(events) <= c.toolLimit + 1
    ensures Run(c, s, events).violations == [] ==>
      && "" !in Run(c, s, events).attemptIds && "" !in Run(c, s, events).suppressedIds
      && Apart(Run(c, s, events).suppressedIds, Run(c, s, events).attemptIds)
      && (Run(c, s, events).admissions >= 1 <==> s.admissions >= 1 || ProviderRequest in events)
    decreases events
  {
    if events == [] {
      assert "" !in Elements(s.attemptIds) && "" !in Elements(s.suppressedIds);
    } else {
      var (next, reply) := Handle(c, s, events[0]);
      HandleCounts(c, s, events[0]);
      if events[0].ExecutionStart? && s.attemptCount > c.toolLimit {
        RunCounts(c, next, After(h, events[0], reply), events[1..]);
      } else {
        StepKeepsJoint(c, s, h, events[0]);
        ConformingKeepsJoint(c, next, After(h, events[0], reply), events[1..]);
      }
    }
  }

  lemma StepKeepsCounted(c: Config, s: State, h: Host, e: Event)
    requires Counted(c, s, h) && May(h, e) && (e.ProviderRequest? ==> h.retained == {})
    ensures var (next, reply) := Handle(c, s, e); Counted(c, next, After(h, e, reply))
  {
    HandleCounts(c, s, e);
    match e
    case MessageEnd(assistant, content) =>
      if assistant && Calls(content) != [] {
        MessageKeepsCounted(c, s, h, content);
      }
    case ExecutionStart(id) => assert |h.retained - {id}| == |h.retained| - 1;
    case _ =>
  }

  lemma MessageKeepsCounted(c: Config, s: State, h: Host, content: seq<Item>)
    requires Counted(c, s, h) && h.awaiting && FreshCalls(h, content) && Calls(content) != []
    ensures var (next, reply) := Handle(c, s, MessageEnd(true, content));
      Counted(c, next, After(h, MessageEnd(true, content), reply))
  {
    HandleCounts(c, s, MessageEnd(true, content));
    if |Calls(content)| <= RemainingAttempts(c, s) {
      RetainedSize(Calls(content));
    } else {
      var terminal := Calls(content)[0].id;
      KeptCalls(content, terminal);
      var kept := set call | call in Calls(Keep(content, terminal)) :: if call.ToolCall? then call.id else "";
      assert kept <= {terminal};
      SubsetSize(kept, {terminal});
    }
  }

  lemma {:induction false} DrainingKeepsCounted(c: Config, s: State, h: Host, events: seq<Event>)
    requires Counted(c, s, h) && Conforming(c, s, h, events) && Draining(c, s, h, events)
    ensures Run(c, s, events).attemptCount <= c.toolLimit + 1
    decreases events
  {
    if events != [] {
      StepKeepsCounted(c, s, h, events[0]);
      var (next, reply) := Handle(c, s, events[0]);
      DrainingKeepsCounted(c, next, After(h, events[0], reply), events[1..]);
    }
  }

  lemma {:induction false} ConformingPrefix(c: Config, s: State, h: Host, events: seq<Event>, k: nat)
    requires k <= |events| && Conforming(c, s, h, events)
    ensures Conforming(c, s, h, events[..k])
    decreases events
  {
    if k > 0 {
      var (next, reply) := Handle(c, s, events[0]);
      ConformingPrefix(c, next, After(h, events[0], reply), events[1..], k - 1);
      assert events[..k][1..] == events[1..][..k - 1];
    }
  }

  /** Main result: a conforming session is free of violations exactly if it starts no more calls than
      the attempt limit; then the state is auditable as soon as one provider request was made. */
  lemma ViolationFreeExactly(c: Config, events: seq<Event>)
    requires c.turnLimit >= 1 && Conforming(c, FRESH, IDLE, events)
    ensures Run(c, FRESH, events).violations == [] <==> Starts(events) <= c.toolLimit + 1
    ensures Auditable(Run(c, FRESH, events)) <==> Starts(events) <= c.toolLimit + 1 && ProviderRequest in events
  {
    ConformingKeepsJoint(c, FRESH, IDLE, events);
  }

  /** A host that also starts every retained call before it requests again never exceeds the limit. */
  lemma DrainingStaysWithinLimit(c: Config, events: seq<Event>)
    requires Conforming(c, FRESH, IDLE, events) && Draining(c, FRESH, IDLE, events)
    ensures Starts(events) <= c.toolLimit + 1
  {
    DrainingKeepsCounted(c, FRESH, IDLE, events);
    RunCounts(c, FRESH, IDLE, events);
  }

  /** Hence in its sessions no violation is ever recorded. */
  lemma ConformingSessionIsAuditable(c: Config, events: seq<Event>)
    requires c.turnLimit >= 1 && Conforming(c, FRESH, IDLE, events) && Draining(c, FRESH, IDLE, events)
    ensures Run(c, FRESH, events).violations == []
    ensures Auditable(Run(c, FRESH, events)) <==> ProviderRequest in events
  {
    DrainingStaysWithinLimit(c, events);
    ViolationFreeExactly(c, events);
  }

  lemma {:induction false} StartsOfPrefix(events: seq<Event>, k: nat)
    requires k <= |events|
    ensures Starts(events[..k]) <= Starts(events)
  {
    if k > 0 {
      assert events[..k][1..] == events[1..][..k - 1];
      StartsOfPrefix(events[1..], k - 1);
    }
  }

  /** Main result: every receipt of a conforming session that keeps to the attempt limit passes all
      receipt-only clauses; what remains is that a request was admitted and that the normalised trace
      agrees. */
  lemma ConformingReceiptPasses(k: nat, events: seq<Event>, r: Receipt, trace: seq<TraceEntry>, providerTurns: int)
    requires Conforming(Config(k + 1, k), FRESH, IDLE, events) && Starts(events) <= k + 1
    requires r in Emissions(Config(k + 1, k), FRESH, events)
    ensures ReceiptOk(r, trace, providerTurns, k) <==>
      r.admissions >= 1 && providerTurns == r.admissions && TraceOk(r, trace)
  {
    var c := Config(k + 1, k);
    EmittedReceiptIsOfAPrefix(c, FRESH, events, r);
    var n :| 0 <= n < |events| && events[n] == Settled && r == MakeReceipt(c, Run(c, FRESH, events[..n]));
    ConformingPrefix(c, FRESH, IDLE, events, n);
    StartsOfPrefix(events, n);
    ConformingKeepsJoint(c, FRESH, IDLE, events[..n]);
    ReceiptVerdict(c, events[..n], k, trace, providerTurns);
  }

  // ---- Sessions ----

  lemma Onwards(c: Config, s: State, h: Host, e: Event, rest: seq<Event>)
    requires May(h, e)
    requires var (next, reply) := Handle(c, s, e); Conforming(c, next, After(h, e, reply), rest)
    ensures Conforming(c, s, h, [e] + rest)
    ensures Starts([e] + rest) == Starts(rest) + if e.ExecutionStart? then 1 else 0
    ensures Draining(c, s, h, [e] + rest) ==>
      && (e.ProviderRequest? ==> h.retained == {})
      && var (next, reply) := Handle(c, s, e); Draining(c, next, After(h, e, reply), rest)
  {
    assert ([e] + rest)[1..] == rest;
  }

  const REQUESTED := FRESH.(admissions := 2)
  const HOLDING_A := Host(false, false, {"a"}, map["a" := "bash"], {"a"}, {}, {})
  const HOLDING_BOTH := Host(false, false, {"a", "b"}, map["a" := "bash", "b" := "bash"], {"a", "b"}, {}, {})

  /** One message with one call. */
  lemma OneCall(h: Host, id: string)
    ensures var content := [ToolCall(id, "bash")];
      && Calls(content) == content && CallIds(content) == [id]
      && After(h, MessageEnd(true, content), Continue)
         == h.(awaiting := false, seen := h.seen + {id}, names := h.names[id := "bash"], retained := h.retained + {id})
      && (h.awaiting && id != "" && id !in h.seen ==> May(h, MessageEnd(true, content)))
  {
    var content := [ToolCall(id, "bash")];
    CallsOfOne(content[0]);
    assert content[1..] == [];
    assert CallIds(content) == [id] && Elements([id]) == {id};
    assert CallNames(content[1..]) == map[] && CallNames(content) == map[id := "bash"];
    assert content[0] in content;
    assert (set c | c in content :: if c.ToolCall? then c.id else "") == {id};
  }

  /** Both calls are retained; one or both are started. */
  function StartBoth(extra: bool): seq<Event> {
    [ExecutionStart("a")] + if extra then [ExecutionStart("b")] else []
  }

  lemma StartBothConforms(extra: bool)
    ensures Conforming(Config(2, 0), REQUESTED, HOLDING_BOTH, StartBoth(extra))
    ensures Starts(StartBoth(extra)) == if extra then 2 else 1
  {
    var c := Config(2, 0);
    var last: seq<Event> := if extra then [ExecutionStart("b")] else [];
    assert "a" in HOLDING_BOTH.retained && "b" in HOLDING_BOTH.retained - {"a"};
    var (s, reply) := Handle(c, REQUESTED, ExecutionStart("a"));
    var h := After(HOLDING_BOTH, ExecutionStart("a"), reply);
    if extra {
      Onwards(c, s, h, ExecutionStart("b"), []);
      assert [ExecutionStart("b")] + [] == last;
    }
    Onwards(c, REQUESTED, HOLDING_BOTH, ExecutionStart("a"), last);
  }

  /** A call is retained and started after the next request, with a limit of zero admitted calls. */
  function OverlappingSession(extra: bool): seq<Event> {
    [ProviderRequest] + ([MessageEnd(true, [ToolCall("a", "bash")])]
                         + ([ProviderRequest] + ([MessageEnd(true, [ToolCall("b", "bash")])] + StartBoth(extra))))
  }

  lemma OverlappingConforms(extra: bool)
    ensures Conforming(Config(2, 0), FRESH, IDLE, OverlappingSession(extra))
    ensures !Draining(Config(2, 0), FRESH, IDLE, OverlappingSession(extra))
    ensures Starts(OverlappingSession(extra)) == if extra then 2 else 1
  {
    hide Conforming, Draining, Starts, StartBoth, Calls, CallIds, CallNames, Keep, Suppress;
    var c, a, b := Config(2, 0), [ToolCall("a", "bash")], [ToolCall("b", "bash")];
    StartBothConforms(extra);
    OneCall(HOLDING_A.(awaiting := true), "b");
    assert {"a"} + {"b"} == {"a", "b"};
    Onwards(c, REQUESTED, HOLDING_A.(awaiting := true), MessageEnd(true, b), StartBoth(extra));
    var third := [MessageEnd(true, b)] + StartBoth(extra);
    Onwards(c, FRESH.(admissions := 1), HOLDING_A, ProviderRequest, third);
    assert "a" in HOLDING_A.retained;
    OneCall(IDLE.(awaiting := true), "a");
    assert {} + {"a"} == {"a"};
    Onwards(c, FRESH.(admissions := 1), IDLE.(awaiting := true), MessageEnd(true, a), [ProviderRequest] + third);
    Onwards(c, FRESH, IDLE, ProviderRequest, [MessageEnd(true, a)] + ([ProviderRequest] + third));
  }

  /** Instances: of two sessions that request with a call still retained, one bypasses the attempt
      limit and the other records no violation. */
  lemma RequestingWithRetainedCallsBypassesTheLimit()
    ensures !Draining(Config(2, 0), FRESH, IDLE, OverlappingSession(true))
    ensures !Draining(Config(2, 0), FRESH, IDLE, OverlappingSession(false))
    ensures Run(Config(2, 0), FRESH, OverlappingSession(true)).violations != []
    ensures Run(Config(2, 0), FRESH, OverlappingSession(false)).violations == []
  {
    OverlappingConforms(true);
    OverlappingConforms(false);
    hide Run, Conforming, Draining;
    ViolationFreeExactly(Config(2, 0), OverlappingSession(true));
    ViolationFreeExactly(Config(2, 0), OverlappingSession(false));
  }

  /** There are conforming sessions that end with a receipt: one request, then the agent settles. */
  lemma SettledSessionConforms(k: nat)
    ensures var c, events := Config(k + 1, k), [ProviderRequest, Settled];
      && Conforming(c, FRESH, IDLE, events) && Draining(c, FRESH, IDLE, events) && Starts(events) == 0
      && Emissions(c, FRESH, events) == [MakeReceipt(c, FRESH.(admissions := 1))]
  {
    var c, events := Config(k + 1, k), [ProviderRequest, Settled];
    var s, h := FRESH.(admissions := 1), IDLE.(awaiting := true);
    assert events[1..] == [Settled] && [Settled][1..] == [];
    assert Handle(c, FRESH, ProviderRequest) == (s, Continue);
    assert Conforming(c, s, h, [Settled]) && Draining(c, s, h, [Settled]);
    assert Emissions(c, s.(emitted := true), []) == [];
    assert Emissions(c, s, [Settled]) == [MakeReceipt(c, s)] + [];
    assert Emissions(c, FRESH, events) == [] + Emissions(c, s, [Settled]);
  }
}
