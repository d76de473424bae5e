/** What a normalised event stream holds, read off the stream by position: the text before the first
    tool request, the final text, the tool executions and the provider turns. */
module EventMeaning {
  import opened Common
  import opened Events
  import opened JsonValues

  /** The content of the assistant messages, one after another. */
  function Spoken(events: seq<Event>): seq<Item> {
    if events == [] then []
    else
      var n := |events| - 1;
      if IsAssistant(events[n]) then Spoken(events[..n]) + events[n].message.content else Spoken(events[..n])
  }

  ghost predicate InOrder(at: seq<nat>) {
    forall r, s :: 0 <= r < s < |at| ==> at[r] < at[s]
  }

  ghost predicate ListsAt(texts: seq<string>, items: seq<Item>, wanted: set<nat>, at: seq<nat>) {
    && |at| == |texts| && InOrder(at) && (forall k: nat :: k in at <==> k in wanted)
    && forall r :: 0 <= r < |at| ==> at[r] < |items| && items[at[r]].Text? && texts[r] == items[at[r]].text
  }

  /** The texts are those at the wanted positions, in order. */
  ghost predicate Lists(texts: seq<string>, items: seq<Item>, wanted: set<nat>) {
    exists at: seq<nat> :: ListsAt(texts, items, wanted, at)
  }

  ghost function TextPositions(items: seq<Item>): set<nat> {
    set k: nat | k < |items| && items[k].Text?
  }

  /** Where a non-empty text stands before every tool request. */
  ghost function PreamblePositions(items: seq<Item>): set<nat> {
    set k: nat | k < |items| && items[k].Text? && items[k].text != "" && forall j :: 0 <= j < k ==> !items[j].Call?
  }

  lemma {:induction false} TextsAreListed(items: seq<Item>)
    ensures Lists(Texts(items), items, TextPositions(items))
  {
    if items == [] {
      assert ListsAt(Texts(items), items, TextPositions(items), []);
    } else {
      var n := |items| - 1;
      TextsAreListed(items[..n]);
      var at: seq<nat> :| ListsAt(Texts(items[..n]), items[..n], TextPositions(items[..n]), at);
      if items[n].Text? {
        assert TextPositions(items) == TextPositions(items[..n]) + {n};
        assert ListsAt(Texts(items), items, TextPositions(items), at + [n]);
      } else {
        assert TextPositions(items) == TextPositions(items[..n]);
        assert ListsAt(Texts(items), items, TextPositions(items), at);
      }
    }
  }

  lemma PreambleGrows(before: seq<string>, items: seq<Item>, asked: bool)
    requires items != [] && Lists(before, items[..|items| - 1], PreamblePositions(items[..|items| - 1]))
    requires asked <==> exists item <- items[..|items| - 1] :: item.Call?
    ensures var last := items[|items| - 1];
      if last.Text? && !asked && last.text != "" then Lists(before + [last.text], items, PreamblePositions(items))
      else Lists(before, items, PreamblePositions(items))
  {
    var n := |items| - 1;
    var head := items[..n];
    var at: seq<nat> :| ListsAt(before, head, PreamblePositions(head), at);
    assert asked <==> exists j :: 0 <= j < n && items[j].Call?;
    if items[n].Text? && !asked && items[n].text != "" {
      assert PreamblePositions(items) == PreamblePositions(head) + {n};
      assert ListsAt(before + [items[n].text], items, PreamblePositions(items), at + [n]);
    } else {
      assert PreamblePositions(items) == PreamblePositions(head);
      assert ListsAt(before, items, PreamblePositions(items), at);
    }
  }

  lemma {:induction false} PreambleIsListed(items: seq<Item>)
    ensures var (preamble, requested) := Preamble([], false, items);
      && (requested <==> exists item <- items :: item.Call?)
      && Lists(preamble, items, PreamblePositions(items))
  {
    hide Lists, PreamblePositions;
    if items == [] {
      NoPreamble();
    } else {
      var n := |items| - 1;
      PreambleIsListed(items[..n]);
      var (before, asked) := Preamble([], false, items[..n]);
      PreambleGrows(before, items, asked);
      assert items == items[..n] + [items[n]];
    }
  }

  lemma NoPreamble()
    ensures Lists([], [], PreamblePositions([]))
  {
    assert ListsAt([], [], PreamblePositions([]), []);
  }

  lemma {:induction false} PreambleOfMore(texts: seq<string>, requested: bool, a: seq<Item>, b: seq<Item>)
    ensures var (t, r) := Preamble(texts, requested, a);
      Preamble(texts, requested, a + b) == Preamble(t, r, b)
  {
    if b == [] {
      assert a + b == a;
    } else {
      PreambleOfMore(texts, requested, a, b[..|b| - 1]);
      assert (a + b)[..|a + b| - 1] == a + b[..|b| - 1];
    }
  }

  lemma {:induction false} PreambleOfSpoken(events: seq<Event>, parseInt: string -> Option<int>)
    ensures var g := Gather(events, parseInt); (g.preamble, g.requested) == Preamble([], false, Spoken(events))
  {
    hide Preamble, Amounts, Texts;
    if events == [] {
      NothingSaid();
    } else {
      var n := |events| - 1;
      PreambleOfSpoken(events[..n], parseInt);
      if IsAssistant(events[n]) {
        PreambleOfMore([], false, Spoken(events[..n]), events[n].message.content);
      }
    }
  }

  lemma NothingSaid()
    ensures Preamble([], false, []) == ([], false)
  {}

  ghost predicate Speaks(e: Event): (speaks: bool)
    ensures speaks ==> e.MessageEnd?
  {
    IsAssistant(e) && exists item <- e.message.content :: item.Text?
  }

  /** All texts, in order, of the last assistant message that has any. */
  ghost predicate FinalTextMeans(finalText: Option<seq<string>>, events: seq<Event>) {
    match finalText
    case None => forall e <- events :: !Speaks(e)
    case Some(texts) =>
      exists i :: 0 <= i < |events| && Speaks(events[i]) && (forall j :: i < j < |events| ==> !Speaks(events[j]))
                  && Lists(texts, events[i].message.content, TextPositions(events[i].message.content))
  }

  lemma NoTexts(content: seq<Item>)
    ensures Texts(content) == [] <==> forall item <- content :: !item.Text?
  {
    TextsAreListed(content);
    var at: seq<nat> :| ListsAt(Texts(content), content, TextPositions(content), at);
    if k :| 0 <= k < |content| && content[k].Text? {
      assert k in TextPositions(content) && k in at;
    }
    if Texts(content) != [] {
      assert content[at[0]].Text?;
    }
  }

  lemma MoreText(before: Option<seq<string>>, events: seq<Event>)
    requires events != [] && FinalTextMeans(before, events[..|events| - 1])
    ensures var e := events[|events| - 1];
      FinalTextMeans(if Speaks(e) then Some(Texts(e.message.content)) else before, events)
  {
    hide Lists, Texts, TextPositions, Speaks;
    var n := |events| - 1;
    assert events == events[..n] + [events[n]];
    if Speaks(events[n]) {
      TextsAreListed(events[n].message.content);
    } else if before.Some? {
      var i :| 0 <= i < n && Speaks(events[..n][i]) && (forall j :: i < j < n ==> !Speaks(events[..n][j]))
               && Lists(before.value, events[..n][i].message.content, TextPositions(events[..n][i].message.content));
      assert events[..n][i] == events[i] && forall j :: i < j < n ==> events[..n][j] == events[j];
    }
  }

  lemma {:induction false} FinalTextOfLastSpeaker(events: seq<Event>, parseInt: string -> Option<int>)
    ensures FinalTextMeans(Gather(events, parseInt).finalText, events)
  {
    hide Texts, Amounts, Preamble, Speaks, FinalTextMeans;
    if events == [] {
      NoText(parseInt);
    } else {
      var n := |events| - 1;
      FinalTextOfLastSpeaker(events[..n], parseInt);
      SpeaksWith(events[n]);
      MoreText(Gather(events[..n], parseInt).finalText, events);
    }
  }

  lemma NoText(parseInt: string -> Option<int>)
    ensures FinalTextMeans(Gather([], parseInt).finalText, [])
  {}

  lemma SpeaksWith(e: Event)
    ensures Speaks(e) <==> IsAssistant(e) && Texts(e.message.content) != []
  {
    hide Texts;
    if e.MessageEnd? {
      NoTexts(e.message.content);
    }
  }

  // ---- Session, executions and rejections ----

  ghost predicate SessionMeans(session: Option<string>, events: seq<Event>) {
    match session
    case None => forall e <- events :: !e.Session?
    case Some(id) =>
      exists i :: 0 <= i < |events| && events[i] == Session(id) && forall j :: i < j < |events| ==> !events[j].Session?
  }

  lemma MoreSession(before: Option<string>, events: seq<Event>)
    requires events != [] && SessionMeans(before, events[..|events| - 1])
    ensures var e := events[|events| - 1]; SessionMeans(if e.Session? then Some(e.id) else before, events)
  {
    var n := |events| - 1;
    assert events == events[..n] + [events[n]];
    if !events[n].Session? && before.Some? {
      var i :| 0 <= i < n && events[..n][i] == Session(before.value)
               && forall j :: i < j < n ==> !events[..n][j].Session?;
      assert events[i] == Session(before.value) && forall j :: i < j < n ==> events[..n][j] == events[j];
    }
  }

  lemma {:induction false} SessionIsTheLast(events: seq<Event>, parseInt: string -> Option<int>)
    ensures SessionMeans(Gather(events, parseInt).session, events)
  {
    hide Texts, Amounts, Preamble, SessionMeans;
    if events == [] {
      NoSession(parseInt);
    } else {
      SessionIsTheLast(events[..|events| - 1], parseInt);
      MoreSession(Gather(events[..|events| - 1], parseInt).session, events);
    }
  }

  lemma NoSession(parseInt: string -> Option<int>)
    ensures SessionMeans(Gather([], parseInt).session, [])
  {}

  ghost predicate ExecutionsAt(executions: seq<Execution>, events: seq<Event>, at: seq<nat>) {
    && |at| == |executions| && InOrder(at)
    && (forall k: nat :: k in at <==> k < |events| && events[k].ExecutionEnd?)
    && forall r :: 0 <= r < |at| ==>
      at[r] < |events| && events[at[r]].ExecutionEnd? && executions[r] == events[at[r]].execution
  }

  ghost function Rejected(events: seq<Event>): set<nat> {
    set k: nat | k < |events| && events[k].ExecutionEnd? && events[k].execution.result.budgetRejected
  }

  lemma MoreExecutions(executions: seq<Execution>, events: seq<Event>, at: seq<nat>)
    requires events != [] && ExecutionsAt(executions, events[..|events| - 1], at)
    ensures var n := |events| - 1;
      if events[n].ExecutionEnd? then ExecutionsAt(executions + [events[n].execution], events, at + [n])
      else ExecutionsAt(executions, events, at)
  {
    var n := |events| - 1;
    assert forall k :: 0 <= k < n ==> events[..n][k] == events[k];
    assert forall k: nat :: k in at + [n] <==> k in at || k == n;
  }

  lemma MoreRejections(events: seq<Event>)
    requires events != []
    ensures var n := |events| - 1;
      |Rejected(events)| == |Rejected(events[..n])|
        + if events[n].ExecutionEnd? && events[n].execution.result.budgetRejected then 1 else 0
  {
    var n := |events| - 1;
    if events[n].ExecutionEnd? && events[n].execution.result.budgetRejected {
      assert Rejected(events) == Rejected(events[..n]) + {n};
    } else {
      assert Rejected(events) == Rejected(events[..n]);
    }
  }

  lemma {:induction false} ExecutionsAreThose(events: seq<Event>, parseInt: string -> Option<int>)
    ensures exists at: seq<nat> :: ExecutionsAt(Gather(events, parseInt).executions, events, at)
    ensures Gather(events, parseInt).rejections == |Rejected(events)|
  {
    hide Texts, Amounts, Preamble, ExecutionsAt, Rejected;
    if events == [] {
      NoExecutions(parseInt);
    } else {
      var n := |events| - 1;
      ExecutionsAreThose(events[..n], parseInt);
      var before := Gather(events[..n], parseInt).executions;
      var at: seq<nat> :| ExecutionsAt(before, events[..n], at);
      MoreExecutions(before, events, at);
      MoreRejections(events);
      var executions := Gather(events, parseInt).executions;
      assert ExecutionsAt(executions, events, if events[n].ExecutionEnd? then at + [n] else at);
    }
  }

  lemma NoExecutions(parseInt: string -> Option<int>)
    ensures ExecutionsAt(Gather([], parseInt).executions, [], []) && Rejected([]) == {}
    ensures Gather([], parseInt).rejections == 0
  {}

  /** Everything gathered but the token counts, by position. */
  ghost predicate GatheredMeans(g: Gathered, events: seq<Event>) {
    && SessionMeans(g.session, events)
    && FinalTextMeans(g.finalText, events)
    && Lists(g.preamble, Spoken(events), PreamblePositions(Spoken(events)))
    && (g.requested <==> exists item <- Spoken(events) :: item.Call?)
    && (exists at: seq<nat> :: ExecutionsAt(g.executions, events, at))
    && g.rejections == |Rejected(events)|
  }

  /** Main result: the preamble lists the non-empty texts before the first tool request of the whole stream,
      the final text those of the last message that has any. */
  lemma GatheredByPosition(events: seq<Event>, parseInt: string -> Option<int>)
    ensures GatheredMeans(Gather(events, parseInt), events)
  {
    hide Gather, Spoken, Preamble, Lists, ExecutionsAt, Rejected, SessionMeans, FinalTextMeans;
    SessionIsTheLast(events, parseInt);
    FinalTextOfLastSpeaker(events, parseInt);
    PreambleOfSpoken(events, parseInt);
    PreambleIsListed(Spoken(events));
    ExecutionsAreThose(events, parseInt);
  }

  // ---- Provider turns ----

  /** A counter is reported exactly if its key is there, and then as the whole number that stands there. */
  ghost predicate CounterMeans(counter: Option<int>, usage: Json, key: string) {
    && (counter.Some? <==> usage.Obj? && key in usage.fields)
    && (counter.Some? ==>
          && counter.value >= 0
          && (usage.fields[key] == Int(counter.value) || usage.fields[key] == Num(counter.value as real)))
  }

  const PROVIDER_KEYS := ["input", "output", "cacheRead", "cacheWrite", "reasoning", "totalTokens"]

  predicate Writes(v: Json, n: nat) {
    v == Int(n) || v == Num(n as real)
  }

  ghost predicate IsCount(v: Json) {
    exists n: nat :: Writes(v, n)
  }

  /** A provider turn is refused exactly if one of its counters stands there and is not a whole number. */
  lemma UsageOkExactly(usage: Json)
    ensures UsageOk(usage)
      <==> (usage.Obj? ==> forall key <- PROVIDER_KEYS :: key in usage.fields ==> IsCount(usage.fields[key]))
  {
    hide IsCount, WholeCount;
    var f := ProviderFields(usage);
    forall key <- PROVIDER_KEYS ensures CountOk(f, key) <==> (key in f ==> IsCount(f[key])) {
      if key in f {
        CountIsWhole(f[key]);
      }
    }
    assert PROVIDER_KEYS[0] == "input" && PROVIDER_KEYS[1] == "output" && PROVIDER_KEYS[2] == "cacheRead"
        && PROVIDER_KEYS[3] == "cacheWrite" && PROVIDER_KEYS[4] == "reasoning" && PROVIDER_KEYS[5] == "totalTokens";
  }

  lemma CountIsWhole(v: Json)
    ensures WholeCount(v) <==> IsCount(v)
  {
    if WholeCount(v) {
      assert Writes(v, if v.Int? then v.i else v.r.Floor);
    }
  }

  ghost predicate TurnMeans(t: ProviderTurn, m: Message) {
    && t.stopReason == m.stopReason
    && CounterMeans(t.usage.input, m.usage, "input") && CounterMeans(t.usage.output, m.usage, "output")
    && CounterMeans(t.usage.cacheRead, m.usage, "cacheRead") && CounterMeans(t.usage.cacheWrite, m.usage, "cacheWrite")
    && CounterMeans(t.usage.reasoning, m.usage, "reasoning") && CounterMeans(t.usage.total, m.usage, "totalTokens")
  }

  lemma CounterIsRead(usage: Json, key: string)
    requires CountOk(ProviderFields(usage), key)
    ensures CounterMeans(CountOf(ProviderFields(usage), key), usage, key)
  {}

  lemma TurnIsRead(m: Message, index: nat, event: nat)
    requires UsageOk(m.usage)
    ensures TurnMeans(ProviderTurn(index, event, UsageOf(m.usage), m.stopReason), m)
  {
    hide CounterMeans, CountOk, CountOf, ProviderFields;
    CounterIsRead(m.usage, "input");
    CounterIsRead(m.usage, "output");
    CounterIsRead(m.usage, "cacheRead");
    CounterIsRead(m.usage, "cacheWrite");
    CounterIsRead(m.usage, "reasoning");
    CounterIsRead(m.usage, "totalTokens");
  }

  /** One turn for every assistant message among the first n events that is not synthetic, numbered from 1. */
  ghost predicate TurnsMean(turns: seq<ProviderTurn>, events: seq<Event>, receipt: Option<BudgetReceipt>, n: nat)
    requires n <= |events|
  {
    && (forall r :: 0 <= r < |turns| ==>
          && turns[r].index == r + 1 && turns[r].event < n && IsAssistant(events[turns[r].event])
          && !Synthetic(events, receipt, turns[r].event)
          && TurnMeans(turns[r], events[turns[r].event].message))
    && (forall r, s :: 0 <= r < s < |turns| ==> turns[r].event < turns[s].event)
    && (forall k: nat :: k < n && IsAssistant(events[k]) && !Synthetic(events, receipt, k) ==>
          exists t <- turns :: t.event == k)
  }

  lemma OneMoreTurn(before: seq<ProviderTurn>, turn: ProviderTurn, events: seq<Event>, receipt: Option<BudgetReceipt>,
                    n: nat)
    requires n < |events| && TurnsMean(before, events, receipt, n)
    requires IsAssistant(events[n]) && !Synthetic(events, receipt, n) && TurnMeans(turn, events[n].message)
    requires turn.index == |before| + 1 && turn.event == n
    ensures TurnsMean(before + [turn], events, receipt, n + 1)
  {
    hide Synthetic, TurnMeans;
    var after := before + [turn];
    assert after[|before|] == turn;
    forall k: nat | k < n + 1 && IsAssistant(events[k]) && !Synthetic(events, receipt, k)
      ensures exists t <- after :: t.event == k
    {
      if k < n {
        var t :| t in before && t.event == k;
        assert t in after;
      }
    }
  }

  lemma {:induction false} TurnsByPosition(events: seq<Event>, receipt: Option<BudgetReceipt>,
                                           parseInt: string -> Option<int>, n: nat)
    requires n <= |events| && AllCountable(events, receipt, parseInt, n)
    ensures TurnsMean(Turns(events, receipt, n), events, receipt, n)
  {
    hide Synthetic, UsageOk, UsageOf, Amounts, TurnMeans, TurnsMean;
    if n == 0 {
      NoTurns(events, receipt);
    } else {
      TurnsByPosition(events, receipt, parseInt, n - 1);
      var before := Turns(events, receipt, n - 1);
      TurnsStep(events, receipt, n - 1);
      var m := if events[n - 1].MessageEnd? then events[n - 1].message else THINKING_ABORT;
      if IsAssistant(events[n - 1]) && !Synthetic(events, receipt, n - 1) {
        CountableTurn(m, false, parseInt);
        TurnIsRead(m, |before| + 1, n - 1);
        var turn := ProviderTurn(|before| + 1, n - 1, UsageOf(m.usage), m.stopReason);
        OneMoreTurn(before, turn, events, receipt, n - 1);
      } else {
        NoMoreTurn(before, events, receipt, n - 1);
      }
    }
  }

  lemma NoTurns(events: seq<Event>, receipt: Option<BudgetReceipt>)
    ensures TurnsMean(Turns(events, receipt, 0), events, receipt, 0)
  {}

  lemma NoMoreTurn(turns: seq<ProviderTurn>, events: seq<Event>, receipt: Option<BudgetReceipt>, n: nat)
    requires n < |events| && TurnsMean(turns, events, receipt, n)
    requires !IsAssistant(events[n]) || Synthetic(events, receipt, n)
    ensures TurnsMean(turns, events, receipt, n + 1)
  {
    hide Synthetic, TurnMeans;
  }

  // ---- The running totals ----

  /** What one counter adds, value by value: nothing for what is falsy, a whole number as it is, the whole part of
      any other number, what a text parses to; anything else cannot be counted. */
  lemma AmountMeans(v: Json, parseInt: string -> Option<int>)
    ensures v.Null? || v == Bool(false) || v == Str("") || v == Obj(map[]) ==> Amount(v, parseInt) == Some(0)
    ensures v == Bool(true) ==> Amount(v, parseInt) == Some(1)
    ensures v.Int? ==> Amount(v, parseInt) == Some(v.i)
    ensures v.Num? ==>
      var n := Amount(v, parseInt);
      n.Some? && if v.r >= 0.0 then 0.0 <= v.r - n.value as real < 1.0 else -1.0 < v.r - n.value as real <= 0.0
    ensures v.Str? && v.s != "" ==> Amount(v, parseInt) == parseInt(v.s)
    ensures v.NonFinite? || (v.Obj? && v.fields != map[]) ==> Amount(v, parseInt) == None
  {}

  /** The counts of one message: those of its usage object, none if usage is falsy. */
  lemma AmountsMean(usage: Json, parseInt: string -> Option<int>)
    ensures !usage.Obj? ==>
      Amounts(usage, parseInt)
      == if usage.Null? || usage == Bool(false) || usage == Int(0) || usage == Num(0.0) || usage == Str("")
         then Some(Counts(0, 0, 0, 0, 0, 0)) else None
    ensures usage.Obj? ==>
      var c, f := Amounts(usage, parseInt), usage.fields;
      && (c.None? <==> exists key <- PROVIDER_KEYS :: Amount(Get(f, key), parseInt).None?)
      && (c.Some? ==>
            && Amount(Get(f, "input"), parseInt) == Some(c.value.input)
            && Amount(Get(f, "output"), parseInt) == Some(c.value.output)
            && Amount(Get(f, "cacheRead"), parseInt) == Some(c.value.cacheRead)
            && Amount(Get(f, "cacheWrite"), parseInt) == Some(c.value.cacheWrite)
            && Amount(Get(f, "reasoning"), parseInt) == Some(c.value.reasoning)
            && Amount(Get(f, "totalTokens"), parseInt) == Some(c.value.total))
  {
    AmountMeans(Null, parseInt);
    hide Amount, Truncate;
    if usage.Obj? {
      assert PROVIDER_KEYS[0] == "input" && PROVIDER_KEYS[1] == "output" && PROVIDER_KEYS[2] == "cacheRead"
          && PROVIDER_KEYS[3] == "cacheWrite" && PROVIDER_KEYS[4] == "reasoning" && PROVIDER_KEYS[5] == "totalTokens";
    } else if Falsy(usage) {
      assert forall key :: Get(map[], key) == Null;
    }
  }

  // ---- The synthetic message ----

  /** The tool call that some assistant message asked for and that ended aborted, with neither another execution's end
      nor an assistant message in between, nor one between the request and the abort. */
  ghost predicate AbortedCall(events: seq<Event>, i: nat, a: nat, p: nat) {
    && p < a < i <= |events|
    && events[a].ExecutionEnd? && events[a].execution.result.operationAborted
    && (forall j :: a < j < i ==> !events[j].ExecutionEnd? && !(events[j].MessageEnd? && events[j].message.assistant))
    && events[a].execution.callId.Some? && events[a].execution.callId.value != ""
    && events[p].MessageEnd? && events[p].message.assistant
    && (forall j :: p < j < a ==> !(events[j].MessageEnd? && events[j].message.assistant))
    && Call(events[a].execution.callId) in events[p].message.content
  }

  ghost predicate ZeroUsage(usage: Json) {
    usage.Obj? && forall key <- ["input", "output", "cacheRead", "cacheWrite", "totalTokens"] ::
      key in usage.fields && (usage.fields[key] == Int(0) || usage.fields[key] == Num(0.0))
  }

  /** When a message is taken for the local abort, field by field. */
  lemma SyntheticMeans(events: seq<Event>, receipt: Option<BudgetReceipt>, i: nat)
    requires i < |events|
    ensures Synthetic(events, receipt, i) <==>
      (&& events[i].MessageEnd?
       && (forall j :: i < j < |events| ==>
             && !events[j].ExecutionStart? && !events[j].ExecutionEnd?
             && !(events[j].MessageEnd? && events[j].message.assistant))
       && var m := events[i].message;
          && m.assistant && m.content == [] && m.provider.Some? && m.model.Some? && ZeroUsage(m.usage)
          && var request := m.stopReason == Some("aborted") && m.errorMessage == Some("Request aborted");
             var operation := m.stopReason == Some("error") && m.errorMessage == Some("This operation was aborted");
             || (request && receipt.Some? && receipt.value.knownSchema && receipt.value.requestBlocks == 1)
             || ((request || operation) && exists a: nat, p: nat :: AbortedCall(events, i, a, p)))
  {
    hide FollowsToolAbort, HasZeroTokenUsage, ZeroUsage, AbortedCall;
    FollowsMeans(events, i);
    if events[i].MessageEnd? {
      ZeroUsageMeans(events[i].message);
    }
  }

  lemma ZeroUsageMeans(m: Message)
    ensures HasZeroTokenUsage(m) <==> ZeroUsage(m.usage)
  {
    assert ZERO_FIELDS == ["input", "output", "cacheRead", "cacheWrite", "totalTokens"];
  }

  lemma FollowsMeans(events: seq<Event>, i: nat)
    requires i < |events|
    ensures FollowsToolAbort(events, i) <==> exists a: nat, p: nat :: AbortedCall(events, i, a, p)
  {
    if FollowsToolAbort(events, i) {
      var a, p :| 0 <= p < a < i && AbortedBefore(events, i, a) && LinkedCall(events, a, p);
      var item :| item in events[p].message.content && item.Call? && item.id == Some(events[a].execution.callId.value);
      assert item == Call(events[a].execution.callId);
      assert AbortedCall(events, i, a, p);
    }
    if a: nat, p: nat :| AbortedCall(events, i, a, p) {
      assert AbortedBefore(events, i, a);
      assert Requested(events[p].message, events[a].execution.callId.value);
      assert LinkedCall(events, a, p);
    }
  }
}
