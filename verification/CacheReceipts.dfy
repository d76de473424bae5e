/** Runtime receipts from a launch probe, and turn receipts from a provider turn and its proxy mechanics. */
module CacheReceipts {
  import opened Common
  import opened JsonValues
  import ArgvScanner
  import CacheProxy

  // ---- The runtime receipt ----

  datatype EndpointStatus = Available | BlockedWhileSleeping | Unreachable | Unavailable

  function Classify(httpStatus: Option<int>, modelState: Option<string>): EndpointStatus {
    if httpStatus == Some(200) then Available
    else if httpStatus == Some(400) && modelState == Some("sleeping") then BlockedWhileSleeping
    else if httpStatus.None? then Unreachable
    else Unavailable
  }

  datatype Mode = On | Off | Unresolved

  datatype RuntimeCode =
    | LaunchCode(code: ArgvScanner.Code)
    | UsesImplicitDefaults
    | EndpointCode(endpoint: string, status: EndpointStatus)

  datatype Observation = Observation(
    argv: seq<string>, help: string, identity: string, modelState: Option<string>,
    metrics: Option<int>, slots: Option<int>)

  type Fields = map<string, ArgvScanner.Field>

  /** What the two cells must share, and the switch they differ in. */
  datatype CommonConfig = CommonConfig(identity: string, launch: Fields, help: string)
  datatype CellConfig = CellConfig(common: CommonConfig, promptCache: ArgvScanner.Field)

  /** Digests are represented by the values they commit to. */
  datatype RuntimeReceipt = RuntimeReceipt(
    mode: Mode, identity: string, fields: Fields, help: string,
    commonHash: CommonConfig, cellHash: CellConfig, eligible: bool, codes: set<RuntimeCode>)

  function ModeOf(prompt: ArgvScanner.Field): Mode {
    if prompt.explicit && prompt.value == Some(ArgvScanner.Flag(true)) then On
    else if prompt.explicit && prompt.value == Some(ArgvScanner.Flag(false)) then Off
    else Unresolved
  }

  function CommonOf(identity: string, fields: Fields, help: string): CommonConfig {
    CommonConfig(identity, fields - {"prompt_cache"}, help)
  }

  predicate ValidRuntime(r: RuntimeReceipt) {
    && r.eligible == (r.codes == {})
    && "prompt_cache" in r.fields
    && r.commonHash == CommonOf(r.identity, r.fields, r.help)
    && r.cellHash == CellConfig(r.commonHash, r.fields["prompt_cache"])
    && r.mode == ModeOf(r.fields["prompt_cache"])
  }

  /** What a canary may rely on: every field set exactly once, in a spelling the help documents,
      and both endpoints answering. */
  ghost predicate Pinned(o: Observation, settings: seq<ArgvScanner.Setting>, fields: seq<string>,
                         supported: string -> bool) {
    && (forall f <- fields :: |ArgvScanner.Of(settings, f)| == 1 && supported(f))
    && o.metrics == Some(200) && o.slots == Some(200)
  }

  /** How an endpoint's answer is coded: 200 not at all, 400 of a sleeping model apart from the others. */
  ghost predicate EndpointCoded(codes: set<RuntimeCode>, name: string, http: Option<int>, modelState: Option<string>) {
    var asleep := http == Some(400) && modelState == Some("sleeping");
    && EndpointCode(name, Available) !in codes
    && (EndpointCode(name, BlockedWhileSleeping) in codes <==> asleep)
    && (EndpointCode(name, Unreachable) in codes <==> http == None)
    && (EndpointCode(name, Unavailable) in codes <==> http != None && http != Some(200) && !asleep)
  }

  ghost predicate LaunchCoded(codes: set<RuntimeCode>, f: string, given: seq<ArgvScanner.Setting>, supported: bool) {
    && (LaunchCode(ArgvScanner.DuplicateArgument(f)) in codes <==> |given| > 1)
    && (LaunchCode(ArgvScanner.ConflictingArgument(f)) in codes
        <==> exists i, j :: 0 <= i < j < |given| && given[i].value != given[j].value)
    && (LaunchCode(ArgvScanner.ImplicitArgument(f)) in codes <==> given == [])
    && (LaunchCode(ArgvScanner.NotInHelp(f)) in codes <==> !supported)
  }

  /** Every invalidation code, and nothing but these. */
  ghost predicate Coded(codes: set<RuntimeCode>, o: Observation, settings: seq<ArgvScanner.Setting>,
                        fields: seq<string>, supported: string -> bool)
  {
    && (forall f <- fields :: LaunchCoded(codes, f, ArgvScanner.Of(settings, f), supported(f)))
    && (UsesImplicitDefaults in codes <==> exists f <- fields :: |ArgvScanner.Of(settings, f)| != 1)
    && EndpointCoded(codes, "metrics", o.metrics, o.modelState) && EndpointCoded(codes, "slots", o.slots, o.modelState)
    && (forall c <- codes ::
          (c.LaunchCode? ==> c.code.field in fields) && (c.EndpointCode? ==> c.endpoint in {"metrics", "slots"}))
  }

  ghost predicate BuiltFrom(r: RuntimeReceipt, o: Observation, settings: seq<ArgvScanner.Setting>, fields: seq<string>,
                            supported: string -> bool)
  {
    && ValidRuntime(r)
    && (r.eligible <==> Pinned(o, settings, fields, supported)) && Coded(r.codes, o, settings, fields, supported)
    && (forall f :: f in r.fields <==> f in fields)
    && (forall f <- fields :: r.fields[f] == ArgvScanner.FieldOf(ArgvScanner.Of(settings, f), supported(f)))
    && r.identity == o.identity && r.help == o.help
  }

  method BuildRuntimeReceipt(table: ArgvScanner.Table, fields: seq<string>, parseInt: string -> Option<int>,
                             supported: string -> bool, o: Observation)
    returns (result: Result<RuntimeReceipt>)
    requires (forall alias <- table :: table[alias].field in fields) && "prompt_cache" in fields
    ensures result.Err? <==> o.argv == [] || ArgvScanner.Scan(table, parseInt, o.argv).Err?
    ensures result.Ok? ==>
      BuiltFrom(result.value, o, ArgvScanner.Scan(table, parseInt, o.argv).value, fields, supported)
    ensures result.Ok? ==>
      var r, settings := result.value, ArgvScanner.Scan(table, parseInt, o.argv).value;
      var switch := ArgvScanner.Of(settings, "prompt_cache");
      && (r.mode == On <==> |switch| == 1 && switch[0].value == ArgvScanner.Flag(true))
      && (r.mode == Off <==> |switch| == 1 && switch[0].value == ArgvScanner.Flag(false))
      && (r.eligible <==>
            && (forall f <- fields :: |ArgvScanner.Of(settings, f)| == 1 && supported(f))
            && o.metrics == Some(200) && o.slots == Some(200))
  {
    hide *;
    var parsed := ArgvScanner.ParseLaunch(table, fields, parseInt, supported, o.argv);
    if parsed.Err? {
      return Err(parsed.message);
    }
    ghost var settings := ArgvScanner.Scan(table, parseInt, o.argv).value;
    var r := ReceiptOf(o, parsed.value, fields, settings, supported);
    ReceiptIsOfTheLaunch(r, o, settings, fields, supported);
    return Ok(r);
  }

  method ReceiptOf(o: Observation, launch: ArgvScanner.Launch, fields: seq<string>,
                   ghost settings: seq<ArgvScanner.Setting>, supported: string -> bool)
    returns (r: RuntimeReceipt)
    requires "prompt_cache" in fields && forall f :: f in launch.fields <==> f in fields
    requires forall f <- fields :: launch.fields[f] == ArgvScanner.FieldOf(ArgvScanner.Of(settings, f), supported(f))
    requires forall f <- fields :: ArgvScanner.CodesExplain(launch.codes, f, ArgvScanner.Of(settings, f), supported(f))
    requires forall c <- launch.codes :: c.field in fields
    requires launch.allExplicit <==> forall f <- fields :: |ArgvScanner.Of(settings, f)| == 1
    ensures BuiltFrom(r, o, settings, fields, supported)
  {
    hide ArgvScanner.Of, ArgvScanner.FieldOf, ArgvScanner.CodesExplain, Pinned, Classify, ValidRuntime, Coded;
    var codes := RuntimeCodes(launch, Classify(o.metrics, o.modelState), Classify(o.slots, o.modelState));
    CodedBy(codes, launch, o, settings, fields, supported);
    NoCodes(launch.codes, fields, settings, supported);
    EligibleMeansPinned(o, settings, fields, supported, launch);
    r := Assemble(o, launch.fields, codes);
  }

  method RuntimeCodes(launch: ArgvScanner.Launch, metrics: EndpointStatus, slots: EndpointStatus)
    returns (codes: set<RuntimeCode>)
    ensures codes == {} <==> (launch.codes == {} && launch.allExplicit && metrics == Available && slots == Available)
    ensures forall c :: LaunchCode(c) in codes <==> c in launch.codes
    ensures UsesImplicitDefaults in codes <==> !launch.allExplicit
    ensures forall name, status :: EndpointCode(name, status) in codes <==>
      status != Available && ((name == "metrics" && status == metrics) || (name == "slots" && status == slots))
  {
    codes := set c | c in launch.codes :: LaunchCode(c);
    assert codes == {} <==> launch.codes == {} by {
      forall c <- launch.codes ensures codes != {} {
        assert LaunchCode(c) in codes;
      }
    }
    if !launch.allExplicit {
      codes := codes + {UsesImplicitDefaults};
    }
    if metrics != Available {
      codes := codes + {EndpointCode("metrics", metrics)};
    }
    if slots != Available {
      codes := codes + {EndpointCode("slots", slots)};
    }
  }

  method Assemble(o: Observation, fields: Fields, codes: set<RuntimeCode>) returns (r: RuntimeReceipt)
    requires "prompt_cache" in fields
    ensures ValidRuntime(r) && r.codes == codes && r.fields == fields && r.identity == o.identity && r.help == o.help
    ensures r.eligible <==> codes == {}
  {
    var common, prompt := CommonOf(o.identity, fields, o.help), fields["prompt_cache"];
    r := RuntimeReceipt(ModeOf(prompt), o.identity, fields, o.help, common, CellConfig(common, prompt), codes == {},
                        codes);
  }

  lemma CodedBy(codes: set<RuntimeCode>, launch: ArgvScanner.Launch, o: Observation,
                settings: seq<ArgvScanner.Setting>, fields: seq<string>, supported: string -> bool)
    requires forall f <- fields :: ArgvScanner.CodesExplain(launch.codes, f, ArgvScanner.Of(settings, f), supported(f))
    requires forall c <- launch.codes :: c.field in fields
    requires launch.allExplicit <==> forall f <- fields :: |ArgvScanner.Of(settings, f)| == 1
    requires forall c :: LaunchCode(c) in codes <==> c in launch.codes
    requires UsesImplicitDefaults in codes <==> !launch.allExplicit
    requires forall name, status :: EndpointCode(name, status) in codes <==>
      && status != Available
      && ((name == "metrics" && status == Classify(o.metrics, o.modelState))
          || (name == "slots" && status == Classify(o.slots, o.modelState)))
    ensures Coded(codes, o, settings, fields, supported)
  {
    hide ArgvScanner.Of, ArgvScanner.CodesExplain, LaunchCoded;
    forall f <- fields ensures LaunchCoded(codes, f, ArgvScanner.Of(settings, f), supported(f)) {
      LaunchCodedBy(codes, launch.codes, f, ArgvScanner.Of(settings, f), supported(f));
    }
  }

  lemma LaunchCodedBy(codes: set<RuntimeCode>, launchCodes: set<ArgvScanner.Code>, f: string,
                      given: seq<ArgvScanner.Setting>, supported: bool)
    requires ArgvScanner.CodesExplain(launchCodes, f, given, supported)
    requires forall c :: LaunchCode(c) in codes <==> c in launchCodes
    ensures LaunchCoded(codes, f, given, supported)
  {}

  lemma EligibleMeansPinned(o: Observation, settings: seq<ArgvScanner.Setting>, fields: seq<string>,
                            supported: string -> bool, launch: ArgvScanner.Launch)
    requires launch.codes == {} <==> forall f <- fields :: |ArgvScanner.Of(settings, f)| == 1 && supported(f)
    requires launch.allExplicit <==> forall f <- fields :: |ArgvScanner.Of(settings, f)| == 1
    ensures (launch.codes == {} && launch.allExplicit && Classify(o.metrics, o.modelState) == Available
             && Classify(o.slots, o.modelState) == Available)
      <==> Pinned(o, settings, fields, supported)
  {
    hide ArgvScanner.Of;
  }

  lemma NoCodes(codes: set<ArgvScanner.Code>, fields: seq<string>, settings: seq<ArgvScanner.Setting>,
                supported: string -> bool)
    requires forall f <- fields :: ArgvScanner.CodesExplain(codes, f, ArgvScanner.Of(settings, f), supported(f))
    requires forall c <- codes :: c.field in fields
    ensures codes == {} <==> forall f <- fields :: |ArgvScanner.Of(settings, f)| == 1 && supported(f)
  {
    hide ArgvScanner.Of;
    if codes == {} {
      forall f <- fields ensures |ArgvScanner.Of(settings, f)| == 1 && supported(f) {
        assert ArgvScanner.CodesExplain(codes, f, ArgvScanner.Of(settings, f), supported(f));
      }
    } else {
      var c :| c in codes;
      var mine := ArgvScanner.Of(settings, c.field);
      assert ArgvScanner.CodesExplain(codes, c.field, mine, supported(c.field));
    }
  }

  /** What a receipt says of its launch: every field as it was set, once or not, and the mode that the
      prompt-cache switch was set to; the digests commit to all of it. */
  lemma ReceiptIsOfTheLaunch(r: RuntimeReceipt, o: Observation, settings: seq<ArgvScanner.Setting>, fields: seq<string>,
                             supported: string -> bool)
    requires BuiltFrom(r, o, settings, fields, supported) && "prompt_cache" in fields
    ensures var given := ArgvScanner.Of(settings, "prompt_cache");
      && (r.mode == On <==> |given| == 1 && given[0].value == ArgvScanner.Flag(true))
      && (r.mode == Off <==> |given| == 1 && given[0].value == ArgvScanner.Flag(false))
    ensures forall f <- fields ::
      && f in r.fields
      && var field, given := r.fields[f], ArgvScanner.Of(settings, f);
         && field.occurrences == given && (field.explicit <==> |given| == 1) && (field.supported <==> supported(f))
         && field.value == if |given| == 1 then Some(given[0].value) else None
    ensures r.commonHash.identity == r.identity == o.identity && r.commonHash.help == r.help == o.help
    ensures r.cellHash == CellConfig(r.commonHash, r.fields["prompt_cache"])
    ensures forall f :: f in r.commonHash.launch <==> f in fields && f != "prompt_cache"
    ensures forall f <- r.commonHash.launch :: r.commonHash.launch[f] == r.fields[f]
    ensures r.eligible <==> r.codes == {}
    ensures r.eligible <==>
      && (forall f <- fields :: |ArgvScanner.Of(settings, f)| == 1 && supported(f))
      && o.metrics == Some(200) && o.slots == Some(200)
    ensures EndpointCode("metrics", BlockedWhileSleeping) in r.codes
      <==> o.metrics == Some(400) && o.modelState == Some("sleeping")
    ensures EndpointCode("slots", BlockedWhileSleeping) in r.codes
      <==> o.slots == Some(400) && o.modelState == Some("sleeping")
    ensures EndpointCode("metrics", Unreachable) in r.codes <==> o.metrics == None
    ensures EndpointCode("slots", Unreachable) in r.codes <==> o.slots == None
  {
    hide ArgvScanner.Of, LaunchCoded;
  }

  method ValidateRuntimeReceipt(r: RuntimeReceipt) returns (ok: bool)
    ensures ok <==>
      && (r.eligible <==> r.codes == {}) && "prompt_cache" in r.fields
      && r.commonHash == CommonConfig(r.identity, r.fields - {"prompt_cache"}, r.help)
      && r.cellHash == CellConfig(r.commonHash, r.fields["prompt_cache"])
      && var switch := r.fields["prompt_cache"];
         && (r.mode == On <==> switch.explicit && switch.value == Some(ArgvScanner.Flag(true)))
         && (r.mode == Off <==> switch.explicit && switch.value == Some(ArgvScanner.Flag(false)))
    ensures ok <==> ValidRuntime(r)
  {
    if r.eligible != (r.codes == {}) || "prompt_cache" !in r.fields {
      return false;
    }
    var common := CommonOf(r.identity, r.fields, r.help);
    if r.commonHash != common || r.cellHash != CellConfig(common, r.fields["prompt_cache"]) {
      return false;
    }
    return r.mode == ModeOf(r.fields["prompt_cache"]);
  }

  /** Two valid receipts with one common digest differ, if at all, in the prompt-cache switch. */
  lemma CommonDigestPinsTheRest(a: RuntimeReceipt, b: RuntimeReceipt)
    requires ValidRuntime(a) && ValidRuntime(b) && a.commonHash == b.commonHash
    ensures a.identity == b.identity && a.help == b.help && a.fields.Keys == b.fields.Keys
    ensures forall f <- a.fields :: f != "prompt_cache" ==> a.fields[f] == b.fields[f]
  {
    var rest := a.commonHash.launch;
    assert a.fields.Keys == rest.Keys + {"prompt_cache"} && b.fields.Keys == rest.Keys + {"prompt_cache"};
    forall f <- a.fields | f != "prompt_cache" ensures a.fields[f] == b.fields[f] {
      assert f in rest && rest[f] == a.fields[f] && rest[f] == b.fields[f];
    }
  }

  // ---- The turn receipt ----

  datatype Usage = Usage(
    complete: bool, input: Option<int>, output: Option<int>, cacheRead: Option<int>,
    logicalPrompt: Option<int>, total: Option<int>)

  datatype ProviderTurn = ProviderTurn(index: Option<int>, usage: Usage, assistantHash: string)

  /** The mechanics handed over for one turn; a missing one is Null. */
  datatype Mechanics = Mechanics(
    requestHash: Json, reused: Json, promptSeconds: Json, generationSeconds: Json, slot: Json,
    promptTokens: Json, predictedTokens: Json)

  datatype Observable =
    | RequestSha256 | ReusedPrefixTokens | PromptSeconds | GenerationSeconds | SlotIdentity
    | ServerPromptTokens | ServerPredictedTokens

  datatype TurnCode = Unobservable(what: Observable) | UsageIncomplete | RuntimeIneligible

  datatype TurnReceipt = TurnReceipt(
    pairId: string, turn: Option<int>, seed: int, runtime: RuntimeReceipt, usage: Usage,
    requestHash: Option<string>, reused: Option<int>, promptSeconds: Option<real>,
    generationSeconds: Option<real>, slot: Option<Json>, promptTokens: Option<int>,
    predictedTokens: Option<int>, cacheRead: Option<int>, assistantHash: string,
    mechanicsValid: bool, codes: set<TurnCode>)

  function ObservedText(v: Json): Option<string> {
    if v.Str? && |v.s| == 64 then Some(v.s) else None
  }

  function ObservedCount(v: Json): Option<int> {
    if NonNegativeInteger(v) then Some(v.i) else None
  }

  function ObservedSeconds(v: Json): Option<real> {
    if NonNegativeNumber(v) then Some(AsReal(v)) else None
  }

  function ObservedSlot(v: Json): Option<Json> {
    if v.Str? || v.Int? then Some(v) else None
  }

  predicate Unseen(t: TurnReceipt, what: Observable) {
    match what
    case RequestSha256 => t.requestHash.None?
    case ReusedPrefixTokens => t.reused.None?
    case PromptSeconds => t.promptSeconds.None?
    case GenerationSeconds => t.generationSeconds.None?
    case SlotIdentity => t.slot.None?
    case ServerPromptTokens => t.promptTokens.None?
    case ServerPredictedTokens => t.predictedTokens.None?
  }

  /** A turn receipt whose verdict is backed by its own observations. */
  ghost predicate Faithful(t: TurnReceipt) {
    && t.mechanicsValid == (t.codes == {})
    && (t.codes == {} <==> (AllObserved(t) && t.usage.complete && t.runtime.eligible))
    && (AllObserved(t) ==> forall c <- t.codes :: !c.Unobservable?)
    && (t.reused.Some? ==> t.reused.value >= 0)
    && (t.promptTokens.Some? ==> t.promptTokens.value >= 0)
    && (t.promptSeconds.Some? ==> t.promptSeconds.value >= 0.0)
  }

  ghost predicate AllObserved(t: TurnReceipt) {
    && t.requestHash.Some? && t.reused.Some? && t.promptSeconds.Some? && t.generationSeconds.Some?
    && t.slot.Some? && t.promptTokens.Some? && t.predictedTokens.Some?
  }

  predicate ValidTurn(t: TurnReceipt) {
    t.turn.Some? && t.turn.value >= 1 && t.mechanicsValid == (t.codes == {})
  }

  /** What is observed of one value that was handed over, and when nothing is. */
  ghost predicate TextObserved(o: Option<string>, v: Json) {
    (o.Some? <==> v.Str? && |v.s| == 64) && (o.Some? ==> v == Str(o.value))
  }

  ghost predicate CountObserved(o: Option<int>, v: Json) {
    (o.Some? <==> v.Int? && v.i >= 0) && (o.Some? ==> v == Int(o.value))
  }

  ghost predicate SecondsObserved(o: Option<real>, v: Json) {
    && (o.Some? <==> (v.Int? && v.i >= 0) || (v.Num? && v.r >= 0.0))
    && (o.Some? ==> v == Num(o.value) || (v.Int? && v.i as real == o.value))
  }

  ghost predicate SlotObserved(o: Option<Json>, v: Json) {
    (o.Some? <==> v.Str? || v.Int?) && (o.Some? ==> o.value == v)
  }

  ghost predicate Observes(t: TurnReceipt, m: Mechanics) {
    && TextObserved(t.requestHash, m.requestHash) && CountObserved(t.reused, m.reused)
    && SecondsObserved(t.promptSeconds, m.promptSeconds) && SecondsObserved(t.generationSeconds, m.generationSeconds)
    && SlotObserved(t.slot, m.slot) && CountObserved(t.promptTokens, m.promptTokens)
    && CountObserved(t.predictedTokens, m.predictedTokens)
  }

  /** Every invalidation code of a turn, and nothing but these. */
  ghost predicate TurnCoded(codes: set<TurnCode>, t: TurnReceipt) {
    && (Unobservable(RequestSha256) in codes <==> t.requestHash == None)
    && (Unobservable(ReusedPrefixTokens) in codes <==> t.reused == None)
    && (Unobservable(PromptSeconds) in codes <==> t.promptSeconds == None)
    && (Unobservable(GenerationSeconds) in codes <==> t.generationSeconds == None)
    && (Unobservable(SlotIdentity) in codes <==> t.slot == None)
    && (Unobservable(ServerPromptTokens) in codes <==> t.promptTokens == None)
    && (Unobservable(ServerPredictedTokens) in codes <==> t.predictedTokens == None)
    && (UsageIncomplete in codes <==> !t.usage.complete)
    && (RuntimeIneligible in codes <==> !t.runtime.eligible)
  }

  ghost predicate NonNegative(v: Json) {
    v.Int? && v.i >= 0
  }

  ghost predicate Timed(v: Json) {
    (v.Int? && v.i >= 0) || (v.Num? && v.r >= 0.0)
  }

  method BuildTurnReceipt(turn: ProviderTurn, pairId: string, seed: int, runtime: RuntimeReceipt, m: Mechanics)
    returns (result: Result<TurnReceipt>)
    ensures result.Err? <==> !ValidRuntime(runtime) || |turn.assistantHash| != 64
    ensures result.Ok? ==>
      var t := result.value;
      && Faithful(t) && Observes(t, m) && TurnCoded(t.codes, t)
      && (turn.index.Some? && turn.index.value >= 1 ==> ValidTurn(t))
      && (t.mechanicsValid <==>
            && m.requestHash.Str? && |m.requestHash.s| == 64 && (m.slot.Str? || m.slot.Int?)
            && NonNegative(m.reused) && NonNegative(m.promptTokens) && NonNegative(m.predictedTokens)
            && Timed(m.promptSeconds) && Timed(m.generationSeconds)
            && turn.usage.complete && runtime.eligible)
      && t.pairId == pairId && t.turn == turn.index && t.seed == seed && t.runtime == runtime
      && t.usage == turn.usage && t.cacheRead == turn.usage.cacheRead && t.assistantHash == turn.assistantHash
  {
    hide *;
    var ok := ValidateRuntimeReceipt(runtime);
    if !ok || |turn.assistantHash| != 64 {
      return Err("invalid runtime receipt or assistant hash");
    }
    var t := TurnReceipt(
      pairId, turn.index, seed, runtime, turn.usage,
      ObservedText(m.requestHash), ObservedCount(m.reused), ObservedSeconds(m.promptSeconds),
      ObservedSeconds(m.generationSeconds), ObservedSlot(m.slot), ObservedCount(m.promptTokens),
      ObservedCount(m.predictedTokens), turn.usage.cacheRead, turn.assistantHash, false, {});
    var codes := TurnCodes(t);
    var verdict := t.(mechanicsValid := codes == {}, codes := codes);
    ObservedAsRead(verdict, m);
    CodedIsFaithful(verdict, t, m);
    return Ok(verdict);
  }

  lemma ObservedAsRead(t: TurnReceipt, m: Mechanics)
    requires t.requestHash == ObservedText(m.requestHash) && t.reused == ObservedCount(m.reused)
    requires t.promptSeconds == ObservedSeconds(m.promptSeconds)
    requires t.generationSeconds == ObservedSeconds(m.generationSeconds)
    requires t.slot == ObservedSlot(m.slot) && t.promptTokens == ObservedCount(m.promptTokens)
    requires t.predictedTokens == ObservedCount(m.predictedTokens)
    ensures Observes(t, m)
  {}

  lemma CodedIsFaithful(t: TurnReceipt, uncoded: TurnReceipt, m: Mechanics)
    requires Observes(t, m) && TurnCoded(t.codes, uncoded) && t.mechanicsValid == (t.codes == {})
    requires uncoded == t.(mechanicsValid := false, codes := {})
    ensures Faithful(t) && TurnCoded(t.codes, t)
    ensures t.mechanicsValid <==>
      && m.requestHash.Str? && |m.requestHash.s| == 64 && (m.slot.Str? || m.slot.Int?)
      && NonNegative(m.reused) && NonNegative(m.promptTokens) && NonNegative(m.predictedTokens)
      && Timed(m.promptSeconds) && Timed(m.generationSeconds)
      && t.usage.complete && t.runtime.eligible
    ensures t.turn.Some? && t.turn.value >= 1 ==> ValidTurn(t)
  {
    hide Observes, NonNegative, Timed;
    SignsObserved(t, m);
    forall c <- t.codes ensures c.Unobservable? ==> !AllObserved(t) {
      if c.Unobservable? {
        match c.what
        case RequestSha256 =>
        case ReusedPrefixTokens =>
        case PromptSeconds =>
        case GenerationSeconds =>
        case SlotIdentity =>
        case ServerPromptTokens =>
        case ServerPredictedTokens =>
      }
    }
    if c :| c in t.codes {
      assert c.Unobservable? || c == UsageIncomplete || c == RuntimeIneligible;
    }
  }

  lemma SignsObserved(t: TurnReceipt, m: Mechanics)
    requires Observes(t, m)
    ensures t.reused.Some? ==> t.reused.value >= 0
    ensures t.promptTokens.Some? ==> t.promptTokens.value >= 0
    ensures t.promptSeconds.Some? ==> t.promptSeconds.value >= 0.0
    ensures AllObserved(t) <==>
      && m.requestHash.Str? && |m.requestHash.s| == 64 && (m.slot.Str? || m.slot.Int?)
      && NonNegative(m.reused) && NonNegative(m.promptTokens) && NonNegative(m.predictedTokens)
      && Timed(m.promptSeconds) && Timed(m.generationSeconds)
  {}

  method TurnCodes(t: TurnReceipt) returns (codes: set<TurnCode>)
    ensures TurnCoded(codes, t)
  {
    codes := set what: Observable | Unseen(t, what) :: Unobservable(what);
    if !t.usage.complete {
      codes := codes + {UsageIncomplete};
    }
    if !t.runtime.eligible {
      codes := codes + {RuntimeIneligible};
    }
  }

  // ---- From proxy receipt to turn receipt ----

  method ProxyMechanics(r: CacheProxy.Receipt) returns (result: Result<Mechanics>)
    ensures result.Err? <==> !CacheProxy.ValidReceipt(r) || !r.payload.mechanicsValid
    ensures result.Ok? ==>
      var timings := r.payload.mechanics.timings;
      var m := result.value;
      && m.requestHash == Str(r.payload.requestHash) && m.slot == Int(r.payload.slot)
      && m.reused == Get(timings, "cache_n") && m.promptTokens == Get(timings, "prompt_n")
      && m.predictedTokens == Get(timings, "predicted_n")
      && NonNegativeInteger(m.reused) && NonNegativeInteger(m.promptTokens) && NonNegativeInteger(m.predictedTokens)
      && NonNegativeNumber(m.promptSeconds) && NonNegativeNumber(m.generationSeconds)
      && NonNegativeNumber(Get(timings, "prompt_ms")) && NonNegativeNumber(Get(timings, "predicted_ms"))
      && m.promptSeconds == Num(AsReal(Get(timings, "prompt_ms")) / 1000.0)
      && m.generationSeconds == Num(AsReal(Get(timings, "predicted_ms")) / 1000.0)
  {
    var ok := CacheProxy.ValidateReceipt(r);
    if !ok || !r.payload.mechanicsValid {
      return Err("cache proxy mechanics are invalid");
    }
    var timings := r.payload.mechanics.timings;
    EveryTiming(r);
    return Ok(Mechanics(
      Str(r.payload.requestHash), Get(timings, "cache_n"), Num(AsReal(Get(timings, "prompt_ms")) / 1000.0),
      Num(AsReal(Get(timings, "predicted_ms")) / 1000.0), Int(r.payload.slot), Get(timings, "prompt_n"),
      Get(timings, "predicted_n")));
  }

  lemma EveryTiming(r: CacheProxy.Receipt)
    requires CacheProxy.ValidReceipt(r) && r.payload.mechanicsValid
    ensures var t := r.payload.mechanics.timings;
      && NonNegativeInteger(Get(t, "cache_n")) && NonNegativeInteger(Get(t, "prompt_n"))
      && NonNegativeNumber(Get(t, "prompt_ms")) && NonNegativeInteger(Get(t, "predicted_n"))
      && NonNegativeNumber(Get(t, "predicted_ms"))
  {
    var fields := CacheProxy.TIMING_FIELDS;
    assert fields[0] in fields && fields[1] in fields && fields[2] in fields;
    assert fields[3] in fields && fields[4] in fields;
  }

  /** Main result: mechanics that the proxy recorded as valid leave nothing unobservable in the turn
      receipt, which is then mechanics-valid exactly when the usage is complete and the runtime eligible. */
  method ReceiptFromProxy(r: CacheProxy.Receipt, turn: ProviderTurn, runtime: RuntimeReceipt)
    returns (result: Result<TurnReceipt>)
    requires |r.payload.requestHash| == 64
    ensures result.Ok? <==>
      (CacheProxy.ValidReceipt(r) && r.payload.mechanicsValid && ValidRuntime(runtime) && |turn.assistantHash| == 64)
    ensures result.Ok? ==>
      var t := result.value;
      && AllObserved(t) && (forall c <- t.codes :: !c.Unobservable?)
      && (t.mechanicsValid <==> turn.usage.complete && runtime.eligible)
      && Get(r.payload.mechanics.timings, "cache_n") == Int(t.reused.value)
      && Get(r.payload.mechanics.timings, "prompt_n") == Int(t.promptTokens.value)
      && Get(r.payload.mechanics.timings, "predicted_n") == Int(t.predictedTokens.value)
  {
    var m := ProxyMechanics(r);
    if m.Err? {
      return Err(m.message);
    }
    result := BuildTurnReceipt(turn, r.payload.context.pairId, r.payload.context.seed, runtime, m.value);
  }
}
