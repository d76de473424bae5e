/** The loopback proxy that reads cache mechanics out of the server's own response and records one
    receipt per forwarded request. */
module CacheProxy {
  import opened Common
  import opened JsonValues

  const TIMING_FIELDS: seq<string> := ["cache_n", "prompt_n", "prompt_ms", "predicted_n", "predicted_ms"]

  datatype Code =
    | TimingMissingOrInvalid(field: string)
    | OffModeReusedPrefix
    | CachedTokensInvalid
    | CachedTokensMissing
    | CounterMismatch
    | ResponseUnavailable
    | DownstreamDisconnected
    | CaptureLimitExceeded
    | TransportError(kind: string)

  datatype ServerMechanics = ServerMechanics(
    timings: map<string, Json>, cachedTokens: Option<int>, valid: bool, codes: set<Code>)

  predicate TimingOk(field: string, v: Json) {
    if field in {"prompt_ms", "predicted_ms"} then NonNegativeNumber(v) else NonNegativeInteger(v)
  }

  /** The last payload that carries an object under `key` decides. */
  function LastObject(payloads: seq<map<string, Json>>, key: string): Option<map<string, Json>> {
    if payloads == [] then None
    else
      var last := Get(payloads[|payloads| - 1], key);
      if last.Obj? then Some(last.fields) else LastObject(payloads[..|payloads| - 1], key)
  }

  function CachedTokens(usage: Option<map<string, Json>>): Option<int> {
    if usage.None? then None
    else
      var details := Get(usage.value, "prompt_tokens_details");
      if !details.Obj? then None
      else
        var v := Get(details.fields, "cached_tokens");
        if NonNegativeInteger(v) then Some(v.i) else None
  }

  predicate CachedTokensPresent(usage: Option<map<string, Json>>) {
    usage.Some?
    && var details := Get(usage.value, "prompt_tokens_details");
       details.Obj? && "cached_tokens" in details.fields
  }

  function Timing(timings: Option<map<string, Json>>, field: string): Json {
    if timings.Some? then Get(timings.value, field) else Null
  }

  // ---- What stands in the response ----

  /** The last object that stands under `key`, if any payload has one. */
  ghost predicate LastHeld(payloads: seq<map<string, Json>>, key: string, found: Option<map<string, Json>>) {
    match found
    case None => forall i :: 0 <= i < |payloads| ==> (key in payloads[i] ==> !payloads[i][key].Obj?)
    case Some(fields) =>
      exists i ::
        && 0 <= i < |payloads| && key in payloads[i] && payloads[i][key] == Obj(fields)
        && forall j :: i < j < |payloads| && key in payloads[j] ==> !payloads[j][key].Obj?
  }

  lemma {:induction false} LastObjectIsHeld(payloads: seq<map<string, Json>>, key: string)
    ensures LastHeld(payloads, key, LastObject(payloads, key))
  {
    if payloads != [] {
      var n := |payloads| - 1;
      LastObjectIsHeld(payloads[..n], key);
      assert payloads == payloads[..n] + [payloads[n]];
      var before := LastObject(payloads[..n], key);
      if !Get(payloads[n], key).Obj? && before.Some? {
        var i :| 0 <= i < n && key in payloads[..n][i] && payloads[..n][i][key] == Obj(before.value)
                 && forall j :: i < j < n && key in payloads[..n][j] ==> !payloads[..n][j][key].Obj?;
        assert payloads[i] == payloads[..n][i] && forall j :: i < j < n ==> payloads[j] == payloads[..n][j];
      }
    }
  }

  /** A count stands there: an integer from 0 up. */
  ghost predicate CountAt(fields: Option<map<string, Json>>, key: string, n: int) {
    n >= 0 && fields.Some? && key in fields.value && fields.value[key] == Int(n)
  }

  ghost predicate DurationAt(fields: Option<map<string, Json>>, key: string) {
    fields.Some? && key in fields.value
    && var v := fields.value[key]; (v.Int? && v.i >= 0) || (v.Num? && v.r >= 0.0)
  }

  ghost predicate CachedAt(usage: Option<map<string, Json>>, n: int) {
    && usage.Some? && "prompt_tokens_details" in usage.value
    && var details := usage.value["prompt_tokens_details"];
       details.Obj? && CountAt(Some(details.fields), "cached_tokens", n)
  }

  ghost predicate CachedNamed(usage: Option<map<string, Json>>) {
    && usage.Some? && "prompt_tokens_details" in usage.value
    && var details := usage.value["prompt_tokens_details"]; details.Obj? && "cached_tokens" in details.fields
  }

  ghost predicate TimingRead(timings: Option<map<string, Json>>, field: string) {
    if field == "prompt_ms" || field == "predicted_ms" then DurationAt(timings, field)
    else exists n :: CountAt(timings, field, n)
  }

  /** Every code that server mechanics can carry, each by what stands in the response. */
  ghost predicate CodesMean(codes: set<Code>, timings: Option<map<string, Json>>, usage: Option<map<string, Json>>,
                            off: bool)
  {
    && (forall f :: TimingMissingOrInvalid(f) in codes <==> f in TIMING_FIELDS && !TimingRead(timings, f))
    && (OffModeReusedPrefix in codes <==> off && exists n :: n > 0 && CountAt(timings, "cache_n", n))
    && (CachedTokensInvalid in codes <==> CachedNamed(usage) && forall n :: !CachedAt(usage, n))
    && (CachedTokensMissing in codes <==> forall n :: !CachedAt(usage, n))
    && (CounterMismatch in codes <==>
          exists n, k :: n != k && CountAt(timings, "cache_n", n) && CachedAt(usage, k))
    && forall c <- codes ::
      || c.TimingMissingOrInvalid? || c.OffModeReusedPrefix? || c.CachedTokensInvalid?
      || c.CachedTokensMissing? || c.CounterMismatch?
  }

  /** The mechanics in terms of the response: what is kept, and the codes that are noted. */
  ghost predicate MechanicsMean(m: ServerMechanics, timings: Option<map<string, Json>>,
                                usage: Option<map<string, Json>>, off: bool)
  {
    && (forall f :: f in m.timings <==> f in TIMING_FIELDS)
    && (forall f <- m.timings ::
          if TimingRead(timings, f) then timings.Some? && f in timings.value && m.timings[f] == timings.value[f]
          else m.timings[f] == Null)
    && (forall n :: m.cachedTokens == Some(n) <==> CachedAt(usage, n))
    && m.valid == (m.codes == {}) && CodesMean(m.codes, timings, usage, off)
  }

  lemma TimingIsRead(timings: Option<map<string, Json>>, field: string)
    requires field in TIMING_FIELDS
    ensures TimingOk(field, Timing(timings, field)) <==> TimingRead(timings, field)
    ensures TimingRead(timings, field) ==>
      timings.Some? && field in timings.value && Timing(timings, field) == timings.value[field]
  {
    var v := Timing(timings, field);
    if v.Int? && v.i >= 0 {
      assert CountAt(timings, field, v.i);
    }
  }

  lemma CachedIsRead(usage: Option<map<string, Json>>)
    ensures forall n :: CachedTokens(usage) == Some(n) <==> CachedAt(usage, n)
    ensures CachedTokensPresent(usage) <==> CachedNamed(usage)
  {}

  /** Clean mechanics: all five timings well-typed, the two cache counters equal, nothing reused
      with the cache off. */
  ghost predicate CleanMechanics(timings: Option<map<string, Json>>, usage: Option<map<string, Json>>, off: bool) {
    && (forall f <- TIMING_FIELDS :: TimingRead(timings, f))
    && exists n :: CountAt(timings, "cache_n", n) && CachedAt(usage, n) && (off ==> n == 0)
  }

  /** The same in one statement about the fields. */
  lemma CleanMeans(timings: Option<map<string, Json>>, usage: Option<map<string, Json>>, off: bool)
    ensures CleanMechanics(timings, usage, off) <==>
      (&& timings.Some? && usage.Some?
       && (forall key <- ["cache_n", "prompt_n", "predicted_n"] ::
             key in timings.value && timings.value[key].Int? && timings.value[key].i >= 0)
       && (forall key <- ["prompt_ms", "predicted_ms"] ::
             && key in timings.value
             && var v := timings.value[key]; (v.Int? && v.i >= 0) || (v.Num? && v.r >= 0.0))
       && "prompt_tokens_details" in usage.value
       && var details := usage.value["prompt_tokens_details"];
          && details.Obj? && "cached_tokens" in details.fields
          && details.fields["cached_tokens"] == timings.value["cache_n"]
          && (off ==> timings.value["cache_n"] == Int(0)))
  {
    hide TimingRead;
    FieldsOneByOne(timings);
    CountRead(timings, "cache_n");
    CountRead(timings, "prompt_n");
    CountRead(timings, "predicted_n");
    DurationRead(timings, "prompt_ms");
    DurationRead(timings, "predicted_ms");
    KeysOneByOne();
    if timings.Some? && "cache_n" in timings.value && timings.value["cache_n"].Int? && timings.value["cache_n"].i >= 0 {
      var n := timings.value["cache_n"].i;
      assert CountAt(timings, "cache_n", n);
      assert CachedAt(usage, n) <==>
        && usage.Some? && "prompt_tokens_details" in usage.value && usage.value["prompt_tokens_details"].Obj?
        && var details := usage.value["prompt_tokens_details"].fields;
           "cached_tokens" in details && details["cached_tokens"] == Int(n);
    }
  }

  lemma FieldsOneByOne(timings: Option<map<string, Json>>)
    ensures (forall f <- TIMING_FIELDS :: TimingRead(timings, f)) <==>
      && TimingRead(timings, "cache_n") && TimingRead(timings, "prompt_n") && TimingRead(timings, "predicted_n")
      && TimingRead(timings, "prompt_ms") && TimingRead(timings, "predicted_ms")
  {
    hide TimingRead;
    assert TIMING_FIELDS[0] == "cache_n" && TIMING_FIELDS[1] == "prompt_n" && TIMING_FIELDS[2] == "prompt_ms"
        && TIMING_FIELDS[3] == "predicted_n" && TIMING_FIELDS[4] == "predicted_ms";
  }

  lemma KeysOneByOne()
    ensures forall key ::
      key in ["cache_n", "prompt_n", "predicted_n"] <==> key == "cache_n" || key == "prompt_n" || key == "predicted_n"
    ensures forall key :: key in ["prompt_ms", "predicted_ms"] <==> key == "prompt_ms" || key == "predicted_ms"
  {}

  lemma DurationRead(timings: Option<map<string, Json>>, key: string)
    requires key == "prompt_ms" || key == "predicted_ms"
    ensures TimingRead(timings, key) <==>
      && timings.Some? && key in timings.value
      && var v := timings.value[key]; (v.Int? && v.i >= 0) || (v.Num? && v.r >= 0.0)
  {}

  lemma CountRead(timings: Option<map<string, Json>>, key: string)
    requires key != "prompt_ms" && key != "predicted_ms"
    ensures TimingRead(timings, key)
      <==> timings.Some? && key in timings.value && timings.value[key].Int? && timings.value[key].i >= 0
  {
    if timings.Some? && key in timings.value && timings.value[key].Int? && timings.value[key].i >= 0 {
      assert CountAt(timings, key, timings.value[key].i);
    }
  }

  lemma CacheCounter(timings: Option<map<string, Json>>)
    ensures "cache_n" in TIMING_FIELDS
    ensures TimingRead(timings, "cache_n") <==> CountAt(timings, "cache_n", Amount(Timing(timings, "cache_n")))
    ensures forall n :: CountAt(timings, "cache_n", n) ==> Timing(timings, "cache_n") == Int(n)
  {
    assert TIMING_FIELDS[0] == "cache_n";
  }

  ghost function Amount(v: Json): int {
    if v.Int? then v.i else -1
  }

  method ReadServerMechanics(payloads: seq<map<string, Json>>, off: bool) returns (m: ServerMechanics)
    ensures var timings, usage := LastObject(payloads, "timings"), LastObject(payloads, "usage");
      && LastHeld(payloads, "timings", timings) && LastHeld(payloads, "usage", usage)
      && MechanicsMean(m, timings, usage, off)
    ensures m.valid <==> CleanMechanics(LastObject(payloads, "timings"), LastObject(payloads, "usage"), off)
  {
    var timings: Option<map<string, Json>>, usage: Option<map<string, Json>> := None, None;
    for i := 0 to |payloads|
      invariant timings == LastObject(payloads[..i], "timings")
      invariant usage == LastObject(payloads[..i], "usage")
    {
      assert payloads[..i + 1][..i] == payloads[..i];
      var candidate := Get(payloads[i], "timings");
      if candidate.Obj? {
        timings := Some(candidate.fields);
      }
      candidate := Get(payloads[i], "usage");
      if candidate.Obj? {
        usage := Some(candidate.fields);
      }
    }
    assert payloads[..|payloads|] == payloads;
    LastObjectIsHeld(payloads, "timings");
    LastObjectIsHeld(payloads, "usage");
    m := JudgeMechanics(timings, usage, off);
    ValidMeansClean(m, timings, usage, off);
  }

  method ReadTimings(timings: Option<map<string, Json>>) returns (observed: map<string, Json>, codes: set<Code>)
    ensures forall f :: f in observed <==> f in TIMING_FIELDS
    ensures forall f <- TIMING_FIELDS ::
      observed[f] == (var v := Timing(timings, f); if TimingOk(f, v) then v else Null)
    ensures forall c :: c in codes <==>
      c.TimingMissingOrInvalid? && c.field in TIMING_FIELDS && !TimingOk(c.field, Timing(timings, c.field))
  {
    hide TimingOk, Timing;
    observed, codes := map[], {};
    for i := 0 to |TIMING_FIELDS|
      invariant forall f :: f in observed <==> f in TIMING_FIELDS[..i]
      invariant forall f <- TIMING_FIELDS[..i] ::
        observed[f] == (var v := Timing(timings, f); if TimingOk(f, v) then v else Null)
      invariant forall c :: c in codes <==>
        c.TimingMissingOrInvalid? && c.field in TIMING_FIELDS[..i] && !TimingOk(c.field, Timing(timings, c.field))
    {
      var field := TIMING_FIELDS[i];
      assert TIMING_FIELDS[..i + 1] == TIMING_FIELDS[..i] + [field];
      var v := Timing(timings, field);
      if TimingOk(field, v) {
        observed := observed[field := v];
      } else {
        observed := observed[field := Null];
        codes := codes + {TimingMissingOrInvalid(field)};
      }
    }
    assert TIMING_FIELDS[..|TIMING_FIELDS|] == TIMING_FIELDS;
  }

  /** The codes of the two cache counters: the server's timing and the usage it reports. */
  method CacheCodes(off: bool, cacheN: Json, cached: Option<int>, named: bool) returns (codes: set<Code>)
    requires (cacheN.Null? || cacheN.Int?) && (cacheN.Int? ==> cacheN.i >= 0)
    ensures OffModeReusedPrefix in codes <==> off && cacheN.Int? && cacheN.i > 0
    ensures CachedTokensInvalid in codes <==> cached.None? && named
    ensures CachedTokensMissing in codes <==> cached.None?
    ensures CounterMismatch in codes <==> cached.Some? && cacheN.Int? && cacheN.i != cached.value
    ensures forall c <- codes ::
      c.OffModeReusedPrefix? || c.CachedTokensInvalid? || c.CachedTokensMissing? || c.CounterMismatch?
  {
    codes := {};
    if off && !cacheN.Null? && cacheN != Int(0) {
      codes := codes + {OffModeReusedPrefix};
    }
    if cached.None? && named {
      codes := codes + {CachedTokensInvalid};
    }
    if cached.None? {
      codes := codes + {CachedTokensMissing};
    } else if !cacheN.Null? && Int(cached.value) != cacheN {
      codes := codes + {CounterMismatch};
    }
  }

  method JudgeMechanics(timings: Option<map<string, Json>>, usage: Option<map<string, Json>>, off: bool)
    returns (m: ServerMechanics)
    ensures MechanicsMean(m, timings, usage, off)
  {
    hide TimingOk, Timing, CachedTokens, CachedTokensPresent, TimingRead, CachedAt, CachedNamed, CountAt, CodesMean;
    var observed, codes := ReadTimings(timings);
    forall f <- TIMING_FIELDS {
      TimingIsRead(timings, f);
    }
    CachedIsRead(usage);
    CacheCounter(timings);
    var cacheN := observed["cache_n"];
    CounterStands(timings, cacheN);
    var cached := CachedTokens(usage);
    var cacheCodes := CacheCodes(off, cacheN, cached, CachedTokensPresent(usage));
    codes := codes + cacheCodes;
    m := ServerMechanics(observed, cached, codes == {}, codes);
    CodesExplained(codes, timings, usage, off, cacheN, cached);
  }

  lemma CodesExplained(codes: set<Code>, timings: Option<map<string, Json>>, usage: Option<map<string, Json>>,
                       off: bool, cacheN: Json, cached: Option<int>)
    requires forall n :: CountAt(timings, "cache_n", n) <==> cacheN == Int(n)
    requires (cacheN.Null? || cacheN.Int?) && (cacheN.Int? ==> cacheN.i >= 0)
    requires forall n :: cached == Some(n) <==> CachedAt(usage, n)
    requires forall f :: TimingMissingOrInvalid(f) in codes <==> f in TIMING_FIELDS && !TimingRead(timings, f)
    requires OffModeReusedPrefix in codes <==> off && cacheN.Int? && cacheN.i > 0
    requires CachedTokensInvalid in codes <==> cached.None? && CachedNamed(usage)
    requires CachedTokensMissing in codes <==> cached.None?
    requires CounterMismatch in codes <==> cached.Some? && cacheN.Int? && cacheN.i != cached.value
    requires forall c <- codes ::
      || c.TimingMissingOrInvalid? || c.OffModeReusedPrefix? || c.CachedTokensInvalid?
      || c.CachedTokensMissing? || c.CounterMismatch?
    ensures CodesMean(codes, timings, usage, off)
  {
    hide TimingRead, CachedAt, CachedNamed, CountAt;
    if cacheN.Int? {
      assert CountAt(timings, "cache_n", cacheN.i);
    }
    if cached.Some? {
      assert CachedAt(usage, cached.value);
    }
  }

  lemma CounterStands(timings: Option<map<string, Json>>, cacheN: Json)
    requires var v := Timing(timings, "cache_n"); cacheN == if TimingOk("cache_n", v) then v else Null
    ensures forall n :: CountAt(timings, "cache_n", n) <==> cacheN == Int(n)
    ensures cacheN.Null? || cacheN.Int?
    ensures cacheN.Int? ==> cacheN.i >= 0
  {}

  lemma ValidMeansClean(m: ServerMechanics, timings: Option<map<string, Json>>, usage: Option<map<string, Json>>,
                        off: bool)
    requires MechanicsMean(m, timings, usage, off)
    ensures m.valid <==> CleanMechanics(timings, usage, off)
  {
    hide TimingRead, CachedAt, CountAt, CachedNamed;
    CacheCounter(timings);
    OneCount(timings, usage);
  }

  lemma OneCount(timings: Option<map<string, Json>>, usage: Option<map<string, Json>>)
    ensures forall n, k :: CountAt(timings, "cache_n", n) && CountAt(timings, "cache_n", k) ==> n == k
    ensures forall n :: CountAt(timings, "cache_n", n) ==> n >= 0
    ensures "cache_n" in TIMING_FIELDS
    ensures TimingRead(timings, "cache_n") <==> exists n :: CountAt(timings, "cache_n", n)
    ensures CachedNamed(usage) || forall n :: !CachedAt(usage, n)
  {
    CacheCounter(timings);
  }

  // ---- Assembling a receipt ----

  datatype Context = Context(attemptId: string, panelId: string, pairId: string, seed: int, runtimeHash: string)

  /** What became of one forwarded request. */
  datatype Exchange =
    | Failed(status: Option<int>, kind: string, disconnected: bool)
    | Finished(httpStatus: int, payloads: seq<map<string, Json>>, overLimit: bool, disconnected: bool)

  datatype Payload = Payload(
    context: Context, turn: nat, off: bool, slot: int, requestHash: string,
    status: Option<int>, mechanics: ServerMechanics, mechanicsValid: bool, codes: set<Code>,
    rawRequestPersisted: bool, rawResponsePersisted: bool, authorizationPersisted: bool)

  /** A digest is represented by the very value it commits to. */
  datatype Receipt = Receipt(payload: Payload, hash: Payload)

  const NO_MECHANICS := ServerMechanics(map[], None, false, {ResponseUnavailable})

  ghost predicate ValidReceipt(r: Receipt) {
    var p := r.payload;
    && r.hash == p
    && !p.rawRequestPersisted && !p.rawResponsePersisted && !p.authorizationPersisted
    && p.mechanicsValid == (p.codes == {} && p.status == Some(200))
    && (p.mechanicsValid ==> forall f <- TIMING_FIELDS :: TimingRead(Some(p.mechanics.timings), f))
  }

  method ValidateReceipt(r: Receipt) returns (ok: bool)
    ensures ok <==>
      var p := r.payload;
      && r.hash == p && !p.rawRequestPersisted && !p.rawResponsePersisted && !p.authorizationPersisted
      && (p.mechanicsValid <==> p.codes == {} && p.status == Some(200))
      && (p.mechanicsValid ==> forall f <- TIMING_FIELDS :: TimingRead(Some(p.mechanics.timings), f))
    ensures ok <==> ValidReceipt(r)
  {
    hide TimingOk, TimingRead;
    var p := r.payload;
    forall f <- TIMING_FIELDS {
      TimingIsRead(Some(p.mechanics.timings), f);
    }
    if r.hash != p || p.rawRequestPersisted || p.rawResponsePersisted || p.authorizationPersisted {
      return false;
    }
    if p.mechanicsValid != (p.codes == {} && p.status == Some(200)) {
      return false;
    }
    for i := 0 to |TIMING_FIELDS|
      invariant p.mechanicsValid ==> forall f <- TIMING_FIELDS[..i] :: TimingOk(f, Get(p.mechanics.timings, f))
    {
      assert TIMING_FIELDS[..i + 1] == TIMING_FIELDS[..i] + [TIMING_FIELDS[i]];
      if p.mechanicsValid && !TimingOk(TIMING_FIELDS[i], Get(p.mechanics.timings, TIMING_FIELDS[i])) {
        assert TIMING_FIELDS[i] in TIMING_FIELDS;
        return false;
      }
    }
    assert TIMING_FIELDS[..|TIMING_FIELDS|] == TIMING_FIELDS;
    return true;
  }

  // ---- The recorder ----

  class CacheProxyRecorder {
    const maxRequests: nat
    const context: Context
    var nextIndex: nat
    var file: seq<Receipt>

    constructor (context: Context, maxRequests: nat)
      ensures this.context == context && this.maxRequests == maxRequests && nextIndex == 1 && file == []
    {
      this.context, this.maxRequests, nextIndex, file := context, maxRequests, 1, [];
    }

    method Reserve() returns (index: Option<nat>)
      modifies this`nextIndex
      ensures (nextIndex, index) == AfterReserve(old(nextIndex), maxRequests)
    {
      if nextIndex > maxRequests {
        return None;
      }
      index := Some(nextIndex);
      nextIndex := nextIndex + 1;
    }

    method Append(payload: Payload) returns (receipt: Receipt)
      modifies this`file
      ensures receipt == Receipt(payload, payload) && file == old(file) + [receipt]
    {
      receipt := Receipt(payload, payload);
      file := file + [receipt];
    }

    /** One POST whose body was accepted: reserve an index, forward, assemble, record. */
    method Forward(off: bool, requestHash: string, exchange: Exchange) returns (recorded: Option<Receipt>)
      modifies this
      ensures recorded.None? <==> old(nextIndex) > maxRequests
      ensures recorded.None? ==> file == old(file) && nextIndex == old(nextIndex)
      ensures recorded.Some? ==>
        var r := recorded.value;
        && file == old(file) + [r] && nextIndex == old(nextIndex) + 1
        && ValidReceipt(r) && Clean(r, off, exchange) && Told(r.payload, off, exchange)
        && r.payload.status == (if exchange.Finished? then Some(exchange.httpStatus) else exchange.status)
        && (DownstreamDisconnected in r.payload.codes <==> exchange.disconnected)
        && (CaptureLimitExceeded in r.payload.codes <==> exchange.Finished? && exchange.overLimit)
        && (ResponseUnavailable in r.payload.codes <==> exchange.Failed? || exchange.overLimit)
        && (forall kind :: TransportError(kind) in r.payload.codes <==> exchange.Failed? && kind == exchange.kind)
        && r.payload.turn == old(nextIndex) && r.payload.context == context
        && r.payload.off == off && r.payload.requestHash == requestHash && r.payload.slot == 0
    {
      var index := Reserve();
      if index.None? {
        return None;
      }
      hide *;
      var payload := Assemble(context, index.value, off, requestHash, exchange);
      ToldIsClean(payload, off, exchange);
      ToldCodes(payload, off, exchange);
      var receipt := Append(payload);
      return Some(receipt);
    }
  }

  /** The payload recorded for one forwarded request. */
  method Assemble(context: Context, turn: nat, off: bool, requestHash: string, exchange: Exchange)
    returns (payload: Payload)
    ensures Told(payload, off, exchange)
    ensures payload.turn == turn && payload.context == context && payload.off == off
    ensures payload.requestHash == requestHash && payload.slot == 0
    ensures !payload.rawRequestPersisted && !payload.rawResponsePersisted && !payload.authorizationPersisted
  {
    hide MechanicsMean, LastObject;
    var mechanics, codes := NO_MECHANICS, {};
    var seen: Option<int> := None;
    if exchange.disconnected {
      codes := codes + {DownstreamDisconnected};
    }
    match exchange {
      case Failed(s, kind, _) =>
        seen := s;
        codes := codes + {TransportError(kind)};
      case Finished(s, payloads, overLimit, _) =>
        seen := Some(s);
        if overLimit {
          codes := codes + {CaptureLimitExceeded};
        } else {
          mechanics := ReadServerMechanics(payloads, off);
        }
    }
    codes := codes + mechanics.codes;
    payload := Payload(context, turn, off, 0, requestHash, seen, mechanics,
                       mechanics.valid && codes == {} && seen == Some(200), codes, false, false, false);
    assert !mechanics.valid ==> codes != {} by {
      ValidHasNoCodes(mechanics, exchange, off);
    }
  }

  lemma ValidHasNoCodes(m: ServerMechanics, exchange: Exchange, off: bool)
    requires (
      m == NO_MECHANICS
      || (exchange.Finished?
          && MechanicsMean(m, LastObject(exchange.payloads, "timings"), LastObject(exchange.payloads, "usage"), off)))
    ensures m.valid == (m.codes == {})
  {
    hide CodesMean;
    assert ResponseUnavailable in NO_MECHANICS.codes;
  }

  /** What a payload tells of its exchange: the status, the mechanics, if the whole response was
      captured, and every code. */
  ghost predicate Told(p: Payload, off: bool, exchange: Exchange) {
    && p.status == (match exchange case Failed(s, _, _) => s case Finished(s, _, _, _) => Some(s))
    && (if exchange.Finished? && !exchange.overLimit
        then MechanicsMean(p.mechanics, LastObject(exchange.payloads, "timings"),
                           LastObject(exchange.payloads, "usage"), off)
        else p.mechanics == NO_MECHANICS)
    && (forall c :: c in p.codes <==>
          || c in p.mechanics.codes
          || (c == DownstreamDisconnected && exchange.disconnected)
          || (c == CaptureLimitExceeded && exchange.Finished? && exchange.overLimit)
          || (c.TransportError? && exchange.Failed? && c.kind == exchange.kind))
    && (p.mechanicsValid <==> p.codes == {} && p.status == Some(200))
  }

  lemma ToldIsClean(p: Payload, off: bool, exchange: Exchange)
    requires Told(p, off, exchange)
    requires !p.rawRequestPersisted && !p.rawResponsePersisted && !p.authorizationPersisted
    ensures ValidReceipt(Receipt(p, p)) && Clean(Receipt(p, p), off, exchange)
  {
    hide CodesMean, LastObject, TimingRead, CleanMechanics;
    if exchange.disconnected {
      assert DownstreamDisconnected in p.codes;
    }
    if exchange.Finished? && !exchange.overLimit {
      var timings, usage := LastObject(exchange.payloads, "timings"), LastObject(exchange.payloads, "usage");
      ValidMeansClean(p.mechanics, timings, usage, off);
      if c :| c in p.mechanics.codes {
        assert c in p.codes;
      } else if !exchange.disconnected {
        assert forall c :: c !in p.codes;
        TimingsKept(p.mechanics, timings, usage, off);
      }
    } else {
      assert ResponseUnavailable in NO_MECHANICS.codes;
    }
  }

  lemma ToldCodes(p: Payload, off: bool, exchange: Exchange)
    requires Told(p, off, exchange)
    ensures p.status == (if exchange.Finished? then Some(exchange.httpStatus) else exchange.status)
    ensures DownstreamDisconnected in p.codes <==> exchange.disconnected
    ensures CaptureLimitExceeded in p.codes <==> exchange.Finished? && exchange.overLimit
    ensures ResponseUnavailable in p.codes <==> exchange.Failed? || exchange.overLimit
    ensures forall kind :: TransportError(kind) in p.codes <==> exchange.Failed? && kind == exchange.kind
  {
    hide LastObject, TimingRead, CachedAt, CountAt, CachedNamed;
    assert forall c <- p.mechanics.codes ::
      !c.TransportError? && c != DownstreamDisconnected && c != CaptureLimitExceeded;
  }

  lemma TimingsKept(m: ServerMechanics, timings: Option<map<string, Json>>, usage: Option<map<string, Json>>, off: bool)
    requires MechanicsMean(m, timings, usage, off) && CleanMechanics(timings, usage, off)
    ensures forall f <- TIMING_FIELDS :: TimingRead(Some(m.timings), f)
  {
    hide CodesMean, CachedAt, CachedNamed;
    forall f <- TIMING_FIELDS ensures TimingRead(Some(m.timings), f) {
      assert TimingRead(timings, f) && m.timings[f] == timings.value[f];
      if n :| CountAt(timings, f, n) {
        assert CountAt(Some(m.timings), f, n);
      }
    }
  }

  function AfterReserve(next: nat, maximum: nat): (nat, Option<nat>) {
    if next > maximum then (next, None) else (next + 1, Some(next))
  }

  /** A receipt is valid for mechanics exactly when the whole exchange was clean. */
  ghost predicate Clean(r: Receipt, off: bool, exchange: Exchange) {
    r.payload.mechanicsValid
    <==> (exchange.Finished? && exchange.httpStatus == 200 && !exchange.overLimit && !exchange.disconnected
          && CleanMechanics(LastObject(exchange.payloads, "timings"), LastObject(exchange.payloads, "usage"), off))
  }

  /** The indices handed out by n reservations, in whatever order the handler threads take the lock. */
  function Reserved(next: nat, maximum: nat, n: nat): seq<nat>
    decreases n
  {
    if n == 0 then []
    else
      var (after, index) := AfterReserve(next, maximum);
      (if index.Some? then [index.value] else []) + Reserved(after, maximum, n - 1)
  }

  /** Main result: reservations hand out 1, 2, ... without gap or repetition, never past the maximum. */
  lemma {:induction false} ReservationsAreDistinct(next: nat, maximum: nat, n: nat)
    requires 1 <= next <= maximum + 1
    ensures var handed := Reserved(next, maximum, n);
      && |handed| == (if n <= maximum + 1 - next then n else maximum + 1 - next)
      && (forall i :: 0 <= i < |handed| ==> handed[i] == next + i <= maximum)
    decreases n
  {
    if n > 0 {
      ReservationsAreDistinct(AfterReserve(next, maximum).0, maximum, n - 1);
    }
  }
}
