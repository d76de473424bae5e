/** Finding the cache settings in a server's argument vector. */
module ArgvScanner {
  import opened Common

  datatype Value = Flag(on: bool) | Text(text: string) | Number(n: int)

  datatype Kind = Switches(on: bool) | TakesText | TakesInteger

  datatype Alias = Alias(field: string, kind: Kind)

  type Table = map<string, Alias>

  datatype Setting = Setting(field: string, argument: string, value: Value)

  const CACHE_FIELDS: seq<string> := [
    "prompt_cache", "cache_type_k", "cache_type_v", "cache_ram_mib", "ctx_checkpoints",
    "checkpoint_min_step", "cache_idle_slots", "cache_reuse", "kv_unified", "metrics", "slots",
    "slot_save_path", "sleep_idle_seconds", "parallel", "ctx_size"]

  const SWITCH_ALIASES: Table := map[
    "--cache-prompt" := Alias("prompt_cache", Switches(true)),
    "--no-cache-prompt" := Alias("prompt_cache", Switches(false)),
    "--cache-idle-slots" := Alias("cache_idle_slots", Switches(true)),
    "--no-cache-idle-slots" := Alias("cache_idle_slots", Switches(false)),
    "--kv-unified" := Alias("kv_unified", Switches(true)), "-kvu" := Alias("kv_unified", Switches(true)),
    "--no-kv-unified" := Alias("kv_unified", Switches(false)), "-no-kvu" := Alias("kv_unified", Switches(false)),
    "--metrics" := Alias("metrics", Switches(true)),
    "--slots" := Alias("slots", Switches(true)), "--no-slots" := Alias("slots", Switches(false))]

  const CACHE_VALUE_ALIASES: Table := map[
    "--cache-type-k" := Alias("cache_type_k", TakesText), "-ctk" := Alias("cache_type_k", TakesText),
    "--cache-type-v" := Alias("cache_type_v", TakesText), "-ctv" := Alias("cache_type_v", TakesText),
    "--cache-ram" := Alias("cache_ram_mib", TakesInteger), "-cram" := Alias("cache_ram_mib", TakesInteger),
    "--ctx-checkpoints" := Alias("ctx_checkpoints", TakesInteger),
    "--swa-checkpoints" := Alias("ctx_checkpoints", TakesInteger),
    "-ctxcp" := Alias("ctx_checkpoints", TakesInteger)]

  const SERVER_VALUE_ALIASES: Table := map[
    "--checkpoint-min-step" := Alias("checkpoint_min_step", TakesInteger),
    "-cms" := Alias("checkpoint_min_step", TakesInteger),
    "--cache-reuse" := Alias("cache_reuse", TakesInteger),
    "--slot-save-path" := Alias("slot_save_path", TakesText),
    "--sleep-idle-seconds" := Alias("sleep_idle_seconds", TakesInteger),
    "--parallel" := Alias("parallel", TakesInteger), "-np" := Alias("parallel", TakesInteger),
    "--ctx-size" := Alias("ctx_size", TakesInteger), "-c" := Alias("ctx_size", TakesInteger)]

  const CACHE_ALIASES: Table := SWITCH_ALIASES + CACHE_VALUE_ALIASES + SERVER_VALUE_ALIASES

  // ---- Reading one token ----

  predicate DoubleDash(token: string) {
    |token| >= 2 && token[0] == '-' && token[1] == '-'
  }

  function BeforeEquals(token: string): string {
    if token == [] || token[0] == '=' then [] else [token[0]] + BeforeEquals(token[1..])
  }

  function AfterEquals(token: string): string {
    if token == [] then [] else if token[0] == '=' then token[1..] else AfterEquals(token[1..])
  }

  /** The alias a token names, and the value it carries when written as --alias=value. */
  function Split(token: string): (string, Option<string>) {
    if DoubleDash(token) && '=' in token then (BeforeEquals(token), Some(AfterEquals(token))) else (token, None)
  }

  lemma {:induction false} SplitInline(alias: string, raw: string)
    requires '=' !in alias
    ensures BeforeEquals(alias + "=" + raw) == alias && AfterEquals(alias + "=" + raw) == raw
  {
    var token := alias + "=" + raw;
    if alias == [] {
      assert token[1..] == raw;
    } else {
      assert token[1..] == alias[1..] + "=" + raw;
      SplitInline(alias[1..], raw);
    }
  }

  lemma {:induction false} SplitRebuilds(token: string)
    requires '=' in token
    ensures BeforeEquals(token) + "=" + AfterEquals(token) == token && '=' !in BeforeEquals(token)
  {
    if token[0] != '=' {
      SplitRebuilds(token[1..]);
      assert token == [token[0]] + token[1..];
      assert BeforeEquals(token) + "=" + AfterEquals(token)
          == [token[0]] + (BeforeEquals(token[1..]) + "=" + AfterEquals(token[1..]));
    } else {
      assert token == "=" + token[1..];
    }
  }

  // ---- The scan ----

  function Read(alias: string, a: Alias, raw: string, parseInt: string -> Option<int>): Result<Setting>
    requires !a.kind.Switches?
  {
    if a.kind.TakesText? then Ok(Setting(a.field, alias, Text(raw)))
    else if parseInt(raw).Some? then Ok(Setting(a.field, alias, Number(parseInt(raw).value)))
    else Err("cache argument requires an integer")
  }

  function Then(first: Result<seq<Setting>>, rest: Result<seq<Setting>>): Result<seq<Setting>> {
    if first.Err? then first else if rest.Err? then rest else Ok(first.value + rest.value)
  }

  function One(r: Result<Setting>): Result<seq<Setting>> {
    if r.Ok? then Ok([r.value]) else Err(r.message)
  }

  /** What the first token gives, and how many tokens it takes. */
  function Head(table: Table, parseInt: string -> Option<int>, argv: seq<string>): (r: (Result<seq<Setting>>, nat))
    requires argv != []
    ensures 1 <= r.1 <= |argv|
  {
    var (alias, inline) := Split(argv[0]);
    if alias !in table then (Ok([]), 1)
    else
      var a := table[alias];
      if a.kind.Switches? then
        if inline.Some? then (Err("boolean cache argument cannot take a value"), 1)
        else (Ok([Setting(a.field, alias, Flag(a.kind.on))]), 1)
      else if inline.Some? then (One(Read(alias, a, inline.value, parseInt)), 1)
      else if |argv| < 2 then (Err("cache argument requires a value"), 1)
      else (One(Read(alias, a, argv[1], parseInt)), 2)
  }

  function Scan(table: Table, parseInt: string -> Option<int>, argv: seq<string>): Result<seq<Setting>> {
    if argv == [] then Ok([])
    else
      var (first, taken) := Head(table, parseInt, argv);
      Then(first, Scan(table, parseInt, argv[taken..]))
  }

  /** The body of the scanner's loop: the setting at `index`, if any, and where to go on. */
  method ReadArgument(table: Table, parseInt: string -> Option<int>, argv: seq<string>, index: nat)
    returns (found: Result<Option<Setting>>, next: nat)
    requires index < |argv|
    ensures var (first, taken) := Head(table, parseInt, argv[index..]);
      && (found.Err? <==> first.Err?)
      && (found.Ok? ==> next == index + taken && first.value == if found.value.Some? then [found.value.value] else [])
    ensures found.Ok? && found.value.Some? ==> exists alias <- table :: table[alias].field == found.value.value.field
  {
    var token := argv[index];
    var (alias, inline) := Split(token);
    next := index + 1;
    if alias !in table {
      return Ok(None), next;
    }
    var a := table[alias];
    var value: Value;
    if a.kind.Switches? {
      if inline.Some? {
        return Err("boolean cache argument cannot take a value"), next;
      }
      value := Flag(a.kind.on);
    } else {
      var raw;
      if inline.None? {
        if index + 1 >= |argv| {
          return Err("cache argument requires a value"), next;
        }
        raw := argv[index + 1];
        next := index + 2;
      } else {
        raw := inline.value;
      }
      var setting := Read(alias, a, raw, parseInt);
      if setting.Err? {
        return Err(setting.message), next;
      }
      value := setting.value.value;
    }
    return Ok(Some(Setting(a.field, alias, value))), next;
  }

  /** The scanner's loop: one index over the tokens, settings grouped by field as they are met. */
  method ArgumentOccurrences(table: Table, fields: seq<string>, parseInt: string -> Option<int>, argv: seq<string>)
    returns (result: Result<map<string, seq<Setting>>>)
    requires forall alias <- table :: table[alias].field in fields
    ensures result.Err? <==> Scan(table, parseInt, argv).Err?
    ensures result.Ok? ==>
      && (forall f :: f in result.value <==> f in fields)
      && forall f <- fields :: result.value[f] == Of(Scan(table, parseInt, argv).value, f)
  {
    hide Head, Of;
    var occurrences: map<string, seq<Setting>> := map f | f in fields :: [];
    var index := 0;
    ghost var seen: seq<Setting> := [];
    NoneSeen(fields);
    ThenNothing(Scan(table, parseInt, argv));
    assert argv[0..] == argv;
    while index < |argv|
      invariant index <= |argv|
      invariant forall f :: f in occurrences <==> f in fields
      invariant forall f <- fields :: occurrences[f] == Of(seen, f)
      invariant Scan(table, parseInt, argv) == Then(Ok(seen), Scan(table, parseInt, argv[index..]))
    {
      var found, next := ReadArgument(table, parseInt, argv, index);
      if found.Err? {
        return Err(found.message);
      }
      assert argv[index..][next - index..] == argv[next..];
      var setting := found.value;
      if setting.None? {
        ThenNothing(Scan(table, parseInt, argv[next..]));
      } else {
        OfAppend(seen, setting.value);
        ThenAppend(seen, setting.value, Scan(table, parseInt, argv[next..]));
        var field := setting.value.field;
        occurrences := occurrences[field := occurrences[field] + [setting.value]];
        seen := seen + [setting.value];
      }
      index := next;
    }
    assert seen + [] == seen;
    return Ok(occurrences);
  }

  lemma NoneSeen(fields: seq<string>)
    ensures forall f <- fields :: Of([], f) == []
  {}

  lemma ThenAppend(seen: seq<Setting>, found: Setting, rest: Result<seq<Setting>>)
    ensures Then(Ok(seen), Then(Ok([found]), rest)) == Then(Ok(seen + [found]), rest)
  {
    if rest.Ok? {
      assert seen + ([found] + rest.value) == seen + [found] + rest.value;
    }
  }

  /** The settings of one field, in order. */
  function Of(settings: seq<Setting>, field: string): seq<Setting> {
    if settings == [] then []
    else
      var n := |settings| - 1;
      Of(settings[..n], field) + if settings[n].field == field then [settings[n]] else []
  }

  lemma OfAppend(settings: seq<Setting>, s: Setting)
    ensures forall f :: Of(settings + [s], f) == if s.field == f then Of(settings, f) + [s] else Of(settings, f)
  {
    assert (settings + [s])[..|settings|] == settings;
  }

  // ---- Rendering ----

  /** What a command line is made of, seen from the cache settings. */
  datatype Piece =
    | Foreign(token: string)
    | Switch(alias: string)
    | Spaced(alias: string, raw: string)
    | Inline(alias: string, raw: string)

  predicate WellFormedTable(table: Table) {
    forall alias <- table :: '=' !in alias
  }

  predicate Wellformed(table: Table, parseInt: string -> Option<int>, p: Piece) {
    match p
    case Foreign(token) => Split(token).0 !in table
    case Switch(alias) => alias in table && table[alias].kind.Switches?
    case Spaced(alias, raw) => Readable(table, parseInt, alias, raw)
    case Inline(alias, raw) => DoubleDash(alias) && Readable(table, parseInt, alias, raw)
  }

  predicate Readable(table: Table, parseInt: string -> Option<int>, alias: string, raw: string) {
    && alias in table && !table[alias].kind.Switches?
    && (table[alias].kind.TakesInteger? ==> parseInt(raw).Some?)
  }

  function RenderPiece(p: Piece): seq<string> {
    match p
    case Foreign(token) => [token]
    case Switch(alias) => [alias]
    case Spaced(alias, raw) => [alias, raw]
    case Inline(alias, raw) => [alias + "=" + raw]
  }

  function Render(pieces: seq<Piece>): seq<string> {
    if pieces == [] then [] else RenderPiece(pieces[0]) + Render(pieces[1..])
  }

  /** The settings a command line was written to make. */
  function Meant(table: Table, parseInt: string -> Option<int>, pieces: seq<Piece>): seq<Setting>
    requires forall p <- pieces :: Wellformed(table, parseInt, p)
  {
    if pieces == [] then [] else MeantBy(table, parseInt, pieces[0]) + Meant(table, parseInt, pieces[1..])
  }

  function MeantBy(table: Table, parseInt: string -> Option<int>, p: Piece): seq<Setting>
    requires Wellformed(table, parseInt, p)
  {
    match p
    case Foreign(_) => []
    case Switch(alias) => [Setting(table[alias].field, alias, Flag(table[alias].kind.on))]
    case _ =>
      [Setting(table[p.alias].field, p.alias,
               if table[p.alias].kind.TakesInteger? then Number(parseInt(p.raw).value) else Text(p.raw))]
  }

  lemma PieceScans(table: Table, parseInt: string -> Option<int>, p: Piece, rest: seq<string>)
    requires WellFormedTable(table) && Wellformed(table, parseInt, p)
    ensures Scan(table, parseInt, RenderPiece(p) + rest)
         == Then(Ok(MeantBy(table, parseInt, p)), Scan(table, parseInt, rest))
  {
    var argv := RenderPiece(p) + rest;
    match p {
      case Foreign(token) =>
        assert argv[1..] == rest;
        ThenNothing(Scan(table, parseInt, rest));
      case Switch(alias) =>
        assert argv[1..] == rest;
      case Spaced(alias, raw) =>
        assert argv[2..] == rest && argv[1] == raw;
      case Inline(alias, raw) =>
        assert argv[1..] == rest;
        SplitInline(alias, raw);
        assert DoubleDash(alias + "=" + raw);
        assert (alias + "=" + raw)[|alias|] == '=';
    }
  }

  lemma ThenNothing(r: Result<seq<Setting>>)
    ensures Then(Ok([]), r) == r
  {
    if r.Ok? {
      assert [] + r.value == r.value;
    }
  }

  /** Main result: whatever aliases and spellings are mixed, and whatever foreign tokens stand
      between them, the scan returns exactly the settings that were rendered, in order. */
  lemma {:induction false} ScanUndoesRender(table: Table, parseInt: string -> Option<int>, pieces: seq<Piece>)
    requires WellFormedTable(table) && forall p <- pieces :: Wellformed(table, parseInt, p)
    ensures Scan(table, parseInt, Render(pieces)) == Ok(Meant(table, parseInt, pieces))
  {
    if pieces != [] {
      PieceScans(table, parseInt, pieces[0], Render(pieces[1..]));
      ScanUndoesRender(table, parseInt, pieces[1..]);
    }
  }

  /** A successful read of the first token came from one well-formed piece. */
  lemma HeadIsAPiece(table: Table, parseInt: string -> Option<int>, argv: seq<string>) returns (first: Piece)
    requires WellFormedTable(table) && argv != [] && Head(table, parseInt, argv).0.Ok?
    ensures var (read, taken) := Head(table, parseInt, argv);
      && Wellformed(table, parseInt, first) && RenderPiece(first) == argv[..taken]
      && MeantBy(table, parseInt, first) == read.value
  {
    var (alias, inline) := Split(argv[0]);
    if alias !in table {
      first := Foreign(argv[0]);
    } else if table[alias].kind.Switches? {
      first := Switch(alias);
    } else if inline.Some? {
      SplitRebuilds(argv[0]);
      InlineAlias(argv[0]);
      first := Inline(alias, inline.value);
    } else {
      first := Spaced(alias, argv[1]);
    }
  }

  /** Main result: conversely, every vector that scans was rendered from well-formed pieces that
      mean exactly what the scan returned. */
  lemma {:induction false} RenderUndoesScan(table: Table, parseInt: string -> Option<int>, argv: seq<string>)
    returns (pieces: seq<Piece>)
    requires WellFormedTable(table) && Scan(table, parseInt, argv).Ok?
    ensures forall p <- pieces :: Wellformed(table, parseInt, p)
    ensures Render(pieces) == argv
    ensures Meant(table, parseInt, pieces) == Scan(table, parseInt, argv).value
    decreases |argv|
  {
    hide Head, Wellformed, RenderPiece, MeantBy;
    if argv == [] {
      return [];
    }
    var first := HeadIsAPiece(table, parseInt, argv);
    var taken := Head(table, parseInt, argv).1;
    var rest := RenderUndoesScan(table, parseInt, argv[taken..]);
    pieces := [first] + rest;
    assert pieces[1..] == rest;
    assert argv == argv[..taken] + argv[taken..];
  }

  lemma InlineAlias(token: string)
    requires DoubleDash(token) && '=' in token
    ensures DoubleDash(BeforeEquals(token))
  {}

  lemma TheCacheTableIsWellFormed()
    ensures WellFormedTable(CACHE_ALIASES)
    ensures forall alias <- CACHE_ALIASES :: CACHE_ALIASES[alias].field in CACHE_FIELDS
  {
    hide SWITCH_ALIASES, CACHE_VALUE_ALIASES, SERVER_VALUE_ALIASES, CACHE_FIELDS;
    SwitchesAreWellFormed();
    CacheValuesAreWellFormed();
    ServerValuesAreWellFormed();
  }

  lemma SwitchesAreWellFormed()
    ensures WellFormedTable(SWITCH_ALIASES)
    ensures forall alias <- SWITCH_ALIASES :: SWITCH_ALIASES[alias].field in CACHE_FIELDS
  {}

  lemma CacheValuesAreWellFormed()
    ensures WellFormedTable(CACHE_VALUE_ALIASES)
    ensures forall alias <- CACHE_VALUE_ALIASES :: CACHE_VALUE_ALIASES[alias].field in CACHE_FIELDS
  {}

  lemma ServerValuesAreWellFormed()
    ensures WellFormedTable(SERVER_VALUE_ALIASES)
    ensures forall alias <- SERVER_VALUE_ALIASES :: SERVER_VALUE_ALIASES[alias].field in CACHE_FIELDS
  {}

  // ---- The launch configuration ----

  datatype Code =
    | DuplicateArgument(field: string)
    | ConflictingArgument(field: string)
    | ImplicitArgument(field: string)
    | NotInHelp(field: string)

  datatype Field = Field(explicit: bool, value: Option<Value>, occurrences: seq<Setting>, supported: bool)

  datatype Launch = Launch(fields: map<string, Field>, allExplicit: bool, codes: set<Code>)

  function DistinctValues(settings: seq<Setting>): set<Value> {
    set s | s in settings :: s.value
  }

  ghost predicate Disagree(settings: seq<Setting>) {
    exists i, j :: 0 <= i < j < |settings| && settings[i].value != settings[j].value
  }

  lemma DistinctMeansDisagree(settings: seq<Setting>)
    ensures |DistinctValues(settings)| > 1 <==> Disagree(settings)
  {
    var values := DistinctValues(settings);
    if Disagree(settings) {
      var i, j :| 0 <= i < j < |settings| && settings[i].value != settings[j].value;
      SubsetSize({settings[i].value, settings[j].value}, values);
    } else if settings != [] {
      assert settings[0] in settings;
      assert values == {settings[0].value} by {
        forall s <- settings ensures s.value == settings[0].value {
          var j :| 0 <= j < |settings| && settings[j] == s;
        }
      }
    } else {
      assert values == {};
    }
  }

  function FieldOf(settings: seq<Setting>, supported: bool): Field {
    Field(|settings| == 1, if |settings| == 1 then Some(settings[0].value) else None, settings, supported)
  }

  ghost predicate CodesExplain(codes: set<Code>, f: string, settings: seq<Setting>, supported: bool) {
    && (DuplicateArgument(f) in codes <==> |settings| > 1)
    && (ConflictingArgument(f) in codes <==> Disagree(settings))
    && (ImplicitArgument(f) in codes <==> settings == [])
    && (NotInHelp(f) in codes <==> !supported)
  }

  method ParseFields(fields: seq<string>, occurrences: map<string, seq<Setting>>, supported: string -> bool)
    returns (launch: Launch)
    requires forall f <- fields :: f in occurrences
    ensures forall f :: f in launch.fields <==> f in fields
    ensures forall f <- fields :: launch.fields[f] == FieldOf(occurrences[f], supported(f))
    ensures launch.codes == AllCodes(fields, occurrences, supported)
    ensures launch.allExplicit <==> forall f <- fields :: |occurrences[f]| == 1
  {
    hide CodesFor, FieldOf;
    var parsed: map<string, Field>, codes: set<Code> := map[], {};
    var allExplicit := true;
    for i := 0 to |fields|
      invariant forall f :: f in parsed <==> f in fields[..i]
      invariant forall f <- fields[..i] :: parsed[f] == FieldOf(occurrences[f], supported(f))
      invariant codes == AllCodes(fields[..i], occurrences, supported)
      invariant allExplicit <==> forall f <- fields[..i] :: |occurrences[f]| == 1
    {
      var f := fields[i];
      assert fields[..i + 1][..i] == fields[..i] && fields[..i + 1] == fields[..i] + [f];
      codes := codes + CodesFor(f, occurrences[f], supported(f));
      parsed := parsed[f := FieldOf(occurrences[f], supported(f))];
      allExplicit := allExplicit && |occurrences[f]| == 1;
    }
    assert fields[..|fields|] == fields;
    launch := Launch(parsed, allExplicit, codes);
  }

  /** Main result: every code says exactly what the command line did to one field. */
  method ParseLaunch(table: Table, fields: seq<string>, parseInt: string -> Option<int>,
                     supported: string -> bool, argv: seq<string>)
    returns (result: Result<Launch>)
    requires forall alias <- table :: table[alias].field in fields
    ensures result.Err? <==> argv == [] || Scan(table, parseInt, argv).Err?
    ensures result.Ok? ==>
      var settings := Scan(table, parseInt, argv).value;
      && (forall f :: f in result.value.fields <==> f in fields)
      && (forall f <- fields :: result.value.fields[f] == FieldOf(Of(settings, f), supported(f)))
      && (forall f <- fields :: CodesExplain(result.value.codes, f, Of(settings, f), supported(f)))
      && (forall c <- result.value.codes :: c.field in fields)
      && (result.value.allExplicit <==> forall f <- fields :: |Of(settings, f)| == 1)
  {
    if argv == [] {
      return Err("server argv must be a non-empty string list");
    }
    var scanned := ArgumentOccurrences(table, fields, parseInt, argv);
    if scanned.Err? {
      return Err(scanned.message);
    }
    hide *;
    var launch := ParseFields(fields, scanned.value, supported);
    forall f <- fields ensures CodesExplain(launch.codes, f, scanned.value[f], supported(f)) {
      CodesExplainField(fields, scanned.value, supported, f);
    }
    forall c <- launch.codes ensures c.field in fields {
      CodeMembership(fields, scanned.value, supported, c);
    }
    return Ok(launch);
  }

  function AllCodes(fields: seq<string>, occurrences: map<string, seq<Setting>>, supported: string -> bool): set<Code>
    requires forall f <- fields :: f in occurrences
  {
    if fields == [] then {}
    else
      var n := |fields| - 1;
      AllCodes(fields[..n], occurrences, supported) + CodesFor(fields[n], occurrences[fields[n]], supported(fields[n]))
  }

  /** A code is reported exactly when its own field calls for it. */
  lemma {:induction false} CodeMembership(fields: seq<string>, occurrences: map<string, seq<Setting>>,
                                          supported: string -> bool, c: Code)
    requires forall f <- fields :: f in occurrences
    ensures c in AllCodes(fields, occurrences, supported)
      <==> (c.field in fields && c in CodesFor(c.field, occurrences[c.field], supported(c.field)))
  {
    hide DistinctValues;
    if fields != [] {
      var n := |fields| - 1;
      CodeMembership(fields[..n], occurrences, supported, c);
      assert fields == fields[..n] + [fields[n]];
    }
  }

  lemma CodesExplainField(fields: seq<string>, occurrences: map<string, seq<Setting>>, supported: string -> bool,
                          f: string)
    requires (forall f <- fields :: f in occurrences) && f in fields
    ensures CodesExplain(AllCodes(fields, occurrences, supported), f, occurrences[f], supported(f))
  {
    hide DistinctValues, Disagree, AllCodes;
    DistinctMeansDisagree(occurrences[f]);
    CodeMembership(fields, occurrences, supported, DuplicateArgument(f));
    CodeMembership(fields, occurrences, supported, ConflictingArgument(f));
    CodeMembership(fields, occurrences, supported, ImplicitArgument(f));
    CodeMembership(fields, occurrences, supported, NotInHelp(f));
  }

  function CodesFor(f: string, settings: seq<Setting>, supported: bool): set<Code> {
    (if |settings| > 1 then {DuplicateArgument(f)} else {})
    + (if |DistinctValues(settings)| > 1 then {ConflictingArgument(f)} else {})
    + (if settings == [] then {ImplicitArgument(f)} else {})
    + (if supported then {} else {NotInHelp(f)})
  }
}
