/** One controller's pass over a result path, undisturbed by others: the loop of the baseline
    runner with its file operations in program order. */
module ControllerRun {
  import opened Common
  import opened Ledger
  import opened Execution
  import opened Lines

  datatype Summary = Summary(ran: nat, skipped: nat, certified: bool)

  /** What panel `i` yields: the record content of its attempt, or a failure before the model ran. */
  datatype Answer = FailsBeforeModel(record: Record) | Answers(record: Record)

  ghost function Recording(m: Manifest, authorization: string, i: nat, y: Answer): Record
    requires i < |m.panels| && i < m.limits.panels
  {
    Build(m, authorization, i, if y.Answers? then y.record else y.record.(status := InfrastructureInvalid))
  }

  ghost function Recordings(m: Manifest, authorization: string, answers: seq<Answer>, from: nat, to: nat): seq<Record>
    requires from <= to <= |answers| == |m.panels| == m.limits.panels
  {
    seq(to - from, k requires 0 <= k < to - from => Recording(m, authorization, from + k, answers[from + k]))
  }

  function Invocations(authorization: string, from: nat, to: nat): seq<Invocation>
    requires from <= to
  {
    seq(to - from, k requires 0 <= k < to - from => Invocation(authorization, from + k))
  }

  /** The first panel from `from` on that does not complete, or the number of panels. */
  ghost function FirstFailure(m: Manifest, authorization: string, answers: seq<Answer>, from: nat): (stop: nat)
    requires from <= |answers| == |m.panels| == m.limits.panels
    ensures from <= stop <= |answers|
    ensures forall k :: from <= k < stop ==> Recording(m, authorization, k, answers[k]).status == Completed
    ensures stop < |answers| ==> Recording(m, authorization, stop, answers[stop]).status != Completed
    decreases |answers| - from
  {
    if from == |answers| || Recording(m, authorization, from, answers[from]).status != Completed then from
    else FirstFailure(m, authorization, answers, from + 1)
  }

  /** JSON can hold whatever the panels give. */
  ghost predicate AnswersLegible(m: Manifest, x: Codec, authorization: string, answers: seq<Answer>)
    requires |answers| == |m.panels| == m.limits.panels
  {
    forall k :: 0 <= k < |answers| ==> Legible(x, Recording(m, authorization, k, answers[k]))
  }

  // ---- What a pass makes of the files ----

  datatype Files = Files(
    claim: File<Claim>, active: File<Marker>, ledger: Option<string>, receipt: File<CompletionReceipt>,
    invoked: seq<Invocation>)
  {
    function Text(): string {
      if ledger.Some? then ledger.value else ""
    }

    /** Claimed under this authorization exactly if there is a ledger. */
    predicate Claimable(authorization: string) {
      if claim.Absent? then ledger.None?
      else claim.Whole? && claim.content.authorization == authorization && ledger.Some?
    }

    /** What the runner demands before its loop. */
    ghost predicate Resumable(m: Manifest, x: Codec, authorization: string) {
      && active.Absent? && Claimable(authorization)
      && Loads(m, x, authorization, Text()) && AllCompleted(Held(x, Text()))
    }

    /** The ledger reads back as one valid completed record per panel. */
    ghost predicate Certifiable(m: Manifest, x: Codec, authorization: string) {
      && ledger.Some? && Loads(m, x, authorization, Text())
      && |Held(x, Text())| == |m.panels| && AllCompleted(Held(x, Text()))
    }
  }

  /** Where a pass ends: the first panel that does not complete, among those not yet recorded. */
  ghost function Stop(m: Manifest, x: Codec, authorization: string, f: Files, answers: seq<Answer>): (stop: nat)
    requires Frozen(m) && |answers| == |m.panels| && f.Resumable(m, x, authorization)
    ensures |Held(x, f.Text())| <= stop <= |answers|
  {
    PrefixFits(m, authorization, Held(x, f.Text()));
    FirstFailure(m, authorization, answers, |Held(x, f.Text())|)
  }

  /** The records a pass appends: one per panel it runs, the one that stops it included. */
  ghost function Appended(m: Manifest, x: Codec, authorization: string, f: Files, answers: seq<Answer>): seq<Record>
    requires Frozen(m) && |answers| == |m.panels| && f.Resumable(m, x, authorization)
  {
    var stop := Stop(m, x, authorization, f, answers);
    Recordings(m, authorization, answers, |Held(x, f.Text())|, if stop < |answers| then stop + 1 else stop)
  }

  /** What was appended can be read back: no line holds a boundary and none continues an open one. */
  ghost predicate Intact(m: Manifest, x: Codec, authorization: string, f: Files, answers: seq<Answer>)
    requires Frozen(m) && |answers| == |m.panels| && f.Resumable(m, x, authorization)
  {
    var appended := Appended(m, x, authorization, f, answers);
    appended == [] || (Closed(f.Text()) && AllOneLine(x, appended))
  }

  ghost function Extended(x: Codec, f: Files, records: seq<Record>): Option<string> {
    if records == [] then f.ledger else Some(f.Text() + Rendered(x, records))
  }

  /** The files after a pass, all but the receipt. */
  ghost function Looped(m: Manifest, x: Codec, authorization: string, me: nat, f: Files, answers: seq<Answer>): Files
    requires Frozen(m) && |answers| == |m.panels| && f.Resumable(m, x, authorization)
  {
    var from, stop := |Held(x, f.Text())|, Stop(m, x, authorization, f, answers);
    Files(
      if f.claim.Absent? then Whole(Claim(authorization, me)) else f.claim,
      Absent,
      Extended(x, f, Appended(m, x, authorization, f, answers)),
      f.receipt,
      f.invoked + Invocations(authorization, from,
                              if stop < |answers| && answers[stop].Answers? then stop + 1 else stop))
  }

  ghost function Certified(m: Manifest, x: Codec, authorization: string, f: Files): Files {
    if f.Certifiable(m, x, authorization) && f.receipt.Absent?
    then f.(receipt := Whole(CompletionReceipt(authorization, m.binds, |m.panels|, f.Text())))
    else f
  }

  /** The whole effect. A path that is not resumable is left alone. */
  ghost function Effect(m: Manifest, x: Codec, authorization: string, me: nat, f: Files, answers: seq<Answer>): Files
    requires Frozen(m) && |answers| == |m.panels|
  {
    if !f.Resumable(m, x, authorization) then f
    else if Stop(m, x, authorization, f, answers) < |answers| then Looped(m, x, authorization, me, f, answers)
    else Certified(m, x, authorization, Looped(m, x, authorization, me, f, answers))
  }

  lemma PrefixFits(m: Manifest, authorization: string, records: seq<Record>)
    requires Frozen(m) && ManifestPrefix(m, authorization, records)
    ensures |records| <= |m.panels|
    ensures forall k :: 0 <= k < |records| ==> records[k].panelId == m.panels[k]
  {
    if |records| > 0 {
      assert records[|records| - 1].panelIndex == |records| - 1;
    }
  }

  /** A panel is skipped exactly if it is already recorded. */
  lemma SkippedExactly(m: Manifest, authorization: string, records: seq<Record>, i: nat)
    requires Frozen(m) && ManifestPrefix(m, authorization, records) && i < |m.panels|
    ensures m.panels[i] in PanelIds(records) <==> i < |records|
  {
    PrefixFits(m, authorization, records);
    if m.panels[i] in PanelIds(records) {
      var r :| r in records && r.panelId == m.panels[i];
      var k :| 0 <= k < |records| && records[k] == r;
      assert m.panels[k] == m.panels[i];
    }
  }

  lemma RecordingsAreValid(m: Manifest, authorization: string, answers: seq<Answer>, records: seq<Record>, to: nat)
    requires Frozen(m) && |records| <= to <= |answers| == |m.panels|
    requires ManifestPrefix(m, authorization, records) && AllCompleted(records)
    requires forall k :: |records| <= k < to ==> Recording(m, authorization, k, answers[k]).status == Completed
    ensures var all := records + Recordings(m, authorization, answers, |records|, to);
      ManifestPrefix(m, authorization, all) && AllCompleted(all)
  {}

  lemma RecordingsSnoc(m: Manifest, authorization: string, answers: seq<Answer>, from: nat, to: nat)
    requires from <= to < |answers| == |m.panels| == m.limits.panels
    ensures Recordings(m, authorization, answers, from, to + 1)
         == Recordings(m, authorization, answers, from, to) + [Recording(m, authorization, to, answers[to])]
  {}

  lemma InvocationsSnoc(authorization: string, from: nat, to: nat)
    requires from <= to
    ensures Invocations(authorization, from, to + 1)
         == Invocations(authorization, from, to) + [Invocation(authorization, to)]
  {}

  /** A pass that completes every panel leaves a certifiable ledger exactly if what it appended is
      intact and there is a ledger at all. */
  lemma CertifiableExactly(m: Manifest, x: Codec, authorization: string, me: nat, f: Files, answers: seq<Answer>)
    requires Frozen(m) && |answers| == |m.panels|
    requires f.Resumable(m, x, authorization) && Stop(m, x, authorization, f, answers) == |answers|
    requires AllLegible(x, Appended(m, x, authorization, f, answers))
    ensures var g := Looped(m, x, authorization, me, f, answers);
      && (g.Certifiable(m, x, authorization) <==> g.ledger.Some? && Intact(m, x, authorization, f, answers))
      && (Loads(m, x, authorization, g.Text()) ==> |Held(x, g.Text())| == |m.panels| && AllCompleted(Held(x, g.Text())))
  {
    var records, appended := Held(x, f.Text()), Appended(m, x, authorization, f, answers);
    PrefixFits(m, authorization, records);
    RecordingsAreValid(m, authorization, answers, records, |answers|);
    hide Legible, AllLegible, Parses, Held, ManifestPrefix, Recordings, AllOneLine;
    AppendsAreReadBack(x, f.Text(), appended);
    assert Looped(m, x, authorization, me, f, answers).Text() == f.Text() + Rendered(x, appended);
    assert |records + appended| == |m.panels| by { AppendedSize(m, x, authorization, f, answers); }
  }

  lemma AppendedSize(m: Manifest, x: Codec, authorization: string, f: Files, answers: seq<Answer>)
    requires Frozen(m) && |answers| == |m.panels| && f.Resumable(m, x, authorization)
    ensures var stop := Stop(m, x, authorization, f, answers);
      |Held(x, f.Text())| + |Appended(m, x, authorization, f, answers)| == if stop < |answers| then stop + 1 else stop
  {}

  lemma AppendedIsLegible(m: Manifest, x: Codec, authorization: string, f: Files, answers: seq<Answer>)
    requires Frozen(m) && |answers| == |m.panels| && AnswersLegible(m, x, authorization, answers)
    requires f.Resumable(m, x, authorization)
    ensures AllLegible(x, Appended(m, x, authorization, f, answers))
  {
    hide Legible, Recording;
  }

  lemma NoFileLoads(m: Manifest, x: Codec, authorization: string)
    ensures Loads(m, x, authorization, "") && Held(x, "") == [] && AllCompleted([])
  {
    NothingHeld(x);
  }

  /** What later passes read of the records a pass appended. */
  lemma EffectIsReadBack(m: Manifest, x: Codec, authorization: string, me: nat, f: Files, answers: seq<Answer>)
    requires Frozen(m) && |answers| == |m.panels| && AnswersLegible(m, x, authorization, answers)
    requires f.Resumable(m, x, authorization)
    ensures var text := Effect(m, x, authorization, me, f, answers).Text();
      && (Parses(x, text) <==> Intact(m, x, authorization, f, answers))
      && (Parses(x, text) ==> Held(x, text) == Held(x, f.Text()) + Appended(m, x, authorization, f, answers))
  {
    AppendedIsLegible(m, x, authorization, f, answers);
    hide Legible, AllLegible, Held, Recordings, AllOneLine, ManifestPrefix, Closed, Tail;
    AppendsAreReadBack(x, f.Text(), Appended(m, x, authorization, f, answers));
    assert Looped(m, x, authorization, me, f, answers).Text()
        == f.Text() + Rendered(x, Appended(m, x, authorization, f, answers));
  }

  lemma LastAppendedStops(m: Manifest, x: Codec, authorization: string, f: Files, answers: seq<Answer>)
    requires Frozen(m) && |answers| == |m.panels| && f.Resumable(m, x, authorization)
    requires Stop(m, x, authorization, f, answers) < |answers|
    ensures !AllCompleted(Held(x, f.Text()) + Appended(m, x, authorization, f, answers))
  {
    hide Held, Recording;
    var appended, stop := Appended(m, x, authorization, f, answers), Stop(m, x, authorization, f, answers);
    assert appended[|appended| - 1] == Recording(m, authorization, stop, answers[stop]);
    assert appended[|appended| - 1] in Held(x, f.Text()) + appended;
  }

  lemma FullMeansFile(m: Manifest, x: Codec, authorization: string, f: Files, answers: seq<Answer>)
    requires Frozen(m) && |answers| == |m.panels| > 0 && f.Resumable(m, x, authorization)
    requires Stop(m, x, authorization, f, answers) == |answers|
    ensures Extended(x, f, Appended(m, x, authorization, f, answers)).Some?
  {
    NothingHeld(x);
    AppendedSize(m, x, authorization, f, answers);
  }

  /** Main result: a resumable path without a receipt is certified exactly if every panel completes,
      no appended line holds a boundary and none continues an open line. Otherwise there is no receipt
      and no authorization can resume the path. */
  lemma CertifiesExactly(m: Manifest, x: Codec, authorization: string, me: nat, f: Files, answers: seq<Answer>)
    requires Frozen(m) && |answers| == |m.panels| > 0 && AnswersLegible(m, x, authorization, answers)
    requires f.Resumable(m, x, authorization) && f.receipt.Absent?
    ensures var after := Effect(m, x, authorization, me, f, answers);
      if Stop(m, x, authorization, f, answers) == |answers| && Intact(m, x, authorization, f, answers) then
        && after.receipt == Whole(CompletionReceipt(authorization, m.binds, |m.panels|, after.Text()))
        && after.Certifiable(m, x, authorization)
      else
        after.receipt.Absent? && forall other :: !after.Resumable(m, x, other)
  {
    EffectIsReadBack(m, x, authorization, me, f, answers);
    if Stop(m, x, authorization, f, answers) < |answers| {
      LastAppendedStops(m, x, authorization, f, answers);
    } else {
      FullMeansFile(m, x, authorization, f, answers);
      AppendedIsLegible(m, x, authorization, f, answers);
      CertifiableExactly(m, x, authorization, me, f, answers);
    }
    hide Legible, Held, Intact, Appended, Stop, AllCompleted, ManifestPrefix, Parses, AnswersLegible;
    assert Effect(m, x, authorization, me, f, answers).claim.Whole?;
  }

  /** The files after a first pass over a manifest of one panel, which gives that record. */
  ghost function AfterOnly(m: Manifest, x: Codec, authorization: string, me: nat, r: Record): Files
    requires Frozen(m) && |m.panels| == 1
  {
    Effect(m, x, authorization, me, Files(Absent, Absent, None, Absent, []), [Answers(r)])
  }

  lemma SinglePanelPass(m: Manifest, x: Codec, authorization: string, me: nat, r: Record)
    requires Frozen(m) && |m.panels| == 1 && Build(m, authorization, 0, r) == r && r.status == Completed
    ensures var f := Files(Absent, Absent, None, Absent, []);
      && f.Resumable(m, x, authorization) && Stop(m, x, authorization, f, [Answers(r)]) == 1
      && Appended(m, x, authorization, f, [Answers(r)]) == [r]
    ensures AfterOnly(m, x, authorization, me, r).ledger == Some(x.render(r) + "\n")
    ensures AfterOnly(m, x, authorization, me, r).invoked == [Invocation(authorization, 0)]
  {
    hide Held, Parses, Build, Loads, Certified;
    NoFileLoads(m, x, authorization);
    var answers, f := [Answers(r)], Files(Absent, Absent, None, Absent, []);
    assert Recording(m, authorization, 0, answers[0]) == r;
    assert FirstFailure(m, authorization, answers, 0) == 1;
    assert Recordings(m, authorization, answers, 0, 1) == [r];
    OneMore(x, [], r);
    assert [] + [r] == [r] && "" + x.render(r) + "\n" == x.render(r) + "\n";
    assert "" + (x.render(r) + "\n") == x.render(r) + "\n";
    CertifiedKeeps(m, x, authorization, Looped(m, x, authorization, me, f, answers));
  }

  lemma CertifiedKeeps(m: Manifest, x: Codec, authorization: string, f: Files)
    ensures var g := Certified(m, x, authorization, f); g == f.(receipt := g.receipt)
  {}

  lemma SinglePanelVerdict(m: Manifest, x: Codec, authorization: string, me: nat, r: Record)
    requires Frozen(m) && |m.panels| == 1 && Build(m, authorization, 0, r) == r && r.status == Completed
    requires Legible(x, r)
    ensures OneLine(x, r) ==> AfterOnly(m, x, authorization, me, r).receipt.Whole?
    ensures !OneLine(x, r) ==>
      && AfterOnly(m, x, authorization, me, r).receipt.Absent?
      && forall other :: !AfterOnly(m, x, authorization, me, r).Resumable(m, x, other)
  {
    var answers, f := [Answers(r)], Files(Absent, Absent, None, Absent, []);
    SinglePanelPass(m, x, authorization, me, r);
    NothingHeld(x);
    assert Recording(m, authorization, 0, answers[0]) == r;
    CertifiesExactly(m, x, authorization, me, f, answers);
    assert Intact(m, x, authorization, f, answers) <==> OneLine(x, r);
  }

  lemma SeparatorStays(x: Codec, r: Record)
    requires Legible(x, r)
    ensures Separated(r.notes) ==> !OneLine(x, r)
  {}

  /** The only panel completes with this valid record and is invoked once. If its line holds no boundary
      the path is certified; if its free text holds a separator there is no receipt, and nobody can
      resume the path. */
  ghost predicate TextDecides(m: Manifest, x: Codec, authorization: string, me: nat, r: Record) {
    && Frozen(m) && |m.panels| == 1 && r.status == Completed && ValidRecord(m, authorization, r)
    && var after := AfterOnly(m, x, authorization, me, r);
    && after.ledger == Some(x.render(r) + "\n") && after.invoked == [Invocation(authorization, 0)]
    && (OneLine(x, r) ==> after.receipt.Whole?)
    && (Separated(r.notes) ==> after.receipt.Absent? && forall other :: !after.Resumable(m, x, other))
  }

  /** An instance: a completed record every check accepts, with any free text. */
  lemma SeparatorStrandsThePath(x: Codec, authorization: string, me: nat, notes: string)
    requires Legible(x, SampleRecord(authorization, notes))
    ensures TextDecides(SAMPLE, x, authorization, me, SampleRecord(authorization, notes))
    ensures SampleRecord(authorization, notes).notes == notes
  {
    hide *;
    var r := SampleRecord(authorization, notes);
    SampleIsValid(authorization, notes);
    SampleBuilds(authorization, notes);
    SinglePanelDecides(SAMPLE, x, authorization, me, r);
  }

  lemma SinglePanelDecides(m: Manifest, x: Codec, authorization: string, me: nat, r: Record)
    requires Frozen(m) && |m.panels| == 1 && Build(m, authorization, 0, r) == r
    requires r.status == Completed && ValidRecord(m, authorization, r) && Legible(x, r)
    ensures TextDecides(m, x, authorization, me, r)
  {
    hide AfterOnly, ValidRecord, Build, Legible;
    SeparatorStays(x, r);
    SinglePanelPass(m, x, authorization, me, r);
    SinglePanelVerdict(m, x, authorization, me, r);
  }

  lemma SampleBuilds(authorization: string, notes: string)
    ensures var r := SampleRecord(authorization, notes); Build(SAMPLE, authorization, 0, r) == r
  {
    SampleIsValid(authorization, notes);
    hide ValidRecord;
    var r := SampleRecord(authorization, notes);
    assert Coordinates(SAMPLE, authorization, 0, r) == r;
  }

  lemma ExtendedSnoc(x: Codec, f: Files, records: seq<Record>, r: Record)
    ensures Extended(x, f, records + [r]) == Some(f.(ledger := Extended(x, f, records)).Text() + x.render(r) + "\n")
  {
    OneMore(x, records, r);
    var before := Rendered(x, records);
    assert f.Text() + (before + x.render(r) + "\n") == f.Text() + before + x.render(r) + "\n";
    if records == [] {
      assert f.Text() + before == f.Text();
    }
  }

  lemma EmptyRanges(m: Manifest, authorization: string, answers: seq<Answer>, from: nat)
    requires from <= |answers| == |m.panels| == m.limits.panels
    ensures Recordings(m, authorization, answers, from, from) == [] && Invocations(authorization, from, from) == []
  {}

  lemma NothingExtends(x: Codec, f: Files)
    ensures Extended(x, f, []) == f.ledger
  {}

  /** What is known of a path that can be begun on. */
  lemma ResumableFacts(m: Manifest, x: Codec, authorization: string, f: Files, answers: seq<Answer>)
    requires Frozen(m) && |answers| == |m.panels| && f.Resumable(m, x, authorization)
    ensures var records := Held(x, f.Text());
      && f.active.Absent? && ManifestPrefix(m, authorization, records) && |records| <= |answers| == m.limits.panels
      && Stop(m, x, authorization, f, answers) == FirstFailure(m, authorization, answers, |records|)
  {
    PrefixFits(m, authorization, Held(x, f.Text()));
  }

  lemma RefusedEffect(m: Manifest, x: Codec, authorization: string, me: nat, f: Files, answers: seq<Answer>)
    requires Frozen(m) && |answers| == |m.panels| && !f.Resumable(m, x, authorization)
    ensures Effect(m, x, authorization, me, f, answers) == f
  {}

  lemma StoppedEffect(m: Manifest, x: Codec, authorization: string, me: nat, f: Files, answers: seq<Answer>)
    requires Frozen(m) && |answers| == |m.panels| && f.Resumable(m, x, authorization)
    requires Stop(m, x, authorization, f, answers) < |answers|
    ensures Effect(m, x, authorization, me, f, answers) == Looped(m, x, authorization, me, f, answers)
    ensures Looped(m, x, authorization, me, f, answers).receipt == f.receipt
  {}

  lemma CompleteEffect(m: Manifest, x: Codec, authorization: string, me: nat, f: Files, answers: seq<Answer>)
    requires Frozen(m) && |answers| == |m.panels| && f.Resumable(m, x, authorization)
    requires Stop(m, x, authorization, f, answers) == |answers|
    ensures var looped := Looped(m, x, authorization, me, f, answers);
      var after := Effect(m, x, authorization, me, f, answers);
      && after == Certified(m, x, authorization, looped)
      && (after.Certifiable(m, x, authorization) <==> looped.Certifiable(m, x, authorization))
      && (!f.receipt.Absent? ==> after.receipt == f.receipt)
  {
    hide Held, Loads, AllCompleted;
    CertifiedKeeps(m, x, authorization, Looped(m, x, authorization, me, f, answers));
  }

  lemma CertifiableFacts(m: Manifest, x: Codec, authorization: string, f: Files)
    ensures f.Certifiable(m, x, authorization) ==>
      && f.ledger.Some? && f.Text() == f.ledger.value && ManifestPrefix(m, authorization, Held(x, f.ledger.value))
      && |Held(x, f.ledger.value)| == |m.panels| && AllCompleted(Held(x, f.ledger.value))
  {
    hide Held, ManifestPrefix, AllCompleted;
  }

  /** Where the loop leaves the files of a path that was begun on. */
  lemma LoopEnds(m: Manifest, x: Codec, authorization: string, me: nat, f: Files, claimed: Files, answers: seq<Answer>,
                 after: Files)
    requires Frozen(m) && |answers| == |m.panels| && f.Resumable(m, x, authorization)
    requires claimed == f.(claim := if f.claim.Absent? then Whole(Claim(authorization, me)) else f.claim)
    requires var from, stop := |Held(x, f.Text())|, Stop(m, x, authorization, f, answers);
      && after.claim == claimed.claim && after.active.Absent? && after.receipt == claimed.receipt
      && after.ledger == Extended(x, claimed,
                                  Recordings(m, authorization, answers, from,
                                             if stop == |answers| then stop else stop + 1))
      && after.invoked == claimed.invoked
           + Invocations(authorization, from, if stop != |answers| && answers[stop].Answers? then stop + 1 else stop)
    ensures after == Looped(m, x, authorization, me, f, answers)
  {
    hide Recordings, Held, Invocations, Rendered;
  }

  class ResultPath {
    var claim: File<Claim>
    var active: File<Marker>
    var ledger: Option<string>
    var receipt: File<CompletionReceipt>
    var invoked: seq<Invocation>

    constructor ()
      ensures Now() == Files(Absent, Absent, None, Absent, [])
    {
      claim, active, ledger, receipt, invoked := Absent, Absent, None, Absent, [];
    }

    function Now(): Files
      reads this
    {
      Files(claim, active, ledger, receipt, invoked)
    }

    method PrepareClaim(authorization: string, me: nat) returns (problem: Option<string>)
      modifies this`claim
      ensures problem.None? <==> old(Now()).Claimable(authorization)
      ensures claim == if problem.None? && old(claim).Absent? then Whole(Claim(authorization, me)) else old(claim)
    {
      if !claim.Absent? {
        if claim.Partial? || claim.content.authorization != authorization {
          return Some("claim does not belong to this authorization");
        }
        if ledger.None? {
          return Some("existing baseline claim has no ledger; adjudication required");
        }
        return None;
      }
      if ledger.Some? {
        return Some("ledger exists without a claim; adjudication required");
      }
      claim := Whole(Claim(authorization, me));
      return None;
    }

    method Load(m: Manifest, x: Codec, authorization: string) returns (result: Result<seq<Record>>)
      requires Frozen(m)
      ensures result.Ok? <==> Loads(m, x, authorization, Now().Text())
      ensures result.Ok? ==> result.value == Held(x, Now().Text())
    {
      if ledger.None? {
        NoFileLoads(m, x, authorization);
        return Ok([]);
      }
      result := LoadLedger(m, x, authorization, ledger.value);
    }

    /** Run one panel: marker, attempt, record, marker cleared. */
    method RunPanel(m: Manifest, x: Codec, authorization: string, me: nat, i: nat, y: Answer) returns (completed: bool)
      requires Frozen(m) && i < |m.panels| && active.Absent?
      modifies this`active, this`ledger, this`invoked
      ensures active.Absent?
      ensures ledger == Some(old(Now()).Text() + x.render(Recording(m, authorization, i, y)) + "\n")
      ensures invoked == old(invoked) + if y.Answers? then [Invocation(authorization, i)] else []
      ensures completed == (Recording(m, authorization, i, y).status == Completed)
      ensures completed ==> y.Answers?
    {
      active := Whole(Marker(authorization, i, me));
      var record := Coordinates(m, authorization, i, y.record);
      if y.Answers? {
        invoked := invoked + [Invocation(authorization, i)];
        if record.status == Completed {
          var errors := ValidateRecord(m, authorization, record);
          if errors != [] {
            record := record.(status := InfrastructureInvalid);
          }
        } else {
          record := record.(status := InfrastructureInvalid);
        }
      } else {
        record := record.(status := InfrastructureInvalid);
      }
      assert record == Recording(m, authorization, i, y);
      ledger := Some(Now().Text() + x.render(record) + "\n");
      active := Absent;
      return record.status == Completed;
    }

    /** Certify a full ledger, read back from its text; an earlier receipt has to agree with it. */
    method Certify(m: Manifest, x: Codec, authorization: string) returns (result: Result<bool>)
      requires Frozen(m)
      modifies this`receipt
      ensures Now() == Certified(m, x, authorization, old(Now()))
      ensures result == Ok(true) <==>
        && old(Now()).Certifiable(m, x, authorization)
        && receipt.Whole? && receipt.content.binds == m.binds
        && receipt.content.recordCount == |m.panels| && receipt.content.digest == Now().Text()
      ensures result == Ok(false) ==>
        Loads(m, x, authorization, Now().Text())
        && (|Held(x, Now().Text())| != |m.panels| || !AllCompleted(Held(x, Now().Text())))
    {
      var loaded := Load(m, x, authorization);
      if loaded.Err? {
        return Err(loaded.message);
      }
      var records := loaded.value;
      if |records| != |m.panels| || !AllCompleted(records) {
        return Ok(false);
      }
      if ledger.None? {
        return Err("no ledger to hash");
      }
      if receipt.Absent? {
        receipt := Whole(CompletionReceipt(authorization, m.binds, |records|, ledger.value));
        return Ok(true);
      }
      if receipt.Whole? && receipt.content.binds == m.binds
        && receipt.content.recordCount == |m.panels| && receipt.content.digest == ledger.value
      {
        return Ok(true);
      }
      return Err("completion receipt mismatch");
    }

    /** The loop over the manifest: recorded panels are skipped, the others run in order up to and
        including the first that does not complete. What it appends is not read back meanwhile. */
    method RunPanels(m: Manifest, x: Codec, authorization: string, me: nat, answers: seq<Answer>,
                     ghost records: seq<Record>, done: set<string>)
      returns (completed: bool, ran: nat, skipped: nat)
      requires Frozen(m) && |answers| == |m.panels| && active.Absent?
      requires ManifestPrefix(m, authorization, records) && done == PanelIds(records)
      modifies this`active, this`ledger, this`invoked
      ensures active.Absent? && |records| <= |answers|
      ensures var stop := FirstFailure(m, authorization, answers, |records|);
        && (completed <==> stop == |answers|)
        && ledger == Extended(x, old(Now()),
                              Recordings(m, authorization, answers, |records|, if completed then stop else stop + 1))
        && invoked == old(invoked)
             + Invocations(authorization, |records|, if !completed && answers[stop].Answers? then stop + 1 else stop)
        && (completed ==> ran == |answers| - |records| && skipped == |records|)
    {
      hide Recording, ManifestPrefix, Extended, Rendered, Recordings, Invocations, PanelIds, FirstFailure;
      ran, skipped := 0, 0;
      ghost var from, f := |records|, Now();
      PrefixFits(m, authorization, records);
      ghost var stop := FirstFailure(m, authorization, answers, from);
      NothingExtends(x, f);
      EmptyRanges(m, authorization, answers, from);
      for i := 0 to |m.panels|
        invariant ran == (if i <= from then 0 else i - from) && skipped == (if i <= from then i else from)
        invariant ledger == Extended(x, f, Recordings(m, authorization, answers, from, if i <= from then from else i))
        invariant invoked == old(invoked) + Invocations(authorization, from, if i <= from then from else i)
        invariant active.Absent? && (i <= from || i <= stop)
      {
        SkippedExactly(m, authorization, records, i);
        if m.panels[i] in done {
          skipped := skipped + 1;
          continue;
        }
        RecordingsSnoc(m, authorization, answers, from, i);
        InvocationsSnoc(authorization, from, i);
        ExtendedSnoc(x, f, Recordings(m, authorization, answers, from, i), Recording(m, authorization, i, answers[i]));
        completed := RunPanel(m, x, authorization, me, i, answers[i]);
        if !completed {
          return false, ran, skipped;
        }
        ran := ran + 1;
      }
      return true, ran, skipped;
    }

    /** Everything before the loop: the marker check, the claim, and the records found. */
    method Begin(m: Manifest, x: Codec, authorization: string, me: nat) returns (result: Result<seq<Record>>)
      requires Frozen(m)
      modifies this`claim
      ensures result.Ok? <==> old(Now()).Resumable(m, x, authorization)
      ensures result.Err? ==> Now() == old(Now())
      ensures result.Ok? ==> result.value == Held(x, Now().Text())
      ensures result.Ok? ==>
        claim == if old(claim).Absent? then Whole(Claim(authorization, me)) else old(claim)
    {
      hide ManifestPrefix, AllCompleted, Held, Parses, Loads;
      if !active.Absent? {
        return Err("active panel marker exists; adjudication required before resume");
      }
      var problem := PrepareClaim(authorization, me);
      if problem.Some? {
        return Err(problem.value);
      }
      var loaded := Load(m, x, authorization);
      NoFileLoads(m, x, authorization);
      if loaded.Err? {
        return Err(loaded.message);
      }
      if !AllCompleted(loaded.value) {
        return Err("existing infrastructure_invalid record requires adjudication");
      }
      return Ok(loaded.value);
    }

    /** The whole pass: its effect on the files, and when it succeeds. It reports a certified path exactly
        if there is afterwards a whole receipt with the bindings of the run, one record per panel and the
        very text of the ledger; a receipt found before is never touched, so one that differs in any of
        these is an error. */
    method RunLocked(m: Manifest, x: Codec, authorization: string, me: nat, answers: seq<Answer>)
      returns (result: Result<Summary>)
      requires Frozen(m) && |answers| == |m.panels|
      modifies this
      ensures Now() == Effect(m, x, authorization, me, old(Now()), answers)
      ensures result.Ok? && result.value.certified <==>
        && old(Now()).Resumable(m, x, authorization)
        && Stop(m, x, authorization, old(Now()), answers) == |answers|
        && Now().Certifiable(m, x, authorization)
        && receipt.Whole? && receipt.content.binds == m.binds
        && receipt.content.recordCount == |m.panels| && receipt.content.digest == Now().Text()
      ensures !old(receipt).Absent? ==> receipt == old(receipt)
      ensures result.Ok? && result.value.certified ==>
        && ledger.Some? && ManifestPrefix(m, authorization, Held(x, ledger.value))
        && |Held(x, ledger.value)| == |m.panels| && AllCompleted(Held(x, ledger.value))
      ensures result.Ok? ==>
        var recorded := |Held(x, old(Now()).Text())|;
        && old(Now()).Resumable(m, x, authorization)
        && result.value.ran == |answers| - recorded && result.value.skipped == recorded
        && (AllLegible(x, Appended(m, x, authorization, old(Now()), answers)) ==> result.value.certified)
    {
      hide Effect, Looped, Certified, Stop, FirstFailure, Recordings, Invocations, Extended, Held, ManifestPrefix;
      hide PanelIds, AllLegible, Appended, Files.Resumable, Files.Certifiable;
      ghost var f := Now();
      var begun := Begin(m, x, authorization, me);
      if begun.Err? {
        RefusedEffect(m, x, authorization, me, f, answers);
        return Err(begun.message);
      }
      var records := begun.value;
      ResumableFacts(m, x, authorization, f, answers);
      ghost var claimed := Now();
      var completed, ran, skipped := RunPanels(m, x, authorization, me, answers, records, PanelIds(records));
      LoopEnds(m, x, authorization, me, f, claimed, answers, Now());
      if !completed {
        StoppedEffect(m, x, authorization, me, f, answers);
        return Err("baseline stopped after an infrastructure error");
      }
      CompleteEffect(m, x, authorization, me, f, answers);
      CertifiableFacts(m, x, authorization, Effect(m, x, authorization, me, f, answers));
      var certified := Certify(m, x, authorization);
      if certified.Err? {
        return Err(certified.message);
      }
      if certified == Ok(false) && AllLegible(x, Appended(m, x, authorization, f, answers)) {
        CertifiableExactly(m, x, authorization, me, f, answers);
      }
      return Ok(Summary(ran, skipped, certified.value));
    }
  }
}
