/** A controller that nobody disturbs takes, step by step among the interleaved ones, exactly the
    pass of the runner's loop. */
module ControllerSteps {
  import opened Common
  import opened Ledger
  import opened Execution
  import opened ControllerRun

  function FilesOf(w: World): Files {
    Files(w.claim, w.active, w.ledger, w.receipt, w.invoked)
  }

  /** Controller `me` is at `pc`, and the files are these. */
  ghost predicate Standing(w: World, me: nat, authorization: string, pc: Pc, f: Files) {
    me in w.controllers && w.controllers[me] == Controller(authorization, pc) && FilesOf(w) == f
  }

  function Goes(me: nat, n: nat): seq<Action> {
    seq(n, _ => Step(me, Go))
  }

  /** One panel that is run: marker, attempt, record, marker cleared. */
  function PanelSteps(me: nat, y: Answer): seq<Action> {
    Goes(me, if y.Answers? then 4 else 3) + [Step(me, Outcome(y.record))] + Goes(me, 2)
  }

  /** The loop from panel `i` on, with `from` panels recorded before the pass. */
  ghost function LoopSteps(m: Manifest, authorization: string, me: nat, answers: seq<Answer>, from: nat,
                           i: nat): seq<Action>
    requires from <= |answers| == |m.panels| == m.limits.panels && i <= |answers|
    decreases |answers| - i
  {
    if i == |answers| then []
    else if i < from then Goes(me, 1) + LoopSteps(m, authorization, me, answers, from, i + 1)
    else if Recording(m, authorization, i, answers[i]).status != Completed then PanelSteps(me, answers[i])
    else PanelSteps(me, answers[i]) + LoopSteps(m, authorization, me, answers, from, i + 1)
  }

  lemma RunOne(m: Manifest, x: Codec, w: World, a: Action, rest: seq<Action>)
    requires Frozen(m)
    ensures Run(m, x, w, [a] + rest) == Run(m, x, Next(m, x, w, a), rest)
    ensures Run(m, x, w, []) == w && Run(m, x, w, [a]) == Next(m, x, w, a)
  {
    hide Next;
    assert ([a] + rest)[1..] == rest && [a][1..] == [];
  }

  lemma {:induction false} RunGoes(m: Manifest, x: Codec, w: World, me: nat, n: nat)
    requires Frozen(m) && n > 0
    ensures Run(m, x, w, Goes(me, n)) == Run(m, x, Next(m, x, w, Step(me, Go)), Goes(me, n - 1))
    ensures n == 1 ==> Run(m, x, w, Goes(me, n)) == Next(m, x, w, Step(me, Go))
  {
    assert Goes(me, n) == [Step(me, Go)] + Goes(me, n - 1);
    RunOne(m, x, w, Step(me, Go), Goes(me, n - 1));
    RunOne(m, x, Next(m, x, w, Step(me, Go)), Step(me, Go), []);
    assert Goes(me, 0) == [];
  }

  lemma RunNothing(m: Manifest, x: Codec, w: World, me: nat)
    requires Frozen(m)
    ensures Run(m, x, w, Goes(me, 0)) == w
  {
    assert Goes(me, 0) == [];
  }

  /** The controller is leaving or gone, and once gone it has given up the lock. */
  ghost predicate Leaving(w: World, me: nat, authorization: string, f: Files) {
    && (Standing(w, me, authorization, Releasing, f) || Standing(w, me, authorization, Done, f))
    && (w.controllers[me].pc.Done? ==> w.lock.None?)
  }

  lemma {:induction false} GoesLeave(m: Manifest, x: Codec, w: World, me: nat, authorization: string, f: Files, n: nat)
    requires Frozen(m) && Leaving(w, me, authorization, f)
    ensures var last := Run(m, x, w, Goes(me, n));
      Leaving(last, me, authorization, f) && (n > 0 ==> last.controllers[me].pc.Done? && last.lock.None?)
    decreases n
  {
    if n == 0 {
      assert Goes(me, 0) == [];
    } else {
      hide Loads, Held;
      RunGoes(m, x, w, me, n);
      GoesLeave(m, x, Next(m, x, w, Step(me, Go)), me, authorization, f, n - 1);
    }
  }

  /** An undisturbed step is the move of the place the controller stands at. */
  lemma GoIs(m: Manifest, x: Codec, w: World, me: nat)
    requires Frozen(m) && me in w.controllers
    ensures var pc, next := w.controllers[me].pc, Next(m, x, w, Step(me, Go));
      && (Claiming(pc) ==> next == ClaimMove(w, me))
      && (Marking(pc) ==> next == MarkerMove(w, me))
      && (Certifying(pc) ==> next == ReceiptMove(m, x, w, me))
      && (pc.Load? || pc.Panel? ==> next == LoopMove(m, x, w, me))
      && (pc.Append? ==> next == AppendMove(x, w, me))
      && (pc.Releasing? ==> next == At(w.(lock := None), me, Done)) && (pc.Done? ==> next == w)
  {
    hide ClaimMove, MarkerMove, ReceiptMove, LoopMove, AppendMove, AttemptMove;
  }

  /** Lock, marker, claim: the checks before the claim is looked into. */
  lemma EntryChecks(m: Manifest, x: Codec, w: World, me: nat, authorization: string, f: Files)
    requires Frozen(m) && w.lock.None? && me !in w.controllers && FilesOf(w) == f
    ensures var next := Run(m, x, w, [Spawn(me, authorization)] + Goes(me, 3));
      if !f.active.Absent? then Leaving(next, me, authorization, f)
      else
        Standing(next, me, authorization,
                 if f.claim.Absent? then CheckNoLedger
                 else if f.claim.Whole? && f.claim.content.authorization == authorization then CheckClaimedLedger
                 else Releasing, f)
  {
    hide Run, Goes;
    RunOne(m, x, w, Spawn(me, authorization), Goes(me, 3));
    var w0 := Next(m, x, w, Spawn(me, authorization));
    RunGoes(m, x, w0, me, 3);
    EnterMoves(m, x, w, me, authorization, f);
    hide Next, Standing, Leaving;
    CheckMoves(m, x, Next(m, x, w0, Step(me, Go)), me, authorization, f);
  }

  lemma CheckMoves(m: Manifest, x: Codec, w: World, me: nat, authorization: string, f: Files)
    requires Frozen(m) && Standing(w, me, authorization, CheckActive, f)
    ensures var next := Run(m, x, w, Goes(me, 2));
      if !f.active.Absent? then Leaving(next, me, authorization, f)
      else
        Standing(next, me, authorization,
                 if f.claim.Absent? then CheckNoLedger
                 else if f.claim.Whole? && f.claim.content.authorization == authorization then CheckClaimedLedger
                 else Releasing, f)
  {
    hide Run, Goes, Next, StepOf;
    RunGoes(m, x, w, me, 2);
    GoIs(m, x, w, me);
    var w1 := Next(m, x, w, Step(me, Go));
    RunGoes(m, x, w1, me, 1);
    GoIs(m, x, w1, me);
  }

  lemma EnterMoves(m: Manifest, x: Codec, w: World, me: nat, authorization: string, f: Files)
    requires Frozen(m) && w.lock.None? && me !in w.controllers && FilesOf(w) == f
    ensures var spawned := Next(m, x, w, Spawn(me, authorization));
      Standing(Next(m, x, spawned, Step(me, Go)), me, authorization, CheckActive, f)
  {
    hide ClaimMove, MarkerMove, ReceiptMove, LoopMove, AppendMove, AttemptMove;
  }

  /** The claim is taken or found. */
  lemma ClaimSteps(m: Manifest, x: Codec, w: World, me: nat, authorization: string, f: Files)
    requires Frozen(m)
    requires Standing(w, me, authorization, if f.claim.Absent? then CheckNoLedger else CheckClaimedLedger, f)
    requires !f.claim.Absent? ==> f.claim.Whole? && f.claim.content.authorization == authorization
    ensures var next := Run(m, x, w, Goes(me, if f.claim.Absent? then 3 else 1));
      if f.Claimable(authorization) then
        Standing(next, me, authorization, Load,
                 f.(claim := if f.claim.Absent? then Whole(Claim(authorization, me)) else f.claim))
      else Leaving(next, me, authorization, f)
  {
    hide Run, Goes, Next, StepOf;
    RunGoes(m, x, w, me, if f.claim.Absent? then 3 else 1);
    GoIs(m, x, w, me);
    if f.claim.Absent? {
      var w1 := Next(m, x, w, Step(me, Go));
      RunGoes(m, x, w1, me, 2);
      GoIs(m, x, w1, me);
      var w2 := Next(m, x, w1, Step(me, Go));
      RunGoes(m, x, w2, me, 1);
      GoIs(m, x, w2, me);
    }
  }

  lemma LoadMoves(m: Manifest, x: Codec, w: World, me: nat, authorization: string, f: Files)
    requires Frozen(m) && Standing(w, me, authorization, Load, f)
    ensures var found := Held(x, f.Text());
      Standing(
        Next(m, x, w, Step(me, Go)), me, authorization,
        if Loads(m, x, authorization, f.Text()) && AllCompleted(found) then Panel(0, PanelIds(found)) else Releasing, f)
  {
    hide Loads, Held, AllCompleted, PanelIds, Next, StepOf;
    GoIs(m, x, w, me);
    assert Text(w) == f.Text();
  }

  lemma MarkerMoves(m: Manifest, x: Codec, w: World, me: nat, authorization: string, f: Files, i: nat,
                    done: set<string>)
    requires Frozen(m) && Standing(w, me, authorization, Panel(i, done), f)
    requires f.active.Absent? && i < |m.panels| && m.panels[i] !in done
    ensures Standing(Run(m, x, w, Goes(me, 3)), me, authorization, Prepare(i, done),
                     f.(active := Whole(Marker(authorization, i, me))))
  {
    hide Run, Goes, Next, StepOf;
    RunGoes(m, x, w, me, 3);
    GoIs(m, x, w, me);
    var w1 := Next(m, x, w, Step(me, Go));
    assert Standing(w1, me, authorization, CreateActive(i, done), f);
    RunGoes(m, x, w1, me, 2);
    GoIs(m, x, w1, me);
    var w2 := Next(m, x, w1, Step(me, Go));
    assert Standing(w2, me, authorization, FillActive(i, done), f.(active := Partial));
    RunGoes(m, x, w2, me, 1);
    GoIs(m, x, w2, me);
  }

  /** The files once panel `i` is recorded. */
  ghost function PanelFiles(m: Manifest, x: Codec, authorization: string, f: Files, i: nat, y: Answer): Files
    requires i < |m.panels| == m.limits.panels
  {
    f.(ledger := Some(f.Text() + x.render(Recording(m, authorization, i, y)) + "\n"),
       invoked := f.invoked + if y.Answers? then [Invocation(authorization, i)] else [])
  }

  lemma AttemptMoves(m: Manifest, x: Codec, w: World, me: nat, authorization: string, f: Files, i: nat,
                     done: set<string>, y: Answer)
    requires Frozen(m) && i < |m.panels| && Legible(x, Recording(m, authorization, i, y))
    requires Standing(w, me, authorization, Prepare(i, done), f)
    ensures Standing(
      Run(m, x, w, Goes(me, if y.Answers? then 1 else 0) + [Step(me, Outcome(y.record))]), me, authorization,
      Append(i, done, Recording(m, authorization, i, y)),
      f.(invoked := f.invoked + if y.Answers? then [Invocation(authorization, i)] else []))
  {
    hide Loads, Held, AllCompleted, PanelIds, Legible, Build;
    var out := [Step(me, Outcome(y.record))];
    if y.Answers? {
      assert Goes(me, 1) == [Step(me, Go)];
      RunOne(m, x, w, Step(me, Go), out);
      RunOne(m, x, Next(m, x, w, Step(me, Go)), out[0], []);
    } else {
      assert Goes(me, 0) + out == out;
      RunOne(m, x, w, out[0], []);
    }
  }

  lemma RecordMoves(m: Manifest, x: Codec, w: World, me: nat, authorization: string, f: Files, i: nat,
                    done: set<string>, r: Record)
    requires Frozen(m) && Standing(w, me, authorization, Append(i, done, r), f)
    ensures Standing(
      Run(m, x, w, Goes(me, 2)), me, authorization, if r.status == Completed then Panel(i + 1, done) else Releasing,
      f.(active := Absent, ledger := Some(f.Text() + x.render(r) + "\n")))
  {
    hide Run, Goes, Next, StepOf;
    RunGoes(m, x, w, me, 2);
    GoIs(m, x, w, me);
    var w1 := Next(m, x, w, Step(me, Go));
    RunGoes(m, x, w1, me, 1);
    GoIs(m, x, w1, me);
  }

  lemma PanelMoves(m: Manifest, x: Codec, w: World, me: nat, authorization: string, f: Files, i: nat,
                   done: set<string>, y: Answer)
    requires Frozen(m) && i < |m.panels| && Legible(x, Recording(m, authorization, i, y))
    requires Standing(w, me, authorization, Panel(i, done), f) && f.active.Absent? && m.panels[i] !in done
    ensures Standing(
      Run(m, x, w, PanelSteps(me, y)), me, authorization,
      if Recording(m, authorization, i, y).status == Completed then Panel(i + 1, done) else Releasing,
      PanelFiles(m, x, authorization, f, i, y))
  {
    hide Legible, Recording, Run;
    var first, middle := Goes(me, 3), Goes(me, if y.Answers? then 1 else 0) + [Step(me, Outcome(y.record))];
    assert PanelSteps(me, y) == first + (middle + Goes(me, 2)) by { StepsSplit(me, y); }
    MarkerMoves(m, x, w, me, authorization, f, i, done);
    RunSplits(m, x, w, first, middle + Goes(me, 2));
    var w1 := Run(m, x, w, first);
    var f1 := f.(active := Whole(Marker(authorization, i, me)));
    AttemptMoves(m, x, w1, me, authorization, f1, i, done, y);
    RunSplits(m, x, w1, middle, Goes(me, 2));
    var f2 := f1.(invoked := f1.invoked + if y.Answers? then [Invocation(authorization, i)] else []);
    RecordMoves(m, x, Run(m, x, w1, middle), me, authorization, f2, i, done, Recording(m, authorization, i, y));
  }

  lemma StepsSplit(me: nat, y: Answer)
    ensures PanelSteps(me, y)
         == Goes(me, 3) + ((Goes(me, if y.Answers? then 1 else 0) + [Step(me, Outcome(y.record))]) + Goes(me, 2))
  {}

  /** The files once the panels from `from` up to `to` are recorded, the first `asked` of them by a model. */
  ghost function LoopFiles(m: Manifest, x: Codec, authorization: string, answers: seq<Answer>, f: Files,
                           from: nat, to: nat, asked: nat): Files
    requires from <= to <= |answers| == |m.panels| == m.limits.panels && from <= asked
  {
    f.(ledger := Extended(x, f, Recordings(m, authorization, answers, from, to)),
       invoked := f.invoked + Invocations(authorization, from, asked))
  }

  lemma PanelExtends(m: Manifest, x: Codec, authorization: string, answers: seq<Answer>, f: Files, from: nat, i: nat)
    requires from <= i < |answers| == |m.panels| == m.limits.panels
    ensures PanelFiles(m, x, authorization, LoopFiles(m, x, authorization, answers, f, from, i, i), i, answers[i])
         == LoopFiles(m, x, authorization, answers, f, from, i + 1, if answers[i].Answers? then i + 1 else i)
  {
    hide Recording, Extended, Recordings, Invocations;
    RecordingsSnoc(m, authorization, answers, from, i);
    InvocationsSnoc(authorization, from, i);
    ExtendedSnoc(x, f, Recordings(m, authorization, answers, from, i), Recording(m, authorization, i, answers[i]));
    ExtendedText(x, f, Recordings(m, authorization, answers, from, i), f.invoked + Invocations(authorization, from, i));
  }

  lemma ExtendedText(x: Codec, f: Files, records: seq<Record>, invoked: seq<Invocation>)
    ensures f.(ledger := Extended(x, f, records), invoked := invoked).Text()
         == f.(ledger := Extended(x, f, records)).Text()
  {}

  lemma {:induction false} LoopRuns(m: Manifest, x: Codec, w: World, me: nat, authorization: string, f: Files,
                                    answers: seq<Answer>, records: seq<Record>, i: nat)
    requires Frozen(m) && |answers| == |m.panels| && AnswersLegible(m, x, authorization, answers)
    requires ManifestPrefix(m, authorization, records) && |records| <= |answers| && i <= |answers| && f.active.Absent?
    requires i <= |records| || i <= FirstFailure(m, authorization, answers, |records|)
    requires var at := if i <= |records| then |records| else i;
      Standing(w, me, authorization, Panel(i, PanelIds(records)),
               LoopFiles(m, x, authorization, answers, f, |records|, at, at))
    ensures var stop := FirstFailure(m, authorization, answers, |records|);
      Standing(
        Run(m, x, w, LoopSteps(m, authorization, me, answers, |records|, i)), me, authorization,
        if stop == |answers| then Panel(stop, PanelIds(records)) else Releasing,
        LoopFiles(m, x, authorization, answers, f, |records|, if stop < |answers| then stop + 1 else stop,
                  if stop < |answers| && answers[stop].Answers? then stop + 1 else stop))
    decreases |answers| - i
  {
    hide Legible, Recording, Run, FirstFailure, ManifestPrefix, LoopFiles, PanelIds, PanelSteps;
    var from, done := |records|, PanelIds(records);
    if i == |answers| {
      RunOne(m, x, w, Step(me, Go), []);
    } else {
      SkippedExactly(m, authorization, records, i);
      var rest := LoopSteps(m, authorization, me, answers, from, i + 1);
      if i < from {
        SkipMoves(m, x, w, me, authorization, FilesOf(w), i, done);
        RunSplits(m, x, w, Goes(me, 1), rest);
        LoopRuns(m, x, Run(m, x, w, Goes(me, 1)), me, authorization, f, answers, records, i + 1);
      } else {
        FailureIsFirst(m, authorization, answers, from, i);
        LoopFilesActive(m, x, authorization, answers, f, from, i);
        PanelMoves(m, x, w, me, authorization, FilesOf(w), i, done, answers[i]);
        PanelExtends(m, x, authorization, answers, f, from, i);
        if Recording(m, authorization, i, answers[i]).status == Completed {
          RunSplits(m, x, w, PanelSteps(me, answers[i]), rest);
          LoopRuns(m, x, Run(m, x, w, PanelSteps(me, answers[i])), me, authorization, f, answers, records, i + 1);
        }
      }
    }
  }

  lemma LoopFilesActive(m: Manifest, x: Codec, authorization: string, answers: seq<Answer>, f: Files, from: nat, i: nat)
    requires from <= i <= |answers| == |m.panels| == m.limits.panels
    ensures LoopFiles(m, x, authorization, answers, f, from, i, i).active == f.active
  {}

  lemma StandingLeaves(w: World, me: nat, authorization: string, f: Files)
    requires Standing(w, me, authorization, Releasing, f)
    ensures Leaving(w, me, authorization, f)
  {}

  /** Where the loop stands at the first failure, and only there, the record has not completed. */
  lemma FailureIsFirst(m: Manifest, authorization: string, answers: seq<Answer>, from: nat, i: nat)
    requires from <= i < |answers| == |m.panels| == m.limits.panels
    requires i <= FirstFailure(m, authorization, answers, from)
    ensures Recording(m, authorization, i, answers[i]).status == Completed
       <==> i < FirstFailure(m, authorization, answers, from)
    ensures Recording(m, authorization, i, answers[i]).status == Completed ==> answers[i].Answers?
  {
    hide Recording, FirstFailure;
    OnlyAnswersComplete(m, authorization, i, answers[i]);
  }

  lemma OnlyAnswersComplete(m: Manifest, authorization: string, i: nat, y: Answer)
    requires i < |m.panels| && i < m.limits.panels
    ensures Recording(m, authorization, i, y).status == Completed ==> y.Answers?
  {
    hide ValidRecord;
  }

  lemma SkipMoves(m: Manifest, x: Codec, w: World, me: nat, authorization: string, f: Files, i: nat, done: set<string>)
    requires Frozen(m) && Standing(w, me, authorization, Panel(i, done), f) && i < |m.panels| && m.panels[i] in done
    ensures Standing(Run(m, x, w, Goes(me, 1)), me, authorization, Panel(i + 1, done), f)
  {
    hide Run, Goes, Next, StepOf;
    RunGoes(m, x, w, me, 1);
    GoIs(m, x, w, me);
  }

  /** The ledger is read back, hashed and certified. */
  lemma CertifyMoves(m: Manifest, x: Codec, w: World, me: nat, authorization: string, f: Files, i: nat,
                     done: set<string>)
    requires Frozen(m) && Standing(w, me, authorization, Panel(i, done), f) && i == |m.panels|
    ensures Leaving(Run(m, x, w, Goes(me, 6)), me, authorization, Certified(m, x, authorization, f))
  {
    hide Loads, Held, AllCompleted, Run, Goes, Next, StepOf;
    RunGoes(m, x, w, me, 6);
    GoIs(m, x, w, me);
    var w1 := Next(m, x, w, Step(me, Go));
    assert Standing(w1, me, authorization, Reload, f) && Text(w1) == f.Text();
    RunGoes(m, x, w1, me, 5);
    GoIs(m, x, w1, me);
    var w2 := Next(m, x, w1, Step(me, Go));
    var found := Held(x, f.Text());
    if Loads(m, x, authorization, f.Text()) && |found| == |m.panels| && AllCompleted(found) {
      HashMoves(m, x, w2, me, authorization, f);
    } else {
      GoesLeave(m, x, w2, me, authorization, f, 4);
    }
  }

  lemma HashMoves(m: Manifest, x: Codec, w: World, me: nat, authorization: string, f: Files)
    requires Frozen(m) && Standing(w, me, authorization, HashLedger(|m.panels|), f)
    ensures Leaving(
      Run(m, x, w, Goes(me, 4)), me, authorization,
      if f.ledger.Some? && f.receipt.Absent?
      then f.(receipt := Whole(CompletionReceipt(authorization, m.binds, |m.panels|, f.Text())))
      else f)
  {
    hide Run, Leaving, Goes;
    RunGoes(m, x, w, me, 4);
    HashMove(m, x, w, me, authorization, f);
    hide StepOf, Next, Standing;
    var w1 := Next(m, x, w, Step(me, Go));
    if f.ledger.None? {
      StandingLeaves(w1, me, authorization, f);
      GoesLeave(m, x, w1, me, authorization, f, 3);
    } else {
      ReceiptMoves(m, x, w1, me, authorization, |m.panels|, f.Text(), f);
    }
  }

  lemma HashMove(m: Manifest, x: Codec, w: World, me: nat, authorization: string, f: Files)
    requires Frozen(m) && Standing(w, me, authorization, HashLedger(|m.panels|), f)
    ensures Standing(
      Next(m, x, w, Step(me, Go)), me, authorization,
      if f.ledger.Some? then CheckReceipt(|m.panels|, f.Text()) else Releasing, f)
  {
    hide Loads, Held, Next, StepOf;
    GoIs(m, x, w, me);
  }

  lemma ReceiptMoves(m: Manifest, x: Codec, w: World, me: nat, authorization: string, count: nat, digest: string,
                     f: Files)
    requires Frozen(m) && Standing(w, me, authorization, CheckReceipt(count, digest), f)
    ensures Leaving(
      Run(m, x, w, Goes(me, 3)), me, authorization,
      if f.receipt.Absent? then f.(receipt := Whole(CompletionReceipt(authorization, m.binds, count, digest))) else f)
  {
    hide Loads, Held, Run, Goes, Next, StepOf;
    RunGoes(m, x, w, me, 3);
    GoIs(m, x, w, me);
    var w1 := Next(m, x, w, Step(me, Go));
    if !f.receipt.Absent? {
      GoesLeave(m, x, w1, me, authorization, f, 2);
    } else {
      RunGoes(m, x, w1, me, 2);
      GoIs(m, x, w1, me);
      var w2 := Next(m, x, w1, Step(me, Go));
      assert Standing(w2, me, authorization, FillReceipt(count, digest), f.(receipt := Partial));
      RunGoes(m, x, w2, me, 1);
      GoIs(m, x, w2, me);
    }
  }

  // ---- The whole pass ----

  ghost predicate ClaimFits(f: Files, authorization: string) {
    !f.claim.Absent? ==> f.claim.Whole? && f.claim.content.authorization == authorization
  }

  /** From the loop on. */
  ghost function BodySteps(m: Manifest, x: Codec, authorization: string, me: nat, f: Files,
                           answers: seq<Answer>): seq<Action>
    requires Frozen(m) && |answers| == |m.panels| && f.Resumable(m, x, authorization)
  {
    var stop := Stop(m, x, authorization, f, answers);
    LoopSteps(m, authorization, me, answers, |Held(x, f.Text())|, 0) + Goes(me, if stop == |answers| then 6 else 0)
  }

  /** From the load on. */
  ghost function LoadSteps(m: Manifest, x: Codec, authorization: string, me: nat, f: Files,
                           answers: seq<Answer>): seq<Action>
    requires Frozen(m) && |answers| == |m.panels|
  {
    if f.Resumable(m, x, authorization) then Goes(me, 1) + BodySteps(m, x, authorization, me, f, answers)
    else Goes(me, 1)
  }

  /** All steps of a pass over these files with these answers, one file operation each. */
  ghost function PassSteps(m: Manifest, x: Codec, authorization: string, me: nat, f: Files,
                           answers: seq<Answer>): seq<Action>
    requires Frozen(m) && |answers| == |m.panels|
  {
    if !f.active.Absent? || !ClaimFits(f, authorization) then [Spawn(me, authorization)] + Goes(me, 3) + Goes(me, 1)
    else
      [Spawn(me, authorization)] + Goes(me, 3) + Goes(me, if f.claim.Absent? then 3 else 1)
      + LoadSteps(m, x, authorization, me, f, answers) + Goes(me, 1)
  }

  function ClaimedBy(f: Files, authorization: string, me: nat): Files {
    f.(claim := if f.claim.Absent? then Whole(Claim(authorization, me)) else f.claim)
  }

  lemma BodyRuns(m: Manifest, x: Codec, w: World, me: nat, authorization: string, f: Files, answers: seq<Answer>)
    requires Frozen(m) && |answers| == |m.panels| && AnswersLegible(m, x, authorization, answers)
    requires f.Resumable(m, x, authorization)
    requires Standing(w, me, authorization, Panel(0, PanelIds(Held(x, f.Text()))), ClaimedBy(f, authorization, me))
    ensures Leaving(Run(m, x, w, BodySteps(m, x, authorization, me, f, answers)), me, authorization,
                    Effect(m, x, authorization, me, f, answers))
  {
    hide Legible, Run, Recording, FirstFailure, LoopFiles, Held, PanelIds, LoopSteps, ManifestPrefix, AllCompleted,
         Looped, Certified, AnswersLegible, Parses, Standing, Goes;
    var records, g := Held(x, f.Text()), ClaimedBy(f, authorization, me);
    PrefixFits(m, authorization, records);
    var stop := Stop(m, x, authorization, f, answers);
    var loop := LoopSteps(m, authorization, me, answers, |records|, 0);
    StartOfLoop(m, x, authorization, answers, g, |records|);
    LoopIsLooped(m, x, authorization, me, f, answers);
    LoopRuns(m, x, w, me, authorization, g, answers, records, 0);
    var last := Goes(me, if stop == |answers| then 6 else 0);
    RunSplits(m, x, w, loop, last);
    if stop == |answers| {
      CertifyMoves(m, x, Run(m, x, w, loop), me, authorization, Looped(m, x, authorization, me, f, answers), stop,
                   PanelIds(records));
    } else {
      RunNothing(m, x, Run(m, x, w, loop), me);
      StandingLeaves(Run(m, x, w, loop), me, authorization, Looped(m, x, authorization, me, f, answers));
    }
  }

  lemma StartOfLoop(m: Manifest, x: Codec, authorization: string, answers: seq<Answer>, g: Files, from: nat)
    requires from <= |answers| == |m.panels| == m.limits.panels
    ensures LoopFiles(m, x, authorization, answers, g, from, from, from) == g
  {
    assert Recordings(m, authorization, answers, from, from) == [] && Invocations(authorization, from, from) == [];
  }

  lemma LoopIsLooped(m: Manifest, x: Codec, authorization: string, me: nat, f: Files, answers: seq<Answer>)
    requires Frozen(m) && |answers| == |m.panels| && f.Resumable(m, x, authorization)
    ensures var from, stop := |Held(x, f.Text())|, Stop(m, x, authorization, f, answers);
      Looped(m, x, authorization, me, f, answers)
      == LoopFiles(m, x, authorization, answers, ClaimedBy(f, authorization, me), from,
                   if stop < |answers| then stop + 1 else stop,
                   if stop < |answers| && answers[stop].Answers? then stop + 1 else stop)
  {
    hide Recordings, Held, FirstFailure, Rendered;
  }

  lemma LoadRuns(m: Manifest, x: Codec, w: World, me: nat, authorization: string, f: Files, answers: seq<Answer>)
    requires Frozen(m) && |answers| == |m.panels| && AnswersLegible(m, x, authorization, answers)
    requires f.active.Absent? && f.Claimable(authorization)
    requires Standing(w, me, authorization, Load, ClaimedBy(f, authorization, me))
    ensures Leaving(Run(m, x, w, LoadSteps(m, x, authorization, me, f, answers)), me, authorization,
                    Effect(m, x, authorization, me, f, answers))
  {
    var g := ClaimedBy(f, authorization, me);
    LoadMoves(m, x, w, me, authorization, g);
    NoFileLoads(m, x, authorization);
    RunGoes(m, x, w, me, 1);
    var next := Next(m, x, w, Step(me, Go));
    if f.Resumable(m, x, authorization) {
      hide Legible, Run, Held, PanelIds, Looped, Certified, BodySteps, Effect, AnswersLegible;
      RunSplits(m, x, w, Goes(me, 1), BodySteps(m, x, authorization, me, f, answers));
      BodyRuns(m, x, next, me, authorization, f, answers);
    } else {
      assert g == f;
    }
  }

  /** Main result: from files in any state, a controller that takes the free lock and is not disturbed
      leaves them, after these steps, as the runner's loop does, and gives the lock up. */
  lemma UndisturbedPass(m: Manifest, x: Codec, w: World, me: nat, authorization: string, answers: seq<Answer>)
    requires Frozen(m) && |answers| == |m.panels| && AnswersLegible(m, x, authorization, answers)
    requires w.lock.None? && me !in w.controllers
    ensures var last := Run(m, x, w, PassSteps(m, x, authorization, me, FilesOf(w), answers));
      && FilesOf(last) == Effect(m, x, authorization, me, FilesOf(w), answers)
      && last.lock.None? && me in last.controllers && last.controllers[me] == Controller(authorization, Done)
  {
    hide Legible, Run, LoadSteps, Effect, AnswersLegible;
    var f := FilesOf(w);
    var entry, leave := [Spawn(me, authorization)] + Goes(me, 3), Goes(me, 1);
    EntryChecks(m, x, w, me, authorization, f);
    var w1 := Run(m, x, w, entry);
    if !f.active.Absent? || !ClaimFits(f, authorization) {
      NotResumed(m, x, authorization, me, f, answers);
      RunSplits(m, x, w, entry, leave);
      GoesLeave(m, x, w1, me, authorization, f, 1);
    } else {
      var claim, load := Goes(me, if f.claim.Absent? then 3 else 1), LoadSteps(m, x, authorization, me, f, answers);
      ClaimSteps(m, x, w1, me, authorization, f);
      RunSplits(m, x, w, entry, claim);
      RunSplits(m, x, w, entry + claim, load);
      RunSplits(m, x, w, entry + claim + load, leave);
      var w2 := Run(m, x, w1, claim);
      if f.Claimable(authorization) {
        LoadRuns(m, x, w2, me, authorization, f, answers);
      } else {
        NotResumed(m, x, authorization, me, f, answers);
        GoesLeave(m, x, w2, me, authorization, f, 1);
      }
      GoesLeave(m, x, Run(m, x, w2, load), me, authorization, Effect(m, x, authorization, me, f, answers), 1);
    }
  }

  lemma NotResumed(m: Manifest, x: Codec, authorization: string, me: nat, f: Files, answers: seq<Answer>)
    requires Frozen(m) && |answers| == |m.panels|
    requires !f.active.Absent? || !f.Claimable(authorization)
    ensures Effect(m, x, authorization, me, f, answers) == f
    ensures LoadSteps(m, x, authorization, me, f, answers) == Goes(me, 1)
  {}
}
