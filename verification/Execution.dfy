/** Any number of controllers run the authorised baseline on one result path. Every file
    operation is one step; a controller may raise, be interrupted or die between any two. */
module Execution {
  import opened Common
  import opened Ledger
  import opened Lines

  /** A file written through exclusive creation: created first, filled second. */
  datatype File<+T> = Absent | Partial | Whole(content: T)

  datatype Claim = Claim(authorization: string, controller: nat)
  datatype Marker = Marker(authorization: string, panel: nat, controller: nat)
  datatype CompletionReceipt = CompletionReceipt(
    authorization: string, binds: string, recordCount: nat, digest: string)
  datatype Invocation = Invocation(authorization: string, panel: nat)

  datatype Pc =
    | Entering
    | CheckActive | CheckClaim | CheckClaimedLedger | CheckNoLedger | CreateClaim | FillClaim
    | Load
    | Panel(i: nat, done: set<string>)
    | CreateActive(i: nat, done: set<string>) | FillActive(i: nat, done: set<string>)
    | Prepare(i: nat, done: set<string>) | Running(i: nat, done: set<string>)
    | Append(i: nat, done: set<string>, record: Record)
    | ClearActive(i: nat, done: set<string>, completed: bool)
    | Reload | HashLedger(count: nat)
    | CheckReceipt(count: nat, digest: string) | CreateReceipt(count: nat, digest: string)
    | FillReceipt(count: nat, digest: string)
    | Releasing
    | Done | Dead

  datatype Controller = Controller(authorization: string, pc: Pc)

  /** The durable files, the live controllers, and the history of model invocations and of appended
      records. The lock file is empty on disk; who created it is kept for reasoning. The ledger is
      text: controllers know the history only through it. */
  datatype World = World(
    lock: Option<nat>, claim: File<Claim>, active: File<Marker>, ledger: Option<string>,
    receipt: File<CompletionReceipt>, controllers: map<nat, Controller>,
    invoked: seq<Invocation>, recorded: seq<Record>)

  const EMPTY := World(None, Absent, Absent, None, Absent, map[], [], [])

  /** How a step ends: normally, by an ordinary exception, by an interrupt, by process death, or
      with the record content an attempt (or the exception that ended it) gave rise to. */
  datatype Choice = Go | Raise | Interrupt | Kill | Outcome(record: Record)

  datatype Action =
    | Spawn(controller: nat, authorization: string)
    | Step(controller: nat, choice: Choice)
    | ClearStaleLock

  predicate Locked(pc: Pc) {
    !pc.Entering? && !pc.Done? && !pc.Dead?
  }

  function Text(w: World): string {
    if w.ledger.Some? then w.ledger.value else ""
  }

  function At(w: World, c: nat, pc: Pc): World
    requires c in w.controllers
  {
    w.(controllers := w.controllers[c := w.controllers[c].(pc := pc)])
  }

  predicate AllCompleted(records: seq<Record>) {
    forall r <- records :: r.status == Completed
  }

  function PanelIds(records: seq<Record>): set<string> {
    set r | r in records :: r.panelId
  }

  /** The record the controller builds: its own coordinates around whatever the attempt gave. */
  function Coordinates(m: Manifest, authorization: string, i: nat, r: Record): Record
    requires i < |m.panels| && i < m.limits.panels
  {
    r.(authorization := authorization, panelId := m.panels[i], panelIndex := i,
       attemptId := AttemptId(authorization, m.panels[i]), reservation := Reserve(m.limits, i).value)
  }

  /** A completed record is validated before it is written; otherwise it becomes infrastructure-invalid. */
  ghost function Build(m: Manifest, authorization: string, i: nat, r: Record): Record
    requires i < |m.panels| && i < m.limits.panels
  {
    var built := Coordinates(m, authorization, i, r);
    if built.status == Completed && ValidRecord(m, authorization, built) then built
    else built.(status := InfrastructureInvalid)
  }

  /** An attempt gave a record to append; JSON has to be able to hold it. */
  ghost function Attempted(x: Codec, w: World, c: nat, i: nat, done: set<string>, record: Record): World
    requires c in w.controllers
  {
    if Legible(x, record) then At(w, c, Append(i, done, record)) else w
  }

  /** From the marker check to the written claim. */
  predicate Claiming(pc: Pc) {
    || pc.CheckActive? || pc.CheckClaim? || pc.CheckClaimedLedger? || pc.CheckNoLedger?
    || pc.CreateClaim? || pc.FillClaim?
  }

  ghost function ClaimMove(w: World, c: nat): World
    requires c in w.controllers && Claiming(w.controllers[c].pc)
  {
    var auth := w.controllers[c].authorization;
    match w.controllers[c].pc
    case CheckActive => At(w, c, if w.active.Absent? then CheckClaim else Releasing)
    case CheckClaim =>
      At(w, c,
         if w.claim.Absent? then CheckNoLedger
         else if w.claim.Whole? && w.claim.content.authorization == auth then CheckClaimedLedger
         else Releasing)
    case CheckClaimedLedger => At(w, c, if w.ledger.Some? then Load else Releasing)
    case CheckNoLedger => At(w, c, if w.ledger.Some? then Releasing else CreateClaim)
    case CreateClaim =>
      if w.claim.Absent? then At(w.(claim := Partial), c, FillClaim)
      else At(w, c, if w.claim == Whole(Claim(auth, c)) then Load else Releasing)
    case FillClaim => At(w.(claim := Whole(Claim(auth, c))), c, Load)
  }

  ghost function LoopMove(m: Manifest, x: Codec, w: World, c: nat): World
    requires c in w.controllers && (w.controllers[c].pc.Load? || w.controllers[c].pc.Panel?)
  {
    match w.controllers[c].pc
    case Load =>
      var found := Held(x, Text(w));
      if Loads(m, x, w.controllers[c].authorization, Text(w)) && AllCompleted(found)
      then At(w, c, Panel(0, PanelIds(found)))
      else At(w, c, Releasing)
    case Panel(i, done) =>
      if i >= |m.panels| then At(w, c, Reload)
      else if m.panels[i] in done then At(w, c, Panel(i + 1, done))
      else At(w, c, CreateActive(i, done))
  }

  predicate Marking(pc: Pc) {
    pc.CreateActive? || pc.FillActive? || pc.ClearActive?
  }

  function MarkerMove(w: World, c: nat): World
    requires c in w.controllers && Marking(w.controllers[c].pc)
  {
    var auth := w.controllers[c].authorization;
    match w.controllers[c].pc
    case CreateActive(i, done) =>
      if w.active.Absent? then At(w.(active := Partial), c, FillActive(i, done))
      else At(w, c, if w.active == Whole(Marker(auth, i, c)) then Prepare(i, done) else Releasing)
    case FillActive(i, done) => At(w.(active := Whole(Marker(auth, i, c))), c, Prepare(i, done))
    case ClearActive(i, done, completed) =>
      At(w.(active := Absent), c, if completed then Panel(i + 1, done) else Releasing)
  }

  /** What an attempt makes of the record content it is given: nothing completes before the model ran. */
  function Given(pc: Pc, record: Record): Record {
    if pc.Prepare? then record.(status := InfrastructureInvalid) else record
  }

  ghost function AttemptMove(m: Manifest, x: Codec, w: World, c: nat, choice: Choice): World
    requires Frozen(m) && c in w.controllers && (w.controllers[c].pc.Prepare? || w.controllers[c].pc.Running?)
  {
    var auth, pc := w.controllers[c].authorization, w.controllers[c].pc;
    if choice.Outcome? && pc.i < |m.panels| then
      Attempted(x, w, c, pc.i, pc.done, Build(m, auth, pc.i, Given(pc, choice.record)))
    else if choice.Go? && pc.Prepare? then
      At(w.(invoked := w.invoked + [Invocation(auth, pc.i)]), c, Running(pc.i, pc.done))
    else w
  }

  function AppendMove(x: Codec, w: World, c: nat): World
    requires c in w.controllers && w.controllers[c].pc.Append?
  {
    var Append(i, done, record) := w.controllers[c].pc;
    At(w.(ledger := Some(Text(w) + x.render(record) + "\n"), recorded := w.recorded + [record]), c,
       ClearActive(i, done, record.status == Completed))
  }

  predicate Certifying(pc: Pc) {
    pc.Reload? || pc.HashLedger? || pc.CheckReceipt? || pc.CreateReceipt? || pc.FillReceipt?
  }

  ghost function ReceiptMove(m: Manifest, x: Codec, w: World, c: nat): World
    requires c in w.controllers && Certifying(w.controllers[c].pc)
  {
    var auth := w.controllers[c].authorization;
    match w.controllers[c].pc
    case Reload =>
      var found := Held(x, Text(w));
      At(w, c,
         if Loads(m, x, auth, Text(w)) && |found| == |m.panels| && AllCompleted(found) then HashLedger(|found|)
         else Releasing)
    case HashLedger(count) => At(w, c, if w.ledger.Some? then CheckReceipt(count, Text(w)) else Releasing)
    case CheckReceipt(count, digest) =>
      At(w, c, if w.receipt.Absent? then CreateReceipt(count, digest) else Releasing)
    case CreateReceipt(count, digest) =>
      if w.receipt.Absent? then At(w.(receipt := Partial), c, FillReceipt(count, digest)) else At(w, c, Releasing)
    case FillReceipt(count, digest) =>
      At(w.(receipt := Whole(CompletionReceipt(auth, m.binds, count, digest))), c, Releasing)
  }

  /** One step of controller `c`. */
  ghost function StepOf(m: Manifest, x: Codec, w: World, c: nat, choice: Choice): World
    requires Frozen(m) && c in w.controllers
  {
    var pc := w.controllers[c].pc;
    if pc.Done? || pc.Dead? then w
    else if choice.Kill? then At(w, c, Dead)
    else if pc.Entering? then
      if choice.Go? && w.lock.None? then At(w.(lock := Some(c)), c, CheckActive) else At(w, c, Done)
    else if pc.Releasing? then At(w.(lock := None), c, Done)
    else if choice.Interrupt? then At(w, c, Releasing)
    else if pc.Prepare? || pc.Running? then AttemptMove(m, x, w, c, choice)
    else if choice.Raise? then At(w, c, Releasing)
    else if Claiming(pc) then ClaimMove(w, c)
    else if Marking(pc) then MarkerMove(w, c)
    else if Certifying(pc) then ReceiptMove(m, x, w, c)
    else if pc.Append? then AppendMove(x, w, c)
    else LoopMove(m, x, w, c)
  }

  /** One step of the world. An operator may remove the lock of a controller that has died. */
  ghost function Next(m: Manifest, x: Codec, w: World, a: Action): World
    requires Frozen(m)
  {
    match a
    case Spawn(c, authorization) =>
      if c in w.controllers then w
      else w.(controllers := w.controllers[c := Controller(authorization, Entering)])
    case Step(c, choice) => if c in w.controllers then StepOf(m, x, w, c, choice) else w
    case ClearStaleLock =>
      if w.lock.Some? && w.lock.value in w.controllers && w.controllers[w.lock.value].pc.Dead? then w.(lock := None)
      else w
  }

  ghost function Run(m: Manifest, x: Codec, w: World, actions: seq<Action>): World
    requires Frozen(m)
    decreases actions
  {
    if actions == [] then w else Run(m, x, Next(m, x, w, actions[0]), actions[1..])
  }

  // ---- The invariant ----

  /** Manifest-order prefix with one authorization; only the last record may be infrastructure-invalid. */
  ghost predicate LedgerShape(m: Manifest, authorization: string, records: seq<Record>) {
    && |records| <= |m.panels|
    && forall k :: 0 <= k < |records| ==>
         && records[k].panelId == m.panels[k] && records[k].panelIndex == k
         && records[k].authorization == authorization
         && (records[k].status == Completed || records[k].fieldsOk ==> ValidRecord(m, authorization, records[k]))
         && records[k].status != Unknown
         && (k < |records| - 1 ==> records[k].status == Completed)
  }

  ghost predicate Invoked(m: Manifest, w: World) {
    && Unique(w.invoked)
    && (w.invoked != [] ==> w.claim.Whole?)
    && (forall v <- w.invoked ::
          w.claim.Whole? && v.authorization == w.claim.content.authorization && v.panel < |m.panels|)
    && (forall v <- w.invoked ::
          v.panel < |w.recorded| || (w.active.Whole? && w.active.content.panel == v.panel == |w.recorded|))
  }

  ghost predicate Durable(m: Manifest, x: Codec, w: World) {
    && Written(x, w)
    && (w.ledger.Some? ==> w.claim.Whole? && LedgerShape(m, w.claim.content.authorization, w.recorded))
    && Invoked(m, w)
    && (!w.receipt.Absent? ==> w.ledger.Some? && Complete(m, x, w, |m.panels|))
    && (w.receipt.Whole? ==>
          w.receipt.content == CompletionReceipt(w.claim.content.authorization, m.binds, |m.panels|, Text(w)))
  }

  /** The ledger is the text of the records appended to it. */
  ghost predicate Written(x: Codec, w: World) {
    && Text(w) == Rendered(x, w.recorded) && (w.ledger.None? ==> w.recorded == [])
    && AllLegible(x, w.recorded)
  }

  ghost predicate Complete(m: Manifest, x: Codec, w: World, count: nat) {
    count == |w.recorded| == |m.panels| && AllCompleted(w.recorded) && AllOneLine(x, w.recorded)
  }

  ghost predicate Claimed(w: World, authorization: string) {
    w.claim.Whole? && w.claim.content.authorization == authorization
  }

  /** Where the loop stands relative to the ledger. */
  ghost predicate Position(m: Manifest, w: World, i: nat, done: set<string>) {
    && AllCompleted(w.recorded) && i <= |m.panels|
    && (forall p <- done :: exists k :: 0 <= k < |w.recorded| && w.recorded[k].panelId == p)
    && (forall k :: i <= k < |w.recorded| ==> w.recorded[k].panelId in done)
    && i <= |w.recorded|
  }

  ghost predicate Here(m: Manifest, w: World, i: nat, done: set<string>) {
    Position(m, w, i, done) && i == |w.recorded| && i < |m.panels|
  }

  ghost predicate Marked(w: World, authorization: string, i: nat) {
    w.active.Whole? && w.active.content.panel == i && Claimed(w, authorization)
  }

  ghost predicate Certifiable(m: Manifest, x: Codec, w: World, count: nat, digest: string) {
    w.ledger.Some? && Complete(m, x, w, count) && digest == Text(w)
  }

  ghost predicate PcOk(m: Manifest, x: Codec, w: World, authorization: string, pc: Pc) {
    match pc
    case CheckClaim => w.active.Absent?
    case CheckClaimedLedger => w.active.Absent? && Claimed(w, authorization)
    case CheckNoLedger => w.active.Absent? && w.claim.Absent?
    case CreateClaim => w.active.Absent? && w.claim.Absent? && w.ledger.None?
    case FillClaim => w.active.Absent? && w.claim.Partial? && w.ledger.None?
    case Load => w.active.Absent? && Claimed(w, authorization)
    case Panel(i, done) => w.active.Absent? && Claimed(w, authorization) && Position(m, w, i, done)
    case CreateActive(i, done) => w.active.Absent? && Claimed(w, authorization) && Here(m, w, i, done)
    case FillActive(i, done) => w.active.Partial? && Claimed(w, authorization) && Here(m, w, i, done)
    case Prepare(i, done) => Marked(w, authorization, i) && Here(m, w, i, done) && forall v <- w.invoked :: v.panel < i
    case Running(i, done) => Marked(w, authorization, i) && Here(m, w, i, done)
    case Append(i, done, record) =>
      && Marked(w, authorization, i) && Here(m, w, i, done)
      && record.panelId == m.panels[i] && record.panelIndex == i && record.authorization == authorization
      && record.status != Unknown && Legible(x, record)
      && (record.status == Completed || record.fieldsOk ==> ValidRecord(m, authorization, record))
    case ClearActive(i, done, completed) =>
      && Marked(w, authorization, i) && |w.recorded| == i + 1
      && (completed ==> AllCompleted(w.recorded) && Position(m, w, i + 1, done))
    case Reload => w.active.Absent? && Claimed(w, authorization)
    case HashLedger(count) => w.active.Absent? && Claimed(w, authorization) && Complete(m, x, w, count)
    case CheckReceipt(count, digest) =>
      w.active.Absent? && Claimed(w, authorization) && Certifiable(m, x, w, count, digest)
    case CreateReceipt(count, digest) =>
      w.active.Absent? && Claimed(w, authorization) && Certifiable(m, x, w, count, digest)
    case FillReceipt(count, digest) =>
      w.active.Absent? && Claimed(w, authorization) && Certifiable(m, x, w, count, digest)
    case _ => true
  }

  ghost predicate Inv(m: Manifest, x: Codec, w: World) {
    && Durable(m, x, w)
    && (forall c <- w.controllers :: Locked(w.controllers[c].pc) ==>
          w.lock == Some(c) && PcOk(m, x, w, w.controllers[c].authorization, w.controllers[c].pc))
  }

  // ---- Preservation, one group of steps at a time ----

  /** Only the stepping controller can be inside the locked region. */
  lemma MoveKeepsInv(m: Manifest, x: Codec, w: World, next: World, c: nat, pc: Pc)
    requires Frozen(m) && Inv(m, x, w) && c in w.controllers && Locked(w.controllers[c].pc)
    requires next.controllers == w.controllers[c := w.controllers[c].(pc := pc)]
    requires Durable(m, x, next)
    requires Locked(pc) ==> next.lock == w.lock && PcOk(m, x, next, w.controllers[c].authorization, pc)
    ensures Inv(m, x, next)
  {}

  ghost predicate FilesEqual(w: World, next: World) {
    next == w.(lock := next.lock, controllers := next.controllers)
  }

  lemma SameFiles(m: Manifest, x: Codec, w: World, next: World)
    requires FilesEqual(w, next)
    ensures Durable(m, x, w) == Durable(m, x, next)
  {
    hide Rendered, AllLegible, AllOneLine, LedgerShape;
  }

  lemma SamePlace(m: Manifest, x: Codec, w: World, next: World, authorization: string, pc: Pc)
    requires FilesEqual(w, next)
    ensures PcOk(m, x, w, authorization, pc) == PcOk(m, x, next, authorization, pc)
  {
    hide Rendered, AllOneLine, ValidRecord, Legible;
  }

  /** A step that writes no file. */
  lemma OnlyMoves(m: Manifest, x: Codec, w: World, c: nat, pc: Pc)
    requires Frozen(m) && Inv(m, x, w) && c in w.controllers && Locked(w.controllers[c].pc)
    requires Locked(pc) ==> PcOk(m, x, w, w.controllers[c].authorization, pc)
    ensures Inv(m, x, At(w, c, pc))
  {
    hide Durable, PcOk;
    var next := At(w, c, pc);
    SameFiles(m, x, w, next);
    SamePlace(m, x, w, next, w.controllers[c].authorization, pc);
    MoveKeepsInv(m, x, w, next, c, pc);
  }

  /** What is known of the controller past the lock. */
  lemma InsideFacts(m: Manifest, x: Codec, w: World, c: nat)
    requires Inv(m, x, w) && c in w.controllers && Locked(w.controllers[c].pc)
    ensures Durable(m, x, w) && w.lock == Some(c) && PcOk(m, x, w, w.controllers[c].authorization, w.controllers[c].pc)
  {}

  lemma ClaimWritten(m: Manifest, x: Codec, w: World, claim: File<Claim>)
    requires Durable(m, x, w) && !w.claim.Whole?
    ensures Durable(m, x, w.(claim := claim)) && w.ledger.None? && w.receipt.Absent?
  {
    hide Rendered, AllLegible;
  }

  /** Files are as durable whoever stands where. */
  lemma DurableFiles(m: Manifest, x: Codec, w: World, next: World)
    requires Durable(m, x, w) && FilesEqual(w, next)
    ensures Durable(m, x, next)
  {
    hide Durable;
    SameFiles(m, x, w, next);
  }

  lemma ClaimStep(m: Manifest, x: Codec, w: World, c: nat)
    requires Frozen(m) && Inv(m, x, w) && c in w.controllers && Claiming(w.controllers[c].pc)
    ensures Inv(m, x, ClaimMove(w, c))
  {
    hide Inv, Durable;
    InsideFacts(m, x, w, c);
    var auth, pc := w.controllers[c].authorization, w.controllers[c].pc;
    if pc.CreateClaim? {
      ClaimFileStep(m, x, w, c, Partial, FillClaim);
    } else if pc.FillClaim? {
      ClaimFileStep(m, x, w, c, Whole(Claim(auth, c)), Load);
    } else {
      OnlyMoves(m, x, w, c, ClaimMove(w, c).controllers[c].pc);
    }
  }

  lemma ClaimFileStep(m: Manifest, x: Codec, w: World, c: nat, claim: File<Claim>, pc: Pc)
    requires Frozen(m) && Inv(m, x, w) && c in w.controllers && Locked(w.controllers[c].pc)
    requires !w.claim.Whole? && w.active.Absent?
    requires (pc.FillClaim? && claim.Partial?)
      || (pc.Load? && claim == Whole(Claim(w.controllers[c].authorization, c)))
    ensures Inv(m, x, At(w.(claim := claim), c, pc))
  {
    hide Inv, Durable;
    InsideFacts(m, x, w, c);
    ClaimWritten(m, x, w, claim);
    var next := At(w.(claim := claim), c, pc);
    DurableFiles(m, x, w.(claim := claim), next);
    MoveKeepsInv(m, x, w, next, c, pc);
  }

  /** Whoever loads the ledger finds what was appended, or nothing. */
  lemma LoadedIsRecorded(m: Manifest, x: Codec, w: World, authorization: string)
    requires Written(x, w)
    ensures Loads(m, x, authorization, Text(w)) ==> Held(x, Text(w)) == w.recorded && AllOneLine(x, w.recorded)
  {
    WrittenIsReadBack(x, w.recorded);
  }

  lemma LoadStep(m: Manifest, x: Codec, w: World, c: nat)
    requires Frozen(m) && Inv(m, x, w) && c in w.controllers
    requires w.controllers[c].pc.Load? || w.controllers[c].pc.Panel?
    ensures Inv(m, x, LoopMove(m, x, w, c))
  {
    hide Inv, AllOneLine, Parses, Held, Loads, Position, PanelIds, LedgerShape, Invoked, Complete;
    InsideFacts(m, x, w, c);
    var auth, pc := w.controllers[c].authorization, w.controllers[c].pc;
    if pc.Load? {
      LoadedIsRecorded(m, x, w, auth);
      if AllCompleted(w.recorded) {
        LoadedPosition(m, w);
      }
    } else if pc.i < |m.panels| {
      PanelStands(m, x, w, auth, pc.i, pc.done);
    }
    hide Durable, AllCompleted;
    OnlyMoves(m, x, w, c, LoopMove(m, x, w, c).controllers[c].pc);
  }

  lemma PanelStands(m: Manifest, x: Codec, w: World, authorization: string, i: nat, done: set<string>)
    requires Frozen(m) && Durable(m, x, w) && Position(m, w, i, done) && i < |m.panels| && Claimed(w, authorization)
    ensures m.panels[i] in done ==> Position(m, w, i + 1, done)
    ensures m.panels[i] !in done ==> Here(m, w, i, done)
  {
    if w.ledger.Some? {
      PanelPosition(m, w, authorization, i, done);
    }
  }

  lemma LoadedPosition(m: Manifest, w: World)
    requires AllCompleted(w.recorded)
    ensures Position(m, w, 0, PanelIds(w.recorded))
  {
    var records := w.recorded;
    forall p <- PanelIds(records) ensures exists k :: 0 <= k < |records| && records[k].panelId == p {
      var r :| r in records && r.panelId == p;
    }
    assert forall k :: 0 <= k < |records| ==> records[k] in records;
  }

  /** A panel is skipped exactly if the ledger already records it. */
  lemma PanelPosition(m: Manifest, w: World, authorization: string, i: nat, done: set<string>)
    requires Frozen(m) && Position(m, w, i, done) && i < |m.panels| && LedgerShape(m, authorization, w.recorded)
    ensures m.panels[i] in done <==> i < |w.recorded|
    ensures m.panels[i] in done ==> Position(m, w, i + 1, done)
    ensures m.panels[i] !in done ==> Here(m, w, i, done)
  {
    if m.panels[i] in done {
      var k :| 0 <= k < |w.recorded| && w.recorded[k].panelId == m.panels[i];
      assert m.panels[k] == m.panels[i];
    }
  }

  /** The marker may change as soon as every invoked panel is recorded. */
  lemma MarkerWritten(m: Manifest, x: Codec, w: World, active: File<Marker>)
    requires Durable(m, x, w) && forall v <- w.invoked :: v.panel < |w.recorded|
    ensures Durable(m, x, w.(active := active))
  {
    hide Rendered, AllLegible, AllOneLine, LedgerShape, AllCompleted;
  }

  lemma AllRecorded(m: Manifest, x: Codec, w: World)
    requires Durable(m, x, w) && (w.active.Whole? ==> w.active.content.panel < |w.recorded|)
    ensures forall v <- w.invoked :: v.panel < |w.recorded|
  {}

  lemma MarkerStep(m: Manifest, x: Codec, w: World, c: nat)
    requires Frozen(m) && Inv(m, x, w) && c in w.controllers && Marking(w.controllers[c].pc)
    ensures Inv(m, x, MarkerMove(w, c))
  {
    hide Inv, Durable, AllCompleted, Position;
    InsideFacts(m, x, w, c);
    var next := MarkerMove(w, c);
    AllRecorded(m, x, w);
    MarkerWritten(m, x, w, next.active);
    DurableFiles(m, x, w.(active := next.active), next);
    PositionAlike(m, w, next);
    MoveKeepsInv(m, x, w, next, c, next.controllers[c].pc);
  }

  lemma PositionAlike(m: Manifest, w: World, next: World)
    requires next.recorded == w.recorded
    ensures forall i, done :: Position(m, w, i, done) == Position(m, next, i, done)
  {}

  lemma InvokeStep(m: Manifest, x: Codec, w: World, c: nat)
    requires Frozen(m) && Inv(m, x, w) && c in w.controllers && w.controllers[c].pc.Prepare?
    ensures Inv(m, x, AttemptMove(m, x, w, c, Go))
  {
    hide Rendered, AllLegible, AllOneLine, ValidRecord, LedgerShape, AllCompleted;
    var next := AttemptMove(m, x, w, c, Go);
    assert next.recorded == w.recorded;
    MoveKeepsInv(m, x, w, next, c, next.controllers[c].pc);
  }

  lemma BuildFacts(m: Manifest, authorization: string, i: nat, r: Record)
    requires i < |m.panels| == m.limits.panels
    ensures var record := Build(m, authorization, i, r);
      && record.panelId == m.panels[i] && record.panelIndex == i && record.authorization == authorization
      && record.status != Unknown
      && (record.status == Completed || record.fieldsOk ==> ValidRecord(m, authorization, record))
  {
    hide AttemptOk;
  }

  lemma OutcomeStep(m: Manifest, x: Codec, w: World, c: nat, r: Record)
    requires Frozen(m) && Inv(m, x, w) && c in w.controllers
    requires w.controllers[c].pc.Prepare? || w.controllers[c].pc.Running?
    ensures Inv(m, x, AttemptMove(m, x, w, c, Outcome(r)))
  {
    hide Durable, Build, ValidRecord, Legible, Position;
    var auth, pc := w.controllers[c].authorization, w.controllers[c].pc;
    assert PcOk(m, x, w, auth, pc);
    var record := Build(m, auth, pc.i, Given(pc, r));
    if Legible(x, record) {
      BuildFacts(m, auth, pc.i, Given(pc, r));
      var next := At(w, c, Append(pc.i, pc.done, record));
      SameFiles(m, x, w, next);
      SamePlace(m, x, w, next, auth, pc);
      MoveKeepsInv(m, x, w, next, c, next.controllers[c].pc);
    }
  }

  lemma AppendStep(m: Manifest, x: Codec, w: World, c: nat)
    requires Frozen(m) && Inv(m, x, w) && c in w.controllers && w.controllers[c].pc.Append?
    ensures Inv(m, x, AppendMove(x, w, c))
  {
    hide Rendered, Legible, AllLegible, AllOneLine, ValidRecord;
    var next := AppendMove(x, w, c);
    var pc := w.controllers[c].pc;
    OneMore(x, w.recorded, pc.record);
    ShapeExtends(m, w.claim.content.authorization, w, pc.record);
    PositionAdvances(m, w, next, pc.i, pc.done, pc.record);
    hide LedgerShape;
    MoveKeepsInv(m, x, w, next, c, next.controllers[c].pc);
  }

  lemma OneMore(x: Codec, records: seq<Record>, r: Record)
    ensures Rendered(x, records + [r]) == Rendered(x, records) + x.render(r) + "\n"
    ensures AllLegible(x, records) && Legible(x, r) ==> AllLegible(x, records + [r])
  {
    assert (records + [r])[..|records + [r]| - 1] == records;
  }

  lemma ShapeExtends(m: Manifest, authorization: string, w: World, r: Record)
    requires Frozen(m) && (w.ledger.Some? ==> LedgerShape(m, authorization, w.recorded))
    requires w.ledger.None? ==> w.recorded == []
    requires AllCompleted(w.recorded) && |w.recorded| < |m.panels|
    requires r.panelId == m.panels[|w.recorded|] && r.panelIndex == |w.recorded| && r.authorization == authorization
    requires r.status != Unknown && (r.status == Completed || r.fieldsOk ==> ValidRecord(m, authorization, r))
    ensures LedgerShape(m, authorization, w.recorded + [r])
  {
    hide ValidRecord;
  }

  lemma PositionAdvances(m: Manifest, w: World, next: World, i: nat, done: set<string>, r: Record)
    requires Here(m, w, i, done) && next.recorded == w.recorded + [r]
    ensures r.status == Completed ==> AllCompleted(next.recorded) && Position(m, next, i + 1, done)
  {
    assert forall k :: 0 <= k < |w.recorded| ==> next.recorded[k] == w.recorded[k];
  }

  lemma ReceiptWritten(m: Manifest, x: Codec, w: World, receipt: File<CompletionReceipt>)
    requires Durable(m, x, w) && w.ledger.Some? && w.claim.Whole? && Complete(m, x, w, |m.panels|)
    requires receipt.Whole? ==>
      receipt.content == CompletionReceipt(w.claim.content.authorization, m.binds, |m.panels|, Text(w))
    ensures Durable(m, x, w.(receipt := receipt))
  {
    hide Rendered, AllLegible, AllOneLine, LedgerShape, AllCompleted;
    assert Invoked(m, w.(receipt := receipt)) == Invoked(m, w);
  }

  lemma ReceiptStep(m: Manifest, x: Codec, w: World, c: nat)
    requires Frozen(m) && Inv(m, x, w) && c in w.controllers && Certifying(w.controllers[c].pc)
    ensures Inv(m, x, ReceiptMove(m, x, w, c))
  {
    hide Inv, Durable, AllOneLine, Parses, Held, Loads, AllCompleted, Complete;
    InsideFacts(m, x, w, c);
    var next, auth, pc := ReceiptMove(m, x, w, c), w.controllers[c].authorization, w.controllers[c].pc;
    if pc.CreateReceipt? && w.receipt.Absent? {
      ReceiptFileStep(m, x, w, c, Partial, FillReceipt(pc.count, pc.digest));
    } else if pc.FillReceipt? {
      ReceiptFileStep(m, x, w, c, Whole(CompletionReceipt(auth, m.binds, pc.count, pc.digest)), Releasing);
    } else if pc.Reload? {
      ReloadFinds(m, x, w, auth);
      OnlyMoves(m, x, w, c, next.controllers[c].pc);
    } else {
      OnlyMoves(m, x, w, c, next.controllers[c].pc);
    }
  }

  lemma ReloadFinds(m: Manifest, x: Codec, w: World, authorization: string)
    requires Durable(m, x, w)
    ensures var found := Held(x, Text(w));
      Loads(m, x, authorization, Text(w)) && |found| == |m.panels| && AllCompleted(found) ==> Complete(m, x, w, |found|)
  {
    hide AllOneLine, Parses, Held, Loads, AllCompleted;
    LoadedIsRecorded(m, x, w, authorization);
  }

  lemma ReceiptFileStep(m: Manifest, x: Codec, w: World, c: nat, receipt: File<CompletionReceipt>, pc: Pc)
    requires Frozen(m) && Inv(m, x, w) && c in w.controllers
    requires var at, auth := w.controllers[c].pc, w.controllers[c].authorization;
      || (at.CreateReceipt? && receipt.Partial? && pc == FillReceipt(at.count, at.digest))
      || (at.FillReceipt? && pc.Releasing? && receipt == Whole(CompletionReceipt(auth, m.binds, at.count, at.digest)))
    ensures Inv(m, x, At(w.(receipt := receipt), c, pc))
  {
    hide Inv, Durable, AllOneLine, AllCompleted;
    InsideFacts(m, x, w, c);
    ReceiptWritten(m, x, w, receipt);
    var next := At(w.(receipt := receipt), c, pc);
    DurableFiles(m, x, w.(receipt := receipt), next);
    MoveKeepsInv(m, x, w, next, c, pc);
  }

  /** Entering, leaving and dying move no file but the lock. */
  lemma LockStep(m: Manifest, x: Codec, w: World, next: World, c: nat, pc: Pc)
    requires Frozen(m) && Inv(m, x, w) && c in w.controllers
    requires next == At(w.(lock := next.lock), c, pc)
    requires
      || (!Locked(pc) && next.lock == w.lock)
      || (pc.Releasing? && next.lock == w.lock && Locked(w.controllers[c].pc))
      || (pc.Done? && Locked(w.controllers[c].pc))
      || (pc.CheckActive? && w.lock.None? && next.lock == Some(c))
    ensures Inv(m, x, next)
  {
    hide Durable, PcOk;
    SameFiles(m, x, w, next);
    forall d <- next.controllers | Locked(next.controllers[d].pc)
      ensures next.lock == Some(d) && PcOk(m, x, next, next.controllers[d].authorization, next.controllers[d].pc)
    {
      SamePlace(m, x, w, next, next.controllers[d].authorization, next.controllers[d].pc);
      if d == c {
        AlwaysOk(m, x, next, next.controllers[d].authorization, pc);
      }
    }
  }

  lemma AlwaysOk(m: Manifest, x: Codec, w: World, authorization: string, pc: Pc)
    requires pc.CheckActive? || pc.Releasing?
    ensures PcOk(m, x, w, authorization, pc)
  {}

  lemma StepKeepsInv(m: Manifest, x: Codec, w: World, c: nat, choice: Choice)
    requires Frozen(m) && Inv(m, x, w) && c in w.controllers
    ensures Inv(m, x, StepOf(m, x, w, c, choice))
  {
    hide Inv, ClaimMove, LoopMove, MarkerMove, AttemptMove, AppendMove, ReceiptMove;
    var pc := w.controllers[c].pc;
    if pc.Done? || pc.Dead? {
    } else if choice.Kill? {
      LockStep(m, x, w, At(w, c, Dead), c, Dead);
    } else if pc.Entering? {
      if choice.Go? && w.lock.None? {
        LockStep(m, x, w, At(w.(lock := Some(c)), c, CheckActive), c, CheckActive);
      } else {
        LockStep(m, x, w, At(w, c, Done), c, Done);
      }
    } else if pc.Releasing? {
      LockStep(m, x, w, At(w.(lock := None), c, Done), c, Done);
    } else if choice.Interrupt? || (choice.Raise? && !pc.Prepare? && !pc.Running?) {
      LockStep(m, x, w, At(w, c, Releasing), c, Releasing);
    } else if pc.Prepare? || pc.Running? {
      AttemptStep(m, x, w, c, choice);
    } else if Claiming(pc) {
      ClaimStep(m, x, w, c);
    } else if Marking(pc) {
      MarkerStep(m, x, w, c);
    } else if Certifying(pc) {
      ReceiptStep(m, x, w, c);
    } else if pc.Append? {
      AppendStep(m, x, w, c);
    } else {
      LoadStep(m, x, w, c);
    }
  }

  lemma AttemptStep(m: Manifest, x: Codec, w: World, c: nat, choice: Choice)
    requires Frozen(m) && Inv(m, x, w) && c in w.controllers
    requires w.controllers[c].pc.Prepare? || w.controllers[c].pc.Running?
    ensures Inv(m, x, AttemptMove(m, x, w, c, choice))
  {
    hide Inv, Attempted, Build;
    if choice.Outcome? {
      OutcomeStep(m, x, w, c, choice.record);
    } else if choice.Go? && w.controllers[c].pc.Prepare? {
      InvokeStep(m, x, w, c);
    }
  }

  /** New controllers and cleared locks put nobody inside. */
  lemma OutsideStep(m: Manifest, x: Codec, w: World, a: Action)
    requires Frozen(m) && Inv(m, x, w) && !a.Step?
    ensures Inv(m, x, Next(m, x, w, a))
  {
    hide Durable, StepOf;
    var next := Next(m, x, w, a);
    assert Durable(m, x, next) by {
      SameFiles(m, x, w, next);
    }
    forall c <- next.controllers | Locked(next.controllers[c].pc)
      ensures PcOk(m, x, next, next.controllers[c].authorization, next.controllers[c].pc)
    {
      SamePlace(m, x, w, next, next.controllers[c].authorization, next.controllers[c].pc);
    }
  }

  lemma NextKeepsInv(m: Manifest, x: Codec, w: World, a: Action)
    requires Frozen(m) && Inv(m, x, w)
    ensures Inv(m, x, Next(m, x, w, a))
  {
    hide Inv, StepOf;
    if a.Step? {
      if a.controller in w.controllers {
        StepKeepsInv(m, x, w, a.controller, a.choice);
      }
    } else {
      OutsideStep(m, x, w, a);
    }
  }

  lemma {:induction false} RunKeepsInv(m: Manifest, x: Codec, w: World, actions: seq<Action>)
    requires Frozen(m) && Inv(m, x, w)
    ensures Inv(m, x, Run(m, x, w, actions))
    decreases actions
  {
    if actions != [] {
      NextKeepsInv(m, x, w, actions[0]);
      RunKeepsInv(m, x, Next(m, x, w, actions[0]), actions[1..]);
    }
  }

  // ---- Main results, over every run from an empty result path ----

  /** At most one model invocation per panel, whatever crashes and restarts; all under the
      authorization that claimed the path. */
  lemma AtMostOneInvocationPerPanel(m: Manifest, x: Codec, actions: seq<Action>, i: nat, j: nat)
    requires Frozen(m)
    requires i < j < |Run(m, x, EMPTY, actions).invoked|
    ensures var v := Run(m, x, EMPTY, actions).invoked;
      && v[i].panel != v[j].panel && v[i].authorization == v[j].authorization
      && v[i].panel < |m.panels|
  {
    RunKeepsInv(m, x, EMPTY, actions);
    var w := Run(m, x, EMPTY, actions);
    assert w.invoked[i] in w.invoked && w.invoked[j] in w.invoked;
    assert w.invoked[i] != w.invoked[j];
  }

  /** The records appended are always a manifest-order prefix of one authorization, all completed and
      valid but possibly the last, which is infrastructure-invalid; the ledger is their text, and it
      reads back as them exactly if none of its lines holds a boundary. At most one controller is
      past the lock. */
  lemma LedgerIsManifestPrefix(m: Manifest, x: Codec, actions: seq<Action>, c: nat, d: nat)
    requires Frozen(m)
    ensures var w := Run(m, x, EMPTY, actions);
      && (w.ledger.Some? ==> w.claim.Whole? && LedgerShape(m, w.claim.content.authorization, w.recorded))
      && Text(w) == Rendered(x, w.recorded)
      && (Parses(x, Text(w)) <==> AllOneLine(x, w.recorded))
      && (Parses(x, Text(w)) ==> Held(x, Text(w)) == w.recorded)
      && (c in w.controllers && d in w.controllers && c != d ==>
            !Locked(w.controllers[c].pc) || !Locked(w.controllers[d].pc))
  {
    RunKeepsInv(m, x, EMPTY, actions);
    WrittenIsReadBack(x, Run(m, x, EMPTY, actions).recorded);
  }

  /** A completion receipt, even a half-written one, exists only beside a ledger that reads back as
      one valid completed record per panel; a whole one carries the digest of that text. */
  lemma ReceiptOnlyBesideCompleteLedger(m: Manifest, x: Codec, actions: seq<Action>)
    requires Frozen(m)
    ensures var w := Run(m, x, EMPTY, actions);
      !w.receipt.Absent? ==>
        && w.ledger.Some? && w.claim.Whole? && |w.recorded| == |m.panels|
        && Parses(x, w.ledger.value) && Held(x, w.ledger.value) == w.recorded
        && (forall k :: 0 <= k < |m.panels| ==>
              && w.recorded[k].panelId == m.panels[k] && w.recorded[k].status == Completed
              && ValidRecord(m, w.claim.content.authorization, w.recorded[k]))
        && (w.receipt.Whole? ==>
              w.receipt.content.digest == w.ledger.value && w.receipt.content.recordCount == |m.panels|)
  {
    RunKeepsInv(m, x, EMPTY, actions);
    var w := Run(m, x, EMPTY, actions);
    WrittenIsReadBack(x, w.recorded);
    assert forall k :: 0 <= k < |w.recorded| ==> w.recorded[k] in w.recorded;
  }

  /** Not past the first load, or on the way out. */
  predicate Early(pc: Pc) {
    pc.CheckActive? || pc.CheckClaim? || pc.CheckClaimedLedger? || pc.CheckNoLedger? || pc.Load? || pc.Releasing?
  }

  ghost predicate NobodyInside(w: World) {
    forall c <- w.controllers :: Locked(w.controllers[c].pc) ==> Early(w.controllers[c].pc)
  }

  /** A marker that nobody is working under. */
  ghost predicate MarkerLeft(w: World) {
    && !w.active.Absent?
    && forall c <- w.controllers :: var pc := w.controllers[c].pc; Locked(pc) ==> pc.CheckActive? || pc.Releasing?
  }

  /** What no controller gets past: an infrastructure-invalid record, a marker nobody is working under,
      or a line that cannot be read back, once the controller that appended it is gone. */
  ghost predicate Stopped(x: Codec, w: World) {
    !AllCompleted(w.recorded) || MarkerLeft(w) || (!AllOneLine(x, w.recorded) && NobodyInside(w))
  }

  /** Where a locked controller can stand beside such a state. */
  lemma StoppedPlace(m: Manifest, x: Codec, w: World, c: nat)
    requires Inv(m, x, w) && Stopped(x, w) && c in w.controllers && Locked(w.controllers[c].pc)
    ensures var pc := w.controllers[c].pc;
      && (MarkerLeft(w) ==> !w.active.Absent? && (pc.CheckActive? || pc.Releasing?))
      && (Early(pc) || (!AllCompleted(w.recorded) && (pc.Reload? || (pc.ClearActive? && !pc.completed))))
  {
    InsideFacts(m, x, w, c);
    hide Inv, Durable, Position, LedgerShape, Rendered, AllLegible, AllOneLine;
  }

  /** From there a step writes nothing that counts and leads nowhere else. */
  lemma StoppedMove(m: Manifest, x: Codec, w: World, c: nat, choice: Choice)
    requires Frozen(m) && Inv(m, x, w) && Stopped(x, w) && c in w.controllers && Locked(w.controllers[c].pc)
    ensures var next := StepOf(m, x, w, c, choice);
      && c in next.controllers
      && next == At(w.(lock := next.lock, active := next.active), c, next.controllers[c].pc)
      && (Locked(next.controllers[c].pc) ==> Early(next.controllers[c].pc))
      && (MarkerLeft(w) ==>
            && next.active == w.active
            && var pc := next.controllers[c].pc; Locked(pc) ==> pc.CheckActive? || pc.Releasing?)
  {
    hide Inv, Position, AllOneLine, AllCompleted, MarkerLeft, PanelIds, Held, Loads, AttemptMove, AppendMove;
    hide Invoked, LedgerShape, Complete;
    InsideFacts(m, x, w, c);
    StoppedPlace(m, x, w, c);
    LoadedIsRecorded(m, x, w, w.controllers[c].authorization);
    NothingRecorded(m, x, w);
  }

  /** Before there is a claim nothing is recorded. */
  lemma NothingRecorded(m: Manifest, x: Codec, w: World)
    requires Durable(m, x, w)
    ensures !w.claim.Whole? ==> w.recorded == [] && AllCompleted(w.recorded) && AllOneLine(x, w.recorded)
  {}

  lemma StoppedStep(m: Manifest, x: Codec, w: World, a: Action)
    requires Frozen(m) && Inv(m, x, w) && Stopped(x, w)
    ensures var next := Next(m, x, w, a);
      Stopped(x, next) && next.invoked == w.invoked && next.ledger == w.ledger && next.receipt == w.receipt
  {
    hide Inv, AllCompleted, AllOneLine;
    if a.Step? && a.controller in w.controllers && Locked(w.controllers[a.controller].pc) {
      StoppedMove(m, x, w, a.controller, a.choice);
      hide StepOf;
    } else {
      hide ClaimMove, LoopMove, MarkerMove, AttemptMove, AppendMove, ReceiptMove;
    }
  }

  /** Once stopped, no controller ever invokes the model, appends or certifies again. */
  lemma {:induction false} NothingAfterStop(m: Manifest, x: Codec, w: World, actions: seq<Action>)
    requires Frozen(m) && Inv(m, x, w) && Stopped(x, w)
    ensures var last := Run(m, x, w, actions);
      last.invoked == w.invoked && last.ledger == w.ledger && last.receipt == w.receipt
    decreases actions
  {
    if actions != [] {
      StoppedStep(m, x, w, actions[0]);
      NextKeepsInv(m, x, w, actions[0]);
      NothingAfterStop(m, x, Next(m, x, w, actions[0]), actions[1..]);
    }
  }

  lemma {:induction false} RunSplits(m: Manifest, x: Codec, w: World, a: seq<Action>, b: seq<Action>)
    requires Frozen(m)
    ensures Run(m, x, w, a + b) == Run(m, x, Run(m, x, w, a), b)
    decreases a
  {
    if a == [] {
      assert a + b == b;
    } else {
      assert (a + b)[1..] == a[1..] + b;
      RunSplits(m, x, Next(m, x, w, a[0]), a[1..], b);
    }
  }

  /** Over every run: after an infrastructure-invalid record, after a controller was lost between
      writing and clearing its marker, or once a line cannot be read back and the controller that
      appended it is gone, no later action changes anything that counts. */
  lemma NoInvocationAfterInfrastructureFailure(m: Manifest, x: Codec, before: seq<Action>, later: seq<Action>)
    requires Frozen(m) && Stopped(x, Run(m, x, EMPTY, before))
    ensures var w := Run(m, x, EMPTY, before);
      var last := Run(m, x, EMPTY, before + later);
      last.invoked == w.invoked && last.ledger == w.ledger && last.receipt == w.receipt
  {
    RunSplits(m, x, EMPTY, before, later);
    RunKeepsInv(m, x, EMPTY, before);
    NothingAfterStop(m, x, Run(m, x, EMPTY, before), later);
  }

  lemma {:induction false} RecordsStay(m: Manifest, x: Codec, w: World, actions: seq<Action>)
    requires Frozen(m)
    ensures w.recorded <= Run(m, x, w, actions).recorded
    decreases actions
  {
    if actions != [] {
      StepKeepsRecords(m, x, w, actions[0]);
      RecordsStay(m, x, Next(m, x, w, actions[0]), actions[1..]);
    }
  }

  lemma StepKeepsRecords(m: Manifest, x: Codec, w: World, a: Action)
    requires Frozen(m)
    ensures w.recorded <= Next(m, x, w, a).recorded
  {
    hide Build, Loads, Held, AllCompleted;
  }

  /** Over every run: once a recorded line holds a boundary, the ledger never reads back and the path
      is never certified, whatever controllers do later. */
  lemma UnreadableIsNeverCertified(m: Manifest, x: Codec, before: seq<Action>, later: seq<Action>)
    requires Frozen(m)
    requires !AllOneLine(x, Run(m, x, EMPTY, before).recorded)
    ensures var last := Run(m, x, EMPTY, before + later); last.receipt.Absent? && !Parses(x, Text(last))
  {
    RunSplits(m, x, EMPTY, before, later);
    RecordsStay(m, x, Run(m, x, EMPTY, before), later);
    var last := Run(m, x, EMPTY, before + later);
    assert !AllOneLine(x, last.recorded);
    LedgerIsManifestPrefix(m, x, before + later, 0, 0);
    if !last.receipt.Absent? {
      ReceiptOnlyBesideCompleteLedger(m, x, before + later);
    }
  }

  lemma ClaimKept(m: Manifest, x: Codec, w: World, a: Action)
    requires Frozen(m) && Inv(m, x, w) && w.claim.Whole?
    ensures Next(m, x, w, a).claim == w.claim
  {
    if a.Step? && a.controller in w.controllers {
      if Locked(w.controllers[a.controller].pc) {
        InsideFacts(m, x, w, a.controller);
      }
      hide Inv, Durable;
      OthersKeepClaim(m, x, w, a.controller, a.choice);
    }
  }

  lemma OthersKeepClaim(m: Manifest, x: Codec, w: World, c: nat, choice: Choice)
    requires Frozen(m) && c in w.controllers
    requires !w.controllers[c].pc.CreateClaim? && !w.controllers[c].pc.FillClaim?
    ensures StepOf(m, x, w, c, choice).claim == w.claim
  {
    hide Build, Loads, Held, AllCompleted, PanelIds, Legible;
  }

  /** The claim is single-use: once written it is never replaced, under any later actions. */
  lemma {:induction false} ClaimIsFinal(m: Manifest, x: Codec, w: World, actions: seq<Action>)
    requires Frozen(m) && Inv(m, x, w) && w.claim.Whole?
    ensures Run(m, x, w, actions).claim == w.claim
    decreases actions
  {
    if actions != [] {
      ClaimKept(m, x, w, actions[0]);
      NextKeepsInv(m, x, w, actions[0]);
      ClaimIsFinal(m, x, Next(m, x, w, actions[0]), actions[1..]);
    }
  }
}
