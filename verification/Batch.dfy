/** A resumable batch: one line of text per recorded job, and every run reads the file back to
    decide which jobs are done. */
module Batch {
  import opened Common
  import opened Lines

  // ---- Reading the file back ----

  datatype Entry = Entry(key: string, completed: bool)

  /** What a line means once stripped, if it is a JSON object; blank lines mean nothing. */
  type Decoder = d: string -> Option<Entry> | forall s :: Whitespace(s) ==> d(s) == None witness _ => None

  /** Nothing that matters is waiting to be continued by the next line. */
  predicate Closed(text: string) {
    Whitespace(Tail(text))
  }

  predicate Records(decode: Decoder, line: string, key: string) {
    decode(line) == Some(Entry(key, true))
  }

  function KeysIn(decode: Decoder, lines: seq<string>): set<string> {
    if lines == [] then {}
    else
      var entry := decode(lines[|lines| - 1]);
      KeysIn(decode, lines[..|lines| - 1]) + if entry.Some? && entry.value.completed then {entry.value.key} else {}
  }

  function DoneKeys(decode: Decoder, text: string): set<string> {
    KeysIn(decode, Pieces([], text))
  }

  method LoadDoneKeys(decode: Decoder, text: string) returns (keys: set<string>)
    ensures keys == DoneKeys(decode, text)
  {
    var lines := Pieces([], text);
    keys := {};
    for i := 0 to |lines|
      invariant keys == KeysIn(decode, lines[..i])
    {
      assert lines[..i + 1][..i] == lines[..i];
      var entry := decode(lines[i]);
      if entry.Some? && entry.value.completed {
        keys := keys + {entry.value.key};
      }
    }
    assert lines[..|lines|] == lines;
  }

  lemma {:induction false} KeysOfSum(decode: Decoder, a: seq<string>, b: seq<string>)
    ensures KeysIn(decode, a + b) == KeysIn(decode, a) + KeysIn(decode, b)
  {
    if b == [] {
      assert a + b == a;
    } else {
      KeysOfSum(decode, a, b[..|b| - 1]);
      assert (a + b)[..|a + b| - 1] == a + b[..|b| - 1];
    }
  }

  lemma {:induction false} KeysAreRecorded(decode: Decoder, lines: seq<string>, key: string)
    ensures key in KeysIn(decode, lines) <==> exists line <- lines :: Records(decode, line, key)
  {
    if lines != [] {
      var n := |lines| - 1;
      KeysAreRecorded(decode, lines[..n], key);
      assert lines == lines[..n] + [lines[n]];
      var entry := decode(lines[n]);
      assert Records(decode, lines[n], key) <==> entry.Some? && entry.value.completed && entry.value.key == key;
    }
  }

  lemma DoneKeysSplit(decode: Decoder, text: string)
    ensures DoneKeys(decode, text) == KeysIn(decode, Finished(text)) + KeysIn(decode, [Tail(text)])
  {
    assert Pieces([], text) == Finished(text) + [Tail(text)];
    KeysOfSum(decode, Finished(text), [Tail(text)]);
  }

  lemma KeysInOne(decode: Decoder, line: string)
    ensures KeysIn(decode, [line])
         == if decode(line).Some? && decode(line).value.completed then {decode(line).value.key} else {}
  {
    assert [line][..0] == [];
  }

  /** A line as the runner writes it, and what it stands for. */
  datatype Outcome = Outcome(line: string, completed: bool)

  /** The line is one JSON object of the job. Text glued before it makes it unreadable, and no
      fragment of it means a completed entry: inside a JSON text the quotes of any embedded object
      are escaped. */
  ghost predicate Faithful(decode: Decoder, key: string, o: Outcome) {
    forall open :: Clean(open) ==>
      if Clean(o.line) then decode(open + o.line) == (if Whitespace(open) then Some(Entry(key, o.completed)) else None)
      else KeysIn(decode, Pieces(open, o.line)) == {}
  }

  lemma OpenLineKeys(decode: Decoder, open: string, key: string, o: Outcome)
    requires Faithful(decode, key, o) && Clean(open)
    ensures KeysIn(decode, Pieces(open, o.line))
         == if o.completed && Clean(o.line) && Whitespace(open) then {key} else {}
  {
    if Clean(o.line) {
      CleanIsOnePiece(open, o.line);
      KeysInOne(decode, open + o.line);
    }
  }

  /** Main result, for every text: after an append the finished lines still count, and the job is
      read back exactly if it completed, its line holds no line boundary and nothing but white space
      stood after the last boundary. Three boundaries, U+0085, U+2028 and U+2029, are left unescaped
      by the writer; a line that stood open is continued and no longer counts. */
  lemma AppendIsReadBack(decode: Decoder, text: string, key: string, o: Outcome)
    requires Faithful(decode, key, o)
    ensures DoneKeys(decode, text + o.line + "\n")
         == KeysIn(decode, Finished(text)) + if o.completed && Clean(o.line) && Closed(text) then {key} else {}
    ensures Closed(text + o.line + "\n")
    ensures Closed(text) ==> DoneKeys(decode, text) == KeysIn(decode, Finished(text))
  {
    hide Pieces, KeysIn, Boundary, Faithful;
    PiecesOfAppend(text, o.line);
    TailIsClean(text);
    OpenLineKeys(decode, Tail(text), key, o);
    var next := text + o.line + "\n";
    DoneKeysSplit(decode, next);
    KeysOfSum(decode, Finished(text), Pieces(Tail(text), o.line));
    KeysInOne(decode, Tail(next));
    DoneKeysSplit(decode, text);
    KeysInOne(decode, Tail(text));
  }

  /** A completed record of a job that was not done is found again exactly under those conditions. */
  lemma ReadBackExactly(decode: Decoder, text: string, key: string, o: Outcome)
    requires Faithful(decode, key, o) && o.completed && key !in DoneKeys(decode, text)
    ensures key in DoneKeys(decode, text + o.line + "\n") <==> Clean(o.line) && Closed(text)
  {
    AppendIsReadBack(decode, text, key, o);
    DoneKeysSplit(decode, text);
  }

  /** An instance: text left open by an interrupted writer swallows the next record. */
  lemma UnterminatedLosesTheRecord(decode: Decoder, key: string, o: Outcome)
    requires Faithful(decode, key, o)
    ensures DoneKeys(decode, "{" + o.line + "\n") == {}
  {
    CleanIsOnePiece([], "{");
    assert [] + "{" == "{" && "{"[0] in "{";
    assert Finished("{") == [] && Tail("{") == "{";
    AppendIsReadBack(decode, "{", key, o);
  }

  /** White space, and nothing else, before the line. */
  predicate AfterWhitespace(s: string, line: string) {
    |line| <= |s| && s[|s| - |line|..] == line && Whitespace(s[..|s| - |line|])
  }

  /** A decoder that knows one line, which begins with a brace. */
  function SoleDecoder(key: string, o: Outcome): Decoder
    requires o.line != [] && o.line[0] == '{'
  {
    BraceShows(o.line);
    s => if AfterWhitespace(s, o.line) then Some(Entry(key, o.completed)) else None
  }

  lemma BraceShows(line: string)
    requires line != [] && line[0] == '{'
    ensures forall s :: AfterWhitespace(s, line) ==> !Whitespace(s)
  {
    forall s | AfterWhitespace(s, line) ensures !Whitespace(s) {
      assert s[|s| - |line|] == s[|s| - |line|..][0] == '{' && s[|s| - |line|] in s;
    }
  }

  lemma {:induction false} NothingIn(decode: Decoder, lines: seq<string>)
    requires forall line <- lines :: decode(line) == None
    ensures KeysIn(decode, lines) == {}
  {
    if lines != [] {
      NothingIn(decode, lines[..|lines| - 1]);
    }
  }

  /** What is assumed of lines and decoders can be had, with and without a boundary in the line. */
  lemma FaithfulCanBeHad(key: string, o: Outcome)
    requires o.line != [] && o.line[0] == '{' && '{' !in o.line[1..]
    ensures Faithful(SoleDecoder(key, o), key, o)
  {
    var decode, line := SoleDecoder(key, o), o.line;
    forall open | Clean(open)
      ensures
        if Clean(line) then decode(open + line) == (if Whitespace(open) then Some(Entry(key, o.completed)) else None)
        else KeysIn(decode, Pieces(open, line)) == {}
    {
      if Clean(line) {
        OnlyAfterWhitespace(open, line);
      } else {
        PiecesAreClean(open, line);
        forall piece <- Pieces(open, line) ensures !AfterWhitespace(piece, line) {
          CleanTail(piece, line);
        }
        NothingIn(decode, Pieces(open, line));
      }
    }
  }

  lemma CleanTail(piece: string, line: string)
    requires Clean(piece) && !Clean(line)
    ensures !AfterWhitespace(piece, line)
  {
    assert AfterWhitespace(piece, line) ==> forall c <- line :: c in piece;
  }

  lemma OnlyAfterWhitespace(open: string, line: string)
    requires line != [] && line[0] == '{' && '{' !in line[1..]
    ensures AfterWhitespace(open + line, line) <==> Whitespace(open)
  {
    assert (open + line)[|open|..] == line && (open + line)[..|open|] == open;
  }

  // ---- One run ----

  datatype Event = Invoked(key: string) | Recorded(key: string, completed: bool)

  datatype Run = Run(done: set<string>, text: string, events: seq<Event>, completed: nat, error: nat, skipped: nat)

  function StartRun(decode: Decoder, text: string, events: seq<Event>, resume: bool): Run {
    Run(if resume then DoneKeys(decode, text) else {}, text, events, 0, 0, 0)
  }

  function Invoke(r: Run, key: string): Run {
    r.(events := r.events + [Invoked(key)])
  }

  function Record(r: Run, key: string, o: Outcome): Run {
    r.(done := r.done + {key}, text := r.text + o.line + "\n", events := r.events + [Recorded(key, o.completed)],
       completed := r.completed + if o.completed then 1 else 0, error := r.error + if o.completed then 0 else 1)
  }

  function Job(r: Run, key: string, o: Outcome): Run {
    if key in r.done then r.(skipped := r.skipped + 1) else Record(Invoke(r, key), key, o)
  }

  /** The first n jobs; `outcome` says what the runner would give at each position. */
  function Jobs(r: Run, jobs: seq<string>, outcome: nat -> Outcome, n: nat): Run
    requires n <= |jobs|
  {
    if n == 0 then r else Job(Jobs(r, jobs, outcome, n - 1), jobs[n - 1], outcome(n - 1))
  }

  // ---- One run, by position ----

  /** Job i is skipped: a resumed run finds it completed, or an earlier position holds the same key. */
  ghost predicate Skips(decode: Decoder, text: string, resume: bool, jobs: seq<string>, i: nat)
    requires i < |jobs|
  {
    (resume && exists line <- Pieces([], text) :: decode(line) == Some(Entry(jobs[i], true))) || jobs[i] in jobs[..i]
  }

  function Appended(text: string, outcome: nat -> Outcome, at: seq<nat>): string {
    if at == [] then text else Appended(text, outcome, at[..|at| - 1]) + outcome(at[|at| - 1]).line + "\n"
  }

  ghost function Completed(outcome: nat -> Outcome, at: seq<nat>): set<nat> {
    set r: nat | r < |at| && outcome(at[r]).completed
  }

  /** The jobs at these positions ran, in this order, and no others. */
  ghost predicate Ran(run: Run, text: string, events: seq<Event>, jobs: seq<string>, outcome: nat -> Outcome,
                      at: seq<nat>)
  {
    && run.text == Appended(text, outcome, at)
    && |run.events| == |events| + 2 * |at| && events <= run.events
    && (forall r :: 0 <= r < |at| ==>
          && at[r] < |jobs|
          && run.events[|events| + 2 * r] == Invoked(jobs[at[r]])
          && run.events[|events| + 2 * r + 1] == Recorded(jobs[at[r]], outcome(at[r]).completed))
    && run.completed == |Completed(outcome, at)|
    && run.error == |at| - run.completed
  }

  ghost predicate Positions(decode: Decoder, text: string, resume: bool, jobs: seq<string>, n: nat, at: seq<nat>)
    requires n <= |jobs|
  {
    && (forall r, s :: 0 <= r < s < |at| ==> at[r] < at[s])
    && (forall i: nat :: i in at <==> i < n && !Skips(decode, text, resume, jobs, i))
  }

  /** A key is done exactly if the file held it at the start or an earlier job has it. */
  lemma {:induction false} DoneByPosition(decode: Decoder, text: string, events: seq<Event>, resume: bool,
                                          jobs: seq<string>, outcome: nat -> Outcome, n: nat)
    requires n < |jobs|
    ensures jobs[n] in Jobs(StartRun(decode, text, events, resume), jobs, outcome, n).done
      <==> Skips(decode, text, resume, jobs, n)
  {
    KeysAreRecorded(decode, Pieces([], text), jobs[n]);
    DoneGrows(StartRun(decode, text, events, resume), jobs, outcome, n);
    assert forall line <- Pieces([], text) ::
      Records(decode, line, jobs[n]) <==> decode(line) == Some(Entry(jobs[n], true));
  }

  lemma {:induction false} DoneGrows(r: Run, jobs: seq<string>, outcome: nat -> Outcome, n: nat)
    requires n <= |jobs|
    ensures forall key :: key in Jobs(r, jobs, outcome, n).done <==> key in r.done || key in jobs[..n]
  {
    if n > 0 {
      DoneGrows(r, jobs, outcome, n - 1);
      assert jobs[..n] == jobs[..n - 1] + [jobs[n - 1]];
    }
  }

  lemma RanGrows(run: Run, text: string, events: seq<Event>, jobs: seq<string>, outcome: nat -> Outcome, at: seq<nat>,
                 i: nat)
    requires Ran(run, text, events, jobs, outcome, at) && i < |jobs|
    ensures Ran(Record(Invoke(run, jobs[i]), jobs[i], outcome(i)), text, events, jobs, outcome, at + [i])
  {
    var next, more := Record(Invoke(run, jobs[i]), jobs[i], outcome(i)), at + [i];
    assert more[..|at|] == at;
    assert Completed(outcome, more)
        == if outcome(i).completed then Completed(outcome, at) + {|at|} else Completed(outcome, at);
    forall r | 0 <= r < |more|
      ensures next.events[|events| + 2 * r] == Invoked(jobs[more[r]])
      ensures next.events[|events| + 2 * r + 1] == Recorded(jobs[more[r]], outcome(more[r]).completed)
    {
      if r < |at| {
        assert more[r] == at[r] && next.events[|events| + 2 * r] == run.events[|events| + 2 * r];
      }
    }
  }

  lemma {:induction false} RunByPosition(decode: Decoder, text: string, events: seq<Event>, resume: bool,
                                         jobs: seq<string>, outcome: nat -> Outcome, n: nat)
    returns (at: seq<nat>)
    requires n <= |jobs|
    ensures var run := Jobs(StartRun(decode, text, events, resume), jobs, outcome, n);
      && Positions(decode, text, resume, jobs, n, at) && Ran(run, text, events, jobs, outcome, at)
      && run.skipped == n - |at|
  {
    hide *;
    var start := StartRun(decode, text, events, resume);
    if n == 0 {
      at := [];
      NothingRan(decode, text, events, resume, jobs, outcome);
    } else {
      at := RunByPosition(decode, text, events, resume, jobs, outcome, n - 1);
      var before := Jobs(start, jobs, outcome, n - 1);
      DoneByPosition(decode, text, events, resume, jobs, outcome, n - 1);
      OneJobMore(start, jobs, outcome, n - 1);
      RanGrows(before, text, events, jobs, outcome, at, n - 1);
      SkippedRan(before, text, events, jobs, outcome, at);
      PositionsGrow(decode, text, resume, jobs, n - 1, at);
      at := if jobs[n - 1] in before.done then at else at + [n - 1];
    }
  }

  lemma OneJobMore(start: Run, jobs: seq<string>, outcome: nat -> Outcome, n: nat)
    requires n < |jobs|
    ensures var before, key := Jobs(start, jobs, outcome, n), jobs[n];
      && Jobs(start, jobs, outcome, n + 1)
         == (if key in before.done then before.(skipped := before.skipped + 1)
             else Record(Invoke(before, key), key, outcome(n)))
      && Record(Invoke(before, key), key, outcome(n)).skipped == before.skipped
  {}

  lemma NothingRan(decode: Decoder, text: string, events: seq<Event>, resume: bool, jobs: seq<string>,
                   outcome: nat -> Outcome)
    ensures var start := StartRun(decode, text, events, resume);
      Jobs(start, jobs, outcome, 0) == start && Ran(start, text, events, jobs, outcome, []) && start.skipped == 0
    ensures Positions(decode, text, resume, jobs, 0, [])
  {
    hide DoneKeys, Skips;
    assert Completed(outcome, []) == {};
  }

  lemma PositionsGrow(decode: Decoder, text: string, resume: bool, jobs: seq<string>, n: nat, at: seq<nat>)
    requires n < |jobs| && Positions(decode, text, resume, jobs, n, at)
    ensures Positions(decode, text, resume, jobs, n + 1, if Skips(decode, text, resume, jobs, n) then at else at + [n])
  {
    hide Skips;
    var more := if Skips(decode, text, resume, jobs, n) then at else at + [n];
    forall i: nat ensures i in more <==> i < n + 1 && !Skips(decode, text, resume, jobs, i) {
      assert i in at + [n] <==> i in at || i == n;
    }
    forall r, s | 0 <= r < s < |more| ensures more[r] < more[s] {
      assert at[r] in at;
    }
  }

  lemma SkippedRan(run: Run, text: string, events: seq<Event>, jobs: seq<string>, outcome: nat -> Outcome, at: seq<nat>)
    requires Ran(run, text, events, jobs, outcome, at)
    ensures Ran(run.(skipped := run.skipped + 1), text, events, jobs, outcome, at)
  {}

  class Output {
    var text: string

    constructor (text: string)
      ensures this.text == text
    {
      this.text := text;
    }

    /** The whole file is rewritten beside itself and swapped in, so it changes in one step. */
    method AppendResult(line: string)
      modifies this
      ensures text == old(text) + line + "\n"
    {
      var existing := text;
      var rewritten := existing + (line + "\n");
      assert existing + (line + "\n") == existing + line + "\n";
      text := rewritten;
    }
  }

  datatype Summary = Summary(jobsTotal: nat, completed: nat, error: nat, skipped: nat)

  method RunBatch(output: Output, decode: Decoder, jobs: seq<string>, outcome: nat -> Outcome, resume: bool,
                  ghost events: seq<Event>)
    returns (summary: Summary, ghost run: Run)
    modifies output
    ensures run == Jobs(StartRun(decode, old(output.text), events, resume), jobs, outcome, |jobs|)
    ensures output.text == run.text
    ensures exists at :: Positions(decode, old(output.text), resume, jobs, |jobs|, at)
                         && Ran(run, old(output.text), events, jobs, outcome, at) && run.skipped == |jobs| - |at|
    ensures summary == Summary(|jobs|, run.completed, run.error, run.skipped)
  {
    var done: set<string> := {};
    if resume {
      done := LoadDoneKeys(decode, output.text);
    }
    run := StartRun(decode, output.text, events, resume);
    ghost var start := run;
    var completed, error, skipped := 0, 0, 0;
    for i := 0 to |jobs|
      invariant run == Jobs(start, jobs, outcome, i)
      invariant run.done == done && run.text == output.text
      invariant run.completed == completed && run.error == error && run.skipped == skipped
    {
      run := Job(run, jobs[i], outcome(i));
      if jobs[i] in done {
        skipped := skipped + 1;
        continue;
      }
      var record := outcome(i);
      output.AppendResult(record.line);
      done := done + {jobs[i]};
      if record.completed {
        completed := completed + 1;
      } else {
        error := error + 1;
      }
    }
    summary := Summary(|jobs|, completed, error, skipped);
    ghost var at := RunByPosition(decode, old(output.text), events, resume, jobs, outcome, |jobs|);
  }

  /** Every job of a finished run is counted exactly once. */
  lemma {:induction false} CountsAddUp(r: Run, jobs: seq<string>, outcome: nat -> Outcome, n: nat)
    requires n <= |jobs|
    ensures var after := Jobs(r, jobs, outcome, n);
      after.completed + after.error + after.skipped == r.completed + r.error + r.skipped + n
  {
    if n > 0 {
      CountsAddUp(r, jobs, outcome, n - 1);
    }
  }

  ghost predicate AllFaithful(decode: Decoder, jobs: seq<string>, outcome: nat -> Outcome) {
    forall i :: 0 <= i < |jobs| ==> Faithful(decode, jobs[i], outcome(i)) && Clean(outcome(i).line)
  }

  // ---- Runs that follow one another, each of which may die anywhere ----

  /** How far a run got: it processed `n` jobs, and may have invoked the next one without recording it. */
  datatype Attempt = Attempt(jobs: seq<string>, outcome: nat -> Outcome, n: nat, diedInvoking: bool)

  datatype World = World(text: string, events: seq<Event>)

  ghost predicate Legal(decode: Decoder, a: Attempt) {
    a.n <= |a.jobs| && (a.diedInvoking ==> a.n < |a.jobs|) && AllFaithful(decode, a.jobs, a.outcome)
  }

  function After(decode: Decoder, w: World, a: Attempt): World
    requires a.n <= |a.jobs| && (a.diedInvoking ==> a.n < |a.jobs|)
  {
    var r := Jobs(StartRun(decode, w.text, w.events, true), a.jobs, a.outcome, a.n);
    var last := if a.diedInvoking && a.jobs[a.n] !in r.done then Invoke(r, a.jobs[a.n]) else r;
    World(last.text, last.events)
  }

  ghost predicate AllLegal(decode: Decoder, attempts: seq<Attempt>) {
    forall a <- attempts :: Legal(decode, a)
  }

  function History(decode: Decoder, text: string, attempts: seq<Attempt>): World
    requires AllLegal(decode, attempts)
  {
    if attempts == [] then World(text, [])
    else
      assert attempts[|attempts| - 1] in attempts;
      After(decode, History(decode, text, attempts[..|attempts| - 1]), attempts[|attempts| - 1])
  }

  /** No completed record is ever followed by another invocation or completion of its key. */
  ghost predicate OnceOnly(events: seq<Event>) {
    forall p, q :: 0 <= p < q < |events| && events[p].Recorded? && events[p].completed ==>
      !About(events[q], events[p].key)
  }

  /** Runs or completes the job of that key. */
  predicate About(e: Event, key: string) {
    e.key == key && (e.Invoked? || e.completed)
  }

  /** What the file says is exactly what was already there plus what was recorded as completed. */
  ghost predicate Durable(decode: Decoder, initial: set<string>, text: string, events: seq<Event>) {
    && Closed(text)
    && (forall key :: key in DoneKeys(decode, text) <==> key in initial || Recorded(key, true) in events)
    && (forall e <- events :: e.key in initial ==> !About(e, e.key))
    && OnceOnly(events)
  }

  ghost predicate RunInv(decode: Decoder, initial: set<string>, r: Run) {
    Durable(decode, initial, r.text, r.events) && DoneKeys(decode, r.text) <= r.done
  }

  lemma InvokeKeeps(decode: Decoder, initial: set<string>, r: Run, key: string)
    requires RunInv(decode, initial, r) && key !in r.done
    ensures RunInv(decode, initial, Invoke(r, key))
  {
    var events := Invoke(r, key).events;
    assert key !in initial && Recorded(key, true) !in r.events;
    forall e <- events | e.key in initial ensures !About(e, e.key) {
      assert e in r.events || e == Invoked(key);
    }
    forall k ensures Recorded(k, true) in events <==> Recorded(k, true) in r.events {}
    forall p, q | 0 <= p < q < |events| && events[p].Recorded? && events[p].completed
      ensures !About(events[q], events[p].key)
    {
      assert p < |r.events| && events[p] == r.events[p] && events[p] == Recorded(events[p].key, true);
    }
  }

  lemma RecordKeeps(decode: Decoder, initial: set<string>, r: Run, key: string, o: Outcome)
    requires RunInv(decode, initial, r) && key !in DoneKeys(decode, r.text)
    requires Faithful(decode, key, o) && Clean(o.line)
    ensures RunInv(decode, initial, Record(r, key, o))
  {
    hide Faithful, Clean, DoneKeys;
    AppendIsReadBack(decode, r.text, key, o);
    var next := Record(r, key, o);
    var e := Recorded(key, o.completed);
    assert next.events == r.events + [e];
    forall k ensures k in DoneKeys(decode, next.text) <==> k in initial || Recorded(k, true) in next.events {
      assert Recorded(k, true) in next.events <==> Recorded(k, true) in r.events || e == Recorded(k, true);
    }
    forall p, q | 0 <= p < q < |next.events| && next.events[p].Recorded? && next.events[p].completed
      ensures !About(next.events[q], next.events[p].key)
    {
      assert next.events[p] == r.events[p] && next.events[p] == Recorded(next.events[p].key, true);
    }
  }

  lemma {:induction false} JobsKeep(decode: Decoder, initial: set<string>, r: Run, jobs: seq<string>,
                                    outcome: nat -> Outcome, n: nat)
    requires n <= |jobs| && RunInv(decode, initial, r) && AllFaithful(decode, jobs, outcome)
    ensures RunInv(decode, initial, Jobs(r, jobs, outcome, n))
  {
    hide Faithful, Clean, DoneKeys, RunInv;
    if n > 0 {
      JobsKeep(decode, initial, r, jobs, outcome, n - 1);
      var before, key := Jobs(r, jobs, outcome, n - 1), jobs[n - 1];
      if key in before.done {
        SkipKeeps(decode, initial, before);
      } else {
        InvokeKeeps(decode, initial, before, key);
        NotDone(decode, initial, before, key);
        RecordKeeps(decode, initial, Invoke(before, key), key, outcome(n - 1));
      }
    }
  }

  lemma SkipKeeps(decode: Decoder, initial: set<string>, r: Run)
    requires RunInv(decode, initial, r)
    ensures RunInv(decode, initial, r.(skipped := r.skipped + 1))
  {}

  lemma NotDone(decode: Decoder, initial: set<string>, r: Run, key: string)
    requires RunInv(decode, initial, r) && key !in r.done
    ensures key !in DoneKeys(decode, Invoke(r, key).text)
  {}

  /** Main result: over any sequence of resumed runs, each of which may die between any two steps,
      a key has at most one completed record and is never invoked after it; and what a later run
      reads back is exactly what was there at first plus every completed record. */
  lemma {:induction false} ResumedRunsNeverRepeat(decode: Decoder, text: string, attempts: seq<Attempt>)
    requires Closed(text) && AllLegal(decode, attempts)
    ensures var w := History(decode, text, attempts); Durable(decode, DoneKeys(decode, text), w.text, w.events)
  {
    hide Durable, DoneKeys, Faithful, Clean;
    var initial := DoneKeys(decode, text);
    if attempts == [] {
      NothingYet(decode, text);
    } else {
      var n := |attempts| - 1;
      var a := attempts[n];
      assert a in attempts;
      ResumedRunsNeverRepeat(decode, text, attempts[..n]);
      var w := History(decode, text, attempts[..n]);
      var start := StartRun(decode, w.text, w.events, true);
      assert RunInv(decode, initial, start);
      JobsKeep(decode, initial, start, a.jobs, a.outcome, a.n);
      var r := Jobs(start, a.jobs, a.outcome, a.n);
      if a.diedInvoking && a.jobs[a.n] !in r.done {
        InvokeKeeps(decode, initial, r, a.jobs[a.n]);
      }
    }
  }

  lemma NothingYet(decode: Decoder, text: string)
    requires Closed(text)
    ensures Durable(decode, DoneKeys(decode, text), text, [])
  {}

  ghost predicate Marked(events: seq<Event>, key: string) {
    exists e <- events :: e.key == key
  }

  lemma {:induction false} JobsMark(r: Run, jobs: seq<string>, outcome: nat -> Outcome, n: nat)
    requires n <= |jobs|
    ensures r.events <= Jobs(r, jobs, outcome, n).events
    ensures forall i :: 0 <= i < n ==> jobs[i] in r.done || Marked(Jobs(r, jobs, outcome, n).events, jobs[i])
  {
    if n > 0 {
      JobsMark(r, jobs, outcome, n - 1);
      DoneIsMarked(r, jobs, outcome, n - 1);
      var before, after := Jobs(r, jobs, outcome, n - 1).events, Jobs(r, jobs, outcome, n).events;
      StillMarked(before, after);
      if jobs[n - 1] !in Jobs(r, jobs, outcome, n - 1).done {
        assert after[|before|] == Invoked(jobs[n - 1]);
      }
    }
  }

  lemma {:induction false} DoneIsMarked(r: Run, jobs: seq<string>, outcome: nat -> Outcome, n: nat)
    requires n <= |jobs|
    ensures var after := Jobs(r, jobs, outcome, n);
      forall key <- after.done :: key in r.done || Marked(after.events, key)
  {
    if n > 0 {
      DoneIsMarked(r, jobs, outcome, n - 1);
      var before, after := Jobs(r, jobs, outcome, n - 1), Jobs(r, jobs, outcome, n);
      assert before.events <= after.events && forall e <- before.events :: e in after.events;
      if jobs[n - 1] !in before.done {
        assert after.events[|before.events|] == Invoked(jobs[n - 1]);
      }
    }
  }

  /** And nothing is lost: whatever job some run got to, recorded or dying in it, was done from the
      start or stands in the events. */
  lemma {:induction false} EveryJobReachedIsMarked(decode: Decoder, text: string, attempts: seq<Attempt>, k: nat,
                                                   i: nat)
    requires Closed(text) && AllLegal(decode, attempts) && k < |attempts|
    requires var a := attempts[k]; i < |a.jobs| && (i < a.n || (a.diedInvoking && i == a.n))
    ensures var key := attempts[k].jobs[i];
      key in DoneKeys(decode, text) || Marked(History(decode, text, attempts).events, key)
  {
    hide Faithful, Clean, DoneKeys, OnceOnly, Marked;
    var n := |attempts| - 1;
    var a := attempts[n];
    assert a in attempts && attempts[k] in attempts;
    var w := History(decode, text, attempts[..n]);
    var start := StartRun(decode, w.text, w.events, true);
    JobsMark(start, a.jobs, a.outcome, a.n);
    DoneIsMarked(start, a.jobs, a.outcome, a.n);
    ResumedRunsNeverRepeat(decode, text, attempts[..n]);
    StillMarked(w.events, Jobs(start, a.jobs, a.outcome, a.n).events);
    StillMarked(Jobs(start, a.jobs, a.outcome, a.n).events, History(decode, text, attempts).events);
    if k < n {
      EveryJobReachedIsMarked(decode, text, attempts[..n], k, i);
    } else {
      LastMarked(History(decode, text, attempts).events, a.jobs[i]);
    }
  }

  lemma StillMarked(before: seq<Event>, after: seq<Event>)
    requires before <= after
    ensures forall key :: Marked(before, key) ==> Marked(after, key)
    ensures forall key :: Recorded(key, true) in before ==> Marked(before, key)
  {
    assert forall e <- before :: e in after;
  }

  lemma LastMarked(events: seq<Event>, key: string)
    ensures events != [] && events[|events| - 1] == Invoked(key) ==> Marked(events, key)
  {}

  // ---- A run after an error-free one ----

  lemma {:induction false} ErrorFreeRecordsAll(decode: Decoder, r: Run, jobs: seq<string>, outcome: nat -> Outcome,
                                               n: nat)
    requires n <= |jobs| && AllFaithful(decode, jobs, outcome)
    requires Closed(r.text) && r.done == DoneKeys(decode, r.text)
    requires Jobs(r, jobs, outcome, n).error == r.error
    ensures var after := Jobs(r, jobs, outcome, n);
      && Closed(after.text) && after.done == DoneKeys(decode, after.text)
      && forall i :: 0 <= i < n ==> jobs[i] in after.done
    ensures r.error <= Jobs(r, jobs, outcome, n).error
  {
    hide Faithful, Clean, DoneKeys, Closed, KeysIn, Finished;
    if n > 0 {
      var before, key := Jobs(r, jobs, outcome, n - 1), jobs[n - 1];
      ErrorsOnlyGrow(r, jobs, outcome, n - 1);
      ErrorFreeRecordsAll(decode, r, jobs, outcome, n - 1);
      if key !in before.done {
        AppendIsReadBack(decode, before.text, key, outcome(n - 1));
      }
    }
  }

  lemma {:induction false} ErrorsOnlyGrow(r: Run, jobs: seq<string>, outcome: nat -> Outcome, n: nat)
    requires n <= |jobs|
    ensures r.error <= Jobs(r, jobs, outcome, n).error
  {
    if n > 0 {
      ErrorsOnlyGrow(r, jobs, outcome, n - 1);
    }
  }

  lemma {:induction false} AllDoneInvokesNothing(r: Run, jobs: seq<string>, outcome: nat -> Outcome, n: nat)
    requires n <= |jobs| && forall i :: 0 <= i < |jobs| ==> jobs[i] in r.done
    ensures Jobs(r, jobs, outcome, n) == r.(skipped := r.skipped + n)
  {
    if n > 0 {
      AllDoneInvokesNothing(r, jobs, outcome, n - 1);
    }
  }

  /** Main result: a resumed run of the same jobs after an error-free one invokes nothing, skips every
      job and leaves the file as it was. */
  lemma SecondRunInvokesNothing(decode: Decoder, text: string, jobs: seq<string>, outcome: nat -> Outcome,
                                again: nat -> Outcome)
    requires Closed(text) && AllFaithful(decode, jobs, outcome)
    requires Jobs(StartRun(decode, text, [], true), jobs, outcome, |jobs|).error == 0
    ensures var first := Jobs(StartRun(decode, text, [], true), jobs, outcome, |jobs|);
      var second := Jobs(StartRun(decode, first.text, first.events, true), jobs, again, |jobs|);
      second.text == first.text && second.events == first.events && second.skipped == |jobs|
  {
    hide Faithful, Clean, DoneKeys;
    var start := StartRun(decode, text, [], true);
    ErrorFreeRecordsAll(decode, start, jobs, outcome, |jobs|);
    var first := Jobs(start, jobs, outcome, |jobs|);
    AllDoneInvokesNothing(StartRun(decode, first.text, first.events, true), jobs, again, |jobs|);
  }

  function RunAlone(decode: Decoder, text: string, events: seq<Event>, key: string, o: Outcome): Run {
    Jobs(StartRun(decode, text, events, true), [key], _ => o, 1)
  }

  lemma RunAloneIsOneJob(decode: Decoder, text: string, events: seq<Event>, key: string, o: Outcome)
    ensures RunAlone(decode, text, events, key, o) == Job(StartRun(decode, text, events, true), key, o)
  {
    hide DoneKeys, Job;
    var start, outcome: nat -> Outcome := StartRun(decode, text, events, true), _ => o;
    assert Jobs(start, [key], outcome, 1) == Job(Jobs(start, [key], outcome, 0), [key][0], outcome(0));
  }

  /** Main result, for every text: a job that completes is left alone by the next resumed run exactly
      if its line holds no boundary and nothing but white space stood open before it; otherwise the
      job is invoked and completed a second time. */
  lemma RunsOnceExactly(decode: Decoder, text: string, key: string, o: Outcome)
    requires Faithful(decode, key, o) && o.completed && key !in DoneKeys(decode, text)
    ensures var first := RunAlone(decode, text, [], key, o);
      var second := RunAlone(decode, first.text, first.events, key, o);
      && first.events == [Invoked(key), Recorded(key, true)]
      && second.events == first.events + (if Clean(o.line) && Closed(text) then [] else first.events)
      && (OnceOnly(second.events) <==> Clean(o.line) && Closed(text))
  {
    ReadBackExactly(decode, text, key, o);
    hide Faithful, Clean, DoneKeys;
    RunAloneIsOneJob(decode, text, [], key, o);
    var first := RunAlone(decode, text, [], key, o);
    assert first.text == text + o.line + "\n" && first.events == [Invoked(key), Recorded(key, true)];
    RunAloneIsOneJob(decode, first.text, first.events, key, o);
    var second := RunAlone(decode, first.text, first.events, key, o);
    if !(Clean(o.line) && Closed(text)) {
      assert second.events == [Invoked(key), Recorded(key, true), Invoked(key), Recorded(key, true)];
      assert About(second.events[2], key) && second.events[1].completed;
    } else {
      assert second.events == [Invoked(key), Recorded(key, true)];
    }
  }

  /** An instance: a line separator in the record of a job, in a new file. */
  lemma SeparatorRunsTheJobTwice(decode: Decoder, key: string, o: Outcome)
    requires Faithful(decode, key, o) && o.completed && '\U{2028}' in o.line
    ensures var first := RunAlone(decode, "", [], key, o);
      !OnceOnly(RunAlone(decode, first.text, first.events, key, o).events)
  {
    KeysInOne(decode, "");
    assert Boundary('\U{2028}');
    RunsOnceExactly(decode, "", key, o);
  }
}
