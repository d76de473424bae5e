/** Pairing the direct and the deliberate row of every task in one split. */
module TaskPairs {
  import opened Common
  import opened Sorting
  import A = Allocation

  datatype Split = Train | Validation | Test

  /** A dataset row: an unusable split or policy, or a task id that is not text, is None. */
  datatype DataRow = DataRow(
    taskId: Option<string>, policy: Option<A.Policy>, split: Option<Split>, attemptId: string, row: A.Row)

  predicate Used(r: DataRow, split: Split) {
    r.split == Some(split) && r.policy.Some? && r.taskId.Some?
  }

  predicate InCell(r: DataRow, split: Split, task: string, policy: A.Policy) {
    Used(r, split) && r.taskId == Some(task) && r.policy == Some(policy)
  }

  /** The rows of one task under one policy, in file order. */
  function CellOf(rows: seq<DataRow>, split: Split, task: string, policy: A.Policy): seq<DataRow> {
    if rows == [] then []
    else
      var n := |rows| - 1;
      var before := CellOf(rows[..n], split, task, policy);
      if InCell(rows[n], split, task, policy) then before + [rows[n]] else before
  }

  ghost predicate TaskSeen(rows: seq<DataRow>, split: Split, task: string) {
    exists r <- rows :: Used(r, split) && r.taskId == Some(task)
  }

  /** The row with the smallest attempt id, the first of them on a tie. */
  function Earliest(rows: seq<DataRow>): (r: DataRow)
    requires rows != []
    ensures r in rows && forall x <- rows :: StringLe(r.attemptId, x.attemptId)
  {
    if |rows| == 1 then
      StringLeTotal(rows[0].attemptId, rows[0].attemptId);
      rows[0]
    else
      var n := |rows| - 1;
      var before := Earliest(rows[..n]);
      Extremes(rows, before);
      if StringLe(before.attemptId, rows[n].attemptId) then before else rows[n]
  }

  lemma Extremes(rows: seq<DataRow>, before: DataRow)
    requires rows != [] && before in rows[..|rows| - 1]
    requires forall x <- rows[..|rows| - 1] :: StringLe(before.attemptId, x.attemptId)
    ensures var last := rows[|rows| - 1];
      && (StringLe(before.attemptId, last.attemptId) ==> forall x <- rows :: StringLe(before.attemptId, x.attemptId))
      && (!StringLe(before.attemptId, last.attemptId) ==> forall x <- rows :: StringLe(last.attemptId, x.attemptId))
  {
    var n := |rows| - 1;
    var last := rows[n];
    assert rows == rows[..n] + [last];
    StringLeTotal(before.attemptId, last.attemptId);
    StringLeTotal(last.attemptId, last.attemptId);
    if !StringLe(before.attemptId, last.attemptId) {
      forall x <- rows ensures StringLe(last.attemptId, x.attemptId) {
        if x in rows[..n] {
          StringLeTransitive(last.attemptId, before.attemptId, x.attemptId);
        }
      }
    }
  }

  /** A single row speaks for itself; several do so only when the first attempt is asked for. */
  function Resolve(rows: seq<DataRow>, first: bool): Option<DataRow>
    requires rows != []
  {
    if |rows| == 1 then Some(rows[0]) else if first then Some(Earliest(rows)) else None
  }

  datatype Verdict = Missing | Duplicated | Paired(pair: A.Pair)

  function Judge(rows: seq<DataRow>, split: Split, first: bool, task: string): Verdict {
    var direct, deliberate := CellOf(rows, split, task, A.Direct), CellOf(rows, split, task, A.Deliberate);
    if direct == [] || deliberate == [] then Missing
    else
      var d, e := Resolve(direct, first), Resolve(deliberate, first);
      if d.None? || e.None? then Duplicated else Paired(A.Pair(task, d.value.row, e.value.row))
  }

  datatype Report = Report(pairs: seq<A.Pair>, tasksInSplit: nat, missing: seq<string>, duplicated: seq<string>)

  ghost predicate Listed(tasks: seq<string>, rows: seq<DataRow>, split: Split) {
    Unique(tasks) && forall task :: task in tasks <==> TaskSeen(rows, split, task)
  }

  lemma ListGrows(tasks: seq<string>, rows: seq<DataRow>, split: Split, r: DataRow)
    requires Listed(tasks, rows, split)
    ensures Listed(if Used(r, split) && r.taskId.value !in tasks then tasks + [r.taskId.value] else tasks, rows + [r],
                   split)
  {
    forall t
      ensures TaskSeen(rows + [r], split, t) <==> TaskSeen(rows, split, t) || (Used(r, split) && r.taskId == Some(t))
    {
      assert r in rows + [r];
    }
  }

  method TasksInSplit(rows: seq<DataRow>, split: Split) returns (tasks: Option<seq<string>>)
    ensures tasks.None? <==> exists r <- rows :: r.split.None?
    ensures tasks.Some? ==> Listed(tasks.value, rows, split)
  {
    hide Listed;
    var found: seq<string> := [];
    NoTasks(split);
    for i := 0 to |rows|
      invariant forall k :: 0 <= k < i ==> rows[k].split.Some?
      invariant Listed(found, rows[..i], split)
    {
      var r := rows[i];
      assert rows[..i + 1] == rows[..i] + [r];
      ListGrows(found, rows[..i], split, r);
      if r.split.None? {
        assert r in rows;
        return None;
      }
      if Used(r, split) && r.taskId.value !in found {
        found := found + [r.taskId.value];
      }
    }
    assert rows[..|rows|] == rows;
    return Some(found);
  }

  lemma NoTasks(split: Split)
    ensures Listed([], [], split)
  {}

  lemma SortedTasks(tasks: seq<string>, rows: seq<DataRow>, split: Split)
    requires Listed(tasks, rows, split)
    ensures Listed(Sort(StringLe, tasks), rows, split) && Sorted(StringLe, Sort(StringLe, tasks))
    ensures |Sort(StringLe, tasks)| == |tasks|
  {
    StringOrder();
    SortSorts(StringLe, tasks);
    PermutationKeepsUnique(tasks, Sort(StringLe, tasks));
  }

  /** The pairs, the missing and the duplicated among the first n tasks. */
  function PairsOf(rows: seq<DataRow>, split: Split, first: bool, tasks: seq<string>): seq<A.Pair> {
    if tasks == [] then []
    else
      var n := |tasks| - 1;
      var before, v := PairsOf(rows, split, first, tasks[..n]), Judge(rows, split, first, tasks[n]);
      if v.Paired? then before + [v.pair] else before
  }

  function Excluded(rows: seq<DataRow>, split: Split, first: bool, tasks: seq<string>, why: Verdict): seq<string> {
    if tasks == [] then []
    else
      var n := |tasks| - 1;
      var before := Excluded(rows, split, first, tasks[..n], why);
      if Judge(rows, split, first, tasks[n]) == why then before + [tasks[n]] else before
  }

  ghost predicate Pairing(r: Report, rows: seq<DataRow>, split: Split, first: bool, tasks: seq<string>) {
    && Listed(tasks, rows, split) && Sorted(StringLe, tasks) && r.tasksInSplit == |tasks|
    && r.pairs == PairsOf(rows, split, first, tasks)
    && r.missing == Excluded(rows, split, first, tasks, Missing)
    && r.duplicated == Excluded(rows, split, first, tasks, Duplicated)
  }

  ghost predicate ExcludedGrows(rows: seq<DataRow>, split: Split, first: bool, tasks: seq<string>, n: nat, why: Verdict)
    requires n < |tasks|
  {
    var before := Excluded(rows, split, first, tasks[..n], why);
    var after := Excluded(rows, split, first, tasks[..n + 1], why);
    after == if Judge(rows, split, first, tasks[n]) == why then before + [tasks[n]] else before
  }

  lemma OneTaskMore(rows: seq<DataRow>, split: Split, first: bool, tasks: seq<string>, n: nat)
    requires n < |tasks|
    ensures var v := Judge(rows, split, first, tasks[n]);
      && PairsOf(rows, split, first, tasks[..n + 1])
         == (if v.Paired? then PairsOf(rows, split, first, tasks[..n]) + [v.pair]
             else PairsOf(rows, split, first, tasks[..n]))
      && ExcludedGrows(rows, split, first, tasks, n, Missing) && ExcludedGrows(rows, split, first, tasks, n, Duplicated)
  {
    hide Judge;
    assert tasks[..n + 1][..n] == tasks[..n];
  }

  /** Judges every task in ascending order. */
  method JudgeTasks(rows: seq<DataRow>, split: Split, first: bool, tasks: seq<string>) returns (report: Report)
    ensures report.tasksInSplit == |tasks| && report.pairs == PairsOf(rows, split, first, tasks)
    ensures report.missing == Excluded(rows, split, first, tasks, Missing)
    ensures report.duplicated == Excluded(rows, split, first, tasks, Duplicated)
  {
    hide Judge;
    var pairs, missing, duplicated := [], [], [];
    assert tasks[..0] == [];
    for i := 0 to |tasks|
      invariant pairs == PairsOf(rows, split, first, tasks[..i])
      invariant missing == Excluded(rows, split, first, tasks[..i], Missing)
      invariant duplicated == Excluded(rows, split, first, tasks[..i], Duplicated)
    {
      OneTaskMore(rows, split, first, tasks, i);
      hide PairsOf, Excluded;
      var verdict := Judge(rows, split, first, tasks[i]);
      match verdict {
        case Missing => missing := missing + [tasks[i]];
        case Duplicated => duplicated := duplicated + [tasks[i]];
        case Paired(pair) => pairs := pairs + [pair];
      }
    }
    assert tasks[..|tasks|] == tasks;
    report := Report(pairs, |tasks|, missing, duplicated);
  }

  /** Any row without a known split stops the build, whatever split is asked for. */
  method BuildTaskPairs(rows: seq<DataRow>, split: Split, first: bool) returns (result: Result<Report>)
    ensures result.Err? <==> exists r <- rows :: r.split.None?
    ensures result.Ok? ==> exists tasks :: Pairing(result.value, rows, split, first, tasks)
  {
    hide Listed, Judge, PairsOf, Excluded, Sort;
    var found := TasksInSplit(rows, split);
    if found.None? {
      return Err("row has missing or unknown split");
    }
    var tasks := Sort(StringLe, found.value);
    SortedTasks(found.value, rows, split);
    var report := JudgeTasks(rows, split, first, tasks);
    assert Pairing(report, rows, split, first, tasks);
    return Ok(report);
  }

  lemma {:induction false} PairsAreJudged(rows: seq<DataRow>, split: Split, first: bool, tasks: seq<string>, p: A.Pair)
    ensures p in PairsOf(rows, split, first, tasks)
       <==> (p.taskId in tasks && Judge(rows, split, first, p.taskId) == Paired(p))
  {
    if tasks != [] {
      var n := |tasks| - 1;
      PairsAreJudged(rows, split, first, tasks[..n], p);
      JudgeNames(rows, split, first, tasks[n]);
      hide Judge;
      assert tasks == tasks[..n] + [tasks[n]];
    }
  }

  lemma {:induction false} PairsAreDistinct(rows: seq<DataRow>, split: Split, first: bool, tasks: seq<string>)
    requires Unique(tasks)
    ensures A.DistinctTasks(PairsOf(rows, split, first, tasks))
  {
    if tasks != [] {
      var n := |tasks| - 1;
      PairsAreDistinct(rows, split, first, tasks[..n]);
      JudgeNames(rows, split, first, tasks[n]);
      hide Judge;
      var before := PairsOf(rows, split, first, tasks[..n]);
      forall i | 0 <= i < |before| ensures before[i].taskId != tasks[n] {
        assert before[i] in before;
        PairsAreJudged(rows, split, first, tasks[..n], before[i]);
      }
    }
  }

  lemma {:induction false} EveryTaskIsCounted(rows: seq<DataRow>, split: Split, first: bool, tasks: seq<string>)
    ensures |PairsOf(rows, split, first, tasks)| + |Excluded(rows, split, first, tasks, Missing)|
          + |Excluded(rows, split, first, tasks, Duplicated)| == |tasks|
  {
    hide Judge;
    if tasks != [] {
      EveryTaskIsCounted(rows, split, first, tasks[..|tasks| - 1]);
    }
  }

  lemma JudgeNames(rows: seq<DataRow>, split: Split, first: bool, task: string)
    ensures var v := Judge(rows, split, first, task); v.Paired? ==> v.pair.taskId == task
  {}

  /** Main result: the pairs have distinct tasks, hold exactly the tasks judged complete, and with
      the two exclusion lists account for every task of the split. */
  lemma PairingAccounts(r: Report, rows: seq<DataRow>, split: Split, first: bool, tasks: seq<string>)
    requires Pairing(r, rows, split, first, tasks)
    ensures A.DistinctTasks(r.pairs)
    ensures |r.pairs| + |r.missing| + |r.duplicated| == r.tasksInSplit
    ensures forall p :: p in r.pairs <==>
      (TaskSeen(rows, split, p.taskId) && Judge(rows, split, first, p.taskId) == Paired(p))
  {
    hide Judge, TaskSeen, PairsOf, Excluded;
    PairsAreDistinct(rows, split, first, tasks);
    EveryTaskIsCounted(rows, split, first, tasks);
    forall p ensures p in r.pairs <==>
      (TaskSeen(rows, split, p.taskId) && Judge(rows, split, first, p.taskId) == Paired(p))
    {
      PairsAreJudged(rows, split, first, tasks, p);
    }
  }

  // ---- Where a pair's rows come from ----

  /** Row i belongs to this task, split and policy. */
  predicate Stands(rows: seq<DataRow>, split: Split, task: string, policy: A.Policy, i: nat)
    requires i < |rows|
  {
    rows[i].split == Some(split) && rows[i].taskId == Some(task) && rows[i].policy == Some(policy)
  }

  /** The row taken is the only one, or, if the first attempt is asked for, the one of the smallest attempt
      id, the first of them on a tie. */
  ghost predicate Taken(rows: seq<DataRow>, split: Split, first: bool, task: string, policy: A.Policy, row: A.Row) {
    exists i ::
      && 0 <= i < |rows| && Stands(rows, split, task, policy, i) && rows[i].row == row
      && forall j :: 0 <= j < |rows| && j != i && Stands(rows, split, task, policy, j) ==>
        first && Before(rows, i, j)
  }

  ghost predicate Before(rows: seq<DataRow>, i: nat, j: nat)
    requires i < |rows| && j < |rows|
  {
    StringLe(rows[i].attemptId, rows[j].attemptId) && (rows[i].attemptId == rows[j].attemptId ==> i < j)
  }

  ghost predicate AnyRow(rows: seq<DataRow>, split: Split, task: string, policy: A.Policy) {
    exists i :: 0 <= i < |rows| && Stands(rows, split, task, policy, i)
  }

  ghost predicate Several(rows: seq<DataRow>, split: Split, task: string, policy: A.Policy) {
    exists i, j :: 0 <= i < j < |rows| && Stands(rows, split, task, policy, i) && Stands(rows, split, task, policy, j)
  }

  ghost predicate CellAt(cell: seq<DataRow>, rows: seq<DataRow>, split: Split, task: string, policy: A.Policy,
                         at: seq<nat>)
  {
    && |at| == |cell| && (forall p, q :: 0 <= p < q < |at| ==> at[p] < at[q])
    && (forall p :: 0 <= p < |at| ==>
          at[p] < |rows| && Stands(rows, split, task, policy, at[p]) && cell[p] == rows[at[p]])
    && (forall i: nat :: i < |rows| && Stands(rows, split, task, policy, i) ==> i in at)
  }

  lemma MorePositions(cell: seq<DataRow>, rows: seq<DataRow>, split: Split, task: string, policy: A.Policy,
                      at: seq<nat>)
    requires rows != [] && CellAt(cell, rows[..|rows| - 1], split, task, policy, at)
    ensures var n := |rows| - 1;
      if Stands(rows, split, task, policy, n) then CellAt(cell + [rows[n]], rows, split, task, policy, at + [n])
      else CellAt(cell, rows, split, task, policy, at)
  {
    var n := |rows| - 1;
    forall i: nat | i < n && Stands(rows, split, task, policy, i) ensures i in at {
      assert Stands(rows[..n], split, task, policy, i);
    }
    forall p | 0 <= p < |at| ensures Stands(rows, split, task, policy, at[p]) && cell[p] == rows[at[p]] {
      assert Stands(rows[..n], split, task, policy, at[p]);
    }
  }

  lemma {:induction false} CellPositions(rows: seq<DataRow>, split: Split, task: string, policy: A.Policy)
    returns (at: seq<nat>)
    ensures CellAt(CellOf(rows, split, task, policy), rows, split, task, policy, at)
  {
    hide CellAt;
    if rows == [] {
      at := [];
      NoPositions(split, task, policy);
    } else {
      var n := |rows| - 1;
      at := CellPositions(rows[..n], split, task, policy);
      MorePositions(CellOf(rows[..n], split, task, policy), rows, split, task, policy, at);
      at := if Stands(rows, split, task, policy, n) then at + [n] else at;
    }
  }

  lemma NoPositions(split: Split, task: string, policy: A.Policy)
    ensures CellAt([], [], split, task, policy, [])
  {}

  /** The first of the rows with the smallest attempt id. */
  lemma {:induction false} EarliestIsFirst(rows: seq<DataRow>) returns (k: nat)
    requires rows != []
    ensures k < |rows| && Earliest(rows) == rows[k]
    ensures forall j :: 0 <= j < |rows| && j != k ==> Before(rows, k, j)
  {
    if |rows| == 1 {
      k := 0;
    } else {
      var n := |rows| - 1;
      k := EarliestIsFirst(rows[..n]);
      var before := k;
      StringLeTotal(rows[before].attemptId, rows[n].attemptId);
      if !StringLe(rows[before].attemptId, rows[n].attemptId) {
        k := n;
        forall j | 0 <= j < n ensures Before(rows, n, j) {
          assert rows[..n][j] == rows[j] && StringLe(Earliest(rows[..n]).attemptId, rows[..n][j].attemptId);
          StringLeTransitive(rows[n].attemptId, rows[before].attemptId, rows[j].attemptId);
        }
      } else {
        forall j | 0 <= j < |rows| && j != before ensures Before(rows, before, j) {
          if j < n {
            assert Before(rows[..n], before, j);
          }
        }
      }
    }
  }

  lemma ResolvedIsTaken(rows: seq<DataRow>, split: Split, first: bool, task: string, policy: A.Policy)
    ensures var cell := CellOf(rows, split, task, policy);
      && (cell == [] <==> !AnyRow(rows, split, task, policy))
      && (cell != [] ==>
            && (Resolve(cell, first).None? <==> !first && Several(rows, split, task, policy))
            && (Resolve(cell, first).Some? ==> Taken(rows, split, first, task, policy, Resolve(cell, first).value.row)))
  {
    var cell := CellOf(rows, split, task, policy);
    var at := CellPositions(rows, split, task, policy);
    hide CellOf, Before;
    SeveralExactly(cell, rows, split, task, policy, at);
    if cell == [] {
      assert forall i: nat :: i < |rows| ==> !Stands(rows, split, task, policy, i);
    } else {
      assert Stands(rows, split, task, policy, at[0]);
    }
    if |cell| == 1 {
      assert forall j: nat :: j < |rows| && Stands(rows, split, task, policy, j) ==> j == at[0];
    } else if cell != [] && first {
      var k := EarliestIsFirst(cell);
      forall j | 0 <= j < |rows| && j != at[k] && Stands(rows, split, task, policy, j) ensures Before(rows, at[k], j) {
        var p :| 0 <= p < |at| && at[p] == j;
        StillBefore(cell, rows, at, k, p);
      }
    }
  }

  lemma StillBefore(cell: seq<DataRow>, rows: seq<DataRow>, at: seq<nat>, k: nat, p: nat)
    requires |at| == |cell| && k < |cell| && p < |cell| && Before(cell, k, p)
    requires forall p, q :: 0 <= p < q < |at| ==> at[p] < at[q]
    requires forall p :: 0 <= p < |at| ==> at[p] < |rows| && cell[p] == rows[at[p]]
    ensures Before(rows, at[k], at[p])
  {}

  lemma SeveralExactly(cell: seq<DataRow>, rows: seq<DataRow>, split: Split, task: string, policy: A.Policy,
                       at: seq<nat>)
    requires CellAt(cell, rows, split, task, policy, at)
    ensures Several(rows, split, task, policy) <==> |cell| > 1
  {
    if |cell| > 1 {
      assert at[0] < at[1];
    }
    if Several(rows, split, task, policy) {
      var i: nat, j: nat :|
        i < j < |rows| && Stands(rows, split, task, policy, i) && Stands(rows, split, task, policy, j);
      assert i in at && j in at;
    }
  }

  /** Main result: a task is missing, duplicated or paired by the rows of each policy alone. */
  lemma JudgedByItsRows(rows: seq<DataRow>, split: Split, first: bool, task: string)
    ensures var v := Judge(rows, split, first, task);
      var both := AnyRow(rows, split, task, A.Direct) && AnyRow(rows, split, task, A.Deliberate);
      && (v.Missing? <==> !both)
      && (v.Duplicated? <==>
            both && !first && (Several(rows, split, task, A.Direct) || Several(rows, split, task, A.Deliberate)))
      && (v.Paired? ==>
            && Taken(rows, split, first, task, A.Direct, v.pair.direct)
            && Taken(rows, split, first, task, A.Deliberate, v.pair.deliberate))
  {
    hide CellOf, Resolve, Taken, Several, AnyRow;
    ResolvedIsTaken(rows, split, first, task, A.Direct);
    ResolvedIsTaken(rows, split, first, task, A.Deliberate);
  }

  ghost predicate Appears(rows: seq<DataRow>, split: Split, task: string) {
    exists r <- rows :: r.split == Some(split) && r.taskId == Some(task) && r.policy.Some?
  }

  ghost predicate Ascending(tasks: seq<string>) {
    forall i, j :: 0 <= i < j < |tasks| ==> StringLe(tasks[i], tasks[j]) && tasks[i] != tasks[j]
  }

  lemma {:induction false} ExcludedAreJudged(rows: seq<DataRow>, split: Split, first: bool, tasks: seq<string>,
                                             why: Verdict)
    ensures forall t ::
      t in Excluded(rows, split, first, tasks, why) <==> t in tasks && Judge(rows, split, first, t) == why
    ensures Ascending(tasks) ==> Ascending(Excluded(rows, split, first, tasks, why))
  {
    hide Judge;
    if tasks != [] {
      var n := |tasks| - 1;
      ExcludedAreJudged(rows, split, first, tasks[..n], why);
      assert tasks == tasks[..n] + [tasks[n]];
      LastIsLargest(tasks, Excluded(rows, split, first, tasks[..n], why));
    }
  }

  lemma LastIsLargest(tasks: seq<string>, some: seq<string>)
    requires tasks != [] && forall t <- some :: t in tasks[..|tasks| - 1]
    ensures Ascending(tasks) && Ascending(some) ==> Ascending(some + [tasks[|tasks| - 1]])
  {
    var n := |tasks| - 1;
    if Ascending(tasks) && Ascending(some) {
      forall i | 0 <= i < |some| ensures StringLe(some[i], tasks[n]) && some[i] != tasks[n] {
        assert some[i] in some;
        var j :| 0 <= j < n && tasks[..n][j] == some[i];
        assert tasks[j] == some[i];
      }
    }
  }

  function TaskIds(pairs: seq<A.Pair>): seq<string> {
    seq(|pairs|, i requires 0 <= i < |pairs| => pairs[i].taskId)
  }

  lemma {:induction false} PairsAscend(rows: seq<DataRow>, split: Split, first: bool, tasks: seq<string>)
    requires Ascending(tasks)
    ensures Ascending(TaskIds(PairsOf(rows, split, first, tasks)))
  {
    hide Judge;
    if tasks != [] {
      var n := |tasks| - 1;
      PairsAscend(rows, split, first, tasks[..n]);
      var before := PairsOf(rows, split, first, tasks[..n]);
      forall t <- TaskIds(before) ensures t in tasks[..n] {
        var i :| 0 <= i < |before| && before[i].taskId == t;
        PairsAreJudged(rows, split, first, tasks[..n], before[i]);
      }
      LastIsLargest(tasks, TaskIds(before));
      JudgeNames(rows, split, first, tasks[n]);
      var v := Judge(rows, split, first, tasks[n]);
      if v.Paired? {
        assert TaskIds(before + [v.pair]) == TaskIds(before) + [tasks[n]];
      }
    }
  }

  /** Main result: the report in terms of the rows: which tasks are missing, duplicated or paired, and all three
      lists in ascending order without repetition. */
  lemma ReportOfRows(r: Report, rows: seq<DataRow>, split: Split, first: bool, tasks: seq<string>)
    requires Pairing(r, rows, split, first, tasks)
    ensures Ascending(TaskIds(r.pairs)) && Ascending(r.missing) && Ascending(r.duplicated)
    ensures forall t ::
      var both := AnyRow(rows, split, t, A.Direct) && AnyRow(rows, split, t, A.Deliberate);
      var several := Several(rows, split, t, A.Direct) || Several(rows, split, t, A.Deliberate);
      && (t in r.missing <==> Appears(rows, split, t) && !both)
      && (t in r.duplicated <==> Appears(rows, split, t) && both && several && !first)
      && (t in TaskIds(r.pairs) <==> Appears(rows, split, t) && both && (first || !several))
    ensures forall p <- r.pairs ::
      && Taken(rows, split, first, p.taskId, A.Direct, p.direct)
      && Taken(rows, split, first, p.taskId, A.Deliberate, p.deliberate)
  {
    hide Judge, PairsOf, Excluded, AnyRow, Several, Taken;
    assert Ascending(tasks);
    ExcludedAreJudged(rows, split, first, tasks, Missing);
    ExcludedAreJudged(rows, split, first, tasks, Duplicated);
    PairsAscend(rows, split, first, tasks);
    forall t
      ensures Judge(rows, split, first, t).Paired? && t in tasks <==> t in TaskIds(r.pairs)
      ensures t in tasks <==> Appears(rows, split, t)
    {
      JudgeNames(rows, split, first, t);
      PairedIds(r, rows, split, first, tasks, t);
    }
    forall t {
      JudgedByItsRows(rows, split, first, t);
    }
    forall p <- r.pairs
      ensures Taken(rows, split, first, p.taskId, A.Direct, p.direct)
      ensures Taken(rows, split, first, p.taskId, A.Deliberate, p.deliberate)
    {
      PairsAreJudged(rows, split, first, tasks, p);
    }
  }

  lemma PairedIds(r: Report, rows: seq<DataRow>, split: Split, first: bool, tasks: seq<string>, t: string)
    requires Pairing(r, rows, split, first, tasks)
    ensures t in TaskIds(r.pairs) <==> t in tasks && Judge(rows, split, first, t).Paired?
  {
    hide Judge;
    JudgeNames(rows, split, first, t);
    if t in TaskIds(r.pairs) {
      var i :| 0 <= i < |r.pairs| && r.pairs[i].taskId == t;
      assert r.pairs[i] in r.pairs;
      PairsAreJudged(rows, split, first, tasks, r.pairs[i]);
    }
    if t in tasks && Judge(rows, split, first, t).Paired? {
      var p := Judge(rows, split, first, t).pair;
      PairsAreJudged(rows, split, first, tasks, p);
      var i :| 0 <= i < |r.pairs| && r.pairs[i] == p;
      assert TaskIds(r.pairs)[i] == t;
    }
  }
}
