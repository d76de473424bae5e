/** Building strict complete evaluation panels from dataset rows. */
module TreatmentPanels {
  import opened Common
  import opened Sorting

  datatype Treatment = Treatment(id: string, version: string, bundleId: string, bundleHash: string, descriptor: string)

  /** The task side of a model input is compared in canonical form. */
  datatype ModelInput = ModelInput(id: string, version: string, descriptor: string, task: string)

  datatype Split = Train | Validation | Test

  datatype Row = Row(
    taskId: Option<string>, id: string, version: string, bundleId: string, bundleHash: string,
    registryHash: string, split: Option<Split>, model: Option<ModelInput>, success: bool)

  datatype Panel = Panel(taskId: string, rows: map<string, Row>)

  ghost predicate DistinctIdentities(treatments: seq<Treatment>) {
    forall i, j :: 0 <= i < j < |treatments| ==>
      (treatments[i].id, treatments[i].version) != (treatments[j].id, treatments[j].version)
  }

  function BundleIds(treatments: seq<Treatment>): seq<string> {
    seq(|treatments|, i requires 0 <= i < |treatments| => treatments[i].bundleId)
  }

  function TreatmentOf(row: Row, treatments: seq<Treatment>): Option<Treatment> {
    if treatments == [] then None
    else
      var last := treatments[|treatments| - 1];
      if last.id == row.id && last.version == row.version then Some(last)
      else TreatmentOf(row, treatments[..|treatments| - 1])
  }

  lemma {:induction false} TreatmentOfIsOne(row: Row, treatments: seq<Treatment>)
    ensures TreatmentOf(row, treatments).Some? ==> TreatmentOf(row, treatments).value in treatments
  {
    if treatments != [] {
      TreatmentOfIsOne(row, treatments[..|treatments| - 1]);
    }
  }

  /** Carries a candidate's bundle marker under another identity. */
  predicate Tampered(row: Row, treatments: seq<Treatment>) {
    exists t <- treatments :: row.bundleId == t.bundleId || row.bundleHash == t.bundleHash
  }

  predicate RowValid(row: Row, t: Treatment, registryHash: string) {
    && row.bundleId == t.bundleId && row.bundleHash == t.bundleHash && row.registryHash == registryHash
    && row.model.Some?
    && row.model.value.id == t.id && row.model.value.version == t.version && row.model.value.descriptor == t.descriptor
  }

  predicate Candidate(row: Row, treatments: seq<Treatment>) {
    row.taskId.Some? && TreatmentOf(row, treatments).Some?
  }

  predicate Selected(row: Row, treatments: seq<Treatment>, split: Split) {
    Candidate(row, treatments) && row.split == Some(split)
  }

  /** What each single row must satisfy for the build to go on. */
  predicate RowAdmissible(row: Row, treatments: seq<Treatment>, split: Split, registryHash: string) {
    row.taskId.Some? ==>
      var t := TreatmentOf(row, treatments);
      if t.None? then !Tampered(row, treatments)
      else row.split.Some? && (row.split == Some(split) ==> RowValid(row, t.value, registryHash))
  }

  function Chosen(rows: seq<Row>, treatments: seq<Treatment>, split: Split): seq<Row> {
    if rows == [] then []
    else
      var n := |rows| - 1;
      var before := Chosen(rows[..n], treatments, split);
      if Selected(rows[n], treatments, split) then before + [rows[n]] else before
  }

  lemma ChosenStep(rows: seq<Row>, treatments: seq<Treatment>, split: Split, n: nat)
    requires n < |rows|
    ensures Chosen(rows[..n + 1], treatments, split)
         == if Selected(rows[n], treatments, split) then Chosen(rows[..n], treatments, split) + [rows[n]]
            else Chosen(rows[..n], treatments, split)
  {
    assert rows[..n + 1][..n] == rows[..n];
  }

  lemma {:induction false} ChosenAre(rows: seq<Row>, treatments: seq<Treatment>, split: Split)
    ensures forall r <- Chosen(rows, treatments, split) :: r in rows && Selected(r, treatments, split)
  {
    if rows != [] {
      ChosenAre(rows[..|rows| - 1], treatments, split);
    }
  }

  predicate InCell(row: Row, task: string, bundle: string) {
    row.taskId == Some(task) && row.bundleId == bundle
  }

  function CellOf(rows: seq<Row>, task: string, bundle: string): seq<Row> {
    if rows == [] then []
    else
      var n := |rows| - 1;
      var before := CellOf(rows[..n], task, bundle);
      if InCell(rows[n], task, bundle) then before + [rows[n]] else before
  }

  /** No candidate task in two splits. */
  ghost predicate NoLeak(rows: seq<Row>, treatments: seq<Treatment>) {
    forall a, b :: a in rows && b in rows && Candidate(a, treatments) && Candidate(b, treatments)
      && a.taskId == b.taskId
      ==> a.split == b.split
  }

  ghost predicate TaskListed(chosen: seq<Row>, task: string) {
    exists r <- chosen :: r.taskId == Some(task)
  }

  ghost predicate CompleteTask(chosen: seq<Row>, treatments: seq<Treatment>, task: string) {
    && (forall t <- treatments :: |CellOf(chosen, task, t.bundleId)| == 1)
    && forall s, t :: s in treatments && t in treatments ==>
         TaskSide(CellOf(chosen, task, s.bundleId)[0]) == TaskSide(CellOf(chosen, task, t.bundleId)[0])
  }

  function TaskSide(row: Row): Option<string> {
    if row.model.Some? then Some(row.model.value.task) else None
  }

  /** Exactly when panels can be built. */
  ghost predicate Buildable(rows: seq<Row>, treatments: seq<Treatment>, split: Split, registryHash: string) {
    && treatments != [] && DistinctIdentities(treatments)
    && (forall r <- rows :: RowAdmissible(r, treatments, split, registryHash))
    && NoLeak(rows, treatments) && AllComplete(Chosen(rows, treatments, split), treatments)
  }

  ghost predicate AllComplete(chosen: seq<Row>, treatments: seq<Treatment>) {
    forall task :: TaskListed(chosen, task) ==> CompleteTask(chosen, treatments, task)
  }

  // ---- Grouping ----

  type Groups = map<(string, string), seq<Row>>

  function Held(groups: Groups, task: string, bundle: string): seq<Row> {
    if (task, bundle) in groups then groups[(task, bundle)] else []
  }

  function Put(groups: Groups, task: string, row: Row): Groups {
    groups[(task, row.bundleId) := Held(groups, task, row.bundleId) + [row]]
  }

  ghost predicate Grouped(groups: Groups, chosen: seq<Row>) {
    forall task, bundle :: Held(groups, task, bundle) == CellOf(chosen, task, bundle)
  }

  ghost predicate Listed(tasks: seq<string>, chosen: seq<Row>) {
    Unique(tasks) && forall task :: task in tasks <==> TaskListed(chosen, task)
  }

  lemma GroupsGrow(groups: Groups, chosen: seq<Row>, row: Row, task: string)
    requires Grouped(groups, chosen) && row.taskId == Some(task)
    ensures Grouped(Put(groups, task, row), chosen + [row])
  {
    hide CellOf, Held, Put;
    forall t, bundle ensures Held(Put(groups, task, row), t, bundle) == CellOf(chosen + [row], t, bundle) {
      PutHolds(groups, task, row, t, bundle);
      CellGrows(chosen, row, t, bundle);
      assert Held(groups, t, bundle) == CellOf(chosen, t, bundle);
    }
  }

  lemma PutHolds(groups: Groups, task: string, row: Row, t: string, bundle: string)
    ensures Held(Put(groups, task, row), t, bundle)
         == if t == task && bundle == row.bundleId then Held(groups, t, bundle) + [row] else Held(groups, t, bundle)
  {}

  lemma CellGrows(chosen: seq<Row>, row: Row, t: string, bundle: string)
    ensures CellOf(chosen + [row], t, bundle)
         == if InCell(row, t, bundle) then CellOf(chosen, t, bundle) + [row] else CellOf(chosen, t, bundle)
  {
    assert (chosen + [row])[..|chosen|] == chosen;
  }

  lemma ListGrows(tasks: seq<string>, chosen: seq<Row>, row: Row, task: string)
    requires Listed(tasks, chosen) && row.taskId == Some(task)
    ensures Listed(if task in tasks then tasks else tasks + [task], chosen + [row])
  {
    forall t ensures TaskListed(chosen + [row], t) <==> t == task || TaskListed(chosen, t) {
      assert row in chosen + [row];
    }
  }

  method GroupRows(rows: seq<Row>, treatments: seq<Treatment>, split: Split, registryHash: string)
    returns (ok: bool, groups: Groups, tasks: seq<string>, splits: map<string, set<Split>>)
    ensures ok <==> forall r <- rows :: RowAdmissible(r, treatments, split, registryHash)
    ensures ok ==> Grouped(groups, Chosen(rows, treatments, split)) && Listed(tasks, Chosen(rows, treatments, split))
    ensures ok ==> SplitsSeen(splits, rows, treatments)
  {
    hide Grouped, Listed, RowValid, Tampered, TreatmentOf, SplitsSeen, Put, Chosen;
    groups, tasks, splits := map[], [], map[];
    NoGroups(treatments);
    for i := 0 to |rows|
      invariant forall r <- rows[..i] :: RowAdmissible(r, treatments, split, registryHash)
      invariant Grouped(groups, Chosen(rows[..i], treatments, split))
      invariant Listed(tasks, Chosen(rows[..i], treatments, split))
      invariant SplitsSeen(splits, rows[..i], treatments)
    {
      var row := rows[i];
      assert row in rows && rows[..i + 1] == rows[..i] + [row];
      SplitsGrow(splits, rows[..i], treatments, row);
      ChosenStep(rows, treatments, split, i);
      if row.taskId.None? {
        continue;
      }
      var task, treatment := row.taskId.value, TreatmentOf(row, treatments);
      if treatment.None? {
        if Tampered(row, treatments) {
          return false, groups, tasks, splits;
        }
        continue;
      }
      if row.split.None? {
        return false, groups, tasks, splits;
      }
      splits := splits[task := Seen(splits, task) + {row.split.value}];
      if row.split.value != split {
        continue;
      }
      if !RowValid(row, treatment.value, registryHash) {
        return false, groups, tasks, splits;
      }
      GroupsGrow(groups, Chosen(rows[..i], treatments, split), row, task);
      ListGrows(tasks, Chosen(rows[..i], treatments, split), row, task);
      groups := Put(groups, task, row);
      tasks := if task in tasks then tasks else tasks + [task];
    }
    assert rows[..|rows|] == rows;
    ok := true;
  }

  lemma NoGroups(treatments: seq<Treatment>)
    ensures Grouped(map[], []) && Listed([], []) && SplitsSeen(map[], [], treatments)
    ensures forall split :: Chosen([], treatments, split) == []
  {}

  function Seen(splits: map<string, set<Split>>, task: string): set<Split> {
    if task in splits then splits[task] else {}
  }

  ghost predicate SeenIn(rows: seq<Row>, treatments: seq<Treatment>, task: string, s: Split) {
    exists r <- rows :: Candidate(r, treatments) && r.taskId == Some(task) && r.split == Some(s)
  }

  /** The splits in which each candidate task was seen. */
  ghost predicate SplitsSeen(splits: map<string, set<Split>>, rows: seq<Row>, treatments: seq<Treatment>) {
    forall task, s :: s in Seen(splits, task) <==> SeenIn(rows, treatments, task, s)
  }

  lemma SeenInOneMore(rows: seq<Row>, treatments: seq<Treatment>, row: Row, task: string, s: Split)
    ensures SeenIn(rows + [row], treatments, task, s)
      <==> (SeenIn(rows, treatments, task, s)
            || (Candidate(row, treatments) && row.taskId == Some(task) && row.split == Some(s)))
  {
    hide Candidate;
    assert row in rows + [row];
  }

  lemma SplitsGrow(splits: map<string, set<Split>>, rows: seq<Row>, treatments: seq<Treatment>, row: Row)
    requires SplitsSeen(splits, rows, treatments)
    ensures !(Candidate(row, treatments) && row.split.Some?) ==> SplitsSeen(splits, rows + [row], treatments)
    ensures Candidate(row, treatments) && row.split.Some? ==>
      var task := row.taskId.value;
      SplitsSeen(splits[task := Seen(splits, task) + {row.split.value}], rows + [row], treatments)
  {
    CandidateHasTask(row, treatments);
    hide Candidate, SeenIn;
    forall task, s
      ensures SeenIn(rows + [row], treatments, task, s)
        <==> (SeenIn(rows, treatments, task, s)
            || (Candidate(row, treatments) && row.taskId == Some(task) && row.split == Some(s)))
    {
      SeenInOneMore(rows, treatments, row, task, s);
    }
    if Candidate(row, treatments) && row.split.Some? {
      var task := row.taskId.value;
      var next := splits[task := Seen(splits, task) + {row.split.value}];
      forall t, s ensures s in Seen(next, t) <==> SeenIn(rows + [row], treatments, t, s) {
        assert s in Seen(splits, t) <==> SeenIn(rows, treatments, t, s);
      }
    }
  }

  lemma LeakedMeansTwoSplits(splits: map<string, set<Split>>, rows: seq<Row>, treatments: seq<Treatment>)
    requires SplitsSeen(splits, rows, treatments)
    requires forall r <- rows :: Candidate(r, treatments) ==> r.split.Some?
    ensures NoLeak(rows, treatments) <==> forall task <- splits :: |splits[task]| <= 1
  {
    hide Candidate;
    if NoLeak(rows, treatments) {
      forall task <- splits ensures |splits[task]| <= 1 {
        if s :| s in Seen(splits, task) {
          forall t <- Seen(splits, task) ensures t == s {
            assert SeenIn(rows, treatments, task, s) && SeenIn(rows, treatments, task, t);
          }
          assert splits[task] == {s};
        } else {
          assert Seen(splits, task) == {};
        }
      }
    } else {
      var a, b :| a in rows && b in rows && Candidate(a, treatments) && Candidate(b, treatments)
        && a.taskId == b.taskId && a.split != b.split;
      CandidateHasTask(a, treatments);
      var task := a.taskId.value;
      assert SeenIn(rows, treatments, task, a.split.value) && SeenIn(rows, treatments, task, b.split.value);
      TwoMembers(Seen(splits, task), a.split.value, b.split.value);
    }
  }

  lemma CandidateHasTask(row: Row, treatments: seq<Treatment>)
    ensures Candidate(row, treatments) ==> row.taskId.Some?
  {}

  lemma TwoMembers<T>(s: set<T>, a: T, b: T)
    requires a in s && b in s && a != b
    ensures |s| > 1
  {
    assert s == {a} + (s - {a});
    assert b in s - {a};
  }

  // ---- One panel per task ----

  function Side(groups: Groups, task: string, t: Treatment): Option<string> {
    var cell := Held(groups, task, t.bundleId);
    if cell == [] then None else TaskSide(cell[0])
  }

  lemma OneInput(groups: Groups, treatments: seq<Treatment>, task: string)
    ensures var inputs := set k | 0 <= k < |treatments| :: Side(groups, task, treatments[k]);
      |inputs| <= 1
      <==> forall s, t :: s in treatments && t in treatments ==> Side(groups, task, s) == Side(groups, task, t)
  {
    hide Side;
    var inputs := set k | 0 <= k < |treatments| :: Side(groups, task, treatments[k]);
    forall t <- treatments ensures Side(groups, task, t) in inputs {
      var k :| 0 <= k < |treatments| && treatments[k] == t;
    }
    if s, t :| s in treatments && t in treatments && Side(groups, task, s) != Side(groups, task, t) {
      TwoMembers(inputs, Side(groups, task, s), Side(groups, task, t));
    } else if inputs != {} {
      assert inputs == {Side(groups, task, treatments[0])};
    }
  }

  method BuildPanel(groups: Groups, treatments: seq<Treatment>, task: string, ghost chosen: seq<Row>)
    returns (panel: Option<Panel>)
    requires Grouped(groups, chosen)
    ensures panel.Some? <==> CompleteTask(chosen, treatments, task)
    ensures panel.Some? ==> PanelOf(panel.value, chosen, treatments, task)
  {
    var rows, inputs := CollectCells(groups, treatments, task);
    hide *;
    CompleteInGroups(groups, treatments, task, chosen);
    OneInput(groups, treatments, task);
    if rows.None? || |inputs| > 1 {
      return None;
    }
    PanelInGroups(Panel(task, rows.value), groups, treatments, task, chosen);
    return Some(Panel(task, rows.value));
  }

  ghost predicate Cells(rows: map<string, Row>, groups: Groups, treatments: seq<Treatment>, task: string, n: nat)
    requires n <= |treatments|
  {
    && rows.Keys == (set k | 0 <= k < n :: treatments[k].bundleId)
    && forall k :: 0 <= k < n ==> var b := treatments[k].bundleId; b in rows && Held(groups, task, b) == [rows[b]]
  }

  method CollectCells(groups: Groups, treatments: seq<Treatment>, task: string)
    returns (rows: Option<map<string, Row>>, inputs: set<Option<string>>)
    ensures rows.Some? <==> forall k :: 0 <= k < |treatments| ==> |Held(groups, task, treatments[k].bundleId)| == 1
    ensures rows.Some? ==> Cells(rows.value, groups, treatments, task, |treatments|)
    ensures rows.Some? ==> inputs == set k | 0 <= k < |treatments| :: Side(groups, task, treatments[k])
  {
    hide Held;
    var cells: map<string, Row> := map[];
    inputs := {};
    for i := 0 to |treatments|
      invariant forall k :: 0 <= k < i ==> |Held(groups, task, treatments[k].bundleId)| == 1
      invariant Cells(cells, groups, treatments, task, i)
      invariant inputs == set k | 0 <= k < i :: Side(groups, task, treatments[k])
    {
      var b := treatments[i].bundleId;
      var cell := Held(groups, task, b);
      if |cell| != 1 {
        return None, inputs;
      }
      assert cell == [cell[0]];
      cells := cells[b := cell[0]];
      inputs := inputs + {TaskSide(cell[0])};
    }
    return Some(cells), inputs;
  }

  lemma CompleteInGroups(groups: Groups, treatments: seq<Treatment>, task: string, chosen: seq<Row>)
    requires Grouped(groups, chosen)
    ensures CompleteTask(chosen, treatments, task)
      <==> (forall k :: 0 <= k < |treatments| ==> |Held(groups, task, treatments[k].bundleId)| == 1)
           && forall s, t :: s in treatments && t in treatments ==> Side(groups, task, s) == Side(groups, task, t)
  {
    hide Held, CellOf, TaskSide;
    if CompleteTask(chosen, treatments, task) {
      forall k | 0 <= k < |treatments| ensures |Held(groups, task, treatments[k].bundleId)| == 1 {
        assert treatments[k] in treatments;
      }
    }
    if forall k :: 0 <= k < |treatments| ==> |Held(groups, task, treatments[k].bundleId)| == 1 {
      forall t <- treatments ensures |CellOf(chosen, task, t.bundleId)| == 1 {
        var k :| 0 <= k < |treatments| && treatments[k] == t;
        assert |Held(groups, task, treatments[k].bundleId)| == 1;
      }
    }
  }

  lemma PanelInGroups(p: Panel, groups: Groups, treatments: seq<Treatment>, task: string, chosen: seq<Row>)
    requires Grouped(groups, chosen) && p.taskId == task && Cells(p.rows, groups, treatments, task, |treatments|)
    ensures PanelOf(p, chosen, treatments, task)
  {
    hide Held, CellOf;
  }

  ghost predicate PanelOf(p: Panel, chosen: seq<Row>, treatments: seq<Treatment>, task: string) {
    && p.taskId == task
    && p.rows.Keys == (set k | 0 <= k < |treatments| :: treatments[k].bundleId)
    && forall k :: 0 <= k < |treatments| ==>
         var b := treatments[k].bundleId; b in p.rows && CellOf(chosen, task, b) == [p.rows[b]]
  }

  // ---- The whole build ----

  ghost predicate PanelsOf(panels: seq<Panel>, chosen: seq<Row>, treatments: seq<Treatment>, tasks: seq<string>) {
    |panels| == |tasks| && forall k :: 0 <= k < |tasks| ==> PanelOf(panels[k], chosen, treatments, tasks[k])
  }

  /** Main result: panels exist exactly when every row is admissible, no task leaks between splits
      and every task is complete; there is one panel per task, in ascending order of task id. */
  method BuildTreatmentPanels(rows: seq<Row>, split: Split, treatments: seq<Treatment>, registryHash: string)
    returns (result: Result<seq<Panel>>)
    ensures result.Ok? <==> Buildable(rows, treatments, split, registryHash)
    ensures result.Ok? ==>
      exists tasks ::
        && Listed(tasks, Chosen(rows, treatments, split)) && Sorted(StringLe, tasks)
        && PanelsOf(result.value, Chosen(rows, treatments, split), treatments, tasks)
  {
    hide Grouped, Listed, Chosen, CompleteTask, SplitsSeen, PanelsOf, TaskListed, Sort, Sorted;
    hide RowAdmissible, Candidate, DistinctIdentities;
    if treatments == [] {
      return Err("at least one treatment is required");
    }
    IdentityCount(treatments);
    if |set t | t in treatments :: (t.id, t.version)| != |treatments| {
      return Err("candidate treatments must have unique id/version pairs");
    }
    var ok, groups, tasks, splits := GroupRows(rows, treatments, split, registryHash);
    if !ok {
      return Err("invalid candidate row");
    }
    ghost var chosen := Chosen(rows, treatments, split);
    CandidatesHaveSplits(rows, treatments, split, registryHash);
    LeakedMeansTwoSplits(splits, rows, treatments);
    if exists task <- splits :: |splits[task]| > 1 {
      return Err("candidate task ids occur in multiple splits");
    }
    var ordered := Sort(StringLe, tasks);
    SortedList(tasks, chosen);
    var panels := AssemblePanels(groups, treatments, ordered, chosen);
    if panels.None? {
      return Err("incomplete, duplicated or inconsistent treatment panel");
    }
    return Ok(panels.value);
  }

  lemma CandidatesHaveSplits(rows: seq<Row>, treatments: seq<Treatment>, split: Split, registryHash: string)
    requires forall r <- rows :: RowAdmissible(r, treatments, split, registryHash)
    ensures forall r <- rows :: Candidate(r, treatments) ==> r.split.Some?
  {
    hide TreatmentOf, Tampered, RowValid;
  }

  method AssemblePanels(groups: Groups, treatments: seq<Treatment>, ordered: seq<string>, ghost chosen: seq<Row>)
    returns (result: Option<seq<Panel>>)
    requires Grouped(groups, chosen) && Listed(ordered, chosen)
    ensures result.Some? <==> AllComplete(chosen, treatments)
    ensures result.Some? ==> PanelsOf(result.value, chosen, treatments, ordered)
  {
    hide Grouped, CompleteTask, PanelOf, TaskListed;
    var panels: seq<Panel> := [];
    for k := 0 to |ordered|
      invariant |panels| == k
      invariant forall j :: 0 <= j < k ==> PanelOf(panels[j], chosen, treatments, ordered[j])
      invariant forall j :: 0 <= j < k ==> CompleteTask(chosen, treatments, ordered[j])
    {
      var panel := BuildPanel(groups, treatments, ordered[k], chosen);
      if panel.None? {
        assert ordered[k] in ordered;
        return None;
      }
      panels := panels + [panel.value];
    }
    return Some(panels);
  }

  lemma SortedList(tasks: seq<string>, chosen: seq<Row>)
    requires Listed(tasks, chosen)
    ensures Listed(Sort(StringLe, tasks), chosen) && Sorted(StringLe, Sort(StringLe, tasks))
  {
    StringOrder();
    SortSorts(StringLe, tasks);
    PermutationKeepsUnique(tasks, Sort(StringLe, tasks));
  }

  lemma IdentityCount(treatments: seq<Treatment>)
    ensures |set t | t in treatments :: (t.id, t.version)| == |treatments| <==> DistinctIdentities(treatments)
  {
    var ids := seq(|treatments|, i requires 0 <= i < |treatments| => (treatments[i].id, treatments[i].version));
    DistinctCount(ids);
    assert forall i :: 0 <= i < |ids| ==> ids[i] == (treatments[i].id, treatments[i].version);
    assert (set t | t in treatments :: (t.id, t.version)) == (set x | x in ids) by {
      forall t <- treatments ensures (t.id, t.version) in ids {
        var i :| 0 <= i < |treatments| && treatments[i] == t;
        assert ids[i] == (t.id, t.version);
      }
    }
    assert Unique(ids) <==> DistinctIdentities(treatments);
  }

  // ---- Counting the cells ----

  function InTask(rows: seq<Row>, task: string): nat {
    if rows == [] then 0
    else InTask(rows[..|rows| - 1], task) + if rows[|rows| - 1].taskId == Some(task) then 1 else 0
  }

  function OverBundles(rows: seq<Row>, task: string, bundles: seq<string>): nat {
    if bundles == [] then 0
    else OverBundles(rows, task, bundles[..|bundles| - 1]) + |CellOf(rows, task, bundles[|bundles| - 1])|
  }

  function OverTasks(rows: seq<Row>, tasks: seq<string>): nat {
    if tasks == [] then 0 else OverTasks(rows, tasks[..|tasks| - 1]) + InTask(rows, tasks[|tasks| - 1])
  }

  /** One more row adds one to the cells of its own task, through exactly one bundle. */
  lemma {:induction false} BundleStep(rows: seq<Row>, row: Row, task: string, bundles: seq<string>)
    requires Unique(bundles)
    ensures OverBundles(rows + [row], task, bundles)
         == OverBundles(rows, task, bundles) + if row.taskId == Some(task) && row.bundleId in bundles then 1 else 0
  {
    assert (rows + [row])[..|rows|] == rows;
    if bundles != [] {
      var n := |bundles| - 1;
      BundleStep(rows, row, task, bundles[..n]);
      assert bundles == bundles[..n] + [bundles[n]];
      assert bundles[n] !in bundles[..n];
    }
  }

  lemma {:induction false} TaskStep(rows: seq<Row>, row: Row, tasks: seq<string>)
    requires Unique(tasks)
    ensures OverTasks(rows + [row], tasks)
         == OverTasks(rows, tasks) + if row.taskId.Some? && row.taskId.value in tasks then 1 else 0
  {
    assert (rows + [row])[..|rows|] == rows;
    if tasks != [] {
      var n := |tasks| - 1;
      TaskStep(rows, row, tasks[..n]);
      assert tasks == tasks[..n] + [tasks[n]];
      assert tasks[n] !in tasks[..n];
    }
  }

  lemma {:induction false} TaskTotal(rows: seq<Row>, task: string, bundles: seq<string>)
    requires Unique(bundles) && forall r <- rows :: r.bundleId in bundles
    ensures OverBundles(rows, task, bundles) == InTask(rows, task)
  {
    if rows == [] {
      NoCells(task, bundles);
    } else {
      var n := |rows| - 1;
      TaskTotal(rows[..n], task, bundles);
      assert rows == rows[..n] + [rows[n]];
      BundleStep(rows[..n], rows[n], task, bundles);
    }
  }

  lemma {:induction false} NoCells(task: string, bundles: seq<string>)
    ensures OverBundles([], task, bundles) == 0
  {
    if bundles != [] {
      NoCells(task, bundles[..|bundles| - 1]);
    }
  }

  lemma {:induction false} NoTasks(tasks: seq<string>)
    ensures OverTasks([], tasks) == 0
  {
    if tasks != [] {
      NoTasks(tasks[..|tasks| - 1]);
    }
  }

  lemma {:induction false} RowTotal(rows: seq<Row>, tasks: seq<string>)
    requires Unique(tasks) && forall r <- rows :: r.taskId.Some? && r.taskId.value in tasks
    ensures OverTasks(rows, tasks) == |rows|
  {
    if rows == [] {
      NoTasks(tasks);
    } else {
      var n := |rows| - 1;
      RowTotal(rows[..n], tasks);
      assert rows == rows[..n] + [rows[n]];
      TaskStep(rows[..n], rows[n], tasks);
    }
  }

  lemma {:induction false} FullTask(rows: seq<Row>, task: string, bundles: seq<string>)
    requires forall b <- bundles :: |CellOf(rows, task, b)| == 1
    ensures OverBundles(rows, task, bundles) == |bundles|
  {
    if bundles != [] {
      assert bundles[|bundles| - 1] in bundles;
      FullTask(rows, task, bundles[..|bundles| - 1]);
    }
  }

  lemma {:induction false} FullTasks(rows: seq<Row>, tasks: seq<string>, k: nat)
    requires forall task <- tasks :: InTask(rows, task) == k
    ensures OverTasks(rows, tasks) == |tasks| * k
  {
    if tasks != [] {
      var n := |tasks| - 1;
      assert tasks[n] in tasks;
      FullTasks(rows, tasks[..n], k);
      assert |tasks| * k == n * k + k;
    }
  }

  /** The distinct bundle ids of the candidates, each once. */
  ghost predicate Bundles(bundles: seq<string>, treatments: seq<Treatment>) {
    Unique(bundles) && forall b :: b in bundles <==> b in BundleIds(treatments)
  }

  /** Main result: panels times distinct bundles is the number of candidate rows of the split, so every
      such row is used and no cell is missing or doubled. */
  lemma PanelsTimesCandidates(rows: seq<Row>, split: Split, treatments: seq<Treatment>, registryHash: string,
                              tasks: seq<string>, bundles: seq<string>)
    requires Buildable(rows, treatments, split, registryHash)
    requires Listed(tasks, Chosen(rows, treatments, split)) && Bundles(bundles, treatments)
    ensures |Chosen(rows, treatments, split)| == |tasks| * |bundles|
  {
    var chosen := Chosen(rows, treatments, split);
    ChosenAre(rows, treatments, split);
    forall r <- chosen ensures r.taskId.Some? && r.taskId.value in tasks && r.bundleId in bundles {
      assert RowAdmissible(r, treatments, split, registryHash);
      assert TaskListed(chosen, r.taskId.value);
      TreatmentOfIsOne(r, treatments);
      BundleListed(treatments, TreatmentOf(r, treatments).value);
    }
    hide Chosen, CompleteTask, CellOf, TaskListed, NoLeak, RowAdmissible, BundleIds;
    RowTotal(chosen, tasks);
    forall task <- tasks ensures InTask(chosen, task) == |bundles| {
      TaskTotal(chosen, task, bundles);
      CompleteCells(chosen, treatments, task);
      FullTask(chosen, task, bundles);
    }
    FullTasks(chosen, tasks, |bundles|);
  }

  lemma BundleListed(treatments: seq<Treatment>, t: Treatment)
    requires t in treatments
    ensures t.bundleId in BundleIds(treatments)
  {
    var i :| 0 <= i < |treatments| && treatments[i] == t;
    assert BundleIds(treatments)[i] == t.bundleId;
  }

  lemma CompleteCells(chosen: seq<Row>, treatments: seq<Treatment>, task: string)
    requires CompleteTask(chosen, treatments, task)
    ensures forall b <- BundleIds(treatments) :: |CellOf(chosen, task, b)| == 1
  {
    forall b <- BundleIds(treatments) ensures |CellOf(chosen, task, b)| == 1 {
      var i :| 0 <= i < |treatments| && BundleIds(treatments)[i] == b;
      assert treatments[i] in treatments;
    }
  }
}
