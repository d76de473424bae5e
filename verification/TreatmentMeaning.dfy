/** When treatment panels are built and what they hold, read off the dataset rows and the menu. */
module TreatmentMeaning {
  import opened Common
  import opened TreatmentPanels

  /** The row was made under this treatment's identity. */
  ghost predicate Names(r: Row, t: Treatment) {
    r.id == t.id && r.version == t.version
  }

  /** The row is the exact registered bundle. */
  ghost predicate Registered(r: Row, t: Treatment, registryHash: string) {
    && r.bundleId == t.bundleId && r.bundleHash == t.bundleHash && r.registryHash == registryHash
    && r.model.Some?
    && r.model.value.id == t.id && r.model.value.version == t.version && r.model.value.descriptor == t.descriptor
  }

  ghost predicate NamesAny(r: Row, treatments: seq<Treatment>) {
    exists t <- treatments :: Names(r, t)
  }

  /** Row i stands in the cell of this task and bundle: a candidate row of the split. */
  ghost predicate InPanel(rows: seq<Row>, treatments: seq<Treatment>, split: Split, task: string, bundle: string,
                          i: nat): (stands: bool)
    ensures stands ==> i < |rows|
  {
    && i < |rows| && rows[i].taskId == Some(task) && rows[i].split == Some(split) && rows[i].bundleId == bundle
    && NamesAny(rows[i], treatments)
  }

  /** What each row of a task has to be: the registered bundle of the treatment it names, or no trace of any. */
  ghost predicate RowSound(r: Row, treatments: seq<Treatment>, split: Split, registryHash: string) {
    if NamesAny(r, treatments) then
      && r.split.Some?
      && (r.split == Some(split) ==> forall t <- treatments :: Names(r, t) ==> Registered(r, t, registryHash))
    else forall t <- treatments :: r.bundleId != t.bundleId && r.bundleHash != t.bundleHash
  }

  ghost predicate OneRow(rows: seq<Row>, treatments: seq<Treatment>, split: Split, task: string, bundle: string) {
    exists i: nat ::
      && InPanel(rows, treatments, split, task, bundle, i)
      && forall j: nat :: InPanel(rows, treatments, split, task, bundle, j) ==> j == i
  }

  ghost predicate OneInputOnly(rows: seq<Row>, treatments: seq<Treatment>, split: Split, task: string) {
    forall s, t, i: nat, j: nat ::
      (s in treatments && t in treatments && InPanel(rows, treatments, split, task, s.bundleId, i)
       && InPanel(rows, treatments, split, task, t.bundleId, j)) ==>
        SameInput(rows[i], rows[j])
  }

  ghost predicate SameInput(a: Row, b: Row) {
    && (a.model.Some? <==> b.model.Some?)
    && (a.model.Some? && b.model.Some? ==> a.model.value.task == b.model.value.task)
  }

  lemma SameInputMeans(a: Row, b: Row)
    ensures TaskSide(a) == TaskSide(b) <==> SameInput(a, b)
  {}

  lemma {:induction false} TreatmentOfMeans(row: Row, treatments: seq<Treatment>)
    ensures var t := TreatmentOf(row, treatments);
      && (t.Some? <==> NamesAny(row, treatments)) && (t.Some? ==> t.value in treatments && Names(row, t.value))
    ensures DistinctIdentities(treatments) ==>
      forall t <- treatments :: Names(row, t) ==> TreatmentOf(row, treatments) == Some(t)
  {
    if treatments != [] {
      var n := |treatments| - 1;
      TreatmentOfMeans(row, treatments[..n]);
      assert treatments == treatments[..n] + [treatments[n]];
      assert NamesAny(row, treatments) <==> NamesAny(row, treatments[..n]) || Names(row, treatments[n]);
      if DistinctIdentities(treatments) {
        assert forall i, j :: 0 <= i < j < n ==>
          (treatments[..n][i].id, treatments[..n][i].version) != (treatments[..n][j].id, treatments[..n][j].version);
      }
    }
  }

  lemma RowSoundMeans(r: Row, treatments: seq<Treatment>, split: Split, registryHash: string)
    requires DistinctIdentities(treatments)
    ensures RowAdmissible(r, treatments, split, registryHash)
      <==> (r.taskId.Some? ==> RowSound(r, treatments, split, registryHash))
  {
    TreatmentOfMeans(r, treatments);
    hide TreatmentOf, DistinctIdentities, Names;
  }

  lemma SelectedMeans(rows: seq<Row>, treatments: seq<Treatment>, split: Split, task: string, bundle: string, i: nat)
    requires i < |rows|
    ensures InPanel(rows, treatments, split, task, bundle, i)
      <==> Selected(rows[i], treatments, split) && InCell(rows[i], task, bundle)
  {
    TreatmentOfMeans(rows[i], treatments);
    hide TreatmentOf, NamesAny, DistinctIdentities;
  }

  // ---- The cells, by position ----

  ghost predicate CellAt(cell: seq<Row>, rows: seq<Row>, treatments: seq<Treatment>, split: Split, task: string,
                         bundle: string, at: seq<nat>)
  {
    && |at| == |cell| && (forall p, q :: 0 <= p < q < |at| ==> at[p] < at[q])
    && (forall p :: 0 <= p < |at| ==> at[p] < |rows| && cell[p] == rows[at[p]])
    && (forall i: nat :: i in at <==> InPanel(rows, treatments, split, task, bundle, i))
  }

  lemma MoreAt(cell: seq<Row>, rows: seq<Row>, treatments: seq<Treatment>, split: Split, task: string, bundle: string,
               at: seq<nat>)
    requires rows != [] && CellAt(cell, rows[..|rows| - 1], treatments, split, task, bundle, at)
    ensures var n := |rows| - 1;
      if InPanel(rows, treatments, split, task, bundle, n)
      then CellAt(cell + [rows[n]], rows, treatments, split, task, bundle, at + [n])
      else CellAt(cell, rows, treatments, split, task, bundle, at)
  {
    hide NamesAny;
    var n := |rows| - 1;
    forall i: nat | i < n
      ensures InPanel(rows, treatments, split, task, bundle, i)
        <==> InPanel(rows[..n], treatments, split, task, bundle, i)
    {
      assert rows[..n][i] == rows[i];
    }
    assert forall i: nat :: i in at + [n] <==> i in at || i == n;
  }

  lemma {:induction false} CellPositions(rows: seq<Row>, treatments: seq<Treatment>, split: Split, task: string,
                                         bundle: string)
    returns (at: seq<nat>)
    ensures CellAt(CellOf(Chosen(rows, treatments, split), task, bundle), rows, treatments, split, task, bundle, at)
  {
    hide CellAt, Selected, InPanel, InCell;
    if rows == [] {
      at := [];
      NothingAt(treatments, split, task, bundle);
    } else {
      var n := |rows| - 1;
      at := CellPositions(rows[..n], treatments, split, task, bundle);
      var chosen := Chosen(rows[..n], treatments, split);
      MoreAt(CellOf(chosen, task, bundle), rows, treatments, split, task, bundle, at);
      SelectedMeans(rows, treatments, split, task, bundle, n);
      CellGrows(chosen, rows[n], task, bundle);
      at := if InPanel(rows, treatments, split, task, bundle, n) then at + [n] else at;
    }
  }

  lemma NothingAt(treatments: seq<Treatment>, split: Split, task: string, bundle: string)
    ensures CellAt(CellOf([], task, bundle), [], treatments, split, task, bundle, [])
  {}

  lemma CellMeans(rows: seq<Row>, treatments: seq<Treatment>, split: Split, task: string, bundle: string)
    ensures var cell := CellOf(Chosen(rows, treatments, split), task, bundle);
      && (|cell| == 1 <==> OneRow(rows, treatments, split, task, bundle))
      && (|cell| == 1 ==> forall i: nat :: InPanel(rows, treatments, split, task, bundle, i) ==> cell[0] == rows[i])
      && (|cell| == 1 ==> exists i: nat :: InPanel(rows, treatments, split, task, bundle, i))
  {
    hide CellOf, Chosen, InPanel;
    var cell := CellOf(Chosen(rows, treatments, split), task, bundle);
    var at := CellPositions(rows, treatments, split, task, bundle);
    if |cell| == 1 {
      assert InPanel(rows, treatments, split, task, bundle, at[0]) by { assert at[0] in at; }
    }
    if OneRow(rows, treatments, split, task, bundle) {
      var i: nat :| InPanel(rows, treatments, split, task, bundle, i)
                    && forall j: nat :: InPanel(rows, treatments, split, task, bundle, j) ==> j == i;
      assert i in at;
      if |at| >= 2 {
        var a, b := TwoPositions(at);
      }
    }
  }

  lemma TwoPositions(at: seq<nat>) returns (a: nat, b: nat)
    requires |at| >= 2 && at[0] < at[1]
    ensures a in at && b in at && a < b
  {
    a, b := at[0], at[1];
  }

  lemma ListedMeans(rows: seq<Row>, treatments: seq<Treatment>, split: Split, task: string)
    ensures TaskListed(Chosen(rows, treatments, split), task)
      <==> exists i: nat, bundle :: InPanel(rows, treatments, split, task, bundle, i)
  {
    hide InPanel, Selected;
    if TaskListed(Chosen(rows, treatments, split), task) {
      var r :| r in Chosen(rows, treatments, split) && r.taskId == Some(task);
      ChosenAre(rows, treatments, split);
      var i :| 0 <= i < |rows| && rows[i] == r;
      SelectedMeans(rows, treatments, split, task, r.bundleId, i);
      assert InCell(r, task, r.bundleId);
    }
    if i: nat, bundle :| InPanel(rows, treatments, split, task, bundle, i) {
      var at := CellPositions(rows, treatments, split, task, bundle);
      AnyOfCell(Chosen(rows, treatments, split), rows, treatments, split, task, bundle, at, i);
    }
  }

  lemma {:induction false} AnyOfCell(chosen: seq<Row>, rows: seq<Row>, treatments: seq<Treatment>, split: Split,
                                     task: string, bundle: string, at: seq<nat>, i: nat)
    requires CellAt(CellOf(chosen, task, bundle), rows, treatments, split, task, bundle, at)
    requires InPanel(rows, treatments, split, task, bundle, i)
    ensures TaskListed(chosen, task)
  {
    var p :| 0 <= p < |at| && at[p] == i;
    CellInRows(chosen, task, bundle);
    assert CellOf(chosen, task, bundle)[p] in CellOf(chosen, task, bundle);
  }

  lemma {:induction false} CellInRows(rows: seq<Row>, task: string, bundle: string)
    ensures forall r <- CellOf(rows, task, bundle) :: r in rows && r.taskId == Some(task)
  {
    if rows != [] {
      CellInRows(rows[..|rows| - 1], task, bundle);
    }
  }

  // ---- The theorem ----

  ghost predicate NoTaskInTwoSplits(rows: seq<Row>, treatments: seq<Treatment>) {
    forall a, b :: a in rows && b in rows && NamesAny(a, treatments) && NamesAny(b, treatments)
      && a.taskId.Some? && a.taskId == b.taskId
      ==> a.split == b.split
  }

  lemma LeakMeans(rows: seq<Row>, treatments: seq<Treatment>)
    ensures NoLeak(rows, treatments) <==> NoTaskInTwoSplits(rows, treatments)
  {
    forall r <- rows {
      TreatmentOfMeans(r, treatments);
    }
    hide NamesAny, TreatmentOf, DistinctIdentities;
  }

  lemma CompleteMeans(rows: seq<Row>, treatments: seq<Treatment>, split: Split, task: string)
    ensures CompleteTask(Chosen(rows, treatments, split), treatments, task)
      <==> ((forall t <- treatments :: OneRow(rows, treatments, split, task, t.bundleId))
            && OneInputOnly(rows, treatments, split, task))
  {
    hide CellOf, Chosen, OneRow, InPanel, TaskSide, SameInput;
    forall t <- treatments {
      CellMeans(rows, treatments, split, task, t.bundleId);
    }
    forall a, b ensures TaskSide(a) == TaskSide(b) <==> SameInput(a, b) {
      SameInputMeans(a, b);
    }
  }

  /** Every task of the split has for every treatment one row, all with one task-side input. */
  ghost predicate EveryTaskComplete(rows: seq<Row>, treatments: seq<Treatment>, split: Split) {
    forall task, i: nat, bundle :: InPanel(rows, treatments, split, task, bundle, i) ==>
      && (forall t <- treatments :: OneRow(rows, treatments, split, task, t.bundleId))
      && OneInputOnly(rows, treatments, split, task)
  }

  lemma EveryTaskMeans(rows: seq<Row>, treatments: seq<Treatment>, split: Split, chosen: seq<Row>)
    requires chosen == Chosen(rows, treatments, split)
    ensures AllComplete(chosen, treatments) <==> EveryTaskComplete(rows, treatments, split)
  {
    hide TaskListed, CompleteTask, OneRow, OneInputOnly, InPanel;
    if AllComplete(chosen, treatments) {
      forall task, i: nat, bundle | InPanel(rows, treatments, split, task, bundle, i)
        ensures forall t <- treatments :: OneRow(rows, treatments, split, task, t.bundleId)
        ensures OneInputOnly(rows, treatments, split, task)
      {
        ListedMeans(rows, treatments, split, task);
        CompleteMeans(rows, treatments, split, task);
      }
    }
    if EveryTaskComplete(rows, treatments, split) {
      forall task | TaskListed(chosen, task) ensures CompleteTask(chosen, treatments, task) {
        ListedMeans(rows, treatments, split, task);
        CompleteMeans(rows, treatments, split, task);
      }
    }
  }

  /** Main result: panels are built exactly if the menu is not empty and its identities are distinct, every row of
      a task is the registered bundle of what it names or bears no candidate's marker, no task is in two splits,
      and every task of the split is complete. */
  lemma BuildableMeans(rows: seq<Row>, treatments: seq<Treatment>, split: Split, registryHash: string)
    ensures Buildable(rows, treatments, split, registryHash) <==>
      (&& treatments != []
       && (forall i, j :: 0 <= i < j < |treatments| ==>
             treatments[i].id != treatments[j].id || treatments[i].version != treatments[j].version)
       && (forall r <- rows :: r.taskId.Some? ==> RowSound(r, treatments, split, registryHash))
       && NoTaskInTwoSplits(rows, treatments)
       && EveryTaskComplete(rows, treatments, split))
  {
    hide RowAdmissible, RowSound, NoLeak, NoTaskInTwoSplits, AllComplete, EveryTaskComplete;
    if DistinctIdentities(treatments) {
      forall r <- rows {
        RowSoundMeans(r, treatments, split, registryHash);
      }
    }
    LeakMeans(rows, treatments);
    EveryTaskMeans(rows, treatments, split, Chosen(rows, treatments, split));
  }

  /** And what the panels hold: one panel for every task that has a candidate row in the split, under every
      treatment's bundle the one row that stands there. */
  lemma PanelsHoldTheRows(panels: seq<Panel>, rows: seq<Row>, treatments: seq<Treatment>, split: Split,
                          tasks: seq<string>)
    requires Listed(tasks, Chosen(rows, treatments, split))
    requires PanelsOf(panels, Chosen(rows, treatments, split), treatments, tasks)
    ensures forall task ::
      task in tasks <==> exists i: nat, bundle :: InPanel(rows, treatments, split, task, bundle, i)
    ensures |panels| == |tasks|
    ensures forall k :: 0 <= k < |panels| ==>
      && panels[k].taskId == tasks[k]
      && (forall bundle :: bundle in panels[k].rows <==> exists t <- treatments :: t.bundleId == bundle)
      && forall t <- treatments ::
           && t.bundleId in panels[k].rows
           && exists i: nat ::
                InPanel(rows, treatments, split, tasks[k], t.bundleId, i) && panels[k].rows[t.bundleId] == rows[i]
  {
    hide CellOf, Chosen, InPanel, TaskListed, PanelOf;
    forall task
      ensures task in tasks <==> exists i: nat, bundle :: InPanel(rows, treatments, split, task, bundle, i)
    {
      ListedMeans(rows, treatments, split, task);
    }
    forall k | 0 <= k < |panels|
      ensures panels[k].taskId == tasks[k]
      ensures forall bundle :: bundle in panels[k].rows <==> exists t <- treatments :: t.bundleId == bundle
      ensures forall t <- treatments ::
        && t.bundleId in panels[k].rows
        && exists i: nat ::
             InPanel(rows, treatments, split, tasks[k], t.bundleId, i) && panels[k].rows[t.bundleId] == rows[i]
    {
      PanelHolds(panels[k], rows, treatments, split, tasks[k]);
    }
  }

  lemma PanelHolds(p: Panel, rows: seq<Row>, treatments: seq<Treatment>, split: Split, task: string)
    requires PanelOf(p, Chosen(rows, treatments, split), treatments, task)
    ensures p.taskId == task
    ensures forall bundle :: bundle in p.rows <==> exists t <- treatments :: t.bundleId == bundle
    ensures forall t <- treatments ::
      && t.bundleId in p.rows
      && exists i: nat :: InPanel(rows, treatments, split, task, t.bundleId, i) && p.rows[t.bundleId] == rows[i]
  {
    hide CellOf, Chosen, InPanel;
    forall t <- treatments
      ensures t.bundleId in p.rows
      ensures exists i: nat :: InPanel(rows, treatments, split, task, t.bundleId, i) && p.rows[t.bundleId] == rows[i]
    {
      var k :| 0 <= k < |treatments| && treatments[k] == t;
      assert CellOf(Chosen(rows, treatments, split), task, t.bundleId) == [p.rows[t.bundleId]];
      CellMeans(rows, treatments, split, task, t.bundleId);
    }
  }
}
