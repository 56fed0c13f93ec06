/** Renaming in one go, without a log: everything is checked and pinned first, and any
    failure is undone. */
module RenameExecute {
  import opened BatchRename
  import opened RenameJournal
  import opened RenameSafety
  import opened RenamePhases
  import opened RenameRecovery
  import opened RenameFolder

  /** `complete`: the renaming happened. `restored`: it did not, and no name changed. */
  datatype Outcome = Outcome(complete: bool, restored: bool, folder: Folder)

  predicate SomeoneHas(folder: Folder, name: Name) {
    exists id <- folder :: folder[id].folded == name.folded
  }

  predicate AmongSources(rows: seq<Row>, n: nat, name: Name)
    requires n <= |rows|
  {
    exists j :: 0 <= j < n && rows[j].source.folded == name.folded
  }

  predicate AmongTargets(rows: seq<Row>, n: nat, name: Name)
    requires n <= |rows|
  {
    exists j :: 0 <= j < n && rows[j].target.folded == name.folded
  }

  /** Row by row: no known error, no repeated name, and the file can be pinned at its source. */
  function Screen(rows: seq<Row>, flagged: set<nat>, t: Task, i: nat): (s: Step)
    requires i <= |rows|
    decreases |rows| - i
  {
    if i == |rows| then Step(Done, t)
    else if i in flagged || AmongSources(rows, i, rows[i].source) || AmongTargets(rows, i, rows[i].target) then Step(Failed, t)
    else
      var t1 :- Check(t);
      if rows[i].id in t.vault.folder && t.vault.folder[rows[i].id] == rows[i].source then Screen(rows, flagged, t1, i + 1)
      else Step(Failed, t1)
  }

  /** A target that is nobody's source has to be free. */
  predicate Vacant(rows: seq<Row>, folder: Folder) {
    forall i :: 0 <= i < |rows| ==> AmongSources(rows, |rows|, rows[i].target) || !SomeoneHas(folder, rows[i].target)
  }

  function Direct(rows: seq<Row>, redirected: bool): Plan {
    Plan(rows, redirected, false)
  }

  function Begun(rows: seq<Row>, folder: Folder, script: seq<Event>): (t: Task)
    ensures |t.current| == |rows|
  {
    Started(Direct(rows, false), Vault(folder, [], true), script)
  }

  function Execute(rows: seq<Row>, flagged: set<nat>, redirected: bool, folder: Folder, script: seq<Event>): Outcome {
    var s := Screen(rows, flagged, Begun(rows, folder, script), 0);
    if rows == [] || !s.end.Done? || !Vacant(rows, folder) then Outcome(false, true, folder)
    else Carried(rows, redirected, Begun(rows, folder, s.task.script))
  }

  /** The two phases and, after a failure, the retreat. */
  function Carried(rows: seq<Row>, redirected: bool, t: Task): Outcome
    requires |t.current| == |rows|
  {
    var plan := Direct(rows, redirected);
    var s := BothPhases(plan, t, false);
    if s.end.Done? then Outcome(true, false, s.task.vault.folder)
    else if s.end.Cut? then Outcome(false, false, s.task.vault.folder)
    else
      var (ok, r) := Retreat(plan, s.task);
      Outcome(false, ok, r.task.vault.folder)
  }

  // ------------------------------------------------------------------ meaning

  /** All rows at once. */
  ghost predicate RenamedAtOnce(rows: seq<Row>, folder: Folder, folder': Folder) {
    && folder'.Keys == folder.Keys
    && (forall i :: 0 <= i < |rows| ==> rows[i].id in folder' && folder'[rows[i].id] == rows[i].target)
    && (forall id :: id in folder && !OfRow(rows, id) ==> folder'[id] == folder[id])
  }

  /** No other file has the new name of a row. */
  ghost predicate TargetsFree(rows: seq<Row>, folder: Folder) {
    forall i, id :: 0 <= i < |rows| && id in folder && !OfRow(rows, id) ==> folder[id].folded != rows[i].target.folded
  }

  /** What makes a request carriable, independent of the order of its checks. */
  ghost predicate Acceptable(rows: seq<Row>, flagged: set<nat>, folder: Folder) {
    && rows != [] && (forall i :: 0 <= i < |rows| ==> i !in flagged)
    && (forall i, j :: 0 <= i < j < |rows| ==> rows[i].source.folded != rows[j].source.folded && rows[i].target.folded != rows[j].target.folded)
    && AllAtSource(rows, folder) && TargetsFree(rows, folder)
  }

  /** The check by names finds exactly what other files have. */
  lemma VacantExactly(rows: seq<Row>, folder: Folder)
    requires Injective(folder) && AllAtSource(rows, folder)
    ensures Vacant(rows, folder) <==> TargetsFree(rows, folder)
  {
    if Vacant(rows, folder) {
      forall i, id | 0 <= i < |rows| && id in folder && !OfRow(rows, id)
        ensures folder[id].folded != rows[i].target.folded
      {
        if AmongSources(rows, |rows|, rows[i].target) {
          var j :| 0 <= j < |rows| && rows[j].source.folded == rows[i].target.folded;
          assert folder[rows[j].id] == rows[j].source && rows[j].id != id;
        }
      }
    }
    if TargetsFree(rows, folder) {
      forall i | 0 <= i < |rows|
        ensures AmongSources(rows, |rows|, rows[i].target) || !SomeoneHas(folder, rows[i].target)
      {
        if SomeoneHas(folder, rows[i].target) {
          var id :| id in folder && folder[id].folded == rows[i].target.folded;
          var j :| 0 <= j < |rows| && rows[j].id == id;
          assert folder[id] == rows[j].source;
        }
      }
    }
  }

  /** Temporary names are made fresh for the run. */
  ghost predicate FreshTemporaries(rows: seq<Row>, folder: Folder) {
    && (forall i, j :: 0 <= i < |rows| && 0 <= j < |rows| ==>
          && (i != j ==> rows[i].temporary.folded != rows[j].temporary.folded)
          && rows[i].temporary.folded != rows[j].source.folded && rows[i].temporary.folded != rows[j].target.folded)
    && (forall i, id :: 0 <= i < |rows| && id in folder ==> folder[id].folded != rows[i].temporary.folded)
  }

  ghost predicate Screened(rows: seq<Row>, flagged: set<nat>, folder: Folder, n: nat)
    requires n <= |rows|
  {
    forall i :: 0 <= i < n ==>
      && i !in flagged && !AmongSources(rows, i, rows[i].source) && !AmongTargets(rows, i, rows[i].target)
      && rows[i].id in folder && folder[rows[i].id] == rows[i].source
  }

  lemma {:induction false} ScreenMeans(rows: seq<Row>, flagged: set<nat>, t: Task, i: nat)
    requires i <= |rows| && Screened(rows, flagged, t.vault.folder, i)
    ensures var s := Screen(rows, flagged, t, i);
      && s.task == t.(script := s.task.script)
      && (s.end.Done? ==> Screened(rows, flagged, t.vault.folder, |rows|))
      && (t.script == [] ==> s.task.script == [] && (s.end.Done? <==> Screened(rows, flagged, t.vault.folder, |rows|)))
    decreases |rows| - i
  {
    if i < |rows| {
      var c := Check(t);
      if c.end.Done? && Screened(rows, flagged, t.vault.folder, i + 1) {
        ScreenMeans(rows, flagged, c.task, i + 1);
      }
    }
  }

  lemma ScreenedIsAcceptable(rows: seq<Row>, flagged: set<nat>, folder: Folder)
    requires rows != [] && Injective(folder)
    ensures Screened(rows, flagged, folder, |rows|) && Vacant(rows, folder) <==> Acceptable(rows, flagged, folder)
  {
    if AllAtSource(rows, folder) { VacantExactly(rows, folder); }
    if Screened(rows, flagged, folder, |rows|) {
      forall i, j | 0 <= i < j < |rows|
        ensures rows[i].source.folded != rows[j].source.folded && rows[i].target.folded != rows[j].target.folded
      {
        assert !AmongSources(rows, j, rows[j].source) && !AmongTargets(rows, j, rows[j].target);
      }
    }
  }

  /** An acceptable request meets everything the two phases rely on. */
  lemma Ready(rows: seq<Row>, flagged: set<nat>, folder: Folder, script: seq<Event>)
    requires Injective(folder) && FreshTemporaries(rows, folder) && Acceptable(rows, flagged, folder)
    ensures var others := map id | id in folder && !OfRow(rows, id) :: folder[id];
      && Working(Direct(rows, false), others, Begun(rows, folder, script)) && Clear(Direct(rows, false), others, false)
  {
    var others := map id | id in folder && !OfRow(rows, id) :: folder[id];
    forall i, j | 0 <= i < |rows| && 0 <= j < |rows|
      ensures RowsApart(rows[i], rows[j], i == j)
    {
      assert i < j || i == j || j < i;
    }
    forall i | 0 <= i < |rows|
      ensures TrackedRow(folder, rows[i], rows[i].source) && InOnePlace(folder, rows[i])
    {
      assert RowsApart(rows[i], rows[i], true);
    }
  }

  ghost function Others(rows: seq<Row>, folder: Folder): Folder {
    map id | id in folder && !OfRow(rows, id) :: folder[id]
  }

  /** Two-phase renaming is simultaneous renaming, for cycles, chains and changes of letter
      case, on every folder; refused or stopped anywhere, it loses and replaces no file, and
      where it reports that it restored the names of a folder that is not redirected, it did;
      it goes through exactly for acceptable requests when nothing else fails. */
  lemma ExecuteIsSimultaneous(rows: seq<Row>, flagged: set<nat>, redirected: bool, folder: Folder, script: seq<Event>)
    requires Injective(folder) && FreshTemporaries(rows, folder)
    ensures var o := Execute(rows, flagged, redirected, folder, script);
      && (o.complete ==> Acceptable(rows, flagged, folder) && RenamedAtOnce(rows, folder, o.folder))
      && (o.restored && !redirected ==> o.folder == folder)
      && Injective(o.folder) && o.folder.Keys == folder.Keys
      && (forall id :: id in folder && !OfRow(rows, id) ==> o.folder[id] == folder[id])
      && (script == [] ==> (o.complete <==> Acceptable(rows, flagged, folder)) && (o.complete || o.restored))
  {
    hide Carried;
    ScreenMeans(rows, flagged, Begun(rows, folder, script), 0);
    var s := Screen(rows, flagged, Begun(rows, folder, script), 0);
    if rows != [] {
      ScreenedIsAcceptable(rows, flagged, folder);
      if s.end.Done? && Vacant(rows, folder) {
        CarriedIsSimultaneous(rows, flagged, redirected, folder, s.task.script);
      }
    }
  }

  lemma CarriedIsSimultaneous(rows: seq<Row>, flagged: set<nat>, redirected: bool, folder: Folder, script: seq<Event>)
    requires Injective(folder) && FreshTemporaries(rows, folder) && Acceptable(rows, flagged, folder)
    ensures var o := Carried(rows, redirected, Begun(rows, folder, script));
      && (o.complete ==> RenamedAtOnce(rows, folder, o.folder))
      && (o.restored && !redirected ==> o.folder == folder)
      && Injective(o.folder) && o.folder.Keys == folder.Keys
      && (forall id :: id in folder && !OfRow(rows, id) ==> o.folder[id] == folder[id])
      && (script == [] ==> o.complete)
  {
    hide Working, Clear, FreshTemporaries, RenamedAtOnce, Acceptable, FolderSane;
    var plan, t, others := Direct(rows, redirected), Begun(rows, folder, script), Others(rows, folder);
    assert Plain(plan) == Direct(rows, false);
    Ready(rows, flagged, folder, script);
    WorkingMeans(plan, others, t);
    BothPhasesAlike(plan, t, false);
    BothPhasesKeep(Plain(plan), others, t, false);
    AnyBothPhasesKeep(plan, others, t, false);
    var s := BothPhases(plan, t, false);
    if s.end.Done? {
      KeptMeans(rows, others, folder, s.task);
      AtOnce(rows, others, folder, s.task.vault.folder);
    } else {
      KeptMeans(rows, others, folder, s.task);
      AnyRetreatKeeps(plan, others, s.task);
      KeptMeans(rows, others, folder, Retreat(plan, s.task).1.task);
      if s.end.Failed? && !redirected { RestoredMeans(rows, others, folder, s.task); }
    }
  }

  lemma WorkingMeans(plan: Plan, others: Folder, t: Task)
    requires Working(Plain(plan), others, t) && t.current == Sources(plan.rows)
    ensures Kept(plan, others, t) && FolderSane(plan.rows, others, t.vault.folder) && AllAtSource(plan.rows, t.vault.folder)
  {
    forall i, j | 0 <= i < |plan.rows| && 0 <= j < |plan.rows|
      ensures RowsApart(plan.rows[i], plan.rows[j], i == j)
    {
      assert RowsApart(Plain(plan).rows[i], Plain(plan).rows[j], i == j);
    }
    forall i | 0 <= i < |plan.rows|
      ensures plan.rows[i].id in t.vault.folder && t.vault.folder[plan.rows[i].id] == plan.rows[i].source
    {
      assert TrackedRow(t.vault.folder, plan.rows[i], t.current[i]);
    }
  }

  lemma RestoredMeans(rows: seq<Row>, others: Folder, folder: Folder, t: Task)
    requires Working(Direct(rows, false), others, t) && FolderSane(rows, others, folder) && AllAtSource(rows, folder)
    ensures var (ok, r) := Retreat(Direct(rows, false), t); ok ==> r.task.vault.folder == folder
  {
    hide Working;
    assert |t.current| == |rows| by { WorkingLength(rows, others, t); }
    RetreatKeeps(Direct(rows, false), others, t);
    var (ok, r) := Retreat(Direct(rows, false), t);
    if ok { Unchanged(rows, others, folder, r.task.vault.folder); }
  }

  lemma WorkingLength(rows: seq<Row>, others: Folder, t: Task)
    requires Working(Direct(rows, false), others, t)
    ensures |t.current| == |rows|
  {
  }

  /** Sane folders with the same foreign files hold the same files. */
  lemma KeptMeans(rows: seq<Row>, others: Folder, folder: Folder, t: Task)
    requires FolderSane(rows, others, folder) && FolderSane(rows, others, t.vault.folder)
    ensures var after := t.vault.folder;
      Injective(after) && after.Keys == folder.Keys && forall id :: id in folder && !OfRow(rows, id) ==> after[id] == folder[id]
  {
    var after := t.vault.folder;
    forall id
      ensures id in folder <==> id in after
    {
      if OfRow(rows, id) {
        var i :| 0 <= i < |rows| && rows[i].id == id;
        assert InOnePlace(folder, rows[i]) && InOnePlace(after, rows[i]);
      }
    }
  }

  lemma AtOnce(rows: seq<Row>, others: Folder, folder: Folder, after: Folder)
    requires FolderSane(rows, others, folder) && FolderSane(rows, others, after) && AllAtTarget(rows, after)
    ensures RenamedAtOnce(rows, folder, after)
  {
    forall id
      ensures id in folder <==> id in after
    {
      if OfRow(rows, id) {
        var i :| 0 <= i < |rows| && rows[i].id == id;
        assert InOnePlace(folder, rows[i]) && InOnePlace(after, rows[i]);
      }
    }
  }

  lemma Unchanged(rows: seq<Row>, others: Folder, folder: Folder, after: Folder)
    requires FolderSane(rows, others, folder) && FolderSane(rows, others, after)
    requires AllAtSource(rows, folder) && AllAtSource(rows, after)
    ensures after == folder
  {
    forall id
      ensures (id in folder <==> id in after) && (id in folder ==> after[id] == folder[id])
    {
      if OfRow(rows, id) {
        var i :| 0 <= i < |rows| && rows[i].id == id;
        assert rows[i].id in folder && rows[i].id in after;
      }
    }
  }

  // ------------------------------------------------------- redirected folders

  /** Whatever happens, a report that the names were restored is true. */
  ghost predicate ReportsTruly(rows: seq<Row>, flagged: set<nat>, redirected: bool, folder: Folder) {
    forall script :: var o := Execute(rows, flagged, redirected, folder, script); o.restored ==> o.folder == folder
  }

  ghost predicate NothingMoves(rows: seq<Row>) {
    forall i :: 0 <= i < |rows| ==> !Moving(rows[i])
  }

  /** The first rename happens but is reported as a failure. */
  function Misled(n: nat): seq<Event> {
    if n == 0 then [Spoil(true)] else [Proceed] + Misled(n - 1)
  }

  lemma {:induction false} ScreenPasses(rows: seq<Row>, flagged: set<nat>, t: Task, i: nat)
    requires i <= |rows| && Screened(rows, flagged, t.vault.folder, |rows|) && t.script == Misled(|rows| - i)
    ensures Screen(rows, flagged, t, i) == Step(Done, t.(script := Misled(0)))
    decreases |rows| - i
  {
    if i < |rows| {
      assert t.script[1..] == Misled(|rows| - i - 1);
      ScreenPasses(rows, flagged, t.(script := Misled(|rows| - i - 1)), i + 1);
    }
  }

  /** The file stays under its temporary name, and the rollback, which looks at the names the
      moves reported, finds nothing to do. */
  lemma MisledCarries(rows: seq<Row>, folder: Folder, k: nat)
    requires k < |rows| && Moving(rows[k]) && forall j :: 0 <= j < k ==> !Moving(rows[j])
    requires Free(folder, rows[k].id, rows[k].temporary) && rows[k].temporary != rows[k].source
    ensures Carried(rows, true, Begun(rows, folder, Misled(0))) == Outcome(false, true, folder[rows[k].id := rows[k].temporary])
  {
    hide Retreat;
    var plan, t := Direct(rows, true), Begun(rows, folder, Misled(0));
    PhaseSkips(plan, t, 0, false, 0, k);
    var after := t.(vault := t.vault.(folder := folder[rows[k].id := rows[k].temporary]), lost := {k}, script := []);
    assert Misled(0)[1..] == [] && t.lost + {k} == {k};
    assert Move(plan, t, k, rows[k].temporary) == Step(Failed, after);
    assert Phase(plan, t, 0, false, 0) == Step(Failed, after);
    RetreatIdle(plan, after);
  }

  /** The report can be trusted exactly when the folder is not redirected, or the request is
      refused before anything moves, or nothing is to move. */
  lemma ReportsTrulyExactly(rows: seq<Row>, flagged: set<nat>, redirected: bool, folder: Folder)
    requires Injective(folder) && FreshTemporaries(rows, folder)
    ensures ReportsTruly(rows, flagged, redirected, folder) <==> !redirected || !Acceptable(rows, flagged, folder) || NothingMoves(rows)
  {
    hide Execute, Acceptable;
    if redirected && Acceptable(rows, flagged, folder) && !NothingMoves(rows) {
      MisledReport(rows, flagged, folder);
    } else {
      forall script
        ensures var o := Execute(rows, flagged, redirected, folder, script); o.restored ==> o.folder == folder
      {
        if redirected { QuietReport(rows, flagged, folder, script); }
        else { ExecuteIsSimultaneous(rows, flagged, redirected, folder, script); }
      }
    }
  }

  lemma MisledReport(rows: seq<Row>, flagged: set<nat>, folder: Folder)
    requires Injective(folder) && FreshTemporaries(rows, folder) && Acceptable(rows, flagged, folder) && !NothingMoves(rows)
    ensures var o := Execute(rows, flagged, true, folder, Misled(|rows|)); o.restored && o.folder != folder
  {
    hide Carried, FreshTemporaries, Acceptable, Screen, Screened;
    var n: nat :| n < |rows| && Moving(rows[n]);
    var k := FirstMoving(rows, n);
    AcceptableMeans(rows, flagged, folder);
    ScreenPasses(rows, flagged, Begun(rows, folder, Misled(|rows|)), 0);
    TemporaryUnused(rows, folder, k);
    MisledCarries(rows, folder, k);
  }

  lemma AcceptableMeans(rows: seq<Row>, flagged: set<nat>, folder: Folder)
    requires Acceptable(rows, flagged, folder) && Injective(folder)
    ensures rows != [] && Vacant(rows, folder) && Screened(rows, flagged, folder, |rows|)
    ensures forall k :: 0 <= k < |rows| ==> rows[k].id in folder && folder[rows[k].id] == rows[k].source
  {
    ScreenedIsAcceptable(rows, flagged, folder);
  }

  lemma TemporaryUnused(rows: seq<Row>, folder: Folder, k: nat)
    requires FreshTemporaries(rows, folder) && k < |rows|
    ensures Free(folder, rows[k].id, rows[k].temporary) && rows[k].temporary != rows[k].source
  {
  }

  lemma QuietReport(rows: seq<Row>, flagged: set<nat>, folder: Folder, script: seq<Event>)
    requires Injective(folder) && FreshTemporaries(rows, folder) && (!Acceptable(rows, flagged, folder) || NothingMoves(rows))
    ensures var o := Execute(rows, flagged, true, folder, script); o.restored ==> o.folder == folder
  {
    hide FreshTemporaries;
    var s := Screen(rows, flagged, Begun(rows, folder, script), 0);
    ScreenMeans(rows, flagged, Begun(rows, folder, script), 0);
    if rows != [] && s.end.Done? && Vacant(rows, folder) {
      ScreenedIsAcceptable(rows, flagged, folder);
      NoPhases(Direct(rows, true), Begun(rows, folder, s.task.script), false);
    }
  }
}
