/** On a redirected folder a rename may be reported as failed after it happened. Then the log
    can end in `Restored` with a file under its temporary name; no file is ever lost. */
module RenameLimits {
  import opened BatchRename
  import opened RenameJournal
  import opened RenameLog
  import opened RenameSafety
  import opened RenamePhases
  import opened RenameRecovery
  import opened RenameRuns
  import opened RenameFolder

  /** No sequence of fresh starts, cancellations, resumptions and restorations, refused or
      interrupted anywhere, leaves a log that contradicts the disk. */
  ghost predicate NeverLies(plan: Plan, v: Vault) {
    forall commands :: Truthful(plan.rows, AfterAll(plan, v, commands))
  }

  /** The first rename of row `k` happens, but is reported as a failure. */
  function Misreported(): seq<Event> {
    [Proceed, Proceed, Proceed, Proceed, Proceed, Spoil(true)]
  }

  /** The script up to the first move. */
  lemma MisreportedBegin(plan: Plan, v: Vault, notes: Notes)
    requires plan.logged && v.lines == []
    ensures var s := Begin(plan, Started(plan, v, Misreported()), notes.working);
      s.end.Done? && s.task == Started(plan, v, [Proceed, Proceed, Spoil(true)]).(vault := s.task.vault, log := Open)
      && s.task.vault.folder == v.folder && s.task.vault.readable == v.readable
      && s.task.vault.lines == [StateLine(Running, notes.working)]
  {
  }

  lemma MisreportedMove(plan: Plan, t: Task, k: nat)
    requires plan.redirected && plan.logged && k < |plan.rows| == |t.current| && t.log == Open && !t.uncertain && t.lost == {}
    requires |plan.rows| <= MAX_ROWS && Bytes(t.vault.lines) <= 8192
    requires t.script == [Proceed, Spoil(true)] && Free(t.vault.folder, plan.rows[k].id, plan.rows[k].temporary)
    ensures var s := Move(plan, t, k, plan.rows[k].temporary);
      && s.end.Failed? && s.task.mutated == t.mutated && !s.task.uncertain && s.task.log == Open && s.task.script == []
      && s.task.vault.readable == t.vault.readable && s.task.vault.folder == t.vault.folder[plan.rows[k].id := plan.rows[k].temporary]
      && Bytes(s.task.vault.lines) <= 8400
  {
    DigitsOf(k);
    var line := Intent(k, RoleOf(plan.rows[k], plan.rows[k].temporary));
    BytesAppend(t.vault.lines, line);
    WrittenAtEnd(t.vault, t.log, line, true);
    hide Written, Bytes, Free;
    var s := Append(plan, t, line);
    assert t.script[1..] == [Spoil(true)];
    assert s.end.Done? && s.task.script == [Spoil(true)];
    hide Append;
    assert s.task.script[1..] == [];
  }

  /** Where that leaves the rename task before its cleanup. */
  lemma MisreportedWork(plan: Plan, others: Folder, v: Vault, k: nat, notes: Notes)
    requires ValidPlan(plan) && plan.redirected && plan.logged && Pristine(plan, others, v)
    requires k < |plan.rows| && Moving(plan.rows[k]) && forall j :: 0 <= j < k ==> !Moving(plan.rows[j])
    ensures var s := Work(plan, Started(plan, v, Misreported()), Fresh(notes));
      && s.end.Failed? && !s.task.mutated && !s.task.uncertain && s.task.log == Open && s.task.script == []
      && s.task.vault.readable && s.task.vault.folder == v.folder[plan.rows[k].id := plan.rows[k].temporary]
      && Bytes(s.task.vault.lines) <= 8400
  {
    hide Begin, Move;
    MisreportedBegin(plan, v, notes);
    var t1 := Begin(plan, Started(plan, v, Misreported()), notes.working).task;
    var t2 := t1.(script := [Proceed, Spoil(true)]);
    assert Locate(plan, t1, Fresh(notes)) == Step(Done, t2);
    PhaseSkips(plan, t2, 0, false, 0, k);
    TemporaryFree(plan, others, v.folder, k);
    assert RowsApart(plan.rows[k], plan.rows[k], true);
    assert t2.vault.lines[..0] == [];
    MisreportedMove(plan, t2, k);
  }

  lemma CleanupOfUnmoved(plan: Plan, t: Task, notes: Notes)
    requires |t.current| == |plan.rows| && plan.logged && !t.mutated && !t.uncertain && t.log == Open && t.script == []
    requires Bytes(t.vault.lines) <= 8400
    ensures var s := Finalize(plan, t, Fresh(notes));
      s.end.Done? && s.task.vault.folder == t.vault.folder && s.task.vault.readable == t.vault.readable && LastState(s.task.vault.lines).Restored?
  {
    StateCounts(t.vault.lines, Restored, notes.failing);
  }

  lemma FailedPerform(plan: Plan, v: Vault, mode: Mode, script: seq<Event>)
    requires Allowed(v, mode) && Work(plan, Started(plan, v, script), mode).end.Failed?
    ensures Perform(plan, v, mode, script).task == Finalize(plan, Work(plan, Started(plan, v, script), mode).task, mode).task
  {
  }

  lemma MisreportedPerform(plan: Plan, others: Folder, v: Vault, k: nat, notes: Notes)
    requires ValidPlan(plan) && plan.redirected && plan.logged && Pristine(plan, others, v)
    requires k < |plan.rows| && Moving(plan.rows[k]) && forall j :: 0 <= j < k ==> !Moving(plan.rows[j])
    ensures var w := Perform(plan, v, Fresh(notes), Misreported()).task.vault;
      && w.readable && LastState(w.lines).Restored?
      && w.folder == v.folder[plan.rows[k].id := plan.rows[k].temporary] && plan.rows[k].temporary != plan.rows[k].source
  {
    MisreportedWork(plan, others, v, k, notes);
    FailedPerform(plan, v, Fresh(notes), Misreported());
    CleanupOfUnmoved(plan, Work(plan, Started(plan, v, Misreported()), Fresh(notes)).task, notes);
    assert RowsApart(plan.rows[k], plan.rows[k], true);
  }

  // ------------------------------------------------------- nothing to rename

  lemma SameBegin(plan: Plan, t: Task, note: Note)
    ensures Begin(plan, t, note) == Begin(Plain(plan), t, note)
    ensures Begin(plan, t, note).task.mutated == t.mutated
  {
  }

  lemma SameLocate(plan: Plan, t: Task, mode: Mode)
    requires |t.current| == |plan.rows|
    ensures Locate(plan, t, mode) == Locate(Plain(plan), t, mode) && Locate(plan, t, mode).task.mutated == t.mutated
  {
  }

  lemma SameWork(plan: Plan, v: Vault, mode: Mode, script: seq<Event>)
    requires forall j :: 0 <= j < |plan.rows| ==> !Moving(plan.rows[j])
    ensures var s := Work(plan, Started(plan, v, script), mode);
      s == Work(Plain(plan), Started(plan, v, script), mode) && !s.task.mutated
  {
    hide Locate, Begin;
    var t := Started(plan, v, script);
    SameBegin(plan, t, mode.notes.working);
    var s1 := Begin(plan, t, mode.notes.working);
    if s1.end.Done? {
      SameLocate(plan, s1.task, mode);
      var s2 := Locate(plan, s1.task, mode);
      if s2.end.Done? {
        NoPhases(plan, s2.task, mode.Restore?);
        NoPhases(Plain(plan), s2.task, mode.Restore?);
      }
    }
  }

  lemma SameRecord(plan: Plan, t: Task, state: State, note: Note)
    ensures Record(plan, t, state, note) == Record(Plain(plan), t, state, note)
  {
  }

  /** A plan in which nothing moves never renames, so redirection does not matter. */
  lemma NothingRenamed(plan: Plan, v: Vault, c: Command)
    requires forall j :: 0 <= j < |plan.rows| ==> !Moving(plan.rows[j])
    ensures After(plan, v, c) == After(Plain(plan), v, c)
  {
    hide Work, Record;
    match c
    case Attempt(mode, script) =>
      SameWork(plan, v, mode, script);
      var s := Work(plan, Started(plan, v, script), mode);
      SameRecord(plan, s.task, if mode.Fresh? then Restored else RecoveryRequired, mode.notes.failing);
    case CancelUnstarted(script, note) => SameRecord(plan, Started(plan, v, script), Restored, note);
  }

  lemma {:induction false} NothingRenamedEver(plan: Plan, v: Vault, commands: seq<Command>)
    requires forall j :: 0 <= j < |plan.rows| ==> !Moving(plan.rows[j])
    ensures AfterAll(plan, v, commands) == AfterAll(Plain(plan), v, commands)
    decreases |commands|
  {
    if commands != [] {
      NothingRenamed(plan, v, commands[0]);
      NothingRenamedEver(plan, After(plan, v, commands[0]), commands[1..]);
    }
  }

  /** The log can be trusted over all runs exactly when the folder is not redirected or the
      plan renames nothing. */
  lemma TrustedExactly(plan: Plan, others: Folder, v: Vault)
    requires ValidPlan(plan) && plan.logged && Pristine(plan, others, v)
    ensures NeverLies(plan, v) <==> !plan.redirected || forall j :: 0 <= j < |plan.rows| ==> !Moving(plan.rows[j])
  {
    hide Perform, AfterAll, ValidPlan, Misreported;
    if plan.redirected && exists j :: 0 <= j < |plan.rows| && Moving(plan.rows[j]) {
      var n: nat :| n < |plan.rows| && Moving(plan.rows[n]);
      var k := FirstMoving(plan.rows, n);
      var mode := Fresh(Notes(0, 0));
      MisreportedPerform(plan, others, v, k, mode.notes);
      OneRun(plan, v, mode, Misreported());
      assert !Truthful(plan.rows, AfterAll(plan, v, [Attempt(mode, Misreported())]));
    } else {
      forall commands
        ensures Truthful(plan.rows, AfterAll(plan, v, commands))
      {
        if plan.redirected { NothingRenamedEver(plan, v, commands); }
        PlainValid(plan);
        RunsKeep(Plain(plan), others, v, commands);
        assert plan.redirected || Plain(plan) == plan;
      }
    }
  }

  lemma OneRun(plan: Plan, v: Vault, mode: Mode, script: seq<Event>)
    ensures AfterAll(plan, v, [Attempt(mode, script)]) == Perform(plan, v, mode, script).task.vault
  {
    hide Perform;
    assert [Attempt(mode, script)][1..] == [];
  }

  lemma PlainValid(plan: Plan)
    requires ValidPlan(plan)
    ensures ValidPlan(Plain(plan))
  {
    forall i, j | 0 <= i < |plan.rows| && 0 <= j < |plan.rows|
      ensures RowsApart(Plain(plan).rows[i], Plain(plan).rows[j], i == j)
    {
      assert RowsApart(plan.rows[i], plan.rows[j], i == j);
    }
  }

  // ------------------------------------------------------------ no file lost

  lemma BeginSpares(plan: Plan, t: Task, note: Note)
    ensures Begin(plan, t, note).task.vault.folder == t.vault.folder && Begin(plan, t, note).task.current == t.current
  {
    hide Append;
    OpenLogEffect(Check(t).task);
    AppendSpares(plan, OpenLog(Check(t).task).task, StateLine(Running, note));
  }

  lemma RecordSpares(plan: Plan, t: Task, state: State, note: Note)
    ensures Record(plan, t, state, note).task.vault.folder == t.vault.folder
  {
    hide Append;
    OpenLogEffect(t);
    AppendSpares(plan, t, StateLine(state, note));
    AppendSpares(plan, OpenLog(t).task, StateLine(state, note));
  }

  lemma DiscoveredAnchors(plan: Plan, others: Folder, t: Task)
    requires Kept(plan, others, t)
    requires AllFound(t.vault.folder, plan.rows, Candidates(plan.rows, |plan.rows|))
    ensures Kept(plan, others, t.(current := Discovered(t.vault.folder, plan.rows, Candidates(plan.rows, |plan.rows|))))
  {
    hide FolderSane, Candidates, Discovered, AllFound;
    DiscoveryTracks(plan, others, t.vault.folder);
    var names := Candidates(plan.rows, |plan.rows|);
    forall i | 0 <= i < |plan.rows| && !Moving(plan.rows[i])
      ensures Discovered(t.vault.folder, plan.rows, names)[i] == plan.rows[i].source
    {
      assert TrackedRow(t.vault.folder, plan.rows[i], Discovered(t.vault.folder, plan.rows, names)[i]);
    }
  }

  lemma LocateAnchors(plan: Plan, others: Folder, t: Task, mode: Mode)
    requires Kept(plan, others, t)
    ensures Kept(plan, others, Locate(plan, t, mode).task)
  {
    hide FolderSane, Candidates, Discovered, AllFound;
    if !mode.Fresh? && AllFound(t.vault.folder, plan.rows, Candidates(plan.rows, |plan.rows|)) { DiscoveredAnchors(plan, others, t); }
  }

  lemma WorkKeepsFiles(plan: Plan, others: Folder, t: Task, mode: Mode)
    requires Kept(plan, others, t)
    ensures Kept(plan, others, Work(plan, t, mode).task)
  {
    hide Begin, Locate, BothPhases, FolderSane;
    BeginSpares(plan, t, mode.notes.working);
    var s1 := Begin(plan, t, mode.notes.working);
    if s1.end.Done? {
      LocateAnchors(plan, others, s1.task, mode);
      var s2 := Locate(plan, s1.task, mode);
      if s2.end.Done? {
        AnyBothPhasesKeep(plan, others, s2.task, mode.Restore?);
        var s3 := BothPhases(plan, s2.task, mode.Restore?);
        AppendSpares(plan, s3.task, StateLine(if mode.Restore? then Restored else Completed, mode.notes.working));
      }
    }
  }

  /** On every folder, over every sequence of runs: each file of the plan is at its source, its
      temporary name or its target, and no other file is touched or loses its name. */
  lemma {:induction false} FilesKept(plan: Plan, others: Folder, v: Vault, commands: seq<Command>)
    requires ValidPlan(plan) && FolderSane(plan.rows, others, v.folder)
    ensures FolderSane(plan.rows, others, AfterAll(plan, v, commands).folder)
    decreases |commands|
  {
    hide FolderSane, Work, Retreat, Record;
    if commands != [] {
      match commands[0] {
        case Attempt(mode, script) =>
          var t := Started(plan, v, script);
          assert Kept(plan, others, t);
          WorkKeepsFiles(plan, others, t, mode);
          var s := Work(plan, t, mode);
          AnyRetreatKeeps(plan, others, s.task);
          var (restored, r) := if s.task.mutated then Retreat(plan, s.task) else (mode.Fresh?, Step(Done, s.task));
          RecordSpares(plan, r.task, if restored then Restored else RecoveryRequired, mode.notes.failing);
        case CancelUnstarted(script, note) => RecordSpares(plan, Started(plan, v, script), Restored, note);
      }
      FilesKept(plan, others, After(plan, v, commands[0]), commands[1..]);
    }
  }
}
