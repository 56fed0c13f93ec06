/** The limit of the log: what a run does not write for lack of room it still owes, so that a
    log too full for the moves back can never be followed by a restoration. */
module RenameBudget {
  import opened BatchRename
  import opened RenameJournal
  import opened RenameLog
  import opened RenameSafety
  import opened RenamePhases
  import opened RenameRecovery
  import opened RenameRuns

  // ------------------------------------------------------------- what is owed

  /** What bringing row `i` from this name back to its source writes. */
  function RowOwed(rows: seq<Row>, i: nat, name: Name): nat
    requires i < |rows|
  {
    if name == rows[i].source then 0
    else (if name == rows[i].temporary then 0 else MoveCost(rows, i, rows[i].temporary)) + MoveCost(rows, i, rows[i].source)
  }

  function Owed(rows: seq<Row>, folder: Folder, i: nat): nat
    requires i <= |rows|
    decreases |rows| - i
  {
    if i == |rows| then 0
    else (if rows[i].id in folder then RowOwed(rows, i, folder[rows[i].id]) else 0) + Owed(rows, folder, i + 1)
  }

  lemma {:induction false} OwedElsewhere(plan: Plan, folder: Folder, k: nat, name: Name, i: nat)
    requires ValidPlan(plan) && k < i <= |plan.rows|
    ensures Owed(plan.rows, folder[plan.rows[k].id := name], i) == Owed(plan.rows, folder, i)
    decreases |plan.rows| - i
  {
    hide RowOwed;
    if i < |plan.rows| {
      assert RowsApart(plan.rows[k], plan.rows[i], false);
      OwedElsewhere(plan, folder, k, name, i + 1);
    }
  }

  /** A rename changes what its own row owes. */
  lemma {:induction false} OwedAfter(plan: Plan, folder: Folder, k: nat, name: Name, i: nat)
    requires ValidPlan(plan) && i <= k < |plan.rows| && plan.rows[k].id in folder
    ensures Owed(plan.rows, folder[plan.rows[k].id := name], i) + RowOwed(plan.rows, k, folder[plan.rows[k].id])
            == Owed(plan.rows, folder, i) + RowOwed(plan.rows, k, name)
    decreases k - i
  {
    hide RowOwed;
    if i < k {
      assert RowsApart(plan.rows[k], plan.rows[i], false);
      OwedAfter(plan, folder, k, name, i + 1);
    } else {
      OwedElsewhere(plan, folder, k, name, k + 1);
    }
  }

  lemma {:induction false} NothingOwed(rows: seq<Row>, folder: Folder, i: nat)
    requires i <= |rows| && AllAtSource(rows, folder)
    ensures Owed(rows, folder, i) == 0
    decreases |rows| - i
  {
    if i < |rows| { NothingOwed(rows, folder, i + 1); }
  }

  /** The log and what is owed come to `c`, but for one or two moves that a log filled up to
      its limit took down in part. */
  ghost predicate Short(plan: Plan, v: Vault, c: int) {
    var size := Bytes(v.lines);
    var sum := size + Owed(plan.rows, v.folder, 0);
    || sum >= c
    || (size > LOG_BUDGET - 59 && sum >= c - 175)
    || (size > LOG_BUDGET - 7 && sum >= c - 350)
  }

  /** No more than one line still fits. */
  predicate Crowded(t: Task) {
    Bytes(t.vault.lines) > LOG_BUDGET - 59
  }

  lemma LineSizes(plan: Plan, i: nat, role: Role)
    requires i < |plan.rows| <= MAX_ROWS
    ensures 52 <= LineSize(Intent(i, role)) <= 59 && 51 <= LineSize(Receipt(i, role)) <= 58
  {
    DigitsOf(i);
  }

  /** A move pays for what it settles, unless it skips the temporary name. */
  lemma OwedPaid(plan: Plan, i: nat, before: Name, name: Name)
    requires i < |plan.rows| <= MAX_ROWS && name in {plan.rows[i].source, plan.rows[i].temporary, plan.rows[i].target}
    ensures RowOwed(plan.rows, i, before) <= RowOwed(plan.rows, i, name) + MoveCost(plan.rows, i, name) + 117
    ensures name != plan.rows[i].source || before in {plan.rows[i].source, plan.rows[i].temporary} ==>
              RowOwed(plan.rows, i, before) <= RowOwed(plan.rows, i, name) + MoveCost(plan.rows, i, name)
  {
    LineSizes(plan, i, RoleOf(plan.rows[i], plan.rows[i].temporary));
  }

  lemma AppendShort(plan: Plan, t: Task, line: Line, c: int)
    requires plan.logged && !t.log.Stray? && Short(plan, t.vault, c)
    ensures Short(plan, Append(plan, t, line).task.vault, c)
  {
    hide Append, Bytes, Owed;
    AppendBytes(plan, t, line);
  }

  /** A move of a log that takes no part of the lines it has no room for. */
  lemma MoveShort(plan: Plan, others: Folder, t: Task, i: nat, name: Name, c: int)
    requires Working(plan, others, t) && plan.logged && Smooth(plan, t) && Short(plan, t.vault, c)
    requires i < |plan.rows| && Moving(plan.rows[i]) && name in {plan.rows[i].source, plan.rows[i].temporary, plan.rows[i].target}
    requires name == plan.rows[i].source ==> t.vault.folder[plan.rows[i].id] in {plan.rows[i].source, plan.rows[i].temporary} || Crowded(t)
    ensures var s := Move(plan, t, i, name); Short(plan, s.task.vault, c) && (Crowded(t) ==> Crowded(s.task))
  {
    hide Append, Bytes, Owed, LineSize, RowOwed, FolderSane, Truthful, Free, Rename;
    var role, id := RoleOf(plan.rows[i], name), plan.rows[i].id;
    LineSizes(plan, i, role);
    AppendEffect(plan, t, Intent(i, role));
    AppendBytes(plan, t, Intent(i, role));
    var s1 := Append(plan, t, Intent(i, role));
    if s1.end.Done? {
      RenameEffect(plan, s1.task, i, name);
      var s2 := Shift(plan, s1.task, i, name);
      OwedPaid(plan, i, t.vault.folder[id], name);
      OwedAfter(plan, t.vault.folder, i, name, 0);
      if s2.end.Done? {
        AppendEffect(plan, s2.task, Receipt(i, role));
        AppendBytes(plan, s2.task, Receipt(i, role));
      }
    }
  }

  lemma {:induction false} PhaseShort(plan: Plan, others: Folder, t: Task, phase: nat, restore: bool, i: nat, c: int)
    requires Working(plan, others, t) && plan.logged && Smooth(plan, t) && Short(plan, t.vault, c)
    requires phase < 2 && i <= |plan.rows| && Midway(plan, t, phase, restore, i)
    ensures Short(plan, Phase(plan, t, phase, restore, i).task.vault, c)
    decreases |plan.rows| - i
  {
    hide Working, Smooth, Short, Sound, Advance, Clear, Midway, ValidPlan, FolderSane, Bytes, PhaseCost;
    WorkingParts(plan, others, t);
    if i < |plan.rows| {
      AdvanceShort(plan, others, t, phase, restore, i, c);
      AdvanceKeeps(plan, others, t, phase, restore, i);
      var s := Advance(plan, t, phase, restore, i);
      if s.end.Done? { PhaseShort(plan, others, s.task, phase, restore, i + 1, c); }
    }
  }

  lemma AdvanceShort(plan: Plan, others: Folder, t: Task, phase: nat, restore: bool, i: nat, c: int)
    requires Working(plan, others, t) && plan.logged && Smooth(plan, t) && Short(plan, t.vault, c)
    requires phase < 2 && i < |plan.rows| && Midway(plan, t, phase, restore, i)
    ensures |t.current| == |plan.rows| && Short(plan, Advance(plan, t, phase, restore, i).task.vault, c)
  {
    hide Working, Smooth, Short, Sound, Move, FolderSane;
    WorkingParts(plan, others, t);
    var goal := Goal(plan.rows[i], phase, restore);
    assert RowsApart(plan.rows[i], plan.rows[i], true);
    if Moving(plan.rows[i]) && t.current[i] != goal {
      assert phase == 1 ==> At(plan, t, i, plan.rows[i].temporary);
      MoveShort(plan, others, t, i, goal, c);
    }
  }

  lemma BothShort(plan: Plan, others: Folder, t: Task, restore: bool, c: int)
    requires Working(plan, others, t) && plan.logged && Smooth(plan, t) && Short(plan, t.vault, c)
    ensures Short(plan, BothPhases(plan, t, restore).task.vault, c)
  {
    hide Phase, Working, Smooth, Short, Sound, Clear;
    WorkingParts(plan, others, t);
    PhaseKeeps(plan, others, t, 0, restore, 0);
    PhaseShort(plan, others, t, 0, restore, 0, c);
    var s := Phase(plan, t, 0, restore, 0);
    if s.end.Done? { PhaseShort(plan, others, s.task, 1, restore, 0, c); }
  }

  /** Every file of the plan is at its source or its temporary name, as far as the rename task knows. */
  ghost predicate AsideOrBack(plan: Plan, t: Task)
    requires |t.current| == |plan.rows|
  {
    forall j :: 0 <= j < |plan.rows| ==> t.current[j] in {plan.rows[j].source, plan.rows[j].temporary}
  }

  /** A first pass of a retreat that leaves a row elsewhere has filled up the log. */
  lemma {:induction false} AsideShort(plan: Plan, others: Folder, t: Task, i: nat, ok: bool, c: int)
    requires Working(plan, others, t) && plan.logged && Smooth(plan, t) && Short(plan, t.vault, c) && i <= |plan.rows|
    requires Crowded(t) || forall j :: 0 <= j < i ==> t.current[j] in {plan.rows[j].source, plan.rows[j].temporary}
    ensures var s := RetreatAside(plan, t, i, ok).1;
      Short(plan, s.task.vault, c) && (Crowded(s.task) || AsideOrBack(plan, s.task))
    decreases |plan.rows| - i
  {
    hide Move, Working, Smooth, Short, Sound, FolderSane, ValidPlan, MoveCost, Bytes, Crowded;
    WorkingParts(plan, others, t);
    if i < |plan.rows| {
      var row := plan.rows[i];
      var moves := t.current[i] != row.source && t.current[i] != row.temporary;
      var s := if moves then Move(plan, t, i, row.temporary) else Step(Done, t);
      if moves { AsideMoveShort(plan, others, t, i, c); }
      if !s.end.Cut? { AsideShort(plan, others, s.task, i + 1, ok && s.end.Done?, c); }
    }
  }

  lemma AsideMoveShort(plan: Plan, others: Folder, t: Task, i: nat, c: int)
    requires Working(plan, others, t) && plan.logged && Smooth(plan, t) && Short(plan, t.vault, c) && i < |plan.rows|
    requires t.current[i] != plan.rows[i].source && t.current[i] != plan.rows[i].temporary
    ensures var s := Move(plan, t, i, plan.rows[i].temporary);
      && !s.end.Cut? && Working(plan, others, s.task) && Smooth(plan, s.task) && Short(plan, s.task.vault, c)
      && (Crowded(t) ==> Crowded(s.task))
      && (Crowded(s.task) || s.task.current == t.current[i := plan.rows[i].temporary])
  {
    hide Move, FolderSane, Short, LineSize;
    NotMovingAtSource(plan, t, i);
    assert RowsApart(plan.rows[i], plan.rows[i], true);
    MoveKeeps(plan, others, t, i, plan.rows[i].temporary);
    MoveShort(plan, others, t, i, plan.rows[i].temporary, c);
    TemporaryFree(plan, others, t.vault.folder, i);
    MoveFits(plan, others, t, i, plan.rows[i].temporary);
  }

  /** An undisturbed move to a free name takes place, or finds the log filled up. */
  lemma MoveFits(plan: Plan, others: Folder, t: Task, i: nat, name: Name)
    requires Working(plan, others, t) && plan.logged && Smooth(plan, t) && i < |plan.rows| && Moving(plan.rows[i])
    requires name in {plan.rows[i].source, plan.rows[i].temporary, plan.rows[i].target} && Free(t.vault.folder, plan.rows[i].id, name)
    ensures var s := Move(plan, t, i, name); Crowded(s.task) || s.task.current == t.current[i := name]
  {
    hide Append, Bytes, LineSize, FolderSane, Truthful, Free, Rename;
    var role := RoleOf(plan.rows[i], name);
    LineSizes(plan, i, role);
    AppendEffect(plan, t, Intent(i, role));
    AppendBytes(plan, t, Intent(i, role));
    var s1 := Append(plan, t, Intent(i, role));
    if s1.end.Done? {
      RenameEffect(plan, s1.task, i, name);
      var s2 := Shift(plan, s1.task, i, name);
      AppendBytes(plan, s2.task, Receipt(i, role));
    }
  }

  lemma BackMoveShort(plan: Plan, others: Folder, t: Task, i: nat, c: int)
    requires Working(plan, others, t) && plan.logged && Smooth(plan, t) && Short(plan, t.vault, c) && i < |plan.rows|
    requires t.current[i] != plan.rows[i].source && (Crowded(t) || AsideOrBack(plan, t))
    ensures var s := Move(plan, t, i, plan.rows[i].source);
      && !s.end.Cut? && Working(plan, others, s.task) && Smooth(plan, s.task) && Short(plan, s.task.vault, c)
      && (Crowded(s.task) || AsideOrBack(plan, s.task))
  {
    hide Move, FolderSane, Short, LineSize, Bytes, MoveCost;
    NotMovingAtSource(plan, t, i);
    assert TrackedRow(t.vault.folder, plan.rows[i], t.current[i]);
    MoveKeeps(plan, others, t, i, plan.rows[i].source);
    MoveBytes(plan, t, i, plan.rows[i].source);
    MoveShort(plan, others, t, i, plan.rows[i].source, c);
  }

  lemma {:induction false} BackShort(plan: Plan, others: Folder, t: Task, i: nat, ok: bool, c: int)
    requires Working(plan, others, t) && plan.logged && Smooth(plan, t) && Short(plan, t.vault, c) && i <= |plan.rows|
    requires Crowded(t) || AsideOrBack(plan, t)
    ensures Short(plan, RetreatBack(plan, t, i, ok).1.task.vault, c)
    decreases |plan.rows| - i
  {
    hide Move, Working, Smooth, Short, Sound, AsideOrBack, Crowded, FolderSane, ValidPlan;
    WorkingParts(plan, others, t);
    if i < |plan.rows| {
      var row := plan.rows[i];
      var s := if t.current[i] != row.source then Move(plan, t, i, row.source) else Step(Done, t);
      if t.current[i] != row.source { BackMoveShort(plan, others, t, i, c); }
      if !s.end.Cut? { BackShort(plan, others, s.task, i + 1, ok && s.end.Done?, c); }
    }
  }

  lemma RetreatShort(plan: Plan, others: Folder, t: Task, c: int)
    requires Working(plan, others, t) && plan.logged && Smooth(plan, t) && Short(plan, t.vault, c)
    ensures Short(plan, Retreat(plan, t).1.task.vault, c)
  {
    hide RetreatAside, RetreatBack, Working, Smooth, Short, Sound, AsideOrBack, Crowded, FolderSane, ValidPlan, GoalCost, Bytes;
    WorkingParts(plan, others, t);
    RetreatAsideKeeps(plan, others, t, 0, true);
    AsideShort(plan, others, t, 0, true, c);
    var (ok, s) := RetreatAside(plan, t, 0, true);
    if !s.end.Cut? { BackShort(plan, others, s.task, 0, ok, c); }
  }

  // -------------------------------------------------------------- whole runs

  lemma RecordShort(plan: Plan, t: Task, state: State, note: Note, c: int)
    requires plan.logged && t.log == Open && Short(plan, t.vault, c)
    ensures Short(plan, Record(plan, t, state, note).task.vault, c)
  {
    hide Append, Short;
    AppendShort(plan, t, StateLine(state, note), c);
  }

  lemma BeginShort(plan: Plan, v: Vault, note: Note, c: int)
    requires plan.logged && Bytes(v.lines) <= LOG_BUDGET && Short(plan, v, c)
    ensures Short(plan, Begin(plan, Started(plan, v, []), note).task.vault, c)
  {
    hide Append, Bytes, Owed;
    var t := OpenLog(Started(plan, v, [])).task;
    AppendShort(plan, t, StateLine(Running, note), c);
  }

  lemma CarryShort(plan: Plan, others: Folder, t: Task, mode: Mode, c: int)
    requires Working(plan, others, t) && plan.logged && Smooth(plan, t) && Short(plan, t.vault, c)
    ensures Short(plan, Carry(plan, t, mode).task.vault, c)
  {
    hide BothPhases, Append, Short, Smooth, Bytes, BothCost, FolderSane;
    BothShort(plan, others, t, mode.Restore?, c);
    BothPhasesKeep(plan, others, t, mode.Restore?);
    var s := BothPhases(plan, t, mode.Restore?);
    if s.end.Done? { AppendShort(plan, s.task, StateLine(Last(mode), mode.notes.working), c); }
  }

  lemma WorkShort(plan: Plan, others: Folder, v: Vault, mode: Mode, c: int)
    requires Startable(plan, others, v, mode) && Short(plan, v, c)
    ensures Short(plan, Work(plan, Started(plan, v, []), mode).task.vault, c)
  {
    hide Begin, Locate, Carry, Bytes, Short, FolderSane;
    var t := Started(plan, v, []);
    BeginShort(plan, v, mode.notes.working, c);
    BeginKeeps(plan, others, t, mode.notes.working);
    var s1 := Begin(plan, t, mode.notes.working);
    if s1.end.Done? {
      LocateKeeps(plan, others, s1.task, mode);
      var s2 := Locate(plan, s1.task, mode);
      if s2.end.Done? { CarryShort(plan, others, s2.task, mode, c); }
    }
  }

  /** What the log and the moves back to the original names come to stays, through any
      undisturbed run: what is not written is still owed. */
  lemma PerformShort(plan: Plan, others: Folder, v: Vault, mode: Mode, c: int)
    requires Startable(plan, others, v, mode) && Short(plan, v, c)
    ensures Short(plan, Perform(plan, v, mode, []).task.vault, c)
  {
    hide Work, Retreat, Record, Short, Bytes, FolderSane, WorstCost, RetreatCost, RunCost;
    WorkShort(plan, others, v, mode, c);
    WorkKeeps(plan, others, v, mode, []);
    var s := Work(plan, Started(plan, v, []), mode);
    if s.end.Failed? {
      if s.task.mutated {
        RetreatShort(plan, others, s.task, c);
        RetreatKeeps(plan, others, s.task);
        var (ok, r) := Retreat(plan, s.task);
        RecordShort(plan, r.task, if ok then Restored else RecoveryRequired, mode.notes.failing, c);
      } else {
        RecordShort(plan, s.task, if mode.Fresh? then Restored else RecoveryRequired, mode.notes.failing, c);
      }
    }
  }

  /** With too little room left for what is owed, no undisturbed run, restoration or other,
      brings back the original names. */
  lemma TooFullToRestore(plan: Plan, others: Folder, v: Vault, mode: Mode)
    requires Startable(plan, others, v, mode) && Bytes(v.lines) + Owed(plan.rows, v.folder, 0) > LOG_BUDGET + 350
    ensures var w := Perform(plan, v, mode, []).task.vault; !AllAtSource(plan.rows, w.folder) && (w.readable ==> !LastState(w.lines).Restored?)
  {
    hide Perform, Bytes, Owed, FolderSane, LastState, AllAtSource, AllAtTarget;
    PerformShort(plan, others, v, mode, Bytes(v.lines) + Owed(plan.rows, v.folder, 0));
    PerformKeeps(plan, others, v, mode, []);
    var w := Perform(plan, v, mode, []).task.vault;
    if AllAtSource(plan.rows, w.folder) { NothingOwed(plan.rows, w.folder, 0); }
  }
}
