/** What renaming keeps on every folder, a redirected one included, where a rename that
    happened may be reported as failed: no file is lost or replaced, and whatever goes
    through without a failure is what it is elsewhere. */
module RenameFolder {
  import opened BatchRename
  import opened RenameJournal
  import opened RenameSafety
  import opened RenamePhases
  import opened RenameRecovery

  /** Rows that keep their names are believed to be where they are. */
  ghost predicate Anchored(plan: Plan, t: Task) {
    |t.current| == |plan.rows| && forall i :: 0 <= i < |plan.rows| && !Moving(plan.rows[i]) ==> t.current[i] == plan.rows[i].source
  }

  ghost predicate Kept(plan: Plan, others: Folder, t: Task) {
    ValidPlan(plan) && FolderSane(plan.rows, others, t.vault.folder) && Anchored(plan, t)
  }

  lemma AppendSpares(plan: Plan, t: Task, line: Line)
    ensures var s := Append(plan, t, line); s.task.vault.folder == t.vault.folder && s.task.current == t.current && s.task.mutated == t.mutated
  {
    WrittenSpares(t.vault, t.log, line, true);
    WrittenSpares(t.vault, t.log, line, false);
    hide Written;
  }

  lemma WrittenSpares(v: Vault, log: LogHandle, line: Line, whole: bool)
    ensures Written(v, log, line, whole).folder == v.folder
  {
  }

  lemma RenameSpares(plan: Plan, t: Task, i: nat, name: Name)
    requires i < |plan.rows|
    ensures var s, id := Rename(plan, t, i, name), plan.rows[i].id;
      && s.task.current == t.current
      && (s.task.vault.folder == t.vault.folder || (Free(t.vault.folder, id, name) && s.task.vault.folder == t.vault.folder[id := name]))
  {
  }

  lemma AnyMoveKeeps(plan: Plan, others: Folder, t: Task, i: nat, name: Name)
    requires Kept(plan, others, t) && i < |plan.rows| && Moving(plan.rows[i])
    requires name in {plan.rows[i].source, plan.rows[i].temporary, plan.rows[i].target}
    ensures Kept(plan, others, Move(plan, t, i, name).task)
  {
    hide Append, Rename, FolderSane;
    var role := RoleOf(plan.rows[i], name);
    AppendSpares(plan, t, Intent(i, role));
    var s1 := Append(plan, t, Intent(i, role));
    if s1.end.Done? {
      RenameSpares(plan, s1.task, i, name);
      if Free(t.vault.folder, plan.rows[i].id, name) { FolderAfter(plan, others, t.vault.folder, i, name); }
      var s2 := Shift(plan, s1.task, i, name);
      AppendSpares(plan, s2.task, Receipt(i, role));
    }
  }

  lemma {:induction false} AnyPhaseKeeps(plan: Plan, others: Folder, t: Task, phase: nat, restore: bool, i: nat)
    requires Kept(plan, others, t) && i <= |plan.rows|
    ensures Kept(plan, others, Phase(plan, t, phase, restore, i).task)
    decreases |plan.rows| - i
  {
    hide Kept, Move;
    assert |t.current| == |plan.rows| by { KeptLength(plan, others, t); }
    if i < |plan.rows| {
      var row, goal := plan.rows[i], Goal(plan.rows[i], phase, restore);
      if row.source != row.target && t.current[i] != goal { AnyMoveKeeps(plan, others, t, i, goal); }
      var s := Advance(plan, t, phase, restore, i);
      if s.end.Done? { AnyPhaseKeeps(plan, others, s.task, phase, restore, i + 1); }
    }
  }

  lemma KeptLength(plan: Plan, others: Folder, t: Task)
    requires Kept(plan, others, t)
    ensures |t.current| == |plan.rows|
  {
  }

  lemma AnyBothPhasesKeep(plan: Plan, others: Folder, t: Task, restore: bool)
    requires Kept(plan, others, t)
    ensures Kept(plan, others, BothPhases(plan, t, restore).task)
  {
    hide Phase, Kept;
    KeptLength(plan, others, t);
    AnyPhaseKeeps(plan, others, t, 0, restore, 0);
    var s := Phase(plan, t, 0, restore, 0);
    AnyPhaseKeeps(plan, others, s.task, 1, restore, 0);
  }

  lemma Elsewhere(plan: Plan, others: Folder, t: Task, i: nat)
    requires Kept(plan, others, t) && i < |plan.rows| && t.current[i] != plan.rows[i].source
    ensures Moving(plan.rows[i])
  {
  }

  lemma {:induction false} AnyRetreatAsideKeeps(plan: Plan, others: Folder, t: Task, i: nat, ok: bool)
    requires Kept(plan, others, t) && i <= |plan.rows|
    ensures Kept(plan, others, RetreatAside(plan, t, i, ok).1.task)
    decreases |plan.rows| - i
  {
    hide Kept, Move;
    KeptLength(plan, others, t);
    if i < |plan.rows| {
      var row := plan.rows[i];
      var moves := t.current[i] != row.source && t.current[i] != row.temporary;
      var s := if moves then Move(plan, t, i, row.temporary) else Step(Done, t);
      if moves {
        Elsewhere(plan, others, t, i);
        AnyMoveKeeps(plan, others, t, i, row.temporary);
      }
      if !s.end.Cut? { AnyRetreatAsideKeeps(plan, others, s.task, i + 1, ok && s.end.Done?); }
    }
  }

  lemma {:induction false} AnyRetreatBackKeeps(plan: Plan, others: Folder, t: Task, i: nat, ok: bool)
    requires Kept(plan, others, t) && i <= |plan.rows|
    ensures Kept(plan, others, RetreatBack(plan, t, i, ok).1.task)
    decreases |plan.rows| - i
  {
    hide Kept, Move;
    KeptLength(plan, others, t);
    if i < |plan.rows| {
      var row := plan.rows[i];
      var s := if t.current[i] != row.source then Move(plan, t, i, row.source) else Step(Done, t);
      if t.current[i] != row.source {
        Elsewhere(plan, others, t, i);
        AnyMoveKeeps(plan, others, t, i, row.source);
      }
      if !s.end.Cut? { AnyRetreatBackKeeps(plan, others, s.task, i + 1, ok && s.end.Done?); }
    }
  }

  lemma AnyRetreatKeeps(plan: Plan, others: Folder, t: Task)
    requires Kept(plan, others, t)
    ensures Kept(plan, others, Retreat(plan, t).1.task)
  {
    hide Kept, RetreatAside, RetreatBack;
    KeptLength(plan, others, t);
    AnyRetreatAsideKeeps(plan, others, t, 0, true);
    var (ok, s) := RetreatAside(plan, t, 0, true);
    AnyRetreatBackKeeps(plan, others, s.task, 0, ok);
  }

  // ------------------------------------------------------- without a failure

  function Plain(plan: Plan): Plan {
    plan.(redirected := false)
  }

  lemma AppendAlike(plan: Plan, t: Task, line: Line)
    ensures Append(plan, t, line) == Append(Plain(plan), t, line)
  {
    hide Written, Bytes;
  }

  lemma ShiftAlike(plan: Plan, t: Task, i: nat, name: Name)
    requires i < |plan.rows| == |t.current|
    ensures Shift(plan, t, i, name).end.Done? || Shift(Plain(plan), t, i, name).end.Done? ==> Shift(plan, t, i, name) == Shift(Plain(plan), t, i, name)
  {
  }

  /** What goes through on a redirected folder goes through anywhere, and the other way round. */
  lemma MoveAlike(plan: Plan, t: Task, i: nat, name: Name)
    requires i < |plan.rows| == |t.current|
    ensures Move(plan, t, i, name).end.Done? || Move(Plain(plan), t, i, name).end.Done? ==> Move(plan, t, i, name) == Move(Plain(plan), t, i, name)
  {
    hide Append, Shift;
    var role := RoleOf(plan.rows[i], name);
    AppendAlike(plan, t, Intent(i, role));
    AppendSpares(plan, t, Intent(i, role));
    var s1 := Append(plan, t, Intent(i, role));
    if s1.end.Done? {
      ShiftAlike(plan, s1.task, i, name);
      AppendAlike(plan, Shift(plan, s1.task, i, name).task, Receipt(i, role));
    }
  }

  lemma {:induction false} PhaseAlike(plan: Plan, t: Task, phase: nat, restore: bool, i: nat)
    requires i <= |plan.rows| == |t.current|
    ensures var s, e := Phase(plan, t, phase, restore, i), Phase(Plain(plan), t, phase, restore, i); s.end.Done? || e.end.Done? ==> s == e
    decreases |plan.rows| - i
  {
    hide Move;
    if i < |plan.rows| {
      var goal := Goal(plan.rows[i], phase, restore);
      MoveAlike(plan, t, i, goal);
      var s := Advance(plan, t, phase, restore, i);
      if s.end.Done? { PhaseAlike(plan, s.task, phase, restore, i + 1); }
    }
  }

  lemma BothPhasesAlike(plan: Plan, t: Task, restore: bool)
    requires |plan.rows| == |t.current|
    ensures var s, e := BothPhases(plan, t, restore), BothPhases(Plain(plan), t, restore); s.end.Done? || e.end.Done? ==> s == e
  {
    hide Phase;
    PhaseAlike(plan, t, 0, restore, 0);
    var s := Phase(plan, t, 0, restore, 0);
    if s.end.Done? { PhaseAlike(plan, s.task, 1, restore, 0); }
  }

  /** Rows that keep their names are passed over. */
  lemma {:induction false} PhaseSkips(plan: Plan, t: Task, phase: nat, restore: bool, i: nat, n: nat)
    requires i <= n <= |plan.rows| == |t.current|
    requires forall j :: i <= j < n ==> !Moving(plan.rows[j])
    ensures Phase(plan, t, phase, restore, i) == Phase(plan, t, phase, restore, n)
    decreases n - i
  {
    if i < n { PhaseSkips(plan, t, phase, restore, i + 1, n); }
  }

  lemma NoPhases(plan: Plan, t: Task, restore: bool)
    requires |t.current| == |plan.rows| && forall j :: 0 <= j < |plan.rows| ==> !Moving(plan.rows[j])
    ensures BothPhases(plan, t, restore) == Step(Done, t)
  {
    PhaseSkips(plan, t, 0, restore, 0, |plan.rows|);
    PhaseSkips(plan, t, 1, restore, 0, |plan.rows|);
  }

  lemma {:induction false} FirstMoving(rows: seq<Row>, n: nat) returns (k: nat)
    requires n < |rows| && Moving(rows[n])
    ensures k < |rows| && Moving(rows[k]) && forall j :: 0 <= j < k ==> !Moving(rows[j])
  {
    k := 0;
    while !Moving(rows[k])
      invariant k <= n && forall j :: 0 <= j < k ==> !Moving(rows[j])
      decreases n - k
    {
      k := k + 1;
    }
  }

  /** A retreat that believes every row at its source does nothing and reports success. */
  lemma RetreatIdle(plan: Plan, t: Task)
    requires |t.current| == |plan.rows| && forall j :: 0 <= j < |plan.rows| ==> t.current[j] == plan.rows[j].source
    ensures Retreat(plan, t) == (true, Step(Done, t))
  {
    AsideIdle(plan, t, 0);
    BackIdle(plan, t, 0);
  }

  lemma {:induction false} AsideIdle(plan: Plan, t: Task, i: nat)
    requires i <= |t.current| == |plan.rows| && forall j :: 0 <= j < |plan.rows| ==> t.current[j] == plan.rows[j].source
    ensures RetreatAside(plan, t, i, true) == (true, Step(Done, t))
    decreases |plan.rows| - i
  {
    if i < |plan.rows| { AsideIdle(plan, t, i + 1); }
  }

  lemma {:induction false} BackIdle(plan: Plan, t: Task, i: nat)
    requires i <= |t.current| == |plan.rows| && forall j :: 0 <= j < |plan.rows| ==> t.current[j] == plan.rows[j].source
    ensures RetreatBack(plan, t, i, true) == (true, Step(Done, t))
    decreases |plan.rows| - i
  {
    if i < |plan.rows| { BackIdle(plan, t, i + 1); }
  }
}
