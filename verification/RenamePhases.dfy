/** The two phases and the two passes of a retreat, over any cycle or chain of names. */
module RenamePhases {
  import opened BatchRename
  import opened RenameJournal
  import opened RenameLog
  import opened RenameSafety

  /** Row `i` is at `name`, and the rename task knows it. */
  ghost predicate At(plan: Plan, t: Task, i: nat, name: Name)
    requires i < |plan.rows| == |t.current|
  {
    t.current[i] == name && plan.rows[i].id in t.vault.folder && t.vault.folder[plan.rows[i].id] == name
  }

  /** No foreign file has a name that moving rows want in the end. */
  ghost predicate Clear(plan: Plan, others: Folder, restore: bool) {
    restore || forall i, id :: 0 <= i < |plan.rows| && Moving(plan.rows[i]) && id in others ==> others[id].folded != plan.rows[i].target.folded
  }

  /** Before step `i` of a phase: the moving rows below it have arrived, in the second phase
      the others are at their temporary names. */
  ghost predicate Midway(plan: Plan, t: Task, phase: nat, restore: bool, i: nat)
    requires |t.current| == |plan.rows|
  {
    && (forall j :: 0 <= j < i && j < |plan.rows| && Moving(plan.rows[j]) ==> At(plan, t, j, Goal(plan.rows[j], phase, restore)))
    && (phase == 1 ==> forall j :: i <= j < |plan.rows| && Moving(plan.rows[j]) ==> At(plan, t, j, plan.rows[j].temporary))
  }

  lemma TemporaryFree(plan: Plan, others: Folder, folder: Folder, i: nat)
    requires ValidPlan(plan) && FolderSane(plan.rows, others, folder) && i < |plan.rows|
    ensures Free(folder, plan.rows[i].id, plan.rows[i].temporary)
  {
    forall id | id in folder && id != plan.rows[i].id
      ensures folder[id].folded != plan.rows[i].temporary.folded
    {
      if OfRow(plan.rows, id) {
        var j :| 0 <= j < |plan.rows| && plan.rows[j].id == id;
        assert RowsApart(plan.rows[i], plan.rows[j], i == j) && InOnePlace(folder, plan.rows[j]);
      }
    }
  }

  lemma GoalFree(plan: Plan, others: Folder, t: Task, restore: bool, i: nat)
    requires Working(plan, others, t) && Midway(plan, t, 1, restore, i) && Clear(plan, others, restore)
    requires i < |plan.rows| && Moving(plan.rows[i])
    ensures Free(t.vault.folder, plan.rows[i].id, Goal(plan.rows[i], 1, restore))
  {
    var folder, goal := t.vault.folder, Goal(plan.rows[i], 1, restore);
    forall id | id in folder && id != plan.rows[i].id
      ensures folder[id].folded != goal.folded
    {
      if OfRow(plan.rows, id) {
        var j :| 0 <= j < |plan.rows| && plan.rows[j].id == id;
        assert RowsApart(plan.rows[j], plan.rows[i], i == j);
        assert !Moving(plan.rows[j]) ==> InOnePlace(folder, plan.rows[j]);
        assert Moving(plan.rows[j]) ==> At(plan, t, j, Goal(plan.rows[j], 1, restore)) || At(plan, t, j, plan.rows[j].temporary);
      } else {
        assert id in others && folder[id] == others[id];
      }
    }
  }

  lemma StaysMidway(plan: Plan, t: Task, t': Task, phase: nat, restore: bool, i: nat)
    requires |t.current| == |plan.rows| && ValidPlan(plan) && i < |plan.rows| && phase < 2
    requires Midway(plan, t, phase, restore, i)
    requires if Moving(plan.rows[i]) && t.current[i] != Goal(plan.rows[i], phase, restore)
             then SameFiles(Moved(plan, t, i, Goal(plan.rows[i], phase, restore)), t')
             else t' == t && (Moving(plan.rows[i]) ==> At(plan, t, i, Goal(plan.rows[i], phase, restore)))
    ensures |t'.current| == |plan.rows| && Midway(plan, t', phase, restore, i + 1)
  {
    forall j, name | 0 <= j < |plan.rows| && j != i && At(plan, t, j, name)
      ensures At(plan, t', j, name)
    {
      assert RowsApart(plan.rows[j], plan.rows[i], false);
    }
  }

  lemma AdvanceKeeps(plan: Plan, others: Folder, t: Task, phase: nat, restore: bool, i: nat)
    requires Working(plan, others, t) && phase < 2 && i < |plan.rows|
    requires Midway(plan, t, phase, restore, i)
    ensures var s := Advance(plan, t, phase, restore, i);
      && Sound(plan, others, s.task.vault)
      && (!s.end.Cut? ==> Working(plan, others, s.task) && (s.task.mutated || SameFiles(t, s.task)))
      && (s.end.Done? ==> Midway(plan, s.task, phase, restore, i + 1))
      && (Smooth(plan, t) ==> Smooth(plan, s.task) && !s.end.Cut?)
      && (Smooth(plan, t) && (phase == 0 || Clear(plan, others, restore)) && Room(plan, t, PhaseCost(plan, t.current, phase, restore, i)) ==> s.end.Done?)
  {
    hide MoveCost;
    var row, goal := plan.rows[i], Goal(plan.rows[i], phase, restore);
    if Moving(row) && t.current[i] != goal {
      MoveKeeps(plan, others, t, i, goal);
      if phase == 0 { TemporaryFree(plan, others, t.vault.folder, i); }
      else if Clear(plan, others, restore) { GoalFree(plan, others, t, restore, i); }
    } else {
      assert TrackedRow(t.vault.folder, row, t.current[i]) && RowsApart(row, row, true);
      assert Moving(row) ==> At(plan, t, i, goal);
    }
    var s := Advance(plan, t, phase, restore, i);
    if s.end.Done? { StaysMidway(plan, t, s.task, phase, restore, i); }
  }

  /** A phase keeps the invariant at every interruption, reaches its goal when done, and is
      done if the log has room for its lines, unless the system refuses something. */
  lemma {:induction false} PhaseKeeps(plan: Plan, others: Folder, t: Task, phase: nat, restore: bool, i: nat)
    requires Working(plan, others, t) && phase < 2 && i <= |plan.rows|
    requires Midway(plan, t, phase, restore, i)
    ensures var s := Phase(plan, t, phase, restore, i);
      && Sound(plan, others, s.task.vault)
      && (!s.end.Cut? ==> Working(plan, others, s.task) && (s.task.mutated || SameFiles(t, s.task)))
      && (s.end.Done? ==> Midway(plan, s.task, phase, restore, |plan.rows|))
      && (Smooth(plan, t) ==> Smooth(plan, s.task) && !s.end.Cut?)
      && (Smooth(plan, t) && (phase == 0 || Clear(plan, others, restore)) && Room(plan, t, PhaseCost(plan, t.current, phase, restore, i)) ==> s.end.Done?)
    decreases |plan.rows| - i
  {
    hide Advance, PhaseCost, Bytes, Working, Smooth, Sound, Midway, Clear;
    WorkingParts(plan, others, t);
    if i < |plan.rows| {
      AdvanceKeeps(plan, others, t, phase, restore, i);
      var s := Advance(plan, t, phase, restore, i);
      if s.end.Done? {
        AdvanceBytes(plan, others, t, phase, restore, i);
        PhaseKeeps(plan, others, s.task, phase, restore, i + 1);
      }
    }
  }

  /** What the steps still to come write is what they were to write before. */
  lemma AdvanceBytes(plan: Plan, others: Folder, t: Task, phase: nat, restore: bool, i: nat)
    requires Working(plan, others, t) && i < |plan.rows| && Advance(plan, t, phase, restore, i).end.Done?
    ensures var s := Advance(plan, t, phase, restore, i);
      |t.current| == |s.task.current| == |plan.rows| &&
      (plan.logged ==> Bytes(s.task.vault.lines) + PhaseCost(plan, s.task.current, phase, restore, i + 1)
                       == Bytes(t.vault.lines) + PhaseCost(plan, t.current, phase, restore, i))
  {
    hide MoveCost, Move, Sound;
    if plan.logged { MoveBytes(plan, t, i, Goal(plan.rows[i], phase, restore)); }
    var s := Advance(plan, t, phase, restore, i);
    if plan.logged { PhaseCostSame(plan, t.current, s.task.current, phase, restore, i + 1); }
  }

  /** Both phases: the planned renaming, or the original names. */
  lemma BothPhasesKeep(plan: Plan, others: Folder, t: Task, restore: bool)
    requires Working(plan, others, t)
    ensures var s := BothPhases(plan, t, restore);
      && Sound(plan, others, s.task.vault)
      && (!s.end.Cut? ==> Working(plan, others, s.task) && (s.task.mutated || SameFiles(t, s.task)))
      && (s.end.Done? ==> if restore then AllAtSource(plan.rows, s.task.vault.folder) else AllAtTarget(plan.rows, s.task.vault.folder))
      && (Smooth(plan, t) ==> Smooth(plan, s.task) && !s.end.Cut?)
      && (Smooth(plan, t) && Clear(plan, others, restore) && Room(plan, t, BothCost(plan, t.current, restore)) ==> s.end.Done?)
      && (plan.logged ==> Bytes(s.task.vault.lines) <= Bytes(t.vault.lines) + BothCost(plan, t.current, restore))
      && (plan.logged && s.end.Done? ==> Bytes(s.task.vault.lines) == Bytes(t.vault.lines) + BothCost(plan, t.current, restore))
  {
    hide Phase, PhaseCost, GoalCost;
    PhaseKeeps(plan, others, t, 0, restore, 0);
    var s1 := Phase(plan, t, 0, restore, 0);
    if plan.logged { PhaseBytes(plan, t, 0, restore, 0); }
    if s1.end.Done? {
      AllAside(plan, s1.task, restore);
      if plan.logged { PhaseBytes(plan, s1.task, 1, restore, 0); }
      PhaseKeeps(plan, others, s1.task, 1, restore, 0);
      var s2 := Phase(plan, s1.task, 1, restore, 0);
      if s2.end.Done? {
        forall i | 0 <= i < |plan.rows|
          ensures plan.rows[i].id in s2.task.vault.folder && s2.task.vault.folder[plan.rows[i].id] == Goal(plan.rows[i], 1, restore)
        {
          assert InOnePlace(s2.task.vault.folder, plan.rows[i]);
          assert Moving(plan.rows[i]) ==> At(plan, s2.task, i, Goal(plan.rows[i], 1, restore));
        }
      }
    }
  }

  /** What both phases write, with the files where `current` says. */
  function BothCost(plan: Plan, current: seq<Name>, restore: bool): nat
    requires |current| == |plan.rows|
  {
    PhaseCost(plan, current, 0, restore, 0) + GoalCost(plan, 1, restore, 0)
  }

  lemma AllAside(plan: Plan, t: Task, restore: bool)
    requires ValidPlan(plan) && |t.current| == |plan.rows| && Midway(plan, t, 0, restore, |plan.rows|)
    ensures PhaseCost(plan, t.current, 1, restore, 0) == GoalCost(plan, 1, restore, 0)
  {
    forall j | 0 <= j < |plan.rows| && Moving(plan.rows[j])
      ensures t.current[j] != Goal(plan.rows[j], 1, restore)
    {
      assert RowsApart(plan.rows[j], plan.rows[j], true) && At(plan, t, j, plan.rows[j].temporary);
    }
    PhaseCostBound(plan, t.current, 1, restore, 0);
  }

  // ------------------------------------------------------------------ retreat

  lemma SourceFree(plan: Plan, others: Folder, t: Task, i: nat)
    requires Working(plan, others, t) && i < |plan.rows|
    requires forall j :: 0 <= j < |plan.rows| ==> t.current[j] == plan.rows[j].source || t.current[j] == plan.rows[j].temporary
    ensures Free(t.vault.folder, plan.rows[i].id, plan.rows[i].source)
  {
    var folder := t.vault.folder;
    forall id | id in folder && id != plan.rows[i].id
      ensures folder[id].folded != plan.rows[i].source.folded
    {
      if OfRow(plan.rows, id) {
        var j :| 0 <= j < |plan.rows| && plan.rows[j].id == id;
        assert RowsApart(plan.rows[j], plan.rows[i], i == j) && TrackedRow(folder, plan.rows[j], t.current[j]);
      } else {
        assert id in others && folder[id] == others[id];
      }
    }
  }

  lemma NotMovingAtSource(plan: Plan, t: Task, i: nat)
    requires Tracked(plan, t) && i < |plan.rows| && t.current[i] != plan.rows[i].source
    ensures Moving(plan.rows[i])
  {
    assert TrackedRow(t.vault.folder, plan.rows[i], t.current[i]);
  }

  lemma WorkingParts(plan: Plan, others: Folder, t: Task)
    requires Working(plan, others, t)
    ensures |t.current| == |plan.rows| && Tracked(plan, t) && ValidPlan(plan)
    ensures FolderSane(plan.rows, others, t.vault.folder) && Sound(plan, others, t.vault)
    ensures plan.logged ==> t.log == Open
  {
  }

  lemma {:induction false} RetreatAsideKeeps(plan: Plan, others: Folder, t: Task, i: nat, ok: bool)
    requires Working(plan, others, t) && i <= |plan.rows|
    requires ok ==> forall j :: 0 <= j < i ==> t.current[j] in {plan.rows[j].source, plan.rows[j].temporary}
    ensures var (ok', s) := RetreatAside(plan, t, i, ok);
      && Sound(plan, others, s.task.vault) && !s.end.Failed?
      && (!s.end.Cut? ==> Working(plan, others, s.task))
      && (ok' ==> !s.end.Cut? && forall j :: 0 <= j < |plan.rows| ==> s.task.current[j] in {plan.rows[j].source, plan.rows[j].temporary})
      && (Smooth(plan, t) ==> !s.end.Cut? && Smooth(plan, s.task))
      && (Smooth(plan, t) && ok && Room(plan, t, GoalCost(plan, 0, true, i) + GoalCost(plan, 1, true, 0)) ==> ok')
      && (plan.logged ==> Bytes(s.task.vault.lines) <= Bytes(t.vault.lines) + GoalCost(plan, 0, true, i))
    decreases |plan.rows| - i
  {
    hide Move, Working, Smooth, Sound, FolderSane, ValidPlan, MoveCost, Bytes;
    WorkingParts(plan, others, t);
    if i < |plan.rows| {
      if plan.logged { MoveBytes(plan, t, i, plan.rows[i].temporary); }
      var row := plan.rows[i];
      var s := if t.current[i] != row.source && t.current[i] != row.temporary then Move(plan, t, i, row.temporary) else Step(Done, t);
      if t.current[i] != row.source && t.current[i] != row.temporary {
        NotMovingAtSource(plan, t, i);
        MoveKeeps(plan, others, t, i, row.temporary);
        TemporaryFree(plan, others, t.vault.folder, i);
      }
      if !s.end.Cut? {
        RetreatAsideKeeps(plan, others, s.task, i + 1, ok && s.end.Done?);
      }
    }
  }

  lemma {:induction false} RetreatBackKeeps(plan: Plan, others: Folder, t: Task, i: nat, ok: bool)
    requires Working(plan, others, t) && i <= |plan.rows|
    requires ok ==> forall j :: 0 <= j < i ==> t.current[j] == plan.rows[j].source
    requires ok ==> forall j :: 0 <= j < |plan.rows| ==> t.current[j] in {plan.rows[j].source, plan.rows[j].temporary}
    ensures var (ok', s) := RetreatBack(plan, t, i, ok);
      && Sound(plan, others, s.task.vault) && !s.end.Failed?
      && (!s.end.Cut? ==> Working(plan, others, s.task))
      && (ok' ==> !s.end.Cut? && AllAtSource(plan.rows, s.task.vault.folder))
      && (Smooth(plan, t) ==> !s.end.Cut? && Smooth(plan, s.task))
      && (Smooth(plan, t) && ok && Room(plan, t, GoalCost(plan, 1, true, i)) ==> ok')
      && (plan.logged ==> Bytes(s.task.vault.lines) <= Bytes(t.vault.lines) + GoalCost(plan, 1, true, i))
    decreases |plan.rows| - i
  {
    hide Move, Working, Smooth, Sound, FolderSane, ValidPlan, MoveCost, Bytes;
    WorkingParts(plan, others, t);
    if i < |plan.rows| {
      if plan.logged { MoveBytes(plan, t, i, plan.rows[i].source); }
      var row := plan.rows[i];
      var s := if t.current[i] != row.source then Move(plan, t, i, row.source) else Step(Done, t);
      if t.current[i] != row.source {
        NotMovingAtSource(plan, t, i);
        MoveKeeps(plan, others, t, i, row.source);
        if ok { SourceFree(plan, others, t, i); }
      }
      if !s.end.Cut? {
        RetreatBackKeeps(plan, others, s.task, i + 1, ok && s.end.Done?);
      }
    } else if ok {
      forall j | 0 <= j < |plan.rows|
        ensures t.vault.folder[plan.rows[j].id] == plan.rows[j].source
      {
        assert TrackedRow(t.vault.folder, plan.rows[j], t.current[j]);
      }
    }
  }

  /** What a retreat writes at most. */
  function RetreatCost(plan: Plan): nat {
    GoalCost(plan, 0, true, 0) + GoalCost(plan, 1, true, 0)
  }

  /** A retreat that reports success has restored every name, and it succeeds if the log has
      room for its lines, unless the system refuses something. */
  lemma RetreatKeeps(plan: Plan, others: Folder, t: Task)
    requires Working(plan, others, t)
    ensures var (ok, s) := Retreat(plan, t);
      && Sound(plan, others, s.task.vault) && !s.end.Failed?
      && (!s.end.Cut? ==> Working(plan, others, s.task))
      && (ok ==> !s.end.Cut? && AllAtSource(plan.rows, s.task.vault.folder))
      && (Smooth(plan, t) ==> !s.end.Cut? && Smooth(plan, s.task) && (Room(plan, t, RetreatCost(plan)) ==> ok))
      && (plan.logged ==> Bytes(s.task.vault.lines) <= Bytes(t.vault.lines) + RetreatCost(plan))
  {
    hide GoalCost, Bytes, Working, Smooth, Sound;
    WorkingParts(plan, others, t);
    RetreatAsideKeeps(plan, others, t, 0, true);
    var (ok, s) := RetreatAside(plan, t, 0, true);
    if !s.end.Cut? {
      RetreatBackKeeps(plan, others, s.task, 0, ok);
    }
  }
}
