/** Moves, phases and retreats: no file is lost or replaced, the log never lies, and a move
    fails only when the system refuses it. */
module RenameSafety {
  import opened BatchRename
  import opened RenameJournal
  import opened RenameLog

  /** What reading a plan checks: its length, that no two rows share a file, a source, a
      target or a temporary name, and that the temporary names are none of the others. */
  ghost predicate ValidPlan(plan: Plan) {
    && (plan.logged ==> |plan.rows| <= MAX_ROWS)
    && forall i, j :: 0 <= i < |plan.rows| && 0 <= j < |plan.rows| ==> RowsApart(plan.rows[i], plan.rows[j], i == j)
  }

  ghost predicate RowsApart(a: Row, b: Row, same: bool) {
    && (!same ==> a.id != b.id && a.source.folded != b.source.folded && a.target.folded != b.target.folded
                  && a.temporary.folded != b.temporary.folded)
    && a.temporary.folded != b.source.folded && a.temporary.folded != b.target.folded
  }

  ghost predicate Injective(folder: Folder) {
    forall a, b :: a in folder && b in folder && a != b ==> folder[a].folded != folder[b].folded
  }

  /** The file of a row is at its source, its temporary name or its target. */
  ghost predicate InOnePlace(folder: Folder, row: Row) {
    && row.id in folder && folder[row.id] in {row.source, row.temporary, row.target}
    && (row.source == row.target ==> folder[row.id] == row.source)
  }

  ghost predicate OfRow(rows: seq<Row>, id: nat) {
    exists i :: 0 <= i < |rows| && rows[i].id == id
  }

  /** The files the plan does not mention are `others`, untouched, and none of them has a
      source or temporary name of the plan. */
  ghost predicate OthersKept(rows: seq<Row>, others: Folder, folder: Folder) {
    && (forall id :: !OfRow(rows, id) ==> ((id in folder <==> id in others) && (id in folder ==> folder[id] == others[id])))
    && (forall i, id :: 0 <= i < |rows| && id in others ==>
          id != rows[i].id && others[id].folded != rows[i].source.folded && others[id].folded != rows[i].temporary.folded)
  }

  ghost predicate FolderSane(rows: seq<Row>, others: Folder, folder: Folder) {
    && Injective(folder) && OthersKept(rows, others, folder)
    && (forall i :: 0 <= i < |rows| ==> InOnePlace(folder, rows[i]))
  }

  ghost predicate AllAtSource(rows: seq<Row>, folder: Folder) {
    forall i :: 0 <= i < |rows| ==> rows[i].id in folder && folder[rows[i].id] == rows[i].source
  }

  ghost predicate AllAtTarget(rows: seq<Row>, folder: Folder) {
    forall i :: 0 <= i < |rows| ==> rows[i].id in folder && folder[rows[i].id] == rows[i].target
  }

  /** The last complete state line does not contradict the folder. */
  ghost predicate Truthful(rows: seq<Row>, v: Vault) {
    v.readable ==>
      && (LastState(v.lines) in {Queued, Restored} ==> AllAtSource(rows, v.folder))
      && (LastState(v.lines).Completed? ==> AllAtTarget(rows, v.folder))
  }

  ghost predicate Sane(plan: Plan, others: Folder, v: Vault) {
    FolderSane(plan.rows, others, v.folder) && (plan.logged ==> Truthful(plan.rows, v) && Bytes(v.lines) <= LOG_BUDGET)
  }

  /** And the log can be read. */
  ghost predicate Sound(plan: Plan, others: Folder, v: Vault) {
    Sane(plan, others, v) && v.readable
  }

  /** The rename task's belief about one row is good enough to move and to put back. */
  ghost predicate TrackedRow(folder: Folder, row: Row, current: Name) {
    && row.id in folder && folder[row.id].folded == current.folded
    && (current == row.source ==> folder[row.id] == row.source)
    && (current == row.temporary <==> folder[row.id] == row.temporary)
    && (row.source == row.target ==> current == row.source)
  }

  ghost predicate Tracked(plan: Plan, t: Task) {
    && |t.current| == |plan.rows|
    && (forall i :: 0 <= i < |plan.rows| ==> TrackedRow(t.vault.folder, plan.rows[i], t.current[i]))
  }

  /** The log claims nothing about the files, or accepts no more lines. */
  ghost predicate Loose(plan: Plan, t: Task) {
    plan.logged ==> t.uncertain || LastState(t.vault.lines) in {Running, RecoveryRequired}
  }

  ghost predicate Working(plan: Plan, others: Folder, t: Task) {
    && ValidPlan(plan) && !plan.redirected
    && Sound(plan, others, t.vault) && Tracked(plan, t) && Loose(plan, t)
    && t.lost == {} && (plan.logged ==> t.log == Open)
  }

  /** Nothing will go wrong any more. */
  ghost predicate Smooth(plan: Plan, t: Task) {
    (forall e :: e in t.script ==> e.Proceed?) && (plan.logged ==> !t.uncertain)
  }

  lemma StateSkips(lines: seq<Line>, line: Line)
    requires !line.StateLine?
    ensures LastState(lines + [line]) == LastState(lines)
  {
    assert (lines + [line])[..|lines|] == lines;
  }

  /** What an append can do: add the line or not, leave an incomplete one, and give up. */
  lemma AppendEffect(plan: Plan, t: Task, line: Line)
    requires plan.logged ==> t.log == Open
    ensures var s := Append(plan, t, line);
      && s.task.vault.folder == t.vault.folder && s.task.vault.readable == t.vault.readable
      && (s.task.vault.lines == t.vault.lines || s.task.vault.lines == t.vault.lines + [line])
      && s.task == t.(vault := s.task.vault, uncertain := s.task.uncertain, script := s.task.script)
      && (t.uncertain ==> s.task.uncertain)
      && (s.end.Done? ==> !plan.logged || (!t.uncertain && !s.task.uncertain && s.task.vault.lines == t.vault.lines + [line]))
      && (s.end.Failed? ==> s.task.uncertain || s.task.vault.lines == t.vault.lines)
      && (!plan.logged ==> s == Step(Done, t))
      && (plan.logged && s.task.vault.lines != t.vault.lines ==> Bytes(s.task.vault.lines) <= LOG_BUDGET)
      && (Smooth(plan, t) ==> !s.end.Cut? && Smooth(plan, s.task) && (Room(plan, t, LineSize(line)) ==> s.end.Done?))
  {
    hide LineSize, Written, Bytes;
    if plan.logged {
      WrittenAtEnd(t.vault, t.log, line, true);
      WrittenAtEnd(t.vault, t.log, line, false);
    }
    BytesAppend(t.vault.lines, line);
  }

  /** The invariant of a task speaks about the folder, the last state and the size of the log. */
  lemma SameFolder(plan: Plan, others: Folder, t: Task, t': Task)
    requires Working(plan, others, t)
    requires t'.vault.folder == t.vault.folder && LastState(t'.vault.lines) == LastState(t.vault.lines)
    requires t'.vault.readable == t.vault.readable && t'.current == t.current && t'.lost == t.lost && t'.log == t.log
    requires (t.uncertain ==> t'.uncertain) && (plan.logged ==> Bytes(t'.vault.lines) <= LOG_BUDGET)
    ensures Working(plan, others, t')
  {
  }

  lemma AppendKeeps(plan: Plan, others: Folder, t: Task, line: Line)
    requires Working(plan, others, t) && !line.StateLine?
    ensures var s := Append(plan, t, line);
      && Working(plan, others, s.task) && s.task.vault.folder == t.vault.folder
      && s.task.current == t.current && s.task.mutated == t.mutated
      && (s.end.Done? && plan.logged ==> !s.task.uncertain)
      && (Smooth(plan, t) ==> !s.end.Cut? && Smooth(plan, s.task) && (Room(plan, t, LineSize(line)) ==> s.end.Done?))
  {
    AppendEffect(plan, t, line);
    StateSkips(t.vault.lines, line);
    SameFolder(plan, others, t, Append(plan, t, line).task);
  }

  /** The folder after row `i` took a free name. */
  lemma FolderAfter(plan: Plan, others: Folder, folder: Folder, i: nat, name: Name)
    requires ValidPlan(plan) && FolderSane(plan.rows, others, folder) && i < |plan.rows|
    requires name in {plan.rows[i].source, plan.rows[i].temporary, plan.rows[i].target}
    requires plan.rows[i].source != plan.rows[i].target && Free(folder, plan.rows[i].id, name)
    ensures FolderSane(plan.rows, others, folder[plan.rows[i].id := name])
  {
    var id, after := plan.rows[i].id, folder[plan.rows[i].id := name];
    forall j | 0 <= j < |plan.rows|
      ensures InOnePlace(after, plan.rows[j])
    {
      assert RowsApart(plan.rows[j], plan.rows[i], i == j);
      assert InOnePlace(folder, plan.rows[j]);
    }
    assert OfRow(plan.rows, id);
  }

  /** What a rename can do, with the name taken or not. */
  lemma RenameEffect(plan: Plan, t: Task, i: nat, name: Name)
    requires i < |plan.rows| && !plan.redirected && t.lost == {}
    ensures var s, id := Rename(plan, t, i, name), plan.rows[i].id;
      && s.task == t.(vault := t.vault.(folder := s.task.vault.folder), script := s.task.script)
      && (s.task.vault.folder == t.vault.folder || (Free(t.vault.folder, id, name) && s.task.vault.folder == t.vault.folder[id := name]))
      && (s.end.Done? ==> Free(t.vault.folder, id, name) && s.task.vault.folder == t.vault.folder[id := name])
      && (s.end.Failed? ==> s.task.vault.folder == t.vault.folder)
      && (Smooth(plan, t) ==> Smooth(plan, s.task) && (Free(t.vault.folder, id, name) ==> s.end.Done?))
  {
  }

  lemma TrackedAfter(plan: Plan, t: Task, i: nat, name: Name)
    requires ValidPlan(plan) && Tracked(plan, t)
    requires i < |plan.rows| && plan.rows[i].source != plan.rows[i].target
    requires name in {plan.rows[i].source, plan.rows[i].temporary, plan.rows[i].target}
    ensures Tracked(plan, t.(vault := t.vault.(folder := t.vault.folder[plan.rows[i].id := name]), current := t.current[i := name]))
  {
    var after := t.vault.folder[plan.rows[i].id := name];
    forall j | 0 <= j < |plan.rows|
      ensures TrackedRow(after, plan.rows[j], t.current[i := name][j])
    {
      assert RowsApart(plan.rows[j], plan.rows[i], i == j) && RowsApart(plan.rows[i], plan.rows[i], true);
      assert TrackedRow(t.vault.folder, plan.rows[j], t.current[j]);
    }
  }

  /** The state of a task whose row `i` has moved. */
  function Moved(plan: Plan, t: Task, i: nat, name: Name): Task
    requires i < |plan.rows| == |t.current|
  {
    t.(vault := t.vault.(folder := t.vault.folder[plan.rows[i].id := name]), current := t.current[i := name], mutated := true)
  }

  lemma MovedKeeps(plan: Plan, others: Folder, t: Task, i: nat, name: Name)
    requires Working(plan, others, t) && !(plan.logged && t.uncertain)
    requires i < |plan.rows| && plan.rows[i].source != plan.rows[i].target && Free(t.vault.folder, plan.rows[i].id, name)
    requires name in {plan.rows[i].source, plan.rows[i].temporary, plan.rows[i].target}
    ensures Working(plan, others, Moved(plan, t, i, name))
  {
    FolderAfter(plan, others, t.vault.folder, i, name);
    TrackedAfter(plan, t, i, name);
  }

  ghost predicate SameFiles(t: Task, t': Task) {
    t'.current == t.current && t'.vault.folder == t.vault.folder && t'.mutated == t.mutated
  }

  lemma ShiftKeeps(plan: Plan, others: Folder, t: Task, i: nat, name: Name)
    requires Working(plan, others, t) && !(plan.logged && t.uncertain)
    requires i < |plan.rows| && plan.rows[i].source != plan.rows[i].target
    requires name in {plan.rows[i].source, plan.rows[i].temporary, plan.rows[i].target}
    ensures var s := Shift(plan, t, i, name);
      && Sound(plan, others, s.task.vault)
      && (!s.end.Cut? ==> Working(plan, others, s.task))
      && (s.end.Done? ==> SameFiles(Moved(plan, t, i, name), s.task))
      && (s.end.Failed? ==> SameFiles(t, s.task))
      && s.task.uncertain == t.uncertain
      && (Smooth(plan, t) ==> Smooth(plan, s.task) && !s.end.Cut? && (Free(t.vault.folder, plan.rows[i].id, name) ==> s.end.Done?))
  {
    RenameEffect(plan, t, i, name);
    var s := Rename(plan, t, i, name);
    if Free(t.vault.folder, plan.rows[i].id, name) {
      MovedKeeps(plan, others, t, i, name);
    }
    if s.end.Done? {
      SameFolder(plan, others, Moved(plan, t, i, name), Shift(plan, t, i, name).task);
    } else if s.end.Failed? {
      SameFolder(plan, others, t, s.task);
    }
  }

  /** One logged move: done, or without effect, or done but not receipted. */
  lemma MoveKeeps(plan: Plan, others: Folder, t: Task, i: nat, name: Name)
    requires Working(plan, others, t)
    requires i < |plan.rows| && plan.rows[i].source != plan.rows[i].target
    requires name in {plan.rows[i].source, plan.rows[i].temporary, plan.rows[i].target}
    ensures var s := Move(plan, t, i, name);
      && Sound(plan, others, s.task.vault)
      && (!s.end.Cut? ==> Working(plan, others, s.task))
      && (s.end.Done? ==> SameFiles(Moved(plan, t, i, name), s.task))
      && (s.end.Failed? ==> SameFiles(t, s.task) || SameFiles(Moved(plan, t, i, name), s.task))
      && (Smooth(plan, t) ==> Smooth(plan, s.task) && !s.end.Cut?)
      && (Smooth(plan, t) && Free(t.vault.folder, plan.rows[i].id, name) && Room(plan, t, MoveCost(plan.rows, i, name)) ==> s.end.Done?)
  {
    var role := RoleOf(plan.rows[i], name);
    AppendKeeps(plan, others, t, Intent(i, role));
    if plan.logged { AppendBytes(plan, t, Intent(i, role)); }
    var s1 := Append(plan, t, Intent(i, role));
    if s1.end.Done? {
      ShiftKeeps(plan, others, s1.task, i, name);
      var s2 := Shift(plan, s1.task, i, name);
      if s2.end.Done? {
        AppendKeeps(plan, others, s2.task, Receipt(i, role));
      }
    }
  }
}
