/** Whole tasks, and any sequence of them, each interrupted anywhere. */
module RenameRuns {
  import opened BatchRename
  import opened RenameJournal
  import opened RenameLog
  import opened RenameSafety
  import opened RenamePhases
  import opened RenameRecovery

  /** Only the log's handle and the script change. */
  lemma OpenLogEffect(t: Task)
    ensures var s := OpenLog(t);
      && s.task == t.(log := s.task.log, script := s.task.script)
      && (s.end.Done? ==> s.task.log == Open)
      && ((forall e :: e in t.script ==> e.Proceed?) ==> !s.end.Cut? && forall e :: e in s.task.script ==> e.Proceed?)
      && (Bytes(t.vault.lines) <= LOG_BUDGET && (forall e :: e in t.script ==> e.Proceed?) ==> s.end.Done?)
  {
    assert t.script != [] ==> t.script[0] in t.script;
  }

  ghost predicate Untouched(t: Task, t': Task) {
    t'.vault.folder == t.vault.folder && t'.mutated == t.mutated && t'.lost == t.lost && t'.current == t.current
  }

  lemma StateCounts(lines: seq<Line>, state: State, note: Note)
    ensures LastState(lines + [StateLine(state, note)]) == state
  {
  }

  /** What an append can do to the log through any handle. */
  lemma AnyAppendEffect(plan: Plan, t: Task, line: Line)
    requires plan.logged
    ensures var s := Append(plan, t, line);
      && s.task.vault.folder == t.vault.folder && (s.task.vault.readable ==> t.vault.readable)
      && (s.task.vault.lines == t.vault.lines || s.task.vault.lines == t.vault.lines + [line] || Replaced(t.vault.lines, s.task.vault.lines, line))
      && (Smooth(plan, t) ==> !s.end.Cut?)
      && (Smooth(plan, t) && t.log == Open && Room(plan, t, LineSize(line)) ==> s.end.Done? && s.task.vault.lines == t.vault.lines + [line])
      && (!t.log.Stray? ==> s.task.vault.readable == t.vault.readable)
      && (s.task.vault.lines != t.vault.lines ==> Room(plan, t, LineSize(line)))
  {
    hide Replaced, Written, Bytes, LineSize;
    WrittenEffect(t.vault, t.log, line, true);
    WrittenEffect(t.vault, t.log, line, false);
  }

  lemma WrittenEffect(v: Vault, log: LogHandle, line: Line, whole: bool)
    ensures var w := Written(v, log, line, whole);
      && w.folder == v.folder && (w.readable ==> v.readable)
      && (w.lines == v.lines || w.lines == v.lines + [line] || Replaced(v.lines, w.lines, line))
      && (whole && !log.Stray? ==> w.lines == v.lines + [line])
      && (!log.Stray? ==> w.readable == v.readable)
  {
    hide Bytes, LineSize;
  }

  /** The line replaces some of the first lines. */
  ghost predicate Replaced(lines: seq<Line>, lines': seq<Line>, line: Line) {
    exists n :: 0 <= n <= |lines| && lines' == [line] + lines[n..]
  }

  /** Replacing the first lines leaves the last state, or makes the new one the last. */
  lemma {:induction false} ReplacedCounts(lines: seq<Line>, n: nat, m: nat, state: State, note: Note)
    requires n <= m <= |lines|
    ensures LastState([StateLine(state, note)] + lines[n..m]) in {state, LastState(lines[..m])}
    decreases m - n
  {
    var now := [StateLine(state, note)] + lines[n..m];
    if n < m {
      assert now[|now| - 1] == lines[m - 1] == lines[..m][m - 1];
      assert now[..|now| - 1] == [StateLine(state, note)] + lines[n..m - 1] && lines[..m][..m - 1] == lines[..m - 1];
      ReplacedCounts(lines, n, m - 1, state, note);
    } else {
      assert now == [StateLine(state, note)];
    }
  }

  /** The log grows by no more than the line. */
  lemma ReplacedBytes(lines: seq<Line>, lines': seq<Line>, line: Line)
    requires lines' == lines || lines' == lines + [line] || Replaced(lines, lines', line)
    ensures Bytes(lines') <= Bytes(lines) + LineSize(line)
  {
    hide LineSize;
    BytesAppend(lines, line);
    if n :| 0 <= n <= |lines| && lines' == [line] + lines[n..] {
      BytesConcat(lines[..n], lines[n..]);
      BytesConcat([line], lines[n..]);
      assert lines == lines[..n] + lines[n..] && [line][..0] == [];
    }
  }

  lemma SaneWithState(plan: Plan, others: Folder, v: Vault, v': Vault, state: State, note: Note)
    requires plan.logged && Sane(plan, others, v)
    requires state.Restored? ==> AllAtSource(plan.rows, v.folder)
    requires state.Running? || state.RecoveryRequired? || state.Restored?
    requires v'.folder == v.folder && (v'.readable ==> v.readable)
    requires v'.lines == v.lines || v'.lines == v.lines + [StateLine(state, note)] || Replaced(v.lines, v'.lines, StateLine(state, note))
    requires v'.lines != v.lines ==> Bytes(v.lines) + 48 + note <= LOG_BUDGET
    ensures Bytes(v'.lines) <= Bytes(v.lines) + 48 + note
    ensures Sane(plan, others, v') && (v'.lines == v.lines + [StateLine(state, note)] ==> LastState(v'.lines) == state)
  {
    hide Bytes, FolderSane, AllAtSource;
    StateCounts(v.lines, state, note);
    ReplacedBytes(v.lines, v'.lines, StateLine(state, note));
    if n :| 0 <= n <= |v.lines| && v'.lines == [StateLine(state, note)] + v.lines[n..] {
      ReplacedCounts(v.lines, n, |v.lines|, state, note);
      assert v.lines[n..|v.lines|] == v.lines[n..] && v.lines[..|v.lines|] == v.lines;
    }
  }

  /** Recording a state that is true of the folder keeps the log truthful, on any handle. */
  lemma RecordKeeps(plan: Plan, others: Folder, t: Task, state: State, note: Note)
    requires plan.logged && Sane(plan, others, t.vault)
    requires state.Restored? ==> AllAtSource(plan.rows, t.vault.folder)
    requires state.Running? || state.RecoveryRequired? || state.Restored?
    ensures var s := Record(plan, t, state, note);
      && Sane(plan, others, s.task.vault) && s.task.vault.folder == t.vault.folder
      && Bytes(s.task.vault.lines) <= Bytes(t.vault.lines) + 48 + note
      && (Smooth(plan, t) && t.log == Open ==> !s.end.Cut?)
      && (Smooth(plan, t) && t.log == Open && Room(plan, t, 48 + note) ==> s.end.Done? && LastState(s.task.vault.lines) == state)
      && (!t.log.Stray? ==> s.task.vault.readable == t.vault.readable)
  {
    hide Replaced, Written, Bytes, LastState, FolderSane, AllAtSource, AllAtTarget;
    OpenLogEffect(t);
    var s1 := if t.log.Unopened? then OpenLog(t) else Step(Done, t);
    if s1.end.Done? {
      AnyAppendEffect(plan, s1.task, StateLine(state, note));
      SaneWithState(plan, others, s1.task.vault, Append(plan, s1.task, StateLine(state, note)).task.vault, state, note);
    }
  }

  /** The log is opened, but the file pointer stays at its start. */
  predicate Misplaced(script: seq<Event>) {
    |script| >= 2 && script[0].Proceed? && script[1].Misplace?
  }

  /** Declaring a record running leaves every file alone. */
  lemma BeginKeeps(plan: Plan, others: Folder, t: Task, note: Note)
    requires Sane(plan, others, t.vault) && plan.logged && !t.uncertain
    ensures var s := Begin(plan, t, note);
      && Sane(plan, others, s.task.vault) && Untouched(t, s.task) && s.task.vault.readable == t.vault.readable
      && (s.end.Done? ==> LastState(s.task.vault.lines).Running? && s.task.log == Open && !s.task.uncertain)
      && (s.end.Failed? && !Misplaced(t.script) && t.log.Unopened? ==> !s.task.log.Stray?)
      && (Smooth(plan, t) ==> !s.end.Cut? && Smooth(plan, s.task) && s.task.log == Open && (Room(plan, t, 48 + note) ==> s.end.Done?))
      && Bytes(t.vault.lines) <= Bytes(s.task.vault.lines) <= Bytes(t.vault.lines) + 48 + note
      && (s.end.Done? ==> Bytes(s.task.vault.lines) == Bytes(t.vault.lines) + 48 + note)
  {
    hide Bytes, Written, FolderSane, LastState;
    var s1 := Check(t);
    if s1.end.Done? {
      OpenLogEffect(s1.task);
      var s2 := OpenLog(s1.task);
      if s2.end.Done? {
        AppendEffect(plan, s2.task, StateLine(Running, note));
        AppendBytes(plan, s2.task, StateLine(Running, note));
        StateCounts(t.vault.lines, Running, note);
      }
    }
  }

  lemma SourcesTracked(plan: Plan, t: Task)
    requires ValidPlan(plan) && t.current == Sources(plan.rows) && AllAtSource(plan.rows, t.vault.folder)
    ensures Tracked(plan, t)
  {
    forall i | 0 <= i < |plan.rows|
      ensures TrackedRow(t.vault.folder, plan.rows[i], t.current[i])
    {
      assert RowsApart(plan.rows[i], plan.rows[i], true);
    }
  }

  lemma CheckKeeps(plan: Plan, others: Folder, t: Task)
    requires Working(plan, others, t)
    ensures var s := Check(t);
      && Working(plan, others, s.task) && s.task == t.(script := s.task.script)
      && (Smooth(plan, t) ==> s.end.Done? && Smooth(plan, s.task))
  {
    hide FolderSane, ValidPlan, TrackedRow, LastState, Bytes, Truthful;
  }

  /** Every file is found: a fresh task finds them at their sources, a recovery by identity. */
  lemma LocateKeeps(plan: Plan, others: Folder, t: Task, mode: Mode)
    requires ValidPlan(plan) && !plan.redirected && plan.logged && Sound(plan, others, t.vault)
    requires LastState(t.vault.lines).Running? && t.log == Open && !t.uncertain && t.lost == {}
    requires |t.current| == |plan.rows|
    requires mode.Fresh? ==> t.current == Sources(plan.rows) && AllAtSource(plan.rows, t.vault.folder)
    ensures var s := Locate(plan, t, mode);
      && s.task.vault == t.vault && s.task.mutated == t.mutated && s.task.log == t.log && s.task.uncertain == t.uncertain
      && (s.end.Done? ==> Working(plan, others, s.task))
      && (Smooth(plan, t) ==> s.end.Done? && Smooth(plan, s.task))
  {
    if mode.Fresh? {
      SourcesTracked(plan, t);
      CheckKeeps(plan, others, t);
    } else {
      DiscoveryTracks(plan, others, t.vault.folder);
      CheckKeeps(plan, others, t.(current := Discovered(t.vault.folder, plan.rows, Candidates(plan.rows, |plan.rows|))));
    }
  }

  ghost predicate Arrived(plan: Plan, mode: Mode, folder: Folder) {
    if mode.Restore? then AllAtSource(plan.rows, folder) else AllAtTarget(plan.rows, folder)
  }

  function Last(mode: Mode): State {
    if mode.Restore? then Restored else Completed
  }

  ghost predicate Startable(plan: Plan, others: Folder, v: Vault, mode: Mode) {
    ValidPlan(plan) && !plan.redirected && plan.logged && Sane(plan, others, v) && Allowed(v, mode)
  }

  /** Where the files are. */
  function Places(rows: seq<Row>, folder: Folder): (names: seq<Name>)
    ensures |names| == |rows|
  {
    seq(|rows|, i requires 0 <= i < |rows| => if rows[i].id in folder then folder[rows[i].id] else rows[i].source)
  }

  /** What a run writes if it goes through: two state lines, and two lines for every move. */
  function RunCost(plan: Plan, folder: Folder, mode: Mode): nat {
    BothCost(plan, Places(plan.rows, folder), mode.Restore?) + 2 * (48 + mode.notes.working)
  }

  /** What a run writes at most, its cleanup included. */
  function WorstCost(plan: Plan, mode: Mode): nat {
    GoalCost(plan, 0, mode.Restore?, 0) + GoalCost(plan, 1, mode.Restore?, 0) + RetreatCost(plan)
    + 2 * (48 + mode.notes.working) + 48 + mode.notes.failing
  }

  lemma PlacesCost(plan: Plan, t: Task, restore: bool)
    requires Tracked(plan, t)
    ensures BothCost(plan, t.current, restore) == BothCost(plan, Places(plan.rows, t.vault.folder), restore)
    ensures BothCost(plan, t.current, restore) <= GoalCost(plan, 0, restore, 0) + GoalCost(plan, 1, restore, 0)
  {
    var names := Places(plan.rows, t.vault.folder);
    forall j | 0 <= j < |plan.rows|
      ensures t.current[j] == plan.rows[j].temporary <==> names[j] == plan.rows[j].temporary
    {
      assert TrackedRow(t.vault.folder, plan.rows[j], t.current[j]);
    }
    PhaseCostSame(plan, t.current, names, 0, restore, 0);
    PhaseCostBound(plan, t.current, 0, restore, 0);
  }

  lemma RunWithinWorst(plan: Plan, others: Folder, v: Vault, mode: Mode)
    ensures RunCost(plan, v.folder, mode) <= WorstCost(plan, mode)
  {
    PhaseCostBound(plan, Places(plan.rows, v.folder), 0, mode.Restore?, 0);
  }

  /** The log of a plan with as many rows as allowed has room for one run, its cleanup included. */
  lemma WorstBound(plan: Plan, mode: Mode)
    requires |plan.rows| <= MAX_ROWS
    ensures WorstCost(plan, mode) <= 468 * |plan.rows| + 24576 <= LOG_BUDGET
  {
    hide GoalCost;
    GoalCostBound(plan, 0, mode.Restore?, 0);
    GoalCostBound(plan, 1, mode.Restore?, 0);
    GoalCostBound(plan, 0, true, 0);
    GoalCostBound(plan, 1, true, 0);
  }

  /** What a failed task leaves to its cleanup. */
  ghost predicate Settling(plan: Plan, others: Folder, v: Vault, mode: Mode, script: seq<Event>, t: Task) {
    && |t.current| == |plan.rows| && Sound(plan, others, t.vault)
    && (if t.mutated then Working(plan, others, t) else t.vault.folder == v.folder && (t.log.Stray? ==> Misplaced(script)))
    && (script == [] ==> Smooth(plan, t) && t.log == Open)
    && Bytes(t.vault.lines) + RetreatCost(plan) + 48 + mode.notes.failing <= Bytes(v.lines) + WorstCost(plan, mode)
  }

  /** The working part of a task, whatever interrupts it. */
  lemma WorkKeeps(plan: Plan, others: Folder, v: Vault, mode: Mode, script: seq<Event>)
    requires Startable(plan, others, v, mode)
    ensures var s := Work(plan, Started(plan, v, script), mode);
      && Sound(plan, others, s.task.vault)
      && (s.end.Done? ==> Arrived(plan, mode, s.task.vault.folder) && LastState(s.task.vault.lines) == Last(mode))
      && (s.end.Done? ==> Bytes(s.task.vault.lines) == Bytes(v.lines) + RunCost(plan, v.folder, mode))
      && (s.end.Failed? ==> Settling(plan, others, v, mode, script, s.task))
      && Bytes(s.task.vault.lines) + RetreatCost(plan) + 48 + mode.notes.failing <= Bytes(v.lines) + WorstCost(plan, mode)
      && (script == [] ==> !s.end.Cut?)
      && (script == [] && Clear(plan, others, mode.Restore?) && Bytes(v.lines) + RunCost(plan, v.folder, mode) <= LOG_BUDGET ==> s.end.Done?)
  {
    hide Begin, Locate, Carry, Bytes, BothCost, GoalCost, RetreatCost, FolderSane, Clear, TrackedRow, ValidPlan, Places;
    var t0 := Started(plan, v, script);
    BeginKeeps(plan, others, t0, mode.notes.working);
    var s1 := Begin(plan, t0, mode.notes.working);
    if s1.end.Done? {
      LocateKeeps(plan, others, s1.task, mode);
      var s2 := Locate(plan, s1.task, mode);
      if s2.end.Done? {
        CarryKeeps(plan, others, s2.task, mode);
      }
    }
  }

  lemma LastLineKeeps(plan: Plan, others: Folder, t: Task, mode: Mode)
    requires Working(plan, others, t) && plan.logged && Arrived(plan, mode, t.vault.folder)
    ensures var s := Append(plan, t, StateLine(Last(mode), mode.notes.working));
      && Sound(plan, others, s.task.vault) && Untouched(t, s.task)
      && (s.end.Done? ==> LastState(s.task.vault.lines) == Last(mode))
      && (s.end.Failed? ==> Working(plan, others, s.task))
      && (Smooth(plan, t) ==> !s.end.Cut? && Smooth(plan, s.task) && (Room(plan, t, 48 + mode.notes.working) ==> s.end.Done?))
      && Bytes(s.task.vault.lines) <= Bytes(t.vault.lines) + 48 + mode.notes.working
      && (s.end.Done? ==> Bytes(s.task.vault.lines) == Bytes(t.vault.lines) + 48 + mode.notes.working)
  {
    hide Bytes, Written, FolderSane, Append;
    AppendEffect(plan, t, StateLine(Last(mode), mode.notes.working));
    AppendBytes(plan, t, StateLine(Last(mode), mode.notes.working));
    StateCounts(t.vault.lines, Last(mode), mode.notes.working);
  }

  lemma CarryKeeps(plan: Plan, others: Folder, t: Task, mode: Mode)
    requires Working(plan, others, t) && plan.logged
    ensures var s, cost := Carry(plan, t, mode), BothCost(plan, Places(plan.rows, t.vault.folder), mode.Restore?) + 48 + mode.notes.working;
      && Sound(plan, others, s.task.vault)
      && (s.end.Done? ==> Arrived(plan, mode, s.task.vault.folder) && LastState(s.task.vault.lines) == Last(mode))
      && (s.end.Done? ==> Bytes(s.task.vault.lines) == Bytes(t.vault.lines) + cost)
      && (s.end.Failed? ==> Working(plan, others, s.task) && (s.task.mutated || SameFiles(t, s.task)))
      && Bytes(s.task.vault.lines) <= Bytes(t.vault.lines) + GoalCost(plan, 0, mode.Restore?, 0) + GoalCost(plan, 1, mode.Restore?, 0) + 48 + mode.notes.working
      && (Smooth(plan, t) ==> !s.end.Cut? && Smooth(plan, s.task) && (Clear(plan, others, mode.Restore?) && Room(plan, t, cost) ==> s.end.Done?))
  {
    hide BothPhases, Append, Bytes, BothCost, GoalCost, FolderSane, LastState, Clear, TrackedRow, AllAtSource, AllAtTarget, ValidPlan, Places;
    PlacesCost(plan, t, mode.Restore?);
    BothPhasesKeep(plan, others, t, mode.Restore?);
    var s := BothPhases(plan, t, mode.Restore?);
    if s.end.Done? { LastLineKeeps(plan, others, s.task, mode); }
  }

  /** How a failure that left files untouched, or put them back, ends when nothing more
      goes wrong. */
  ghost predicate Settled(plan: Plan, v: Vault, mode: Mode, v': Vault) {
    || (LastState(v'.lines).Restored? && AllAtSource(plan.rows, v'.folder))
    || (!mode.Fresh? && LastState(v'.lines).RecoveryRequired? && v'.folder == v.folder)
  }

  lemma FinalizeKeeps(plan: Plan, others: Folder, v: Vault, mode: Mode, script: seq<Event>, t: Task)
    requires Startable(plan, others, v, mode) && Settling(plan, others, v, mode, script, t)
    ensures var s := Finalize(plan, t, mode);
      && Sane(plan, others, s.task.vault) && (!Misplaced(script) ==> s.task.vault.readable)
      && Bytes(s.task.vault.lines) <= Bytes(v.lines) + WorstCost(plan, mode)
      && (script == [] ==> !s.end.Cut?)
      && (script == [] && Bytes(v.lines) + WorstCost(plan, mode) <= LOG_BUDGET ==> s.end.Done? && Settled(plan, v, mode, s.task.vault))
  {
    hide Bytes, WorstCost, RetreatCost, FolderSane, LastState, Retreat, Record;
    if t.mutated {
      RetreatKeeps(plan, others, t);
      var (ok, s) := Retreat(plan, t);
      if !s.end.Cut? {
        RecordKeeps(plan, others, s.task, if ok then Restored else RecoveryRequired, mode.notes.failing);
      }
    } else {
      RecordKeeps(plan, others, t, if mode.Fresh? then Restored else RecoveryRequired, mode.notes.failing);
    }
  }

  /** One task, fresh or a recovery, interrupted anywhere or not at all: no file is lost or
      replaced, the log's last complete state is true of the folder, and success is real. */
  lemma PerformKeeps(plan: Plan, others: Folder, v: Vault, mode: Mode, script: seq<Event>)
    requires ValidPlan(plan) && !plan.redirected && plan.logged && Sane(plan, others, v)
    ensures var s := Perform(plan, v, mode, script);
      && Sane(plan, others, s.task.vault) && Bytes(s.task.vault.lines) <= Bytes(v.lines) + WorstCost(plan, mode)
      && (s.end.Done? ==> Arrived(plan, mode, s.task.vault.folder) && LastState(s.task.vault.lines) == Last(mode))
  {
    hide Work, Finalize, WorstCost, Bytes, Truthful, FolderSane;
    if Allowed(v, mode) {
      WorkKeeps(plan, others, v, mode, script);
      var s := Work(plan, Started(plan, v, script), mode);
      if s.end.Failed? {
        FinalizeKeeps(plan, others, v, mode, script, s.task);
      }
    }
  }

  lemma ClearIfDone(plan: Plan, others: Folder, folder: Folder)
    requires FolderSane(plan.rows, others, folder) && AllAtTarget(plan.rows, folder)
    ensures Clear(plan, others, false)
  {
    forall i, id | 0 <= i < |plan.rows| && Moving(plan.rows[i]) && id in others
      ensures others[id].folded != plan.rows[i].target.folded
    {
      assert !OfRow(plan.rows, id);
      assert folder[id] == others[id] && id != plan.rows[i].id;
    }
  }

  /** When the system refuses nothing, a task succeeds exactly when no foreign file has a
      name it wants and the log has room for its lines; otherwise, if the log has room for a
      cleanup too, the original names are back, or a recovery that could not move anything
      says so. */
  lemma PerformSettles(plan: Plan, others: Folder, v: Vault, mode: Mode)
    requires Startable(plan, others, v, mode)
    ensures var s := Perform(plan, v, mode, []);
      && (s.end.Done? <==> Clear(plan, others, mode.Restore?) && Bytes(v.lines) + RunCost(plan, v.folder, mode) <= LOG_BUDGET)
      && s.task.vault.readable && !s.end.Cut?
      && (s.end.Done? ==> Arrived(plan, mode, s.task.vault.folder) && LastState(s.task.vault.lines) == Last(mode))
      && (!s.end.Done? && Bytes(v.lines) + WorstCost(plan, mode) <= LOG_BUDGET ==> Settled(plan, v, mode, s.task.vault))
  {
    hide Work, Finalize, Bytes, RunCost, WorstCost, FolderSane, LastState, Settled;
    WorkKeeps(plan, others, v, mode, []);
    var s := Work(plan, Started(plan, v, []), mode);
    if s.end.Failed? {
      FinalizeKeeps(plan, others, v, mode, [], s.task);
    } else if !mode.Restore? {
      ClearIfDone(plan, others, s.task.vault.folder);
    }
  }

  /** The log is opened once. A run whose opening is refused changes nothing at all, neither a
      name nor the log; one whose opening fails behind the last line still records, undisturbed
      and if there is room, how it ended, and nothing else. */
  lemma OpenedOnce(plan: Plan, v: Vault, mode: Mode, script: seq<Event>)
    requires plan.logged && Allowed(v, mode) && |script| >= 3 && script[0].Proceed?
    ensures var s, line := Perform(plan, v, mode, script), StateLine(if mode.Fresh? then Restored else RecoveryRequired, mode.notes.failing);
      && (script[1].Refuse? ==> s.end.Failed? && s.task.vault == v)
      && (script[1].Spoil? && script[2].Proceed? ==>
            s.end.Failed? && s.task.vault == if Bytes(v.lines) + LineSize(line) <= LOG_BUDGET then v.(lines := v.lines + [line]) else v)
  {
    hide Bytes, LineSize, BothPhases, Locate, Retreat;
    assert script[1..][0] == script[1] && script[1..][1..] == script[2..] && script[2..][0] == script[2];
    var t := Started(plan, v, script);
    var b := Begin(plan, t, mode.notes.working);
    if script[1].Refuse? || script[1].Spoil? {
      assert b == Step(Failed, t.(log := if script[1].Refuse? then Broken else Open, script := script[2..]));
      assert Work(plan, t, mode) == b;
    }
  }

  lemma MisplacedWork(plan: Plan, v: Vault, mode: Mode, script: seq<Event>)
    requires plan.logged && Misplaced(script)
    requires Bytes(v.lines) <= LOG_BUDGET
    ensures Work(plan, Started(plan, v, script), mode) == Step(Failed, Started(plan, v, script[2..]).(log := Stray))
  {
    hide Append, Locate, BothPhases, Bytes;
  }

  /** A write of `size` bytes over the first lines takes place, and is cut short or ends inside
      one of them. */
  predicate Damages(script: seq<Event>, lines: seq<Line>, size: nat) {
    && Bytes(lines) + size <= LOG_BUDGET
    && if script == [] || script[0].Proceed? then EndsInside(lines, size)
       else match script[0]
         case Spoil(whole) => !whole || EndsInside(lines, size)
         case PowerLoss(whole) => !whole || EndsInside(lines, size)
         case _ => false
  }

  lemma MisplacedFinalize(plan: Plan, t: Task, mode: Mode)
    requires plan.logged && t.log.Stray? && !t.mutated && !t.uncertain && |t.current| == |plan.rows| && t.vault.readable
    ensures !Finalize(plan, t, mode).task.vault.readable <==> t.vault.lines != [] && Damages(t.script, t.vault.lines, 48 + mode.notes.failing)
  {
    hide Retreat, Bytes, EndsInside, Covered;
  }

  /** A task destroys its log exactly when it opened a log with lines without getting to its
      end, and then wrote its last state over the first lines in part, or wholly but ending
      inside one of them. */
  lemma UnreadableExactly(plan: Plan, others: Folder, v: Vault, mode: Mode, script: seq<Event>)
    requires Startable(plan, others, v, mode)
    ensures !Perform(plan, v, mode, script).task.vault.readable <==>
      v.lines != [] && Misplaced(script) && Damages(script[2..], v.lines, 48 + mode.notes.failing)
  {
    hide Work, Finalize, Damages;
    if Misplaced(script) {
      MisplacedWork(plan, v, mode, script);
      MisplacedFinalize(plan, Work(plan, Started(plan, v, script), mode).task, mode);
    } else {
      WorkKeeps(plan, others, v, mode, script);
      var s := Work(plan, Started(plan, v, script), mode);
      if s.end.Failed? { FinalizeKeeps(plan, others, v, mode, script, s.task); }
    }
  }

  // --------------------------------------------------------------------- runs

  /** What a user can do with a record. */
  datatype Command = Attempt(mode: Mode, script: seq<Event>) | CancelUnstarted(script: seq<Event>, note: Note)

  function After(plan: Plan, v: Vault, command: Command): Vault {
    match command
    case Attempt(mode, script) => Perform(plan, v, mode, script).task.vault
    case CancelUnstarted(script, note) => Cancel(plan, v, script, note).task.vault
  }

  function AfterAll(plan: Plan, v: Vault, commands: seq<Command>): Vault
    decreases |commands|
  {
    if commands == [] then v else AfterAll(plan, After(plan, v, commands[0]), commands[1..])
  }

  /** A new record: nothing logged, every file at its source. */
  ghost predicate Pristine(plan: Plan, others: Folder, v: Vault) {
    v.lines == [] && v.readable && FolderSane(plan.rows, others, v.folder) && AllAtSource(plan.rows, v.folder)
  }

  lemma {:induction false} RunsKeep(plan: Plan, others: Folder, v: Vault, commands: seq<Command>)
    requires ValidPlan(plan) && !plan.redirected && plan.logged && Sane(plan, others, v)
    ensures Sane(plan, others, AfterAll(plan, v, commands))
    decreases |commands|
  {
    if commands != [] {
      match commands[0] {
        case Attempt(mode, script) => PerformKeeps(plan, others, v, mode, script);
        case CancelUnstarted(script, note) =>
          if Allowed(v, Fresh(Notes(note, note))) { RecordKeeps(plan, others, Started(plan, v, script), Restored, note); }
      }
      RunsKeep(plan, others, After(plan, v, commands[0]), commands[1..]);
    }
  }

  /** Over any sequence of fresh starts, cancellations, resumptions and restorations, each of
      them cut off or refused anything anywhere: every file is at one of its three names, no
      foreign file is touched, `Completed` means every target name is in place and `Restored`
      every source name, and while neither is recorded and the log can be read, one
      undisturbed restoration brings back exactly the original names if and only if the log
      has room for its lines. */
  lemma AnyRunCanBeRestored(plan: Plan, others: Folder, v: Vault, commands: seq<Command>, notes: Notes)
    requires ValidPlan(plan) && !plan.redirected && plan.logged && Pristine(plan, others, v)
    ensures var w := AfterAll(plan, v, commands);
      && FolderSane(plan.rows, others, w.folder)
      && (w.readable && LastState(w.lines).Completed? ==> AllAtTarget(plan.rows, w.folder))
      && (w.readable && LastState(w.lines).Restored? ==> AllAtSource(plan.rows, w.folder))
      && (w.readable && LastState(w.lines) !in {Completed, Restored} ==>
            var back, on := Perform(plan, w, Restore(notes), []), Perform(plan, w, Resume(notes), []);
            && (back.end.Done? <==> Bytes(w.lines) + RunCost(plan, w.folder, Restore(notes)) <= LOG_BUDGET)
            && (back.end.Done? ==> AllAtSource(plan.rows, back.task.vault.folder))
            && (on.end.Done? <==> Clear(plan, others, false) && Bytes(w.lines) + RunCost(plan, w.folder, Resume(notes)) <= LOG_BUDGET)
            && (on.end.Done? ==> AllAtTarget(plan.rows, on.task.vault.folder)))
  {
    assert Bytes(v.lines) == 0;
    hide Perform, RunCost, Bytes;
    RunsKeep(plan, others, v, commands);
    var w := AfterAll(plan, v, commands);
    if w.readable && LastState(w.lines) !in {Completed, Restored} {
      PerformSettles(plan, others, w, Restore(notes));
      PerformSettles(plan, others, w, Resume(notes));
    }
  }
}
