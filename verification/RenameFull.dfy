/** How the limit of the log shows: a first run always has room, small plans can be restored
    after many runs, two interrupted runs of a largest plan leave no room, and a full log
    stays as it is. */
module RenameFull {
  import opened BatchRename
  import opened RenameJournal
  import opened RenameLog
  import opened RenameSafety
  import opened RenamePhases
  import opened RenameRuns
  import opened RenameBudget

  // ---------------------------------------------------------- room for every run

  /** The most that a command adds to the log. */
  function RunLimit(plan: Plan): nat {
    468 * |plan.rows| + 24576
  }

  lemma CommandGrows(plan: Plan, others: Folder, v: Vault, command: Command)
    requires ValidPlan(plan) && !plan.redirected && plan.logged && Sane(plan, others, v)
    ensures var w := After(plan, v, command); Sane(plan, others, w) && Bytes(w.lines) <= Bytes(v.lines) + RunLimit(plan)
  {
    assert |plan.rows| <= MAX_ROWS;
    hide Perform, Cancel, Bytes, FolderSane, ValidPlan, Truthful;
    match command
    case Attempt(mode, script) =>
      PerformKeeps(plan, others, v, mode, script);
      WorstBound(plan, mode);
    case CancelUnstarted(script, note) => CancelKeeps(plan, others, v, script, note);
  }

  lemma {:induction false} RunsGrow(plan: Plan, others: Folder, v: Vault, commands: seq<Command>)
    requires ValidPlan(plan) && !plan.redirected && plan.logged && Sane(plan, others, v)
    ensures Bytes(AfterAll(plan, v, commands).lines) <= Bytes(v.lines) + |commands| * RunLimit(plan)
    decreases |commands|
  {
    hide After, Bytes, Sane, ValidPlan, RunLimit;
    if commands != [] {
      CommandGrows(plan, others, v, commands[0]);
      RunsGrow(plan, others, After(plan, v, commands[0]), commands[1..]);
      OneMore(|commands| - 1, RunLimit(plan));
    }
  }

  lemma OneMore(n: nat, unit: nat)
    ensures (n + 1) * unit == n * unit + unit
  {
  }

  lemma CancelKeeps(plan: Plan, others: Folder, v: Vault, script: seq<Event>, note: Note)
    requires ValidPlan(plan) && plan.logged && Sane(plan, others, v)
    ensures var w := Cancel(plan, v, script, note).task.vault; Sane(plan, others, w) && Bytes(w.lines) <= Bytes(v.lines) + 8192
  {
    hide Record, Bytes, FolderSane;
    if Allowed(v, Fresh(Notes(note, note))) { RecordKeeps(plan, others, Started(plan, v, script), Restored, note); }
  }

  lemma FitsOnceMore(bytes: nat, cost: nat, n: nat, unit: nat)
    requires bytes <= n * unit && cost <= unit && (n + 1) * unit <= LOG_BUDGET
    ensures bytes + cost <= LOG_BUDGET
  {
    OneMore(n, unit);
  }

  lemma RoomForOneMore(plan: Plan, others: Folder, v: Vault, commands: seq<Command>, notes: Notes)
    requires ValidPlan(plan) && !plan.redirected && plan.logged && Pristine(plan, others, v)
    requires (|commands| + 1) * RunLimit(plan) <= LOG_BUDGET
    ensures var w := AfterAll(plan, v, commands); Bytes(w.lines) + RunCost(plan, w.folder, Restore(notes)) <= LOG_BUDGET
  {
    assert Bytes(v.lines) == 0;
    assert Sane(plan, others, v) && |plan.rows| <= MAX_ROWS;
    WorstBound(plan, Restore(notes));
    assert WorstCost(plan, Restore(notes)) <= RunLimit(plan);
    hide Bytes, RunCost, WorstCost, RunLimit, AfterAll, ValidPlan, Pristine, Sane;
    RunsGrow(plan, others, v, commands);
    var w := AfterAll(plan, v, commands);
    RunWithinWorst(plan, others, w, Restore(notes));
    FitsOnceMore(Bytes(w.lines), RunCost(plan, w.folder, Restore(notes)), |commands|, RunLimit(plan));
  }

  /** As long as every run so far and one more fit the log at their largest, an undisturbed
      restoration brings back the original names. */
  lemma SmallPlansAreRestored(plan: Plan, others: Folder, v: Vault, commands: seq<Command>, notes: Notes)
    requires ValidPlan(plan) && !plan.redirected && plan.logged && Pristine(plan, others, v)
    requires (|commands| + 1) * RunLimit(plan) <= LOG_BUDGET
    ensures var w := AfterAll(plan, v, commands);
      w.readable && LastState(w.lines) !in {Completed, Restored} ==>
        var back := Perform(plan, w, Restore(notes), []); back.end.Done? && AllAtSource(plan.rows, back.task.vault.folder)
  {
    RoomForOneMore(plan, others, v, commands, notes);
    hide Perform, Bytes, RunCost, RunLimit, AfterAll, Clear, ValidPlan, AllAtSource, AllAtTarget, FolderSane, Pristine;
    AnyRunCanBeRestored(plan, others, v, commands, notes);
  }

  lemma PristineStartable(plan: Plan, others: Folder, v: Vault, notes: Notes)
    requires ValidPlan(plan) && !plan.redirected && plan.logged && Pristine(plan, others, v)
    ensures Startable(plan, others, v, Fresh(notes))
  {
    hide FolderSane, AllAtSource, ValidPlan;
  }

  /** The first run of any plan has room, its cleanup included: undisturbed it renames
      everything if no foreign file is in the way, and otherwise puts everything back. */
  lemma FirstRunSettles(plan: Plan, others: Folder, v: Vault, notes: Notes)
    requires ValidPlan(plan) && !plan.redirected && plan.logged && Pristine(plan, others, v)
    ensures var s := Perform(plan, v, Fresh(notes), []); var w := s.task.vault;
      && (s.end.Done? <==> Clear(plan, others, false)) && w.readable
      && if s.end.Done? then AllAtTarget(plan.rows, w.folder) && LastState(w.lines).Completed?
         else AllAtSource(plan.rows, w.folder) && LastState(w.lines).Restored?
  {
    assert Bytes(v.lines) == 0 && |plan.rows| <= MAX_ROWS;
    PristineStartable(plan, others, v, notes);
    hide Perform, Bytes, RunCost, WorstCost, Clear, ValidPlan, AllAtSource, AllAtTarget, Startable, Pristine, LastState;
    WorstBound(plan, Fresh(notes));
    RunWithinWorst(plan, others, v, Fresh(notes));
    PerformSettles(plan, others, v, Fresh(notes));
  }

  // ------------------------------------------------------ a log filled by two runs

  function Quiet(n: nat): (script: seq<Event>)
    ensures |script| == n
  {
    seq(n, _ => Proceed)
  }

  /** Everything goes through up to the last line of the run, where power is lost. */
  function CutAtTheEnd(plan: Plan): seq<Event> {
    Quiet(4 + 6 * |plan.rows|) + [PowerLoss(false)]
  }

  ghost predicate AllMove(rows: seq<Row>) {
    forall i :: 0 <= i < |rows| ==> Moving(rows[i])
  }

  lemma QuietSplits(n: nat, m: nat, rest: seq<Event>)
    ensures Quiet(n + m) + rest == Quiet(n) + (Quiet(m) + rest)
  {
  }

  /** What goes through undisturbed goes through as far as nothing is disturbed. */
  lemma AppendThrough(plan: Plan, t: Task, line: Line, rest: seq<Event>)
    requires plan.logged && t.script == Quiet(1) + rest && Append(plan, t.(script := []), line).end.Done?
    ensures Append(plan, t, line) == Step(Done, Append(plan, t.(script := []), line).task.(script := rest))
  {
    hide Written, Bytes;
    assert t.script[0] == Proceed && t.script[1..] == rest;
  }

  lemma ShiftThrough(plan: Plan, t: Task, i: nat, name: Name, rest: seq<Event>)
    requires i < |plan.rows| == |t.current| && t.script == Quiet(1) + rest && Shift(plan, t.(script := []), i, name).end.Done?
    ensures Shift(plan, t, i, name) == Step(Done, Shift(plan, t.(script := []), i, name).task.(script := rest))
  {
    assert t.script[0] == Proceed && t.script[1..] == rest;
  }

  lemma AppendTakes(plan: Plan, t: Task, line: Line)
    requires t.script == []
    ensures Append(plan, t, line).task.script == [] && Append(plan, t, line).task.current == t.current
  {
    hide Written, Bytes;
  }

  lemma ShiftTakes(plan: Plan, t: Task, i: nat, name: Name)
    requires i < |plan.rows| == |t.current| && t.script == []
    ensures Shift(plan, t, i, name).task.script == []
  {
  }

  lemma MoveThrough(plan: Plan, t: Task, i: nat, name: Name, rest: seq<Event>)
    requires plan.logged && i < |plan.rows| == |t.current| && t.script == Quiet(3) + rest
    requires Move(plan, t.(script := []), i, name).end.Done?
    ensures Move(plan, t, i, name) == Step(Done, Move(plan, t.(script := []), i, name).task.(script := rest))
    ensures Move(plan, t.(script := []), i, name).task.script == []
  {
    hide Append, Shift;
    var role, calm := RoleOf(plan.rows[i], name), t.(script := []);
    QuietSplits(1, 2, rest);
    QuietSplits(1, 1, rest);
    AppendThrough(plan, t, Intent(i, role), Quiet(2) + rest);
    AppendTakes(plan, calm, Intent(i, role));
    var s1 := Append(plan, calm, Intent(i, role));
    ShiftThrough(plan, s1.task.(script := Quiet(2) + rest), i, name, Quiet(1) + rest);
    ShiftTakes(plan, s1.task, i, name);
    var s2 := Shift(plan, s1.task, i, name);
    AppendThrough(plan, s2.task.(script := Quiet(1) + rest), Receipt(i, role), rest);
    AppendTakes(plan, s2.task, Receipt(i, role));
  }

  lemma {:induction false} PhaseThrough(plan: Plan, t: Task, phase: nat, restore: bool, i: nat, rest: seq<Event>)
    requires plan.logged && i <= |plan.rows| == |t.current| && t.script == Quiet(3 * (|plan.rows| - i)) + rest && !t.log.Stray?
    requires forall j :: i <= j < |plan.rows| ==> Moving(plan.rows[j]) && t.current[j] != Goal(plan.rows[j], phase, restore)
    requires Phase(plan, t.(script := []), phase, restore, i).end.Done?
    ensures Phase(plan, t, phase, restore, i) == Step(Done, Phase(plan, t.(script := []), phase, restore, i).task.(script := rest))
    ensures Phase(plan, t.(script := []), phase, restore, i).task.script == []
    decreases |plan.rows| - i
  {
    hide Move, Quiet, Bytes;
    if i < |plan.rows| {
      var goal, calm, more := Goal(plan.rows[i], phase, restore), t.(script := []), Quiet(3 * (|plan.rows| - i - 1)) + rest;
      QuietSplits(3, 3 * (|plan.rows| - i - 1), rest);
      MoveThrough(plan, t, i, goal, more);
      MoveBytes(plan, calm, i, goal);
      var s := Move(plan, calm, i, goal);
      PhaseThrough(plan, s.task.(script := more), phase, restore, i + 1, rest);
      assert s.task.(script := more).(script := []) == s.task;
    } else {
      assert Quiet(0) + rest == rest;
    }
  }

  ghost predicate NoneAside(plan: Plan, current: seq<Name>)
    requires |current| == |plan.rows|
  {
    forall j :: 0 <= j < |plan.rows| ==> current[j] != plan.rows[j].temporary
  }

  lemma BothThrough(plan: Plan, others: Folder, t: Task, restore: bool, rest: seq<Event>)
    requires Working(plan, others, t.(script := [])) && plan.logged && AllMove(plan.rows) && NoneAside(plan, t.current)
    requires t.script == Quiet(6 * |plan.rows|) + rest && BothPhases(plan, t.(script := []), restore).end.Done?
    ensures |t.current| == |plan.rows|
    ensures BothPhases(plan, t, restore) == Step(Done, BothPhases(plan, t.(script := []), restore).task.(script := rest))
  {
    hide Phase, Working, Quiet, Bytes, Sound, PhaseCost;
    var calm, n, more := t.(script := []), 3 * |plan.rows|, Quiet(3 * |plan.rows|) + rest;
    WorkingParts(plan, others, calm);
    QuietSplits(n, n, rest);
    PhaseThrough(plan, t, 0, restore, 0, more);
    PhaseKeeps(plan, others, calm, 0, restore, 0);
    PhaseBytes(plan, calm, 0, restore, 0);
    var s := Phase(plan, calm, 0, restore, 0);
    forall j | 0 <= j < |plan.rows|
      ensures s.task.current[j] != Goal(plan.rows[j], 1, restore)
    {
      assert At(plan, s.task, j, plan.rows[j].temporary) && RowsApart(plan.rows[j], plan.rows[j], true);
    }
    assert s.task.(script := more).(script := []) == s.task;
    PhaseThrough(plan, s.task.(script := more), 1, restore, 0, rest);
  }

  lemma BeginThrough(plan: Plan, v: Vault, note: Note, rest: seq<Event>)
    requires plan.logged && Begin(plan, Started(plan, v, []), note).end.Done?
    ensures Begin(plan, Started(plan, v, Quiet(3) + rest), note) == Step(Done, Begin(plan, Started(plan, v, []), note).task.(script := rest))
    ensures Begin(plan, Started(plan, v, []), note).task.script == []
  {
    hide Append, Bytes;
    var t := Started(plan, v, Quiet(3) + rest);
    QuietSplits(1, 2, rest);
    QuietSplits(1, 1, rest);
    assert t.script[0] == Proceed && t.script[1..] == Quiet(2) + rest;
    assert (Quiet(2) + rest)[0] == Proceed && (Quiet(2) + rest)[1..] == Quiet(1) + rest;
    var ready := OpenLog(Started(plan, v, [])).task;
    AppendThrough(plan, ready.(script := Quiet(1) + rest), StateLine(Running, note), rest);
    AppendTakes(plan, ready, StateLine(Running, note));
  }

  lemma LocateThrough(plan: Plan, t: Task, mode: Mode, rest: seq<Event>)
    requires |t.current| == |plan.rows| && t.script == Quiet(1) + rest && Locate(plan, t.(script := []), mode).end.Done?
    ensures Locate(plan, t, mode) == Step(Done, Locate(plan, t.(script := []), mode).task.(script := rest))
    ensures Locate(plan, t.(script := []), mode).task.script == []
  {
    hide Candidates, AllFound, Discovered;
    assert t.script[0] == Proceed && t.script[1..] == rest;
  }

  /** Where a run cut at its end leaves the rename task before its last line. */
  ghost predicate Nearly(plan: Plan, others: Folder, v: Vault, mode: Mode, t: Task) {
    && Working(plan, others, t) && Smooth(plan, t) && t.script == [] && AllAtTarget(plan.rows, t.vault.folder)
    && Bytes(t.vault.lines) + 48 + mode.notes.working == Bytes(v.lines) + RunCost(plan, v.folder, mode)
  }

  ghost predicate Fillable(plan: Plan, others: Folder, v: Vault, mode: Mode) {
    && Startable(plan, others, v, mode) && !mode.Restore? && Clear(plan, others, false) && AllMove(plan.rows)
    && (AllAtSource(plan.rows, v.folder) || AllAtTarget(plan.rows, v.folder))
    && Bytes(v.lines) + RunCost(plan, v.folder, mode) <= LOG_BUDGET
  }

  lemma NoneAsideYet(plan: Plan, t: Task)
    requires ValidPlan(plan) && Tracked(plan, t) && (AllAtSource(plan.rows, t.vault.folder) || AllAtTarget(plan.rows, t.vault.folder))
    ensures NoneAside(plan, t.current)
  {
    forall j | 0 <= j < |plan.rows|
      ensures t.current[j] != plan.rows[j].temporary
    {
      assert TrackedRow(t.vault.folder, plan.rows[j], t.current[j]) && RowsApart(plan.rows[j], plan.rows[j], true);
    }
  }

  lemma NearlyDone(plan: Plan, others: Folder, v: Vault, mode: Mode) returns (t: Task)
    requires Fillable(plan, others, v, mode)
    ensures Nearly(plan, others, v, mode, t)
    ensures Work(plan, Started(plan, v, CutAtTheEnd(plan)), mode) == Append(plan, t.(script := [PowerLoss(false)]), StateLine(Completed, mode.notes.working))
  {
    hide Begin, Locate, BothPhases, Append, Bytes, BothCost, FolderSane, Quiet, AllFound, Clear, AllAtSource, AllAtTarget, TrackedRow, ValidPlan, Places;
    var last := [PowerLoss(false)];
    var n := 6 * |plan.rows|;
    QuietSplits(3, 1 + n, last);
    QuietSplits(1, n, last);
    var calm := Started(plan, v, []);
    BeginKeeps(plan, others, calm, mode.notes.working);
    BeginThrough(plan, v, mode.notes.working, Quiet(1 + n) + last);
    var s1 := Begin(plan, calm, mode.notes.working);
    LocateKeeps(plan, others, s1.task, mode);
    LocateThrough(plan, s1.task.(script := Quiet(1 + n) + last), mode, Quiet(n) + last);
    assert s1.task.(script := Quiet(1 + n) + last).(script := []) == s1.task;
    var s2 := Locate(plan, s1.task, mode);
    NoneAsideYet(plan, s2.task);
    PlacesCost(plan, s2.task, false);
    BothPhasesKeep(plan, others, s2.task, false);
    assert s2.task.(script := Quiet(n) + last).(script := []) == s2.task;
    BothThrough(plan, others, s2.task.(script := Quiet(n) + last), false, last);
    t := BothPhases(plan, s2.task, false).task;
    t := t.(script := []);
  }

  lemma TornAtTheEnd(plan: Plan, t: Task, line: Line)
    requires plan.logged && t.log == Open && !t.uncertain && t.script == [PowerLoss(false)] && Room(plan, t, LineSize(line))
    ensures Append(plan, t, line) == Step(Cut, t.(script := []))
  {
    hide Bytes, LineSize;
    WrittenAtEnd(t.vault, t.log, line, false);
    hide Written;
  }

  /** After a run cut at its end every file has its target, and the log has all but one line. */
  lemma CutRun(plan: Plan, others: Folder, v: Vault, mode: Mode)
    requires Fillable(plan, others, v, mode)
    ensures var w := Perform(plan, v, mode, CutAtTheEnd(plan)).task.vault;
      && Sound(plan, others, w) && AllAtTarget(plan.rows, w.folder) && LastState(w.lines) !in {Queued, Completed, Restored}
      && Bytes(w.lines) + 48 + mode.notes.working == Bytes(v.lines) + RunCost(plan, v.folder, mode)
  {
    hide Work, Bytes, RunCost, FolderSane, Clear, AllAtSource, AllAtTarget, CutAtTheEnd;
    var t := NearlyDone(plan, others, v, mode);
    TornAtTheEnd(plan, t.(script := [PowerLoss(false)]), StateLine(Completed, mode.notes.working));
  }

  lemma {:induction false} GoalsAtLeast(plan: Plan, i: nat)
    requires ValidPlan(plan) && |plan.rows| == MAX_ROWS && AllMove(plan.rows) && i <= MAX_ROWS
    ensures GoalCost(plan, 0, false, i) + GoalCost(plan, 1, false, i) >= if i < 10000 then 20520000 + 212 * (10000 - i) else 228 * (MAX_ROWS - i)
    decreases MAX_ROWS - i
  {
    if i < MAX_ROWS {
      DigitsOf(i);
      assert RowsApart(plan.rows[i], plan.rows[i], true);
      GoalsAtLeast(plan, i + 1);
    }
  }

  lemma {:induction false} OwedAtLeast(plan: Plan, folder: Folder, i: nat)
    requires ValidPlan(plan) && |plan.rows| == MAX_ROWS && AllMove(plan.rows) && i <= MAX_ROWS && AllAtTarget(plan.rows, folder)
    ensures Owed(plan.rows, folder, i) >= if i < 10000 then 20520000 + 212 * (10000 - i) else 228 * (MAX_ROWS - i)
    decreases MAX_ROWS - i
  {
    if i < MAX_ROWS {
      DigitsOf(i);
      assert RowsApart(plan.rows[i], plan.rows[i], true);
      OwedAtLeast(plan, folder, i + 1);
    }
  }

  /** A run that finds no file aside has to move every one of them twice. */
  lemma FullCost(plan: Plan, folder: Folder, mode: Mode)
    requires ValidPlan(plan) && !mode.Restore? && (AllAtSource(plan.rows, folder) || AllAtTarget(plan.rows, folder))
    ensures RunCost(plan, folder, mode) == GoalCost(plan, 0, false, 0) + GoalCost(plan, 1, false, 0) + 2 * (48 + mode.notes.working)
  {
    hide GoalCost, PhaseCost;
    var names := Places(plan.rows, folder);
    forall j | 0 <= j < |plan.rows|
      ensures names[j] != plan.rows[j].temporary
    {
      assert RowsApart(plan.rows[j], plan.rows[j], true);
    }
    PhaseCostBound(plan, names, 0, false, 0);
  }

  /** The failing input: in a plan of 100000 moving rows a fresh run and its resumption are both
      cut just before their last line. Then nothing disturbs the restoration, and still the log
      has no room for it, and files keep other names. */
  lemma TwoRunsFillTheLog(plan: Plan, others: Folder, v: Vault, notes: Notes)
    requires ValidPlan(plan) && !plan.redirected && plan.logged && Pristine(plan, others, v) && Clear(plan, others, false)
    requires |plan.rows| == MAX_ROWS && AllMove(plan.rows)
    ensures var w := AfterAll(plan, v, [Attempt(Fresh(notes), CutAtTheEnd(plan)), Attempt(Resume(notes), CutAtTheEnd(plan))]);
      && w.readable && LastState(w.lines) !in {Completed, Restored}
      && !Perform(plan, w, Restore(notes), []).end.Done?
      && !AllAtSource(plan.rows, Perform(plan, w, Restore(notes), []).task.vault.folder)
  {
    hide Perform, Bytes, RunCost, GoalCost, Owed, FolderSane, AllMove, ValidPlan, Clear, AllAtTarget, CutAtTheEnd, AfterAll, LastState;
    var cut := CutAtTheEnd(plan);
    var w := CutTwice(plan, others, v, notes);
    assert w == Perform(plan, Perform(plan, v, Fresh(notes), cut).task.vault, Resume(notes), cut).task.vault;
    TwoRuns(plan, v, Fresh(notes), Resume(notes), cut);
    GoalsAtLeast(plan, 0);
    OwedAtLeast(plan, w.folder, 0);
    TooFullToRestore(plan, others, w, Restore(notes));
    PerformKeeps(plan, others, w, Restore(notes), []);
  }

  lemma CutTwice(plan: Plan, others: Folder, v: Vault, notes: Notes) returns (w: Vault)
    requires ValidPlan(plan) && !plan.redirected && plan.logged && Pristine(plan, others, v) && Clear(plan, others, false)
    requires |plan.rows| == MAX_ROWS && AllMove(plan.rows)
    ensures w == Perform(plan, Perform(plan, v, Fresh(notes), CutAtTheEnd(plan)).task.vault, Resume(notes), CutAtTheEnd(plan)).task.vault
    ensures Sound(plan, others, w) && AllAtTarget(plan.rows, w.folder) && LastState(w.lines) !in {Completed, Restored}
    ensures Bytes(w.lines) >= 2 * (GoalCost(plan, 0, false, 0) + GoalCost(plan, 1, false, 0))
  {
    assert Bytes(v.lines) == 0;
    hide Perform, Bytes, GoalCost, FolderSane, AllMove, ValidPlan, Clear, AllAtTarget, CutAtTheEnd, LastState, AllAtSource;
    w := CutOnce(plan, others, v, Fresh(notes));
    w := CutOnce(plan, others, w, Resume(notes));
  }

  lemma CutOnce(plan: Plan, others: Folder, v: Vault, mode: Mode) returns (w: Vault)
    requires Startable(plan, others, v, mode) && !mode.Restore? && Clear(plan, others, false) && AllMove(plan.rows)
    requires (AllAtSource(plan.rows, v.folder) || AllAtTarget(plan.rows, v.folder)) && Bytes(v.lines) <= 40000000
    ensures w == Perform(plan, v, mode, CutAtTheEnd(plan)).task.vault
    ensures Sound(plan, others, w) && AllAtTarget(plan.rows, w.folder) && LastState(w.lines) !in {Queued, Completed, Restored}
    ensures var g := GoalCost(plan, 0, false, 0) + GoalCost(plan, 1, false, 0); Bytes(v.lines) + g <= Bytes(w.lines) <= Bytes(v.lines) + 23408192
  {
    assert |plan.rows| <= MAX_ROWS;
    hide Perform, Bytes, RunCost, GoalCost, FolderSane, AllMove, ValidPlan, Clear, AllAtTarget, CutAtTheEnd, LastState, AllAtSource, Truthful;
    FullCost(plan, v.folder, mode);
    GoalCostBound(plan, 0, false, 0);
    GoalCostBound(plan, 1, false, 0);
    CutRun(plan, others, v, mode);
    w := Perform(plan, v, mode, CutAtTheEnd(plan)).task.vault;
  }

  lemma TwoRuns(plan: Plan, v: Vault, first: Mode, second: Mode, script: seq<Event>)
    ensures AfterAll(plan, v, [Attempt(first, script), Attempt(second, script)])
            == Perform(plan, Perform(plan, v, first, script).task.vault, second, script).task.vault
  {
    hide Perform;
    var w, rest := After(plan, v, Attempt(first, script)), [Attempt(second, script)];
    assert [Attempt(first, script), Attempt(second, script)][1..] == rest && rest[1..] == [];
    assert AfterAll(plan, w, rest) == AfterAll(plan, After(plan, w, rest[0]), []);
  }

  // --------------------------------------------------------------- for good

  lemma NoLine(plan: Plan, t: Task, state: State, note: Note)
    requires plan.logged && Bytes(t.vault.lines) + 48 > LOG_BUDGET
    ensures Append(plan, t, StateLine(state, note)) == Step(Failed, t)
  {
    hide Bytes;
  }

  /** Once the log has no room for a state line, nothing that can be done with the record
      changes a line of it or the name of a file. */
  lemma {:induction false} FullLogStays(plan: Plan, v: Vault, commands: seq<Command>)
    requires plan.logged && Bytes(v.lines) + 48 > LOG_BUDGET
    ensures Unchanged(v, AfterAll(plan, v, commands))
    decreases |commands|
  {
    hide Perform, Cancel, Bytes;
    if commands != [] {
      match commands[0] {
        case Attempt(mode, script) => FullLogRefuses(plan, v, mode, script);
        case CancelUnstarted(script, note) => FullLogNotCancelled(plan, v, script, note);
      }
      FullLogStays(plan, After(plan, v, commands[0]), commands[1..]);
    }
  }

  ghost predicate Unchanged(v: Vault, v': Vault) {
    v'.folder == v.folder && v'.lines == v.lines && v'.readable == v.readable
  }

  lemma FullLogRecords(plan: Plan, t: Task, state: State, note: Note)
    requires plan.logged && Bytes(t.vault.lines) + 48 > LOG_BUDGET
    ensures Unchanged(t.vault, Record(plan, t, state, note).task.vault)
  {
    hide Append, Bytes;
    OpenLogEffect(t);
    NoLine(plan, t, state, note);
    NoLine(plan, OpenLog(t).task, state, note);
  }

  lemma FullLogRefuses(plan: Plan, v: Vault, mode: Mode, script: seq<Event>)
    requires plan.logged && Bytes(v.lines) + 48 > LOG_BUDGET
    ensures Unchanged(v, Perform(plan, v, mode, script).task.vault)
  {
    hide Append, Bytes, Retreat, Locate, Carry, Record, OpenLog;
    var t := Started(plan, v, script);
    OpenLogEffect(Check(t).task);
    NoLine(plan, OpenLog(Check(t).task).task, Running, mode.notes.working);
    var s := Begin(plan, t, mode.notes.working);
    FullLogRecords(plan, s.task, if mode.Fresh? then Restored else RecoveryRequired, mode.notes.failing);
  }

  lemma FullLogNotCancelled(plan: Plan, v: Vault, script: seq<Event>, note: Note)
    requires plan.logged && Bytes(v.lines) + 48 > LOG_BUDGET
    ensures Unchanged(v, Cancel(plan, v, script, note).task.vault)
  {
    hide Record, Bytes;
    FullLogRecords(plan, Started(plan, v, script), Restored, note);
  }
}
