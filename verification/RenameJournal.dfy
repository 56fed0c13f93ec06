/** The journalled rename task: start, identity discovery, the two phases, and the end. */
module RenameJournal {
  import opened BatchRename

  /** Replaying a log: the last complete state line counts. */
  function LastState(lines: seq<Line>): State {
    if lines == [] then Queued
    else if lines[|lines| - 1].StateLine? then lines[|lines| - 1].state
    else LastState(lines[..|lines| - 1])
  }

  /** What the state lines of a run carry: while it works, and when it cleans up. */
  datatype Notes = Notes(working: Note, failing: Note)

  datatype Mode = Fresh(notes: Notes) | Resume(notes: Notes) | Restore(notes: Notes)

  /** Opens the log behind its last complete line. A log above the limit is left as it is, with
      the handle at its start. */
  function OpenLog(t: Task): Step {
    var n := Taken(t);
    if Bytes(t.vault.lines) > LOG_BUDGET then
      Step(if Next(t).PowerLoss? then Cut else Failed, n.(log := if Next(t).Refuse? then Broken else Stray))
    else match Next(t)
    case Proceed => Step(Done, n.(log := Open))
    case Refuse => Step(Failed, n.(log := Broken))
    case Spoil(_) => Step(Failed, n.(log := Open))
    case Misplace => Step(Failed, n.(log := Stray))
    case PowerLoss(_) => Step(Cut, n)
  }

  /** Records a state, opening the log if nobody has tried to. */
  function Record(plan: Plan, t: Task, state: State, note: Note): (s: Step)
    ensures s.task.current == t.current
  {
    var t1 :- if t.log.Unopened? then OpenLog(t) else Step(Done, t);
    Append(plan, t1, StateLine(state, note))
  }

  /** A check of the environment that changes nothing. */
  function Check(t: Task): Step {
    match Next(t)
    case Proceed => Step(Done, Taken(t))
    case PowerLoss(_) => Step(Cut, Taken(t))
    case _ => Step(Failed, Taken(t))
  }

  // ---------------------------------------------------------------- discovery

  function AddNew(names: seq<Name>, name: Name): seq<Name> {
    if name in names then names else names + [name]
  }

  /** Sources and targets row by row, then the temporaries, each name once. */
  function SourcesAndTargets(rows: seq<Row>, n: nat): seq<Name>
    requires n <= |rows|
  {
    if n == 0 then [] else AddNew(AddNew(SourcesAndTargets(rows, n - 1), rows[n - 1].source), rows[n - 1].target)
  }

  function Candidates(rows: seq<Row>, n: nat): seq<Name>
    requires n <= |rows|
  {
    if n == 0 then SourcesAndTargets(rows, |rows|) else AddNew(Candidates(rows, n - 1), rows[n - 1].temporary)
  }

  /** The last name with this folded form, if there is one. */
  function LastFolded(names: seq<Name>, folded: string): (found: seq<Name>)
    ensures |found| <= 1
    ensures found != [] ==> found[0].folded == folded && found[0] in names
    ensures found == [] ==> forall name :: name in names ==> name.folded != folded
  {
    if names == [] then []
    else
      var n := |names| - 1;
      assert names == names[..n] + [names[n]];
      if names[n].folded == folded then [names[n]] else LastFolded(names[..n], folded)
  }

  /** The candidate a file is found under; later candidates win. */
  function Found(folder: Folder, id: nat, names: seq<Name>): (found: seq<Name>) {
    if id in folder then LastFolded(names, folder[id].folded) else []
  }

  predicate AllFound(folder: Folder, rows: seq<Row>, names: seq<Name>) {
    forall i :: 0 <= i < |rows| ==> Found(folder, rows[i].id, names) != []
  }

  function Discovered(folder: Folder, rows: seq<Row>, names: seq<Name>): (current: seq<Name>)
    requires AllFound(folder, rows, names)
    ensures |current| == |rows|
  {
    seq(|rows|, i requires 0 <= i < |rows| => Found(folder, rows[i].id, names)[0])
  }

  function Sources(rows: seq<Row>): (names: seq<Name>)
    ensures |names| == |rows|
  {
    seq(|rows|, i requires 0 <= i < |rows| => rows[i].source)
  }

  // ------------------------------------------------------------------ the rename task

  function Started(plan: Plan, v: Vault, script: seq<Event>): (t: Task)
    ensures |t.current| == |plan.rows|
  {
    Task(v, Sources(plan.rows), false, false, {}, Unopened, script)
  }

  /** Takes the record and declares it running. */
  function Begin(plan: Plan, t: Task, note: Note): (s: Step)
    ensures s.task.current == t.current
  {
    var t1 :- Check(t);
    var t2 :- OpenLog(t1);
    Append(plan, t2, StateLine(Running, note))
  }

  /** Finds every file, for a recovery wherever it is now, and pins it. */
  function Locate(plan: Plan, t: Task, mode: Mode): (s: Step)
    requires |t.current| == |plan.rows|
    ensures |s.task.current| == |plan.rows|
  {
    var names, folder := Candidates(plan.rows, |plan.rows|), t.vault.folder;
    if mode.Fresh? then Check(t)
    else if AllFound(folder, plan.rows, names) then Check(t.(current := Discovered(folder, plan.rows, names)))
    else Step(Failed, t)
  }

  function Work(plan: Plan, t: Task, mode: Mode): (s: Step)
    requires |t.current| == |plan.rows|
    ensures |s.task.current| == |plan.rows|
  {
    var t1 :- Begin(plan, t, mode.notes.working);
    var t2 :- Locate(plan, t1, mode);
    Carry(plan, t2, mode)
  }

  /** Both phases, and the state they lead to. */
  function Carry(plan: Plan, t: Task, mode: Mode): (s: Step)
    requires |t.current| == |plan.rows|
    ensures |s.task.current| == |plan.rows|
  {
    var t1 :- BothPhases(plan, t, mode.Restore?);
    Append(plan, t1, StateLine(if mode.Restore? then Restored else Completed, mode.notes.working))
  }

  /** Cleaning up after a failure or a cancellation. */
  function Finalize(plan: Plan, t: Task, mode: Mode): (s: Step)
    requires |t.current| == |plan.rows|
    ensures |s.task.current| == |plan.rows|
  {
    var (restored, s) := if t.mutated then Retreat(plan, t) else (mode.Fresh?, Step(Done, t));
    if s.end.Cut? then s
    else Record(plan, s.task, if restored then Restored else RecoveryRequired, mode.notes.failing)
  }

  predicate Allowed(v: Vault, mode: Mode) {
    && v.readable && Bytes(v.lines) <= LOG_BUDGET
    && if mode.Fresh? then LastState(v.lines).Queued? else LastState(v.lines) !in {Completed, Restored}
  }

  /** One whole task on a record. */
  function Perform(plan: Plan, v: Vault, mode: Mode, script: seq<Event>): (s: Step)
    ensures |s.task.current| == |plan.rows|
  {
    var t := Started(plan, v, script);
    if !Allowed(v, mode) then Step(Failed, t)
    else
      var s := Work(plan, t, mode);
      if s.end.Failed? then
        var f := Finalize(plan, s.task, mode);
        f.(end := if f.end.Cut? then Cut else Failed)
      else s
  }

  /** Cancelling a task that never started. */
  function Cancel(plan: Plan, v: Vault, script: seq<Event>, note: Note): Step {
    var t := Started(plan, v, script);
    if !Allowed(v, Fresh(Notes(note, note))) then Step(Failed, t) else Record(plan, t, Restored, note)
  }
}
