/** Renaming many files of one folder through temporary names, with a write-ahead log.

    A folder maps file identities to names, no two of which fold to the same one. Every
    interaction with the system takes the next event of a script; a finished script means
    that everything goes through. */
module BatchRename {

  /** A file name with its case-folded form. */
  datatype Name = Name(folded: string, text: string)

  type Folder = map<nat, Name>

  /** One row of a plan: a file, its name before and after, and its temporary name. */
  datatype Row = Row(id: nat, source: Name, target: Name, temporary: Name)

  /** `redirected`: a folder where a successful rename can still be reported as a failure.
      `logged`: whether moves are written to a log first. */
  datatype Plan = Plan(rows: seq<Row>, redirected: bool, logged: bool)

  datatype State = Queued | Running | Completed | Restored | RecoveryRequired
  datatype Role = AsSource | AsTemporary | AsTarget

  /** The bytes of the job number and the error text on a state line. The loader reads no
      line above 8192 bytes. */
  type Note = n: nat | n <= 8144

  datatype Line = StateLine(state: State, note: Note) | Intent(row: nat, role: Role) | Receipt(row: nat, role: Role)

  /** The log never grows beyond this many bytes, and a logged plan has no more rows than this. */
  const LOG_BUDGET := 67108864
  const MAX_ROWS := 100000

  function Digits(n: nat): (d: nat)
    ensures 1 <= d
  {
    if n < 10 then 1 else 1 + Digits(n / 10)
  }

  function RoleSize(role: Role): nat {
    if role.AsTemporary? then 9 else 6
  }

  /** The bytes of a line as printed, with its line feed. */
  function LineSize(line: Line): nat {
    match line
    case StateLine(_, note) => 48 + note
    case Intent(row, role) => 45 + RoleSize(role) + Digits(row)
    case Receipt(row, role) => 44 + RoleSize(role) + Digits(row)
  }

  function Bytes(lines: seq<Line>): nat {
    if lines == [] then 0 else Bytes(lines[..|lines| - 1]) + LineSize(lines[|lines| - 1])
  }

  /** What survives a crash: the folder, the complete lines of the log, and whether the log still
      parses. An incomplete line at its end counts for nothing: no reader takes it, and a
      writer goes on where it began. */
  datatype Vault = Vault(folder: Folder, lines: seq<Line>, readable: bool)

  /** Goes through; fails without effect; fails leaving its effect (`whole`) or part of it
      behind; power is lost after (`whole`) or during it. `Misplace`: the log is opened but
      stays at its start, where the next line will overwrite it. */
  datatype Event = Proceed | Refuse | Spoil(whole: bool) | PowerLoss(whole: bool) | Misplace

  datatype LogHandle = Unopened | Broken | Open | Stray

  /** A running task: the durable part, where it believes the files are, and its flags. */
  datatype Task = Task(
    vault: Vault, current: seq<Name>, mutated: bool, uncertain: bool, lost: set<nat>, log: LogHandle, script: seq<Event>)

  datatype End = Done | Failed | Cut

  datatype Step = Step(end: End, task: Task) {
    predicate IsFailure() { !end.Done? }
    function PropagateFailure(): Step requires IsFailure() { this }
    function Extract(): Task requires !IsFailure() { task }
  }

  // --------------------------------------------------------------- the system

  function Next(t: Task): Event {
    if t.script == [] then Proceed else t.script[0]
  }

  function Taken(t: Task): Task {
    if t.script == [] then t else t.(script := t.script[1..])
  }

  /** A write of `size` bytes at the start of the log ends inside one of its lines. */
  predicate EndsInside(lines: seq<Line>, size: nat) {
    size < Bytes(lines) && forall n :: 0 <= n < |lines| ==> Bytes(lines[..n]) != size
  }

  /** The number of first lines that such a write replaces, looking from the first `n` on. */
  function Covered(lines: seq<Line>, size: nat, n: nat): (k: nat)
    requires n <= |lines|
    ensures n <= k <= |lines|
    decreases |lines| - n
  {
    if n == |lines| || Bytes(lines[..n]) == size then n else Covered(lines, size, n + 1)
  }

  /** The log after writing `line`, wholly or in part. A write over the first lines destroys
      the log, unless it is whole and ends where one of them ended. */
  function Written(v: Vault, log: LogHandle, line: Line, whole: bool): Vault {
    if log.Stray? && v.lines != [] then
      if whole && !EndsInside(v.lines, LineSize(line)) then v.(lines := [line] + v.lines[Covered(v.lines, LineSize(line), 0)..])
      else v.(readable := false)
    else if whole then v.(lines := v.lines + [line])
    else v
  }

  /** No line is begun that would take the log over its limit. */
  function Append(plan: Plan, t: Task, line: Line): (s: Step)
    ensures s.task.current == t.current
  {
    if !plan.logged then Step(Done, t)
    else if t.uncertain || !(t.log.Open? || t.log.Stray?) || Bytes(t.vault.lines) + LineSize(line) > LOG_BUDGET then Step(Failed, t)
    else
      var n := Taken(t);
      match Next(t)
      case Proceed => Step(Done, n.(vault := Written(t.vault, t.log, line, true)))
      case Refuse => Step(Failed, n)
      case Spoil(whole) => Step(Failed, n.(vault := Written(t.vault, t.log, line, whole), uncertain := true))
      case PowerLoss(whole) => Step(Cut, n.(vault := Written(t.vault, t.log, line, whole)))
      case Misplace => Step(Failed, n)
  }

  /** No other file has this name. */
  predicate Free(folder: Folder, id: nat, name: Name) {
    forall other <- folder :: other != id ==> folder[other].folded != name.folded
  }

  /** Renames the file of row `i` without ever replacing another one. */
  function Rename(plan: Plan, t: Task, i: nat, name: Name): (s: Step)
    requires i < |plan.rows|
    ensures s.task.current == t.current
  {
    var id := plan.rows[i].id;
    if i in t.lost then Step(Failed, t)
    else
      var n := Taken(t);
      var moved := n.(vault := t.vault.(folder := t.vault.folder[id := name]));
      var ok := Free(t.vault.folder, id, name);
      match Next(t)
      case Proceed => if ok then Step(Done, moved) else Step(Failed, n)
      case Refuse => Step(Failed, n)
      case Spoil(_) => if ok && plan.redirected then Step(Failed, moved.(lost := t.lost + {i})) else Step(Failed, n)
      case PowerLoss(whole) => Step(Cut, if ok && whole then moved else n)
      case Misplace => Step(Failed, n)
  }

  // -------------------------------------------------------------------- moves

  function RoleOf(row: Row, name: Name): Role {
    if name == row.source then AsSource else if name == row.temporary then AsTemporary else AsTarget
  }

  /** Renames and notes the new name. */
  function Shift(plan: Plan, t: Task, i: nat, name: Name): (s: Step)
    requires i < |plan.rows| == |t.current|
    ensures |s.task.current| == |t.current|
  {
    var t1 :- Rename(plan, t, i, name);
    Step(Done, t1.(current := t1.current[i := name], mutated := true))
  }

  function Move(plan: Plan, t: Task, i: nat, name: Name): (s: Step)
    requires i < |plan.rows| == |t.current|
    ensures |s.task.current| == |t.current|
  {
    var role := RoleOf(plan.rows[i], name);
    var t1 :- Append(plan, t, Intent(i, role));
    var t2 :- Shift(plan, t1, i, name);
    Append(plan, t2, Receipt(i, role))
  }

  predicate Moving(row: Row) {
    row.source != row.target
  }

  /** Where phase 0 or 1 of a task puts row `i`. */
  function Goal(row: Row, phase: nat, restore: bool): Name {
    if phase == 0 then row.temporary else if restore then row.source else row.target
  }

  /** One step of a phase. */
  function Advance(plan: Plan, t: Task, phase: nat, restore: bool, i: nat): (s: Step)
    requires i < |plan.rows| == |t.current|
    ensures |s.task.current| == |t.current|
  {
    var row := plan.rows[i];
    var goal := Goal(row, phase, restore);
    if Moving(row) && t.current[i] != goal then Move(plan, t, i, goal) else Step(Done, t)
  }

  function Phase(plan: Plan, t: Task, phase: nat, restore: bool, i: nat): (s: Step)
    requires i <= |plan.rows| == |t.current|
    ensures |s.task.current| == |t.current|
    decreases |plan.rows| - i
  {
    if i == |plan.rows| then Step(Done, t)
    else
      var t1 :- Advance(plan, t, phase, restore, i);
      Phase(plan, t1, phase, restore, i + 1)
  }

  function BothPhases(plan: Plan, t: Task, restore: bool): (s: Step)
    requires |plan.rows| == |t.current|
    ensures |s.task.current| == |t.current|
  {
    var t1 :- Phase(plan, t, 0, restore, 0);
    Phase(plan, t1, 1, restore, 0)
  }

  /** First pass of a retreat: whatever is neither at its source nor temporary becomes
      temporary. Failures are remembered, and the pass goes on. */
  function RetreatAside(plan: Plan, t: Task, i: nat, ok: bool): (r: (bool, Step))
    requires i <= |plan.rows| == |t.current|
    ensures |r.1.task.current| == |t.current|
    decreases |plan.rows| - i
  {
    if i == |plan.rows| then (ok, Step(Done, t))
    else
      var row := plan.rows[i];
      var s := if t.current[i] != row.source && t.current[i] != row.temporary then Move(plan, t, i, row.temporary) else Step(Done, t);
      if s.end.Cut? then (false, s) else RetreatAside(plan, s.task, i + 1, ok && s.end.Done?)
  }

  /** Second pass: everything goes back to its source. */
  function RetreatBack(plan: Plan, t: Task, i: nat, ok: bool): (r: (bool, Step))
    requires i <= |plan.rows| == |t.current|
    ensures |r.1.task.current| == |t.current|
    decreases |plan.rows| - i
  {
    if i == |plan.rows| then (ok, Step(Done, t))
    else
      var row := plan.rows[i];
      var s := if t.current[i] != row.source then Move(plan, t, i, row.source) else Step(Done, t);
      if s.end.Cut? then (false, s) else RetreatBack(plan, s.task, i + 1, ok && s.end.Done?)
  }

  function Retreat(plan: Plan, t: Task): (r: (bool, Step))
    requires |plan.rows| == |t.current|
    ensures |r.1.task.current| == |t.current|
  {
    var (ok, s) := RetreatAside(plan, t, 0, true);
    if s.end.Cut? then (false, s) else RetreatBack(plan, s.task, 0, ok)
  }
}
