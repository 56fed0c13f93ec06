/** The lines of a rename log as they are printed, one JSON object each with its keys in order. */
module RenameText {
  import opened BatchRename
  import JsonPrint

  function StateNumber(state: State): (n: nat)
    ensures n < 5
  {
    match state
    case Queued => 0
    case Running => 1
    case Completed => 2
    case Restored => 3
    case RecoveryRequired => 4
  }

  function RoleText(role: Role): string {
    match role
    case AsSource => "source"
    case AsTemporary => "temporary"
    case AsTarget => "target"
  }

  /** `job` and `error` in their printed form. */
  function LineText(line: Line, job: string, error: string): string {
    match line
    case StateLine(state, _) =>
      "{\"error\":\"" + error + "\",\"event\":\"state\",\"job\":\"" + job + "\",\"state\":" + JsonPrint.DecimalText(StateNumber(state)) + "}\n"
    case Intent(row, role) => "{\"destination\":\"" + RoleText(role) + "\",\"event\":\"intent\",\"index\":" + JsonPrint.DecimalText(row) + "}\n"
    case Receipt(row, role) => "{\"destination\":\"" + RoleText(role) + "\",\"event\":\"moved\",\"index\":" + JsonPrint.DecimalText(row) + "}\n"
  }

  lemma {:induction false} FiguresCounted(n: nat)
    ensures |JsonPrint.DecimalText(n)| == Digits(n)
  {
    if n >= 10 { FiguresCounted(n / 10); }
  }

  /** The size the budget counts with is the length of the line. */
  lemma LineSizeExactly(line: Line, job: string, error: string)
    requires line.StateLine? ==> |job| + |error| == line.note
    ensures |LineText(line, job, error)| == LineSize(line)
  {
    match line
    case StateLine(state, _) =>
    case Intent(row, _) => FiguresCounted(row);
    case Receipt(row, _) => FiguresCounted(row);
  }
}
