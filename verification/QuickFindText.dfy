/** The lines a quick-find helper prints, and how long they are. */
module QuickFindText {
  import opened QuickFindSession
  import S = QuickFindSender
  import JsonPrint

  /** The JSON form of a path: quoted, escaped, in UTF-8. */
  type Printer = string -> string

  /** The size of a path printed as an array of its own. */
  function MeasureOf(print_: Printer): S.Measure {
    path => |print_(path)| + 2
  }

  function Listed(print_: Printer, paths: seq<string>): string {
    if paths == [] then ""
    else if |paths| == 1 then print_(paths[0])
    else Listed(print_, paths[..|paths| - 1]) + "," + print_(paths[|paths| - 1])
  }

  /** One frame with its number. The count of a snapshot or an end stands in quotes. */
  function FrameText(print_: Printer, frame: Frame, number: nat): string {
    var n := JsonPrint.DecimalText(number);
    match frame
    case Started => "{\"seq\":" + n + ",\"type\":\"started\",\"v\":1}"
    case Snapshot(total) => "{\"sdk\":3,\"seq\":" + n + ",\"total\":\"" + Counted(total) + "\",\"type\":\"snapshot\",\"v\":1}"
    case Items(paths) => "{\"paths\":[" + Listed(print_, paths) + "],\"seq\":" + n + ",\"type\":\"items\",\"v\":1}"
    case Failure => "{\"reason\":\"results-changed\",\"seq\":" + n + ",\"type\":\"error\",\"v\":1}"
    case End(emitted, complete) =>
      "{\"complete\":" + (if complete then "true" else "false") + ",\"emitted\":\"" + Counted(emitted) + "\",\"seq\":" + n + ",\"type\":\"end\",\"v\":1}"
    case Unreadable => ""
  }

  function Counted(count: int): string {
    if count < 0 then "" else JsonPrint.DecimalText(count)
  }

  function Printed(print_: Printer, frame: Frame, number: nat): Line {
    Line(number, frame, |FrameText(print_, frame, number)|)
  }

  /** A number that fits a machine word has at most 20 figures. */
  const WORD: nat := 0x1_0000_0000_0000_0000

  lemma {:induction false} FiguresOf(n: nat, figures: nat)
    requires figures > 0 && n < Power(figures)
    ensures |JsonPrint.DecimalText(n)| <= figures
    decreases figures
  {
    if n >= 10 {
      FiguresOf(n / 10, figures - 1);
    }
  }

  function Power(figures: nat): nat {
    if figures == 0 then 1 else 10 * Power(figures - 1)
  }

  lemma WordFigures(n: nat)
    requires n < 2 * WORD
    ensures |JsonPrint.DecimalText(n)| <= 20
  {
    TwentyFigures();
    FiguresOf(n, 20);
  }

  lemma TwentyFigures()
    ensures 2 * WORD < Power(20)
  {
    assert Power(5) == 100000;
    assert Power(10) == 10000000000;
    assert Power(15) == 1000000000000000;
  }

  lemma {:induction false} ListedSize(print_: Printer, paths: seq<string>)
    requires paths != []
    ensures |Listed(print_, paths)| == S.Total(MeasureOf(print_), paths) - |paths| - 1
    decreases |paths|
  {
    var n := |paths| - 1;
    if n > 0 { ListedSize(print_, paths[..n]); } else { assert paths[..0] == []; }
  }

  /** Every line is within the reader's limit, once the paths of an items frame are: the
      sender's 240 KiB for them leave room for the rest of the line. */
  lemma LinesFit(print_: Printer, frame: Frame, number: nat)
    requires number < 2 * WORD
    requires frame.Items? ==> S.FitsFrame(MeasureOf(print_), frame.paths)
    requires frame.Snapshot? ==> frame.total < WORD
    requires frame.End? ==> frame.emitted < WORD
    ensures Printed(print_, frame, number).length <= LINE_LIMIT
  {
    WordFigures(number);
    match frame
    case Snapshot(total) => if total >= 0 { WordFigures(total); }
    case End(emitted, _) => if emitted >= 0 { WordFigures(emitted); }
    case Items(paths) => ListedSize(print_, paths);
    case _ =>
  }
}
