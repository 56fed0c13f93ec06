/** Quoting arguments for a Windows command line, and the documented rules by which
    `CommandLineToArgvW` splits what follows the program name. */
module CommandLine {

  function Slashes(n: nat): (s: string)
    ensures |s| == n
  {
    if n == 0 then "" else "\\" + Slashes(n - 1)
  }

  /** The rest of a quoted argument, with `slashes` backslashes not yet written. */
  function Body(value: string, slashes: nat): string
    decreases |value|
  {
    if value == "" then Slashes(slashes * 2) + "\""
    else if value[0] == '\\' then Body(value[1..], slashes + 1)
    else if value[0] == '"' then Slashes(slashes * 2 + 1) + ("\"" + Body(value[1..], 0))
    else Slashes(slashes) + ([value[0]] + Body(value[1..], 0))
  }

  function Quoted(value: string): string {
    "\"" + Body(value, 0)
  }

  lemma Regroup(a: string, b: string, c: string)
    ensures a + (b + c) == (a + b) + c
  {
  }

  lemma AppendTwo(bytes: string, a: string, b: string, rest: string)
    ensures bytes + (a + (b + rest)) == (bytes + a + b) + rest
  {
  }

  /** Quotes an argument in one pass. */
  method Argument(value: string) returns (result: string)
    ensures result == Quoted(value)
  {
    result := "\"";
    var slashes := 0;
    for i := 0 to |value|
      invariant result + Body(value[i..], slashes) == Quoted(value)
    {
      var c := value[i];
      assert value[i..][1..] == value[i + 1..];
      if c == '\\' {
        slashes := slashes + 1;
        continue;
      }
      ghost var rest := Body(value[i + 1..], 0);
      if c == '"' {
        AppendTwo(result, Slashes(slashes * 2 + 1), "\"", rest);
        result := result + Slashes(slashes * 2 + 1);
      } else {
        AppendTwo(result, Slashes(slashes), [c], rest);
        result := result + Slashes(slashes);
      }
      slashes := 0;
      result := result + [c];
    }
    Regroup(result, Slashes(slashes * 2), "\"");
    result := result + Slashes(slashes * 2);
    result := result + "\"";
  }

  /** Quoted arguments with one space between them. */
  function Joined(arguments: seq<string>): string {
    if arguments == [] then ""
    else if |arguments| == 1 then Quoted(arguments[0])
    else Quoted(arguments[0]) + (" " + Joined(arguments[1..]))
  }

  // --------------------------------------------------------------- splitting

  /** A splitter inside a line: backslashes just seen, whether inside quotes, whether an
      argument has begun, that argument so far, and the finished ones. */
  datatype Splitter = Splitter(slashes: nat, quoted: bool, begun: bool, current: string, done: seq<string>)

  predicate IsBlank(c: char) {
    c == ' ' || c == '\t'
  }

  /** 2n backslashes before a quote stand for n, and the quote opens or closes; one more
      makes the quote literal; backslashes before anything else stand for themselves. Blanks
      outside quotes separate arguments. */
  function Next(s: Splitter, c: char): Splitter {
    if c == '\\' then s.(slashes := s.slashes + 1, begun := true)
    else if c == '"' then
      var current := s.current + Slashes(s.slashes / 2);
      if s.slashes % 2 == 0 then Splitter(0, !s.quoted, true, current, s.done)
      else Splitter(0, s.quoted, true, current + "\"", s.done)
    else if IsBlank(c) && !s.quoted then Splitter(0, false, false, "", Finished(s))
    else Splitter(0, s.quoted, true, s.current + Slashes(s.slashes) + [c], s.done)
  }

  function Finished(s: Splitter): seq<string> {
    if s.begun then s.done + [s.current + Slashes(s.slashes)] else s.done
  }

  function Scan(s: Splitter, line: string): Splitter
    decreases |line|
  {
    if line == "" then s else Scan(Next(s, line[0]), line[1..])
  }

  function Split(line: string): seq<string> {
    Finished(Scan(Splitter(0, false, false, "", []), line))
  }

  // -------------------------------------------------------------- round trip

  lemma {:induction false} ScanConcat(s: Splitter, a: string, b: string)
    ensures Scan(s, a + b) == Scan(Scan(s, a), b)
    decreases |a|
  {
    if a == "" {
      assert a + b == b;
    } else {
      assert (a + b)[1..] == a[1..] + b;
      ScanConcat(Next(s, a[0]), a[1..], b);
    }
  }

  lemma {:induction false} ScanSlashes(s: Splitter, n: nat)
    requires s.begun
    ensures Scan(s, Slashes(n)) == s.(slashes := s.slashes + n)
    decreases n
  {
    if n > 0 {
      assert Slashes(n)[1..] == Slashes(n - 1);
      ScanSlashes(s.(slashes := s.slashes + 1), n - 1);
    }
  }

  lemma ScanRun(s: Splitter, n: nat, c: char)
    requires s.begun && s.slashes == 0
    ensures Scan(s, Slashes(n) + [c]) == Next(s.(slashes := n), c)
  {
    ScanConcat(s, Slashes(n), [c]);
    ScanSlashes(s, n);
    assert [c][1..] == "";
  }

  lemma {:induction false} SlashesAdd(n: nat)
    ensures Slashes(n) + "\\" == Slashes(n + 1)
  {
    if n > 0 { SlashesAdd(n - 1); }
  }

  /** Inside quotes, the body of a value adds exactly that value and closes the quotes. */
  lemma {:induction false} BodyScans(s: Splitter, value: string, n: nat)
    requires s.begun && s.quoted && s.slashes == 0
    ensures Scan(s, Body(value, n)) == s.(quoted := false, current := s.current + (Slashes(n) + value))
    decreases |value|
  {
    if value == "" {
      ScanRun(s, n * 2, '"');
      assert Slashes(n) + value == Slashes(n);
    } else if value[0] == '\\' {
      BodyScans(s, value[1..], n + 1);
      SlashesAdd(n);
      Regroup(Slashes(n), "\\", value[1..]);
      assert value == "\\" + value[1..];
    } else {
      var k := if value[0] == '"' then n * 2 + 1 else n;
      var head, rest := Slashes(k) + [value[0]], Body(value[1..], 0);
      ScanRun(s, k, value[0]);
      Regroup(Slashes(k), [value[0]], rest);
      ScanConcat(s, head, rest);
      var next := Next(s.(slashes := k), value[0]);
      BodyScans(next, value[1..], 0);
      CurrentIs(s.current, Slashes(n), value);
      assert "" + value[1..] == value[1..];
    }
  }

  lemma CurrentIs(current: string, slashes: string, value: string)
    requires value != ""
    ensures current + slashes + [value[0]] + value[1..] == current + (slashes + value)
  {
  }

  lemma QuotedScans(done: seq<string>, value: string)
    ensures Scan(Splitter(0, false, false, "", done), Quoted(value)) == Splitter(0, false, true, value, done)
  {
    var open := Splitter(0, true, true, "", done);
    assert Slashes(0) == "" && "" + "" == "";
    assert Quoted(value)[1..] == Body(value, 0);
    BodyScans(open, value, 0);
    assert "" + ("" + value) == value;
  }

  lemma {:induction false} JoinedScans(done: seq<string>, arguments: seq<string>)
    ensures Finished(Scan(Splitter(0, false, false, "", done), Joined(arguments))) == done + arguments
    decreases |arguments|
  {
    var start := Splitter(0, false, false, "", done);
    if arguments != [] {
      var first := Splitter(0, false, true, arguments[0], done);
      QuotedScans(done, arguments[0]);
      assert arguments[0] + Slashes(0) == arguments[0];
      if |arguments| > 1 {
        ScanConcat(start, Quoted(arguments[0]), " " + Joined(arguments[1..]));
        assert (" " + Joined(arguments[1..]))[1..] == Joined(arguments[1..]);
        JoinedScans(done + [arguments[0]], arguments[1..]);
        assert done + [arguments[0]] + arguments[1..] == done + arguments;
      } else {
        assert done + [arguments[0]] == done + arguments;
      }
    } else {
      assert done + arguments == done;
    }
  }

  /** Splitting a line of quoted arguments gives back the arguments, whatever characters
      they contain. */
  lemma SplitJoined(arguments: seq<string>)
    ensures Split(Joined(arguments)) == arguments
  {
    JoinedScans([], arguments);
    assert [] + arguments == arguments;
  }
}
