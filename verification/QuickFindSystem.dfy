/** The quick-find helper and its session, connected by two pipes. */
module QuickFindSystem {
  import opened QuickFindSession
  import opened QuickFindText
  import S = QuickFindSender

  /** What a helper sends for a query that stays unchanged: the count, the rows in frames, and
      the end. */
  function Frames(print_: Printer, rows: seq<string>): seq<Frame> {
    [Started, Snapshot(|rows|)] + ItemFrames(S.Frames(MeasureOf(print_), rows)) + [End(|rows|, true)]
  }

  /** Line numbers are positions in the list. */
  function Numbered(print_: Printer, frames: seq<Frame>): (script: seq<Line>)
    ensures |script| == |frames|
    ensures forall i :: 0 <= i < |script| ==> script[i] == Printed(print_, frames[i], i)
  {
    seq(|frames|, i requires 0 <= i < |frames| => Printed(print_, frames[i], i))
  }

  /** The lines of a query; if its rows change after `cut` lines, an error ends them. */
  function Script(print_: Printer, rows: seq<string>, cut: nat): seq<Line> {
    var frames := Frames(print_, rows);
    Numbered(print_, if 2 <= cut < |frames| then frames[..cut] + [Failure] else frames)
  }

  function ItemFrames(frames: seq<seq<string>>): (r: seq<Frame>)
    ensures |r| == |frames|
  {
    seq(|frames|, i requires 0 <= i < |frames| => Items(frames[i]))
  }

  /** The paths in the items frames of a list of lines. */
  function PathsIn(lines: seq<Line>): seq<string> {
    if lines == [] then []
    else PathsIn(lines[..|lines| - 1]) + if lines[|lines| - 1].frame.Items? then lines[|lines| - 1].frame.paths else []
  }

  /** `next` lines were sent; `waiting`: the last one was an items frame without an answer. */
  datatype System = System(session: Session, next: nat, waiting: bool, lines: seq<Line>, answers: seq<nat>)

  /** `partial`: bytes that have arrived of a line that is not whole yet. A helper may also
      leave at any time without being asked to, in the middle of a line. */
  datatype Step = Send | Hear | Read(count: nat, partial: nat) | Leave(normal: bool, partial: nat) | Other(event: Event)

  /** The helper has sent everything and waits for nothing, or is being killed. */
  predicate MayLeave(script: seq<Line>, sys: System) {
    !sys.session.exited && (sys.session.failed || (sys.next == |script| && !sys.waiting))
  }

  predicate Enabled(script: seq<Line>, sys: System, step: Step) {
    match step
    case Send => !sys.waiting && sys.next < |script| && !sys.session.exited
    case Hear => sys.answers != []
    case Read(count, partial) =>
      count <= |sys.lines| && !sys.session.exited && partial <= if count < |sys.lines| then sys.lines[count].length else 0
    case Leave(normal, partial) =>
      && !sys.session.exited && (normal ==> partial == 0 && MayLeave(script, sys) && script != [] && script[|script| - 1].frame.End?)
      && partial <= if sys.next < |script| then script[sys.next].length else 0
    case Other(e) => e.WorkerDone? || e.Publish? || e.Timeout? || e.Cancel?
  }

  function Handled(valid: string -> bool, sys: System, e: Event): System {
    var (t, written) := Handle(valid, sys.session, e);
    sys.(session := t, answers := sys.answers + written)
  }

  function Next(valid: string -> bool, script: seq<Line>, sys: System, step: Step): System
    requires Enabled(script, sys, step)
  {
    match step
    case Send => sys.(next := sys.next + 1, waiting := script[sys.next].frame.Items?, lines := sys.lines + [script[sys.next]])
    case Hear => sys.(answers := sys.answers[1..], waiting := !(sys.next > 0 && sys.answers[0] == sys.next - 1) && sys.waiting)
    case Read(count, partial) => Handled(valid, sys.(lines := sys.lines[count..]), Receive(sys.lines[..count], partial))
    case Leave(normal, partial) => Handled(valid, sys.(lines := []), Exit(sys.lines, partial, normal))
    case Other(e) => Handled(valid, sys, e)
  }

  // -------------------------------------------------------------- invariants

  /** Lines on their way are the script from where the reader is. */
  ghost predicate InOrder(script: seq<Line>, sys: System) {
    && sys.session.sequence + |sys.lines| == sys.next <= |script|
    && (forall i :: 0 <= i < |sys.lines| ==> sys.lines[i] == script[sys.session.sequence + i])
  }

  function Unanswered(lines: seq<Line>): nat {
    if lines == [] then 0 else (if lines[0].frame.Items? then 1 else 0) + Unanswered(lines[1..])
  }

  /** What a reader that has not failed knows after `sequence` lines of the script. */
  ghost predicate Followed(script: seq<Line>, s: Session) {
    && script != [] && s.sequence <= |script| && s.paths.rows == PathsIn(script[..s.sequence])
    && (s.snapshot <==> s.sequence >= 2) && (s.ended <==> s.sequence == |script|)
    && (s.snapshot ==> Snapshot(s.total) == script[1].frame)
    && (s.ended ==> script[|script| - 1].frame.End?)
  }

  /** One items frame at most has no answer yet: it is on its way, kept back by the session,
      or its answer is on its way. */
  ghost predicate Paired(sys: System) {
    && Unanswered(sys.lines) + |sys.session.acks| + |sys.answers| == (if sys.waiting then 1 else 0)
    && (sys.session.acks != [] ==> sys.session.acks == [sys.next - 1])
    && (sys.answers != [] ==> sys.answers == [sys.next - 1])
    && (forall i :: 0 <= i < |sys.lines| && sys.lines[i].frame.Items? ==> i == |sys.lines| - 1)
  }

  ghost predicate Shape(script: seq<Line>) {
    && |script| >= 3 && (forall i :: 0 <= i < |script| ==> script[i].sequence == i)
    && script[0].frame == Started && script[1].frame.Snapshot? && script[1].frame.total >= 0
    && (forall i :: 2 <= i < |script| - 1 ==> script[i].frame.Items? && script[i].frame.paths != [])
    && (script[|script| - 1].frame == Failure
        || (script[|script| - 1].frame == End(script[1].frame.total, true) && |PathsIn(script)| == script[1].frame.total))
  }

  ghost predicate Consistent(script: seq<Line>, sys: System) {
    && Sound(sys.session)
    && (!sys.session.cancelled && !sys.session.failed && !sys.session.exited ==>
          InOrder(script, sys) && Followed(script, sys.session) && Paired(sys))
    && (!sys.session.cancelled && !sys.session.failed && sys.session.ended ==>
          sys.session.paths.rows == PathsIn(script) && script != [] && script[|script| - 1].frame.End?)
  }

  lemma PathsNext(script: seq<Line>, n: nat)
    requires n < |script|
    ensures PathsIn(script[..n + 1]) == PathsIn(script[..n]) + if script[n].frame.Items? then script[n].frame.paths else []
  {
    assert script[..n + 1][..n] == script[..n];
  }

  lemma {:induction false} UnansweredConcat(a: seq<Line>, b: seq<Line>)
    ensures Unanswered(a + b) == Unanswered(a) + Unanswered(b)
    decreases |a|
  {
    if a == [] {
      assert a + b == b;
    } else {
      assert (a + b)[1..] == a[1..] + b;
      UnansweredConcat(a[1..], b);
    }
  }

  /** The script of any query has the shape a session expects, and carries its rows if it is
      not cut. */
  lemma ScriptShape(print_: Printer, rows: seq<string>, cut: nat)
    ensures Shape(Script(print_, rows, cut))
    ensures var script := Script(print_, rows, cut); script[|script| - 1].frame.End? ==> PathsIn(script) == rows
  {
    hide Printed, Frames, PathsIn;
    FramesShape(print_, rows);
    WholePaths(print_, rows);
    var frames := Frames(print_, rows);
    NumberedIs(print_, frames);
    if 2 <= cut < |frames| {
      var ended := frames[..cut] + [Failure];
      NumberedIs(print_, ended);
      assert forall i :: 0 <= i < cut ==> ended[i] == frames[i];
    }
  }

  lemma NumberedIs(print_: Printer, frames: seq<Frame>)
    ensures var script := Numbered(print_, frames); forall i :: 0 <= i < |frames| ==> script[i].sequence == i && script[i].frame == frames[i]
  {
  }

  lemma FramesShape(print_: Printer, rows: seq<string>)
    ensures var frames := Frames(print_, rows);
      && |frames| >= 3 && frames[0] == Started && frames[1] == Snapshot(|rows|) && frames[|frames| - 1] == End(|rows|, true)
      && forall i :: 2 <= i < |frames| - 1 ==> frames[i].Items? && frames[i].paths != []
  {
    var items := S.Frames(MeasureOf(print_), rows);
    S.FramesCarryRows(MeasureOf(print_), rows);
    var frames := Frames(print_, rows);
    forall i | 2 <= i < |frames| - 1
      ensures frames[i].Items? && frames[i].paths != []
    {
      assert frames[i] == ItemFrames(items)[i - 2] && S.Sendable(MeasureOf(print_), items[i - 2]);
    }
    if |frames| == 3 { assert items == []; } else { assert |items| > 0; }
  }

  lemma WholePaths(print_: Printer, rows: seq<string>)
    ensures PathsIn(Numbered(print_, Frames(print_, rows))) == rows
  {
    S.FramesCarryRows(MeasureOf(print_), rows);
    var items := S.Frames(MeasureOf(print_), rows);
    var head, middle, last := [Started, Snapshot(|rows|)], ItemFrames(items), [End(|rows|, true)];
    ItemsFlat(items);
    FramePathsConcat(head + middle, last);
    FramePathsConcat(head, middle);
    assert head[..1] == [Started] && [Started][..0] == [] && last[..0] == [];
    assert FramePaths([Started]) == [] && FramePaths(head) == [] && FramePaths(last) == [];
    assert rows + [] == rows && [] + rows == rows;
    NumberedPaths(print_, Frames(print_, rows));
  }

  function FramePaths(frames: seq<Frame>): seq<string> {
    if frames == [] then []
    else FramePaths(frames[..|frames| - 1]) + if frames[|frames| - 1].Items? then frames[|frames| - 1].paths else []
  }

  lemma {:induction false} NumberedPaths(print_: Printer, frames: seq<Frame>)
    ensures PathsIn(Numbered(print_, frames)) == FramePaths(frames)
    decreases |frames|
  {
    if frames != [] {
      var n := |frames| - 1;
      assert Numbered(print_, frames)[..n] == Numbered(print_, frames[..n]);
      NumberedPaths(print_, frames[..n]);
    }
  }

  lemma {:induction false} FramePathsConcat(a: seq<Frame>, b: seq<Frame>)
    ensures FramePaths(a + b) == FramePaths(a) + FramePaths(b)
    decreases |b|
  {
    if b == [] {
      assert a + b == a;
    } else {
      var n := |b| - 1;
      var more := if b[n].Items? then b[n].paths else [];
      assert (a + b)[..|a + b| - 1] == a + b[..n];
      FramePathsConcat(a, b[..n]);
      assert FramePaths(a) + FramePaths(b[..n]) + more == FramePaths(a) + (FramePaths(b[..n]) + more);
    }
  }

  lemma {:induction false} ItemsFlat(frames: seq<seq<string>>)
    ensures FramePaths(ItemFrames(frames)) == S.Flat(frames)
    decreases |frames|
  {
    if frames != [] {
      var n := |frames| - 1;
      assert ItemFrames(frames)[..n] == ItemFrames(frames[..n]);
      ItemsFlat(frames[..n]);
    }
  }

  // ---------------------------------------------------------------- one line

  lemma SequenceIs(script: seq<Line>, n: nat)
    requires Shape(script) && n < |script|
    ensures script[n].sequence == n
  {
  }

  lemma ItemsFollow(valid: string -> bool, script: seq<Line>, s: Session)
    requires Shape(script) && Followed(script, s) && s.sequence < |script| && script[s.sequence].frame.Items?
    ensures var (ok, t) := TakeItems(valid, s.(sequence := s.sequence + 1), script[s.sequence].frame.paths);
      && (ok ==> Followed(script, t) && t == s.(sequence := s.sequence + 1, paths := t.paths, acks := s.acks + [s.sequence]))
      && (!ok ==> t.failed && t.cancelled == s.cancelled && t.exited == s.exited)
  {
    hide AddPaths;
    PathsNext(script, s.sequence);
    AddPathsRows(valid, s.paths, script[s.sequence].frame.paths);
  }

  lemma OtherFollow(script: seq<Line>, s: Session)
    requires Shape(script) && Followed(script, s) && s.sequence < |script| && !script[s.sequence].frame.Items?
    ensures var (ok, t) := TakeOther(s.(sequence := s.sequence + 1), script[s.sequence].frame);
      && (ok ==> Followed(script, t) && t == s.(sequence := s.sequence + 1, snapshot := t.snapshot, total := t.total, ended := t.ended))
      && (!ok ==> t.failed && t.cancelled == s.cancelled && t.exited == s.exited)
  {
    var n := s.sequence;
    PathsNext(script, n);
    if n == |script| - 1 { assert script[..n + 1] == script; }
  }

  lemma FollowedLine(script: seq<Line>, s: Session)
    requires Shape(script) && Followed(script, s) && s.sequence < |script|
    ensures !s.ended && !script[s.sequence].frame.Unreadable?
  {
  }

  /** Reading the next line of the script: either it follows the script, or the session failed
      on the length of a line, on a path that is not absolute, or on an error. */
  lemma TakeFollows(valid: string -> bool, script: seq<Line>, s: Session)
    requires Shape(script) && Followed(script, s) && s.sequence < |script|
    ensures var (ok, t) := TakeLine(valid, s, script[s.sequence]);
      && (ok ==> Followed(script, t) && t.sequence == s.sequence + 1 && t.failed == s.failed
                 && t.acks == s.acks + (if script[s.sequence].frame.Items? then [s.sequence] else []) && t.rest == s.rest)
      && (!ok ==> t.failed)
      && t.cancelled == s.cancelled && t.exited == s.exited
  {
    hide TakeItems, TakeOther, Followed, Shape, AddPaths;
    SequenceIs(script, s.sequence);
    FollowedLine(script, s);
    if script[s.sequence].frame.Items? { ItemsFollow(valid, script, s); } else { OtherFollow(script, s); }
    assert s.acks + [] == s.acks;
  }

  lemma {:induction false} AddPathsRows(valid: string -> bool, p: Paths, paths: seq<string>)
    ensures var (ok, q) := AddPaths(valid, p, paths); ok ==> q.rows == p.rows + paths
    decreases |paths|
  {
    if paths == [] {
      assert p.rows + paths == p.rows;
    } else if valid(paths[0]) {
      AddPathsRows(valid, AddPath(p, paths[0]), paths[1..]);
      assert p.rows + [paths[0]] + paths[1..] == p.rows + paths;
    }
  }

  /** The numbers of the items frames among consecutive lines. */
  function Numbers(lines: seq<Line>): seq<nat> {
    if lines == [] then [] else (if lines[0].frame.Items? then [lines[0].sequence] else []) + Numbers(lines[1..])
  }

  lemma {:induction false} TakesFollow(valid: string -> bool, script: seq<Line>, s: Session, lines: seq<Line>)
    requires Shape(script) && Followed(script, s) && s.sequence + |lines| <= |script| && !s.failed
    requires forall i :: 0 <= i < |lines| ==> lines[i] == script[s.sequence + i]
    ensures var (ok, t) := TakeLines(valid, s, lines);
      && (ok ==> Followed(script, t) && t.sequence == s.sequence + |lines| && !t.failed && t.acks == s.acks + Numbers(lines) && t.rest == s.rest)
      && (!ok ==> t.failed) && t.cancelled == s.cancelled && t.exited == s.exited
    decreases |lines|
  {
    hide TakeLine, Followed, Shape, Clears;
    if lines == [] {
      assert s.acks + Numbers(lines) == s.acks;
    } else {
      FollowedFits(script, s);
      SequenceIs(script, s.sequence);
      TakeFollows(valid, script, s);
      var (ok, t) := TakeLine(valid, s, lines[0]);
      if ok {
        assert forall i :: 0 <= i < |lines[1..]| ==> lines[1..][i] == lines[i + 1];
        TakesFollow(valid, script, t, lines[1..]);
        Regroup(s.acks, if lines[0].frame.Items? then [lines[0].sequence] else [], Numbers(lines[1..]));
      }
    }
  }

  lemma FollowedFits(script: seq<Line>, s: Session)
    requires Followed(script, s)
    ensures s.sequence <= |script|
  {
  }

  lemma Regroup(a: seq<nat>, b: seq<nat>, c: seq<nat>)
    ensures a + b + c == a + (b + c)
  {
  }

  lemma {:induction false} NumbersCount(lines: seq<Line>)
    ensures |Numbers(lines)| == Unanswered(lines)
    ensures forall n :: n in Numbers(lines) ==> exists i :: 0 <= i < |lines| && lines[i].sequence == n && lines[i].frame.Items?
  {
    if lines != [] {
      NumbersCount(lines[1..]);
      forall n | n in Numbers(lines)
        ensures exists i :: 0 <= i < |lines| && lines[i].sequence == n && lines[i].frame.Items?
      {
        if n in Numbers(lines[1..]) {
          var i :| 0 <= i < |lines[1..]| && lines[1..][i].sequence == n && lines[1..][i].frame.Items?;
          assert lines[i + 1].sequence == n;
        } else {
          assert lines[0].sequence == n;
        }
      }
    }
  }

  // --------------------------------------------------------------- all steps

  ghost predicate Alive(s: Session) {
    !s.cancelled && !s.failed && !s.exited
  }

  /** Settling writes the answers kept back, or keeps them. */
  lemma SettleAnswers(s: Session)
    ensures var (t, written) := Settle(s);
      && t == s.(paths := t.paths, acks := t.acks, timer := t.timer) && t.paths.rows == s.paths.rows
      && ((t.acks == s.acks && written == []) || (t.acks == [] && written == s.acks))
  {
    hide Pump, Blocked;
    PumpRows(s.paths);
  }

  lemma {:induction false} PumpRows(p: Paths)
    ensures Pump(p).rows == p.rows
    decreases |p.pending|
  {
    if CanLaunch(p) { PumpRows(Launch(p)); }
  }

  lemma FollowedSame(script: seq<Line>, s: Session, t: Session)
    requires Followed(script, s) && t.sequence == s.sequence && t.paths.rows == s.paths.rows
    requires t.snapshot == s.snapshot && t.ended == s.ended && t.total == s.total
    ensures Followed(script, t)
  {
  }

  /** Everything has been followed when the end was taken. */
  lemma FollowedEnd(script: seq<Line>, s: Session)
    requires Followed(script, s) && s.ended
    ensures s.paths.rows == PathsIn(script) && script != [] && script[|script| - 1].frame.End?
  {
    assert script[..|script|] == script;
  }

  lemma SendKeeps(valid: string -> bool, script: seq<Line>, sys: System)
    requires Shape(script) && Consistent(script, sys) && Enabled(script, sys, Send)
    ensures Consistent(script, Next(valid, script, sys, Send))
  {
    hide Sound, Followed;
    var line := script[sys.next];
    UnansweredConcat(sys.lines, [line]);
    assert Unanswered([line]) == (if line.frame.Items? then 1 else 0) by { assert [line][1..] == []; }
    if Alive(sys.session) { NoItems(sys.lines); }
  }

  lemma {:induction false} NoItems(lines: seq<Line>)
    ensures Unanswered(lines) == 0 ==> forall i :: 0 <= i < |lines| ==> !lines[i].frame.Items?
    ensures (forall i :: 0 <= i < |lines| ==> !lines[i].frame.Items?) ==> Unanswered(lines) == 0
  {
    if lines != [] {
      NoItems(lines[1..]);
      assert forall i :: 0 < i < |lines| ==> lines[i] == lines[1..][i - 1];
    }
  }

  lemma HearKeeps(valid: string -> bool, script: seq<Line>, sys: System)
    requires Consistent(script, sys) && Enabled(script, sys, Hear)
    ensures Consistent(script, Next(valid, script, sys, Hear))
  {
    hide Sound, Followed;
  }

  /** The items frames among the first lines: none, or the last line sent. */
  lemma NumbersTaken(sys: System, count: nat)
    requires Paired(sys) && count <= |sys.lines| && sys.session.sequence + |sys.lines| == sys.next
    requires forall i :: 0 <= i < |sys.lines| ==> sys.lines[i].sequence == sys.session.sequence + i
    ensures var n := Numbers(sys.lines[..count]);
      && |n| + Unanswered(sys.lines[count..]) == Unanswered(sys.lines) && (n == [] || n == [sys.next - 1])
  {
    var taken, left := sys.lines[..count], sys.lines[count..];
    assert sys.lines == taken + left;
    UnansweredConcat(taken, left);
    NumbersCount(taken);
    if Numbers(taken) != [] {
      var n := Numbers(taken)[0];
      assert n in Numbers(taken);
      var i :| 0 <= i < |taken| && taken[i].sequence == n && taken[i].frame.Items?;
      assert sys.lines[i] == taken[i] && n == sys.next - 1;
    }
  }

  /** What reading does to the accounts. */
  lemma ReadPaired(sys: System, count: nat, t: Session, u: Session, written: seq<nat>)
    requires Paired(sys) && count <= |sys.lines| && sys.session.sequence + |sys.lines| == sys.next
    requires forall i :: 0 <= i < |sys.lines| ==> sys.lines[i].sequence == sys.session.sequence + i
    requires t.acks == sys.session.acks + Numbers(sys.lines[..count])
    requires (u.acks == t.acks && written == []) || (u.acks == [] && written == t.acks)
    ensures Paired(sys.(session := u, lines := sys.lines[count..], answers := sys.answers + written))
  {
    hide Unanswered, Numbers;
    NumbersTaken(sys, count);
    assert forall i :: 0 <= i < |sys.lines[count..]| ==> sys.lines[count..][i] == sys.lines[count + i];
  }

  lemma LinesInOrder(script: seq<Line>, sys: System, count: nat)
    requires Shape(script) && InOrder(script, sys) && count <= |sys.lines|
    ensures sys.session.sequence + count <= |script|
    ensures forall i :: 0 <= i < count ==> sys.lines[..count][i] == script[sys.session.sequence + i]
    ensures forall i :: 0 <= i < |sys.lines| ==> sys.lines[i].sequence == sys.session.sequence + i
  {
  }

  lemma OrderLeft(script: seq<Line>, sys: System, count: nat, sys': System)
    requires InOrder(script, sys) && count <= |sys.lines|
    requires sys'.lines == sys.lines[count..] && sys'.session.sequence == sys.session.sequence + count && sys'.next == sys.next
    ensures InOrder(script, sys')
  {
  }

  /** What is read of the script, and what a session that has not failed knows after it. */
  lemma ReadFollows(valid: string -> bool, script: seq<Line>, sys: System, count: nat, partial: nat)
    requires Shape(script) && InOrder(script, sys) && Followed(script, sys.session) && Paired(sys) && Alive(sys.session)
    requires count <= |sys.lines| && sys.session.rest == []
    ensures var (u, written) := ReadLines(valid, sys.session, sys.lines[..count], partial);
      var sys' := sys.(session := u, lines := sys.lines[count..], answers := sys.answers + written);
      !u.failed ==> InOrder(script, sys') && Followed(script, u) && Paired(sys')
  {
    hide TakeLines, Settle, InOrder, Followed, Paired, Shape;
    LinesInOrder(script, sys, count);
    var s := sys.session.(partial := partial);
    FollowedSame(script, sys.session, s);
    assert [] + sys.lines[..count] == sys.lines[..count];
    TakesFollow(valid, script, s, sys.lines[..count]);
    var (ok, t) := TakeLines(valid, s, sys.lines[..count]);
    if ok && t.partial <= LINE_LIMIT {
      SettleAnswers(t);
      var (u, written) := Settle(t);
      FollowedSame(script, t, u);
      NextIs(script, sys);
      ReadPaired(sys, count, t, u, written);
      OrderLeft(script, sys, count, sys.(session := u, lines := sys.lines[count..], answers := sys.answers + written));
    }
  }

  lemma NextIs(script: seq<Line>, sys: System)
    requires InOrder(script, sys)
    ensures sys.session.sequence + |sys.lines| == sys.next
  {
  }

  lemma StaysFailed(valid: string -> bool, s: Session, lines: seq<Line>, partial: nat)
    requires Sound(s) && !s.cancelled
    ensures s.failed ==> ReadLines(valid, s, lines, partial).0.failed
    ensures ReadLines(valid, s, lines, partial).0.cancelled == s.cancelled && ReadLines(valid, s, lines, partial).0.exited == s.exited
  {
    hide TakeLines, Settle, Kept;
    var buffered := s.(rest := [], partial := partial);
    TakeLinesKeep(valid, buffered, s.rest + lines);
    SettleAnswers(TakeLines(valid, buffered, s.rest + lines).1);
  }

  lemma NothingLeft(s: Session)
    requires Sound(s) && !s.cancelled && !s.failed
    ensures s.rest == []
  {
  }

  lemma ReadKeeps(valid: string -> bool, script: seq<Line>, sys: System, count: nat, partial: nat)
    requires Shape(script) && Consistent(script, sys) && Enabled(script, sys, Read(count, partial))
    ensures Consistent(script, Next(valid, script, sys, Read(count, partial)))
  {
    hide ReadLines, Sound, InOrder, Followed, Paired, Shape;
    HandleKeeps(valid, sys.session, Receive(sys.lines[..count], partial));
    if !sys.session.cancelled {
      StaysFailed(valid, sys.session, sys.lines[..count], partial);
      if !sys.session.failed {
        NothingLeft(sys.session);
        ReadFollows(valid, script, sys, count, partial);
        var u := ReadLines(valid, sys.session, sys.lines[..count], partial).0;
        if !u.failed && u.ended { FollowedEnd(script, u); }
      }
    }
  }

  lemma LeaveKeeps(valid: string -> bool, script: seq<Line>, sys: System, normal: bool, partial: nat)
    requires Shape(script) && Consistent(script, sys) && Enabled(script, sys, Leave(normal, partial))
    ensures Consistent(script, Next(valid, script, sys, Leave(normal, partial)))
  {
    hide ReadLines, Sound, InOrder, Followed, Paired, Shape, Pump;
    HandleKeeps(valid, sys.session, Exit(sys.lines, partial, normal));
    if !sys.session.cancelled {
      StaysFailed(valid, sys.session, sys.lines, partial);
      var u := ReadLines(valid, sys.session, sys.lines, partial).0;
      PumpRows(u.paths);
      if !sys.session.failed {
        NothingLeft(sys.session);
        ReadFollows(valid, script, sys, |sys.lines|, partial);
        assert sys.lines[..|sys.lines|] == sys.lines;
        if !u.failed && u.ended { FollowedEnd(script, u); }
      }
    }
  }

  lemma SettlePaired(sys: System, u: Session, written: seq<nat>)
    requires Paired(sys)
    requires (u.acks == sys.session.acks && written == []) || (u.acks == [] && written == sys.session.acks)
    ensures Paired(sys.(session := u, answers := sys.answers + written))
  {
    hide Unanswered;
  }

  lemma OrderSame(script: seq<Line>, sys: System, sys': System)
    requires InOrder(script, sys) && sys'.lines == sys.lines && sys'.session.sequence == sys.session.sequence && sys'.next == sys.next
    ensures InOrder(script, sys')
  {
  }

  /** Workers and the display change places, and may let answers go. */
  lemma SettledKeeps(script: seq<Line>, sys: System, s: Session)
    requires Consistent(script, sys) && !sys.session.cancelled && s == sys.session.(paths := s.paths, timer := s.timer)
    requires s.paths.rows == sys.session.paths.rows && Sound(Settle(s).0)
    ensures Consistent(script, sys.(session := Settle(s).0, answers := sys.answers + Settle(s).1))
  {
    hide Sound, Settle, InOrder, Followed, Paired;
    SettleAnswers(s);
    var (u, written) := Settle(s);
    if Alive(sys.session) {
      FollowedSame(script, sys.session, u);
      SettlePaired(sys, u, written);
      OrderSame(script, sys, sys.(session := u, answers := sys.answers + written));
    }
  }

  lemma OtherKeeps(valid: string -> bool, script: seq<Line>, sys: System, e: Event)
    requires Consistent(script, sys) && Enabled(script, sys, Other(e))
    ensures Consistent(script, Next(valid, script, sys, Other(e)))
  {
    hide Sound, Settle, Resolved, Published;
    HandleKeeps(valid, sys.session, e);
    var s := sys.session;
    if !s.cancelled && e.WorkerDone? && e.worker < |s.paths.active| {
      RowsSame(s.paths, e.worker, e.bad);
      SettledKeeps(script, sys, s.(paths := Resolved(s.paths, e.worker, e.bad)));
    } else if !s.cancelled && e.Publish? && s.timer && s.paths.ready != [] {
      PublishedRows(s.paths);
      SettledKeeps(script, sys, s.(timer := false, paths := Published(s.paths)));
    } else {
      OthersKeep(valid, script, sys, e);
    }
  }

  lemma OthersKeep(valid: string -> bool, script: seq<Line>, sys: System, e: Event)
    requires Consistent(script, sys) && Sound(Handle(valid, sys.session, e).0)
    requires e.Timeout? || e.Cancel? || Handle(valid, sys.session, e) == (sys.session, []) || Handle(valid, sys.session, e) == (sys.session.(timer := false), [])
    ensures Consistent(script, Handled(valid, sys, e))
  {
    hide Sound, Followed, InOrder;
    var u := Handle(valid, sys.session, e).0;
    assert sys.answers + [] == sys.answers;
    if Alive(u) {
      FollowedSame(script, sys.session, u);
      OrderSame(script, sys, Handled(valid, sys, e));
    }
  }

  lemma StepKeeps(valid: string -> bool, script: seq<Line>, sys: System, step: Step)
    requires Shape(script) && Consistent(script, sys) && Enabled(script, sys, step)
    ensures Consistent(script, Next(valid, script, sys, step))
  {
    hide Consistent, Shape, Next;
    match step
    case Send => SendKeeps(valid, script, sys);
    case Hear => HearKeeps(valid, script, sys);
    case Read(count, partial) => ReadKeeps(valid, script, sys, count, partial);
    case Leave(normal, partial) => LeaveKeeps(valid, script, sys, normal, partial);
    case Other(e) => OtherKeeps(valid, script, sys, e);
  }

  // --------------------------------------------------------------------- runs

  function Opened(): System {
    System(Begun(), 0, false, [], [])
  }

  /** The steps taken in order; one that is not enabled changes nothing. */
  function Run(valid: string -> bool, script: seq<Line>, sys: System, steps: seq<Step>): System
    decreases |steps|
  {
    if steps == [] then sys
    else Run(valid, script, if Enabled(script, sys, steps[0]) then Next(valid, script, sys, steps[0]) else sys, steps[1..])
  }

  lemma {:induction false} RunKeeps(valid: string -> bool, script: seq<Line>, sys: System, steps: seq<Step>)
    requires Shape(script) && Consistent(script, sys)
    ensures Consistent(script, Run(valid, script, sys, steps))
    decreases |steps|
  {
    hide Consistent, Shape, Next, Enabled;
    if steps != [] {
      if Enabled(script, sys, steps[0]) {
        StepKeeps(valid, script, sys, steps[0]);
        RunKeeps(valid, script, Next(valid, script, sys, steps[0]), steps[1..]);
      } else {
        RunKeeps(valid, script, sys, steps[1..]);
      }
    }
  }

  lemma OpenedConsistent(script: seq<Line>)
    requires Shape(script)
    ensures Consistent(script, Opened())
  {
    assert script[..0] == [];
  }

  /** Something can always happen that the session waits for. */
  ghost predicate CanGoOn(script: seq<Line>, sys: System) {
    || Enabled(script, sys, Send) || Enabled(script, sys, Hear) || MayLeave(script, sys)
    || (sys.lines != [] && Enabled(script, sys, Read(|sys.lines|, 0)))
    || sys.session.paths.active != [] || (sys.session.timer && sys.session.paths.ready != [])
  }

  lemma GoesOn(script: seq<Line>, sys: System)
    requires Consistent(script, sys) && Running(sys.session)
    ensures CanGoOn(script, sys)
  {
    var s := sys.session;
    if !s.exited && !s.failed {
      if sys.waiting && sys.lines == [] && sys.answers == [] {
        assert s.acks != [] && Blocked(s.paths);
        assert s.paths.pending == [] ==> Bytes(s.paths.pending) == 0;
      }
    } else if s.exited {
      NotStuck(s);
    }
  }

  /** Over any order of sending, reading whole or broken lines, resolving and publishing, with
      a helper that may report changed rows or leave at any moment: a session that accepted an
      end without failing has received exactly the rows of the query, in order; at most one
      items frame is unanswered; every distinct path is in exactly one place; and a session
      that runs can go on without a helper that leaves of its own accord. */
  lemma QuickFindIsSafe(print_: Printer, valid: string -> bool, rows: seq<string>, cut: nat, steps: seq<Step>)
    ensures var script := Script(print_, rows, cut);
      var sys := Run(valid, script, Opened(), steps);
      && (!sys.session.cancelled ==> Placed(sys.session.paths))
      && (!sys.session.cancelled && !sys.session.failed && sys.session.ended ==> sys.session.paths.rows == rows)
      && (Alive(sys.session) ==> Unanswered(sys.lines) + |sys.session.acks| + |sys.answers| <= 1)
      && (Running(sys.session) ==> CanGoOn(script, sys))
  {
    hide Run, Script, Placed, Shape, CanGoOn, Running, InOrder, Followed;
    var script := Script(print_, rows, cut);
    ScriptShape(print_, rows, cut);
    OpenedConsistent(script);
    RunKeeps(valid, script, Opened(), steps);
    var sys := Run(valid, script, Opened(), steps);
    if Running(sys.session) { GoesOn(script, sys); }
  }

  // ------------------------------------------------------------- line lengths

  ghost predicate AllShort(lines: seq<Line>) {
    forall i :: 0 <= i < |lines| ==> lines[i].length <= LINE_LIMIT
  }

  /** No line that is on its way or buffered, whole or in part, is longer than the reader
      accepts. */
  ghost predicate Short(sys: System) {
    sys.session.partial <= LINE_LIMIT && AllShort(sys.lines) && AllShort(sys.session.rest)
  }

  lemma {:induction false} FewFrames(frames: seq<seq<string>>)
    requires forall i :: 0 <= i < |frames| ==> frames[i] != []
    ensures |frames| <= |S.Flat(frames)|
  {
    if frames != [] { FewFrames(frames[..|frames| - 1]); }
  }

  lemma FrameFits(print_: Printer, rows: seq<string>, i: nat, n: nat)
    requires |rows| < WORD && forall i :: 0 <= i < |rows| ==> |print_(rows[i])| + 2 <= S.MAX_BYTES
    requires i < |Frames(print_, rows)| && n < |Frames(print_, rows)|
    ensures Printed(print_, Frames(print_, rows)[i], n).length <= LINE_LIMIT
  {
    hide Printed;
    var frames, items, measure := Frames(print_, rows), S.Frames(MeasureOf(print_), rows), MeasureOf(print_);
    FramesFew(print_, rows);
    FramesShape(print_, rows);
    if 2 <= i < |frames| - 1 {
      S.FramesCarryRows(measure, rows);
      assert forall k :: 0 <= k < |rows| ==> measure(rows[k]) <= S.MAX_BYTES;
      assert frames[i] == ItemFrames(items)[i - 2] && S.FitsFrame(measure, items[i - 2]);
    }
    LinesFit(print_, frames[i], n);
  }

  lemma FramesFew(print_: Printer, rows: seq<string>)
    ensures |Frames(print_, rows)| <= |rows| + 3
  {
    var items := S.Frames(MeasureOf(print_), rows);
    S.FramesCarryRows(MeasureOf(print_), rows);
    forall i | 0 <= i < |items|
      ensures items[i] != []
    {
      assert S.Sendable(MeasureOf(print_), items[i]);
    }
    FewFrames(items);
  }

  /** When every path fits, every line of the helper does. */
  lemma ScriptFits(print_: Printer, rows: seq<string>, cut: nat)
    requires |rows| < WORD && forall i :: 0 <= i < |rows| ==> |print_(rows[i])| + 2 <= S.MAX_BYTES
    ensures AllShort(Script(print_, rows, cut))
  {
    hide Printed, Frames;
    var frames, script := Frames(print_, rows), Script(print_, rows, cut);
    FramesFew(print_, rows);
    forall i | 0 <= i < |script|
      ensures script[i].length <= LINE_LIMIT
    {
      if 2 <= cut < |frames| && i == cut {
        LinesFit(print_, Failure, i);
      } else {
        FrameFits(print_, rows, i, i);
      }
    }
  }

  lemma {:induction false} TakeLinesBuffer(valid: string -> bool, s: Session, lines: seq<Line>)
    requires s.partial <= LINE_LIMIT && AllShort(s.rest) && AllShort(lines)
    ensures var t := TakeLines(valid, s, lines).1; t.partial <= LINE_LIMIT && AllShort(t.rest)
    decreases |lines|
  {
    hide TakeLine, Clears;
    if lines != [] {
      TakeLineBuffer(valid, s, lines[0]);
      var (ok, t) := TakeLine(valid, s, lines[0]);
      assert AllShort(lines[1..]);
      if ok { TakeLinesBuffer(valid, t, lines[1..]); }
    }
  }

  lemma ItemsBuffer(valid: string -> bool, t: Session, paths: seq<string>)
    ensures var u := TakeItems(valid, t, paths).1; u.partial == t.partial && u.rest == t.rest
  {
    hide AddPaths;
  }

  lemma OtherBuffer(t: Session, frame: Frame)
    ensures var u := TakeOther(t, frame).1; u.partial == t.partial && u.rest == t.rest
  {
    FailBuffer(t);
    hide Fail;
    match frame
    case Started =>
    case Snapshot(_) =>
    case End(_, _) =>
    case _ =>
  }

  lemma FailBuffer(t: Session)
    ensures Fail(t).partial == t.partial && Fail(t).rest == t.rest
  {
  }

  lemma TakeLineBuffer(valid: string -> bool, s: Session, line: Line)
    ensures var t := TakeLine(valid, s, line).1; t.partial == s.partial && t.rest == s.rest
  {
    hide TakeItems, TakeOther;
    if line.frame.Items? { ItemsBuffer(valid, s.(sequence := s.sequence + 1), line.frame.paths); }
    OtherBuffer(s.(sequence := s.sequence + 1), line.frame);
  }

  lemma ReadLinesBuffer(valid: string -> bool, s: Session, lines: seq<Line>, partial: nat)
    requires partial <= LINE_LIMIT && AllShort(s.rest) && AllShort(lines)
    ensures var t := ReadLines(valid, s, lines, partial).0; t.partial <= LINE_LIMIT && AllShort(t.rest)
  {
    hide TakeLines, Settle;
    var buffered := s.(rest := [], partial := partial);
    TakeLinesBuffer(valid, buffered, s.rest + lines);
    SettleAnswers(TakeLines(valid, buffered, s.rest + lines).1);
  }

  lemma HandleBuffer(valid: string -> bool, s: Session, e: Event)
    requires s.partial <= LINE_LIMIT && AllShort(s.rest)
    requires e.Receive? ==> e.partial <= LINE_LIMIT && AllShort(e.lines)
    requires e.Exit? ==> e.partial <= LINE_LIMIT && AllShort(e.lines)
    ensures var t := Handle(valid, s, e).0; t.partial <= LINE_LIMIT && AllShort(t.rest)
  {
    hide ReadLines, Settle, Resolved, Published;
    match e
    case Receive(lines, partial) => ReadLinesBuffer(valid, s, lines, partial);
    case Exit(lines, partial, _) => ReadLinesBuffer(valid, s, lines, partial);
    case WorkerDone(w, bad) => if w < |s.paths.active| { SettleAnswers(s.(paths := Resolved(s.paths, w, bad))); }
    case Publish => SettleAnswers(s.(timer := false, paths := Published(s.paths)));
    case _ =>
  }

  lemma StepShort(valid: string -> bool, script: seq<Line>, sys: System, step: Step)
    requires AllShort(script) && Short(sys) && Enabled(script, sys, step)
    ensures Short(Next(valid, script, sys, step))
  {
    hide Handle;
    match step
    case Read(count, partial) => HandleBuffer(valid, sys.session, Receive(sys.lines[..count], partial));
    case Leave(normal, partial) => HandleBuffer(valid, sys.session, Exit(sys.lines, partial, normal));
    case Other(e) => HandleBuffer(valid, sys.session, e);
    case _ =>
  }

  lemma {:induction false} RunShort(valid: string -> bool, script: seq<Line>, sys: System, steps: seq<Step>)
    requires AllShort(script) && Short(sys)
    ensures Short(Run(valid, script, sys, steps))
    decreases |steps|
  {
    hide Short, Next, Enabled, AllShort;
    if steps != [] {
      if Enabled(script, sys, steps[0]) {
        StepShort(valid, script, sys, steps[0]);
        RunShort(valid, script, Next(valid, script, sys, steps[0]), steps[1..]);
      } else {
        RunShort(valid, script, sys, steps[1..]);
      }
    }
  }

  /** When every path fits, no session ever fails on the length of a line: everything on its
      way to it and everything in its buffer is within the limit, in every run. */
  lemma LinesNeverTooLong(print_: Printer, valid: string -> bool, rows: seq<string>, cut: nat, steps: seq<Step>)
    requires |rows| < WORD && forall i :: 0 <= i < |rows| ==> |print_(rows[i])| + 2 <= S.MAX_BYTES
    ensures Short(Run(valid, Script(print_, rows, cut), Opened(), steps))
  {
    ScriptFits(print_, rows, cut);
    RunShort(valid, Script(print_, rows, cut), Opened(), steps);
  }
}
