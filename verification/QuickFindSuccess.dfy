/** When a quick find succeeds: which queries a session accepts to the end, and that nothing but
    a crash, a timeout or the user keeps it from doing so. */
module QuickFindSuccess {
  import opened QuickFindSession
  import opened QuickFindText
  import opened QuickFindSystem
  import opened QuickFindFinish
  import S = QuickFindSender

  // -------------------------------------------------------------- acceptance

  /** A line of a helper that the session takes when its turn comes. */
  ghost predicate Acceptable(valid: string -> bool, line: Line) {
    line.length <= LINE_LIMIT && !line.frame.Failure? && (line.frame.Items? ==> forall path :: path in line.frame.paths ==> valid(path))
  }

  lemma {:induction false} AddPathsExactly(valid: string -> bool, p: Paths, paths: seq<string>)
    ensures AddPaths(valid, p, paths).0 <==> forall path :: path in paths ==> valid(path)
    decreases |paths|
  {
    if paths != [] && valid(paths[0]) { AddPathsExactly(valid, AddPath(p, paths[0]), paths[1..]); }
  }

  lemma ItemsExactly(valid: string -> bool, script: seq<Line>, s: Session)
    requires Shape(script) && Followed(script, s) && s.sequence < |script| && script[s.sequence].frame.Items?
    ensures TakeItems(valid, s.(sequence := s.sequence + 1), script[s.sequence].frame.paths).0
            <==> forall path :: path in script[s.sequence].frame.paths ==> valid(path)
  {
    hide AddPaths;
    AddPathsExactly(valid, s.paths, script[s.sequence].frame.paths);
  }

  lemma OtherExactly(script: seq<Line>, s: Session)
    requires Shape(script) && Followed(script, s) && s.sequence < |script| && !script[s.sequence].frame.Items?
    ensures TakeOther(s.(sequence := s.sequence + 1), script[s.sequence].frame).0 <==> !script[s.sequence].frame.Failure?
  {
    var n := s.sequence;
    PathsNext(script, n);
    if n == |script| - 1 { assert script[..n + 1] == script; }
  }

  /** The next line of a script is taken exactly if it is acceptable. */
  lemma TakenExactly(valid: string -> bool, script: seq<Line>, s: Session)
    requires Shape(script) && Followed(script, s) && s.sequence < |script|
    ensures TakeLine(valid, s, script[s.sequence]).0 <==> Acceptable(valid, script[s.sequence])
  {
    hide TakeItems, TakeOther, Followed, Shape;
    SequenceIs(script, s.sequence);
    FollowedLine(script, s);
    if script[s.sequence].frame.Items? { ItemsExactly(valid, script, s); } else { OtherExactly(script, s); }
  }

  lemma {:induction false} AllTakenExactly(valid: string -> bool, script: seq<Line>, s: Session, lines: seq<Line>)
    requires Shape(script) && Followed(script, s) && s.sequence + |lines| <= |script|
    requires forall i :: 0 <= i < |lines| ==> lines[i] == script[s.sequence + i]
    ensures TakeLines(valid, s, lines).0 <==> forall i :: 0 <= i < |lines| ==> Acceptable(valid, lines[i])
    decreases |lines|
  {
    hide TakeLine, Followed, Shape, Clears, Acceptable;
    if lines != [] {
      FollowedFits(script, s);
      TakenExactly(valid, script, s);
      TakeFollows(valid, script, s);
      var (ok, t) := TakeLine(valid, s, lines[0]);
      if ok {
        assert forall i :: 0 <= i < |lines[1..]| ==> lines[1..][i] == lines[i + 1];
        AllTakenExactly(valid, script, t, lines[1..]);
      }
    }
  }

  /** Reading lines of the script fails exactly on an unacceptable line. */
  lemma ReadExactly(valid: string -> bool, script: seq<Line>, sys: System, count: nat, partial: nat)
    requires Shape(script) && InOrder(script, sys) && Followed(script, sys.session) && Alive(sys.session)
    requires count <= |sys.lines| && sys.session.rest == [] && partial <= LINE_LIMIT
    ensures var u := ReadLines(valid, sys.session, sys.lines[..count], partial).0;
      && (!u.failed <==> forall i :: sys.session.sequence <= i < sys.session.sequence + count ==> Acceptable(valid, script[i]))
      && (!u.failed ==> u.sequence == sys.session.sequence + count && u.partial == partial)
  {
    hide TakeLines, Settle, InOrder, Followed, Shape, Acceptable;
    LinesInOrder(script, sys, count);
    var s, lines := sys.session.(partial := partial), sys.lines[..count];
    FollowedSame(script, sys.session, s);
    assert [] + lines == lines;
    TakesFollow(valid, script, s, lines);
    AllTakenExactly(valid, script, s, lines);
    var t := TakeLines(valid, s, lines).1;
    TakeLinesPartial(valid, s, lines);
    SettleAnswers(t);
    forall i | s.sequence <= i < s.sequence + count
      ensures lines[i - s.sequence] == script[i]
    {
    }
  }

  lemma {:induction false} TakeLinesPartial(valid: string -> bool, s: Session, lines: seq<Line>)
    ensures var (ok, t) := TakeLines(valid, s, lines); ok ==> t.partial == s.partial
    decreases |lines|
  {
    hide TakeLine, Clears;
    if lines != [] {
      TakeLineBuffer(valid, s, lines[0]);
      var (ok, t) := TakeLine(valid, s, lines[0]);
      if ok { TakeLinesPartial(valid, t, lines[1..]); }
    }
  }

  // ------------------------------------------------------------- calm steps

  /** No crash, no cancelling, and no timeout before the count has come. */
  predicate Calm(sys: System, step: Step) {
    match step
    case Leave(normal, _) => normal
    case Other(e) => !e.Cancel? && (e.Timeout? ==> sys.session.snapshot || sys.session.inputDone)
    case _ => true
  }

  predicate CalmRun(valid: string -> bool, script: seq<Line>, sys: System, steps: seq<Step>)
    decreases |steps|
  {
    if steps == [] then true
    else if Enabled(script, sys, steps[0]) then Calm(sys, steps[0]) && CalmRun(valid, script, Next(valid, script, sys, steps[0]), steps[1..])
    else CalmRun(valid, script, sys, steps[1..])
  }

  ghost predicate AllAcceptable(valid: string -> bool, script: seq<Line>) {
    forall i :: 0 <= i < |script| ==> Acceptable(valid, script[i])
  }

  /** Nothing has gone wrong, and the helper has left only after the end was read. */
  ghost predicate Fine(script: seq<Line>, sys: System) {
    && Consistent(script, sys) && !sys.session.cancelled && !sys.session.failed
    && (sys.session.exited ==> sys.session.ended) && sys.session.partial <= LINE_LIMIT
  }

  lemma ReadFine(valid: string -> bool, script: seq<Line>, sys: System, count: nat, partial: nat)
    requires Shape(script) && AllAcceptable(valid, script) && Fine(script, sys) && Enabled(script, sys, Read(count, partial))
    ensures Fine(script, Next(valid, script, sys, Read(count, partial)))
  {
    hide ReadLines, Shape, Followed, Sound, Acceptable, Paired;
    ReadKeeps(valid, script, sys, count, partial);
    StaysFailed(valid, sys.session, sys.lines[..count], partial);
    NothingLeft(sys.session);
    if count < |sys.lines| { ShortLine(valid, script, sys.session.sequence + count); }
    ReadExactly(valid, script, sys, count, partial);
    WithinScript(script, sys, count);
  }

  lemma ShortLine(valid: string -> bool, script: seq<Line>, i: nat)
    requires AllAcceptable(valid, script) && i < |script|
    ensures script[i].length <= LINE_LIMIT
  {
    assert Acceptable(valid, script[i]);
  }

  lemma WithinScript(script: seq<Line>, sys: System, count: nat)
    requires InOrder(script, sys) && count <= |sys.lines|
    ensures sys.session.sequence + count <= |script|
  {
  }

  lemma LeaveFine(valid: string -> bool, script: seq<Line>, sys: System)
    requires Shape(script) && AllAcceptable(valid, script) && Fine(script, sys) && Enabled(script, sys, Leave(true, 0))
    ensures Fine(script, Next(valid, script, sys, Leave(true, 0)))
  {
    hide ReadLines, Shape, Followed, Sound, Acceptable, Paired, Pump;
    var n := |sys.lines|;
    LeaveKeeps(valid, script, sys, true, 0);
    StaysFailed(valid, sys.session, sys.lines, 0);
    NothingLeft(sys.session);
    assert sys.lines[..n] == sys.lines;
    ReadExactly(valid, script, sys, n, 0);
    ReadFollows(valid, script, sys, n, 0);
    ReadLinesKeep(valid, sys.session, sys.lines, 0);
    WithinScript(script, sys, n);
    var u := ReadLines(valid, sys.session, sys.lines, 0).0;
    NothingLeft(u);
    EndReached(script, u);
  }

  lemma EndReached(script: seq<Line>, s: Session)
    requires Followed(script, s) && s.sequence == |script|
    ensures s.ended
  {
  }

  lemma OtherFine(valid: string -> bool, script: seq<Line>, sys: System, e: Event)
    requires Fine(script, sys) && Enabled(script, sys, Other(e)) && Calm(sys, Other(e))
    ensures Fine(script, Next(valid, script, sys, Other(e)))
  {
    hide Settle, Resolved, Published, Consistent;
    OtherKeeps(valid, script, sys, e);
    var s := sys.session;
    if e.WorkerDone? && e.worker < |s.paths.active| { SettleAnswers(s.(paths := Resolved(s.paths, e.worker, e.bad))); }
    SettleAnswers(s.(timer := false, paths := Published(s.paths)));
  }

  lemma FineKeeps(valid: string -> bool, script: seq<Line>, sys: System, step: Step)
    requires Shape(script) && AllAcceptable(valid, script) && Fine(script, sys) && Enabled(script, sys, step) && Calm(sys, step)
    ensures Fine(script, Next(valid, script, sys, step))
  {
    hide Shape, AllAcceptable;
    match step
    case Send => hide Consistent; SendKeeps(valid, script, sys);
    case Hear => hide Consistent; HearKeeps(valid, script, sys);
    case Read(count, partial) => hide *; ReadFine(valid, script, sys, count, partial);
    case Leave(normal, partial) => LeaveFine(valid, script, sys);
    case Other(e) => hide *; OtherFine(valid, script, sys, e);
  }

  lemma {:induction false} CalmRunFine(valid: string -> bool, script: seq<Line>, sys: System, steps: seq<Step>)
    requires Shape(script) && AllAcceptable(valid, script) && Fine(script, sys) && CalmRun(valid, script, sys, steps)
    ensures Fine(script, Run(valid, script, sys, steps))
    decreases |steps|
  {
    hide Shape, AllAcceptable, Fine, Enabled, Calm, Next;
    if steps != [] {
      if Enabled(script, sys, steps[0]) {
        FineKeeps(valid, script, sys, steps[0]);
        CalmRunFine(valid, script, Next(valid, script, sys, steps[0]), steps[1..]);
      } else {
        CalmRunFine(valid, script, sys, steps[1..]);
      }
    }
  }

  // ----------------------------------------------------------- missing paths

  /** The paths published or ready are not missing, and those skipped are. */
  ghost predicate Sifted(missing: string -> bool, p: Paths) {
    && (forall path :: path in p.ready || path in p.published ==> !missing(path))
    && (forall path :: path in p.skipped ==> missing(path))
  }

  predicate HonestRun(missing: string -> bool, valid: string -> bool, script: seq<Line>, sys: System, steps: seq<Step>)
    decreases |steps|
  {
    if steps == [] then true
    else if Enabled(script, sys, steps[0]) then Honest(missing, sys, steps[0]) && HonestRun(missing, valid, script, Next(valid, script, sys, steps[0]), steps[1..])
    else HonestRun(missing, valid, script, sys, steps[1..])
  }

  lemma {:induction false} ThoseAre(batch: seq<string>, bad: set<string>, wanted: bool)
    ensures forall path :: path in Those(batch, bad, wanted) <==> path in batch && ((path in bad) == wanted)
  {
    if batch != [] { ThoseAre(batch[1..], bad, wanted); }
  }

  predicate SameShown(p: Paths, q: Paths) {
    q.ready == p.ready && q.published == p.published && q.skipped == p.skipped
  }

  lemma {:induction false} AddPathsShown(valid: string -> bool, p: Paths, paths: seq<string>)
    ensures SameShown(p, AddPaths(valid, p, paths).1)
    decreases |paths|
  {
    if paths != [] && valid(paths[0]) { AddPathsShown(valid, AddPath(p, paths[0]), paths[1..]); }
  }

  lemma TakeLineShown(valid: string -> bool, s: Session, line: Line)
    ensures SameShown(s.paths, TakeLine(valid, s, line).1.paths)
  {
    hide AddPaths;
    if line.frame.Items? { AddPathsShown(valid, s.paths, line.frame.paths); }
    OtherShown(s.(sequence := s.sequence + 1), line.frame);
  }

  lemma OtherShown(t: Session, frame: Frame)
    ensures TakeOther(t, frame).1.paths == t.paths
  {
    match frame
    case Started =>
    case Snapshot(_) =>
    case End(_, _) =>
    case _ =>
  }

  lemma {:induction false} TakeLinesShown(valid: string -> bool, s: Session, lines: seq<Line>)
    ensures SameShown(s.paths, TakeLines(valid, s, lines).1.paths)
    decreases |lines|
  {
    hide TakeLine, Clears;
    if lines != [] {
      TakeLineShown(valid, s, lines[0]);
      var (ok, t) := TakeLine(valid, s, lines[0]);
      if ok { TakeLinesShown(valid, t, lines[1..]); }
    }
  }

  lemma {:induction false} PumpShown(p: Paths)
    ensures SameShown(p, Pump(p))
    decreases |p.pending|
  {
    if CanLaunch(p) { PumpShown(Launch(p)); }
  }

  lemma SettleShown(s: Session)
    ensures SameShown(s.paths, Settle(s).0.paths)
  {
    hide Pump, Blocked;
    PumpShown(s.paths);
  }

  lemma ReadLinesShown(valid: string -> bool, s: Session, lines: seq<Line>, partial: nat)
    ensures SameShown(s.paths, ReadLines(valid, s, lines, partial).0.paths)
  {
    hide TakeLines, Settle;
    var buffered := s.(rest := [], partial := partial);
    TakeLinesShown(valid, buffered, s.rest + lines);
    SettleShown(TakeLines(valid, buffered, s.rest + lines).1);
  }

  lemma ExitedShown(s: Session, normal: bool)
    ensures SameShown(s.paths, Exited(s, normal).paths)
  {
    hide Pump;
    PumpShown(s.paths);
  }

  lemma ResolvedSifts(missing: string -> bool, p: Paths, w: nat, bad: set<string>)
    requires Sifted(missing, p) && w < |p.active|
    requires forall i :: 0 <= i < |p.active[w]| ==> (p.active[w][i] in bad <==> missing(p.active[w][i]))
    ensures Sifted(missing, Resolved(p, w, bad))
  {
    ThoseAre(p.active[w], bad, false);
    ThoseAre(p.active[w], bad, true);
  }

  lemma OtherSifts(missing: string -> bool, valid: string -> bool, script: seq<Line>, sys: System, e: Event)
    requires Sifted(missing, sys.session.paths) && Enabled(script, sys, Other(e)) && Honest(missing, sys, Other(e))
    ensures Sifted(missing, Next(valid, script, sys, Other(e)).session.paths)
  {
    hide Settle, Resolved;
    var s := sys.session;
    if e.WorkerDone? && e.worker < |s.paths.active| {
      ResolvedSifts(missing, s.paths, e.worker, e.bad);
      SettleShown(s.(paths := Resolved(s.paths, e.worker, e.bad)));
    }
    SettleShown(s.(timer := false, paths := Published(s.paths)));
  }

  lemma StepSifts(missing: string -> bool, valid: string -> bool, script: seq<Line>, sys: System, step: Step)
    requires Sifted(missing, sys.session.paths) && Enabled(script, sys, step) && Honest(missing, sys, step)
    ensures Sifted(missing, Next(valid, script, sys, step).session.paths)
  {
    hide ReadLines, Exited, Honest;
    match step
    case Read(count, partial) => ReadLinesShown(valid, sys.session, sys.lines[..count], partial);
    case Leave(normal, partial) =>
      ReadLinesShown(valid, sys.session, sys.lines, partial);
      ExitedShown(ReadLines(valid, sys.session, sys.lines, partial).0, normal);
    case Other(e) => OtherSifts(missing, valid, script, sys, e);
    case _ =>
  }

  /** In every run with honest workers, disturbed or not, no missing path is ever published and
      no other one skipped. */
  lemma {:induction false} RunSifts(missing: string -> bool, valid: string -> bool, script: seq<Line>, sys: System, steps: seq<Step>)
    requires Sifted(missing, sys.session.paths) && HonestRun(missing, valid, script, sys, steps)
    ensures Sifted(missing, Run(valid, script, sys, steps).session.paths)
    decreases |steps|
  {
    hide Sifted, Honest, Enabled, Next;
    if steps != [] {
      if Enabled(script, sys, steps[0]) {
        StepSifts(missing, valid, script, sys, steps[0]);
        RunSifts(missing, valid, script, Next(valid, script, sys, steps[0]), steps[1..]);
      } else {
        RunSifts(missing, valid, script, sys, steps[1..]);
      }
    }
  }

  /** Exactly the distinct rows that are not missing were published, each once, and exactly the
      missing ones skipped. */
  ghost predicate Shows(missing: string -> bool, p: Paths, rows: seq<string>) {
    && p.rows == rows && p.pending == [] && p.active == [] && p.ready == []
    && multiset(p.published) == multiset(set path | path in rows && !missing(path))
    && multiset(p.skipped) == multiset(set path | path in rows && missing(path))
  }

  lemma SiftedShows(missing: string -> bool, p: Paths, rows: seq<string>)
    requires Sifted(missing, p) && AllShown(p) && p.rows == rows && forall path :: path in p.rows <==> path in p.seen
    ensures Shows(missing, p, rows)
  {
    var kept, gone := set path | path in rows && !missing(path), set path | path in rows && missing(path);
    forall path
      ensures multiset(p.published)[path] == multiset(kept)[path] && multiset(p.skipped)[path] == multiset(gone)[path]
    {
      assert multiset(p.published)[path] + multiset(p.skipped)[path] == multiset(p.seen)[path];
      if missing(path) { assert path !in p.published; } else { assert path !in p.skipped; }
    }
  }

  /** Owed steps that are calm and honest end a session that is fine. */
  lemma {:induction false} CanSucceed(valid: string -> bool, missing: string -> bool, script: seq<Line>, sys: System) returns (steps: seq<Step>)
    requires Shape(script) && AllAcceptable(valid, script) && Fine(script, sys)
    ensures AllOwed(valid, script, sys, steps) && HonestRun(missing, valid, script, sys, steps)
    ensures var end := Run(valid, script, sys, steps); Fine(script, end) && !Running(end.session)
    decreases Remaining(script, sys)
  {
    hide Remaining, Next, Shape, Consistent, Enabled, AllAcceptable, Running, Honest;
    steps := [];
    if Running(sys.session) {
      EndsWell(valid, script);
      var step := Nearer(valid, missing, script, sys);
      OwedCalm(script, sys, step);
      FineKeeps(valid, script, sys, step);
      var more := CanSucceed(valid, missing, script, Next(valid, script, sys, step));
      steps := [step] + more;
      assert steps[1..] == more && steps[0] == step;
    }
  }

  lemma EndsWell(valid: string -> bool, script: seq<Line>)
    requires Shape(script) && AllAcceptable(valid, script)
    ensures script[|script| - 1].frame.End?
  {
    assert Acceptable(valid, script[|script| - 1]);
  }

  lemma OwedCalm(script: seq<Line>, sys: System, step: Step)
    requires Owed(script, sys, step) && (step.Leave? ==> step.normal)
    ensures Enabled(script, sys, step) && Calm(sys, step)
  {
  }

  // ------------------------------------------------------ the exact condition

  /** The rows did not change while they were sent, every line is short enough, and every row
      is an acceptable path. */
  ghost predicate Answerable(print_: Printer, valid: string -> bool, rows: seq<string>, cut: nat) {
    var script := Script(print_, rows, cut);
    |script| > 0 && script[|script| - 1].frame.End? && AllShort(script) && forall row :: row in rows ==> valid(row)
  }

  lemma {:induction false} PathsMembers(lines: seq<Line>, path: string)
    ensures path in PathsIn(lines) <==> exists i :: 0 <= i < |lines| && lines[i].frame.Items? && path in lines[i].frame.paths
    decreases |lines|
  {
    if lines != [] {
      var n := |lines| - 1;
      PathsMembers(lines[..n], path);
      if i :| 0 <= i < n && lines[..n][i].frame.Items? && path in lines[..n][i].frame.paths { assert lines[i].frame.Items?; }
      if i :| 0 <= i < |lines| && lines[i].frame.Items? && path in lines[i].frame.paths { assert i < n ==> lines[..n][i].frame.Items?; }
    }
  }

  lemma AnswerableExactly(print_: Printer, valid: string -> bool, rows: seq<string>, cut: nat)
    ensures Answerable(print_, valid, rows, cut) <==> AllAcceptable(valid, Script(print_, rows, cut))
  {
    hide Script, PathsIn;
    var script := Script(print_, rows, cut);
    ScriptShape(print_, rows, cut);
    if Answerable(print_, valid, rows, cut) {
      forall i | 0 <= i < |script|
        ensures Acceptable(valid, script[i])
      {
        if script[i].frame.Items? {
          forall path | path in script[i].frame.paths
            ensures valid(path)
          {
            PathsMembers(script, path);
          }
        }
      }
    }
    if AllAcceptable(valid, script) {
      EndsWell(valid, script);
      forall i | 0 <= i < |script|
        ensures script[i].length <= LINE_LIMIT
      {
        ShortLine(valid, script, i);
      }
      forall row | row in rows
        ensures valid(row)
      {
        PathsMembers(script, row);
        var i :| 0 <= i < |script| && script[i].frame.Items? && row in script[i].frame.paths;
        assert Acceptable(valid, script[i]);
      }
    }
  }

  /** Whatever was read without failing was acceptable. */
  ghost predicate Checked(valid: string -> bool, script: seq<Line>, s: Session) {
    !s.failed ==>
      && s.sequence <= |script| && (s.ended ==> s.sequence == |script|)
      && forall i :: 0 <= i < s.sequence ==> Acceptable(valid, script[i])
  }

  lemma ReadChecked(valid: string -> bool, script: seq<Line>, sys: System, count: nat, partial: nat)
    requires Shape(script) && Consistent(script, sys) && Checked(valid, script, sys.session) && !sys.session.exited && !sys.session.cancelled
    requires count <= |sys.lines|
    ensures Checked(valid, script, ReadLines(valid, sys.session, sys.lines[..count], partial).0)
  {
    hide ReadLines, Shape, Followed, Sound, Acceptable, Paired;
    StaysFailed(valid, sys.session, sys.lines[..count], partial);
    if !sys.session.failed {
      NothingLeft(sys.session);
      WithinScript(script, sys, count);
      ReadFollows(valid, script, sys, count, partial);
      if partial <= LINE_LIMIT { ReadExactly(valid, script, sys, count, partial); } else { LongFails(valid, sys.session, sys.lines[..count], partial); }
      var u := ReadLines(valid, sys.session, sys.lines[..count], partial).0;
      if !u.failed && u.ended { FollowedToEnd(script, u); }
    }
  }

  lemma FollowedToEnd(script: seq<Line>, s: Session)
    requires Followed(script, s) && s.ended
    ensures s.sequence == |script|
  {
  }

  lemma LongFails(valid: string -> bool, s: Session, lines: seq<Line>, partial: nat)
    requires Sound(s) && !s.cancelled && partial > LINE_LIMIT
    ensures ReadLines(valid, s, lines, partial).0.failed
  {
    hide TakeLines, Settle, Kept;
    var buffered := s.(rest := [], partial := partial);
    TakeLinesPartial(valid, buffered, s.rest + lines);
    TakeLinesKeep(valid, buffered, s.rest + lines);
  }

  lemma LeaveChecked(valid: string -> bool, script: seq<Line>, sys: System, normal: bool, partial: nat)
    requires Shape(script) && Consistent(script, sys) && Checked(valid, script, sys.session) && !sys.session.exited && !sys.session.cancelled
    ensures Checked(valid, script, Exited(ReadLines(valid, sys.session, sys.lines, partial).0, normal))
  {
    hide ReadLines, Shape, Consistent, Acceptable, Pump;
    assert sys.lines[..|sys.lines|] == sys.lines;
    ReadChecked(valid, script, sys, |sys.lines|, partial);
  }

  lemma OtherChecked(valid: string -> bool, script: seq<Line>, s: Session, e: Event)
    requires Checked(valid, script, s) && (e.WorkerDone? || e.Publish? || e.Timeout? || e.Cancel?)
    ensures Checked(valid, script, Handle(valid, s, e).0)
  {
    hide ReadLines, Exited, Acceptable, Settle, Resolved, Published;
    if e.WorkerDone? && e.worker < |s.paths.active| { SettleAnswers(s.(paths := Resolved(s.paths, e.worker, e.bad))); }
    SettleAnswers(s.(timer := false, paths := Published(s.paths)));
  }

  lemma StepChecked(valid: string -> bool, script: seq<Line>, sys: System, step: Step)
    requires Shape(script) && Consistent(script, sys) && Checked(valid, script, sys.session) && Enabled(script, sys, step)
    ensures Checked(valid, script, Next(valid, script, sys, step).session)
  {
    hide ReadLines, Exited, Shape, Consistent, Checked;
    match step
    case Read(count, partial) => if !sys.session.cancelled { ReadChecked(valid, script, sys, count, partial); }
    case Leave(normal, partial) => if !sys.session.cancelled { LeaveChecked(valid, script, sys, normal, partial); }
    case Other(e) => OtherChecked(valid, script, sys.session, e);
    case _ =>
  }

  lemma {:induction false} RunChecked(valid: string -> bool, script: seq<Line>, sys: System, steps: seq<Step>)
    requires Shape(script) && Consistent(script, sys) && Checked(valid, script, sys.session)
    ensures Checked(valid, script, Run(valid, script, sys, steps).session)
    decreases |steps|
  {
    hide Shape, Consistent, Checked, Enabled, Next;
    if steps != [] {
      if Enabled(script, sys, steps[0]) {
        StepKeeps(valid, script, sys, steps[0]);
        StepChecked(valid, script, sys, steps[0]);
        RunChecked(valid, script, Next(valid, script, sys, steps[0]), steps[1..]);
      } else {
        RunChecked(valid, script, sys, steps[1..]);
      }
    }
  }

  lemma OpenedFine(valid: string -> bool, script: seq<Line>)
    requires Shape(script)
    ensures Fine(script, Opened()) && Checked(valid, script, Opened().session)
  {
    OpenedConsistent(script);
  }

  /** What a query takes that is answerable: rows few and short enough, and unchanged. */
  lemma FittingAnswerable(print_: Printer, valid: string -> bool, rows: seq<string>)
    requires |rows| < WORD && forall row :: row in rows ==> valid(row) && |print_(row)| + 2 <= S.MAX_BYTES
    ensures Answerable(print_, valid, rows, 0)
  {
    hide AllShort, Frames;
    FramesShape(print_, rows);
    assert forall i :: 0 <= i < |rows| ==> rows[i] in rows;
    ScriptFits(print_, rows, 0);
    NumberedIs(print_, Frames(print_, rows));
  }

  /** Undisturbed, a session for an answerable query never fails; and from each of its states
      some steps that helper, workers and timer owe end it with the end accepted, exactly the
      rows received, every distinct one that is not missing published, and the missing ones
      skipped. */
  lemma UndisturbedSucceeds(print_: Printer, valid: string -> bool, missing: string -> bool, rows: seq<string>, cut: nat, steps: seq<Step>)
    requires var script := Script(print_, rows, cut);
      Answerable(print_, valid, rows, cut) && CalmRun(valid, script, Opened(), steps) && HonestRun(missing, valid, script, Opened(), steps)
    ensures var script := Script(print_, rows, cut);
      var sys := Run(valid, script, Opened(), steps);
      && !sys.session.failed
      && exists more :: AllOwed(valid, script, sys, more) && HonestRun(missing, valid, script, sys, more) &&
           var end := Run(valid, script, sys, more).session;
           !Running(end) && !end.failed && end.ended && Shows(missing, end.paths, rows)
  {
    hide Run, Script, Shape, Running, AllShown, AllOwed, Sound, AllAcceptable, CalmRun, HonestRun, Answerable, InOrder, Followed, Paired, Sifted, Shows;
    var script := Script(print_, rows, cut);
    ScriptShape(print_, rows, cut);
    AnswerableExactly(print_, valid, rows, cut);
    EndsWell(valid, script);
    OpenedFine(valid, script);
    OpenedSifted(missing);
    CalmRunFine(valid, script, Opened(), steps);
    RunSifts(missing, valid, script, Opened(), steps);
    var sys := Run(valid, script, Opened(), steps);
    var more := CanSucceed(valid, missing, script, sys);
    RunSifts(missing, valid, script, sys, more);
    var end := Run(valid, script, sys, more).session;
    FinishedShows(end);
    FinishedEnded(end);
    SiftedShows(missing, end.paths, rows);
  }

  lemma OpenedSifted(missing: string -> bool)
    ensures Sifted(missing, Opened().session.paths)
  {
  }

  lemma FinishedEnded(s: Session)
    requires Sound(s) && !s.cancelled && !s.failed && !Running(s)
    ensures s.ended && forall path :: path in s.paths.rows <==> path in s.paths.seen
  {
  }

  /** Some run has the end of a query accepted exactly if the query is answerable. */
  lemma AcceptedExactly(print_: Printer, valid: string -> bool, rows: seq<string>, cut: nat)
    ensures (exists steps :: var s := Run(valid, Script(print_, rows, cut), Opened(), steps).session; s.ended && !s.failed)
            <==> Answerable(print_, valid, rows, cut)
  {
    hide Run, Script, Shape, AllShown, AllOwed, Sound, CalmRun, Answerable, InOrder, Followed, Paired, Acceptable;
    var script := Script(print_, rows, cut);
    ScriptShape(print_, rows, cut);
    AnswerableExactly(print_, valid, rows, cut);
    OpenedFine(valid, script);
    if steps :| var s := Run(valid, script, Opened(), steps).session; s.ended && !s.failed {
      RunChecked(valid, script, Opened(), steps);
    }
    if Answerable(print_, valid, rows, cut) {
      var steps := CanSucceed(valid, _ => false, script, Opened());
      var end := Run(valid, script, Opened(), steps).session;
      FinishedEnded(end);
    }
  }

  // ------------------------------------------------------------- any helper

  /** Some line says how many rows there are. */
  ghost predicate Announced(lines: seq<Line>, total: int) {
    exists i :: 0 <= i < |lines| && lines[i].frame == Snapshot(total)
  }

  ghost predicate AnySnapshot(lines: seq<Line>) {
    exists i :: 0 <= i < |lines| && lines[i].frame.Snapshot?
  }

  /** What a line may say after the lines before it. */
  ghost predicate Follows(valid: string -> bool, before: seq<Line>, frame: Frame) {
    match frame
    case Started => before == []
    case Snapshot(total) => total >= 0 && !AnySnapshot(before)
    case Items(paths) => AnySnapshot(before) && paths != [] && forall path :: path in paths ==> valid(path)
    case End(emitted, complete) => complete && emitted == |PathsIn(before)| && Announced(before, emitted)
    case _ => false
  }

  /** A well-formed answer so far: lines of proper length, numbered without gap, of which only
      the first can be a start; one count before all paths; no empty list of paths; and nothing
      after the end, which repeats the count and finds as many paths. */
  ghost predicate Transcript(valid: string -> bool, lines: seq<Line>) {
    forall i :: 0 <= i < |lines| ==>
      && lines[i].sequence == i && lines[i].length <= LINE_LIMIT && Follows(valid, lines[..i], lines[i].frame)
      && (lines[i].frame.End? ==> i == |lines| - 1)
  }

  /** What the session remembers of the lines it has taken. */
  ghost predicate Remembers(s: Session, lines: seq<Line>) {
    && s.sequence == |lines| && s.paths.rows == PathsIn(lines)
    && (s.snapshot <==> AnySnapshot(lines)) && (forall total: int :: Announced(lines, total) ==> s.snapshot && s.total == total)
    && (s.snapshot ==> Announced(lines, s.total))
    && (s.ended <==> lines != [] && lines[|lines| - 1].frame.End?)
  }

  lemma {:induction false} TakeLinesLast(valid: string -> bool, s: Session, lines: seq<Line>, line: Line)
    ensures var (ok, t) := TakeLines(valid, s, lines);
      if ok then TakeLines(valid, s, lines + [line]).0 == TakeLine(valid, t, line).0
           && (TakeLine(valid, t, line).0 ==> TakeLines(valid, s, lines + [line]).1 == TakeLine(valid, t, line).1)
      else !TakeLines(valid, s, lines + [line]).0
    decreases |lines|
  {
    hide TakeLine, Clears;
    if lines == [] {
      assert lines + [line] == [line] && [line][1..] == [];
    } else {
      assert (lines + [line])[1..] == lines[1..] + [line];
      var (ok, t) := TakeLine(valid, s, lines[0]);
      if ok { TakeLinesLast(valid, t, lines[1..], line); }
    }
  }

  lemma SnapshotsNext(lines: seq<Line>, line: Line)
    ensures AnySnapshot(lines + [line]) <==> AnySnapshot(lines) || line.frame.Snapshot?
    ensures forall total :: Announced(lines + [line], total) <==> Announced(lines, total) || line.frame == Snapshot(total)
    ensures forall total :: Announced(lines, total) ==> AnySnapshot(lines)
  {
    var all := lines + [line];
    assert all[|lines|] == line;
    assert forall i :: 0 <= i < |lines| ==> all[i] == lines[i];
  }

  lemma PathsGrow(lines: seq<Line>, line: Line)
    ensures PathsIn(lines + [line]) == PathsIn(lines) + if line.frame.Items? then line.frame.paths else []
  {
    assert (lines + [line])[..|lines|] == lines;
  }

  lemma ItemsRemembered(valid: string -> bool, s: Session, lines: seq<Line>, line: Line)
    requires Remembers(s, lines) && line.frame.Items?
    ensures var (ok, t) := TakeItems(valid, s.(sequence := s.sequence + 1), line.frame.paths);
      && (ok <==> Follows(valid, lines, line.frame)) && (ok && !s.ended ==> Remembers(t, lines + [line]))
  {
    hide AddPaths, AnySnapshot, Announced;
    SnapshotsNext(lines, line);
    PathsGrow(lines, line);
    AddPathsExactly(valid, s.paths, line.frame.paths);
    AddPathsRows(valid, s.paths, line.frame.paths);
  }

  lemma OtherRemembered(valid: string -> bool, s: Session, lines: seq<Line>, line: Line)
    requires Remembers(s, lines) && !line.frame.Items?
    ensures var (ok, t) := TakeOther(s.(sequence := s.sequence + 1), line.frame);
      && (ok <==> Follows(valid, lines, line.frame)) && (ok && !s.ended ==> Remembers(t, lines + [line]))
  {
    hide AnySnapshot, Announced, PathsIn;
    SnapshotsNext(lines, line);
    PathsGrow(lines, line);
  }

  /** One more line, of whatever kind. */
  lemma NextRemembered(valid: string -> bool, s: Session, lines: seq<Line>, line: Line)
    requires Remembers(s, lines)
    ensures var (ok, t) := TakeLine(valid, s, line);
      && (ok <==> line.sequence == |lines| && line.length <= LINE_LIMIT && Follows(valid, lines, line.frame) && !s.ended)
      && (ok ==> Remembers(t, lines + [line]))
  {
    hide TakeItems, TakeOther, AnySnapshot, Announced, PathsIn;
    if line.frame.Items? { ItemsRemembered(valid, s, lines, line); } else { OtherRemembered(valid, s, lines, line); }
  }

  lemma {:induction false} TranscriptTaken(valid: string -> bool, lines: seq<Line>)
    ensures var (ok, t) := TakeLines(valid, Begun(), lines);
      (ok <==> Transcript(valid, lines)) && (ok ==> Remembers(t, lines))
    decreases |lines|
  {
    hide TakeLine, Follows, Remembers;
    if lines == [] {
      assert Remembers(Begun(), []) by { NothingRemembered(); }
    } else {
      var n := |lines| - 1;
      var front, line := lines[..n], lines[n];
      assert lines == front + [line];
      TranscriptTaken(valid, front);
      TakeLinesLast(valid, Begun(), front, line);
      var (ok, t) := TakeLines(valid, Begun(), front);
      TranscriptLast(valid, front, line);
      if ok {
        NextRemembered(valid, t, front, line);
        EndRemembered(t, front);
      }
    }
  }

  lemma NothingRemembered()
    ensures Remembers(Begun(), [])
  {
  }

  lemma EndRemembered(s: Session, lines: seq<Line>)
    requires Remembers(s, lines)
    ensures s.ended <==> lines != [] && lines[|lines| - 1].frame.End?
  {
  }

  lemma TranscriptLast(valid: string -> bool, front: seq<Line>, line: Line)
    ensures Transcript(valid, front + [line]) <==>
      && Transcript(valid, front) && !(front != [] && front[|front| - 1].frame.End?)
      && line.sequence == |front| && line.length <= LINE_LIMIT && Follows(valid, front, line.frame)
  {
    hide Follows;
    var all, n := front + [line], |front|;
    assert all[n] == line && all[..n] == front;
    assert forall i :: 0 <= i < n ==> all[i] == front[i] && all[..i] == front[..i];
    if Transcript(valid, all) && n > 0 { assert all[n - 1] == front[n - 1]; }
  }

  /** Whatever a helper sends: a fresh session takes its lines without failing exactly if they
      are a transcript, and it has taken an end exactly if they end in one. */
  lemma TranscriptExactly(valid: string -> bool, lines: seq<Line>)
    ensures var (ok, t) := TakeLines(valid, Begun(), lines);
      && (ok <==> Transcript(valid, lines))
      && (ok ==> t.paths.rows == PathsIn(lines) && (t.ended <==> lines != [] && lines[|lines| - 1].frame.End?))
  {
    hide Transcript;
    TranscriptTaken(valid, lines);
  }
}
