/** A quick-find session can always be brought to its end: helper, workers and timer need only
    do what is expected of them, finitely often. */
module QuickFindFinish {
  import opened QuickFindSession
  import opened QuickFindText
  import opened QuickFindSystem

  // ------------------------------------------------------- what is still to do

  function Held(active: seq<seq<string>>): nat {
    if active == [] then 0 else Held(active[..|active| - 1]) + 2 * |active[|active| - 1]| + 1
  }

  /** A waiting path has three moves to make, one of a worker two, and a resolved one a last. */
  function PathLoad(p: Paths): nat {
    3 * |p.pending| + Held(p.active) + |p.ready|
  }

  function LineLoad(lines: seq<Line>): nat {
    if lines == [] then 0 else LineLoad(lines[..|lines| - 1]) + OneLoad(lines[|lines| - 1])
  }

  function OneLoad(line: Line): nat {
    5 + if line.frame.Items? then 3 * |line.frame.paths| else 0
  }

  function OpenLoad(s: Session): nat {
    PathLoad(s.paths) + 4 * |s.acks| + if s.exited then 0 else 1
  }

  function SessionLoad(s: Session): nat {
    OpenLoad(s) + LineLoad(s.rest)
  }

  /** All that is still to do, here, on the way and at the helper. */
  function Remaining(script: seq<Line>, sys: System): nat {
    SessionLoad(sys.session) + LineLoad(sys.lines) + 3 * |sys.answers|
    + if sys.next <= |script| then LineLoad(script[sys.next..]) + |script| - sys.next else 0
  }

  lemma {:induction false} HeldConcat(a: seq<seq<string>>, b: seq<seq<string>>)
    ensures Held(a + b) == Held(a) + Held(b)
    decreases |b|
  {
    if b == [] {
      assert a + b == a;
    } else {
      assert (a + b)[..|a + b| - 1] == a + b[..|b| - 1];
      HeldConcat(a, b[..|b| - 1]);
    }
  }

  lemma OneHeld(batch: seq<string>)
    ensures Held([batch]) == 2 * |batch| + 1
  {
    assert [batch][..0] == [];
  }

  lemma {:induction false} LineLoadConcat(a: seq<Line>, b: seq<Line>)
    ensures LineLoad(a + b) == LineLoad(a) + LineLoad(b)
    decreases |b|
  {
    if b == [] {
      assert a + b == a;
    } else {
      assert (a + b)[..|a + b| - 1] == a + b[..|b| - 1];
      LineLoadConcat(a, b[..|b| - 1]);
    }
  }

  lemma FirstLine(lines: seq<Line>)
    requires lines != []
    ensures LineLoad(lines) == OneLoad(lines[0]) + LineLoad(lines[1..])
  {
    assert lines == [lines[0]] + lines[1..] && [lines[0]][..0] == [];
    LineLoadConcat([lines[0]], lines[1..]);
    assert LineLoad([lines[0]]) == OneLoad(lines[0]);
  }

  // -------------------------------------------------------- what handlers do to it

  lemma {:induction false} PumpLoad(p: Paths)
    ensures PathLoad(Pump(p)) <= PathLoad(p)
    decreases |p.pending|
  {
    if CanLaunch(p) {
      var n := if |p.pending| < BATCH then |p.pending| else BATCH;
      HeldConcat(p.active, [p.pending[..n]]);
      OneHeld(p.pending[..n]);
      PumpLoad(Launch(p));
    }
  }

  lemma SettleLoad(s: Session)
    ensures var (t, written) := Settle(s); SessionLoad(t) + 3 * |written| <= SessionLoad(s)
  {
    hide Pump, PathLoad, Blocked, LineLoad;
    PumpLoad(s.paths);
  }

  lemma {:induction false} ThoseFew(batch: seq<string>, bad: set<string>, wanted: bool)
    ensures |Those(batch, bad, wanted)| <= |batch|
  {
    if batch != [] { ThoseFew(batch[1..], bad, wanted); }
  }

  lemma ResolvedLoad(p: Paths, bad: set<string>)
    requires p.active != []
    ensures PathLoad(Resolved(p, 0, bad)) < PathLoad(p)
  {
    ThoseFew(p.active[0], bad, false);
    assert p.active == [p.active[0]] + p.active[1..] && p.active[..0] + p.active[1..] == p.active[1..];
    HeldConcat([p.active[0]], p.active[1..]);
    OneHeld(p.active[0]);
  }

  lemma {:induction false} AddPathsLoad(valid: string -> bool, p: Paths, paths: seq<string>)
    ensures PathLoad(AddPaths(valid, p, paths).1) <= PathLoad(p) + 3 * |paths|
    decreases |paths|
  {
    if paths != [] && valid(paths[0]) { AddPathsLoad(valid, AddPath(p, paths[0]), paths[1..]); }
  }

  lemma ItemsLoad(valid: string -> bool, t: Session, paths: seq<string>)
    ensures var u := TakeItems(valid, t, paths).1; OpenLoad(u) <= OpenLoad(t) + 3 * |paths| + 4 && u.rest == t.rest && u.exited == t.exited
  {
    hide PathLoad, AddPaths;
    AddPathsLoad(valid, t.paths, paths);
  }

  lemma OtherLoad(t: Session, frame: Frame)
    ensures var u := TakeOther(t, frame).1; OpenLoad(u) == OpenLoad(t) && u.rest == t.rest && u.exited == t.exited
  {
    hide PathLoad;
    match frame
    case Started =>
    case Snapshot(_) =>
    case End(_, _) =>
    case _ =>
  }

  /** A line costs more than the paths and the acknowledgement it brings. */
  lemma TakeLineLoad(valid: string -> bool, s: Session, line: Line)
    ensures var t := TakeLine(valid, s, line).1; OpenLoad(t) < OpenLoad(s) + OneLoad(line) && t.rest == s.rest && t.exited == s.exited
  {
    hide PathLoad, TakeItems, TakeOther;
    var t := s.(sequence := s.sequence + 1);
    if line.frame.Items? { ItemsLoad(valid, t, line.frame.paths); }
    OtherLoad(t, line.frame);
  }

  lemma {:induction false} TakeLinesLoad(valid: string -> bool, s: Session, lines: seq<Line>)
    requires s.rest == []
    ensures var t := TakeLines(valid, s, lines).1;
      && OpenLoad(t) + LineLoad(t.rest) <= OpenLoad(s) + LineLoad(lines) && t.exited == s.exited
      && (lines != [] ==> OpenLoad(t) + LineLoad(t.rest) < OpenLoad(s) + LineLoad(lines))
    decreases |lines|
  {
    FirstOrNone();
    hide TakeLine, OneLoad, OpenLoad, Clears, LineLoad;
    if lines != [] {
      FirstLine(lines);
      TakeLineLoad(valid, s, lines[0]);
      var (ok, t) := TakeLine(valid, s, lines[0]);
      SameLoad(t, [], 0);
      SameLoad(t, lines[1..], t.partial);
      if ok { TakeLinesLoad(valid, t, lines[1..]); }
    }
  }

  lemma SameLoad(t: Session, rest: seq<Line>, partial: nat)
    ensures OpenLoad(t.(rest := rest, partial := partial)) == OpenLoad(t)
  {
  }

  lemma ReadLinesLoad(valid: string -> bool, s: Session, lines: seq<Line>, partial: nat)
    ensures var (t, written) := ReadLines(valid, s, lines, partial);
      && SessionLoad(t) + 3 * |written| <= SessionLoad(s) + LineLoad(lines) && t.exited == s.exited
      && (s.rest + lines != [] ==> SessionLoad(t) + 3 * |written| < SessionLoad(s) + LineLoad(lines))
  {
    hide TakeLines, PathLoad, Settle, LineLoad;
    var buffered := s.(rest := [], partial := partial);
    TakeLinesLoad(valid, buffered, s.rest + lines);
    LineLoadConcat(s.rest, lines);
    assert LineLoad([]) == 0 by { FirstOrNone(); }
    var (ok, t) := TakeLines(valid, buffered, s.rest + lines);
    SettleLoad(t);
    SettleExited(t);
  }

  lemma FirstOrNone()
    ensures LineLoad([]) == 0
  {
  }

  lemma SettleExited(s: Session)
    ensures Settle(s).0.exited == s.exited
  {
    hide Pump, Blocked;
  }

  lemma ExitedLoad(s: Session, normal: bool)
    requires !s.exited
    ensures SessionLoad(Exited(s, normal)) < SessionLoad(s)
  {
    hide Pump, PathLoad, LineLoad;
    PumpLoad(s.paths);
  }

  // ------------------------------------------------------------------- steps

  /** A step that helper, workers and timer owe: the helper leaves when it is done or killed. */
  predicate Owed(script: seq<Line>, sys: System, step: Step) {
    && Enabled(script, sys, step)
    && match step
       case Leave(_, _) => MayLeave(script, sys)
       case Other(e) => (e.WorkerDone? && e.worker < |sys.session.paths.active|) || (e.Publish? && sys.session.timer)
       case _ => true
  }

  lemma ReadLowers(valid: string -> bool, script: seq<Line>, sys: System)
    requires sys.lines != [] && !sys.session.exited && !sys.session.cancelled
    ensures var step := Read(|sys.lines|, 0); Enabled(script, sys, step) && Remaining(script, Next(valid, script, sys, step)) < Remaining(script, sys)
  {
    hide SessionLoad, ReadLines, LineLoad;
    assert sys.lines[..|sys.lines|] == sys.lines && sys.lines[|sys.lines|..] == [];
    ReadLinesLoad(valid, sys.session, sys.lines, 0);
    FirstOrNone();
  }

  lemma LeaveLowers(valid: string -> bool, script: seq<Line>, sys: System, normal: bool)
    requires !sys.session.exited && !sys.session.cancelled && Enabled(script, sys, Leave(normal, 0))
    ensures Remaining(script, Next(valid, script, sys, Leave(normal, 0))) < Remaining(script, sys)
  {
    hide SessionLoad, ReadLines, LineLoad, Exited;
    ReadLinesLoad(valid, sys.session, sys.lines, 0);
    ExitedLoad(ReadLines(valid, sys.session, sys.lines, 0).0, normal);
    FirstOrNone();
  }

  lemma SendLowers(valid: string -> bool, script: seq<Line>, sys: System)
    requires Enabled(script, sys, Send)
    ensures Remaining(script, Next(valid, script, sys, Send)) < Remaining(script, sys)
  {
    hide SessionLoad, OneLoad;
    assert (sys.lines + [script[sys.next]])[..|sys.lines|] == sys.lines;
    FirstLine(script[sys.next..]);
    assert script[sys.next..][1..] == script[sys.next + 1..];
  }

  lemma WorkLowers(valid: string -> bool, script: seq<Line>, sys: System, bad: set<string>)
    requires sys.session.paths.active != [] && !sys.session.cancelled
    ensures Remaining(script, Next(valid, script, sys, Other(WorkerDone(0, bad)))) < Remaining(script, sys)
  {
    hide Settle, LineLoad, PathLoad, Resolved;
    ResolvedLoad(sys.session.paths, bad);
    SettleLoad(sys.session.(paths := Resolved(sys.session.paths, 0, bad)));
  }

  lemma PublishLowers(valid: string -> bool, script: seq<Line>, sys: System)
    requires sys.session.timer && sys.session.paths.ready != [] && !sys.session.cancelled
    ensures Remaining(script, Next(valid, script, sys, Other(Publish))) < Remaining(script, sys)
  {
    hide Settle, LineLoad;
    SettleLoad(sys.session.(timer := false, paths := Published(sys.session.paths)));
  }

  /** A worker reports exactly those paths of its batch that are missing. */
  predicate Honest(missing: string -> bool, sys: System, step: Step) {
    step.Other? && step.event.WorkerDone? && step.event.worker < |sys.session.paths.active| ==>
      var batch := sys.session.paths.active[step.event.worker];
      forall i :: 0 <= i < |batch| ==> (batch[i] in step.event.bad <==> missing(batch[i]))
  }

  /** While a session runs, some owed step brings it closer to its end, whatever paths are
      missing. */
  lemma Nearer(valid: string -> bool, missing: string -> bool, script: seq<Line>, sys: System) returns (step: Step)
    requires Shape(script) && Consistent(script, sys) && Running(sys.session)
    ensures Honest(missing, sys, step)
    ensures Owed(script, sys, step) && Remaining(script, Next(valid, script, sys, step)) < Remaining(script, sys)
    ensures !sys.session.failed && script[|script| - 1].frame.End? && step.Leave? ==> step.normal
  {
    hide Remaining, Next, Shape, Followed;
    var s := sys.session;
    if s.paths.active != [] {
      var bad := set path | path in s.paths.active[0] && missing(path);
      step := Other(WorkerDone(0, bad));
      WorkLowers(valid, script, sys, bad);
    } else if s.paths.ready != [] {
      step := Other(Publish);
      PublishLowers(valid, script, sys);
    } else {
      assert !s.exited;
      step := ByHelper(valid, script, sys);
    }
  }

  /** With nothing to resolve or publish it is for the helper and the pipes to go on. */
  lemma ByHelper(valid: string -> bool, script: seq<Line>, sys: System) returns (step: Step)
    requires Shape(script) && Consistent(script, sys) && Running(sys.session) && !sys.session.exited
    requires sys.session.paths.active == [] && sys.session.paths.ready == []
    ensures !step.Other? && Owed(script, sys, step) && Remaining(script, Next(valid, script, sys, step)) < Remaining(script, sys)
    ensures !sys.session.failed && script[|script| - 1].frame.End? && step.Leave? ==> step.normal
  {
    hide Remaining, Next, Followed;
    var s := sys.session;
    if s.failed {
      step := Leave(false, 0);
      LeaveLowers(valid, script, sys, false);
    } else if sys.lines != [] {
      step := Read(|sys.lines|, 0);
      ReadLowers(valid, script, sys);
    } else if sys.answers != [] {
      step := Hear;
      HearLowers(valid, script, sys);
    } else if sys.waiting {
      assert s.acks != [] && s.paths.pending == [];
      assert Bytes(s.paths.pending) == 0;
      assert false;
    } else if sys.next < |script| {
      step := Send;
      SendLowers(valid, script, sys);
    } else {
      var normal := script[|script| - 1].frame.End?;
      step := Leave(normal, 0);
      LeaveLowers(valid, script, sys, normal);
    }
  }

  lemma HearLowers(valid: string -> bool, script: seq<Line>, sys: System)
    requires sys.answers != []
    ensures Remaining(script, Next(valid, script, sys, Hear)) < Remaining(script, sys)
  {
    hide SessionLoad, LineLoad;
  }

  /** The steps taken one after the other, each of them owed when it is taken. */
  predicate AllOwed(valid: string -> bool, script: seq<Line>, sys: System, steps: seq<Step>)
    decreases |steps|
  {
    steps == [] || (Owed(script, sys, steps[0]) && AllOwed(valid, script, Next(valid, script, sys, steps[0]), steps[1..]))
  }

  /** Every path received was published or skipped, each distinct one once. */
  ghost predicate AllShown(p: Paths) {
    p.pending == [] && p.active == [] && p.ready == [] && multiset(p.published) + multiset(p.skipped) == multiset(p.seen)
  }

  lemma {:induction false} CanFinish(valid: string -> bool, script: seq<Line>, sys: System) returns (steps: seq<Step>)
    requires Shape(script) && Consistent(script, sys) && !sys.session.cancelled
    ensures AllOwed(valid, script, sys, steps)
    ensures var end := Run(valid, script, sys, steps); !end.session.cancelled && !Running(end.session) && Consistent(script, end)
    decreases Remaining(script, sys)
  {
    hide Remaining, Next, Shape, Consistent, Enabled;
    steps := [];
    if Running(sys.session) {
      var step := Nearer(valid, _ => false, script, sys);
      var next := Next(valid, script, sys, step);
      StepKeeps(valid, script, sys, step);
      NotCancelled(valid, script, sys, step);
      var more := CanFinish(valid, script, next);
      steps := [step] + more;
      assert steps[1..] == more && steps[0] == step;
    }
  }

  lemma NotCancelled(valid: string -> bool, script: seq<Line>, sys: System, step: Step)
    requires Owed(script, sys, step) && Consistent(script, sys) && !sys.session.cancelled
    ensures !Next(valid, script, sys, step).session.cancelled
  {
    hide ReadLines, Exited, Settle, Resolved, Published;
    match step
    case Read(count, partial) => ReadNotCancelled(valid, sys.session, sys.lines[..count], partial);
    case Leave(normal, partial) =>
      ReadNotCancelled(valid, sys.session, sys.lines, partial);
      ExitedNotCancelled(ReadLines(valid, sys.session, sys.lines, partial).0, normal);
    case Other(e) =>
      SettleNotCancelled(sys.session.(timer := false, paths := Published(sys.session.paths)));
      if e.WorkerDone? { SettleNotCancelled(sys.session.(paths := Resolved(sys.session.paths, e.worker, e.bad))); }
    case _ =>
  }

  lemma ReadNotCancelled(valid: string -> bool, s: Session, lines: seq<Line>, partial: nat)
    requires Sound(s) && !s.cancelled
    ensures !ReadLines(valid, s, lines, partial).0.cancelled
  {
    ReadLinesKeep(valid, s, lines, partial);
  }

  lemma ExitedNotCancelled(s: Session, normal: bool)
    ensures Exited(s, normal).cancelled == s.cancelled
  {
    hide Pump;
  }

  lemma SettleNotCancelled(s: Session)
    ensures Settle(s).0.cancelled == s.cancelled
  {
    hide Pump, Blocked;
  }

  lemma FinishedShows(s: Session)
    requires Sound(s) && !s.cancelled && !Running(s)
    ensures AllShown(s.paths)
  {
  }

  /** From every state of every run that the user has not cancelled, finitely many owed steps of
      helper, workers and timer end the session, with every distinct path that was received
      published or skipped. */
  lemma EverySessionCanFinish(print_: Printer, valid: string -> bool, rows: seq<string>, cut: nat, steps: seq<Step>)
    ensures var script := Script(print_, rows, cut);
      var sys := Run(valid, script, Opened(), steps);
      !sys.session.cancelled ==>
        exists more :: AllOwed(valid, script, sys, more) &&
          var end := Run(valid, script, sys, more).session; !end.cancelled && !Running(end) && AllShown(end.paths)
  {
    hide Run, Script, Shape, Running, AllShown, AllOwed, Sound;
    var script := Script(print_, rows, cut);
    ScriptShape(print_, rows, cut);
    OpenedConsistent(script);
    RunKeeps(valid, script, Opened(), steps);
    var sys := Run(valid, script, Opened(), steps);
    if !sys.session.cancelled {
      var more := CanFinish(valid, script, sys);
      FinishedShows(Run(valid, script, sys, more).session);
    }
  }
}
