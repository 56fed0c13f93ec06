/** The quick-find session: it reads frames, resolves paths on at most four workers, and
    publishes what they resolved. */
module QuickFindSession {

  const WORKERS := 4
  const BATCH := 16
  const READY_LIMIT := 1024
  const PENDING_LIMIT := 4096
  const BYTE_LIMIT := 4194304

  // ------------------------------------------------------------- the paths

  /** Every path received, the distinct ones, and where those are: waiting, held by a worker
      (one batch each), resolved, published, or given up. */
  datatype Paths = Paths(
    rows: seq<string>, seen: set<string>, pending: seq<string>, active: seq<seq<string>>, ready: seq<string>,
    published: seq<string>, skipped: seq<string>)

  /** Counts the paths of a frame and keeps the new ones, up to one that is not absolute. */
  function AddPaths(valid: string -> bool, p: Paths, paths: seq<string>): (bool, Paths)
    decreases |paths|
  {
    if paths == [] then (true, p)
    else if !valid(paths[0]) then (false, p)
    else AddPaths(valid, AddPath(p, paths[0]), paths[1..])
  }

  function AddPath(p: Paths, path: string): Paths {
    var q := p.(rows := p.rows + [path]);
    if path in p.seen then q else q.(seen := p.seen + {path}, pending := p.pending + [path])
  }

  /** A batch for a free worker. */
  function Launch(p: Paths): Paths
    requires p.pending != []
  {
    var n := if |p.pending| < BATCH then |p.pending| else BATCH;
    p.(active := p.active + [p.pending[..n]], pending := p.pending[n..])
  }

  predicate CanLaunch(p: Paths) {
    |p.active| < WORKERS && p.pending != [] && |p.ready| < READY_LIMIT
  }

  /** Gives out batches while a worker is free and not too much is ready. */
  function Pump(p: Paths): Paths
    decreases |p.pending|
  {
    if CanLaunch(p) then Pump(Launch(p)) else p
  }

  /** The paths of a batch that could be resolved, or could not. */
  function Those(batch: seq<string>, bad: set<string>, wanted: bool): seq<string> {
    if batch == [] then []
    else (if (batch[0] in bad) == wanted then [batch[0]] else []) + Those(batch[1..], bad, wanted)
  }

  function Resolved(p: Paths, w: nat, bad: set<string>): Paths
    requires w < |p.active|
  {
    p.(active := p.active[..w] + p.active[w + 1..],
       ready := p.ready + Those(p.active[w], bad, false), skipped := p.skipped + Those(p.active[w], bad, true))
  }

  function Published(p: Paths): Paths {
    p.(published := p.published + p.ready, ready := [])
  }

  function Bytes(paths: seq<string>): nat {
    if paths == [] then 0 else 2 * |paths[0]| + Bytes(paths[1..])
  }

  predicate Blocked(p: Paths) {
    Bytes(p.pending) > BYTE_LIMIT || |p.pending| > PENDING_LIMIT || |p.ready| > READY_LIMIT
  }

  // ------------------------------------------------------------- the session

  /** A number that could not be read is negative. */
  datatype Frame = Started | Snapshot(total: int) | Items(paths: seq<string>) | Failure | End(emitted: int, complete: bool) | Unreadable

  /** A line of the helper: its number, what it says, and how many bytes it has. */
  datatype Line = Line(sequence: nat, frame: Frame, length: nat)

  const LINE_LIMIT := 262144

  /** `rest` and `partial`: whole lines not yet read, and the bytes of an incomplete one. */
  datatype Session = Session(
    paths: Paths, sequence: nat, snapshot: bool, total: int, acks: seq<nat>,
    ended: bool, inputDone: bool, failed: bool, exited: bool, cancelled: bool, timer: bool, rest: seq<Line>, partial: nat)

  function Begun(): Session {
    Session(Paths([], {}, [], [], [], [], []), 0, false, 0, [], false, false, false, false, false, false, [], 0)
  }

  predicate Running(s: Session) {
    !s.cancelled && (!s.inputDone || s.paths.active != [] || s.paths.pending != [] || s.paths.ready != [])
  }

  function Fail(s: Session): Session {
    s.(failed := true, inputDone := true)
  }

  /** One line; the flag says whether to go on. */
  function TakeLine(valid: string -> bool, s: Session, line: Line): (bool, Session) {
    var t := s.(sequence := s.sequence + 1);
    if line.length > LINE_LIMIT || line.frame.Unreadable? then (false, Fail(s))
    else if line.sequence != s.sequence || s.ended then (false, Fail(t))
    else if line.frame.Items? then TakeItems(valid, t, line.frame.paths)
    else TakeOther(t, line.frame)
  }

  /** A line that cannot be read at all also empties the buffer. */
  predicate Clears(s: Session, line: Line) {
    line.length > LINE_LIMIT || line.frame.Unreadable? || line.sequence != s.sequence || s.ended
  }

  /** Any other frame, after its number was counted. */
  function TakeOther(t: Session, frame: Frame): (bool, Session) {
    match frame
    case Started => if t.sequence == 1 then (true, t) else (false, Fail(t))
    case Snapshot(total) => if t.snapshot || total < 0 then (false, Fail(t)) else (true, t.(snapshot := true, total := total))
    case End(emitted, complete) =>
      if !t.snapshot || emitted != |t.paths.rows| || emitted != t.total || !complete then (false, Fail(t)) else (true, t.(ended := true))
    case _ => (false, Fail(t))
  }

  /** An items frame, after its number was counted. */
  function TakeItems(valid: string -> bool, t: Session, paths: seq<string>): (bool, Session) {
    if !t.snapshot || paths == [] then (false, Fail(t))
    else
      var (ok, p) := AddPaths(valid, t.paths, paths);
      if ok then (true, t.(paths := p, acks := t.acks + [if t.sequence > 0 then t.sequence - 1 else 0])) else (false, Fail(t.(paths := p)))
  }

  function TakeLines(valid: string -> bool, s: Session, lines: seq<Line>): (bool, Session)
    decreases |lines|
  {
    if lines == [] then (true, s)
    else
      var (ok, t) := TakeLine(valid, s, lines[0]);
      if ok then TakeLines(valid, t, lines[1..])
      else if Clears(s, lines[0]) then (false, t.(rest := [], partial := 0))
      else (false, t.(rest := lines[1..]))
  }

  /** Writes the acknowledgements that are due, unless too much is waiting. */
  function Acknowledge(s: Session): (Session, seq<nat>) {
    if Blocked(s.paths) then (s, []) else (s.(acks := []), s.acks)
  }

  function Schedule(s: Session): Session {
    if s.paths.ready == [] then s else s.(timer := true)
  }

  function Settle(s: Session): (Session, seq<nat>) {
    var (t, written) := Acknowledge(s.(paths := Pump(s.paths)));
    (Schedule(t), written)
  }

  // ----------------------------------------------------------------- handlers

  datatype Event = Receive(lines: seq<Line>, partial: nat) | Exit(lines: seq<Line>, partial: nat, normal: bool) | WorkerDone(worker: nat, bad: set<string>)
    | Publish | Timeout | Cancel

  /** Reads what was left and what has arrived, of which `partial` bytes are no whole line. */
  function ReadLines(valid: string -> bool, s: Session, lines: seq<Line>, partial: nat): (Session, seq<nat>) {
    var (ok, t) := TakeLines(valid, s.(rest := [], partial := partial), s.rest + lines);
    if !ok then (t, [])
    else if t.partial > LINE_LIMIT then (Fail(t.(partial := 0)), [])
    else Settle(t)
  }

  function Exited(s: Session, normal: bool): Session {
    var v := if !s.failed && (!normal || !s.ended || s.rest != [] || s.partial > 0) then Fail(s) else s;
    Schedule(v.(inputDone := true, exited := true, paths := Pump(v.paths)))
  }

  /** The new state, and the acknowledgements written. */
  function Handle(valid: string -> bool, s: Session, e: Event): (Session, seq<nat>) {
    if s.cancelled then (s, [])
    else
      match e
      case Receive(lines, partial) => if s.exited then (s, []) else ReadLines(valid, s, lines, partial)
      case Exit(lines, partial, normal) =>
        if s.exited then (s, [])
        else
          var (t, written) := ReadLines(valid, s, lines, partial);
          (Exited(t, normal), written)
      case WorkerDone(w, bad) => if w < |s.paths.active| then Settle(s.(paths := Resolved(s.paths, w, bad))) else (s, [])
      case Publish =>
        if !s.timer || s.paths.ready == [] then (s.(timer := false), [])
        else Settle(s.(timer := false, paths := Published(s.paths)))
      case Timeout => (if !s.snapshot && !s.inputDone then Fail(s) else s, [])
      case Cancel => (s.(cancelled := true, timer := false, paths := s.paths.(pending := [], ready := [])), [])
  }

  // -------------------------------------------------------------- invariants

  function Flat(batches: seq<seq<string>>): multiset<string> {
    if batches == [] then multiset{} else Flat(batches[..|batches| - 1]) + multiset(batches[|batches| - 1])
  }

  /** Every distinct path received is in exactly one place. */
  ghost predicate Placed(p: Paths) {
    multiset(p.pending) + Flat(p.active) + multiset(p.ready) + multiset(p.published) + multiset(p.skipped) == multiset(p.seen)
  }

  ghost predicate Kept(p: Paths) {
    Placed(p) && |p.active| <= WORKERS && (forall path :: path in p.rows <==> path in p.seen)
  }

  predicate Pumped(p: Paths) {
    p.pending == [] || |p.active| == WORKERS || |p.ready| >= READY_LIMIT
  }

  /** What a session knows about its input. */
  ghost predicate Informed(s: Session) {
    && (s.failed ==> s.inputDone) && (s.exited ==> s.inputDone)
    && (s.ended ==> |s.paths.rows| == s.total) && (s.inputDone && !s.failed ==> s.ended)
    && (!s.failed ==> s.rest == [])
  }

  ghost predicate Sound(s: Session) {
    !s.cancelled ==>
      && Kept(s.paths) && Informed(s)
      && (s.paths.ready != [] ==> s.timer)
      && (Pumped(s.paths) || (s.failed && !s.exited))
      && (s.acks == [] || Blocked(s.paths) || s.failed || s.exited)
  }

  lemma {:induction false} FlatConcat(a: seq<seq<string>>, b: seq<seq<string>>)
    ensures Flat(a + b) == Flat(a) + Flat(b)
    decreases |b|
  {
    if b == [] {
      assert a + b == a;
    } else {
      assert (a + b)[..|a + b| - 1] == a + b[..|b| - 1];
      FlatConcat(a, b[..|b| - 1]);
    }
  }

  lemma OneFlat(batch: seq<string>)
    ensures Flat([batch]) == multiset(batch)
  {
    assert [batch][..0] == [];
  }

  lemma {:induction false} ThoseSplit(batch: seq<string>, bad: set<string>)
    ensures multiset(Those(batch, bad, false)) + multiset(Those(batch, bad, true)) == multiset(batch)
  {
    if batch != [] {
      ThoseSplit(batch[1..], bad);
      assert batch == [batch[0]] + batch[1..];
    }
  }

  lemma LaunchKeeps(p: Paths)
    requires Kept(p) && CanLaunch(p)
    ensures Kept(Launch(p)) && |Launch(p).pending| < |p.pending|
  {
    var n := if |p.pending| < BATCH then |p.pending| else BATCH;
    assert p.pending == p.pending[..n] + p.pending[n..];
    FlatConcat(p.active, [p.pending[..n]]);
    OneFlat(p.pending[..n]);
  }

  lemma {:induction false} PumpKeeps(p: Paths)
    requires Kept(p)
    ensures var q := Pump(p); Kept(q) && Pumped(q) && q == p.(active := q.active, pending := q.pending)
    decreases |p.pending|
  {
    hide Placed;
    if CanLaunch(p) {
      LaunchKeeps(p);
      PumpKeeps(Launch(p));
    }
  }

  lemma AddPathKeeps(p: Paths, path: string)
    requires Kept(p)
    ensures Kept(AddPath(p, path))
  {
    if path !in p.seen {
      assert multiset(p.seen + {path}) == multiset(p.seen) + multiset{path};
    }
  }

  lemma {:induction false} AddPathsKeeps(valid: string -> bool, p: Paths, paths: seq<string>)
    requires Kept(p)
    ensures var (ok, q) := AddPaths(valid, p, paths);
      && Kept(q) && q == p.(rows := q.rows, seen := q.seen, pending := q.pending)
      && (ok ==> q.rows == p.rows + paths)
    decreases |paths|
  {
    hide Kept;
    if paths == [] {
      assert p.rows + paths == p.rows;
    } else if valid(paths[0]) {
      AddPathKeeps(p, paths[0]);
      AddPathsKeeps(valid, AddPath(p, paths[0]), paths[1..]);
      assert p.rows + [paths[0]] + paths[1..] == p.rows + paths;
    }
  }

  lemma ResolvedKept(p: Paths, w: nat, bad: set<string>)
    requires Kept(p) && w < |p.active|
    ensures Kept(Resolved(p, w, bad))
  {
    var before, batch, after := p.active[..w], p.active[w], p.active[w + 1..];
    ActiveSplit(p.active, w);
    FlatConcat(before, after);
    ThoseSplit(batch, bad);
    AddThose(p.ready, p.skipped, Those(batch, bad, false), Those(batch, bad, true));
  }

  lemma ActiveSplit(active: seq<seq<string>>, w: nat)
    requires w < |active|
    ensures Flat(active) == Flat(active[..w]) + multiset(active[w]) + Flat(active[w + 1..])
  {
    hide Flat;
    assert active == active[..w] + ([active[w]] + active[w + 1..]);
    FlatConcat(active[..w], [active[w]] + active[w + 1..]);
    FlatConcat([active[w]], active[w + 1..]);
    OneFlat(active[w]);
  }

  lemma AddThose(a: seq<string>, b: seq<string>, x: seq<string>, y: seq<string>)
    ensures multiset(a + x) + multiset(b + y) == multiset(a) + multiset(b) + (multiset(x) + multiset(y))
  {
  }

  lemma PublishedKept(p: Paths)
    requires Kept(p)
    ensures Kept(Published(p))
  {
  }

  /** Lines change what has been received, and nothing a worker or the display holds. */
  ghost predicate Progress(s: Session, t: Session, ok: bool) {
    && Kept(t.paths) && t.paths.ready == s.paths.ready && (t.ended ==> |t.paths.rows| == t.total)
    && (if ok then t.failed == s.failed && t.inputDone == s.inputDone else t.failed && t.inputDone)
    && t.exited == s.exited && t.cancelled == s.cancelled && t.timer == s.timer && (s.ended ==> t.ended)
    && (ok ==> t.rest == s.rest)
  }

  lemma TakeItemsProgress(valid: string -> bool, s: Session, t: Session, paths: seq<string>)
    requires Kept(s.paths) && !s.ended && t == s.(sequence := t.sequence)
    ensures var (ok, u) := TakeItems(valid, t, paths); Progress(s, u, ok)
  {
    hide Kept, AddPaths;
    AddPathsKeeps(valid, s.paths, paths);
  }

  lemma TakeOtherProgress(s: Session, t: Session, frame: Frame)
    requires Kept(s.paths) && !s.ended && t == s.(sequence := t.sequence)
    ensures var (ok, u) := TakeOther(t, frame); Progress(s, u, ok)
  {
    hide Kept;
  }

  lemma TakeLineKeeps(valid: string -> bool, s: Session, line: Line)
    requires Kept(s.paths) && (s.ended ==> |s.paths.rows| == s.total)
    ensures var (ok, t) := TakeLine(valid, s, line); Progress(s, t, ok)
  {
    hide Kept, TakeItems, TakeOther;
    if !s.ended {
      var t := s.(sequence := s.sequence + 1);
      if line.frame.Items? { TakeItemsProgress(valid, s, t, line.frame.paths); }
      TakeOtherProgress(s, t, line.frame);
    }
  }

  lemma {:induction false} TakeLinesKeep(valid: string -> bool, s: Session, lines: seq<Line>)
    requires Kept(s.paths) && (s.ended ==> |s.paths.rows| == s.total)
    ensures var (ok, t) := TakeLines(valid, s, lines); Progress(s, t, ok)
    decreases |lines|
  {
    hide Kept, TakeLine;
    if lines != [] {
      TakeLineKeeps(valid, s, lines[0]);
      var (ok, t) := TakeLine(valid, s, lines[0]);
      if ok { TakeLinesKeep(valid, t, lines[1..]); }
    }
  }

  lemma SettleKeeps(s: Session)
    requires !s.cancelled && Kept(s.paths) && Informed(s)
    ensures var t := Settle(s).0; Sound(t) && t == s.(paths := t.paths, acks := t.acks, timer := t.timer) && t.paths.rows == s.paths.rows
  {
    hide Pump, Blocked, Kept;
    PumpKeeps(s.paths);
  }

  lemma ReadLinesKeep(valid: string -> bool, s: Session, lines: seq<Line>, partial: nat)
    requires Sound(s) && !s.cancelled
    ensures var t := ReadLines(valid, s, lines, partial).0; !t.cancelled && t.exited == s.exited && (s.exited || Sound(t))
  {
    hide Kept, TakeLines, Settle, Pumped, Blocked;
    var buffered := s.(rest := [], partial := partial);
    TakeLinesKeep(valid, buffered, s.rest + lines);
    var (ok, t) := TakeLines(valid, buffered, s.rest + lines);
    if ok && t.partial <= LINE_LIMIT { SettleKeeps(t); }
  }

  lemma ExitedKeeps(s: Session, normal: bool)
    requires Sound(s) && !s.cancelled
    ensures Sound(Exited(s, normal))
  {
    hide Kept, Pump, Blocked;
    PumpKeeps(s.paths);
  }

  /** Every handler keeps the invariant. */
  lemma HandleKeeps(valid: string -> bool, s: Session, e: Event)
    requires Sound(s)
    ensures Sound(Handle(valid, s, e).0)
  {
    hide Kept, ReadLines, Settle, Exited, Resolved, Published, Blocked, Pumped;
    if !s.cancelled {
      match e
      case Receive(lines, partial) => ReadLinesKeep(valid, s, lines, partial);
      case Exit(lines, partial, normal) =>
        ReadLinesKeep(valid, s, lines, partial);
        if !s.exited { ExitedKeeps(ReadLines(valid, s, lines, partial).0, normal); }
      case WorkerDone(w, bad) =>
        if w < |s.paths.active| {
          ResolvedKept(s.paths, w, bad);
          RowsSame(s.paths, w, bad);
          SettleKeeps(s.(paths := Resolved(s.paths, w, bad)));
        }
      case Publish =>
        if s.timer && s.paths.ready != [] {
          PublishedKept(s.paths);
          PublishedRows(s.paths);
          SettleKeeps(s.(timer := false, paths := Published(s.paths)));
        }
      case _ =>
    }
  }

  lemma RowsSame(p: Paths, w: nat, bad: set<string>)
    requires w < |p.active|
    ensures Resolved(p, w, bad).rows == p.rows
  {
  }

  lemma PublishedRows(p: Paths)
    ensures Published(p).rows == p.rows
  {
  }

  /** A session that still runs is waiting for its helper, for a worker, or for its timer. */
  lemma NotStuck(s: Session)
    requires Sound(s) && Running(s)
    ensures !s.exited || s.paths.active != [] || (s.timer && s.paths.ready != [])
  {
  }
}
