/** The quick-find session as the program keeps it: queues and counters changed by handlers. */
module QuickFindReader {
  import opened QuickFindSession

  lemma {:induction false} BytesConcat(a: seq<string>, b: seq<string>)
    ensures Bytes(a + b) == Bytes(a) + Bytes(b)
    decreases |a|
  {
    if a == [] {
      assert a + b == b;
    } else {
      assert (a + b)[1..] == a[1..] + b;
      BytesConcat(a[1..], b);
    }
  }

  lemma OneBytes(path: string)
    ensures Bytes([path]) == 2 * |path|
  {
    assert [path][1..] == [];
  }

  class Reader {
    const valid: string -> bool
    var rows: seq<string>
    var seen: set<string>
    var pending: seq<string>
    var pendingBytes: nat
    var active: seq<seq<string>>
    var ready: seq<string>
    var published: seq<string>
    var skipped: seq<string>
    var sequence: nat
    var snapshot: bool
    var total: int
    var acks: seq<nat>
    var written: seq<nat>
    var ended: bool
    var inputDone: bool
    var failed: bool
    var exited: bool
    var cancelled: bool
    var timer: bool
    var rest: seq<Line>
    var partial: nat

    constructor (valid: string -> bool)
      ensures this.valid == valid && Counted() && State() == Begun() && written == []
    {
      this.valid := valid;
      rows, seen, pending, pendingBytes, active, ready, published, skipped := [], {}, [], 0, [], [], [], [];
      sequence, snapshot, total, acks, written := 0, false, 0, [], [];
      ended, inputDone, failed, exited, cancelled, timer := false, false, false, false, false, false;
      rest, partial := [], 0;
    }

    function Places(): Paths
      reads this
    {
      Paths(rows, seen, pending, active, ready, published, skipped)
    }

    function State(): Session
      reads this
    {
      Session(Places(), sequence, snapshot, total, acks, ended, inputDone, failed, exited, cancelled, timer, rest, partial)
    }

    /** The byte counter is right. */
    predicate Counted()
      reads this
    {
      pendingBytes == Bytes(pending)
    }

    method Fail()
      modifies this`failed, this`inputDone
      ensures State() == QuickFindSession.Fail(old(State()))
    {
      failed, inputDone := true, true;
    }

    method AddItems(paths: seq<string>) returns (ok: bool)
      requires Counted()
      modifies this`rows, this`seen, this`pending, this`pendingBytes
      ensures Counted() && (ok, Places()) == AddPaths(valid, old(Places()), paths)
    {
      for i := 0 to |paths|
        invariant Counted() && AddPaths(valid, Places(), paths[i..]) == AddPaths(valid, old(Places()), paths)
      {
        var path := paths[i];
        assert paths[i..][0] == path && paths[i..][1..] == paths[i + 1..];
        if !valid(path) { return false; }
        rows := rows + [path];
        if path !in seen {
          BytesConcat(pending, [path]);
          OneBytes(path);
          seen, pending, pendingBytes := seen + {path}, pending + [path], pendingBytes + 2 * |path|;
        }
      }
      ok := true;
    }

    method TakeItems(paths: seq<string>) returns (ok: bool)
      requires Counted() && sequence > 0
      modifies this`rows, this`seen, this`pending, this`pendingBytes, this`acks, this`failed, this`inputDone
      ensures Counted() && (ok, State()) == QuickFindSession.TakeItems(valid, old(State()), paths)
    {
      hide AddPaths;
      if !snapshot || paths == [] {
        Fail();
        return false;
      }
      ok := AddItems(paths);
      if ok { acks := acks + [sequence - 1]; } else { Fail(); }
    }

    method TakeOther(frame: Frame) returns (ok: bool)
      modifies this`snapshot, this`total, this`ended, this`failed, this`inputDone
      ensures (ok, State()) == QuickFindSession.TakeOther(old(State()), frame)
    {
      ok := false;
      match frame {
        case Started => ok := sequence == 1;
        case Snapshot(count) => if !snapshot && count >= 0 { ok, snapshot, total := true, true, count; }
        case End(emitted, complete) => if snapshot && emitted == |rows| && emitted == total && complete { ok, ended := true, true; }
        case _ =>
      }
      if !ok { Fail(); }
    }

    method TakeLine(line: Line) returns (ok: bool)
      requires Counted()
      modifies this`sequence, this`snapshot, this`total, this`ended, this`failed, this`inputDone
      modifies this`rows, this`seen, this`pending, this`pendingBytes, this`acks
      ensures Counted() && (ok, State()) == QuickFindSession.TakeLine(valid, old(State()), line)
    {
      hide QuickFindSession.TakeItems, QuickFindSession.TakeOther;
      if line.length > LINE_LIMIT || line.frame.Unreadable? {
        Fail();
        return false;
      }
      ok := line.sequence == sequence && !ended;
      sequence := sequence + 1;
      if !ok {
        Fail();
      } else if line.frame.Items? {
        ok := TakeItems(line.frame.paths);
      } else {
        ok := TakeOther(line.frame);
      }
    }

    /** Takes up to 16 waiting paths. */
    method TakeBatch() returns (batch: seq<string>)
      requires Counted() && pending != []
      modifies this`pending, this`pendingBytes
      ensures Counted()
      ensures var n := if |old(pending)| < BATCH then |old(pending)| else BATCH; batch == old(pending)[..n] && pending == old(pending)[n..]
    {
      batch := [];
      while |batch| < BATCH && pending != []
        invariant Counted() && |batch| <= BATCH && |batch| <= |old(pending)|
        invariant batch == old(pending)[..|batch|] && pending == old(pending)[|batch|..]
        decreases |pending|
      {
        pendingBytes := pendingBytes - 2 * |pending[0]|;
        batch, pending := batch + [pending[0]], pending[1..];
      }
    }

    method Pump()
      requires Counted()
      modifies this`pending, this`pendingBytes, this`active
      ensures Counted() && State() == old(State()).(paths := QuickFindSession.Pump(old(Places())))
    {
      while |active| < WORKERS && pending != [] && |ready| < READY_LIMIT
        invariant Counted() && QuickFindSession.Pump(Places()) == QuickFindSession.Pump(old(Places()))
        decreases |pending|
      {
        ghost var before := Places();
        var batch := TakeBatch();
        active := active + [batch];
        assert Places() == Launch(before);
      }
    }

    method Acknowledge()
      requires Counted()
      modifies this`acks, this`written
      ensures var r := QuickFindSession.Acknowledge(old(State())); State() == r.0 && written == old(written) + r.1
    {
      if pendingBytes > BYTE_LIMIT || |pending| > PENDING_LIMIT || |ready| > READY_LIMIT {
        assert written + [] == written;
        return;
      }
      while acks != []
        invariant written + acks == old(written) + old(acks)
        decreases |acks|
      {
        written, acks := written + [acks[0]], acks[1..];
      }
      assert written + [] == written;
    }

    method Schedule()
      modifies this`timer
      ensures State() == QuickFindSession.Schedule(old(State()))
    {
      if ready != [] { timer := true; }
    }

    method Settle()
      requires Counted()
      modifies this`pending, this`pendingBytes, this`active, this`acks, this`written, this`timer
      ensures Counted()
      ensures var r := QuickFindSession.Settle(old(State())); State() == r.0 && written == old(written) + r.1
    {
      hide QuickFindSession.Pump;
      Pump();
      Acknowledge();
      Schedule();
    }

    /** Reads line by line; a line that cannot be taken ends it, and empties the buffer if it
        cannot be read at all. */
    method TakeBuffer(buffer: seq<Line>) returns (ok: bool)
      requires Counted()
      modifies this`sequence, this`snapshot, this`total, this`ended, this`failed, this`inputDone, this`rest, this`partial
      modifies this`rows, this`seen, this`pending, this`pendingBytes, this`acks
      ensures Counted() && (ok, State()) == TakeLines(valid, old(State()), buffer)
    {
      hide QuickFindSession.TakeLine, Clears, Bytes;
      for i := 0 to |buffer|
        invariant Counted() && TakeLines(valid, State(), buffer[i..]) == TakeLines(valid, old(State()), buffer)
      {
        assert buffer[i..][0] == buffer[i] && buffer[i..][1..] == buffer[i + 1..];
        var clears := Clears(State(), buffer[i]);
        ok := TakeLine(buffer[i]);
        if !ok {
          ghost var failed := State();
          if clears { rest, partial := [], 0; } else { rest := buffer[i + 1..]; }
          assert State() == if clears then failed.(rest := [], partial := 0) else failed.(rest := buffer[i + 1..]);
          return;
        }
      }
      ok := true;
    }

    /** Takes over what has arrived. */
    method Buffer(lines: seq<Line>, bytes: nat) returns (buffer: seq<Line>)
      modifies this`rest, this`partial
      ensures buffer == old(rest) + lines && State() == old(State()).(rest := [], partial := bytes)
    {
      buffer, rest, partial := rest + lines, [], bytes;
    }

    method Overflow()
      modifies this`partial, this`failed, this`inputDone
      ensures State() == QuickFindSession.Fail(old(State()).(partial := 0))
    {
      partial := 0;
      Fail();
    }

    method ReadLines(lines: seq<Line>, bytes: nat)
      requires Counted()
      modifies this
      ensures Counted()
      ensures var r := QuickFindSession.ReadLines(valid, old(State()), lines, bytes); State() == r.0 && written == old(written) + r.1
    {
      hide TakeLines, QuickFindSession.Settle, QuickFindSession.Fail, Bytes;
      assert written + [] == written;
      var buffer := Buffer(lines, bytes);
      var ok := TakeBuffer(buffer);
      if ok {
        if partial > LINE_LIMIT { Overflow(); } else { Settle(); }
      }
    }

    method Distribute(batch: seq<string>, bad: set<string>)
      modifies this`ready, this`skipped
      ensures ready == old(ready) + Those(batch, bad, false) && skipped == old(skipped) + Those(batch, bad, true)
    {
      for i := 0 to |batch|
        invariant ready + Those(batch[i..], bad, false) == old(ready) + Those(batch, bad, false)
        invariant skipped + Those(batch[i..], bad, true) == old(skipped) + Those(batch, bad, true)
      {
        ThoseFirst(batch[i..], bad);
        assert batch[i..][0] == batch[i] && batch[i..][1..] == batch[i + 1..];
        if batch[i] in bad {
          Regroup(skipped, [batch[i]], Those(batch[i + 1..], bad, true));
          skipped := skipped + [batch[i]];
        } else {
          Regroup(ready, [batch[i]], Those(batch[i + 1..], bad, false));
          ready := ready + [batch[i]];
        }
      }
    }

    /** A worker has finished: what it resolved is ready. */
    method Finish(w: nat, bad: set<string>)
      requires Counted() && w < |active|
      modifies this`pending, this`pendingBytes, this`active, this`ready, this`skipped, this`acks, this`written, this`timer
      ensures Counted()
      ensures var r := QuickFindSession.Settle(old(State()).(paths := Resolved(old(Places()), w, bad)));
        State() == r.0 && written == old(written) + r.1
    {
      hide QuickFindSession.Settle, Those;
      var batch := active[w];
      active := active[..w] + active[w + 1..];
      Distribute(batch, bad);
      assert Places() == Resolved(old(Places()), w, bad);
      Settle();
    }

    method ShowReady()
      requires Counted()
      modifies this`pending, this`pendingBytes, this`active, this`ready, this`published, this`acks, this`written, this`timer
      ensures Counted()
      ensures var r := QuickFindSession.Settle(old(State()).(timer := false, paths := Published(old(Places()))));
        State() == r.0 && written == old(written) + r.1
    {
      hide QuickFindSession.Settle, Bytes;
      timer, published, ready := false, published + ready, [];
      assert State() == old(State()).(timer := false, paths := Published(old(Places())));
      Settle();
    }

    method CloseInput(normal: bool)
      modifies this`failed, this`inputDone, this`exited
      ensures var s := old(State());
        State() == (if !s.failed && (!normal || !s.ended || s.rest != [] || s.partial > 0) then QuickFindSession.Fail(s) else s).(inputDone := true, exited := true)
    {
      if !failed && (!normal || !ended || rest != [] || partial > 0) { failed := true; }
      inputDone, exited := true, true;
    }

    method Close(normal: bool)
      requires Counted()
      modifies this`failed, this`inputDone, this`exited, this`pending, this`pendingBytes, this`active, this`timer
      ensures Counted() && State() == Exited(old(State()), normal)
    {
      hide QuickFindSession.Pump, Bytes;
      CloseInput(normal);
      Pump();
      Schedule();
    }

    method Leave(lines: seq<Line>, bytes: nat, normal: bool)
      requires Counted()
      modifies this
      ensures Counted()
      ensures var r := QuickFindSession.ReadLines(valid, old(State()), lines, bytes); State() == Exited(r.0, normal) && written == old(written) + r.1
    {
      hide QuickFindSession.ReadLines, Exited;
      ReadLines(lines, bytes);
      Close(normal);
    }

    method Handle(e: Event)
      requires Counted()
      modifies this
      ensures Counted()
      ensures var r := QuickFindSession.Handle(valid, old(State()), e); State() == r.0 && written == old(written) + r.1
    {
      hide QuickFindSession.Settle, QuickFindSession.ReadLines, Resolved, Published, Exited;
      assert written + [] == written;
      if cancelled { return; }
      match e {
        case Receive(lines, bytes) => if !exited { ReadLines(lines, bytes); }
        case Exit(lines, bytes, normal) => if !exited { Leave(lines, bytes, normal); }
        case WorkerDone(w, bad) => if w < |active| { Finish(w, bad); }
        case Publish => if !timer || ready == [] { timer := false; } else { ShowReady(); }
        case Timeout => if !snapshot && !inputDone { Fail(); }
        case Cancel => Stop();
      }
    }

    method Clear()
      modifies this`pending, this`pendingBytes, this`ready
      ensures Counted() && State() == old(State()).(paths := old(Places()).(pending := [], ready := []))
    {
      pending, pendingBytes, ready := [], 0, [];
    }

    method Stop()
      modifies this`cancelled, this`timer, this`pending, this`pendingBytes, this`ready
      ensures Counted() && State() == old(State()).(cancelled := true, timer := false, paths := old(Places()).(pending := [], ready := []))
    {
      Clear();
      cancelled, timer := true, false;
    }
  }

  lemma Regroup(a: seq<string>, b: seq<string>, c: seq<string>)
    ensures a + (b + c) == a + b + c
  {
  }

  lemma ThoseFirst(batch: seq<string>, bad: set<string>)
    requires batch != []
    ensures batch[0] in bad ==> Those(batch, bad, true) == [batch[0]] + Those(batch[1..], bad, true) && Those(batch, bad, false) == Those(batch[1..], bad, false)
    ensures batch[0] !in bad ==> Those(batch, bad, false) == [batch[0]] + Those(batch[1..], bad, false) && Those(batch, bad, true) == Those(batch[1..], bad, true)
  {
  }
}
