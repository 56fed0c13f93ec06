/** The quick-find helper: it sends the rows of a query in frames and waits for an
    acknowledgement after each one. */
module QuickFindSender {

  const MAX_BYTES := 245760
  const MAX_PATHS := 64

  /** The size of a path printed as a one-item JSON array. */
  type Measure = string -> nat

  /** Frames sent, and the paths collected for the next one. */
  datatype Sender = Sender(frames: seq<seq<string>>, paths: seq<string>, bytes: nat, row: nat)

  function Flush(s: Sender): Sender {
    if s.paths == [] then s else s.(frames := s.frames + [s.paths], paths := [], bytes := 0)
  }

  /** A row that does not fit starts a new frame; the very first row goes out at once. */
  function Put(size: Measure, s: Sender, path: string): Sender {
    var t := if s.bytes + size(path) > MAX_BYTES then Flush(s) else s;
    var u := t.(paths := t.paths + [path], bytes := t.bytes + size(path), row := t.row + 1);
    if s.row == 0 || |u.paths| >= MAX_PATHS then Flush(u) else u
  }

  function PutAll(size: Measure, s: Sender, rows: seq<string>): Sender
    decreases |rows|
  {
    if rows == [] then s else PutAll(size, Put(size, s, rows[0]), rows[1..])
  }

  const Empty := Sender([], [], 0, 0)

  function Frames(size: Measure, rows: seq<string>): seq<seq<string>> {
    Flush(PutAll(size, Empty, rows)).frames
  }

  function Flat(frames: seq<seq<string>>): seq<string> {
    if frames == [] then [] else Flat(frames[..|frames| - 1]) + frames[|frames| - 1]
  }

  function Total(size: Measure, paths: seq<string>): nat {
    if paths == [] then 0 else Total(size, paths[..|paths| - 1]) + size(paths[|paths| - 1])
  }

  predicate FitsFrame(size: Measure, paths: seq<string>) {
    0 < |paths| <= MAX_PATHS && Total(size, paths) <= MAX_BYTES
  }

  /** What a flush sends: up to 64 paths, and beyond 240 KiB only a single path. */
  predicate Sendable(size: Measure, paths: seq<string>) {
    0 < |paths| <= MAX_PATHS && (Total(size, paths) <= MAX_BYTES || |paths| == 1)
  }

  /** Frames hold the rows so far, in order. */
  ghost predicate Holding(size: Measure, s: Sender, rows: seq<string>) {
    && Flat(s.frames) + s.paths == rows && s.bytes == Total(size, s.paths)
    && |s.paths| < MAX_PATHS && (s.paths == [] || Sendable(size, s.paths))
    && (forall i :: 0 <= i < |s.frames| ==> Sendable(size, s.frames[i]))
  }

  lemma FlatNext(frames: seq<seq<string>>, paths: seq<string>)
    ensures Flat(frames + [paths]) == Flat(frames) + paths
  {
    assert (frames + [paths])[..|frames|] == frames;
  }

  lemma FlushHolds(size: Measure, s: Sender, rows: seq<string>)
    requires Flat(s.frames) + s.paths == rows && s.bytes == Total(size, s.paths)
    requires s.paths == [] || Sendable(size, s.paths)
    requires forall i :: 0 <= i < |s.frames| ==> Sendable(size, s.frames[i])
    ensures Holding(size, Flush(s), rows) && Flush(s).paths == [] && Flush(s).row == s.row
  {
    FlatNext(s.frames, s.paths);
    assert rows + [] == rows;
  }

  lemma PutHolds(size: Measure, s: Sender, rows: seq<string>, path: string)
    requires Holding(size, s, rows)
    ensures Holding(size, Put(size, s, path), rows + [path])
  {
    FlushHolds(size, s, rows);
    var t := if s.bytes + size(path) > MAX_BYTES then Flush(s) else s;
    var u := t.(paths := t.paths + [path], bytes := t.bytes + size(path), row := t.row + 1);
    AppendHolds(size, t, rows, path);
    hide Sendable;
    assert u.frames == t.frames;
    FlushHolds(size, u, rows + [path]);
  }

  lemma AppendHolds(size: Measure, t: Sender, rows: seq<string>, path: string)
    requires Holding(size, t, rows) && (t.paths == [] || t.bytes + size(path) <= MAX_BYTES)
    ensures var paths := t.paths + [path];
      && Flat(t.frames) + paths == rows + [path] && t.bytes + size(path) == Total(size, paths) && Sendable(size, paths)
  {
    var paths := t.paths + [path];
    assert paths[..|t.paths|] == t.paths;
    assert Flat(t.frames) + t.paths + [path] == Flat(t.frames) + paths;
  }

  lemma {:induction false} PutAllHolds(size: Measure, s: Sender, before: seq<string>, rows: seq<string>)
    requires Holding(size, s, before)
    ensures Holding(size, PutAll(size, s, rows), before + rows)
    decreases |rows|
  {
    hide Holding, Put;
    if rows == [] {
      assert before + rows == before;
    } else {
      PutHolds(size, s, before, rows[0]);
      PutAllHolds(size, Put(size, s, rows[0]), before + [rows[0]], rows[1..]);
      assert before + [rows[0]] + rows[1..] == before + rows;
    }
  }

  lemma {:induction false} FlatMembers(frames: seq<seq<string>>, path: string)
    ensures path in Flat(frames) <==> exists i :: 0 <= i < |frames| && path in frames[i]
    decreases |frames|
  {
    if frames != [] {
      var n := |frames| - 1;
      FlatMembers(frames[..n], path);
      if path in Flat(frames[..n]) {
        var i :| 0 <= i < n && path in frames[..n][i];
        assert path in frames[i];
      }
      if i :| 0 <= i < |frames| && path in frames[i] {
        assert i < n ==> path in frames[..n][i];
      }
    }
  }

  lemma {:induction false} MemberFits(size: Measure, paths: seq<string>, i: nat)
    requires i < |paths|
    ensures size(paths[i]) <= Total(size, paths)
    decreases |paths|
  {
    if i < |paths| - 1 { MemberFits(size, paths[..|paths| - 1], i); }
  }

  /** The frames carry exactly the rows, in order; none is empty, has more than 64 paths, or
      has more bytes of paths than 240 KiB unless it is one path alone. So all frames fit if
      and only if every single row does. */
  lemma FramesCarryRows(size: Measure, rows: seq<string>)
    ensures Flat(Frames(size, rows)) == rows
    ensures forall i :: 0 <= i < |Frames(size, rows)| ==> Sendable(size, Frames(size, rows)[i])
    ensures (forall i :: 0 <= i < |Frames(size, rows)| ==> FitsFrame(size, Frames(size, rows)[i]))
            <==> (forall i :: 0 <= i < |rows| ==> size(rows[i]) <= MAX_BYTES)
  {
    hide Sendable, FitsFrame;
    PutAllHolds(size, Empty, [], rows);
    assert [] + rows == rows;
    FlushHolds(size, PutAll(size, Empty, rows), rows);
    assert Flat(Frames(size, rows)) + [] == Flat(Frames(size, rows));
    FitExactly(size, Frames(size, rows));
  }

  lemma FitExactly(size: Measure, frames: seq<seq<string>>)
    requires forall i :: 0 <= i < |frames| ==> Sendable(size, frames[i])
    ensures (forall i :: 0 <= i < |frames| ==> FitsFrame(size, frames[i]))
            <==> (forall i :: 0 <= i < |Flat(frames)| ==> size(Flat(frames)[i]) <= MAX_BYTES)
  {
    if forall i :: 0 <= i < |frames| ==> FitsFrame(size, frames[i]) {
      forall i | 0 <= i < |Flat(frames)|
        ensures size(Flat(frames)[i]) <= MAX_BYTES
      {
        FlatMembers(frames, Flat(frames)[i]);
        var f :| 0 <= f < |frames| && Flat(frames)[i] in frames[f];
        var k :| 0 <= k < |frames[f]| && frames[f][k] == Flat(frames)[i];
        MemberFits(size, frames[f], k);
      }
    }
    if forall i :: 0 <= i < |Flat(frames)| ==> size(Flat(frames)[i]) <= MAX_BYTES {
      forall f | 0 <= f < |frames|
        ensures FitsFrame(size, frames[f])
      {
        if |frames[f]| == 1 {
          assert frames[f][0] in frames[f] && frames[f][..0] == [];
          FlatMembers(frames, frames[f][0]);
          var i :| 0 <= i < |Flat(frames)| && Flat(frames)[i] == frames[f][0];
        }
      }
    }
  }

  /** The row loop: page by page, flushing as it goes. */
  method SendRows(size: Measure, pages: seq<seq<string>>) returns (frames: seq<seq<string>>)
    ensures frames == Frames(size, Flat(pages))
  {
    hide Flat;
    NoFrames(pages);
    var s := Empty;
    for p := 0 to |pages|
      invariant s == PutAll(size, Empty, Flat(pages[..p]))
    {
      ghost var before := Flat(pages[..p]);
      var page := pages[p];
      assert before + page[..0] == before;
      for i := 0 to |page|
        invariant s == PutAll(size, Empty, before + page[..i])
      {
        PutAllConcat(size, Empty, before + page[..i], [page[i]]);
        assert before + page[..i] + [page[i]] == before + page[..i + 1] && [page[i]][1..] == [];
        var length := size(page[i]);
        var first := s.row == 0;
        if s.bytes + length > MAX_BYTES { s := Flush(s); }
        s := s.(paths := s.paths + [page[i]], bytes := s.bytes + length, row := s.row + 1);
        if first || |s.paths| >= MAX_PATHS { s := Flush(s); }
      }
      assert page[..|page|] == page && pages[..p + 1] == pages[..p] + [page];
      FlatNext(pages[..p], page);
    }
    assert pages[..|pages|] == pages;
    frames := Flush(s).frames;
  }

  lemma NoFrames(pages: seq<seq<string>>)
    ensures Flat(pages[..0]) == []
  {
  }

  lemma {:induction false} PutAllConcat(size: Measure, s: Sender, a: seq<string>, b: seq<string>)
    ensures PutAll(size, s, a + b) == PutAll(size, PutAll(size, s, a), b)
    decreases |a|
  {
    if a == [] {
      assert a + b == b;
    } else {
      assert (a + b)[1..] == a[1..] + b;
      PutAllConcat(size, Put(size, s, a[0]), a[1..], b);
    }
  }
}
