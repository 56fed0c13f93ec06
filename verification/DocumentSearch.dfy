/** The document search worker: hits go out in parts, each part costs one credit, and the
    client gives credits back for parts it has received. */
module DocumentSearch {

  datatype Hit = Hit(start: nat, length: nat, line: nat, column: nat, captures: seq<(nat, nat)>)

  /** The byte form of a batch of hits; it is never empty, as it starts with a count. */
  type Encoding = seq<Hit> -> string

  ghost predicate Proper(encode: Encoding) {
    forall hits :: encode(hits) != ""
  }

  const MAX_CREDIT := 4
  const MAX_HITS := 100

  /** A slice of a batch: the size of the batch, and where the slice starts. */
  datatype Part = Part(total: nat, offset: nat, bytes: string)

  datatype Body = Phase(waiting: bool) | Metadata | Batch(part: Part) | FileComplete | Complete | Canceled | Error

  datatype Message = Message(generation: nat, body: Body)

  /** What becomes of a search request: refused as it stands, accepted but not startable, or
      started with the hits its matcher will give and whether the matcher then fails. */
  datatype Request = Invalid | Unstartable | Matching(hits: seq<Hit>, fails: bool)

  datatype Frame = Search(generation: nat, request: Request) | Credit(generation: nat, count: nat) | Cancel(generation: nat)

  /** `sent` and `batches` record the parts sent and the batches taken for this search. */
  datatype Server = Server(
    chunk: nat, generation: nat, credit: nat, matching: bool, hits: seq<Hit>, fails: bool, done: bool, waiting: bool,
    pending: string, offset: nat, sent: seq<Part>, batches: seq<seq<Hit>>)

  type Reply = (Server, seq<Message>)

  // ---------------------------------------------------------------- receiving

  function Idle(s: Server): Server {
    s.(matching := false, hits := [], done := false, pending := "", offset := 0)
  }

  function Fail(s: Server): Reply {
    (Idle(s), [Message(s.generation, Error)])
  }

  function Receive(s: Server, f: Frame): Reply {
    match f
    case Cancel(g) => (Idle(s).(credit := MAX_CREDIT, waiting := false, generation := g), [Message(g, Canceled)])
    case Credit(g, count) =>
      if count > MAX_CREDIT then Fail(s)
      else if g == s.generation then (s.(credit := if s.credit + count < MAX_CREDIT then s.credit + count else MAX_CREDIT), [])
      else (s, [])
    case Search(g, request) =>
      if s.matching || request.Invalid? then Fail(s)
      else
        var t := s.(generation := g, credit := MAX_CREDIT, done := false, waiting := false, sent := [], batches := []);
        match request
        case Matching(hits, fails) =>
          (t.(matching := true, hits := hits, fails := fails), [Message(g, Metadata), Message(g, Phase(false))])
        case _ => Fail(t)
  }

  // ------------------------------------------------------------------ sending

  function NextPart(s: Server): Part
    requires s.offset <= |s.pending|
  {
    Part(|s.pending|, s.offset, s.pending[s.offset..if s.offset + s.chunk <= |s.pending| then s.offset + s.chunk else |s.pending|])
  }

  function PartGone(s: Server): Server
    requires s.credit > 0 && s.offset <= |s.pending|
  {
    s.(offset := s.offset + |NextPart(s).bytes|, credit := s.credit - 1, sent := s.sent + [NextPart(s)])
  }

  /** Sends parts as long as there are credits. */
  function FlushParts(s: Server): (r: Reply)
    requires s.chunk > 0 && s.offset <= |s.pending|
    ensures r.0.offset <= |r.0.pending| && r.0.pending == s.pending
    decreases |s.pending| - s.offset
  {
    if s.credit > 0 && s.offset < |s.pending| then
      var (t, more) := FlushParts(PartGone(s));
      (t, [Message(s.generation, Batch(NextPart(s)))] + more)
    else (s, [])
  }

  function Flush(s: Server): Reply
    requires s.chunk > 0 && s.offset <= |s.pending|
  {
    var (t, out) := FlushParts(s);
    (if t.offset == |t.pending| then t.(pending := "", offset := 0) else t, out)
  }

  /** Takes a batch of hits, as many as the time slice allows. */
  function Collect(encode: Encoding, s: Server, slice: nat): Server {
    var n := if slice < MAX_HITS then slice else MAX_HITS;
    if n <= |s.hits| then Taken(encode, s, n) else Taken(encode, s, |s.hits|).(done := true)
  }

  function Taken(encode: Encoding, s: Server, n: nat): Server
    requires n <= |s.hits|
  {
    if n == 0 then s
    else s.(hits := s.hits[n..], pending := encode(s.hits[..n]), offset := 0, batches := s.batches + [s.hits[..n]])
  }

  function Tick(encode: Encoding, s: Server, slice: nat): Reply
    requires s.chunk > 0 && s.offset <= |s.pending|
  {
    if !s.matching then (s, [])
    else if s.credit == 0 then (s.(waiting := true), if s.waiting then [] else [Message(s.generation, Phase(true))])
    else if s.pending != "" then Flush(s)
    else if s.done then
      if s.credit == MAX_CREDIT then (s.(matching := false), [Message(s.generation, FileComplete), Message(s.generation, Complete)]) else (s, [])
    else
      var resumed := if s.waiting then [Message(s.generation, Phase(false))] else [];
      var t := Collect(encode, s.(waiting := false), slice);
      if t.done && s.fails then (Fail(t).0, resumed + [Message(s.generation, Error)])
      else
        var (u, out) := Flush(t);
        (u, resumed + out)
  }

  // ------------------------------------------------------------- the receiver

  /** A client joining parts: finished batches, and the start of the next one. */
  datatype Assembly = Assembly(batches: seq<string>, current: string)

  function Join(a: Assembly, p: Part): Assembly {
    var current := a.current + p.bytes;
    if |current| == p.total then Assembly(a.batches + [current], "") else a.(current := current)
  }

  function Joined(parts: seq<Part>): Assembly {
    if parts == [] then Assembly([], "") else Join(Joined(parts[..|parts| - 1]), parts[|parts| - 1])
  }

  function Encoded(encode: Encoding, batches: seq<seq<Hit>>): (r: seq<string>)
    ensures |r| == |batches|
  {
    seq(|batches|, i requires 0 <= i < |batches| => encode(batches[i]))
  }

  function Flat(batches: seq<seq<Hit>>): seq<Hit> {
    if batches == [] then [] else Flat(batches[..|batches| - 1]) + batches[|batches| - 1]
  }

  /** What is pending, and what the client can have joined, while `all` are the hits of the
      search. */
  ghost predicate Streaming(encode: Encoding, s: Server, all: seq<Hit>) {
    && Flat(s.batches) + s.hits == all && (s.done ==> s.hits == []) && s.offset <= |s.pending|
    && if s.pending == "" then Joined(s.sent) == Assembly(Encoded(encode, s.batches), "")
       else && s.batches != [] && s.pending == encode(s.batches[|s.batches| - 1])
            && Joined(s.sent) == Assembly(Encoded(encode, s.batches[..|s.batches| - 1]), s.pending[..s.offset])
  }

  /** What holds between any two events; `all` are the hits of the current search. */
  ghost predicate Valid(encode: Encoding, s: Server, all: seq<Hit>) {
    && Proper(encode) && s.chunk > 0 && s.credit <= MAX_CREDIT
    && (if s.pending == "" then s.offset == 0 else s.offset < |s.pending|)
    && (s.matching ==> Streaming(encode, s, all)) && (!s.matching ==> s.pending == "")
  }

  lemma JoinedNext(parts: seq<Part>, p: Part)
    ensures Joined(parts + [p]) == Join(Joined(parts), p)
  {
    assert (parts + [p])[..|parts|] == parts;
  }

  /** The stream while a batch goes out, or just after its last part. */
  ghost predicate Flowing(encode: Encoding, s: Server, all: seq<Hit>) {
    && s.pending != "" && s.offset <= |s.pending|
    && if s.offset < |s.pending| then Streaming(encode, s, all) else Streaming(encode, s.(pending := "", offset := 0), all)
  }

  lemma PartSent(encode: Encoding, s: Server, all: seq<Hit>)
    requires s.chunk > 0 && s.credit > 0 && s.offset < |s.pending| && Streaming(encode, s, all)
    ensures Flowing(encode, PartGone(s), all)
  {
    var part, u := NextPart(s), PartGone(s);
    JoinedNext(s.sent, part);
    assert s.pending[..s.offset] + part.bytes == s.pending[..u.offset];
    if u.offset == |s.pending| {
      var n := |s.batches| - 1;
      assert s.pending[..u.offset] == s.pending;
      assert Encoded(encode, s.batches[..n]) + [s.pending] == Encoded(encode, s.batches);
    }
  }

  /** Parts go out as long as there are credits, and only what was pending. */
  lemma {:induction false} FlushPartsKeeps(encode: Encoding, s: Server, all: seq<Hit>)
    requires s.chunk > 0 && Flowing(encode, s, all)
    ensures var (t, out) := FlushParts(s);
      && t == s.(offset := t.offset, credit := t.credit, sent := t.sent) && t.credit + |out| == s.credit
      && Flowing(encode, t, all) && (t.offset < |t.pending| ==> t.credit == 0)
      && (forall m :: m in out ==> m.generation == s.generation && m.body.Batch?)
    decreases |s.pending| - s.offset
  {
    hide Streaming;
    if s.credit > 0 && s.offset < |s.pending| {
      PartSent(encode, s, all);
      FlushPartsKeeps(encode, PartGone(s), all);
    }
  }

  lemma FlushKeeps(encode: Encoding, s: Server, all: seq<Hit>)
    requires Proper(encode) && s.chunk > 0 && s.credit <= MAX_CREDIT
    requires if s.pending == "" then s.offset == 0 else s.offset < |s.pending|
    requires s.matching && Streaming(encode, s, all)
    ensures var (t, out) := Flush(s);
      && Valid(encode, t, all) && t.credit + |out| == s.credit && t.generation == s.generation && t.matching
      && (forall m :: m in out ==> m.generation == s.generation && m.body.Batch?)
  {
    if s.pending != "" { FlushPartsKeeps(encode, s, all); }
  }

  lemma TakenStreams(encode: Encoding, s: Server, all: seq<Hit>, n: nat)
    requires Proper(encode) && Streaming(encode, s, all) && s.pending == "" && s.offset == 0 && n <= |s.hits| && !s.done
    ensures Streaming(encode, Taken(encode, s, n), all)
  {
    if n > 0 {
      var batch, t := s.hits[..n], Taken(encode, s, n);
      assert t.batches[..|s.batches|] == s.batches;
      assert Flat(t.batches) == Flat(s.batches) + batch;
      assert Flat(s.batches) + batch + s.hits[n..] == Flat(s.batches) + s.hits;
    }
  }

  /** A client that joined these parts has exactly the encoded hits, in batches. */
  ghost predicate Delivered(encode: Encoding, sent: seq<Part>, all: seq<Hit>) {
    exists batches :: Flat(batches) == all && Joined(sent) == Assembly(Encoded(encode, batches), "")
  }

  lemma DeliveredBy(encode: Encoding, sent: seq<Part>, batches: seq<seq<Hit>>, all: seq<Hit>)
    requires Flat(batches) == all && Joined(sent) == Assembly(Encoded(encode, batches), "")
    ensures Delivered(encode, sent, all)
  {
  }

  lemma TwoPlain(g: nat)
    ensures Batches([Message(g, FileComplete), Message(g, Complete)]) == 0
  {
    var ms := [Message(g, FileComplete), Message(g, Complete)];
    assert ms[..1] == [ms[0]] && [ms[0]][..0] == [];
    assert Batches([ms[0]]) == 0;
  }

  /** Every tick keeps the stream whole. A completion is sent only when every hit has been
      sent, in order, and all credits are back. */
  lemma TickKeeps(encode: Encoding, s: Server, all: seq<Hit>, slice: nat)
    requires Valid(encode, s, all)
    ensures var (t, out) := Tick(encode, s, slice);
      && Valid(encode, t, all) && t.generation == s.generation && t.credit + Batches(out) == s.credit
      && (forall m :: m in out ==> m.generation == s.generation && !m.body.Canceled?)
      && (!s.matching ==> out == [])
      && (Message(s.generation, Complete) in out ==>
            && s.credit == MAX_CREDIT && !t.matching
            && Delivered(encode, s.sent, all))
  {
    if s.matching && s.credit > 0 {
      if s.pending != "" {
        FlushKeeps(encode, s, all);
        AllBatches(Flush(s).1);
      } else if s.done {
        assert Flat(s.batches) + [] == Flat(s.batches);
        DeliveredBy(encode, s.sent, s.batches, all);
        TwoPlain(s.generation);
      } else {
        CollectKeeps(encode, s, all, slice);
      }
    }
  }

  lemma CollectKeeps(encode: Encoding, s: Server, all: seq<Hit>, slice: nat)
    requires Valid(encode, s, all) && s.matching && s.credit > 0 && s.pending == "" && !s.done
    ensures var (t, out) := Tick(encode, s, slice);
      && Valid(encode, t, all) && t.generation == s.generation && t.credit + Batches(out) == s.credit
      && (forall m :: m in out ==> m.generation == s.generation && !m.body.Canceled? && !m.body.Complete?)
  {
    hide Streaming, Taken, Flush;
    var v := s.(waiting := false);
    var n := if slice < MAX_HITS then slice else MAX_HITS;
    SameStream(encode, s, v, all);
    TakenStreams(encode, v, all, if n <= |s.hits| then n else |s.hits|);
    CollectShape(encode, v, all, slice);
    var t := Collect(encode, v, slice);
    var resumed := if s.waiting then [Message(s.generation, Phase(false))] else [];
    if t.done && s.fails {
      BatchesConcat(resumed, [Message(s.generation, Error)]);
    } else {
      FlushKeeps(encode, t, all);
      AllBatches(Flush(t).1);
      BatchesConcat(resumed, Flush(t).1);
    }
  }

  lemma SameStream(encode: Encoding, s: Server, v: Server, all: seq<Hit>)
    requires Streaming(encode, s, all) && v == s.(waiting := false)
    ensures Streaming(encode, v, all)
  {
  }

  lemma CollectShape(encode: Encoding, s: Server, all: seq<Hit>, slice: nat)
    requires Proper(encode) && s.pending == "" && s.offset == 0 && !s.done
    requires var n := if slice < MAX_HITS then slice else MAX_HITS; Streaming(encode, Taken(encode, s, if n <= |s.hits| then n else |s.hits|), all)
    ensures var t := Collect(encode, s, slice);
      && Streaming(encode, t, all) && (if t.pending == "" then t.offset == 0 else t.offset < |t.pending|)
      && t == s.(hits := t.hits, pending := t.pending, batches := t.batches, done := t.done)
  {
  }

  /** The number of parts among messages. */
  function Batches(ms: seq<Message>): nat {
    if ms == [] then 0 else Batches(ms[..|ms| - 1]) + if ms[|ms| - 1].body.Batch? then 1 else 0
  }

  lemma {:induction false} AllBatches(ms: seq<Message>)
    requires forall m :: m in ms ==> m.body.Batch?
    ensures Batches(ms) == |ms|
  {
    if ms != [] {
      assert ms == ms[..|ms| - 1] + [ms[|ms| - 1]];
      AllBatches(ms[..|ms| - 1]);
    }
  }

  lemma {:induction false} BatchesConcat(a: seq<Message>, b: seq<Message>)
    ensures Batches(a + b) == Batches(a) + Batches(b)
    decreases |b|
  {
    if b == [] {
      assert a + b == a;
    } else {
      assert (a + b)[..|a + b| - 1] == a + b[..|b| - 1];
      BatchesConcat(a, b[..|b| - 1]);
    }
  }

  // -------------------------------------------------- what a tick puts on record

  /** The parts among messages, in order. */
  function PartsIn(ms: seq<Message>): seq<Part> {
    if ms == [] then []
    else PartsIn(ms[..|ms| - 1]) + if ms[|ms| - 1].body.Batch? then [ms[|ms| - 1].body.part] else []
  }

  lemma {:induction false} PartsConcat(a: seq<Message>, b: seq<Message>)
    ensures PartsIn(a + b) == PartsIn(a) + PartsIn(b)
    decreases |b|
  {
    if b == [] {
      assert a + b == a;
    } else {
      assert (a + b)[..|a + b| - 1] == a + b[..|b| - 1];
      PartsConcat(a, b[..|b| - 1]);
    }
  }

  lemma {:induction false} PartsCount(ms: seq<Message>)
    ensures |PartsIn(ms)| == Batches(ms)
  {
    if ms != [] { PartsCount(ms[..|ms| - 1]); }
  }

  lemma OnePart(m: Message)
    ensures PartsIn([m]) == if m.body.Batch? then [m.body.part] else []
  {
    assert [m][..0] == [];
  }

  lemma {:induction false} NoParts(ms: seq<Message>)
    requires forall m :: m in ms ==> !m.body.Batch?
    ensures PartsIn(ms) == []
  {
    if ms != [] {
      assert ms == ms[..|ms| - 1] + [ms[|ms| - 1]];
      NoParts(ms[..|ms| - 1]);
    }
  }

  /** The parts that leave are the parts on record. */
  lemma {:induction false} FlushRecords(s: Server)
    requires s.chunk > 0 && s.offset <= |s.pending|
    ensures var (t, out) := FlushParts(s);
      t.sent == s.sent + PartsIn(out) && t.matching == s.matching && forall m :: m in out ==> m.body.Batch?
    decreases |s.pending| - s.offset
  {
    if s.credit > 0 && s.offset < |s.pending| {
      FlushRecords(PartGone(s));
      var m, more := Message(s.generation, Batch(NextPart(s))), FlushParts(PartGone(s)).1;
      PartsConcat([m], more);
      OnePart(m);
      assert (s.sent + [m.body.part]) + PartsIn(more) == s.sent + ([m.body.part] + PartsIn(more));
    }
  }

  /** A tick's end of a search is the last message, and then the worker is idle. */
  lemma TickRecords(encode: Encoding, s: Server, all: seq<Hit>, slice: nat)
    requires Valid(encode, s, all)
    ensures var (t, out) := Tick(encode, s, slice);
      && t.sent == s.sent + PartsIn(out) && (Message(s.generation, Complete) in out ==> PartsIn(out) == [])
      && (forall i :: 0 <= i < |out| && (out[i].body.Complete? || out[i].body.Error?) ==> i == |out| - 1 && !t.matching)
      && (s.matching && !t.matching ==> out != [] && (out[|out| - 1].body.Complete? || out[|out| - 1].body.Error?))
  {
    hide Streaming, PartsIn, FlushParts, Collect;
    var (t, out) := Tick(encode, s, slice);
    if !s.matching || s.credit == 0 || (s.pending == "" && s.done) {
      NoParts(out);
    } else if s.pending != "" {
      FlushRecords(s);
    } else {
      CollectRecords(encode, s, slice);
    }
  }

  lemma CollectKept(encode: Encoding, s: Server, slice: nat)
    requires s.offset == 0
    ensures var u := Collect(encode, s, slice); u.sent == s.sent && u.matching == s.matching && u.chunk == s.chunk && u.offset == 0
  {
  }

  lemma CollectRecords(encode: Encoding, s: Server, slice: nat)
    requires s.matching && s.credit > 0 && s.chunk > 0 && s.pending == "" && s.offset == 0 && !s.done
    ensures var (t, out) := Tick(encode, s, slice);
      && t.sent == s.sent + PartsIn(out) && (Message(s.generation, Complete) in out ==> PartsIn(out) == [])
      && (forall i :: 0 <= i < |out| && (out[i].body.Complete? || out[i].body.Error?) ==> i == |out| - 1 && !t.matching)
      && (s.matching && !t.matching ==> out != [] && (out[|out| - 1].body.Complete? || out[|out| - 1].body.Error?))
  {
    hide PartsIn, FlushParts, Collect;
    var (t, out) := Tick(encode, s, slice);
    var resumed := if s.waiting then [Message(s.generation, Phase(false))] else [];
    var u := Collect(encode, s.(waiting := false), slice);
    CollectKept(encode, s.(waiting := false), slice);
    NoParts(resumed);
    if u.done && s.fails {
      NoParts(out);
    } else {
      FlushRecords(u);
      var more := FlushParts(u).1;
      PartsConcat(resumed, more);
      assert forall i :: |resumed| <= i < |out| ==> out[i] == more[i - |resumed|] && out[i] in more;
      assert forall m :: m in out ==> !m.body.Complete?;
    }
  }
}
