/** The document search worker as the program runs it: one object driven by frames and ticks. */
module SearchWorker {
  import opened DocumentSearch

  lemma Regroup<T>(a: seq<T>, b: seq<T>, c: seq<T>)
    ensures a + (b + c) == (a + b) + c
  {
  }

  lemma PartAdvances(s: Server)
    requires s.chunk > 0 && s.credit > 0 && s.offset < |s.pending|
    ensures s.offset < PartGone(s).offset <= |s.pending| && PartGone(s) == s.(offset := PartGone(s).offset, credit := s.credit - 1, sent := PartGone(s).sent)
  {
  }

  class Worker {
    const encode: Encoding
    const chunk: nat
    var generation: nat
    var credit: nat
    var matching: bool
    var hits: seq<Hit>
    var fails: bool
    var done: bool
    var waiting: bool
    var pending: string
    var offset: nat
    var output: seq<Message>
    ghost var sent: seq<Part>
    ghost var batches: seq<seq<Hit>>

    constructor (encode: Encoding, chunk: nat)
      requires chunk > 0
      ensures this.encode == encode && State() == Server(chunk, 0, MAX_CREDIT, false, [], false, false, false, "", 0, [], []) && output == []
    {
      this.encode, this.chunk := encode, chunk;
      generation, credit, matching, hits, fails, done, waiting := 0, MAX_CREDIT, false, [], false, false, false;
      pending, offset, output, sent, batches := "", 0, [], [], [];
    }

    ghost function State(): Server
      reads this
    {
      Server(chunk, generation, credit, matching, hits, fails, done, waiting, pending, offset, sent, batches)
    }

    method Send(body: Body)
      modifies this`output
      ensures output == old(output) + [Message(generation, body)]
    {
      output := output + [Message(generation, body)];
    }

    method Reset()
      modifies this`matching, this`hits, this`done, this`pending, this`offset
      ensures State() == Idle(old(State()))
    {
      matching, hits, done, pending, offset := false, [], false, "", 0;
    }

    method Refuse()
      modifies this`matching, this`hits, this`done, this`pending, this`offset, this`output
      ensures (State(), output) == (Idle(old(State())), old(output) + [Message(generation, Error)])
    {
      Reset();
      Send(Error);
    }

    method Receive(f: Frame)
      modifies this
      ensures var r := DocumentSearch.Receive(old(State()), f); State() == r.0 && output == old(output) + r.1
    {
      match f {
        case Cancel(g) =>
          Reset();
          credit, waiting, generation := MAX_CREDIT, false, g;
          Send(Canceled);
        case Credit(g, count) =>
          if count > MAX_CREDIT { Refuse(); return; }
          if g == generation { credit := if credit + count < MAX_CREDIT then credit + count else MAX_CREDIT; }
        case Search(g, request) => Begin(g, request);
      }
    }

    method Begin(g: nat, request: Request)
      modifies this
      ensures var r := DocumentSearch.Receive(old(State()), Search(g, request)); State() == r.0 && output == old(output) + r.1
    {
      if matching || request.Invalid? { Refuse(); return; }
      Open(g);
      if !request.Matching? { Refuse(); return; }
      Arm(request.hits, request.fails);
      Announce();
    }

    method Open(g: nat)
      modifies this`generation, this`credit, this`done, this`waiting, this`sent, this`batches
      ensures State() == old(State()).(generation := g, credit := MAX_CREDIT, done := false, waiting := false, sent := [], batches := [])
    {
      generation, credit, done, waiting := g, MAX_CREDIT, false, false;
      sent, batches := [], [];
    }

    method Arm(found: seq<Hit>, broken: bool)
      modifies this`matching, this`hits, this`fails
      ensures State() == old(State()).(matching := true, hits := found, fails := broken)
    {
      matching, hits, fails := true, found, broken;
    }

    method Announce()
      modifies this`output
      ensures output == old(output) + [Message(generation, Metadata), Message(generation, Phase(false))]
    {
      Send(Metadata);
      Send(Phase(false));
    }

    method SendPart()
      requires chunk > 0 && credit > 0 && offset < |pending|
      modifies this`offset, this`credit, this`output, this`sent
      ensures State() == PartGone(old(State())) && offset <= |pending|
      ensures output == old(output) + [Message(generation, Batch(NextPart(old(State()))))]
    {
      var end := if offset + chunk <= |pending| then offset + chunk else |pending|;
      var part := Part(|pending|, offset, pending[offset..end]);
      offset := end;
      credit := credit - 1;
      sent := sent + [part];
      Send(Batch(part));
    }

    method Flush()
      requires chunk > 0 && offset <= |pending|
      modifies this`pending, this`offset, this`credit, this`output, this`sent
      ensures var r := DocumentSearch.Flush(old(State())); State() == r.0 && output == old(output) + r.1
    {
      hide NextPart, PartGone;
      ghost var all := FlushParts(State());
      while credit > 0 && offset < |pending|
        invariant chunk > 0 && offset <= |pending| && FlushParts(State()).0 == all.0
        invariant output + FlushParts(State()).1 == old(output) + all.1
        decreases |pending| - offset
      {
        ghost var m := Message(generation, Batch(NextPart(State())));
        PartAdvances(State());
        Regroup(output, [m], FlushParts(PartGone(State())).1);
        SendPart();
      }
      assert output + [] == output;
      if offset == |pending| { pending, offset := "", 0; }
    }

    /** Pulls hits until the batch is full, the time slice is over or the matcher ends. */
    method Collect(slice: nat)
      requires !done && pending == "" && offset == 0
      modifies this`hits, this`done, this`pending, this`offset, this`batches
      ensures State() == DocumentSearch.Collect(encode, old(State()), slice)
    {
      var batch := Pull(slice);
      if batch != [] {
        pending, offset := encode(batch), 0;
        batches := batches + [batch];
      }
    }

    method Pull(slice: nat) returns (batch: seq<Hit>)
      requires !done
      modifies this`hits, this`done
      ensures |batch| <= |old(hits)| && batch == old(hits)[..|batch|]
      ensures var n := if slice < MAX_HITS then slice else MAX_HITS; |batch| == if n <= |old(hits)| then n else |old(hits)|
      ensures State() == old(State()).(hits := old(hits)[|batch|..], done := (if slice < MAX_HITS then slice else MAX_HITS) > |old(hits)|)
    {
      batch := [];
      while |batch| < slice && |batch| < MAX_HITS && !done
        invariant |batch| <= |old(hits)| && batch == old(hits)[..|batch|] && hits == old(hits)[|batch|..]
        invariant |batch| <= slice && |batch| <= MAX_HITS
        invariant done ==> |batch| == |old(hits)| && |batch| < slice && |batch| < MAX_HITS
        invariant State() == old(State()).(hits := hits, done := done)
        decreases slice - |batch|, !done
      {
        if hits == [] {
          done := true;
        } else {
          batch, hits := batch + [hits[0]], hits[1..];
        }
      }
    }

    method Tick(slice: nat)
      requires chunk > 0 && offset <= |pending| && (pending == "" ==> offset == 0)
      modifies this
      ensures var r := DocumentSearch.Tick(encode, old(State()), slice); State() == r.0 && output == old(output) + r.1
    {
      if !matching { return; }
      if credit == 0 {
        if !waiting {
          waiting := true;
          Send(Phase(true));
        }
        return;
      }
      if pending != "" { Flush(); return; }
      if done {
        if credit == MAX_CREDIT {
          matching := false;
          Send(FileComplete);
          Send(Complete);
        }
        return;
      }
      Match(slice);
    }

    /** Goes on matching: announces it, takes a batch, and sends what it can. */
    method Match(slice: nat)
      requires chunk > 0 && matching && credit > 0 && pending == "" && offset == 0 && !done
      modifies this
      ensures var r := DocumentSearch.Tick(encode, old(State()), slice); State() == r.0 && output == old(output) + r.1
    {
      hide DocumentSearch.Collect, DocumentSearch.Flush;
      ghost var resumed: seq<Message> := if waiting then [Message(generation, Phase(false))] else [];
      if waiting {
        waiting := false;
        Send(Phase(false));
      }
      assert output == old(output) + resumed;
      Collect(slice);
      if done && fails {
        Regroup(old(output), resumed, [Message(generation, Error)]);
        Refuse();
        return;
      }
      CollectUsable(encode, old(State()).(waiting := false), slice);
      Regroup(old(output), resumed, DocumentSearch.Flush(State()).1);
      Flush();
    }
  }

  lemma CollectUsable(encode: Encoding, s: Server, slice: nat)
    requires s.pending == "" && s.offset == 0
    ensures var t := DocumentSearch.Collect(encode, s, slice); t.offset == 0 && t.generation == s.generation && t.chunk == s.chunk
  {
  }
}
