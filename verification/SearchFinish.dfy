/** How a document search ends: worker, client and pipes need only do what they owe, in any
    order, and the client becomes idle with the outcome of its request, unless the answer comes
    under another number. */
module SearchFinish {
  import opened DocumentSearch
  import opened SearchProtocol

  // ------------------------------------------------------- what is still to do

  /** The requests and cancellations among frames. */
  function Commands(queue: seq<Frame>): nat {
    if queue == [] then 0 else (if queue[0].Credit? then 0 else 1) + Commands(queue[1..])
  }

  /** What is left to do, the weightiest first: commands to deliver, hits to take, bytes to
      send, and traffic to take in. */
  datatype Load = Load(commands: nat, hits: nat, bytes: int, traffic: nat)

  function LoadOf(sys: System): Load {
    Load(Commands(sys.queue), if sys.server.matching then |sys.server.hits| + (if sys.server.done then 1 else 2) else 0,
         |sys.server.pending| - sys.server.offset, 2 * |Unheard(sys)| + |sys.queue|)
  }

  predicate Below(a: Load, b: Load) {
    || a.commands < b.commands
    || (a.commands == b.commands && a.hits < b.hits)
    || (a.commands == b.commands && a.hits == b.hits && a.bytes < b.bytes)
    || (a.commands == b.commands && a.hits == b.hits && a.bytes == b.bytes && a.traffic < b.traffic)
  }

  /** A step that worker, client or pipes owe. A worker with credit goes on by itself, but for
      credits that are still out when everything has been sent. */
  predicate Owed(sys: System, e: Event) {
    match e
    case Work(slice) =>
      slice > 0 && sys.server.matching && sys.server.credit > 0
      && (sys.server.pending != "" || !sys.server.done || sys.server.credit == MAX_CREDIT)
    case Deliver => sys.queue != []
    case Hear => sys.read < |sys.log|
    case _ => false
  }

  lemma {:induction false} CommandsNext(queue: seq<Frame>, f: Frame)
    ensures Commands(queue + [f]) == Commands(queue) + if f.Credit? then 0 else 1
  {
    if queue == [] {
      assert (queue + [f])[1..] == [];
    } else {
      assert (queue + [f])[1..] == queue[1..] + [f];
      CommandsNext(queue[1..], f);
    }
  }

  lemma {:induction false} FlushSends(s: Server)
    requires s.chunk > 0 && s.offset <= |s.pending|
    ensures var t := FlushParts(s).0;
      t == s.(offset := t.offset, credit := t.credit, sent := t.sent) && t.offset >= s.offset
      && (s.credit > 0 && s.offset < |s.pending| ==> t.offset > s.offset)
    decreases |s.pending| - s.offset
  {
    if s.credit > 0 && s.offset < |s.pending| { FlushSends(PartGone(s)); }
  }

  lemma WorkLowers(encode: Encoding, sys: System, slice: nat)
    requires Sound(encode, sys) && Owed(sys, Work(slice))
    ensures Usable(sys) && Below(LoadOf(Step(encode, true, sys, Work(slice))), LoadOf(sys))
  {
    hide Streaming, Commands, FlushParts;
    var s := sys.server;
    ValidUsable(encode, s, HitsOf(sys.asking));
    if s.pending != "" {
      FlushSends(s);
    } else if !s.done {
      var v := s.(waiting := false);
      CollectKept(encode, v, slice);
      FlushSends(Collect(encode, v, slice));
    }
  }

  lemma DeliverLowers(encode: Encoding, sys: System)
    requires Sound(encode, sys) && Owed(sys, Deliver)
    ensures Usable(sys) && Below(LoadOf(Step(encode, true, sys, Deliver)), LoadOf(sys))
  {
    hide Valid, Served, Streamed, Requested, Answered;
    ValidUsable(encode, sys.server, HitsOf(sys.asking));
    Heads(encode, sys);
    if sys.queue[0].Credit? { assert Unheard(Delivered1(sys)) == Unheard(sys); }
  }

  lemma HearLowers(encode: Encoding, sys: System)
    requires Sound(encode, sys) && Owed(sys, Hear)
    ensures Usable(sys) && Below(LoadOf(Step(encode, true, sys, Hear)), LoadOf(sys))
  {
    hide Valid, Served, Streamed, Requested, Answered, Commands;
    ValidUsable(encode, sys.server, HitsOf(sys.asking));
    HeardEffect(sys);
    CommandsNext(sys.queue, Credit(sys.generation, 1));
  }

  /** Every owed step, in whatever order they come, lowers what is still to do. */
  lemma OwedLowers(encode: Encoding, sys: System, e: Event)
    requires Sound(encode, sys) && Owed(sys, e)
    ensures Usable(sys) && Below(LoadOf(Step(encode, true, sys, e)), LoadOf(sys))
  {
    hide Sound, Step, LoadOf, Below;
    match e
    case Work(slice) => WorkLowers(encode, sys, slice);
    case Deliver => DeliverLowers(encode, sys);
    case Hear => HearLowers(encode, sys);
  }

  // ------------------------------------------------------ what has been promised

  /** Whether the matcher of a request gives all its hits. */
  predicate Succeeds(request: Request) {
    request.Matching? && !request.fails
  }

  /** The worker refuses the request as it stands, and its number is still that of an earlier
      one: the answer comes under the old number. */
  predicate Muted(sys: System) {
    !sys.canceling && sys.asking.Invalid? && sys.server.generation != sys.generation
  }

  /** The end of the current request. */
  predicate Answers(sys: System, m: Message) {
    Final(m) && m.generation == sys.generation && (m.body.Complete? <==> Succeeds(sys.asking))
  }

  /** What the worker still has for an uncancelled request it got. */
  ghost predicate Promised(sys: System) {
    sys.busy && !sys.canceling && sys.begun == sys.asked ==>
      if sys.server.matching then
        sys.asking.Matching? && sys.server.generation == sys.generation && sys.server.fails == sys.asking.fails && (sys.server.done ==> !sys.server.fails)
      else Muted(sys) || (Unheard(sys) != [] && Answers(sys, Unheard(sys)[|Unheard(sys)| - 1]))
  }

  /** A tick goes on, or ends as the matcher decides. */
  lemma TickEnds(encode: Encoding, s: Server, slice: nat)
    requires s.chunk > 0 && s.offset <= |s.pending| && s.matching && (s.done ==> !s.fails) && (s.pending == "" ==> s.offset == 0)
    ensures var (t, out) := Tick(encode, s, slice);
      if t.matching then t.generation == s.generation && t.fails == s.fails && (t.done ==> !t.fails)
      else t.generation == s.generation && out != [] && Final(out[|out| - 1])
           && out[|out| - 1].generation == s.generation && (out[|out| - 1].body.Complete? <==> !s.fails)
  {
    hide FlushParts;
    if s.credit > 0 {
      if s.pending != "" {
        FlushSends(s);
      } else if !s.done {
        var v := s.(waiting := false);
        CollectKept(encode, v, slice);
        FlushSends(Collect(encode, v, slice));
      }
    }
  }

  lemma WorkPromised(encode: Encoding, sys: System, slice: nat)
    requires Sound(encode, sys) && Promised(sys)
    ensures Usable(sys) && Promised(Step(encode, true, sys, Work(slice)))
  {
    ValidUsable(encode, sys.server, HitsOf(sys.asking));
    OffsetZero(encode, sys.server, HitsOf(sys.asking));
    hide Sound, Valid, Tick, PartsIn;
    assert sys.read <= |sys.log| == |sys.origins| by { Counted(encode, sys); }
    SentGrows(sys, Tick(encode, sys.server, slice));
    if sys.server.matching {
      if sys.busy && !sys.canceling && sys.begun == sys.asked { TickEnds(encode, sys.server, slice); }
    } else {
      NoTick(encode, sys.server, slice);
    }
  }

  lemma OffsetZero(encode: Encoding, s: Server, all: seq<Hit>)
    requires Valid(encode, s, all)
    ensures s.pending == "" ==> s.offset == 0
  {
  }

  lemma NoTick(encode: Encoding, s: Server, slice: nat)
    requires s.chunk > 0 && s.offset <= |s.pending| && !s.matching
    ensures Tick(encode, s, slice) == (s, [])
  {
  }

  lemma Counted(encode: Encoding, sys: System)
    requires Sound(encode, sys)
    ensures sys.read <= |sys.log| == |sys.origins| && Valid(encode, sys.server, HitsOf(sys.asking))
  {
  }

  /** What a delivered request makes of an idle worker. */
  lemma RequestAnswered(s: Server, g: nat, request: Request)
    requires !s.matching
    ensures var (t, out) := Receive(s, Search(g, request));
      if t.matching then request.Matching? && t.generation == g && t.fails == request.fails && !t.done
      else !request.Matching? && out == [Message(t.generation, Error)] && t.generation == if request.Invalid? then s.generation else g
  {
  }

  lemma DeliverPromised(encode: Encoding, sys: System)
    requires Sound(encode, sys) && Promised(sys) && sys.queue != []
    ensures Usable(sys) && Promised(Step(encode, true, sys, Deliver))
  {
    hide Valid, PartsIn, Streamed, Served, Answered;
    ValidUsable(encode, sys.server, HitsOf(sys.asking));
    Heads(encode, sys);
    var r := Receive(sys.server, sys.queue[0]);
    SentGrows(sys, r);
    match sys.queue[0]
    case Credit(_, _) =>
    case Cancel(_) =>
    case Search(g, request) =>
      RequestAnswered(sys.server, g, request);
      assert Unheard(Delivered1(sys)) == Unheard(Sent(sys, r)) == [] + r.1;
  }

  lemma HearPromised(encode: Encoding, sys: System)
    requires Sound(encode, sys) && Promised(sys)
    ensures Usable(sys) && Promised(Step(encode, true, sys, Hear))
  {
    hide Valid, PartsIn, Streamed, Served, Answered, Requested;
    ValidUsable(encode, sys.server, HitsOf(sys.asking));
    if sys.read < |sys.log| {
      var next := Heard(sys, sys.log[sys.read]);
      HeardEffect(sys);
      assert Unheard(sys)[1..] == Unheard(next);
    }
  }

  lemma StepPromised(encode: Encoding, sys: System, e: Event)
    requires Sound(encode, sys) && Promised(sys)
    ensures Usable(sys) && Promised(Step(encode, true, sys, e))
  {
    Counted(encode, sys);
    ValidUsable(encode, sys.server, HitsOf(sys.asking));
    match e
    case Work(slice) => hide *; WorkPromised(encode, sys, slice);
    case Deliver => hide Sound, Receive, Promised; if sys.queue != [] { DeliverPromised(encode, sys); }
    case Hear => hide *; HearPromised(encode, sys);
    case Ask(request, g) => if !sys.busy { IdleAsked(encode, sys); }
    case Stop =>
  }

  lemma IdleAsked(encode: Encoding, sys: System)
    requires Sound(encode, sys) && !sys.busy
    ensures sys.begun == sys.asked
  {
  }

  lemma {:induction false} RunPromised(encode: Encoding, sys: System, events: seq<Event>)
    requires Sound(encode, sys) && Promised(sys)
    ensures Promised(Run(encode, true, sys, events))
    decreases |events|
  {
    hide Sound, Step, Promised;
    if events != [] && Usable(sys) {
      StepKeeps(encode, sys, events[0]);
      StepPromised(encode, sys, events[0]);
      RunPromised(encode, Step(encode, true, sys, events[0]), events[1..]);
    }
  }

  // -------------------------------------------------------------------- ending

  /** A busy client that is not muted is owed a step. */
  lemma SomethingOwed(encode: Encoding, sys: System) returns (e: Event)
    requires Sound(encode, sys) && Promised(sys) && sys.busy && !Muted(sys)
    ensures Owed(sys, e)
  {
    hide Valid, Closes;
    if sys.read < |sys.log| {
      e := Hear;
    } else if sys.queue != [] {
      e := Deliver;
    } else {
      assert Unheard(sys) == [] && PartsIn([]) == [];
      e := Work(1);
    }
  }

  /** The client has heard how its request ended. */
  ghost predicate Concluded(encode: Encoding, sys: System, end: System) {
    && !end.busy && 0 < end.read <= |end.log|
    && var m := end.log[end.read - 1];
       if sys.canceling then m.body.Canceled?
       else Answers(sys, m) && (m.body.Complete? ==> Delivered(encode, end.got, sys.asking.hits))
  }

  /** The step that makes the client idle concludes its request. */
  lemma IdleConcludes(encode: Encoding, sys: System, e: Event)
    requires Sound(encode, sys) && Promised(sys) && sys.busy && !Muted(sys) && Owed(sys, e)
    ensures Usable(sys)
    ensures var next := Step(encode, true, sys, e); if next.busy then SameRequest(sys, next) else Concluded(encode, sys, next)
  {
    hide Valid, PartsIn, Delivered, Tick, Receive;
    ValidUsable(encode, sys.server, HitsOf(sys.asking));
    if e.Hear? {
      var m := sys.log[sys.read];
      HeardEffect(sys);
      assert m == Unheard(sys)[0] && m in Unheard(sys);
    }
  }

  predicate SameRequest(sys: System, next: System) {
    next.asking == sys.asking && next.generation == sys.generation && next.canceling == sys.canceling
  }

  predicate AllOwed(encode: Encoding, sys: System, events: seq<Event>)
    decreases |events|
  {
    events == [] || (Usable(sys) && Owed(sys, events[0]) && AllOwed(encode, Step(encode, true, sys, events[0]), events[1..]))
  }

  /** Being muted is a matter of the request and the worker's number, which owed steps keep. */
  lemma StaysMuted(encode: Encoding, sys: System, e: Event)
    requires Sound(encode, sys) && sys.busy && Owed(sys, e)
    ensures Usable(sys)
    ensures var next := Step(encode, true, sys, e); next.busy ==> (Muted(next) <==> Muted(sys))
    ensures Muted(sys) ==> Step(encode, true, sys, e).busy
  {
    hide Valid, PartsIn, Closes;
    ValidUsable(encode, sys.server, HitsOf(sys.asking));
    if sys.queue != [] { Heads(encode, sys); }
    match e
    case Work(slice) => if sys.server.matching { TickKeeps(encode, sys.server, HitsOf(sys.asking), slice); }
    case Deliver => 
    case Hear =>
      var m := sys.log[sys.read];
      assert m == Unheard(sys)[0] && m in Unheard(sys);
  }

  lemma {:induction false} CanEnd(encode: Encoding, sys: System) returns (events: seq<Event>)
    requires Sound(encode, sys) && Promised(sys) && sys.busy && !Muted(sys)
    ensures AllOwed(encode, sys, events) && Concluded(encode, sys, Run(encode, true, sys, events))
    decreases LoadOf(sys).commands, LoadOf(sys).hits, LoadOf(sys).bytes, LoadOf(sys).traffic
  {
    hide Sound, Step, Promised, LoadOf, Muted, Owed, Concluded;
    var e := SomethingOwed(encode, sys);
    OwedLowers(encode, sys, e);
    var next := Step(encode, true, sys, e);
    IdleConcludes(encode, sys, e);
    events := [e];
    if next.busy {
      StepKeeps(encode, sys, e);
      StepPromised(encode, sys, e);
      StaysMuted(encode, sys, e);
      BytesLeft(encode, next);
      var more := CanEnd(encode, next);
      SameConcluded(encode, sys, next, Run(encode, true, next, more));
      events := [e] + more;
      assert events[1..] == more && events[0] == e;
    } else {
      assert [e][1..] == [];
    }
  }

  lemma BytesLeft(encode: Encoding, sys: System)
    requires Sound(encode, sys)
    ensures LoadOf(sys).bytes >= 0
  {
    ValidUsable(encode, sys.server, HitsOf(sys.asking));
  }

  lemma SameConcluded(encode: Encoding, sys: System, next: System, end: System)
    requires SameRequest(sys, next) && Concluded(encode, next, end)
    ensures Concluded(encode, sys, end)
  {
    hide Delivered;
  }

  /** A muted client stays busy. */
  lemma {:induction false} MutedWaits(encode: Encoding, sys: System, events: seq<Event>)
    requires Sound(encode, sys) && sys.busy && Muted(sys) && AllOwed(encode, sys, events)
    ensures Run(encode, true, sys, events).busy
    decreases |events|
  {
    hide Sound, Step, Muted, Owed;
    if events != [] {
      StepKeeps(encode, sys, events[0]);
      StaysMuted(encode, sys, events[0]);
      MutedWaits(encode, Step(encode, true, sys, events[0]), events[1..]);
    }
  }

  lemma FreshPromised(chunk: nat)
    ensures Promised(Fresh(chunk))
  {
  }

  /** From every state of every patient run with a request or a cancellation open, finitely many
      owed steps make the client idle exactly if it is not muted. It has then heard the
      reply to its cancellation; or the completion, with exactly the encoded hits taken, if
      the matcher gives them all; or else an error. */
  lemma EverySearchEnds(encode: Encoding, chunk: nat, events: seq<Event>)
    requires Proper(encode) && chunk > 0
    ensures var sys := Run(encode, true, Fresh(chunk), events);
      sys.busy ==>
        && ((exists more :: AllOwed(encode, sys, more) && !Run(encode, true, sys, more).busy) <==> !Muted(sys))
        && (!Muted(sys) ==> exists more :: AllOwed(encode, sys, more) && Concluded(encode, sys, Run(encode, true, sys, more)))
  {
    hide Sound, Run, Promised, Muted, AllOwed;
    FreshSound(encode, chunk);
    FreshPromised(chunk);
    RunKeeps(encode, Fresh(chunk), events);
    RunPromised(encode, Fresh(chunk), events);
    var sys := Run(encode, true, Fresh(chunk), events);
    if sys.busy {
      if Muted(sys) {
        forall more | AllOwed(encode, sys, more)
          ensures Run(encode, true, sys, more).busy
        {
          MutedWaits(encode, sys, more);
        }
      } else {
        var more := CanEnd(encode, sys);
      }
    }
  }

  /** It does happen: the first request, refused as it stands and given any number but zero. */
  lemma FirstRefusalIsMuted(encode: Encoding, chunk: nat, g: nat)
    requires Proper(encode) && chunk > 0 && g > 0
    ensures var sys := Run(encode, true, Fresh(chunk), [Ask(Invalid, g), Deliver, Hear]); sys.busy && Muted(sys) && sys.read == |sys.log| == 1
  {
    var events := [Ask(Invalid, g), Deliver, Hear];
    var s0 := Fresh(chunk);
    var s1 := Step(encode, true, s0, events[0]);
    assert s1 == Asked(s0, Invalid, g) && s1.queue == [Search(g, Invalid)];
    var s2 := Step(encode, true, s1, events[1]);
    assert s2.log == [Message(0, Error)] && s2.server.generation == 0;
    var s3 := Step(encode, true, s2, events[2]);
    assert events[1..][0] == Deliver && events[2..][0] == Hear && events[2..][1..] == [];
    assert Run(encode, true, s0, events) == Run(encode, true, s1, events[1..]) == Run(encode, true, s2, events[2..]);
    assert Run(encode, true, s2, events[2..]) == Run(encode, true, s3, []) == s3;
  }
}
