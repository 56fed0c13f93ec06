/** The document search worker and its client, connected by two pipes. A client asks only when
    it is not busy, and is busy until it hears a completion, an error or a cancel reply. */
module SearchProtocol {
  import opened DocumentSearch

  /** `log` holds every message ever sent, `origins` the number of search requests the worker
      had got by then, and `read` how many messages the client has heard. Since its last
      request (the `asked`-th, `asking`) the client has taken the parts `got`. */
  datatype System = System(
    server: Server, log: seq<Message>, origins: seq<nat>, begun: nat, queue: seq<Frame>,
    read: nat, generation: nat, busy: bool, canceling: bool, asking: Request, asked: nat, got: seq<Part>)

  datatype Event = Work(slice: nat) | Deliver | Hear | Ask(request: Request, generation: nat) | Stop

  function Fresh(chunk: nat): System {
    System(Server(chunk, 0, MAX_CREDIT, false, [], false, false, false, "", 0, [], []), [], [], 0, [], 0, 0, false, false, Invalid, 0, [])
  }

  // --------------------------------------------------------------- the client

  /** The client looks at a message that is not a cancel reply. */
  predicate Heeded(sys: System, m: Message) {
    !m.body.Canceled? && m.generation == sys.generation && !sys.canceling
  }

  predicate Final(m: Message) {
    m.body.Complete? || m.body.Error?
  }

  /** A part is taken and paid for at once; a cancel reply and a heeded end make the client idle. */
  function Heard(sys: System, m: Message): System {
    var next := sys.(read := sys.read + 1);
    if m.body.Canceled? then next.(busy := false)
    else if !Heeded(sys, m) then next
    else if m.body.Batch? then next.(got := sys.got + [m.body.part], queue := sys.queue + [Credit(sys.generation, 1)])
    else if Final(m) then next.(busy := false)
    else next
  }

  /** A request goes out under the number its caller gives, raised or not. */
  function Asked(sys: System, request: Request, g: nat): System {
    sys.(queue := sys.queue + [Search(g, request)], generation := g, busy := true, canceling := false,
         asking := request, asked := sys.asked + 1, got := [])
  }

  /** A cancellation goes out under the number of the search. */
  function Stopped(sys: System): System {
    sys.(queue := sys.queue + [Cancel(sys.generation)], busy := true, canceling := true)
  }

  // ------------------------------------------------------------------- a step

  function Sent(sys: System, r: Reply): System {
    sys.(server := r.0, log := sys.log + r.1, origins := sys.origins + seq(|r.1|, _ => sys.begun))
  }

  function Delivered1(sys: System): System
    requires sys.queue != []
  {
    var next := sys.(queue := sys.queue[1..], begun := if sys.queue[0].Search? then sys.begun + 1 else sys.begun);
    Sent(next, Receive(sys.server, sys.queue[0]))
  }

  /** One step of either side. `patient`: nobody cancels while a cancel reply is awaited. */
  function Step(encode: Encoding, patient: bool, sys: System, e: Event): System
    requires sys.server.chunk > 0 && sys.server.offset <= |sys.server.pending|
  {
    match e
    case Work(slice) => Sent(sys, Tick(encode, sys.server, slice))
    case Deliver => if sys.queue == [] then sys else Delivered1(sys)
    case Hear => if sys.read < |sys.log| then Heard(sys, sys.log[sys.read]) else sys
    case Ask(request, g) => if sys.busy then sys else Asked(sys, request, g)
    case Stop => if !sys.busy || (patient && sys.canceling) then sys else Stopped(sys)
  }

  // ---------------------------------------------------------- the invariant

  function Unheard(sys: System): seq<Message> {
    if sys.read <= |sys.log| then sys.log[sys.read..] else []
  }

  function HitsOf(request: Request): seq<Hit> {
    if request.Matching? then request.hits else []
  }

  ghost predicate Payments(queue: seq<Frame>) {
    forall f :: f in queue ==> f.Credit? && f.count == 1
  }

  /** The client is idle: nothing is on its way to it, and nothing but old payments from it. */
  ghost predicate Quiet(sys: System) {
    !sys.server.matching && sys.begun == sys.asked && Unheard(sys) == [] && Payments(sys.queue)
  }

  /** The request of the client is the last frame of `queue`. */
  ghost predicate Requested(sys: System, queue: seq<Frame>) {
    && !sys.server.matching && sys.begun + 1 == sys.asked && Unheard(sys) == [] && sys.got == []
    && queue != [] && Payments(queue[..|queue| - 1]) && queue[|queue| - 1] == Search(sys.generation, sys.asking)
  }

  /** The worker has got the request: all that is on its way to the client belongs to it, no
      more than four parts of it, and every end is the last message. */
  ghost predicate Streamed(sys: System, queue: seq<Frame>) {
    && sys.begun == sys.asked && Payments(queue) && |sys.origins| == |sys.log|
    && (forall i :: sys.read <= i < |sys.log| ==> sys.origins[i] == sys.begun)
    && (forall m :: m in Unheard(sys) ==> m.generation == sys.server.generation && !m.body.Canceled?)
    && (forall i :: 0 <= i < |Unheard(sys)| && Final(Unheard(sys)[i]) ==> i == |Unheard(sys)| - 1 && !sys.server.matching)
    && |PartsIn(Unheard(sys))| <= MAX_CREDIT
    && (sys.server.matching ==> sys.server.credit + |queue| + |PartsIn(Unheard(sys))| <= MAX_CREDIT)
  }

  /** While the worker matches, no credit is lost and no part either. */
  ghost predicate Flows(sys: System) {
    sys.server.matching ==>
      && sys.server.generation == sys.generation && sys.asking.Matching?
      && sys.server.credit + |sys.queue| + |PartsIn(Unheard(sys))| == MAX_CREDIT
      && sys.got + PartsIn(Unheard(sys)) == sys.server.sent
  }

  /** A completion on its way finds every hit with the client. */
  ghost predicate Closes(encode: Encoding, sys: System) {
    forall m :: m in Unheard(sys) && m.body.Complete? ==>
      sys.queue == [] && PartsIn(Unheard(sys)) == [] && sys.asking.Matching? && Delivered(encode, sys.got, sys.asking.hits)
  }

  ghost predicate Served(encode: Encoding, sys: System) {
    (forall f :: f in sys.queue ==> f.Credit? && f.generation == sys.generation) && Flows(sys) && Closes(encode, sys)
  }

  /** The worker has got the cancellation and is idle; its reply is the last message. */
  ghost predicate Answered(sys: System) {
    && !sys.server.matching && sys.begun == sys.asked && sys.queue == [] && |PartsIn(Unheard(sys))| <= MAX_CREDIT
    && Unheard(sys) != [] && Unheard(sys)[|Unheard(sys)| - 1].body.Canceled?
    && (forall i :: 0 <= i < |Unheard(sys)| - 1 ==> !Unheard(sys)[i].body.Canceled?)
  }

  ghost predicate Withdrawn(sys: System) {
    || Answered(sys)
    || (sys.queue != [] && sys.queue[|sys.queue| - 1].Cancel?
        && (Requested(sys, sys.queue[..|sys.queue| - 1]) || Streamed(sys, sys.queue[..|sys.queue| - 1])))
  }

  ghost predicate Sound(encode: Encoding, sys: System) {
    && Valid(encode, sys.server, HitsOf(sys.asking)) && sys.read <= |sys.log| == |sys.origins|
    && if !sys.busy then Quiet(sys)
       else if sys.canceling then Withdrawn(sys)
       else Requested(sys, sys.queue) || (Streamed(sys, sys.queue) && Served(encode, sys))
  }

  // -------------------------------------------------------------- invariance

  lemma SentGrows(sys: System, r: Reply)
    requires sys.read <= |sys.log| == |sys.origins|
    ensures var next := Sent(sys, r);
      && Unheard(next) == Unheard(sys) + r.1 && |next.log| == |next.origins| && PartsIn(Unheard(next)) == PartsIn(Unheard(sys)) + PartsIn(r.1)
      && (forall i :: |sys.log| <= i < |next.log| ==> next.origins[i] == sys.begun)
      && (forall i :: 0 <= i < |sys.log| ==> next.origins[i] == sys.origins[i])
  {
    hide PartsIn;
    assert (sys.log + r.1)[sys.read..] == sys.log[sys.read..] + r.1;
    PartsConcat(Unheard(sys), r.1);
  }

  /** More of the same search goes out. */
  lemma StreamGrows(sys: System, queue: seq<Frame>, r: Reply)
    requires sys.read <= |sys.log| == |sys.origins| && Streamed(sys, queue) && sys.server.matching
    requires forall m :: m in r.1 ==> m.generation == sys.server.generation && !m.body.Canceled?
    requires forall i :: 0 <= i < |r.1| && Final(r.1[i]) ==> i == |r.1| - 1 && !r.0.matching
    requires r.0.generation == sys.server.generation && r.0.credit + |PartsIn(r.1)| == sys.server.credit
    ensures Streamed(Sent(sys, r), queue)
  {
    hide PartsIn;
    SentGrows(sys, r);
    var next, was := Sent(sys, r), Unheard(sys);
    forall m | m in Unheard(next)
      ensures m.generation == next.server.generation && !m.body.Canceled?
    {
      assert m in was || m in r.1;
    }
    forall i | 0 <= i < |Unheard(next)|
      ensures Final(Unheard(next)[i]) ==> i == |Unheard(next)| - 1 && !next.server.matching
    {
      if i < |was| { assert Unheard(next)[i] == was[i]; } else { assert Unheard(next)[i] == r.1[i - |was|]; }
    }
  }

  lemma WorkStreams(encode: Encoding, sys: System, queue: seq<Frame>, slice: nat)
    requires Valid(encode, sys.server, HitsOf(sys.asking)) && sys.read <= |sys.log| == |sys.origins| && Streamed(sys, queue) && sys.server.matching
    ensures Streamed(Sent(sys, Tick(encode, sys.server, slice)), queue)
  {
    ValidUsable(encode, sys.server, HitsOf(sys.asking));
    hide Valid, Tick, PartsIn, Streamed;
    TickKeeps(encode, sys.server, HitsOf(sys.asking), slice);
    TickRecords(encode, sys.server, HitsOf(sys.asking), slice);
    PartsCount(Tick(encode, sys.server, slice).1);
    StreamGrows(sys, queue, Tick(encode, sys.server, slice));
  }

  lemma NoEndYet(sys: System, queue: seq<Frame>, m: Message)
    requires Streamed(sys, queue) && sys.server.matching && m in Unheard(sys)
    ensures !Final(m)
  {
    var i :| 0 <= i < |Unheard(sys)| && Unheard(sys)[i] == m;
  }

  lemma WorkCloses(encode: Encoding, sys: System, r: Reply)
    requires sys.read <= |sys.log| == |sys.origins| && Streamed(sys, sys.queue) && Flows(sys) && sys.server.matching
    requires forall m :: m in r.1 ==> m.generation == sys.server.generation
    requires Message(sys.server.generation, Complete) in r.1 ==>
      PartsIn(r.1) == [] && sys.server.credit == MAX_CREDIT && Delivered(encode, sys.server.sent, HitsOf(sys.asking))
    ensures Closes(encode, Sent(sys, r))
  {
    hide PartsIn, Delivered, Streamed;
    SentGrows(sys, r);
    forall m | m in Unheard(Sent(sys, r)) && m.body.Complete?
      ensures m in r.1 && m == Message(sys.server.generation, Complete)
    {
      if m in Unheard(sys) { NoEndYet(sys, sys.queue, m); }
    }
    if Message(sys.server.generation, Complete) in r.1 {
      assert |PartsIn(Unheard(sys))| == 0 && PartsIn(Unheard(sys)) == [] && sys.queue == [];
      assert sys.got == sys.got + PartsIn(Unheard(sys)) == sys.server.sent;
    }
  }

  lemma WorkServes(encode: Encoding, sys: System, slice: nat)
    requires Valid(encode, sys.server, HitsOf(sys.asking)) && sys.read <= |sys.log| == |sys.origins|
    requires Streamed(sys, sys.queue) && Served(encode, sys) && sys.server.matching
    ensures Served(encode, Sent(sys, Tick(encode, sys.server, slice)))
  {
    ValidUsable(encode, sys.server, HitsOf(sys.asking));
    hide Valid, Tick, PartsIn, Delivered, Streamed, Closes, Unheard;
    var r := Tick(encode, sys.server, slice);
    TickKeeps(encode, sys.server, HitsOf(sys.asking), slice);
    TickRecords(encode, sys.server, HitsOf(sys.asking), slice);
    PartsCount(r.1);
    SentGrows(sys, r);
    WorkCloses(encode, sys, r);
    assert sys.got + (PartsIn(Unheard(sys)) + PartsIn(r.1)) == (sys.got + PartsIn(Unheard(sys))) + PartsIn(r.1);
  }

  lemma WorkKeeps(encode: Encoding, patient: bool, sys: System, slice: nat)
    requires Sound(encode, sys)
    ensures sys.server.chunk > 0 && sys.server.offset <= |sys.server.pending| && Sound(encode, Step(encode, patient, sys, Work(slice)))
  {
    ValidUsable(encode, sys.server, HitsOf(sys.asking));
    if sys.server.matching {
      hide Valid, Tick, PartsIn, Served, Streamed;
      TickKeeps(encode, sys.server, HitsOf(sys.asking), slice);
      SentGrows(sys, Tick(encode, sys.server, slice));
      if sys.canceling {
        WorkStreams(encode, sys, sys.queue[..|sys.queue| - 1], slice);
      } else {
        WorkStreams(encode, sys, sys.queue, slice);
        WorkServes(encode, sys, slice);
      }
    } else {
      assert Sent(sys, (sys.server, [])) == sys;
    }
  }

  lemma ValidUsable(encode: Encoding, s: Server, all: seq<Hit>)
    requires Valid(encode, s, all)
    ensures s.chunk > 0 && s.offset <= |s.pending|
  {
  }

  // ----------------------------------------------------------------- hearing

  lemma HeardShrinks(sys: System)
    requires sys.read < |sys.log|
    ensures var m, was, now := sys.log[sys.read], Unheard(sys), sys.log[sys.read + 1..];
      was == [m] + now && now == was[1..] && PartsIn(was) == (if m.body.Batch? then [m.body.part] else []) + PartsIn(now)
  {
    hide PartsIn;
    var m, now := sys.log[sys.read], sys.log[sys.read + 1..];
    assert Unheard(sys) == [m] + now;
    PartsConcat([m], now);
    OnePart(m);
  }

  /** Hearing a message that is no cancel reply, with a payment or without. */
  lemma HearStreams(sys: System, queue: seq<Frame>, next: System, queue': seq<Frame>)
    requires sys.read < |sys.log| && Streamed(sys, queue)
    requires next == sys.(read := sys.read + 1, busy := next.busy, got := next.got, queue := next.queue)
    requires queue' == queue || (sys.log[sys.read].body.Batch? && exists g :: queue' == queue + [Credit(g, 1)])
    ensures Streamed(next, queue')
  {
    hide PartsIn;
    HeardShrinks(sys);
    assert forall i :: 0 <= i < |Unheard(next)| ==> Unheard(next)[i] == Unheard(sys)[i + 1];
  }

  /** What hearing changes, in terms of what is still unheard. */
  lemma HeardEffect(sys: System)
    requires sys.read < |sys.log|
    ensures var m, next := sys.log[sys.read], Heard(sys, sys.log[sys.read]);
      && Unheard(sys) == [m] + Unheard(next) && m in Unheard(sys)
      && PartsIn(Unheard(sys)) == (if m.body.Batch? then [m.body.part] else []) + PartsIn(Unheard(next))
      && next.server == sys.server && next.asking == sys.asking && next.generation == sys.generation
      && (if m.body.Batch? && Heeded(sys, m) then next.got == sys.got + [m.body.part] && next.queue == sys.queue + [Credit(sys.generation, 1)]
          else next.got == sys.got && next.queue == sys.queue)
  {
    hide PartsIn;
    HeardShrinks(sys);
  }

  lemma HearFlows(sys: System)
    requires sys.read < |sys.log| && Streamed(sys, sys.queue) && Flows(sys) && !sys.canceling
    ensures Flows(Heard(sys, sys.log[sys.read]))
  {
    HeardEffect(sys);
    var m, next := sys.log[sys.read], Heard(sys, sys.log[sys.read]);
    assert m.generation == sys.server.generation && !m.body.Canceled?;
    PartMoves(sys, next, m, PartsIn(Unheard(sys)), PartsIn(Unheard(next)));
  }

  lemma PartMoves(sys: System, next: System, m: Message, was: seq<Part>, now: seq<Part>)
    requires was == (if m.body.Batch? then [m.body.part] else []) + now && next.server == sys.server
    requires if m.body.Batch? && m.generation == sys.generation then next.got == sys.got + [m.body.part] && |next.queue| == |sys.queue| + 1
             else next.got == sys.got && next.queue == sys.queue
    requires m.generation == sys.server.generation
    ensures sys.server.generation == sys.generation ==> |next.queue| + |now| == |sys.queue| + |was| && next.got + now == sys.got + was
  {
    if m.body.Batch? { assert sys.got + ([m.body.part] + now) == (sys.got + [m.body.part]) + now; }
  }

  lemma HearCloses(encode: Encoding, sys: System)
    requires sys.read < |sys.log| && Closes(encode, sys)
    ensures Closes(encode, Heard(sys, sys.log[sys.read]))
  {
    HeardEffect(sys);
    hide PartsIn, Delivered, Heard, Unheard;
    var m, next := sys.log[sys.read], Heard(sys, sys.log[sys.read]);
    forall x | x in Unheard(next) && x.body.Complete?
      ensures x in Unheard(sys)
    {
    }
  }

  lemma HearServes(encode: Encoding, sys: System)
    requires sys.read < |sys.log| && Streamed(sys, sys.queue) && Served(encode, sys) && !sys.canceling
    ensures Served(encode, Heard(sys, sys.log[sys.read]))
  {
    hide PartsIn, Delivered, Streamed, Flows, Closes;
    HearFlows(sys);
    HearCloses(encode, sys);
  }

  lemma HearKeeps(encode: Encoding, patient: bool, sys: System)
    requires Sound(encode, sys)
    ensures sys.server.chunk > 0 && sys.server.offset <= |sys.server.pending| && Sound(encode, Step(encode, patient, sys, Hear))
  {
    ValidUsable(encode, sys.server, HitsOf(sys.asking));
    if sys.read < |sys.log| {
      var m := sys.log[sys.read];
      var next := Heard(sys, m);
      assert m == Unheard(sys)[0];
      HeardShrinks(sys);
      if sys.canceling {
        HearWithdrawn(encode, sys);
      } else {
        hide Valid, PartsIn;
        assert Streamed(sys, sys.queue);
        assert m in Unheard(sys);
        HearStreams(sys, sys.queue, next, next.queue);
        HearServes(encode, sys);
      }
    }
  }

  lemma HearAnswered(sys: System)
    requires sys.busy && sys.canceling && Answered(sys) && sys.read < |sys.log|
    ensures var next := Heard(sys, sys.log[sys.read]); if next.busy then Answered(next) else Quiet(next)
  {
    hide PartsIn, Streamed;
    HeardShrinks(sys);
    var next := Heard(sys, sys.log[sys.read]);
    assert sys.log[sys.read] == Unheard(sys)[0] && Unheard(next) == Unheard(sys)[1..];
  }

  lemma HearWithdrawn(encode: Encoding, sys: System)
    requires sys.busy && sys.canceling && Withdrawn(sys) && sys.read < |sys.log|
    ensures var next := Heard(sys, sys.log[sys.read]); if next.busy then Withdrawn(next) else Quiet(next)
  {
    hide PartsIn, Answered, Streamed;
    var next := Heard(sys, sys.log[sys.read]);
    if Answered(sys) {
      HearAnswered(sys);
    } else {
      assert Unheard(sys) != [] && sys.log[sys.read] in Unheard(sys) by { assert sys.log[sys.read] == Unheard(sys)[0]; }
      var front := sys.queue[..|sys.queue| - 1];
      NotReplied(sys, front, sys.log[sys.read]);
      HearStreams(sys, front, next, front);
    }
  }

  lemma NotReplied(sys: System, queue: seq<Frame>, m: Message)
    requires Streamed(sys, queue) && m in Unheard(sys)
    ensures !m.body.Canceled?
  {
  }

  // ---------------------------------------------------------------- delivery

  /** A payment reaches the worker, which answers nothing. */
  lemma PaymentReceived(encode: Encoding, s: Server, all: seq<Hit>, f: Frame)
    requires Valid(encode, s, all) && f.Credit? && f.count == 1
    ensures var (t, out) := Receive(s, f);
      && out == [] && Valid(encode, t, all) && t == s.(credit := t.credit) && t.credit <= s.credit + 1
      && (f.generation == s.generation && s.credit < MAX_CREDIT ==> t.credit == s.credit + 1)
  {
    hide Streaming;
    assert s.matching ==> Streaming(encode, s, all) && Streaming(encode, s.(credit := Receive(s, f).0.credit), all) by { SameFlow(encode, s, all); }
  }

  lemma SameFlow(encode: Encoding, s: Server, all: seq<Hit>)
    ensures Streaming(encode, s, all) ==> forall c: nat :: Streaming(encode, s.(credit := c), all)
  {
  }

  lemma PaymentKeeps(encode: Encoding, sys: System)
    requires Sound(encode, sys) && sys.queue != [] && sys.queue[0].Credit?
    ensures Sound(encode, Delivered1(sys))
  {
    hide Valid, PartsIn, Receive, Closes;
    var f, rest := sys.queue[0], sys.queue[1..];
    Heads(encode, sys);
    PaymentReceived(encode, sys.server, HitsOf(sys.asking), f);
    var next := Delivered1(sys);
    assert next == sys.(queue := rest, server := next.server);
    assert forall x :: x in rest ==> x in sys.queue;
    if sys.canceling && sys.busy {
      var front, front' := sys.queue[..|sys.queue| - 1], rest[..|rest| - 1];
      assert front' == front[1..] && (forall x :: x in front' ==> x in front) && front[0] == f;
      if Requested(sys, front) { PaymentRequested(sys, front, next, front'); }
    } else if sys.busy {
      if Requested(sys, sys.queue) { PaymentRequested(sys, sys.queue, next, rest); }
      else { SameCloses(encode, sys, next); }
    }
  }

  lemma PaymentsHead(queue: seq<Frame>)
    ensures queue != [] && Payments(queue) ==> queue[0].Credit? && queue[0].count == 1
  {
    assert queue != [] ==> queue[0] in queue;
  }

  lemma RequestedHead(sys: System, queue: seq<Frame>)
    requires Requested(sys, queue)
    ensures if |queue| == 1 then queue[0] == Search(sys.generation, sys.asking) else queue[0].Credit? && queue[0].count == 1
  {
    PaymentsHead(queue[..|queue| - 1]);
  }

  /** What the first frame of a queue can be. */
  lemma Heads(encode: Encoding, sys: System)
    requires Sound(encode, sys) && sys.queue != []
    ensures sys.queue[0].Credit? ==> sys.queue[0].count == 1
    ensures sys.queue[0].Search? ==> sys.busy && (if sys.canceling then |sys.queue| == 2 && sys.queue[1].Cancel? else |sys.queue| == 1)
    ensures sys.queue[0].Search? ==> Requested(sys, [sys.queue[0]])
    ensures sys.queue[0].Cancel? ==> sys.busy && sys.canceling && |sys.queue| == 1 && Streamed(sys, [])
  {
    hide PartsIn, Valid, Closes, Flows;
    PaymentsHead(sys.queue);
    if sys.busy {
      var q := if sys.canceling then sys.queue[..|sys.queue| - 1] else sys.queue;
      assert q != [] ==> q[0] == sys.queue[0];
      PaymentsHead(q);
      if Requested(sys, q) {
        RequestedHead(sys, q);
        assert |q| == 1 ==> q == [sys.queue[0]];
      }
    }
  }

  lemma PaymentRequested(sys: System, queue: seq<Frame>, next: System, queue': seq<Frame>)
    requires Requested(sys, queue) && queue[0].Credit? && queue' == queue[1..]
    requires next == sys.(queue := next.queue, server := sys.server.(credit := next.server.credit))
    ensures Requested(next, queue')
  {
    var front, front' := queue[..|queue| - 1], queue'[..|queue'| - 1];
    assert front' == front[1..];
    assert forall x :: x in front' ==> x in front;
  }

  lemma SameCloses(encode: Encoding, sys: System, next: System)
    requires Closes(encode, sys) && sys.queue != []
    requires next == sys.(queue := next.queue, server := next.server)
    ensures Closes(encode, next)
  {
    hide PartsIn, Delivered;
    assert Unheard(next) == Unheard(sys);
  }

  /** What a request makes of an idle worker. */
  lemma RequestReceived(encode: Encoding, s: Server, all: seq<Hit>, g: nat, request: Request)
    requires Valid(encode, s, all) && !s.matching
    ensures var (t, out) := Receive(s, Search(g, request));
      && Valid(encode, t, HitsOf(request)) && (forall m :: m in out ==> m.generation == t.generation && !m.body.Canceled? && !m.body.Complete? && !m.body.Batch?)
      && (forall i :: 0 <= i < |out| && Final(out[i]) ==> i == |out| - 1 && !t.matching)
      && (t.matching <==> request.Matching?) && (t.matching ==> t.generation == g && t.credit == MAX_CREDIT && t.sent == [] && out != [] && out[0].body.Metadata?)
      && (!t.matching ==> forall m :: m in out ==> m.body.Error?)
  {
    assert Joined([]) == Assembly([], "") && Flat([]) == [];
    assert Encoded(encode, []) == [];
    if request.Matching? { assert [] + request.hits == request.hits; }
  }

  /** A request reaches the worker. */
  lemma RequestStreams(encode: Encoding, sys: System)
    requires Valid(encode, sys.server, HitsOf(sys.asking)) && sys.read <= |sys.log| == |sys.origins|
    requires !sys.server.matching && sys.begun + 1 == sys.asked && Unheard(sys) == [] && sys.got == []
    requires sys.queue != [] && sys.queue[0] == Search(sys.generation, sys.asking)
    ensures var next := Delivered1(sys);
      && Valid(encode, next.server, HitsOf(sys.asking)) && |next.log| == |next.origins| && Streamed(next, []) && Closes(encode, next)
      && (next.queue == [] ==> Flows(next))
  {
    hide Valid, Receive, PartsIn, Delivered;
    var r := Receive(sys.server, sys.queue[0]);
    RequestReceived(encode, sys.server, HitsOf(sys.asking), sys.generation, sys.asking);
    var before, next := sys.(queue := sys.queue[1..], begun := sys.begun + 1), Delivered1(sys);
    assert next == Sent(before, r) && Unheard(before) == [];
    SentGrows(before, r);
    assert Unheard(next) == r.1;
    NoParts(r.1);
    hide Unheard, Sent;
    assert next.server == r.0;
  }

  lemma RequestKeeps(encode: Encoding, sys: System)
    requires Sound(encode, sys) && sys.queue != [] && sys.queue[0].Search?
    ensures Sound(encode, Delivered1(sys))
  {
    hide Valid, Receive, PartsIn, Closes, Flows;
    Heads(encode, sys);
    RequestStreams(encode, sys);
    var next := Delivered1(sys);
    assert next.queue == sys.queue[1..];
    if sys.canceling { assert next.queue[..|next.queue| - 1] == []; }
  }

  /** A cancellation reaches the worker. */
  lemma CancelKeeps(encode: Encoding, sys: System)
    requires Sound(encode, sys) && sys.queue != [] && sys.queue[0].Cancel?
    ensures Sound(encode, Delivered1(sys))
  {
    hide PartsIn, Closes, Flows;
    Heads(encode, sys);
    var r := Receive(sys.server, sys.queue[0]);
    var before := sys.(queue := sys.queue[1..]);
    SentGrows(before, r);
    NoParts(r.1);
    assert Unheard(before) == Unheard(sys);
    assert Unheard(Delivered1(sys)) == Unheard(sys) + r.1;
    forall i | 0 <= i < |Unheard(sys)|
      ensures !(Unheard(sys) + r.1)[i].body.Canceled?
    {
      assert Unheard(sys)[i] in Unheard(sys);
    }
  }

  lemma DeliverKeeps(encode: Encoding, patient: bool, sys: System)
    requires Sound(encode, sys)
    ensures sys.server.chunk > 0 && sys.server.offset <= |sys.server.pending| && Sound(encode, Step(encode, patient, sys, Deliver))
  {
    ValidUsable(encode, sys.server, HitsOf(sys.asking));
    hide Sound, Receive;
    if sys.queue != [] {
      match sys.queue[0]
      case Credit(_, _) => PaymentKeeps(encode, sys);
      case Search(_, _) => RequestKeeps(encode, sys);
      case Cancel(_) => CancelKeeps(encode, sys);
    }
  }

  // --------------------------------------------------------------- the caller

  lemma AskKeeps(encode: Encoding, patient: bool, sys: System, request: Request, g: nat)
    requires Sound(encode, sys)
    ensures sys.server.chunk > 0 && sys.server.offset <= |sys.server.pending| && Sound(encode, Step(encode, patient, sys, Ask(request, g)))
  {
    ValidUsable(encode, sys.server, HitsOf(sys.asking));
    hide Streaming;
    if !sys.busy {
      var next := Asked(sys, request, g);
      assert next.queue[..|next.queue| - 1] == sys.queue && Unheard(next) == Unheard(sys);
    }
  }

  lemma StopKeeps(encode: Encoding, sys: System)
    requires Sound(encode, sys)
    ensures sys.server.chunk > 0 && sys.server.offset <= |sys.server.pending| && Sound(encode, Step(encode, true, sys, Stop))
  {
    ValidUsable(encode, sys.server, HitsOf(sys.asking));
    hide Valid, PartsIn, Closes, Flows;
    if sys.busy && !sys.canceling {
      var next := Stopped(sys);
      assert next.queue[..|next.queue| - 1] == sys.queue && Unheard(next) == Unheard(sys);
    }
  }

  lemma StepKeeps(encode: Encoding, sys: System, e: Event)
    requires Sound(encode, sys)
    ensures sys.server.chunk > 0 && sys.server.offset <= |sys.server.pending| && Sound(encode, Step(encode, true, sys, e))
  {
    hide Sound, Step;
    match e
    case Work(slice) => WorkKeeps(encode, true, sys, slice);
    case Deliver => DeliverKeeps(encode, true, sys);
    case Hear => HearKeeps(encode, true, sys);
    case Ask(request, g) => AskKeeps(encode, true, sys, request, g);
    case Stop => StopKeeps(encode, sys);
  }

  // -------------------------------------------------------------------- runs

  predicate Usable(sys: System) {
    sys.server.chunk > 0 && sys.server.offset <= |sys.server.pending|
  }

  function Run(encode: Encoding, patient: bool, sys: System, events: seq<Event>): System
    decreases |events|
  {
    if events == [] || !Usable(sys) then sys else Run(encode, patient, Step(encode, patient, sys, events[0]), events[1..])
  }

  lemma {:induction false} RunKeeps(encode: Encoding, sys: System, events: seq<Event>)
    requires Sound(encode, sys)
    ensures Sound(encode, Run(encode, true, sys, events))
    decreases |events|
  {
    hide Sound, Step;
    if events != [] && Usable(sys) {
      StepKeeps(encode, sys, events[0]);
      RunKeeps(encode, Step(encode, true, sys, events[0]), events[1..]);
    }
  }

  lemma FreshSound(encode: Encoding, chunk: nat)
    requires Proper(encode) && chunk > 0
    ensures Sound(encode, Fresh(chunk))
  {
  }

  /** No more than four parts are on their way; while a search is on and nothing is cancelled, no
      credit is lost; whatever the client heeds next belongs to the search it asked for last;
      and if that is the completion, the parts it took make up exactly the encoded hits. */
  ghost predicate Safe(encode: Encoding, sys: System) {
    && sys.read <= |sys.log| == |sys.origins| && |PartsIn(Unheard(sys))| <= MAX_CREDIT
    && (sys.busy && !sys.canceling && sys.begun == sys.asked && sys.server.matching ==>
          sys.server.credit + |sys.queue| + |PartsIn(Unheard(sys))| == MAX_CREDIT)
    && (sys.read < |sys.log| && Heeded(sys, sys.log[sys.read]) ==>
          && sys.origins[sys.read] == sys.asked
          && (sys.log[sys.read].body.Complete? ==> sys.asking.Matching? && Delivered(encode, sys.got, sys.asking.hits)))
  }

  lemma SoundIsSafe(encode: Encoding, sys: System)
    requires Sound(encode, sys)
    ensures Safe(encode, sys) && Usable(sys)
  {
    ValidUsable(encode, sys.server, HitsOf(sys.asking));
    hide Valid, Delivered;
    assert PartsIn([]) == [];
    if sys.read < |sys.log| { assert sys.log[sys.read] == Unheard(sys)[0] && Unheard(sys)[0] in Unheard(sys); }
  }

  /** Over any chunk size and any order of work, deliveries, searches and cancellations, if
      nobody cancels while a cancel reply is awaited. */
  lemma SearchesAreSafe(encode: Encoding, chunk: nat, events: seq<Event>)
    requires Proper(encode) && chunk > 0
    ensures var sys := Run(encode, true, Fresh(chunk), events); Safe(encode, sys) && Usable(sys)
  {
    hide Sound, Run, Safe;
    FreshSound(encode, chunk);
    RunKeeps(encode, Fresh(chunk), events);
    SoundIsSafe(encode, Run(encode, true, Fresh(chunk), events));
  }
}
