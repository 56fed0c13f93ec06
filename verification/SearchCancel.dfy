/** Cancelling a document search: a second cancellation before the reply to the first one can
    hand the parts of one search to another, and no other run can. After a cancel reply the
    worker sends no result before it has accepted a new search. */
module SearchCancel {
  import opened DocumentSearch
  import opened SearchProtocol

  /** In this run nobody cancels while a cancel reply is awaited. */
  predicate Patient(encode: Encoding, sys: System, events: seq<Event>)
    decreases |events|
  {
    events == [] || !Usable(sys)
    || (!(events[0].Stop? && sys.busy && sys.canceling) && Patient(encode, Step(encode, false, sys, events[0]), events[1..]))
  }

  lemma {:induction false} PatientRuns(encode: Encoding, sys: System, events: seq<Event>)
    requires Patient(encode, sys, events)
    ensures Run(encode, false, sys, events) == Run(encode, true, sys, events)
    decreases |events|
  {
    if events != [] && Usable(sys) {
      assert Step(encode, false, sys, events[0]) == Step(encode, true, sys, events[0]);
      PatientRuns(encode, Step(encode, false, sys, events[0]), events[1..]);
    }
  }


  /** One search is cancelled twice before the reply; the first reply makes room for the second
      search, and the second reply for a third one. */
  function Hasty(hit: Hit): seq<Event> {
    [Ask(Unstartable, 1), Stop, Stop, Deliver, Deliver, Hear, Hear, Ask(Matching([hit], false), 1)]
  }

  function Hastier(): seq<Event> {
    [Deliver, Deliver, Hear, Ask(Unstartable, 1), Work(1), Hear, Hear]
  }

  lemma {:induction false} RunParts(encode: Encoding, patient: bool, sys: System, a: seq<Event>, b: seq<Event>)
    ensures Run(encode, patient, sys, a + b) == Run(encode, patient, Run(encode, patient, sys, a), b)
    decreases |a|
  {
    hide Step;
    if a == [] {
      assert a + b == b;
    } else if Usable(sys) {
      assert (a + b)[1..] == a[1..] + b && (a + b)[0] == a[0];
      RunParts(encode, patient, Step(encode, patient, sys, a[0]), a[1..], b);
    } else if b != [] {
      assert Run(encode, patient, sys, b) == sys;
    }
  }

  lemma Next(encode: Encoding, sys: System, events: seq<Event>, next: System)
    requires Usable(sys) && events != [] && next == Step(encode, false, sys, events[0])
    ensures Run(encode, false, sys, events) == Run(encode, false, next, events[1..])
  {
    hide Step;
  }

  /** The second search is under way to the worker, behind the second cancellation. */
  lemma HastyRun(encode: Encoding, chunk: nat, hit: Hit)
    requires chunk > 0
    ensures Run(encode, false, Fresh(chunk), Hasty(hit)) ==
      Fresh(chunk).(server := Fresh(chunk).server.(generation := 1), log := [Message(1, Error), Message(1, Canceled)], origins := [1, 1], begun := 1,
        read := 2, queue := [Cancel(1), Search(1, Matching([hit], false))], generation := 1, busy := true, asking := Matching([hit], false), asked := 2)
  {
    hide Run, Tick;
    var e := Hasty(hit);
    var s1 := Asked(Fresh(chunk), Unstartable, 1);
    Next(encode, Fresh(chunk), e, s1);
    var s2 := Stopped(s1);
    Next(encode, s1, e[1..], s2);
    var s3 := Stopped(s2);
    Next(encode, s2, e[2..], s3);
    assert s3.queue == [Search(1, Unstartable), Cancel(1), Cancel(1)];
    var s4 := s3.(queue := [Cancel(1), Cancel(1)], begun := 1, log := [Message(1, Error)], origins := [1], server := s3.server.(generation := 1));
    Next(encode, s3, e[3..], s4);
    var s5 := s4.(queue := [Cancel(1)], log := [Message(1, Error), Message(1, Canceled)], origins := [1, 1]);
    Next(encode, s4, e[4..], s5);
    var s6 := s5.(read := 1);
    Next(encode, s5, e[5..], s6);
    var s7 := s6.(read := 2, busy := false);
    Next(encode, s6, e[6..], s7);
    var s8 := Asked(s7, Matching([hit], false), 1);
    Next(encode, s7, e[7..], s8);
    assert e[7..][1..] == [] && s8.queue == [Cancel(1), Search(1, Matching([hit], false))];
    LastRun(encode, s8);
  }

  lemma LastRun(encode: Encoding, sys: System)
    ensures Run(encode, false, sys, []) == sys
  {
  }

  /** The worker's next message to be heard is a part of the second search, under the number of
      the third. */
  ghost predicate Misled(sys: System) {
    && sys.read < |sys.log| == |sys.origins| && sys.log[sys.read].body.Batch? && Heeded(sys, sys.log[sys.read])
    && sys.origins[sys.read] == 2 && sys.asked == 3
  }

  lemma FirstPart(encode: Encoding, s: Server)
    requires Proper(encode) && s.chunk > 0 && s.credit == MAX_CREDIT && s.pending == "" && s.offset == 0 && s.matching && !s.done && !s.waiting && |s.hits| == 1
    ensures var (t, out) := Tick(encode, s, 1); out != [] && out[0].body.Batch? && out[0].generation == s.generation
  {
  }

  lemma HastierRun(encode: Encoding, chunk: nat, hit: Hit, sys: System)
    requires Proper(encode) && chunk > 0
    requires sys == Fresh(chunk).(server := Fresh(chunk).server.(generation := 1), log := [Message(1, Error), Message(1, Canceled)], origins := [1, 1],
      begun := 1, read := 2, queue := [Cancel(1), Search(1, Matching([hit], false))], generation := 1, busy := true, asking := Matching([hit], false), asked := 2)
    ensures Misled(Run(encode, false, sys, Hastier()))
  {
    hide Run, Tick;
    var e := Hastier();
    var s1 := sys.(queue := [Search(1, Matching([hit], false))], log := sys.log + [Message(1, Canceled)], origins := [1, 1, 1]);
    Next(encode, sys, e, s1);
    var server := s1.server.(matching := true, hits := [hit]);
    var s2 := s1.(queue := [], log := s1.log + [Message(1, Metadata), Message(1, Phase(false))], origins := [1, 1, 1, 2, 2], begun := 2, server := server);
    Next(encode, s1, e[1..], s2);
    var s3 := s2.(read := 3, busy := false);
    Next(encode, s2, e[2..], s3);
    var s4 := Asked(s3, Unstartable, 1);
    Next(encode, s3, e[3..], s4);
    var r := Tick(encode, server, 1);
    var s5 := Sent(s4, r);
    FirstPart(encode, server);
    Next(encode, s4, e[4..], s5);
    SentUsable(encode, server);
    var s6 := s5.(read := 4);
    Next(encode, s5, e[5..], s6);
    var s7 := s6.(read := 5);
    Next(encode, s6, e[6..], s7);
    assert e[6..][1..] == [];
    LastRun(encode, s7);
    assert s7.log[5] == r.1[0] && s7.origins[5] == 2;
  }

  lemma SentUsable(encode: Encoding, s: Server)
    requires Proper(encode) && s.chunk > 0 && s.credit == MAX_CREDIT && s.pending == "" && s.offset == 0 && s.matching && !s.done && !s.waiting && |s.hits| == 1
    requires s.batches == [] && s.sent == []
    ensures var (t, out) := Tick(encode, s, 1); t.chunk > 0 && t.offset <= |t.pending|
  {
    assert Joined([]) == Assembly([], "") && Encoded(encode, []) == [];
    assert Flat([]) + s.hits == s.hits;
    TickKeeps(encode, s, s.hits, 1);
  }

  /** Every run is safe exactly when nobody cancels while a cancel reply is awaited: otherwise
      parts of one search can reach a client that has asked for another. */
  lemma SafeExactly(encode: Encoding, patient: bool)
    requires Proper(encode)
    ensures (forall chunk: nat, events :: chunk > 0 ==> Safe(encode, Run(encode, patient, Fresh(chunk), events))) <==> patient
  {
    hide Run, Safe, Usable;
    if patient {
      forall chunk: nat, events | chunk > 0
        ensures Safe(encode, Run(encode, patient, Fresh(chunk), events))
      {
        SearchesAreSafe(encode, chunk, events);
      }
    } else {
      HastyIsUnsafe(encode);
    }
  }

  lemma HastyIsUnsafe(encode: Encoding)
    requires Proper(encode)
    ensures !Safe(encode, Run(encode, false, Fresh(1), Hasty(Hit(0, 1, 1, 1, [])) + Hastier()))
  {
    hide Run, Hasty, Hastier;
    var hit := Hit(0, 1, 1, 1, []);
    HastyRun(encode, 1, hit);
    RunParts(encode, false, Fresh(1), Hasty(hit), Hastier());
    HastierRun(encode, 1, hit, Run(encode, false, Fresh(1), Hasty(hit)));
  }

  // ------------------------------------------------------ the order of the log

  predicate Result(m: Message) {
    m.body.Batch? || m.body.FileComplete? || m.body.Complete?
  }

  /** Between positions `i` and `j` the worker announces a search it has accepted. */
  ghost predicate Announced(log: seq<Message>, i: int, j: int) {
    exists k :: i < k < j && 0 <= k < |log| && log[k].body.Metadata?
  }

  /** After a cancel reply comes no result before another search is accepted. */
  ghost predicate Ordered(sys: System) {
    && (forall i, j :: 0 <= i < j < |sys.log| && sys.log[i].body.Canceled? && Result(sys.log[j]) ==> Announced(sys.log, i, j))
    && (sys.server.matching ==> forall i :: 0 <= i < |sys.log| && sys.log[i].body.Canceled? ==> Announced(sys.log, i, |sys.log|))
  }

  lemma AnnouncedStays(log: seq<Message>, more: seq<Message>, i: int, j: int, j': int)
    requires Announced(log, i, j) && j <= j' && j <= |log|
    ensures Announced(log + more, i, j')
  {
    var k :| i < k < j && 0 <= k < |log| && log[k].body.Metadata?;
    assert (log + more)[k] == log[k];
  }

  /** Messages that follow the order: results only while matching, a cancel reply alone, and
      matching begins with its announcement. */
  lemma OrderGrows(sys: System, r: Reply, begun: nat)
    requires Ordered(sys)
    requires (exists m :: m in r.1 && Result(m)) ==> sys.server.matching
    requires (exists m :: m in r.1 && m.body.Canceled?) ==> |r.1| == 1 && !r.0.matching
    requires r.0.matching ==> sys.server.matching || (r.1 != [] && r.1[0].body.Metadata?)
    ensures Ordered(Sent(sys.(begun := begun), r))
  {
    var log, log' := sys.log, sys.log + r.1;
    assert forall k :: |log| <= k < |log'| ==> log'[k] == r.1[k - |log|] && log'[k] in r.1;
    forall i, j | 0 <= i < j < |log'| && log'[i].body.Canceled? && Result(log'[j])
      ensures Announced(log', i, j)
    {
      assert i < |log| && log[i].body.Canceled?;
      if j < |log| { AnnouncedStays(log, r.1, i, j, j); } else { AnnouncedStays(log, r.1, i, |log|, j); }
    }
    if r.0.matching {
      forall i | 0 <= i < |log'| && log'[i].body.Canceled?
        ensures Announced(log', i, |log'|)
      {
        if sys.server.matching { AnnouncedStays(log, r.1, i, |log|, |log'|); } else { assert log'[|log|] == r.1[0]; }
      }
    }
  }

  lemma ReceiveOrders(s: Server, f: Frame)
    ensures var (t, out) := Receive(s, f);
      && (forall m :: m in out ==> !Result(m)) && ((exists m :: m in out && m.body.Canceled?) ==> |out| == 1 && !t.matching)
      && (t.matching ==> s.matching || (out != [] && out[0].body.Metadata?))
  {
  }

  ghost predicate Working(encode: Encoding, s: Server) {
    exists all :: Valid(encode, s, all)
  }

  lemma TickOrders(encode: Encoding, s: Server, slice: nat)
    requires Working(encode, s)
    ensures s.chunk > 0 && s.offset <= |s.pending|
    ensures var (t, out) := Tick(encode, s, slice);
      && Working(encode, t) && (forall m :: m in out ==> !m.body.Canceled?) && (!s.matching ==> out == []) && (t.matching ==> s.matching)
  {
    hide Valid;
    var all :| Valid(encode, s, all);
    ValidUsable(encode, s, all);
    TickKeeps(encode, s, all, slice);
  }

  lemma ReceiveWorks(encode: Encoding, s: Server, f: Frame)
    requires Working(encode, s)
    ensures Working(encode, Receive(s, f).0)
  {
    var all :| Valid(encode, s, all);
    var t := Receive(s, f).0;
    if f.Search? && !s.matching {
      RequestReceived(encode, s, all, f.generation, f.request);
      assert Valid(encode, t, HitsOf(f.request));
    } else {
      SameFlow(encode, s, all);
      assert Valid(encode, t, all);
    }
  }

  lemma {:induction false} RunOrders(encode: Encoding, patient: bool, sys: System, events: seq<Event>)
    requires Ordered(sys) && Working(encode, sys.server)
    ensures var end := Run(encode, patient, sys, events); Ordered(end) && Working(encode, end.server)
    decreases |events|
  {
    hide Ordered, Working, Receive, Tick;
    if events != [] && Usable(sys) {
      StepOrders(encode, patient, sys, events[0]);
      RunOrders(encode, patient, Step(encode, patient, sys, events[0]), events[1..]);
    }
  }

  lemma SameOrder(sys: System, next: System)
    requires Ordered(sys) && next.log == sys.log && next.server == sys.server
    ensures Ordered(next)
  {
  }

  lemma StepOrders(encode: Encoding, patient: bool, sys: System, e: Event)
    requires Ordered(sys) && Working(encode, sys.server) && Usable(sys)
    ensures var next := Step(encode, patient, sys, e); Ordered(next) && Working(encode, next.server)
  {
    hide Ordered, Working, Receive, Tick;
    var next := Step(encode, patient, sys, e);
    match e
    case Work(slice) =>
      TickOrders(encode, sys.server, slice);
      OrderGrows(sys, Tick(encode, sys.server, slice), sys.begun);
      assert sys.(begun := sys.begun) == sys;
    case Deliver =>
      if sys.queue != [] {
        ReceiveOrders(sys.server, sys.queue[0]);
        ReceiveWorks(encode, sys.server, sys.queue[0]);
        OrderGrows(sys, Receive(sys.server, sys.queue[0]), next.begun);
        SameOrder(Sent(sys.(begun := next.begun), Receive(sys.server, sys.queue[0])), next);
      }
    case _ => SameOrder(sys, next);
  }

  /** In every run, patient or not, no result of a search leaves the worker after the cancel
      reply that ended it: before the next one it announces that it accepted another search. */
  lemma NothingAfterCancel(encode: Encoding, patient: bool, chunk: nat, events: seq<Event>, i: nat, j: nat)
    requires Proper(encode) && chunk > 0
    ensures var log := Run(encode, patient, Fresh(chunk), events).log;
      i < j < |log| && log[i].body.Canceled? && Result(log[j]) ==> exists k :: i < k < j && log[k].body.Metadata?
    ensures Usable(Run(encode, patient, Fresh(chunk), events))
  {
    FreshSound(encode, chunk);
    var sys := Fresh(chunk);
    assert Valid(encode, sys.server, HitsOf(sys.asking)) && Working(encode, sys.server);
    RunOrders(encode, patient, sys, events);
    var end := Run(encode, patient, sys, events);
    TickOrders(encode, end.server, 0);
  }

  // ----------------------------------------------------- waiting for the client

  /** Whether the last phase among messages says that the worker waits. */
  function SaysWaiting(ms: seq<Message>, before: bool): bool {
    if ms == [] then before
    else if ms[|ms| - 1].body.Phase? then ms[|ms| - 1].body.waiting
    else SaysWaiting(ms[..|ms| - 1], before)
  }

  lemma {:induction false} SaysConcat(a: seq<Message>, b: seq<Message>, before: bool)
    ensures SaysWaiting(a + b, before) == SaysWaiting(b, SaysWaiting(a, before))
    decreases |b|
  {
    if b == [] {
      assert a + b == a;
    } else {
      assert (a + b)[..|a + b| - 1] == a + b[..|b| - 1];
      SaysConcat(a, b[..|b| - 1], before);
    }
  }

  lemma {:induction false} SaysNothing(ms: seq<Message>, before: bool)
    requires forall m :: m in ms ==> !m.body.Phase?
    ensures SaysWaiting(ms, before) == before
  {
    if ms != [] {
      assert ms[|ms| - 1] in ms;
      SaysNothing(ms[..|ms| - 1], before);
    }
  }

  lemma OnePhase(m: Message, before: bool)
    ensures SaysWaiting([m], before) == if m.body.Phase? then m.body.waiting else before
  {
    assert [m][..0] == [];
  }

  lemma FlushTells(s: Server)
    requires s.chunk > 0 && s.offset <= |s.pending|
    ensures var (t, out) := Flush(s); t.waiting == s.waiting && t.matching == s.matching && SaysWaiting(out, s.waiting) == s.waiting
  {
    FlushSilent(s);
    SaysNothing(FlushParts(s).1, s.waiting);
  }

  lemma {:induction false} FlushSilent(s: Server)
    requires s.chunk > 0 && s.offset <= |s.pending|
    ensures var (t, out) := FlushParts(s); t.waiting == s.waiting && t.matching == s.matching && forall m :: m in out ==> m.body.Batch?
    decreases |s.pending| - s.offset
  {
    if s.credit > 0 && s.offset < |s.pending| { FlushSilent(PartGone(s)); }
  }

  lemma TickTells(encode: Encoding, s: Server, slice: nat)
    requires s.chunk > 0 && s.offset <= |s.pending| && (s.pending == "" ==> s.offset == 0)
    ensures var (t, out) := Tick(encode, s, slice);
      && (t.matching ==> s.matching && SaysWaiting(out, s.waiting) == t.waiting)
      && (s.matching && s.credit == 0 ==> t.waiting)
  {
    hide Flush;
    if s.matching {
      OnePhase(Message(s.generation, Phase(true)), s.waiting);
      OnePhase(Message(s.generation, Phase(false)), s.waiting);
      if s.credit > 0 && s.pending != "" {
        FlushTells(s);
      } else if s.credit > 0 && !s.done {
        var v, resumed := s.(waiting := false), if s.waiting then [Message(s.generation, Phase(false))] else [];
        CollectKept(encode, v, slice);
        var u := Collect(encode, v, slice);
        assert u.waiting == false;
        FlushTells(u);
        SaysConcat(resumed, Flush(u).1, s.waiting);
      }
    }
  }

  lemma ReceiveTells(s: Server, f: Frame)
    ensures var (t, out) := Receive(s, f);
      t.matching ==> SaysWaiting(out, s.waiting) == t.waiting && (s.matching || (forall before :: SaysWaiting(out, before) == t.waiting))
  {
    if f.Search? && !s.matching && f.request.Matching? {
      var first, second := Message(f.generation, Metadata), Message(f.generation, Phase(false));
      assert [first, second][|[first, second]| - 1] == second;
    }
  }

  /** While the worker matches, the last phase it reported is the one it is in. */
  ghost predicate Told(sys: System) {
    sys.server.matching ==> SaysWaiting(sys.log, false) == sys.server.waiting
  }

  lemma StepTells(encode: Encoding, patient: bool, sys: System, e: Event)
    requires Told(sys) && Working(encode, sys.server) && Usable(sys)
    ensures Told(Step(encode, patient, sys, e))
  {
    hide Receive, Tick, SaysWaiting, Valid;
    match e
    case Work(slice) =>
      var all :| Valid(encode, sys.server, all);
      AtStart(encode, sys.server, all);
      TickTells(encode, sys.server, slice);
      SaysConcat(sys.log, Tick(encode, sys.server, slice).1, false);
    case Deliver =>
      if sys.queue != [] {
        ReceiveTells(sys.server, sys.queue[0]);
        SaysConcat(sys.log, Receive(sys.server, sys.queue[0]).1, false);
      }
    case _ =>
  }

  lemma AtStart(encode: Encoding, s: Server, all: seq<Hit>)
    requires Valid(encode, s, all)
    ensures s.pending == "" ==> s.offset == 0
  {
  }

  lemma {:induction false} RunTells(encode: Encoding, patient: bool, sys: System, events: seq<Event>)
    requires Told(sys) && Ordered(sys) && Working(encode, sys.server)
    ensures Told(Run(encode, patient, sys, events))
    decreases |events|
  {
    hide Told, Ordered, Working, Step;
    if events != [] && Usable(sys) {
      StepTells(encode, patient, sys, events[0]);
      StepOrders(encode, patient, sys, events[0]);
      RunTells(encode, patient, Step(encode, patient, sys, events[0]), events[1..]);
    }
  }

  /** In every run, patient or not: while the worker matches, the last phase it has reported says
      that it waits exactly if it does, and without credit its next turn makes it wait; so a
      client that has heard everything watches the clock only for work it has paid for. */
  lemma PhaseIsTold(encode: Encoding, patient: bool, chunk: nat, events: seq<Event>, slice: nat)
    requires Proper(encode) && chunk > 0
    ensures var sys := Run(encode, patient, Fresh(chunk), events);
      Usable(sys) && (sys.server.matching ==>
        && SaysWaiting(sys.log, false) == sys.server.waiting
        && (sys.server.credit == 0 ==> SaysWaiting(Step(encode, patient, sys, Work(slice)).log, false)))
  {
    hide Step, Run, Told, Ordered, Working, SaysWaiting;
    FreshSound(encode, chunk);
    var sys := Fresh(chunk);
    FreshTold(encode, chunk);
    RunTells(encode, patient, sys, events);
    RunOrders(encode, patient, sys, events);
    var now := Run(encode, patient, sys, events);
    TickOrders(encode, now.server, slice);
    StepTells(encode, patient, now, Work(slice));
    TurnTells(encode, patient, now, slice);
  }

  lemma FreshTold(encode: Encoding, chunk: nat)
    requires Sound(encode, Fresh(chunk))
    ensures Told(Fresh(chunk)) && Ordered(Fresh(chunk)) && Working(encode, Fresh(chunk).server)
  {
    var sys := Fresh(chunk);
    assert Valid(encode, sys.server, HitsOf(sys.asking));
  }

  lemma TurnTells(encode: Encoding, patient: bool, now: System, slice: nat)
    requires Usable(now) && Told(now) && Told(Step(encode, patient, now, Work(slice)))
    ensures now.server.matching ==> SaysWaiting(now.log, false) == now.server.waiting
    ensures now.server.matching && now.server.credit == 0 ==> SaysWaiting(Step(encode, patient, now, Work(slice)).log, false)
  {
  }
}
