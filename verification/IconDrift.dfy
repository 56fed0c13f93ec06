/** The count of remote loads when drives change: the service asks whether a path is remote
    before it lets a load in, again when it counts it, and again when the load ends. */
module IconDrift {
  import opened IconService

  /** Running loads, each with what was counted for it, and the counter of remote ones. */
  datatype Pool = Pool(loads: seq<bool>, counter: int)

  /** The answers about a load when it is let in and counted, or when it ends. */
  datatype Event = Start(asked: bool, counted: bool) | Finish(load: nat, asked: bool)

  function One(remote: bool): nat {
    if remote then 1 else 0
  }

  function Without(loads: seq<bool>, i: nat): (rest: seq<bool>)
    requires i < |loads|
  {
    loads[..i] + loads[i + 1..]
  }

  function Step(s: Pool, e: Event): Pool {
    match e
    case Start(asked, counted) =>
      if |s.loads| >= LOADS || (asked && s.counter != 0) then s else Pool(s.loads + [counted], s.counter + One(counted))
    case Finish(i, asked) => if i >= |s.loads| then s else Pool(Without(s.loads, i), s.counter - One(asked))
  }

  function Run(s: Pool, events: seq<Event>): Pool
    decreases |events|
  {
    if events == [] then s else Run(Step(s, events[0]), events[1..])
  }

  /** The drive is the same kind of drive whenever it is asked about. */
  predicate Steady(s: Pool, e: Event) {
    match e
    case Start(asked, counted) => asked == counted
    case Finish(i, asked) => i < |s.loads| ==> asked == s.loads[i]
  }

  predicate SteadyRun(s: Pool, events: seq<Event>)
    decreases |events|
  {
    events == [] || (Steady(s, events[0]) && SteadyRun(Step(s, events[0]), events[1..]))
  }

  function Remote(loads: seq<bool>): nat {
    if loads == [] then 0 else Remote(loads[..|loads| - 1]) + One(loads[|loads| - 1])
  }

  lemma {:induction false} RemoteJoined(a: seq<bool>, b: seq<bool>)
    ensures Remote(a + b) == Remote(a) + Remote(b)
    decreases |b|
  {
    if b == [] {
      assert a + b == a;
    } else {
      assert (a + b)[..|a + b| - 1] == a + b[..|b| - 1];
      RemoteJoined(a, b[..|b| - 1]);
    }
  }

  lemma OneRemote(load: bool)
    ensures Remote([load]) == One(load)
  {
    assert [load][..0] == [];
  }

  lemma Regrouped(loads: seq<bool>, i: nat)
    requires i < |loads|
    ensures loads == loads[..i] + ([loads[i]] + loads[i + 1..])
  {
  }

  lemma RemoteWithout(loads: seq<bool>, i: nat)
    requires i < |loads|
    ensures Remote(loads) == Remote(Without(loads, i)) + One(loads[i])
  {
    hide Remote, One;
    var before, load, after := loads[..i], [loads[i]], loads[i + 1..];
    Regrouped(loads, i);
    OneRemote(loads[i]);
    RemoteJoined(before, load + after);
    RemoteJoined(load, after);
    RemoteJoined(before, after);
  }

  /** While drives keep their kind, the counter is off by the same amount, and a remote load
      starts only where the counter is zero. */
  lemma SteadyStep(s: Pool, e: Event)
    requires Steady(s, e)
    ensures var t := Step(s, e);
      t.counter - Remote(t.loads) == s.counter - Remote(s.loads) && (Remote(t.loads) > Remote(s.loads) ==> s.counter == 0 && Remote(t.loads) == Remote(s.loads) + 1)
  {
    match e
    case Start(asked, counted) => assert (s.loads + [counted])[..|s.loads|] == s.loads;
    case Finish(i, asked) => if i < |s.loads| { RemoteWithout(s.loads, i); }
  }

  lemma {:induction false} SteadyCounts(s: Pool, events: seq<Event>)
    requires SteadyRun(s, events) && s.counter == Remote(s.loads) <= 1
    ensures var t := Run(s, events); t.counter == Remote(t.loads) <= 1
    decreases |events|
  {
    hide Step, Steady, Remote;
    if events != [] {
      SteadyStep(s, events[0]);
      SteadyCounts(Step(s, events[0]), events[1..]);
    }
  }

  /** At most one remote load runs, in every run, exactly if drives keep their kind: a local
      load whose drive has become remote by its end takes the place of a remote one. */
  lemma OneRemoteExactly(steady: bool)
    ensures (forall events :: (steady ==> SteadyRun(Pool([], 0), events)) ==> Remote(Run(Pool([], 0), events).loads) <= 1) <==> steady
  {
    if steady {
      forall events | SteadyRun(Pool([], 0), events)
        ensures Remote(Run(Pool([], 0), events).loads) <= 1
      {
        SteadyCounts(Pool([], 0), events);
      }
    } else {
      TwoRemotes();
    }
  }

  function Drifting(): seq<Event> {
    [Start(true, true), Start(false, false), Finish(1, true), Start(true, true)]
  }

  lemma TwoRemotes()
    ensures Remote(Run(Pool([], 0), Drifting()).loads) == 2
  {
    var e := Drifting();
    var s1, s2 := Pool([true], 1), Pool([true, false], 1);
    assert Step(Pool([], 0), e[0]) == s1 && Step(s1, e[1]) == s2;
    assert Without([true, false], 1) == [true];
    assert Step(s2, e[2]) == Pool([true], 0) && Step(Pool([true], 0), e[3]) == Pool([true, true], 1);
    assert Run(Pool([], 0), e) == Run(s1, e[1..]) == Run(s2, e[2..]) == Run(Pool([true], 0), e[3..]) == Run(Pool([true, true], 1), e[4..]);
    assert [true, true][..1] == [true] && [true][..0] == [];
    assert Remote([true]) == 1;
  }

  /** With no remote load running, a remote load can ever start again, drives being steady from
      now on, exactly if the counter is zero: one load whose drive changed is enough to block
      all remote ones for good. */
  lemma BlockedExactly(s: Pool)
    requires Remote(s.loads) == 0 && |s.loads| < LOADS
    ensures (exists events :: SteadyRun(s, events) && Remote(Run(s, events).loads) > 0) <==> s.counter == 0
  {
    if s.counter == 0 {
      var events := [Start(true, true)];
      var t := Pool(s.loads + [true], 1);
      assert events[1..] == [] && Step(s, events[0]) == t && Run(t, []) == t && SteadyRun(t, []);
      assert SteadyRun(s, events) && Run(s, events) == t;
      assert t.loads[..|s.loads|] == s.loads && Remote(t.loads) == 1;
      assert Remote(Run(s, events).loads) > 0;
    } else {
      forall events | SteadyRun(s, events)
        ensures Remote(Run(s, events).loads) == 0
      {
        StaysBlocked(s, events);
      }
    }
  }

  lemma {:induction false} StaysBlocked(s: Pool, events: seq<Event>)
    requires SteadyRun(s, events) && Remote(s.loads) == 0 && s.counter != 0
    ensures var t := Run(s, events); Remote(t.loads) == 0 && t.counter == s.counter
    decreases |events|
  {
    hide Step, Steady, Remote;
    if events != [] {
      SteadyStep(s, events[0]);
      StaysBlocked(Step(s, events[0]), events[1..]);
    }
  }

  /** The blocked state arises: the drive of the first load is remote at its start and local at
      its end, or the other way round. */
  lemma DriftBlocks(remote: bool)
    ensures var s := Run(Pool([], 0), [Start(remote, remote), Finish(0, !remote)]); s.loads == [] && s.counter != 0
  {
    var e := [Start(remote, remote), Finish(0, !remote)];
    var s := Pool([remote], One(remote));
    assert Step(Pool([], 0), e[0]) == s && e[1..][0] == e[1] && e[1..][1..] == [];
    assert Run(Pool([], 0), e) == Run(s, e[1..]) == Run(Step(s, e[1]), []);
  }
}
