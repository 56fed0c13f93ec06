/** The icon service: requests wait in a queue, at most two loads run, and a load that an
    invalidation overtook is thrown away. */
module IconService {

  const BUDGET := 1024
  const LOADS := 2

  /** What the service asks about keys: the family an invalidation spreads over, and whether a
      load may block on the network. */
  datatype Keys = Keys(family: string -> string, remote: string -> bool)

  datatype Load = Load(key: string, serial: nat)

  /** A cached value: the load it comes from, the load its picture comes from, and whether it
      may still be served. */
  datatype Cached = Cached(serial: nat, picture: nat, served: bool)

  /** `floor` remembers for every family how many requests had been made when it was last
      invalidated. */
  datatype Service = Service(
    pending: map<string, nat>, queue: seq<string>, loads: seq<Load>, serial: nat, cache: map<string, Cached>, floor: map<string, nat>)

  function Idle(): Service {
    Service(map[], [], [], 0, map[], map[])
  }

  function Floor(keys: Keys, s: Service, key: string): nat {
    if keys.family(key) in s.floor then s.floor[keys.family(key)] else 0
  }

  function Remotes(keys: Keys, loads: seq<Load>): nat {
    if loads == [] then 0 else Remotes(keys, loads[..|loads| - 1]) + if keys.remote(loads[|loads| - 1].key) then 1 else 0
  }

  function Without(queue: seq<string>, gone: set<string>): seq<string> {
    if queue == [] then [] else (if queue[0] in gone then [] else [queue[0]]) + Without(queue[1..], gone)
  }

  // --------------------------------------------------------------- operations

  function Enqueue(s: Service, key: string): Service {
    if key in s.pending || |s.pending| >= BUDGET then s
    else s.(serial := s.serial + 1, pending := s.pending[key := s.serial + 1], queue := s.queue + [key])
  }

  /** What becomes of the key at a place of the queue: it is dropped, left for later, or its
      load starts. */
  datatype Turn = Dropped | Left | Starts

  function TurnOf(keys: Keys, s: Service, key: string, needed: set<string>, deferred: set<string>): Turn {
    if key !in s.pending || key !in needed then Dropped
    else if key in deferred || (keys.remote(key) && Remotes(keys, s.loads) > 0) then Left
    else Starts
  }

  function Removed(queue: seq<string>, at: nat): seq<string>
    requires at < |queue|
  {
    queue[..at] + queue[at + 1..]
  }

  /** Goes through the queue from `at` on while a load may start. */
  function Pump(keys: Keys, s: Service, at: nat, needed: set<string>, deferred: set<string>): Service
    decreases |s.queue| - at
  {
    if |s.loads| >= LOADS || at >= |s.queue| then s
    else
      var key := s.queue[at];
      match TurnOf(keys, s, key, needed, deferred)
      case Dropped => Pump(keys, s.(pending := s.pending - {key}, queue := Removed(s.queue, at)), at, needed, deferred)
      case Left => Pump(keys, s, at + 1, needed, deferred)
      case Starts => Pump(keys, Started(s, at), at, needed, deferred)
  }

  function Started(s: Service, at: nat): Service
    requires at < |s.queue|
  {
    var key := s.queue[at];
    s.(queue := Removed(s.queue, at), loads := s.loads + [Load(key, if key in s.pending then s.pending[key] else 0)])
  }

  /** A load that ended with a transient failure keeps the picture that was there. */
  function Publish(s: Service, work: Load, transient: bool): Service {
    if work.key !in s.pending || s.pending[work.key] != work.serial then s
    else
      var picture := if transient then if work.key in s.cache then s.cache[work.key].picture else 0 else work.serial;
      s.(pending := s.pending - {work.key}, cache := s.cache[work.key := Cached(work.serial, picture, true)])
  }

  function Finish(s: Service, i: nat, transient: bool): Service {
    if i >= |s.loads| then s
    else Publish(s.(loads := s.loads[..i] + s.loads[i + 1..]), s.loads[i], transient)
  }

  /** Everything of the families of these keys that is cached or waited for. */
  function Spread(keys: Keys, s: Service, asked: set<string>): set<string> {
    var families := set k | k in asked :: keys.family(k);
    asked + (set k | k in s.cache && keys.family(k) in families) + (set k | k in s.pending && keys.family(k) in families)
  }

  function Invalidate(keys: Keys, s: Service, asked: set<string>): Service {
    var gone := Spread(keys, s, asked);
    var families := set k | k in asked :: keys.family(k);
    s.(pending := s.pending - gone, queue := Without(s.queue, gone),
       cache := map k | k in s.cache :: if k in gone then s.cache[k].(served := false) else s.cache[k],
       floor := map f | f in s.floor.Keys + families :: if f in families then s.serial else s.floor[f])
  }

  datatype Event = Request(key: string) | Pumped(needed: set<string>, deferred: set<string>) | Finished(load: nat, transient: bool)
    | Invalidated(asked: set<string>) | Expired(dropped: set<string>)

  function Handle(keys: Keys, s: Service, e: Event): Service {
    match e
    case Request(key) => Enqueue(s, key)
    case Pumped(needed, deferred) => Pump(keys, s, 0, needed, deferred)
    case Finished(i, transient) => Finish(s, i, transient)
    case Invalidated(asked) => Invalidate(keys, s, asked)
    case Expired(dropped) => s.(cache := s.cache - dropped)
  }

  // -------------------------------------------------------------- invariants

  predicate Distinct(queue: seq<string>) {
    forall i, j :: 0 <= i < j < |queue| ==> queue[i] != queue[j]
  }

  predicate Loading(s: Service, key: string) {
    key in s.pending && Load(key, s.pending[key]) in s.loads
  }

  /** Every pending key is queued once, or held by a running load with its serial. */
  ghost predicate Placed(s: Service) {
    && Distinct(s.queue) && (forall key :: key in s.queue ==> key in s.pending)
    && (forall key :: key in s.pending ==> (key in s.queue) != Loading(s, key))
  }

  ghost predicate Counted(keys: Keys, s: Service) {
    |s.loads| <= LOADS && Remotes(keys, s.loads) <= 1 && |s.pending| <= BUDGET
  }

  /** Serials only grow, and what is pending or served was asked for after the last
      invalidation of its family. */
  ghost predicate Dated(keys: Keys, s: Service) {
    && (forall key :: key in s.pending ==> Floor(keys, s, key) < s.pending[key] <= s.serial)
    && (forall load :: load in s.loads ==> load.serial <= s.serial)
    && (forall i, j :: 0 <= i < j < |s.loads| ==> s.loads[i] != s.loads[j])
    && (forall f :: f in s.floor ==> s.floor[f] <= s.serial)
    && (forall key :: key in s.cache && s.cache[key].served ==> s.cache[key].serial > Floor(keys, s, key))
  }

  ghost predicate Sound(keys: Keys, s: Service) {
    Placed(s) && Counted(keys, s) && Dated(keys, s)
  }

  lemma EnqueueKeeps(keys: Keys, s: Service, key: string)
    requires Sound(keys, s)
    ensures Sound(keys, Enqueue(s, key))
  {
    var t := Enqueue(s, key);
    if t != s {
      assert Load(key, s.serial + 1) !in s.loads;
      assert forall k :: Floor(keys, t, k) == Floor(keys, s, k);
      FloorBound(keys, s, key);
      forall k | k in t.pending
        ensures (k in t.queue) != Loading(t, k)
      {
        assert k in t.queue <==> k in s.queue || k == key;
        if k != key { assert Loading(t, k) <==> Loading(s, k); }
      }
    }
  }

  lemma FloorBound(keys: Keys, s: Service, key: string)
    requires Dated(keys, s)
    ensures Floor(keys, s, key) <= s.serial
  {
  }

  lemma RemovedAt(queue: seq<string>, at: nat)
    requires at < |queue|
    ensures var r := Removed(queue, at);
      |r| == |queue| - 1 && forall i :: 0 <= i < |r| ==> r[i] == if i < at then queue[i] else queue[i + 1]
  {
  }

  lemma RemovedHas(queue: seq<string>, at: nat)
    requires at < |queue| && Distinct(queue)
    ensures Distinct(Removed(queue, at)) && forall key :: key in Removed(queue, at) <==> key in queue && key != queue[at]
  {
    var r := Removed(queue, at);
    RemovedAt(queue, at);
    forall key | key in queue && key != queue[at]
      ensures key in r
    {
      var i :| 0 <= i < |queue| && queue[i] == key;
      assert r[if i < at then i else i - 1] == key;
    }
    forall key | key in r
      ensures key in queue && key != queue[at]
    {
      var i :| 0 <= i < |r| && r[i] == key;
      assert queue[if i < at then i else i + 1] == key;
    }
  }

  /** Dropping a queued key. */
  lemma DropKeeps(keys: Keys, s: Service, at: nat)
    requires Sound(keys, s) && at < |s.queue|
    ensures Sound(keys, s.(pending := s.pending - {s.queue[at]}, queue := Removed(s.queue, at)))
  {
    var t := s.(pending := s.pending - {s.queue[at]}, queue := Removed(s.queue, at));
    DropPlaced(s, at);
    FewerKeys(s.pending, {s.queue[at]});
    assert forall k :: Floor(keys, t, k) == Floor(keys, s, k);
  }

  lemma StartPlaced(s: Service, at: nat)
    requires Placed(s) && at < |s.queue|
    ensures Placed(Started(s, at))
  {
    var key, t := s.queue[at], Started(s, at);
    RemovedHas(s.queue, at);
    assert key in s.queue && key in s.pending && !Loading(s, key);
    LoadsAdd(s.loads, Load(key, s.pending[key]));
    forall k | k in t.pending
      ensures (k in t.queue) != Loading(t, k)
    {
      assert Loading(t, k) <==> Loading(s, k) || k == key;
    }
  }

  lemma LoadsAdd(loads: seq<Load>, load: Load)
    ensures forall l :: l in loads + [load] <==> l in loads || l == load
  {
  }

  lemma StartDated(keys: Keys, s: Service, at: nat)
    requires Placed(s) && Dated(keys, s) && at < |s.queue|
    ensures Dated(keys, Started(s, at))
  {
    var key, t := s.queue[at], Started(s, at);
    assert key in s.queue && !Loading(s, key);
    LoadsAdd(s.loads, Load(key, s.pending[key]));
    forall k
      ensures Floor(keys, t, k) == Floor(keys, s, k)
    {
    }
  }

  /** Starting the load of a queued key. */
  lemma StartKeeps(keys: Keys, s: Service, at: nat)
    requires Sound(keys, s) && at < |s.queue| && |s.loads| < LOADS
    requires keys.remote(s.queue[at]) ==> Remotes(keys, s.loads) == 0
    ensures Sound(keys, Started(s, at))
  {
    hide Placed, Dated;
    StartPlaced(s, at);
    StartDated(keys, s, at);
    var t := Started(s, at);
    assert t.loads[..|s.loads|] == s.loads;
  }

  lemma {:induction false} PumpKeeps(keys: Keys, s: Service, at: nat, needed: set<string>, deferred: set<string>)
    requires Sound(keys, s)
    ensures Sound(keys, Pump(keys, s, at, needed, deferred))
    decreases |s.queue| - at
  {
    hide Sound, Started;
    if |s.loads| < LOADS && at < |s.queue| {
      var key := s.queue[at];
      match TurnOf(keys, s, key, needed, deferred)
      case Dropped =>
        DropKeeps(keys, s, at);
        PumpKeeps(keys, s.(pending := s.pending - {key}, queue := Removed(s.queue, at)), at, needed, deferred);
      case Left => PumpKeeps(keys, s, at + 1, needed, deferred);
      case Starts =>
        StartKeeps(keys, s, at);
        Shrinks(s, at);
        PumpKeeps(keys, Started(s, at), at, needed, deferred);
    }
  }

  lemma Shrinks(s: Service, at: nat)
    requires at < |s.queue|
    ensures |Started(s, at).queue| == |s.queue| - 1
  {
  }

  /** A needed key that must wait: it is deferred, or remote while a remote load runs. */
  predicate Waits(keys: Keys, s: Service, key: string, needed: set<string>, deferred: set<string>) {
    key in s.pending && key in needed && (key in deferred || (keys.remote(key) && Remotes(keys, s.loads) > 0))
  }

  ghost predicate HasLoad(loads: seq<Load>, from: nat, key: string) {
    exists i :: from <= i < |loads| && loads[i].key == key
  }

  /** What going through the queue from `at` on comes to. */
  ghost predicate PumpEnds(keys: Keys, s: Service, t: Service, needed: set<string>, deferred: set<string>) {
    && (|t.loads| >= LOADS || forall key :: key in t.queue ==> Waits(keys, t, key, needed, deferred))
    && s.loads <= t.loads && (forall key :: key in t.queue ==> key in s.queue)
    && (forall i :: |s.loads| <= i < |t.loads| ==> t.loads[i].key in s.queue && t.loads[i].key in needed && t.loads[i].key !in deferred)
    && (forall key :: key in s.queue && key in s.pending && key in needed ==> key in t.queue || HasLoad(t.loads, |s.loads|, key))
  }

  /** Every free place is used: after a pump two loads run, or whatever is still queued must
      wait. So a local load starts although a remote one blocks. Nothing starts that is not
      needed or is deferred, and nothing needed is dropped. */
  lemma {:induction false} PumpStarts(keys: Keys, s: Service, at: nat, needed: set<string>, deferred: set<string>)
    requires Placed(s) && at <= |s.queue| && forall i :: 0 <= i < at ==> Waits(keys, s, s.queue[i], needed, deferred)
    ensures PumpEnds(keys, s, Pump(keys, s, at, needed, deferred), needed, deferred)
    decreases |s.queue| - at
  {
    hide Placed, PumpEnds, Started, Waits;
    if |s.loads| < LOADS && at < |s.queue| {
      var key := s.queue[at];
      match TurnOf(keys, s, key, needed, deferred)
      case Dropped =>
        var t := s.(pending := s.pending - {key}, queue := Removed(s.queue, at));
        DropPlaced(s, at);
        DropWaits(keys, s, at, needed, deferred);
        PumpStarts(keys, t, at, needed, deferred);
        DropEnds(keys, s, at, Pump(keys, t, at, needed, deferred), needed, deferred);
      case Left =>
        LeftWaits(keys, s, at, needed, deferred);
        PumpStarts(keys, s, at + 1, needed, deferred);
      case Starts =>
        StartPlaced(s, at);
        StartWaits(keys, s, at, needed, deferred);
        Shrinks(s, at);
        PumpStarts(keys, Started(s, at), at, needed, deferred);
        StartEnds(keys, s, at, Pump(keys, Started(s, at), at, needed, deferred), needed, deferred);
    } else {
      NothingStarts(keys, s, at, needed, deferred);
    }
  }

  lemma NothingStarts(keys: Keys, s: Service, at: nat, needed: set<string>, deferred: set<string>)
    requires |s.loads| >= LOADS || at >= |s.queue|
    requires at <= |s.queue| && forall i :: 0 <= i < at ==> Waits(keys, s, s.queue[i], needed, deferred)
    ensures PumpEnds(keys, s, s, needed, deferred)
  {
  }

  lemma LeftWaits(keys: Keys, s: Service, at: nat, needed: set<string>, deferred: set<string>)
    requires at < |s.queue| && TurnOf(keys, s, s.queue[at], needed, deferred).Left?
    ensures Waits(keys, s, s.queue[at], needed, deferred)
  {
  }

  lemma DropPlaced(s: Service, at: nat)
    requires Placed(s) && at < |s.queue|
    ensures Placed(s.(pending := s.pending - {s.queue[at]}, queue := Removed(s.queue, at)))
  {
    var t := s.(pending := s.pending - {s.queue[at]}, queue := Removed(s.queue, at));
    RemovedHas(s.queue, at);
    forall k | k in t.pending
      ensures (k in t.queue) != Loading(t, k)
    {
      assert Loading(t, k) <==> Loading(s, k);
    }
  }

  lemma DropWaits(keys: Keys, s: Service, at: nat, needed: set<string>, deferred: set<string>)
    requires Placed(s) && at < |s.queue| && forall i :: 0 <= i < at ==> Waits(keys, s, s.queue[i], needed, deferred)
    ensures var t := s.(pending := s.pending - {s.queue[at]}, queue := Removed(s.queue, at));
      at <= |t.queue| && forall i :: 0 <= i < at ==> Waits(keys, t, t.queue[i], needed, deferred)
  {
    RemovedAt(s.queue, at);
  }

  lemma DropEnds(keys: Keys, s: Service, at: nat, end: Service, needed: set<string>, deferred: set<string>)
    requires Placed(s) && at < |s.queue| && TurnOf(keys, s, s.queue[at], needed, deferred).Dropped?
    requires PumpEnds(keys, s.(pending := s.pending - {s.queue[at]}, queue := Removed(s.queue, at)), end, needed, deferred)
    ensures PumpEnds(keys, s, end, needed, deferred)
  {
    hide Waits;
    RemovedHas(s.queue, at);
  }

  lemma StartWaits(keys: Keys, s: Service, at: nat, needed: set<string>, deferred: set<string>)
    requires Placed(s) && at < |s.queue| && forall i :: 0 <= i < at ==> Waits(keys, s, s.queue[i], needed, deferred)
    ensures var t := Started(s, at); at <= |t.queue| && forall i :: 0 <= i < at ==> Waits(keys, t, t.queue[i], needed, deferred)
  {
    RemovedAt(s.queue, at);
    var t := Started(s, at);
    assert t.loads[..|s.loads|] == s.loads;
  }

  lemma StartEnds(keys: Keys, s: Service, at: nat, end: Service, needed: set<string>, deferred: set<string>)
    requires Placed(s) && at < |s.queue| && TurnOf(keys, s, s.queue[at], needed, deferred).Starts?
    requires PumpEnds(keys, Started(s, at), end, needed, deferred)
    ensures PumpEnds(keys, s, end, needed, deferred)
  {
    hide Waits;
    RemovedHas(s.queue, at);
    var t, n := Started(s, at), |s.loads|;
    assert end.loads[n] == t.loads[n] && t.loads[n].key == s.queue[at];
    forall key | key in s.queue && key in s.pending && key in needed
      ensures key in end.queue || HasLoad(end.loads, n, key)
    {
      if key != s.queue[at] && key !in end.queue {
        var i :| n + 1 <= i < |end.loads| && end.loads[i].key == key;
      }
    }
  }

  /** A load that is taken out counts for itself. */
  lemma {:induction false} RemotesWithout(keys: Keys, loads: seq<Load>, i: nat)
    requires i < |loads|
    ensures Remotes(keys, loads) == Remotes(keys, loads[..i] + loads[i + 1..]) + if keys.remote(loads[i].key) then 1 else 0
    decreases |loads|
  {
    var n := |loads| - 1;
    LastWithout(loads, i);
    if i < n {
      var rest := loads[..i] + loads[i + 1..];
      RemotesWithout(keys, loads[..n], i);
      assert Remotes(keys, rest) == Remotes(keys, rest[..|rest| - 1]) + if keys.remote(rest[|rest| - 1].key) then 1 else 0;
    }
  }

  lemma LastWithout(loads: seq<Load>, i: nat)
    requires i < |loads|
    ensures var n, rest := |loads| - 1, loads[..i] + loads[i + 1..];
      if i == n then rest == loads[..n]
      else rest != [] && rest[|rest| - 1] == loads[n] && rest[..|rest| - 1] == loads[..n][..i] + loads[..n][i + 1..] && loads[..n][i] == loads[i]
  {
  }

  lemma LoadsWithout(loads: seq<Load>, i: nat)
    requires i < |loads| && forall a, b :: 0 <= a < b < |loads| ==> loads[a] != loads[b]
    ensures var rest := loads[..i] + loads[i + 1..];
      && (forall load :: load in rest <==> load in loads && load != loads[i])
      && (forall a, b :: 0 <= a < b < |rest| ==> rest[a] != rest[b])
  {
    var rest := loads[..i] + loads[i + 1..];
    assert forall k :: 0 <= k < |rest| ==> rest[k] == if k < i then loads[k] else loads[k + 1];
    forall load
      ensures load in rest <==> load in loads && load != loads[i]
    {
      if load in loads && load != loads[i] {
        var k :| 0 <= k < |loads| && loads[k] == load;
        assert rest[if k < i then k else k - 1] == load;
      }
      if load in rest {
        var k :| 0 <= k < |rest| && rest[k] == load;
        assert loads[if k < i then k else k + 1] == load;
      }
    }
  }

  lemma FinishPlaced(s: Service, i: nat, transient: bool)
    requires Placed(s) && i < |s.loads| && forall a, b :: 0 <= a < b < |s.loads| ==> s.loads[a] != s.loads[b]
    ensures Placed(Finish(s, i, transient))
  {
    var work, t := s.loads[i], Finish(s, i, transient);
    LoadsWithout(s.loads, i);
    assert work in s.loads;
    assert t.queue == s.queue && (work.key in t.queue ==> work.key in t.pending) by {
      if work.key in s.pending && s.pending[work.key] == work.serial { assert Loading(s, work.key); }
    }
    forall k | k in t.pending
      ensures (k in t.queue) != Loading(t, k)
    {
      assert k in s.pending && t.pending[k] == s.pending[k] && Load(k, t.pending[k]) != work;
      assert Loading(t, k) <==> Loading(s, k);
    }
  }

  lemma FinishDated(keys: Keys, s: Service, i: nat, transient: bool)
    requires Dated(keys, s) && i < |s.loads|
    ensures Dated(keys, Finish(s, i, transient))
  {
    var work, t := s.loads[i], Finish(s, i, transient);
    LoadsWithout(s.loads, i);
    forall k
      ensures Floor(keys, t, k) == Floor(keys, s, k)
    {
    }
  }

  lemma FinishCounted(keys: Keys, s: Service, i: nat, transient: bool)
    requires Counted(keys, s) && i < |s.loads|
    ensures Counted(keys, Finish(s, i, transient))
  {
    RemotesWithout(keys, s.loads, i);
    FewerKeys(s.pending, {s.loads[i].key});
  }

  lemma FinishKeeps(keys: Keys, s: Service, i: nat, transient: bool)
    requires Sound(keys, s)
    ensures Sound(keys, Finish(s, i, transient))
  {
    if i < |s.loads| {
      FinishPlaced(s, i, transient);
      FinishDated(keys, s, i, transient);
      FinishCounted(keys, s, i, transient);
    }
  }

  lemma {:induction false} WithoutHas(queue: seq<string>, gone: set<string>)
    requires Distinct(queue)
    ensures Distinct(Without(queue, gone)) && forall key :: key in Without(queue, gone) <==> key in queue && key !in gone
  {
    if queue != [] {
      assert queue == [queue[0]] + queue[1..];
      assert forall i :: 0 <= i < |queue[1..]| ==> queue[1..][i] == queue[i + 1];
      WithoutHas(queue[1..], gone);
    }
  }

  lemma FewerKeys(m: map<string, nat>, gone: set<string>)
    ensures |m - gone| <= |m|
  {
    assert (m - gone).Keys <= m.Keys;
    Smaller((m - gone).Keys, m.Keys);
  }

  lemma {:induction false} Smaller(a: set<string>, b: set<string>)
    requires a <= b
    ensures |a| <= |b|
  {
    if a != {} {
      var x :| x in a;
      Smaller(a - {x}, b - {x});
    }
  }

  lemma InvalidatePlaced(keys: Keys, s: Service, asked: set<string>)
    requires Placed(s)
    ensures Placed(Invalidate(keys, s, asked))
  {
    hide Spread;
    var t := Invalidate(keys, s, asked);
    WithoutHas(s.queue, Spread(keys, s, asked));
    forall k | k in t.pending
      ensures (k in t.queue) != Loading(t, k)
    {
      assert Loading(t, k) <==> Loading(s, k);
    }
  }

  /** What an invalidation leaves belongs to other families, whose dates stay. */
  lemma FloorStays(keys: Keys, s: Service, asked: set<string>, k: string)
    requires (k in s.pending || k in s.cache) && k !in Spread(keys, s, asked)
    ensures Floor(keys, Invalidate(keys, s, asked), k) == Floor(keys, s, k)
  {
    assert keys.family(k) !in (set a | a in asked :: keys.family(a));
  }

  lemma InvalidateDated(keys: Keys, s: Service, asked: set<string>)
    requires Dated(keys, s)
    ensures Dated(keys, Invalidate(keys, s, asked))
  {
    hide Spread, Floor;
    var gone, t := Spread(keys, s, asked), Invalidate(keys, s, asked);
    forall k | (k in s.pending || k in s.cache) && k !in gone
      ensures Floor(keys, t, k) == Floor(keys, s, k)
    {
      FloorStays(keys, s, asked, k);
    }
  }

  lemma InvalidateKeeps(keys: Keys, s: Service, asked: set<string>)
    requires Sound(keys, s)
    ensures Sound(keys, Invalidate(keys, s, asked))
  {
    hide Placed, Dated;
    InvalidatePlaced(keys, s, asked);
    InvalidateDated(keys, s, asked);
    FewerKeys(s.pending, Spread(keys, s, asked));
  }

  lemma HandleKeeps(keys: Keys, s: Service, e: Event)
    requires Sound(keys, s)
    ensures Sound(keys, Handle(keys, s, e))
  {
    match e
    case Request(key) => EnqueueKeeps(keys, s, key);
    case Pumped(needed, deferred) => PumpKeeps(keys, s, 0, needed, deferred);
    case Finished(i, transient) => FinishKeeps(keys, s, i, transient);
    case Invalidated(asked) => InvalidateKeeps(keys, s, asked);
    case Expired(dropped) => assert forall k :: Floor(keys, s.(cache := s.cache - dropped), k) == Floor(keys, s, k);
  }

  // --------------------------------------------------------------------- runs

  function Run(keys: Keys, s: Service, events: seq<Event>): Service
    decreases |events|
  {
    if events == [] then s else Run(keys, Handle(keys, s, events[0]), events[1..])
  }

  lemma {:induction false} RunKeeps(keys: Keys, s: Service, events: seq<Event>)
    requires Sound(keys, s)
    ensures Sound(keys, Run(keys, s, events))
    decreases |events|
  {
    hide Sound, Handle;
    if events != [] {
      HandleKeeps(keys, s, events[0]);
      RunKeeps(keys, Handle(keys, s, events[0]), events[1..]);
    }
  }

  /** In every reachable state a pending key is queued exactly once or held by a running load
      with its current serial, at most two loads and one remote load run, and every value that
      is served comes from a load asked for after the last invalidation of its family. */
  lemma EveryStateIsSound(keys: Keys, events: seq<Event>)
    ensures Sound(keys, Run(keys, Idle(), events))
  {
    RunKeeps(keys, Idle(), events);
  }

  /** A load that an invalidation of its family overtook changes nothing when it ends. */
  lemma OvertakenIsDiscarded(keys: Keys, s: Service, i: nat, transient: bool)
    requires Sound(keys, s) && i < |s.loads| && s.loads[i].serial <= Floor(keys, s, s.loads[i].key)
    ensures Finish(s, i, transient).cache == s.cache && Finish(s, i, transient).pending == s.pending
  {
  }

  // ---------------------------------------------------------------- pictures

  /** The end of load `i` publishes a value for `key`. */
  predicate Publishes(s: Service, i: nat, key: string) {
    i < |s.loads| && s.loads[i].key == key && key in s.pending && s.pending[key] == s.loads[i].serial
  }

  /** A load of `key` has succeeded since the last invalidation of its family, and its value
      has not been dropped since. */
  predicate Renewed(keys: Keys, events: seq<Event>, key: string)
    decreases |events|
  {
    events != [] &&
      var n := |events| - 1;
      var before := Renewed(keys, events[..n], key);
      match events[n]
      case Finished(i, transient) => before || (!transient && Publishes(Run(keys, Idle(), events[..n]), i, key))
      case Invalidated(asked) => before && keys.family(key) !in (set a | a in asked :: keys.family(a))
      case Expired(dropped) => before && key !in dropped
      case _ => before
  }

  /** A cached picture is from after the last invalidation. */
  predicate PictureNew(keys: Keys, s: Service, key: string) {
    key in s.cache && s.cache[key].picture > Floor(keys, s, key)
  }

  lemma {:induction false} RunLast(keys: Keys, s: Service, events: seq<Event>)
    requires events != []
    ensures Run(keys, s, events) == Handle(keys, Run(keys, s, events[..|events| - 1]), events[|events| - 1])
    decreases |events|
  {
    hide Handle;
    if |events| > 1 {
      var rest := events[1..];
      assert rest[..|rest| - 1] == events[..|events| - 1][1..];
      RunLast(keys, Handle(keys, s, events[0]), rest);
    } else {
      assert events[..0] == [] && events[1..] == [];
    }
  }

  lemma {:induction false} PumpSpares(keys: Keys, s: Service, at: nat, needed: set<string>, deferred: set<string>)
    ensures Pump(keys, s, at, needed, deferred).cache == s.cache && Pump(keys, s, at, needed, deferred).floor == s.floor
    decreases |s.queue| - at
  {
    if |s.loads| < LOADS && at < |s.queue| {
      var key := s.queue[at];
      match TurnOf(keys, s, key, needed, deferred)
      case Dropped => PumpSpares(keys, s.(pending := s.pending - {key}, queue := Removed(s.queue, at)), at, needed, deferred);
      case Left => PumpSpares(keys, s, at + 1, needed, deferred);
      case Starts =>
        Shrinks(s, at);
        PumpSpares(keys, Started(s, at), at, needed, deferred);
    }
  }

  /** What one event makes of the picture of a key. */
  lemma PictureNext(keys: Keys, s: Service, e: Event, key: string)
    requires Sound(keys, s) && forall k :: k in s.cache ==> s.cache[k].picture <= s.serial
    ensures var t := Handle(keys, s, e);
      && (forall k :: k in t.cache ==> t.cache[k].picture <= t.serial)
      && PictureNew(keys, t, key) == match e
           case Finished(i, transient) => PictureNew(keys, s, key) || (!transient && Publishes(s, i, key))
           case Invalidated(asked) => PictureNew(keys, s, key) && keys.family(key) !in (set a | a in asked :: keys.family(a))
           case Expired(dropped) => PictureNew(keys, s, key) && key !in dropped
           case _ => PictureNew(keys, s, key)
  {
    hide Placed, Counted, Pump, Finish, Invalidate, Publishes;
    match e
    case Request(key') => EnqueueSpares(s, key');
    case Pumped(needed, deferred) =>
      PumpSpares(keys, s, 0, needed, deferred);
      PumpSerial(keys, s, 0, needed, deferred);
    case Finished(i, transient) => FinishPicture(keys, s, i, transient, key);
    case Invalidated(asked) => InvalidatePicture(keys, s, asked, key);
    case Expired(dropped) =>
  }

  lemma EnqueueSpares(s: Service, key: string)
    ensures var t := Enqueue(s, key); t.cache == s.cache && t.floor == s.floor && t.serial >= s.serial
  {
  }

  lemma InvalidatePicture(keys: Keys, s: Service, asked: set<string>, key: string)
    requires forall k :: k in s.cache ==> s.cache[k].picture <= s.serial
    ensures var t := Invalidate(keys, s, asked);
      && (forall k :: k in t.cache ==> t.cache[k].picture <= t.serial)
      && (PictureNew(keys, t, key) <==> PictureNew(keys, s, key) && keys.family(key) !in (set a | a in asked :: keys.family(a)))
  {
    hide Spread;
  }

  lemma {:induction false} PumpSerial(keys: Keys, s: Service, at: nat, needed: set<string>, deferred: set<string>)
    ensures Pump(keys, s, at, needed, deferred).serial == s.serial
    decreases |s.queue| - at
  {
    if |s.loads| < LOADS && at < |s.queue| {
      var key := s.queue[at];
      match TurnOf(keys, s, key, needed, deferred)
      case Dropped => PumpSerial(keys, s.(pending := s.pending - {key}, queue := Removed(s.queue, at)), at, needed, deferred);
      case Left => PumpSerial(keys, s, at + 1, needed, deferred);
      case Starts =>
        Shrinks(s, at);
        PumpSerial(keys, Started(s, at), at, needed, deferred);
    }
  }

  lemma FinishPicture(keys: Keys, s: Service, i: nat, transient: bool, key: string)
    requires Dated(keys, s) && forall k :: k in s.cache ==> s.cache[k].picture <= s.serial
    ensures var t := Finish(s, i, transient);
      && (forall k :: k in t.cache ==> t.cache[k].picture <= t.serial)
      && (PictureNew(keys, t, key) <==> PictureNew(keys, s, key) || (!transient && Publishes(s, i, key)))
  {
  }

  /** In every reachable state, what is cached for a key shows a picture from after the last
      invalidation of its family exactly when a load of this key has succeeded since then. */
  lemma {:induction false} PictureNewExactly(keys: Keys, events: seq<Event>, key: string)
    ensures var s := Run(keys, Idle(), events);
      (PictureNew(keys, s, key) <==> Renewed(keys, events, key)) && forall k :: k in s.cache ==> s.cache[k].picture <= s.serial
    decreases |events|
  {
    hide Sound, Handle, PictureNew, Publishes;
    if events == [] {
      NoPictures(keys, key);
    } else {
      var n := |events| - 1;
      PictureNewExactly(keys, events[..n], key);
      EveryStateIsSound(keys, events[..n]);
      RunLast(keys, Idle(), events);
      PictureNext(keys, Run(keys, Idle(), events[..n]), events[n], key);
    }
  }

  lemma NoPictures(keys: Keys, key: string)
    ensures !PictureNew(keys, Idle(), key)
  {
  }

  /** Loaded, invalidated, and asked for again. */
  function Reloaded(key: string): seq<Event> {
    [Request(key), Pumped({key}, {}), Finished(0, false), Invalidated({key}), Request(key), Pumped({key}, {}), Finished(0, true)]
  }

  lemma OneLoad(keys: Keys, s: Service, key: string)
    requires s.queue == [] && s.loads == [] && s.pending == map[]
    ensures Handle(keys, Handle(keys, s, Request(key)), Pumped({key}, {}))
      == s.(serial := s.serial + 1, pending := map[key := s.serial + 1], loads := [Load(key, s.serial + 1)])
  {
    var t := Enqueue(s, key);
    assert t.queue == [key] && t.pending == map[key := s.serial + 1];
    assert Removed([key], 0) == [] && Remotes(keys, []) == 0;
    assert Pump(keys, t, 0, {key}, {}) == Pump(keys, Started(t, 0), 0, {key}, {});
  }

  /** A picture is loaded, its family is invalidated, and the load that follows fails
      transiently: the old picture is cached as a new value and served. */
  lemma OldPictureServed(keys: Keys, key: string)
    ensures var s := Run(keys, Idle(), Reloaded(key)); key in s.cache && s.cache[key].served && !PictureNew(keys, s, key)
  {
    hide Handle, Run;
    var e, s0 := Reloaded(key), Idle();
    var s2 := s0.(serial := 1, pending := map[key := 1], loads := [Load(key, 1)]);
    OneLoad(keys, s0, key);
    var s3 := s0.(serial := 1, cache := map[key := Cached(1, 1, true)]);
    FirstLoaded(keys, key, s2, s3);
    var s4 := s3.(cache := map[key := Cached(1, 1, false)], floor := map[keys.family(key) := 1]);
    FirstInvalidated(keys, key, s3, s4);
    var s6 := s4.(serial := 2, pending := map[key := 2], loads := [Load(key, 2)]);
    OneLoad(keys, s4, key);
    var s7 := s4.(serial := 2, cache := map[key := Cached(2, 1, true)]);
    SecondFailed(keys, key, s6, s7);
    SevenEvents(keys, s0, e);
  }

  lemma FirstLoaded(keys: Keys, key: string, s: Service, t: Service)
    requires s == Service(map[key := 1], [], [Load(key, 1)], 1, map[], map[]) && t == Service(map[], [], [], 1, map[key := Cached(1, 1, true)], map[])
    ensures Handle(keys, s, Finished(0, false)) == t
  {
    assert s.loads[..0] + s.loads[1..] == [] && s.pending - {key} == map[];
  }

  lemma FirstInvalidated(keys: Keys, key: string, s: Service, t: Service)
    requires s == Service(map[], [], [], 1, map[key := Cached(1, 1, true)], map[])
    requires t == Service(map[], [], [], 1, map[key := Cached(1, 1, false)], map[keys.family(key) := 1])
    ensures Handle(keys, s, Invalidated({key})) == t
  {
    var r := Invalidate(keys, s, {key});
    assert (set k | k in {key} :: keys.family(k)) == {keys.family(key)};
    assert r.cache == t.cache && r.floor == t.floor && r.pending == t.pending;
  }

  lemma SecondFailed(keys: Keys, key: string, s: Service, t: Service)
    requires s == Service(map[key := 2], [], [Load(key, 2)], 2, map[key := Cached(1, 1, false)], map[keys.family(key) := 1])
    requires t == Service(map[], [], [], 2, map[key := Cached(2, 1, true)], map[keys.family(key) := 1])
    ensures Handle(keys, s, Finished(0, true)) == t && !PictureNew(keys, t, key)
  {
    assert s.loads[..0] + s.loads[1..] == [] && s.pending - {key} == map[];
  }

  lemma SevenEvents(keys: Keys, s: Service, e: seq<Event>)
    requires |e| == 7
    ensures Run(keys, s, e) == Handle(keys, Handle(keys, Handle(keys, Handle(keys, Handle(keys, Handle(keys, Handle(keys, s, e[0]), e[1]), e[2]), e[3]), e[4]), e[5]), e[6])
  {
    hide Handle;
    var s1 := Handle(keys, s, e[0]);
    var s2 := Handle(keys, s1, e[1]);
    var s3 := Handle(keys, s2, e[2]);
    var s4 := Handle(keys, s3, e[3]);
    var s5 := Handle(keys, s4, e[4]);
    var s6 := Handle(keys, s5, e[5]);
    assert e[1..][1..] == e[2..] && e[2..][1..] == e[3..] && e[3..][1..] == e[4..] && e[4..][1..] == e[5..] && e[5..][1..] == e[6..] && e[6..][1..] == [];
    assert Run(keys, s, e) == Run(keys, s1, e[1..]) == Run(keys, s2, e[2..]) == Run(keys, s3, e[3..]);
    assert Run(keys, s3, e[3..]) == Run(keys, s4, e[4..]) == Run(keys, s5, e[5..]) == Run(keys, s6, e[6..]);
    assert Run(keys, s6, e[6..]) == Run(keys, Handle(keys, s6, e[6]), []) == Handle(keys, s6, e[6]);
  }
}
