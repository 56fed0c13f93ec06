/** The icon service as one object: queue, running loads and cache changed in place. */
module IconLoader {
  import opened IconService

  class Loader {
    const keys: Keys
    var pending: map<string, nat>
    var queue: seq<string>
    var loads: seq<Load>
    var remoteRunning: nat
    var serial: nat
    var cache: map<string, Cached>
    ghost var floor: map<string, nat>

    constructor (keys: Keys)
      ensures this.keys == keys && Counting() && State() == Idle()
    {
      this.keys := keys;
      pending, queue, loads, remoteRunning, serial, cache, floor := map[], [], [], 0, 0, map[], map[];
    }

    ghost function State(): Service
      reads this
    {
      Service(pending, queue, loads, serial, cache, floor)
    }

    /** The counter of network loads is right. */
    predicate Counting()
      reads this
    {
      remoteRunning == Remotes(keys, loads)
    }

    method Enqueue(key: string)
      modifies this`pending, this`queue, this`serial
      ensures State() == IconService.Enqueue(old(State()), key)
    {
      if key in pending || |pending| >= BUDGET { return; }
      serial := serial + 1;
      pending := pending[key := serial];
      queue := queue + [key];
    }

    method Start(at: nat)
      requires Counting() && at < |queue| && queue[at] in pending
      modifies this`queue, this`loads, this`remoteRunning
      ensures Counting() && State() == Started(old(State()), at)
    {
      var key := queue[at];
      var load := Load(key, pending[key]);
      assert (loads + [load])[..|loads|] == loads;
      queue := Removed(queue, at);
      loads := loads + [load];
      if keys.remote(key) { remoteRunning := remoteRunning + 1; }
    }

    method Pump(needed: set<string>, deferred: set<string>)
      requires Counting()
      modifies this`pending, this`queue, this`loads, this`remoteRunning
      ensures Counting() && State() == IconService.Pump(keys, old(State()), 0, needed, deferred)
    {
      hide Started, Removed, Remotes;
      var at := 0;
      while |loads| < LOADS && at < |queue|
        invariant Counting()
        invariant IconService.Pump(keys, State(), at, needed, deferred) == IconService.Pump(keys, old(State()), 0, needed, deferred)
        decreases |queue| - at
      {
        var key := queue[at];
        if key !in pending || key !in needed {
          RemovedAt(queue, at);
          pending, queue := pending - {key}, Removed(queue, at);
        } else if key in deferred || (keys.remote(key) && remoteRunning > 0) {
          at := at + 1;
        } else {
          Shrinks(State(), at);
          Start(at);
        }
      }
    }

    method Finish(i: nat, transient: bool)
      requires Counting() && i < |loads|
      modifies this`pending, this`loads, this`remoteRunning, this`cache
      ensures Counting() && State() == IconService.Finish(old(State()), i, transient)
    {
      var work := loads[i];
      RemotesWithout(keys, loads, i);
      loads := loads[..i] + loads[i + 1..];
      if keys.remote(work.key) { remoteRunning := remoteRunning - 1; }
      if work.key !in pending || pending[work.key] != work.serial { return; }
      pending := pending - {work.key};
      var picture := work.serial;
      if transient { picture := if work.key in cache then cache[work.key].picture else 0; }
      cache := cache[work.key := Cached(work.serial, picture, true)];
    }

    /** Invalidates the families of the keys asked for. */
    method Invalidate(asked: set<string>)
      modifies this`pending, this`queue, this`cache, this`floor
      ensures State() == IconService.Invalidate(keys, old(State()), asked)
    {
      var families := set k | k in asked :: keys.family(k);
      var gone := asked + (set k | k in cache && keys.family(k) in families) + (set k | k in pending && keys.family(k) in families);
      pending := pending - gone;
      queue := Without(queue, gone);
      cache := map k | k in cache :: if k in gone then cache[k].(served := false) else cache[k];
      floor := map f | f in floor.Keys + families :: if f in families then serial else floor[f];
    }
  }
}
