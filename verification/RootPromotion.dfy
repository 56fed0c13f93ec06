/** Refreshing the carried ROOT files outside an update: which copies are stale, when nothing is
    touched, and in which order the stale ones are replaced. */
module RootPromotion {
  import opened UpdateJournal
  import opened JournalStore
  import opened UpdateTransaction
  import opened UpdateRecovery
  import opened UpdatePromotion

  type Root = map<string, string>

  predicate Current(p: Policy, root: Root, c: Carried) {
    p.fold(c.copy.name) in root && root[p.fold(c.copy.name)] == c.copy.hash
  }

  function StaleOf(p: Policy, root: Root, bundle: seq<Carried>): seq<Carried> {
    if bundle == [] then []
    else if Current(p, root, bundle[0]) then StaleOf(p, root, bundle[1..])
    else [bundle[0]] + StaleOf(p, root, bundle[1..])
  }

  function Reversed(bundle: seq<Carried>): (r: seq<Carried>)
    ensures |r| == |bundle| && forall i :: 0 <= i < |r| ==> r[i] == bundle[|bundle| - 1 - i]
  {
    seq(|bundle|, i requires 0 <= i < |bundle| => bundle[|bundle| - 1 - i])
  }

  datatype Status = Done | Waiting | Busy | Foreign | Failed

  /** What the service finds besides the files: names whose ROOT file is not signed, whether a
      program of the bundle runs, and whether it is elevated. */
  datatype Scene = Scene(unsigned: set<string>, running: bool, elevated: bool)

  predicate SomeForeign(p: Policy, root: Root, stale: seq<Carried>, scene: Scene) {
    exists i :: 0 <= i < |stale| && p.fold(stale[i].copy.name) in root && stale[i].copy.name in scene.unsigned
  }

  predicate CarriersHold(stale: seq<Carried>) {
    forall i :: 0 <= i < |stale| ==> stale[i].content == stale[i].copy.hash
  }

  /** `bundle` lists each program before its worker. */
  function Promote(p: Policy, d: Disk, bundle: seq<Carried>, scene: Scene, script: seq<Event>): (Status, Disk) {
    var stale := StaleOf(p, d.root, Reversed(bundle));
    if stale == [] then (Done, d)
    else if SomeForeign(p, d.root, stale, scene) then (Foreign, d)
    else if scene.running then (Busy, d)
    else if !CarriersHold(stale) then (Failed, d)
    else if d.active && scene.elevated then (Waiting, d)
    else
      var r := if d.active then PlaceWithin(p, d, stale, script) else PlaceAll(p, d, stale, script);
      if r.end.Finished? then (Done, r.disk) else if r.end.Rejected? then (Waiting, r.disk) else (Failed, r.disk)
  }

  // ------------------------------------------------------------------- order

  lemma {:induction false} StaleSame(p: Policy, was: Root, now: Root, bundle: seq<Carried>)
    requires forall i :: 0 <= i < |bundle| ==> SameAt(was, now, p.fold(bundle[i].copy.name))
    ensures StaleOf(p, was, bundle) == StaleOf(p, now, bundle)
  {
    if bundle != [] {
      assert forall i :: 0 <= i < |bundle[1..]| ==> bundle[1..][i] == bundle[i + 1];
      StaleSame(p, was, now, bundle[1..]);
    }
  }

  /** Placing leaves every name alone that is not among the copies. */
  lemma {:induction false} PlaceAllSpares(p: Policy, d: Disk, copies: seq<Carried>, script: seq<Event>, k: string)
    requires !NamedBy(p, copies, k)
    ensures SameAt(PlaceAll(p, d, copies, script).disk.root, d.root, k)
    decreases |copies|
  {
    if copies != [] {
      PlaceOneEffect(p, d, copies[0], script);
      var r := PlaceOne(p, d, copies[0], script);
      assert !NamedBy(p, copies[1..], k) by {
        assert forall i :: 0 <= i < |copies[1..]| ==> copies[1..][i] == copies[i + 1];
      }
      assert p.fold(copies[0].copy.name) != k;
      if r.end.Finished? { PlaceAllSpares(p, r.disk, copies[1..], r.rest, k); }
    }
  }

  lemma NobodyNamed(p: Policy, k: string)
    ensures !NamedBy(p, [], k)
  {
  }

  lemma NamedByNext(p: Policy, c: Carried, rest: seq<Carried>, k: string)
    requires p.fold(c.copy.name) != k && !NamedBy(p, rest, k)
    ensures !NamedBy(p, [c] + rest, k)
  {
    var all := [c] + rest;
    forall i | 0 <= i < |all|
      ensures p.fold(all[i].copy.name) != k
    {
      if i > 0 { assert all[i] == rest[i - 1]; }
    }
  }

  lemma {:induction false} StaleNames(p: Policy, root: Root, bundle: seq<Carried>, k: string)
    requires forall i :: 0 <= i < |bundle| ==> p.fold(bundle[i].copy.name) != k
    ensures !NamedBy(p, StaleOf(p, root, bundle), k)
  {
    if bundle != [] {
      assert forall i :: 0 <= i < |bundle[1..]| ==> bundle[1..][i] == bundle[i + 1];
      hide NamedBy;
      StaleNames(p, root, bundle[1..], k);
      NamedByNext(p, bundle[0], StaleOf(p, root, bundle[1..]), k);
    } else {
      NobodyNamed(p, k);
    }
  }

  ghost predicate NamesApart(p: Policy, bundle: seq<Carried>) {
    forall i, j :: 0 <= i < j < |bundle| ==> p.fold(bundle[i].copy.name) != p.fold(bundle[j].copy.name)
  }

  /** A later copy of the list that was stale and is current now has every earlier one
      current. */
  ghost predicate InTurn(p: Policy, was: Root, now: Root, ordered: seq<Carried>) {
    forall a, b :: 0 <= a < b < |ordered| && !Current(p, was, ordered[b]) && Current(p, now, ordered[b]) ==> Current(p, now, ordered[a])
  }

  /** Stale copies are replaced in the order of the list, and a failure stops the rest. */
  lemma {:induction false} PlacedInTurn(p: Policy, d: Disk, ordered: seq<Carried>, script: seq<Event>)
    requires NamesApart(p, ordered)
    ensures InTurn(p, d.root, PlaceAll(p, d, StaleOf(p, d.root, ordered), script).disk.root, ordered)
    decreases |ordered|
  {
    hide PlaceOne, PlaceAll;
    if ordered != [] {
      var head, tail := ordered[0], ordered[1..];
      var k := p.fold(head.copy.name);
      assert forall i :: 0 <= i < |tail| ==> tail[i] == ordered[i + 1];
      StaleNames(p, d.root, tail, k);
      if Current(p, d.root, head) {
        PlacedInTurn(p, d, tail, script);
        PlaceAllSpares(p, d, StaleOf(p, d.root, tail), script, k);
        TurnExtends(p, d.root, d.root, PlaceAll(p, d, StaleOf(p, d.root, tail), script).disk.root, ordered);
      } else {
        var stale := StaleOf(p, d.root, tail);
        assert ([head] + stale)[1..] == stale;
        var r := PlaceOne(p, d, head, script);
        PlaceOneEffect(p, d, head, script);
        PlaceStep(p, d, [head] + stale, script);
        if r.end.Finished? {
          StaleSame(p, d.root, r.disk.root, tail);
          StaleNames(p, r.disk.root, tail, k);
          PlacedInTurn(p, r.disk, tail, r.rest);
          PlaceAllSpares(p, r.disk, stale, r.rest, k);
          TurnExtends(p, d.root, r.disk.root, PlaceAll(p, r.disk, stale, r.rest).disk.root, ordered);
        }
      }
    }
  }

  lemma PlaceStep(p: Policy, d: Disk, copies: seq<Carried>, script: seq<Event>)
    requires copies != []
    ensures var r := PlaceOne(p, d, copies[0], script);
      PlaceAll(p, d, copies, script) == if r.end.Finished? then PlaceAll(p, r.disk, copies[1..], r.rest) else r
  {
    hide PlaceOne;
  }

  /** A list whose head is current follows its tail. */
  lemma TurnExtends(p: Policy, was: Root, mid: Root, now: Root, ordered: seq<Carried>)
    requires ordered != [] && NamesApart(p, ordered) && InTurn(p, mid, now, ordered[1..])
    requires Current(p, mid, ordered[0]) && SameAt(now, mid, p.fold(ordered[0].copy.name))
    requires forall i :: 1 <= i < |ordered| ==> SameAt(was, mid, p.fold(ordered[i].copy.name))
    ensures InTurn(p, was, now, ordered)
  {
    var tail := ordered[1..];
    forall a, b | 0 <= a < b < |ordered| && !Current(p, was, ordered[b]) && Current(p, now, ordered[b])
      ensures Current(p, now, ordered[a])
    {
      if a > 0 { assert tail[a - 1] == ordered[a] && tail[b - 1] == ordered[b]; }
    }
  }

  /** Workers change first: whatever is refused or interrupted, a program that was replaced
      finds every later entry of the bundle, its worker among them, current. */
  lemma WorkersChangeFirst(p: Policy, d: Disk, bundle: seq<Carried>, scene: Scene, script: seq<Event>)
    requires NamesApart(p, bundle)
    ensures var now := Promote(p, d, bundle, scene, script).1.root;
      forall i, j :: 0 <= i < j < |bundle| && !Current(p, d.root, bundle[i]) && Current(p, now, bundle[i]) ==> Current(p, now, bundle[j])
  {
    hide Promote, Current, InTurn;
    var ordered, n := Reversed(bundle), |bundle|;
    assert NamesApart(p, ordered);
    PromotesInTurn(p, d, bundle, scene, script);
    var now := Promote(p, d, bundle, scene, script).1.root;
    TurnMeans(p, d.root, now, ordered);
    forall i, j | 0 <= i < j < n && !Current(p, d.root, bundle[i]) && Current(p, now, bundle[i])
      ensures Current(p, now, bundle[j])
    {
      assert ordered[n - 1 - i] == bundle[i] && ordered[n - 1 - j] == bundle[j];
    }
  }

  lemma TurnMeans(p: Policy, was: Root, now: Root, ordered: seq<Carried>)
    requires InTurn(p, was, now, ordered)
    ensures forall a, b :: 0 <= a < b < |ordered| && !Current(p, was, ordered[b]) && Current(p, now, ordered[b]) ==> Current(p, now, ordered[a])
  {
  }

  lemma PromotesInTurn(p: Policy, d: Disk, bundle: seq<Carried>, scene: Scene, script: seq<Event>)
    requires NamesApart(p, Reversed(bundle))
    ensures InTurn(p, d.root, Promote(p, d, bundle, scene, script).1.root, Reversed(bundle))
  {
    var ordered := Reversed(bundle);
    NoTurn(p, d.root, ordered);
    hide PlaceAll, RecordCopies, SomeForeign, InTurn, StaleOf, Reversed;
    var stale := StaleOf(p, d.root, ordered);
    PlacedInTurn(p, d, ordered, script);
    if d.active && RecordCopies(p, d.journal, stale).Extended? {
      var saved := Save(d, RecordCopies(p, d.journal, stale).journal, script);
      PlacedInTurn(p, saved.disk, ordered, saved.rest);
    }
  }

  lemma NoTurn(p: Policy, root: Root, ordered: seq<Carried>)
    ensures InTurn(p, root, root, ordered)
  {
  }

  // ---------------------------------------------------------------- outcome

  ghost predicate AllCurrent(p: Policy, root: Root, ordered: seq<Carried>) {
    forall i :: 0 <= i < |ordered| ==> Current(p, root, ordered[i])
  }

  /** Every name is as it was, or holds the copy of that name. */
  ghost predicate Whole(p: Policy, was: Root, now: Root, ordered: seq<Carried>) {
    forall k :: SameAt(now, was, k) || exists i :: 0 <= i < |ordered| && p.fold(ordered[i].copy.name) == k && Current(p, now, ordered[i])
  }

  lemma CurrentKept(p: Policy, was: Root, now: Root, c: Carried)
    requires SameAt(now, was, p.fold(c.copy.name))
    ensures Current(p, now, c) <==> Current(p, was, c)
  {
  }

  /** One more copy at the head of the list, whose name nothing later touches. */
  lemma OneMore(p: Policy, was: Root, mid: Root, now: Root, ordered: seq<Carried>)
    requires ordered != [] && Whole(p, mid, now, ordered[1..])
    requires var k := p.fold(ordered[0].copy.name);
      SameAt(now, mid, k) && (forall x :: x != k ==> SameAt(mid, was, x)) && (SameAt(mid, was, k) || Current(p, mid, ordered[0]))
    ensures Whole(p, was, now, ordered)
    ensures AllCurrent(p, now, ordered) <==> Current(p, mid, ordered[0]) && AllCurrent(p, now, ordered[1..])
  {
    var tail := ordered[1..];
    CurrentKept(p, mid, now, ordered[0]);
    forall k
      ensures SameAt(now, was, k) || exists i :: 0 <= i < |ordered| && p.fold(ordered[i].copy.name) == k && Current(p, now, ordered[i])
    {
      if i :| 0 <= i < |tail| && p.fold(tail[i].copy.name) == k && Current(p, now, tail[i]) {
        assert ordered[i + 1] == tail[i];
      } else if k == p.fold(ordered[0].copy.name) {
        assert SameAt(now, mid, k) && (SameAt(mid, was, k) || Current(p, now, ordered[0]));
      } else {
        assert SameAt(now, mid, k) && SameAt(mid, was, k);
      }
    }
    assert forall i :: 0 <= i < |tail| ==> tail[i] == ordered[i + 1];
    if Current(p, mid, ordered[0]) && AllCurrent(p, now, tail) {
      forall i | 0 <= i < |ordered|
        ensures Current(p, now, ordered[i])
      {
        if i > 0 { assert Current(p, now, tail[i - 1]); }
      }
    }
  }

  /** Placing the stale copies finishes exactly when everything is current afterwards. */
  lemma {:induction false} PlacesStale(p: Policy, d: Disk, ordered: seq<Carried>, script: seq<Event>)
    requires NamesApart(p, ordered)
    ensures var r := PlaceAll(p, d, StaleOf(p, d.root, ordered), script);
      (r.end.Finished? <==> AllCurrent(p, r.disk.root, ordered)) && Whole(p, d.root, r.disk.root, ordered)
    decreases |ordered|
  {
    hide PlaceOne, PlaceAll, AllCurrent, Whole;
    if ordered == [] {
      NothingToPlace(p, d, script);
    } else {
      var head, tail := ordered[0], ordered[1..];
      var k := p.fold(head.copy.name);
      assert forall i :: 0 <= i < |tail| ==> tail[i] == ordered[i + 1];
      StaleNames(p, d.root, tail, k);
      var stale := StaleOf(p, d.root, tail);
      if Current(p, d.root, head) {
        PlacesStale(p, d, tail, script);
        PlaceAllSpares(p, d, stale, script, k);
        OneMore(p, d.root, d.root, PlaceAll(p, d, stale, script).disk.root, ordered);
      } else {
        assert ([head] + stale)[1..] == stale;
        var r := PlaceOne(p, d, head, script);
        PlaceOneEffect(p, d, head, script);
        PlaceStep(p, d, [head] + stale, script);
        if r.end.Finished? {
          StaleSame(p, d.root, r.disk.root, tail);
          StaleNames(p, r.disk.root, tail, k);
          PlacesStale(p, r.disk, tail, r.rest);
          PlaceAllSpares(p, r.disk, stale, r.rest, k);
          OneMore(p, d.root, r.disk.root, PlaceAll(p, r.disk, stale, r.rest).disk.root, ordered);
        } else {
          NoneChanged(p, d.root, tail);
          OneMore(p, d.root, d.root, d.root, ordered);
        }
      }
    }
  }

  lemma NothingToPlace(p: Policy, d: Disk, script: seq<Event>)
    ensures PlaceAll(p, d, StaleOf(p, d.root, []), script) == Run(Finished, d, script)
    ensures AllCurrent(p, d.root, []) && Whole(p, d.root, d.root, [])
  {
  }

  lemma NoneChanged(p: Policy, root: Root, ordered: seq<Carried>)
    ensures Whole(p, root, root, ordered)
  {
  }

  lemma {:induction false} NoneStale(p: Policy, root: Root, ordered: seq<Carried>)
    ensures StaleOf(p, root, ordered) == [] <==> AllCurrent(p, root, ordered)
  {
    if ordered != [] {
      var tail := ordered[1..];
      NoneStale(p, root, tail);
      assert forall i :: 0 <= i < |tail| ==> tail[i] == ordered[i + 1];
      if Current(p, root, ordered[0]) && AllCurrent(p, root, tail) {
        forall i | 0 <= i < |ordered|
          ensures Current(p, root, ordered[i])
        {
          if i > 0 { assert Current(p, root, tail[i - 1]); }
        }
      }
    }
  }

  /** Promotion tells the truth: it reports success exactly when every file of the bundle is
      current afterwards. However it ends, every ROOT name is as it was or holds its copy
      whole, and nothing is touched while a stale file is foreign, a program runs, a carrier
      is damaged, or an elevated process meets an update. */
  lemma DoneExactly(p: Policy, d: Disk, bundle: seq<Carried>, scene: Scene, script: seq<Event>)
    requires NamesApart(p, Reversed(bundle))
    ensures var (status, now) := Promote(p, d, bundle, scene, script);
      && (status.Done? <==> AllCurrent(p, now.root, bundle))
      && Whole(p, d.root, now.root, Reversed(bundle))
      && (status.Foreign? || status.Busy? || scene.running || (d.active && scene.elevated) ==> now == d)
  {
    hide PlaceAll, PlaceWithin, SomeForeign, Whole, AllCurrent, StaleOf, Reversed;
    var ordered := Reversed(bundle);
    NoneStale(p, d.root, ordered);
    NoneChanged(p, d.root, ordered);
    PlacesStale(p, d, ordered, script);
    WithinPlaces(p, d, ordered, script);
    ReversedCurrent(p, Promote(p, d, bundle, scene, script).1.root, bundle);
  }

  lemma WithinPlaces(p: Policy, d: Disk, ordered: seq<Carried>, script: seq<Event>)
    requires NamesApart(p, ordered)
    ensures var stale := StaleOf(p, d.root, ordered);
      var r := PlaceWithin(p, d, stale, script);
      stale != [] ==> (r.end.Finished? <==> AllCurrent(p, r.disk.root, ordered)) && Whole(p, d.root, r.disk.root, ordered)
  {
    hide PlaceAll, RecordCopies, Whole, AllCurrent, StaleOf, Storable;
    var stale := StaleOf(p, d.root, ordered);
    NoneStale(p, d.root, ordered);
    NoneChanged(p, d.root, ordered);
    if d.active && RecordCopies(p, d.journal, stale).Extended? {
      var j := RecordCopies(p, d.journal, stale).journal;
      var saved := if j != d.journal then Save(d, j, script) else Run(Finished, d, script);
      PlacesStale(p, saved.disk, ordered, saved.rest);
    }
  }

  lemma ReversedCurrent(p: Policy, root: Root, bundle: seq<Carried>)
    ensures AllCurrent(p, root, bundle) <==> AllCurrent(p, root, Reversed(bundle))
  {
    var ordered, n := Reversed(bundle), |bundle|;
    assert forall i :: 0 <= i < n ==> bundle[i] == ordered[n - 1 - i];
    if AllCurrent(p, root, ordered) {
      forall i | 0 <= i < n
        ensures Current(p, root, bundle[i])
      {
        assert Current(p, root, ordered[n - 1 - i]);
      }
    }
  }

  // ---------------------------------------------------------------- success

  /** No entry of this name already has another replacement. */
  predicate Compatible(p: Policy, j: Journal, c: RootCopy) {
    forall i :: 0 <= i < |j.files| && SameName(p, j.files[i].name, c.name) ==> j.files[i].replacement == "" || j.files[i].replacement == c.hash
  }

  lemma RecordCopyExactly(p: Policy, j: Journal, c: RootCopy)
    requires Apart(p, j.files, [])
    ensures RecordCopy(p, j, c).Extended? <==> Compatible(p, j, c)
  {
  }

  /** Recording one copy does not decide about another name. */
  lemma StillCompatible(p: Policy, j: Journal, c: RootCopy, other: RootCopy)
    requires Apart(p, j.files, []) && RecordCopy(p, j, c).Extended? && !SameName(p, c.name, other.name)
    ensures Compatible(p, RecordCopy(p, j, c).journal, other) <==> Compatible(p, j, other)
  {
    var j' := RecordCopy(p, j, c).journal;
    assert |j'.files| == |j.files| && forall i :: 0 <= i < |j.files| ==> j'.files[i].name == j.files[i].name;
    forall i | 0 <= i < |j.files| && SameName(p, j.files[i].name, other.name)
      ensures j'.files[i] == j.files[i]
    {
    }
  }

  /** Copies of different names can be recorded exactly if each is compatible. */
  lemma {:induction false} RecordedExactly(p: Policy, j: Journal, copies: seq<Carried>)
    requires Apart(p, j.files, []) && DistinctCopies(p, copies)
    ensures RecordCopies(p, j, copies).Extended? <==> forall i :: 0 <= i < |copies| ==> Compatible(p, j, copies[i].copy)
    decreases |copies|
  {
    hide RecordCopy, Compatible, Apart;
    if copies != [] {
      var c, rest := copies[0].copy, copies[1..];
      assert forall i :: 0 <= i < |rest| ==> rest[i] == copies[i + 1];
      RecordCopyExactly(p, j, c);
      if RecordCopy(p, j, c).Extended? {
        var j' := RecordCopy(p, j, c).journal;
        StillApart(p, j, c);
        RecordedExactly(p, j', rest);
        forall i | 0 <= i < |rest|
          ensures Compatible(p, j', rest[i].copy) <==> Compatible(p, j, rest[i].copy)
        {
          StillCompatible(p, j, c, rest[i].copy);
        }
      }
    }
  }

  lemma StillApart(p: Policy, j: Journal, c: RootCopy)
    requires Apart(p, j.files, []) && RecordCopy(p, j, c).Extended?
    ensures Apart(p, RecordCopy(p, j, c).journal.files, [])
  {
  }

  /** Undisturbed, placing goes through exactly if every carrier is intact. */
  lemma {:induction false} PlaceAllExactly(p: Policy, d: Disk, copies: seq<Carried>)
    ensures var r := PlaceAll(p, d, copies, []); (r.end.Finished? <==> CarriersHold(copies)) && !r.end.Rejected?
    decreases |copies|
  {
    hide PlaceOne;
    if copies != [] {
      PlaceOneAlone(p, d, copies[0]);
      var r := PlaceOne(p, d, copies[0], []);
      if r.end.Finished? { PlaceAllExactly(p, r.disk, copies[1..]); }
      assert forall i :: 0 <= i < |copies[1..]| ==> copies[1..][i] == copies[i + 1];
    }
  }

  lemma {:induction false} StaleMembers(p: Policy, root: Root, bundle: seq<Carried>)
    ensures forall c :: c in StaleOf(p, root, bundle) <==> c in bundle && !Current(p, root, c)
  {
    if bundle != [] { StaleMembers(p, root, bundle[1..]); }
  }

  lemma {:induction false} StaleDistinct(p: Policy, root: Root, bundle: seq<Carried>)
    requires NamesApart(p, bundle)
    ensures DistinctCopies(p, StaleOf(p, root, bundle))
  {
    if bundle != [] {
      var tail := StaleOf(p, root, bundle[1..]);
      StaleDistinct(p, root, bundle[1..]);
      StaleMembers(p, root, bundle[1..]);
      forall i | 0 <= i < |tail|
        ensures p.fold(bundle[0].copy.name) != p.fold(tail[i].copy.name)
      {
        assert tail[i] in tail;
        var m :| 0 <= m < |bundle[1..]| && bundle[1..][m] == tail[i];
        assert bundle[m + 1] == tail[i];
      }
    }
  }

  /** The journal once the copies are entered. */
  function WithCopies(p: Policy, j: Journal, copies: seq<Carried>): Journal {
    match RecordCopies(p, j, copies) case Extended(j') => j' case Pending => j
  }

  /** Whether nothing that the service can see stands in the way of refreshing `c`. */
  predicate Replaceable(p: Policy, d: Disk, scene: Scene, c: Carried) {
    && (p.fold(c.copy.name) in d.root ==> c.copy.name !in scene.unsigned)
    && c.content == c.copy.hash
    && (d.active ==> Compatible(p, d.journal, c.copy))
  }

  /** An active update that takes further copies: it awaits its health check, and the record
      with the copies can be saved. */
  predicate TakesCopies(p: Policy, d: Disk, stale: seq<Carried>) {
    var j := WithCopies(p, d.journal, stale);
    Accepted(p, d.journal) && d.journal.state == "installed" && (j == d.journal || Storable(j))
  }

  /** Undisturbed, promotion succeeds exactly if nothing is stale, or nothing runs, every
      stale file can be replaced, and an active update takes the copies from a process that
      is not elevated. */
  lemma PromotesExactly(p: Policy, d: Disk, bundle: seq<Carried>, scene: Scene)
    requires NamesApart(p, Reversed(bundle))
    ensures Promote(p, d, bundle, scene, []).0.Done? <==>
      || AllCurrent(p, d.root, bundle)
      || (&& !scene.running
          && (forall c :: c in bundle && !Current(p, d.root, c) ==> Replaceable(p, d, scene, c))
          && (d.active ==> !scene.elevated && TakesCopies(p, d, StaleOf(p, d.root, Reversed(bundle)))))
  {
    hide PlaceAll, PlaceWithin, StaleOf, Reversed, Current, Compatible, TakesCopies, AllCurrent, Storable, RecordCopies;
    var ordered := Reversed(bundle);
    var stale := StaleOf(p, d.root, ordered);
    NoneStale(p, d.root, ordered);
    ReversedCurrent(p, d.root, bundle);
    StaleMembers(p, d.root, ordered);
    ReversedMembers(bundle);
    StaleDistinct(p, d.root, ordered);
    PlaceAllExactly(p, d, stale);
    AllReplaceable(p, d, scene, stale);
    if d.active && CarriersHold(stale) { WithinExactly(p, d, stale); }
  }

  /** Undisturbed, promotion asks to be tried again later exactly if some file is stale, none that
      is present is unsigned, no program runs, the carriers are intact, and an active update
      is met by an elevated process, does not await its health check, or has an entry with
      another replacement. */
  lemma WaitsExactly(p: Policy, d: Disk, bundle: seq<Carried>, scene: Scene)
    requires NamesApart(p, Reversed(bundle))
    ensures var stale := StaleOf(p, d.root, Reversed(bundle));
      Promote(p, d, bundle, scene, []).0.Waiting? <==>
        && stale != [] && !SomeForeign(p, d.root, stale, scene) && !scene.running && CarriersHold(stale) && d.active
        && (|| scene.elevated || !Accepted(p, d.journal) || d.journal.state != "installed"
            || exists i :: 0 <= i < |stale| && !Compatible(p, d.journal, stale[i].copy))
  {
    hide PlaceAll, RecordCopies, StaleOf, Reversed, Current, Compatible, Storable, SomeForeign;
    var ordered := Reversed(bundle);
    var stale := StaleOf(p, d.root, ordered);
    StaleDistinct(p, d.root, ordered);
    PlaceAllExactly(p, d, stale);
    if d.active && Accepted(p, d.journal) {
      RecordedExactly(p, d.journal, stale);
      var saved := Save(d, WithCopies(p, d.journal, stale), []);
      PlaceAllExactly(p, saved.disk, stale);
    }
  }

  lemma ReversedMembers(bundle: seq<Carried>)
    ensures forall c :: c in Reversed(bundle) <==> c in bundle
  {
    var ordered, n := Reversed(bundle), |bundle|;
    forall c | c in bundle
      ensures c in ordered
    {
      var i :| 0 <= i < n && bundle[i] == c;
      assert ordered[n - 1 - i] == c;
    }
  }

  lemma AllReplaceable(p: Policy, d: Disk, scene: Scene, stale: seq<Carried>)
    ensures (forall c :: c in stale ==> Replaceable(p, d, scene, c)) <==>
      !SomeForeign(p, d.root, stale, scene) && CarriersHold(stale) && (d.active ==> forall i :: 0 <= i < |stale| ==> Compatible(p, d.journal, stale[i].copy))
  {
    hide Compatible;
    assert forall i :: 0 <= i < |stale| ==> stale[i] in stale;
  }

  lemma WithinExactly(p: Policy, d: Disk, stale: seq<Carried>)
    requires d.active && DistinctCopies(p, stale) && CarriersHold(stale)
    ensures PlaceWithin(p, d, stale, []).end.Finished? <==>
      TakesCopies(p, d, stale) && forall i :: 0 <= i < |stale| ==> Compatible(p, d.journal, stale[i].copy)
  {
    hide Storable, RecordCopies, Compatible, PlaceAll;
    if Accepted(p, d.journal) {
      RecordedExactly(p, d.journal, stale);
      PlaceAllExactly(p, d, stale);
      PlaceAllExactly(p, d.(journal := WithCopies(p, d.journal, stale)), stale);
    }
  }
}
