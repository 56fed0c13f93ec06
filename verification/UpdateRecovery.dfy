/** Rolling back an update: from every state an interrupted update or rollback can leave,
    it meets no conflict and puts ROOT back exactly. */
module UpdateRecovery {
  import opened UpdateJournal
  import opened JournalStore
  import opened UpdateTransaction

  type Root = map<string, string>

  /** Both roots agree on one path: the same presence and the same content. */
  ghost predicate SameAt(a: Root, b: Root, k: string) {
    (k in a <==> k in b) && (k in a ==> a[k] == b[k])
  }

  ghost predicate Listed(p: Policy, files: seq<Entry>, k: string) {
    exists i :: 0 <= i < |files| && p.fold(files[i].name) == k
  }

  ghost predicate Promoted(p: Policy, promoted: seq<RootCopy>, k: string) {
    exists i :: 0 <= i < |promoted| && p.fold(promoted[i].name) == k
  }

  ghost predicate PromotedFrom(p: Policy, promoted: seq<RootCopy>, n: nat, k: string) {
    exists i :: n <= i < |promoted| && p.fold(promoted[i].name) == k
  }

  /** Entry `i` describes the root before the update. */
  ghost predicate Describes(p: Policy, before: Root, e: Entry) {
    var k := p.fold(e.name);
    (e.existed <==> k in before) && (e.existed ==> before[k] == e.original)
  }

  /** Entry `i` is somewhere between untouched and replaced, and its original is safe. */
  ghost predicate Safe(p: Policy, root: Root, backup: map<nat, string>, e: Entry, i: nat) {
    var k := p.fold(e.name);
    if i in backup then
      && e.existed && backup[i] == e.original
      && (k in root ==> root[k] == e.replacement || root[k] == e.original)
    else if e.existed then k in root && root[k] == e.original
    else k in root ==> e.replacement != "" && root[k] == e.replacement
  }

  /** Entry `i` is as it was before the update. */
  ghost predicate Original(p: Policy, root: Root, backup: map<nat, string>, e: Entry, i: nat) {
    var k := p.fold(e.name);
    i !in backup && (if e.existed then k in root && root[k] == e.original else k !in root)
  }

  /** Everything a rollback needs, whatever happened to the promoted copies. */
  ghost predicate Recoverable(p: Policy, before: Root, files: seq<Entry>, promoted: seq<RootCopy>, root: Root, backup: map<nat, string>) {
    && Apart(p, files, promoted)
    && (forall i :: 0 <= i < |files| ==> Describes(p, before, files[i]))
    && (forall i :: 0 <= i < |files| ==> Safe(p, root, backup, files[i], i))
    && (forall k :: !Listed(p, files, k) && !Promoted(p, promoted, k) ==> SameAt(root, before, k))
  }

  /** What becomes of one recorded ROOT copy. */
  ghost predicate Cleared(p: Policy, was: Root, now: Root, c: RootCopy) {
    var k := p.fold(c.name);
    if k in was && was[k] == c.hash then k !in now else SameAt(now, was, k)
  }

  /** Deleting one recorded copy loses nothing. */
  lemma ClearOne(p: Policy, before: Root, files: seq<Entry>, promoted: seq<RootCopy>, n: nat, d: Disk)
    requires n < |promoted| && Recoverable(p, before, files, promoted, d.root, d.backup)
    ensures Recoverable(p, before, files, promoted, d.root - {p.fold(promoted[n].name)}, d.backup)
  {
  }

  lemma {:induction false} RemovePromotedEffect(p: Policy, before: Root, files: seq<Entry>, promoted: seq<RootCopy>, n: nat, d: Disk, script: seq<Event>)
    requires n <= |promoted|
    requires Recoverable(p, before, files, promoted, d.root, d.backup)
    ensures var r := RemovePromoted(p, d, promoted[n..], script);
      && !r.end.Conflict? && !r.end.Rejected?
      && Recoverable(p, before, files, promoted, r.disk.root, r.disk.backup)
      && r.disk == d.(root := r.disk.root)
      && (r.end.Finished? ==> forall i :: n <= i < |promoted| ==> Cleared(p, d.root, r.disk.root, promoted[i]))
      && (forall k :: !PromotedFrom(p, promoted, n, k) ==> SameAt(r.disk.root, d.root, k))
    decreases |promoted| - n
  {
    if n < |promoted| {
      hide Recoverable;
      var k := p.fold(promoted[n].name);
      assert promoted[n..][1..] == promoted[n + 1..];
      ClearOne(p, before, files, promoted, n, d);
      var d' := if k in d.root && d.root[k] == promoted[n].hash then d.(root := d.root - {k}) else d;
      assert Recoverable(p, before, files, promoted, d'.root, d'.backup);
      var first := if d' != d then Attempt(d, d', script) else Run(Finished, d, script);
      if first.end.Finished? {
        RemovePromotedEffect(p, before, files, promoted, n + 1, d', first.rest);
        var r := RemovePromoted(p, d', promoted[n + 1..], first.rest);
        assert r == RemovePromoted(p, d, promoted[n..], script);
        assert !PromotedFrom(p, promoted, n + 1, k);
        forall x | !PromotedFrom(p, promoted, n, x)
          ensures SameAt(r.disk.root, d.root, x)
        {
          assert x != k && !PromotedFrom(p, promoted, n + 1, x);
        }
        if r.end.Finished? {
          forall i | n < i < |promoted|
            ensures Cleared(p, d.root, r.disk.root, promoted[i])
          {
            assert Cleared(p, d'.root, r.disk.root, promoted[i]);
            assert SameAt(d'.root, d.root, p.fold(promoted[i].name));
          }
        }
      }
    }
  }

  /** Only path `k` and backup `n` may differ. */
  ghost predicate Confined(k: string, n: nat, d: Disk, d': Disk) {
    && (forall x :: x != k ==> SameAt(d'.root, d.root, x))
    && (forall i :: i != n ==> ((i in d'.backup <==> i in d.backup) && (i in d.backup ==> d'.backup[i] == d.backup[i])))
  }

  /** A change confined to entry `n` that leaves this entry safe keeps the rest. */
  lemma ChangeOne(p: Policy, before: Root, files: seq<Entry>, promoted: seq<RootCopy>, n: nat, d: Disk, d': Disk)
    requires n < |files|
    requires Recoverable(p, before, files, promoted, d.root, d.backup)
    requires Confined(p.fold(files[n].name), n, d, d')
    requires Safe(p, d'.root, d'.backup, files[n], n)
    ensures Recoverable(p, before, files, promoted, d'.root, d'.backup)
  {
    forall i | 0 <= i < |files|
      ensures Safe(p, d'.root, d'.backup, files[i], i)
    {
      if i != n {
        assert Safe(p, d.root, d.backup, files[i], i);
        assert p.fold(files[i].name) != p.fold(files[n].name);
        assert SameAt(d'.root, d.root, p.fold(files[i].name));
      }
    }
    forall k | !Listed(p, files, k) && !Promoted(p, promoted, k)
      ensures SameAt(d'.root, before, k)
    {
      assert SameAt(d'.root, d.root, k) && SameAt(d.root, before, k);
    }
  }

  /** What restoring a safe entry does to this entry alone. */
  lemma RestoreSafeEntry(p: Policy, d: Disk, e: Entry, n: nat, script: seq<Event>)
    requires Safe(p, d.root, d.backup, e, n)
    ensures var r := RestoreEntry(p, d, e, n, script);
      && !r.end.Conflict? && !r.end.Rejected?
      && r.disk == d.(root := r.disk.root, backup := r.disk.backup)
      && Safe(p, r.disk.root, r.disk.backup, e, n)
      && (r.end.Finished? ==> Original(p, r.disk.root, r.disk.backup, e, n))
      && Confined(p.fold(e.name), n, d, r.disk)
  {
  }

  lemma RestoreEntryEffect(p: Policy, before: Root, files: seq<Entry>, promoted: seq<RootCopy>, n: nat, d: Disk, script: seq<Event>)
    requires n < |files|
    requires Recoverable(p, before, files, promoted, d.root, d.backup)
    ensures var r := RestoreEntry(p, d, files[n], n, script);
      && !r.end.Conflict? && !r.end.Rejected?
      && Recoverable(p, before, files, promoted, r.disk.root, r.disk.backup)
      && r.disk == d.(root := r.disk.root, backup := r.disk.backup)
      && (r.end.Finished? ==> Original(p, r.disk.root, r.disk.backup, files[n], n))
      && (forall i :: n < i < |files| && Original(p, d.root, d.backup, files[i], i) ==> Original(p, r.disk.root, r.disk.backup, files[i], i))
      && (forall k :: k != p.fold(files[n].name) ==> SameAt(r.disk.root, d.root, k))
  {
    var r := RestoreEntry(p, d, files[n], n, script);
    RestoreSafeEntry(p, d, files[n], n, script);
    ChangeOne(p, before, files, promoted, n, d, r.disk);
    forall i | n < i < |files| && Original(p, d.root, d.backup, files[i], i)
      ensures Original(p, r.disk.root, r.disk.backup, files[i], i)
    {
      assert SameAt(r.disk.root, d.root, p.fold(files[i].name));
    }
  }

  lemma {:induction false} RestoreFirstEffect(p: Policy, before: Root, files: seq<Entry>, promoted: seq<RootCopy>, n: nat, d: Disk, script: seq<Event>)
    requires n <= |files|
    requires Recoverable(p, before, files, promoted, d.root, d.backup)
    requires forall i :: n <= i < |files| ==> Original(p, d.root, d.backup, files[i], i)
    ensures var r := RestoreFirst(p, d, files, n, script);
      && !r.end.Conflict? && !r.end.Rejected?
      && Recoverable(p, before, files, promoted, r.disk.root, r.disk.backup)
      && r.disk == d.(root := r.disk.root, backup := r.disk.backup)
      && (r.end.Finished? ==> forall i :: 0 <= i < |files| ==> Original(p, r.disk.root, r.disk.backup, files[i], i))
      && (forall k :: !Listed(p, files, k) ==> SameAt(r.disk.root, d.root, k))
    decreases n
  {
    hide Recoverable, RestoreEntry;
    if n > 0 {
      RestoreEntryEffect(p, before, files, promoted, n - 1, d, script);
      var r := RestoreEntry(p, d, files[n - 1], n - 1, script);
      if r.end.Finished? {
        RestoreFirstEffect(p, before, files, promoted, n - 1, r.disk, r.rest);
        var end := RestoreFirst(p, r.disk, files, n - 1, r.rest);
        forall k | !Listed(p, files, k)
          ensures SameAt(end.disk.root, d.root, k)
        {
          assert k != p.fold(files[n - 1].name);
          assert SameAt(r.disk.root, d.root, k) && SameAt(end.disk.root, r.disk.root, k);
        }
      }
    }
  }

  /** The root a finished rollback leaves: listed paths as before the update, promoted
      copies cleared, every other path untouched. */
  ghost predicate RolledBackRoot(p: Policy, before: Root, j: Journal, was: Root, now: Root) {
    && (forall k :: !Promoted(p, j.promoted, k) ==> SameAt(now, before, k))
    && (forall i :: 0 <= i < |j.promoted| ==> Cleared(p, was, now, j.promoted[i]))
  }

  /** Every way a rollback of `j` from `d` can end. */
  ghost predicate RollbackEnds(p: Policy, before: Root, d: Disk, j: Journal, r: Run) {
    || (!r.end.Finished? && r.disk == d)
    || (!r.end.Finished? && r.disk.journal == j.(state := "rollingBack") && Storable(r.disk.journal) && r.disk.active == d.active)
    || (r.disk.journal == j.(state := "rolledBack") && Storable(r.disk.journal) && RolledBackRoot(p, before, j, d.root, r.disk.root)
        && r.disk.active == (d.active && !r.end.Finished?))
  }

  lemma RestoredRoot(p: Policy, before: Root, j: Journal, was: Root, cleared: Disk, now: Disk)
    requires Recoverable(p, before, j.files, j.promoted, now.root, now.backup)
    requires forall i :: 0 <= i < |j.files| ==> Original(p, now.root, now.backup, j.files[i], i)
    requires forall i :: 0 <= i < |j.promoted| ==> Cleared(p, was, cleared.root, j.promoted[i])
    requires forall k :: !Listed(p, j.files, k) ==> SameAt(now.root, cleared.root, k)
    ensures RolledBackRoot(p, before, j, was, now.root)
  {
    forall k | !Promoted(p, j.promoted, k)
      ensures SameAt(now.root, before, k)
    {
      if Listed(p, j.files, k) {
        var i :| 0 <= i < |j.files| && p.fold(j.files[i].name) == k;
        assert Original(p, now.root, now.backup, j.files[i], i) && Describes(p, before, j.files[i]);
      }
    }
    forall i | 0 <= i < |j.promoted|
      ensures Cleared(p, was, now.root, j.promoted[i])
    {
      assert Cleared(p, was, cleared.root, j.promoted[i]);
      assert !Listed(p, j.files, p.fold(j.promoted[i].name));
      assert SameAt(now.root, cleared.root, p.fold(j.promoted[i].name));
    }
  }

  lemma RestoreRootEffect(p: Policy, before: Root, d: Disk, j: Journal, script: seq<Event>)
    requires Recoverable(p, before, j.files, j.promoted, d.root, d.backup)
    ensures var r := RestoreRoot(p, d, j, script);
      && !r.end.Conflict? && !r.end.Rejected?
      && Recoverable(p, before, j.files, j.promoted, r.disk.root, r.disk.backup)
      && r.disk == d.(root := r.disk.root, backup := r.disk.backup)
      && (r.end.Finished? ==> RolledBackRoot(p, before, j, d.root, r.disk.root))
  {
    assert j.promoted[0..] == j.promoted;
    RemovePromotedEffect(p, before, j.files, j.promoted, 0, d, script);
    var r1 := RemovePromoted(p, d, j.promoted, script);
    if r1.end.Finished? {
      RestoreFirstEffect(p, before, j.files, j.promoted, |j.files|, r1.disk, r1.rest);
      var r2 := RestoreFirst(p, r1.disk, j.files, |j.files|, r1.rest);
      if r2.end.Finished? {
        RestoredRoot(p, before, j, d.root, r1.disk, r2.disk);
      }
    }
  }

  /** A rollback meets no conflict. Stopped anywhere it can be started again; finished, it
      leaves exactly `RolledBackRoot` and no active record. */
  lemma RollbackEffect(p: Policy, before: Root, d: Disk, j: Journal, script: seq<Event>)
    requires Recoverable(p, before, j.files, j.promoted, d.root, d.backup)
    ensures var r := Rollback(p, d, j, script);
      && !r.end.Conflict? && !r.end.Rejected?
      && Recoverable(p, before, j.files, j.promoted, r.disk.root, r.disk.backup)
      && RollbackEnds(p, before, d, j, r)
      && r.disk.temps == d.temps && r.disk.manifest == d.manifest
  {
    hide Storable, Recoverable, RestoreRoot, RolledBackRoot;
    var r1 := Save(d, j.(state := "rollingBack"), script);
    if r1.end.Finished? {
      RestoreRootEffect(p, before, r1.disk, j, r1.rest);
      assert r1.disk.root == d.root;
    }
  }
}
