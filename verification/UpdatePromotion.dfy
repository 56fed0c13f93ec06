/** Placing ROOT copies while an installed update awaits its health check. */
module UpdatePromotion {
  import opened UpdateJournal
  import opened JournalStore
  import opened UpdateTransaction
  import opened UpdateRecovery
  import opened UpdateSafety

  /** The journal lists the entries of the plan; promotion may only have filled in
      replacements where the plan had none. */
  ghost predicate Extends(planned: seq<Entry>, files: seq<Entry>) {
    && |files| == |planned|
    && (forall i :: 0 <= i < |files| ==>
          files[i] == planned[i] || (planned[i].replacement == "" && files[i] == planned[i].(replacement := files[i].replacement)))
  }

  /** An entry of an installed update: the planned replacement is in place; where the plan
      has none, at most a recorded copy is. */
  ghost predicate InPlace(p: Policy, root: Root, backup: map<nat, string>, planned: Entry, e: Entry, i: nat) {
    && (e.existed <==> i in backup)
    && (if planned.replacement != "" then Replaced(p, root, planned)
        else p.fold(e.name) in root ==> e.replacement != "" && root[p.fold(e.name)] == e.replacement)
  }

  /** A promoted copy had no file before the update and holds nothing but the copy. */
  ghost predicate CleanCopy(p: Policy, before: Root, root: Root, c: RootCopy) {
    var k := p.fold(c.name);
    k !in before && (k in root ==> root[k] == c.hash)
  }

  ghost predicate CleanCopies(p: Policy, before: Root, root: Root, promoted: seq<RootCopy>) {
    forall i :: 0 <= i < |promoted| ==> CleanCopy(p, before, root, promoted[i])
  }

  ghost predicate AllInPlace(p: Policy, root: Root, backup: map<nat, string>, planned: seq<Entry>, files: seq<Entry>)
    requires |planned| == |files|
  {
    forall i :: 0 <= i < |files| ==> InPlace(p, root, backup, planned[i], files[i], i)
  }

  /** An installed update with journal `j`, whatever copies were recorded and placed. */
  ghost predicate Awaiting(p: Policy, before: Root, planned: seq<Entry>, j: Journal, root: Root, backup: map<nat, string>) {
    && Extends(planned, j.files)
    && Recoverable(p, before, j.files, j.promoted, root, backup)
    && AllInPlace(p, root, backup, planned, j.files)
  }

  /** The copy's name is listed, or ROOT has no such file, or this very copy is recorded. */
  ghost predicate Fresh(p: Policy, j: Journal, root: Root, c: RootCopy) {
    Listed(p, j.files, p.fold(c.name)) || p.fold(c.name) !in root || IsRecorded(p, j.promoted, c)
  }

  /** The journal entitles a rollback to remove or replace this copy. */
  ghost predicate Covered(p: Policy, j: Journal, c: RootCopy) {
    || (exists i :: 0 <= i < |j.files| && p.fold(j.files[i].name) == p.fold(c.name) && j.files[i].replacement == c.hash)
    || IsRecorded(p, j.promoted, c)
  }

  ghost predicate DistinctCopies(p: Policy, copies: seq<Carried>) {
    forall i, j :: 0 <= i < j < |copies| ==> p.fold(copies[i].copy.name) != p.fold(copies[j].copy.name)
  }

  ghost predicate CopiesApart(p: Policy, promoted: seq<RootCopy>) {
    forall i, j :: 0 <= i < j < |promoted| ==> p.fold(promoted[i].name) != p.fold(promoted[j].name)
  }

  lemma JoinApart(p: Policy, a: seq<RootCopy>, b: seq<RootCopy>)
    requires CopiesApart(p, a) && CopiesApart(p, b)
    requires forall x, y :: x in a && y in b ==> p.fold(x.name) != p.fold(y.name)
    ensures CopiesApart(p, a + b)
  {
    forall i, j | 0 <= i < j < |a + b|
      ensures p.fold((a + b)[i].name) != p.fold((a + b)[j].name)
    {
      if i < |a| <= j { assert a[i] in a && b[j - |a|] in b; }
    }
  }

  lemma {:induction false} EraseApart(p: Policy, promoted: seq<RootCopy>, name: string)
    requires CopiesApart(p, promoted)
    ensures CopiesApart(p, EraseName(p, promoted, name))
  {
    if promoted != [] {
      EraseApart(p, promoted[1..], name);
      if !SameName(p, promoted[0].name, name) {
        var tail := EraseName(p, promoted[1..], name);
        forall y | y in tail
          ensures p.fold(promoted[0].name) != p.fold(y.name)
        {
          var m :| 0 <= m < |promoted[1..]| && promoted[1..][m] == y;
          assert promoted[m + 1] == y;
        }
        JoinApart(p, [promoted[0]], tail);
      }
    }
  }

  /** Recording one copy in a listed entry without replacement. */
  lemma RecordListed(p: Policy, before: Root, planned: seq<Entry>, j: Journal, root: Root, backup: map<nat, string>, i: nat, hash: string)
    requires Awaiting(p, before, planned, j, root, backup)
    requires i < |j.files| && j.files[i].replacement == "" && hash != ""
    ensures Awaiting(p, before, planned, j.(files := j.files[i := j.files[i].(replacement := hash)]), root, backup)
  {
    var files := j.files[i := j.files[i].(replacement := hash)];
    assert InPlace(p, root, backup, planned[i], j.files[i], i) && Safe(p, root, backup, j.files[i], i) && Describes(p, before, j.files[i]);
    assert planned[i].replacement == "";
    forall m | 0 <= m < |files|
      ensures InPlace(p, root, backup, planned[m], files[m], m) && Safe(p, root, backup, files[m], m) && Describes(p, before, files[m])
    {
      assert InPlace(p, root, backup, planned[m], j.files[m], m) && Safe(p, root, backup, j.files[m], m) && Describes(p, before, j.files[m]);
    }
    forall k | Listed(p, j.files, k)
      ensures Listed(p, files, k)
    {
      var m :| 0 <= m < |j.files| && p.fold(j.files[m].name) == k;
      assert p.fold(files[m].name) == k;
    }
  }

  /** The promoted copies once `c` is recorded. */
  function WithCopy(p: Policy, promoted: seq<RootCopy>, c: RootCopy): seq<RootCopy> {
    EraseName(p, promoted, c.name) + [c]
  }

  lemma WithCopyMembers(p: Policy, promoted: seq<RootCopy>, c: RootCopy)
    ensures forall x :: x in WithCopy(p, promoted, c) <==> x == c || (x in promoted && !SameName(p, x.name, c.name))
    ensures forall k :: Promoted(p, promoted, k) ==> Promoted(p, WithCopy(p, promoted, c), k)
    ensures Promoted(p, WithCopy(p, promoted, c), p.fold(c.name))
  {
    var now := WithCopy(p, promoted, c);
    assert now[|now| - 1] == c;
    forall k | Promoted(p, promoted, k)
      ensures Promoted(p, now, k)
    {
      var m :| 0 <= m < |promoted| && p.fold(promoted[m].name) == k;
      if !SameName(p, promoted[m].name, c.name) {
        assert promoted[m] in now;
        var x :| 0 <= x < |now| && now[x] == promoted[m];
      }
    }
  }

  lemma WithCopyApart(p: Policy, files: seq<Entry>, promoted: seq<RootCopy>, c: RootCopy)
    requires Apart(p, files, promoted) && !Listed(p, files, p.fold(c.name))
    ensures Apart(p, files, WithCopy(p, promoted, c))
  {
    var kept, now := EraseName(p, promoted, c.name), WithCopy(p, promoted, c);
    EraseApart(p, promoted, c.name);
    forall m | 0 <= m < |kept|
      ensures p.fold(kept[m].name) != p.fold(c.name)
      ensures forall i :: 0 <= i < |files| ==> p.fold(files[i].name) != p.fold(kept[m].name)
    {
      assert kept[m] in kept;
      var x :| 0 <= x < |promoted| && promoted[x] == kept[m];
    }
    JoinApart(p, kept, [c]);
    assert CopiesApart(p, now);
  }

  lemma RecordPromoted(p: Policy, before: Root, planned: seq<Entry>, j: Journal, root: Root, backup: map<nat, string>, c: RootCopy)
    requires Awaiting(p, before, planned, j, root, backup)
    requires !Listed(p, j.files, p.fold(c.name))
    ensures Awaiting(p, before, planned, j.(promoted := WithCopy(p, j.promoted, c)), root, backup)
  {
    WithCopyApart(p, j.files, j.promoted, c);
    WithCopyMembers(p, j.promoted, c);
  }

  lemma RecordPromotedClean(p: Policy, before: Root, j: Journal, root: Root, backup: map<nat, string>, c: RootCopy)
    requires Recoverable(p, before, j.files, j.promoted, root, backup) && CleanCopies(p, before, root, j.promoted)
    requires !Listed(p, j.files, p.fold(c.name)) && p.fold(c.name) !in root
    ensures CleanCopies(p, before, root, WithCopy(p, j.promoted, c))
  {
    var promoted := WithCopy(p, j.promoted, c);
    WithCopyMembers(p, j.promoted, c);
    assert p.fold(c.name) !in before by {
      if Promoted(p, j.promoted, p.fold(c.name)) {
        var i :| 0 <= i < |j.promoted| && p.fold(j.promoted[i].name) == p.fold(c.name);
        assert CleanCopy(p, before, root, j.promoted[i]);
      } else {
        assert SameAt(root, before, p.fold(c.name));
      }
    }
    forall i | 0 <= i < |promoted|
      ensures CleanCopy(p, before, root, promoted[i])
    {
      assert promoted[i] in promoted;
      if promoted[i] != c {
        var m :| 0 <= m < |j.promoted| && j.promoted[m] == promoted[i];
        assert CleanCopy(p, before, root, j.promoted[m]);
      }
    }
  }

  /** Recording a copy keeps the update recoverable and covers the copy. */
  lemma RecordCopyKeeps(p: Policy, before: Root, planned: seq<Entry>, j: Journal, root: Root, backup: map<nat, string>, c: RootCopy)
    requires Awaiting(p, before, planned, j, root, backup)
    requires c.hash != "" && RecordCopy(p, j, c).Extended?
    ensures var j' := RecordCopy(p, j, c).journal;
      && Awaiting(p, before, planned, j', root, backup)
      && Covered(p, j', c)
      && (CleanCopies(p, before, root, j.promoted) && Fresh(p, j, root, c) ==> CleanCopies(p, before, root, j'.promoted))
      && j'.state == j.state
      && |j'.files| == |j.files| && |j'.promoted| <= |j.promoted| + 1
  {
    var i := FindListed(p, j.files, c.name);
    var j' := RecordCopy(p, j, c).journal;
    if i < |j.files| {
      if j.files[i].replacement == "" {
        RecordListed(p, before, planned, j, root, backup, i, c.hash);
      }
      assert p.fold(j'.files[i].name) == p.fold(c.name) && j'.files[i].replacement == c.hash;
    } else if !IsRecorded(p, j.promoted, c) {
      RecordPromoted(p, before, planned, j, root, backup, c);
      if CleanCopies(p, before, root, j.promoted) && Fresh(p, j, root, c) {
        RecordPromotedClean(p, before, j, root, backup, c);
      }
      assert j'.promoted[|j'.promoted| - 1] == c;
    }
  }

  lemma SameListing(p: Policy, files: seq<Entry>, files': seq<Entry>, k: string)
    requires |files'| == |files| && forall i :: 0 <= i < |files| ==> files'[i].name == files[i].name
    ensures Listed(p, files, k) <==> Listed(p, files', k)
  {
    if Listed(p, files, k) {
      var i :| 0 <= i < |files| && p.fold(files[i].name) == k;
      assert p.fold(files'[i].name) == k;
    }
    if Listed(p, files', k) {
      var i :| 0 <= i < |files'| && p.fold(files'[i].name) == k;
      assert p.fold(files[i].name) == k;
    }
  }

  lemma StillRecorded(p: Policy, promoted: seq<RootCopy>, c: RootCopy, other: RootCopy)
    requires IsRecorded(p, promoted, other) && !SameName(p, c.name, other.name)
    ensures IsRecorded(p, WithCopy(p, promoted, c), other)
  {
    var now := WithCopy(p, promoted, c);
    var i :| 0 <= i < |promoted| && SameName(p, promoted[i].name, other.name) && promoted[i].hash == other.hash;
    WithCopyMembers(p, promoted, c);
    assert promoted[i] in now;
    var x :| 0 <= x < |now| && now[x] == promoted[i];
  }

  /** Recording one copy changes nothing about copies of other names. */
  lemma RecordCopyOthers(p: Policy, j: Journal, c: RootCopy, other: RootCopy, root: Root)
    requires RecordCopy(p, j, c).Extended? && p.fold(c.name) != p.fold(other.name)
    ensures var j' := RecordCopy(p, j, c).journal;
      && (Covered(p, j, other) ==> Covered(p, j', other))
      && (Fresh(p, j, root, other) ==> Fresh(p, j', root, other))
  {
    var j' := RecordCopy(p, j, c).journal;
    var k := p.fold(other.name);
    SameListing(p, j.files, j'.files, k);
    if i :| 0 <= i < |j.files| && p.fold(j.files[i].name) == k && j.files[i].replacement == other.hash {
      assert j'.files[i] == j.files[i];
    }
    if IsRecorded(p, j.promoted, other) && j'.promoted != j.promoted {
      StillRecorded(p, j.promoted, c, other);
    }
  }

  lemma RecordCopyNames(p: Policy, j: Journal, c: RootCopy)
    requires RecordCopy(p, j, c).Extended?
    ensures var j' := RecordCopy(p, j, c).journal;
      && |j'.files| == |j.files| && (forall i :: 0 <= i < |j.files| ==> j'.files[i].name == j.files[i].name)
      && (forall k :: Promoted(p, j.promoted, k) ==> Promoted(p, j'.promoted, k))
  {
    WithCopyMembers(p, j.promoted, c);
  }

  lemma AllOthers(p: Policy, j: Journal, copies: seq<Carried>, n: nat, root: Root)
    requires n < |copies| && DistinctCopies(p, copies) && RecordCopy(p, j, copies[n].copy).Extended?
    ensures var j' := RecordCopy(p, j, copies[n].copy).journal;
      forall i :: 0 <= i < |copies| && i != n ==>
        && (Covered(p, j, copies[i].copy) ==> Covered(p, j', copies[i].copy))
        && (Fresh(p, j, root, copies[i].copy) ==> Fresh(p, j', root, copies[i].copy))
  {
    var j' := RecordCopy(p, j, copies[n].copy).journal;
    forall i | 0 <= i < |copies| && i != n
      ensures Covered(p, j, copies[i].copy) ==> Covered(p, j', copies[i].copy)
      ensures Fresh(p, j, root, copies[i].copy) ==> Fresh(p, j', root, copies[i].copy)
    {
      RecordCopyOthers(p, j, copies[n].copy, copies[i].copy, root);
    }
  }

  lemma {:induction false} RecordCopiesKeep(p: Policy, before: Root, planned: seq<Entry>, j: Journal, root: Root, backup: map<nat, string>, copies: seq<Carried>, n: nat)
    requires n <= |copies| && DistinctCopies(p, copies)
    requires Awaiting(p, before, planned, j, root, backup)
    requires forall i :: 0 <= i < |copies| ==> copies[i].copy.hash != ""
    requires forall i :: 0 <= i < n ==> Covered(p, j, copies[i].copy)
    requires RecordCopies(p, j, copies[n..]).Extended?
    ensures var j' := RecordCopies(p, j, copies[n..]).journal;
      && Awaiting(p, before, planned, j', root, backup)
      && (CleanCopies(p, before, root, j.promoted) && (forall i :: n <= i < |copies| ==> Fresh(p, j, root, copies[i].copy))
          ==> CleanCopies(p, before, root, j'.promoted))
      && (forall k :: Promoted(p, j.promoted, k) ==> Promoted(p, j'.promoted, k))
      && |j'.files| == |j.files| && (forall i :: 0 <= i < |j.files| ==> j'.files[i].name == j.files[i].name)
      && (forall i :: 0 <= i < |copies| ==> Covered(p, j', copies[i].copy))
      && j'.state == j.state && |j'.promoted| <= |j.promoted| + |copies| - n
    decreases |copies| - n
  {
    hide RecordCopy, Covered, Fresh, Promoted, CleanCopies;
    if n < |copies| {
      assert copies[n..][1..] == copies[n + 1..];
      var j' := RecordCopy(p, j, copies[n].copy).journal;
      RecordCopyKeeps(p, before, planned, j, root, backup, copies[n].copy);
      RecordCopyNames(p, j, copies[n].copy);
      AllOthers(p, j, copies, n, root);
      RecordCopiesKeep(p, before, planned, j', root, backup, copies, n + 1);
    }
  }

  /** Putting a covered copy into ROOT keeps the update recoverable. */
  lemma CoveredCopyKeeps(p: Policy, before: Root, planned: seq<Entry>, j: Journal, root: Root, backup: map<nat, string>, c: RootCopy)
    requires Awaiting(p, before, planned, j, root, backup)
    requires Covered(p, j, c) && c.hash != ""
    ensures Awaiting(p, before, planned, j, root[p.fold(c.name) := c.hash], backup)
    ensures CleanCopies(p, before, root, j.promoted) ==> CleanCopies(p, before, root[p.fold(c.name) := c.hash], j.promoted)
  {
    var k, now := p.fold(c.name), root[p.fold(c.name) := c.hash];
    forall i | 0 <= i < |j.files|
      ensures Safe(p, now, backup, j.files[i], i) && InPlace(p, now, backup, planned[i], j.files[i], i)
    {
      assert Safe(p, root, backup, j.files[i], i) && InPlace(p, root, backup, planned[i], j.files[i], i);
      assert j.files[i] == planned[i] || planned[i].replacement == "";
    }
    forall i | 0 <= i < |j.promoted|
      ensures CleanCopy(p, before, root, j.promoted[i]) ==> CleanCopy(p, before, now, j.promoted[i])
    {
    }
    assert Listed(p, j.files, k) || Promoted(p, j.promoted, k);
  }

  /** A copy is placed whole or not at all; only its unfinished temporary can remain. */
  lemma PlaceOneEffect(p: Policy, d: Disk, c: Carried, script: seq<Event>)
    ensures var r := PlaceOne(p, d, c, script);
      && r.disk == d.(root := r.disk.root, temps := r.disk.temps)
      && r.disk.root == (if r.end.Finished? then d.root[p.fold(c.copy.name) := c.copy.hash] else d.root)
      && (r.end.Finished? ==> p.fold(c.copy.name) !in r.disk.temps)
      && (r.end.Conflict? ==> c.content != c.copy.hash)
  {
    var k := p.fold(c.copy.name);
    var r1 := OpenTemp(d, k, script);
    assert r1.disk == d.(temps := r1.disk.temps) && !r1.end.Conflict?;
    if r1.end.Finished? {
      FillTempEffect(r1.disk, k, c, r1.rest);
    }
  }

  /** A script that refuses at most one attempt and leaves the power on. */
  predicate OneRefusal(script: seq<Event>) {
    && (forall i :: 0 <= i < |script| ==> !script[i].PowerLoss?)
    && (forall i, j :: 0 <= i < j < |script| ==> !(script[i].Refuse? && script[j].Refuse?))
  }

  /** One attempt under such a script, and what is left of the script. */
  lemma OneAttempt(before: Disk, after: Disk, script: seq<Event>)
    requires OneRefusal(script)
    ensures var r := Attempt(before, after, script);
      && OneRefusal(r.rest) && (forall e :: e in r.rest ==> e in script)
      && (if r.end.Finished? then r.disk == after
          else r.end.Refused? && r.disk == before && Refuse in script && forall e :: e in r.rest ==> e.Proceed?)
  {
    if script != [] {
      assert script[0] in script && forall i :: 0 <= i < |script[1..]| ==> script[1..][i] == script[i + 1];
    }
  }

  lemma DiscardCleans(d: Disk, k: string, end: End, script: seq<Event>)
    requires forall e :: e in script ==> e.Proceed?
    ensures Discard(d, k, end, script).end == end && k !in Discard(d, k, end, script).disk.temps
  {
  }

  lemma FillCleansUp(d: Disk, k: string, c: Carried, script: seq<Event>)
    requires OneRefusal(script)
    ensures var r := FillTemp(d, k, c, script);
      && (k in r.disk.temps ==> c.content != c.copy.hash && Refuse in script) && !r.end.PowerCut? && !r.end.Rejected?
      && (r.end.Refused? ==> Refuse in script) && (Refuse !in script ==> r.end == if c.content == c.copy.hash then Finished else Conflict)
  {
    hide Attempt, OneRefusal;
    var full := d.(temps := d.temps[k := c.content]);
    var moved := full.(root := full.root[k := c.content], temps := full.temps - {k});
    OneAttempt(d, full, script);
    var copied := Attempt(d, full, script);
    if !copied.end.Finished? {
      DiscardCleans(copied.disk, k, copied.end, copied.rest);
    } else if c.content != c.copy.hash {
      OneAttempt(full, full.(temps := full.temps - {k}), copied.rest);
    } else {
      OneAttempt(full, moved, copied.rest);
      var r := Attempt(full, moved, copied.rest);
      if !r.end.Finished? { DiscardCleans(full, k, r.end, r.rest); }
    }
  }

  /** Placing a copy of which at most one attempt is refused leaves no temporary of its own, unless
      nothing was done at all, or the copy was bad and deleting it was refused. It fails only
      for a reason: the refusal, or a carrier that does not hold what it should. */
  lemma PlaceOneCleansUp(p: Policy, d: Disk, c: Carried, script: seq<Event>)
    requires OneRefusal(script)
    ensures var r := PlaceOne(p, d, c, script);
      && (p.fold(c.copy.name) in r.disk.temps ==> (r.disk == d && r.end.Refused?) || (c.content != c.copy.hash && Refuse in script))
      && !r.end.PowerCut? && !r.end.Rejected? && (r.end.Refused? ==> Refuse in script)
      && (Refuse !in script ==> r.end == if c.content == c.copy.hash then Finished else Conflict)
  {
    hide FillTemp;
    var k := p.fold(c.copy.name);
    var r1 := OpenTemp(d, k, script);
    OpenRefused(d, k, script);
    if r1.end.Finished? { FillCleansUp(r1.disk, k, c, r1.rest); }
  }

  lemma OpenRefused(d: Disk, k: string, script: seq<Event>)
    requires OneRefusal(script)
    ensures var r := OpenTemp(d, k, script);
      && OneRefusal(r.rest) && (forall e :: e in r.rest ==> e in script)
      && (r.end.Finished? || (r.end.Refused? && Refuse in script && (k in r.disk.temps ==> r.disk == d)))
  {
    hide Attempt, OneRefusal;
    var emptied := d.(temps := d.temps - {k});
    var d1, rest := d, script;
    if k in d.temps {
      OneAttempt(d, emptied, script);
      d1, rest := emptied, Attempt(d, emptied, script).rest;
    }
    OneAttempt(d1, d1.(temps := d1.temps[k := ""]), rest);
  }

  lemma DiscardEffect(d: Disk, k: string, end: End, script: seq<Event>)
    ensures var r := Discard(d, k, end, script);
      r.disk == d.(temps := r.disk.temps) && (r.end == end || r.end.PowerCut?)
  {
  }

  lemma FillTempEffect(d: Disk, k: string, c: Carried, script: seq<Event>)
    ensures var r := FillTemp(d, k, c, script);
      && r.disk == d.(root := r.disk.root, temps := r.disk.temps)
      && r.disk.root == (if r.end.Finished? then d.root[k := c.copy.hash] else d.root)
      && (r.end.Finished? ==> k !in r.disk.temps)
      && (r.end.Conflict? ==> c.content != c.copy.hash)
  {
    hide Discard;
    var copied := Attempt(d, d.(temps := d.temps[k := c.content]), script);
    DiscardEffect(copied.disk, k, copied.end, copied.rest);
    DiscardEffect(copied.disk, k, Conflict, copied.rest);
    var moved := Attempt(copied.disk, copied.disk.(root := copied.disk.root[k := c.content], temps := copied.disk.temps - {k}), copied.rest);
    DiscardEffect(moved.disk, k, moved.end, moved.rest);
  }

  lemma PlaceOneKeeps(p: Policy, before: Root, planned: seq<Entry>, d: Disk, c: Carried, script: seq<Event>)
    requires Awaiting(p, before, planned, d.journal, d.root, d.backup)
    requires Covered(p, d.journal, c.copy) && c.copy.hash != ""
    ensures var r := PlaceOne(p, d, c, script);
      && Awaiting(p, before, planned, d.journal, r.disk.root, r.disk.backup)
      && (CleanCopies(p, before, d.root, d.journal.promoted) ==> CleanCopies(p, before, r.disk.root, d.journal.promoted))
  {
    CoveredCopyKeeps(p, before, planned, d.journal, d.root, d.backup, c.copy);
    PlaceOneEffect(p, d, c, script);
  }

  lemma {:induction false} PlaceAllKeeps(p: Policy, before: Root, planned: seq<Entry>, d: Disk, copies: seq<Carried>, script: seq<Event>)
    requires Awaiting(p, before, planned, d.journal, d.root, d.backup)
    requires forall i :: 0 <= i < |copies| ==> Covered(p, d.journal, copies[i].copy) && copies[i].copy.hash != ""
    ensures var r := PlaceAll(p, d, copies, script);
      && Awaiting(p, before, planned, d.journal, r.disk.root, r.disk.backup)
      && (CleanCopies(p, before, d.root, d.journal.promoted) ==> CleanCopies(p, before, r.disk.root, d.journal.promoted))
      && r.disk == d.(root := r.disk.root, temps := r.disk.temps)
    decreases |copies|
  {
    if copies != [] {
      PlaceOneKeeps(p, before, planned, d, copies[0], script);
      PlaceOneEffect(p, d, copies[0], script);
      var r := PlaceOne(p, d, copies[0], script);
      if r.end.Finished? {
        PlaceAllKeeps(p, before, planned, r.disk, copies[1..], r.rest);
      }
    }
  }

  lemma PlaceOneAlone(p: Policy, d: Disk, c: Carried)
    ensures var r := PlaceOne(p, d, c, []);
      r.rest == [] && r.end == if c.content == c.copy.hash then Finished else Conflict
  {
    PlaceOneCleansUp(p, d, c, []);
  }

  ghost predicate NamedBy(p: Policy, copies: seq<Carried>, k: string) {
    exists i :: 0 <= i < |copies| && p.fold(copies[i].copy.name) == k
  }

  /** Undisturbed, every copy whose carrier is intact ends up in ROOT. */
  lemma {:induction false} PlaceAllPlaces(p: Policy, d: Disk, copies: seq<Carried>)
    requires DistinctCopies(p, copies) && forall i :: 0 <= i < |copies| ==> copies[i].content == copies[i].copy.hash
    ensures var r := PlaceAll(p, d, copies, []);
      && r.end.Finished?
      && (forall i :: 0 <= i < |copies| ==> var k := p.fold(copies[i].copy.name); k in r.disk.root && r.disk.root[k] == copies[i].copy.hash)
      && (forall k :: !NamedBy(p, copies, k) ==> SameAt(r.disk.root, d.root, k))
    decreases |copies|
  {
    if copies != [] {
      hide PlaceOne;
      PlaceOneEffect(p, d, copies[0], []);
      PlaceOneAlone(p, d, copies[0]);
      var r := PlaceOne(p, d, copies[0], []);
      PlaceAllPlaces(p, r.disk, copies[1..]);
      var now, k0 := PlaceAll(p, r.disk, copies[1..], []).disk.root, p.fold(copies[0].copy.name);
      assert !NamedBy(p, copies[1..], k0);
      forall k | !NamedBy(p, copies, k)
        ensures SameAt(now, d.root, k)
      {
        assert k != k0 && !NamedBy(p, copies[1..], k);
      }
      forall i | 0 <= i < |copies|
        ensures var k := p.fold(copies[i].copy.name); k in now && now[k] == copies[i].copy.hash
      {
        if i > 0 { assert copies[1..][i - 1] == copies[i]; }
      }
    }
  }

  /** Recording and placing keeps an installed update recoverable at every interruption,
      with clean copies if all were fresh. */
  lemma PlaceWithinKeeps(p: Policy, before: Root, planned: seq<Entry>, d: Disk, copies: seq<Carried>, script: seq<Event>)
    requires Awaiting(p, before, planned, d.journal, d.root, d.backup)
    requires DistinctCopies(p, copies) && forall i :: 0 <= i < |copies| ==> copies[i].copy.hash != ""
    requires RecordCopies(p, d.journal, copies).Extended?
    ensures var r := PlaceWithin(p, d, copies, script);
      && Awaiting(p, before, planned, r.disk.journal, r.disk.root, r.disk.backup)
      && (r.disk.journal == d.journal || (r.disk.journal == RecordCopies(p, d.journal, copies).journal && Storable(r.disk.journal)))
      && (CleanCopies(p, before, d.root, d.journal.promoted) && (forall i :: 0 <= i < |copies| ==> Fresh(p, d.journal, d.root, copies[i].copy))
          ==> CleanCopies(p, before, r.disk.root, r.disk.journal.promoted))
      && r.disk == d.(root := r.disk.root, temps := r.disk.temps, journal := r.disk.journal)
  {
    hide Storable;
    assert copies[0..] == copies;
    RecordCopiesKeep(p, before, planned, d.journal, d.root, d.backup, copies, 0);
    var j := RecordCopies(p, d.journal, copies).journal;
    if d.active && Accepted(p, d.journal) && d.journal.state == "installed" {
      var r1 := if j != d.journal then Save(d, j, script) else Run(Finished, d, script);
      if r1.end.Finished? {
        PlaceAllKeeps(p, before, planned, r1.disk, copies, r1.rest);
      }
    }
  }
}
