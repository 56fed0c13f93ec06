/** What an update promises, for every run, every crash point and every failure. */
module UpdateGuarantees {
  import opened UpdateJournal
  import opened JournalStore
  import JournalCodec
  import opened UpdateTransaction
  import opened UpdateRecovery
  import opened UpdateSafety
  import opened UpdatePromotion
  import opened UpdateRuns

  ghost predicate AllOld(p: Policy, s: Story) {
    forall i :: 0 <= i < |s.planned| ==> SameAt(s.disk.root, s.before, p.fold(s.planned[i].name))
  }

  /** Every planned replacement is in place; a planned removal left the path empty or to a
      copy the journal records. */
  ghost predicate AllNew(p: Policy, s: Story) {
    forall i :: 0 <= i < |s.planned| ==>
      var k := p.fold(s.planned[i].name);
      if s.planned[i].replacement != "" then k in s.disk.root && s.disk.root[k] == s.planned[i].replacement
      else k in s.disk.root ==> i < |s.disk.journal.files| && s.disk.root[k] == s.disk.journal.files[i].replacement
  }

  /** Whenever a state of a run with an active update lets the product start, its files are
      all old or all new. */
  lemma StartsOldOrNew(p: Policy, s: Story, run: seq<Happening>, i: nat)
    requires !s.disk.active && ProperRun(p, s, run) && i <= |run|
    requires States(p, s, run)[i].disk.active && StartupAllowed(p, States(p, s, run)[i].disk)
    ensures AllOld(p, States(p, s, run)[i]) || AllNew(p, States(p, s, run)[i])
  {
    hide Storable, Tracked, States, AllOld, AllNew, ProperRun, FreshRun, Consistent;
    NotActive(p, s);
    RunConsistent(p, s, run);
    var now := States(p, s, run)[i];
    assert Tracked(p, now);
    if now.disk.journal.state in NEW { InstalledIsNew(p, now); } else { RestoredIsOld(p, now); }
  }

  /** When the product may start, in every state of every run: always without an active
      update, and otherwise exactly once the new files are all in place, the old ones are all
      back, or power was lost before the record of a completed update was removed. */
  lemma StartsExactly(p: Policy, s: Story, run: seq<Happening>, i: nat)
    requires !s.disk.active && ProperRun(p, s, run) && i <= |run|
    ensures var d := States(p, s, run)[i].disk;
      StartupAllowed(p, d) <==> !d.active || d.journal.state in {"installed", "completed", "rolledBack"}
  {
    hide Storable, Tracked, States, ProperRun, FreshRun, Consistent;
    NotActive(p, s);
    RunConsistent(p, s, run);
    if States(p, s, run)[i].disk.active { FromTracked(p, States(p, s, run)[i]); }
  }

  lemma NotActive(p: Policy, s: Story)
    requires !s.disk.active
    ensures Tracked(p, s)
  {
  }

  lemma InstalledIsNew(p: Policy, now: Story)
    requires Tracked(p, now) && now.disk.active && now.disk.journal.state in NEW
    ensures AllNew(p, now)
  {
    hide Storable, Recoverable;
    forall m | 0 <= m < |now.planned|
      ensures var k := p.fold(now.planned[m].name);
        if now.planned[m].replacement != "" then k in now.disk.root && now.disk.root[k] == now.planned[m].replacement
        else k in now.disk.root ==> now.disk.root[k] == now.disk.journal.files[m].replacement
    {
      assert InPlace(p, now.disk.root, now.disk.backup, now.planned[m], now.disk.journal.files[m], m);
    }
  }

  /** No recorded copy has a planned name. */
  lemma RestoredIsOld(p: Policy, now: Story)
    requires Tracked(p, now) && now.disk.active && now.disk.journal.state == "rolledBack"
    ensures AllOld(p, now)
  {
    forall m | 0 <= m < |now.planned|
      ensures SameAt(now.disk.root, now.before, p.fold(now.planned[m].name))
    {
      assert now.disk.journal.files[m].name == now.planned[m].name;
      assert !Promoted(p, now.disk.journal.promoted, p.fold(now.planned[m].name));
    }
  }

  /** How one command can end an active update: by acknowledging the new files, or by
      putting the old ones back. A completed update is only ever kept. */
  lemma StepOfActiveUpdate(p: Policy, s: Story, c: Command, script: seq<Event>)
    requires Tracked(p, s) && Proper(p, s, c) && s.disk.active
    ensures var s' := Next(p, s, c, script);
      && s'.before == s.before && s'.planned == s.planned
      && (!s'.disk.active ==>
            || (c.DoAcknowledge? && s.disk.journal.state in NEW && s'.disk.root == s.disk.root && AllNew(p, s'))
            || (c.DoRecover? && s.disk.journal.state != "completed"
                && RolledBackRoot(p, s.before, s.disk.journal, s.disk.root, s'.disk.root) && (Consistent(p, s) ==> s'.disk.root == s.before)))
      && (s.disk.journal.state == "completed" ==> s'.disk.root == s.disk.root && s'.disk.journal.state == "completed")
  {
    hide Storable, Recoverable, CleanCopies, ManifestPlanned, Rollback, RolledBackRoot;
    match c
    case DoRecover =>
      if s.disk.journal.state != "completed" {
        RollbackTracks(p, s.before, s.planned, s.disk, s.disk.journal, script);
        if Consistent(p, s) { RollbackKeeps(p, s.before, s.planned, s.disk, s.disk.journal, script); }
      }
    case DoAcknowledge =>
      AcknowledgeKeeps(p, s, script);
      if s.disk.journal.state in NEW {
        forall m | 0 <= m < |s.planned|
          ensures InPlace(p, s.disk.root, s.disk.backup, s.planned[m], s.disk.journal.files[m], m)
        {
        }
      }
    case DoPromote(copies) => PromoteKeeps(p, s, copies, script);
    case _ =>
  }

  /** Once completed, no run rolls the update back while its record is active. */
  lemma {:induction false} CompletedIsKept(p: Policy, s: Story, run: seq<Happening>)
    requires Tracked(p, s) && ProperRun(p, s, run) && s.disk.active && s.disk.journal.state == "completed"
    requires forall i :: 0 <= i < |run| ==> States(p, s, run)[i].disk.active
    ensures forall i :: 0 <= i <= |run| ==> States(p, s, run)[i].disk.root == s.disk.root
    decreases |run|
  {
    hide Storable, Tracked, Consistent, Proper, Next, AllNew;
    if run != [] {
      var s' := Next(p, s, run[0].command, run[0].script);
      StepOfActiveUpdate(p, s, run[0].command, run[0].script);
      NextConsistent(p, s, run[0].command, run[0].script);
      var rest := States(p, s', run[1..]);
      assert forall i :: 0 <= i <= |run| - 1 ==> rest[i] == States(p, s, run)[i + 1];
      if |run| > 1 {
        assert rest[0] == States(p, s, run)[1];
        CompletedIsKept(p, s', run[1..]);
        forall i | 0 <= i <= |run|
          ensures States(p, s, run)[i].disk.root == s.disk.root
        {
          if i > 0 { assert States(p, s, run)[i] == rest[i - 1]; }
        }
      }
    }
  }

  const STATES := {"prepared", "applying", "installed", "completed", "rollingBack", "rolledBack"}

  lemma StateKnown(p: Policy, s: Story)
    requires Tracked(p, s) && s.disk.active
    ensures s.disk.journal.state in STATES && Plain(s.disk.journal.state)
  {
    StatesPlain();
  }

  /** How the active record can be removed in any state of any run: an undisturbed
      acknowledgement removes it once the files are new, and an undisturbed recovery does
      before that, exactly when the journal leaves room for the state a rollback saves first;
      ROOT is then as before the update but for recorded copies, and exactly so if all copies
      were fresh. Where neither does, nothing ever changes again. */
  lemma CanBeSettled(p: Policy, s: Story, run: seq<Happening>, i: nat)
    requires !s.disk.active && ProperRun(p, s, run) && i <= |run|
    requires States(p, s, run)[i].disk.active
    ensures var now := States(p, s, run)[i];
      var accepted, recovered := Acknowledge(p, now.disk, []), Recover(p, now.disk, []);
      && (now.disk.journal.state in NEW ==> accepted.end.Finished? && !accepted.disk.active && accepted.disk.root == now.disk.root)
      && (now.disk.journal.state != "completed" ==>
            && (recovered.end.Finished? <==> LeavesRoom(now.disk.journal))
            && (recovered.end.Finished? ==> !recovered.disk.active && RolledBackRoot(p, now.before, now.disk.journal, now.disk.root, recovered.disk.root))
            && (recovered.end.Finished? && FreshRun(p, s, run) ==> recovered.disk.root == now.before))
      && (now.disk.journal.state !in NEW && !LeavesRoom(now.disk.journal) ==>
            forall c, script :: Next(p, now, c, script) == now)
  {
    RunConsistent(p, s, run);
    var now := States(p, s, run)[i];
    StateKnown(p, now);
    if now.disk.journal.state in NEW { AcknowledgeGoesThrough(p, now); }
    if now.disk.journal.state != "completed" { RecoverGoesThrough(p, now); }
    if now.disk.journal.state !in NEW && !LeavesRoom(now.disk.journal) {
      forall c, script
        ensures Next(p, now, c, script) == now
      {
        FullJournalStays(p, now, c, script);
      }
    }
  }

  /** Which undisturbed command ends an update, in every state of every run: an acknowledgement
      when there is none or its files are new, and a recovery when it is active, not completed
      and its record leaves room. Any other is turned away, or refused for want of room, and
      changes nothing. */
  lemma CommandsEndExactly(p: Policy, s: Story, run: seq<Happening>, i: nat)
    requires !s.disk.active && ProperRun(p, s, run) && i <= |run|
    ensures var d := States(p, s, run)[i].disk;
      var accepted, recovered := Acknowledge(p, d, []), Recover(p, d, []);
      && (if !d.active || d.journal.state in NEW then accepted.end.Finished? && !accepted.disk.active else accepted == Run(Rejected, d, []))
      && (if !d.active || d.journal.state == "completed" then recovered == Run(Rejected, d, [])
          else if LeavesRoom(d.journal) then recovered.end.Finished? && !recovered.disk.active else recovered == Run(Refused, d, []))
  {
    hide Storable, Tracked, States, ProperRun, FreshRun, Consistent, Rollback, LeavesRoom;
    NotActive(p, s);
    RunConsistent(p, s, run);
    var now := States(p, s, run)[i];
    if now.disk.active {
      FromTracked(p, now);
      StateKnown(p, now);
      if now.disk.journal.state in NEW { AcknowledgeGoesThrough(p, now); }
      if now.disk.journal.state != "completed" {
        RecoverGoesThrough(p, now);
        RollbackGoesThrough(p, now.disk, now.disk.journal);
      }
    }
  }

  lemma AcknowledgeGoesThrough(p: Policy, now: Story)
    requires Tracked(p, now) && now.disk.active && now.disk.journal.state in NEW
    ensures var r := Acknowledge(p, now.disk, []); r.end.Finished? && !r.disk.active && r.disk.root == now.disk.root
  {
    hide Storable, Recoverable, CleanCopies;
    var d := now.disk;
    forall name | name in d.manifest
      ensures p.fold(name) in d.root && d.root[p.fold(name)] == d.manifest[name]
    {
      var m :| 0 <= m < |now.planned| && now.planned[m].name == name && now.planned[m].replacement == d.manifest[name];
      assert InPlace(p, d.root, d.backup, now.planned[m], d.journal.files[m], m);
    }
    StatesPlain();
    ShorterStorable(p, d.journal, "completed");
  }

  lemma RecoverGoesThrough(p: Policy, now: Story)
    requires Tracked(p, now) && now.disk.active && now.disk.journal.state != "completed"
    ensures var r := Recover(p, now.disk, []);
      && (r.end.Finished? <==> LeavesRoom(now.disk.journal))
      && (r.end.Finished? ==> !r.disk.active && RolledBackRoot(p, now.before, now.disk.journal, now.disk.root, r.disk.root))
      && (r.end.Finished? && Consistent(p, now) ==> r.disk.root == now.before)
  {
    hide Rollback, Storable, LeavesRoom, RolledBackRoot, CleanCopies;
    StateKnown(p, now);
    RollbackTracks(p, now.before, now.planned, now.disk, now.disk.journal, []);
    if Consistent(p, now) { RollbackKeeps(p, now.before, now.planned, now.disk, now.disk.journal, []); }
    RollbackGoesThrough(p, now.disk, now.disk.journal);
  }

  lemma FullJournalStays(p: Policy, now: Story, c: Command, script: seq<Event>)
    requires Tracked(p, now) && now.disk.active && now.disk.journal.state !in NEW && !LeavesRoom(now.disk.journal)
    ensures Next(p, now, c, script) == now
  {
    hide Storable, LeavesRoom, Tracked;
    StateKnown(p, now);
    assert Accepted(p, now.disk.journal) && Storable(now.disk.journal) by { FromTracked(p, now); }
    RoomExactly(p, now.disk.journal);
  }

  lemma FromTracked(p: Policy, s: Story)
    requires Tracked(p, s) && s.disk.active
    ensures Accepted(p, s.disk.journal) && Storable(s.disk.journal)
  {
  }

  lemma FromConsistent(p: Policy, s: Story)
    requires Consistent(p, s) && s.disk.active
    ensures Tracked(p, s) && Accepted(p, s.disk.journal) && Storable(s.disk.journal)
  {
  }

  /** Without refusals or power loss a rollback stops at content checks only, unless its
      journal is too long to be saved at all. */
  lemma RollbackGoesThrough(p: Policy, d: Disk, j: Journal)
    requires Accepted(p, j) && Storable(j) && Plain(j.state)
    ensures var r := Rollback(p, d, j, []);
      if LeavesRoom(j) then r.end.Finished? || r.end.Conflict? else r == Run(Refused, d, [])
  {
    hide Storable, LeavesRoom;
    RoomExactly(p, j);
    var d1 := d.(journal := j.(state := "rollingBack"));
    RemovePromotedGoesThrough(p, d1, j.promoted);
    RestoreFirstGoesThrough(p, RemovePromoted(p, d1, j.promoted, []).disk, j.files, |j.files|);
  }

  /** Whatever a run saves and leaves active, the loader reads back. */
  lemma RunsSaveLoadable(p: Policy, s: Story, run: seq<Happening>, i: nat)
    requires !s.disk.active && ProperRun(p, s, run) && i <= |run|
    requires States(p, s, run)[i].disk.active
    ensures var j := States(p, s, run)[i].disk.journal; JournalCodec.Load(p, JournalCodec.SaveText(j)) == JournalCodec.Stored(j)
  {
    hide Storable, JournalCodec.Load, JournalCodec.SaveText;
    RunConsistent(p, s, run);
    FromTracked(p, States(p, s, run)[i]);
    StoredLoads(p, States(p, s, run)[i].disk.journal);
  }

  lemma {:induction false} RemovePromotedGoesThrough(p: Policy, d: Disk, copies: seq<RootCopy>)
    ensures var r := RemovePromoted(p, d, copies, []); r.end.Finished? && r.rest == []
    decreases |copies|
  {
    if copies != [] {
      var k := p.fold(copies[0].name);
      RemovePromotedGoesThrough(p, if k in d.root && d.root[k] == copies[0].hash then d.(root := d.root - {k}) else d, copies[1..]);
    }
  }

  lemma {:induction false} RestoreFirstGoesThrough(p: Policy, d: Disk, files: seq<Entry>, n: nat)
    requires n <= |files|
    ensures var r := RestoreFirst(p, d, files, n, []); (r.end.Finished? || r.end.Conflict?) && r.rest == []
    decreases n
  {
    if n > 0 {
      RestoreFirstGoesThrough(p, RestoreEntry(p, d, files[n - 1], n - 1, []).disk, files, n - 1);
    }
  }

  // ---------------------------------------------- crash, recover, crash again

  /** Recovery attempts, each with its own script, while the record is active. */
  function Recoveries(p: Policy, d: Disk, scripts: seq<seq<Event>>): Disk
    decreases |scripts|
  {
    if scripts == [] then d else Recoveries(p, Recover(p, d, scripts[0]).disk, scripts[1..])
  }

  lemma {:induction false} RecoveriesKeep(p: Policy, s: Story, scripts: seq<seq<Event>>)
    requires Consistent(p, s)
    requires s.disk.journal.state != "completed"
    requires !s.disk.active ==> s.disk.root == s.before
    ensures var d := Recoveries(p, s.disk, scripts);
      && Consistent(p, s.(disk := d))
      && (d.active || d.root == s.before)
      && d.journal.state != "completed"
      && (forall script :: !Recover(p, d, script).end.Conflict? && (d.active ==> !Recover(p, d, script).end.Rejected?))
    decreases |scripts|
  {
    if scripts == [] {
      forall script
        ensures !Recover(p, s.disk, script).end.Conflict? && (s.disk.active ==> !Recover(p, s.disk, script).end.Rejected?)
      {
        if s.disk.active { RollbackKeeps(p, s.before, s.planned, s.disk, s.disk.journal, script); }
      }
    } else {
      if s.disk.active { RollbackKeeps(p, s.before, s.planned, s.disk, s.disk.journal, scripts[0]); }
      RecoveriesKeep(p, s.(disk := Recover(p, s.disk, scripts[0]).disk), scripts[1..]);
    }
  }

  /** However an apply is interrupted and however often recovery is, recovery meets no
      conflict, and when it runs to the end ROOT is exactly as before the apply. */
  lemma RecoveryRestoresRoot(p: Policy, d: Disk, plan: Plan, script: seq<Event>, scripts: seq<seq<Event>>, last: seq<Event>)
    requires ValidPlan(p, plan) && !d.active
    ensures var crashed := Recoveries(p, Apply(p, d, plan, script).disk, scripts);
      var r := Recover(p, crashed, last);
      && !r.end.Conflict?
      && (crashed.active ==> !r.end.Rejected?)
      && (!crashed.active ==> crashed.root == d.root)
      && (r.end.Finished? ==> !r.disk.active && r.disk.root == d.root)
  {
    if Begins(p, d, plan) && Apply(p, d, plan, script).disk.active {
      var s := Next(p, Story(d, d.root, []), DoApply(plan), script);
      ApplyKeeps(p, Story(d, d.root, []), plan, script);
      RecoveriesKeep(p, s, scripts);
      var crashed := Recoveries(p, s.disk, scripts);
      if crashed.active {
        RollbackKeeps(p, s.before, s.planned, crashed, crashed.journal, last);
      }
    } else {
      ApplyKeeps(p, Story(d, d.root, []), plan, script);
      InactiveStays(p, Apply(p, d, plan, script).disk, scripts);
    }
  }

  lemma {:induction false} InactiveStays(p: Policy, d: Disk, scripts: seq<seq<Event>>)
    requires !d.active
    ensures Recoveries(p, d, scripts) == d
    decreases |scripts|
  {
    if scripts != [] { InactiveStays(p, d, scripts[1..]); }
  }

  // ----------------------------------------------------------- foreign files

  /** The journal names this content for path `k`. */
  ghost predicate Known(p: Policy, j: Journal, k: string, content: string) {
    || (exists i :: 0 <= i < |j.files| && p.fold(j.files[i].name) == k && content in {j.files[i].original, j.files[i].replacement})
    || (exists i :: 0 <= i < |j.promoted| && p.fold(j.promoted[i].name) == k && content == j.promoted[i].hash)
  }

  /** A file is unchanged, or its content was one the journal names. */
  ghost predicate Spared(p: Policy, j: Journal, was: Root, now: Root) {
    forall k :: k in was ==> (k in now && now[k] == was[k]) || Known(p, j, k, was[k])
  }

  lemma {:induction false} RemovePromotedSpares(p: Policy, was: Root, j: Journal, d: Disk, n: nat, script: seq<Event>)
    requires n <= |j.promoted| && Spared(p, j, was, d.root)
    ensures Spared(p, j, was, RemovePromoted(p, d, j.promoted[n..], script).disk.root)
    decreases |j.promoted| - n
  {
    if n < |j.promoted| {
      var k := p.fold(j.promoted[n].name);
      assert j.promoted[n..][1..] == j.promoted[n + 1..];
      var r := if k in d.root && d.root[k] == j.promoted[n].hash then Attempt(d, d.(root := d.root - {k}), script) else Run(Finished, d, script);
      if r.end.Finished? { RemovePromotedSpares(p, was, j, r.disk, n + 1, r.rest); }
    }
  }

  lemma {:induction false} RestoreFirstSpares(p: Policy, was: Root, j: Journal, d: Disk, n: nat, script: seq<Event>)
    requires n <= |j.files| && Spared(p, j, was, d.root)
    ensures Spared(p, j, was, RestoreFirst(p, d, j.files, n, script).disk.root)
    decreases n
  {
    if n > 0 {
      var e, k := j.files[n - 1], p.fold(j.files[n - 1].name);
      var r := RestoreEntry(p, d, e, n - 1, script);
      assert k in d.root && r.disk.root != d.root ==> Known(p, j, k, d.root[k]);
      if r.end.Finished? { RestoreFirstSpares(p, was, j, r.disk, n - 1, r.rest); }
    }
  }

  /** From any disk and any journal, a rollback stops rather than overwrite or delete a file
      whose content the journal does not name. */
  lemma RollbackSparesForeignFiles(p: Policy, d: Disk, j: Journal, script: seq<Event>)
    ensures Spared(p, j, d.root, Rollback(p, d, j, script).disk.root)
  {
    hide Storable;
    var r1 := Save(d, j.(state := "rollingBack"), script);
    if r1.end.Finished? {
      assert j.promoted[0..] == j.promoted;
      RemovePromotedSpares(p, d.root, j, r1.disk, 0, r1.rest);
      var r2 := RemovePromoted(p, r1.disk, j.promoted, r1.rest);
      if r2.end.Finished? { RestoreFirstSpares(p, d.root, j, r2.disk, |j.files|, r2.rest); }
    }
  }

  /** Whatever differs in ROOT is a content the journal names as the original of that path. */
  ghost predicate PutBack(p: Policy, j: Journal, was: Root, now: Root) {
    forall k :: k in now ==> (k in was && was[k] == now[k]) || OriginalOf(p, j, k, now[k])
  }

  ghost predicate OriginalOf(p: Policy, j: Journal, k: string, content: string) {
    exists i :: 0 <= i < |j.files| && p.fold(j.files[i].name) == k && j.files[i].existed && content == j.files[i].original
  }

  lemma OneRestorePutsBack(p: Policy, was: Root, j: Journal, d: Disk, n: nat, script: seq<Event>)
    requires n < |j.files| && PutBack(p, j, was, d.root)
    ensures PutBack(p, j, was, RestoreEntry(p, d, j.files[n], n, script).disk.root)
  {
    var k := p.fold(j.files[n].name);
    var r := RestoreEntry(p, d, j.files[n], n, script);
    assert k in r.disk.root && r.disk.root != d.root ==> OriginalOf(p, j, k, r.disk.root[k]);
  }

  lemma {:induction false} RestoreFirstPutsBack(p: Policy, was: Root, j: Journal, d: Disk, n: nat, script: seq<Event>)
    requires n <= |j.files| && PutBack(p, j, was, d.root)
    ensures PutBack(p, j, was, RestoreFirst(p, d, j.files, n, script).disk.root)
    decreases n
  {
    if n > 0 {
      hide RestoreEntry, PutBack;
      OneRestorePutsBack(p, was, j, d, n - 1, script);
      var r := RestoreEntry(p, d, j.files[n - 1], n - 1, script);
      if r.end.Finished? { RestoreFirstPutsBack(p, was, j, r.disk, n - 1, r.rest); }
    }
  }

  /** From any disk and any journal, a rollback writes nothing into ROOT but a content that the
      journal names as the original of this very path: a backup of any other content stops it. */
  lemma RollbackPutsBackOriginals(p: Policy, d: Disk, j: Journal, script: seq<Event>)
    ensures PutBack(p, j, d.root, Rollback(p, d, j, script).disk.root)
  {
    hide Storable, PutBack;
    PutBackShrinks(p, j, d.root, d.root);
    var r1 := Save(d, j.(state := "rollingBack"), script);
    if r1.end.Finished? {
      RemovePromotedShrinks(p, r1.disk, j.promoted, r1.rest);
      var r2 := RemovePromoted(p, r1.disk, j.promoted, r1.rest);
      PutBackShrinks(p, j, d.root, r2.disk.root);
      if r2.end.Finished? { RestoreFirstPutsBack(p, d.root, j, r2.disk, |j.files|, r2.rest); }
    }
  }

  lemma PutBackShrinks(p: Policy, j: Journal, was: Root, now: Root)
    requires forall k :: k in now ==> k in was && now[k] == was[k]
    ensures PutBack(p, j, was, now)
  {
  }
}
