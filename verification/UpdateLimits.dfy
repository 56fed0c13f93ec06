/** Promises of the updater that hold only under a condition, and exactly when. */
module UpdateLimits {
  import opened UpdateJournal
  import opened JournalStore
  import opened UpdateTransaction
  import opened UpdateRecovery
  import opened UpdateSafety
  import opened UpdatePromotion
  import opened UpdateRuns
  import opened UpdateGuarantees

  // ----------------------------------------------- what an apply leaves behind

  /** The journal of an update, as it is saved first. */
  function FirstJournal(p: Policy, d: Disk, plan: Plan): Journal {
    Journal("prepared", PlanFiles(p, d.root, plan), [])
  }

  /** Whether a crashed apply can be recovered: no two names of the inventories fold alike,
      and the journal leaves room for the state a rollback saves first. */
  ghost predicate Recovers(p: Policy, d: Disk, plan: Plan) {
    FoldsApart(p, plan) && LeavesRoom(FirstJournal(p, d, plan))
  }

  /** However an apply ended that left its record active: recovery succeeds exactly when
      `Recovers`, and otherwise no recovery ever changes anything. If names fold alike the
      product may not start either, not even after an apply that went through. */
  lemma CrashedApplyRecoversExactly(p: Policy, d: Disk, plan: Plan, script: seq<Event>)
    requires ParsedPlan(p, plan) && Begins(p, d, plan) && Apply(p, d, plan, script).disk.active
    ensures var crashed := Apply(p, d, plan, script).disk;
      && (Recover(p, crashed, []).end.Finished? <==> Recovers(p, d, plan))
      && (Recovers(p, d, plan) ==> Recover(p, crashed, []).disk.root == d.root)
      && (!Recovers(p, d, plan) ==> forall again :: !Recover(p, crashed, again).end.Finished? && Recover(p, crashed, again).disk == crashed)
      && (StartupAllowed(p, crashed) <==> FoldsApart(p, plan) && crashed.journal.state in {"installed", "rolledBack"})
  {
    hide Apply, LeavesRoom, Storable, Consistent, Rollback;
    var crashed := Apply(p, d, plan, script).disk;
    ApplyFiles(p, d, plan, script);
    PlanJournalAccepted(p, d.root, plan, crashed.journal.state);
    if FoldsApart(p, plan) {
      var s := Story(crashed, d.root, PlanFiles(p, d.root, plan));
      ApplyKeeps(p, Story(d, d.root, []), plan, script);
      FromConsistent(p, s);
      StateKnown(p, s);
      StatesPlain();
      StateSize(crashed.journal, "prepared");
      assert LeavesRoom(crashed.journal) <==> LeavesRoom(FirstJournal(p, d, plan)) by { SameRoom(crashed.journal, "prepared"); }
      RecoverGoesThrough(p, s);
      if !LeavesRoom(crashed.journal) {
        RoomExactly(p, crashed.journal);
        forall again
          ensures Recover(p, crashed, again) == Run(Refused, crashed, again)
        {
          NotSaved(p, crashed, crashed.journal, again);
        }
      }
    }
  }

  lemma NotSaved(p: Policy, d: Disk, j: Journal, script: seq<Event>)
    requires !Storable(j.(state := "rollingBack"))
    ensures Rollback(p, d, j, script) == Run(Refused, d, script)
  {
    hide Storable;
  }

  lemma SameRoom(j: Journal, state: string)
    requires Plain(j.state) && Plain(state)
    ensures LeavesRoom(j) <==> LeavesRoom(j.(state := state))
  {
    hide Size;
    StateSize(j, state);
  }

  /** Whatever happens to an apply, the entries of an active journal are the planned ones. */
  lemma ApplyFiles(p: Policy, d: Disk, plan: Plan, script: seq<Event>)
    requires Begins(p, d, plan) && Apply(p, d, plan, script).disk.active
    ensures var j := Apply(p, d, plan, script).disk.journal; j == FirstJournal(p, d, plan).(state := j.state)
  {
    hide Storable, Rollback, Install;
    var files := PlanFiles(p, d.root, plan);
    var prepared := Prepared(d, plan, files);
    var r1 := if Storable(prepared.journal) then Attempt(d, prepared, script) else Run(Refused, d, script);
    assert r1.end.Finished?;
    var r2 := Attempt(prepared, prepared.(active := true), r1.rest);
    assert r2.end.Finished?;
    InstallJournal(p, r2.disk, plan, files, r2.rest);
    var r := Install(p, r2.disk, plan, files, r2.rest);
    if !r.end.Finished? && !r.end.PowerCut? { RollbackJournal(p, r.disk, Journal("applying", files, []), r.rest); }
  }

  lemma InstallJournal(p: Policy, d: Disk, plan: Plan, files: seq<Entry>, script: seq<Event>)
    requires d.journal == Journal(d.journal.state, files, [])
    ensures var j := Install(p, d, plan, files, script).disk.journal; j == Journal(j.state, files, [])
  {
    hide Storable, Holds;
    var r1 := Save(d, Journal("applying", files, []), script);
    if r1.end.Finished? { InstallFromJournal(p, r1.disk, plan, files, 0, r1.rest); }
  }

  lemma {:induction false} InstallFromJournal(p: Policy, d: Disk, plan: Plan, files: seq<Entry>, n: nat, script: seq<Event>)
    requires n <= |files|
    ensures InstallFrom(p, d, plan, files, n, script).disk.journal == d.journal
    decreases |files| - n
  {
    if n < |files| {
      var r := InstallEntry(p, d, files[n], n, plan, script);
      if r.end.Finished? { InstallFromJournal(p, r.disk, plan, files, n + 1, r.rest); }
    }
  }

  lemma RollbackJournal(p: Policy, d: Disk, j: Journal, script: seq<Event>)
    requires d.journal == j.(state := d.journal.state)
    ensures var now := Rollback(p, d, j, script).disk.journal; now == j.(state := now.state)
  {
    hide Storable;
    var r1 := Save(d, j.(state := "rollingBack"), script);
    if r1.end.Finished? {
      RemovePromotedJournal(p, r1.disk, j.promoted, r1.rest);
      var r2 := RemovePromoted(p, r1.disk, j.promoted, r1.rest);
      if r2.end.Finished? { RestoreFirstJournal(p, r2.disk, j.files, |j.files|, r2.rest); }
    }
  }

  lemma {:induction false} RemovePromotedJournal(p: Policy, d: Disk, copies: seq<RootCopy>, script: seq<Event>)
    ensures RemovePromoted(p, d, copies, script).disk.journal == d.journal
    decreases |copies|
  {
    if copies != [] {
      var k := p.fold(copies[0].name);
      var r := if k in d.root && d.root[k] == copies[0].hash then Attempt(d, d.(root := d.root - {k}), script) else Run(Finished, d, script);
      if r.end.Finished? { RemovePromotedJournal(p, r.disk, copies[1..], r.rest); }
    }
  }

  lemma {:induction false} RestoreFirstJournal(p: Policy, d: Disk, files: seq<Entry>, n: nat, script: seq<Event>)
    requires n <= |files|
    ensures RestoreFirst(p, d, files, n, script).disk.journal == d.journal
    decreases n
  {
    if n > 0 {
      var r := RestoreEntry(p, d, files[n - 1], n - 1, script);
      if r.end.Finished? { RestoreFirstJournal(p, r.disk, files, n - 1, r.rest); }
    }
  }

  // ------------------------------------------------ names that fold alike

  function SampleHash(): (hash: string)
    ensures ValidHash(hash)
  {
    seq(64, _ => 'a')
  }

  /** The hash of the other version of a file. */
  function OlderHash(): (hash: string)
    ensures ValidHash(hash) && hash != SampleHash()
  {
    var hash := seq(64, _ => 'b');
    assert hash[0] != SampleHash()[0];
    hash
  }

  /** What every version has, with the executable of this size. */
  function CommonFiles(hash: string, size: nat): map<string, Product> {
    map["HyperCommander.exe" := Product(hash, size), "HyperCommanderAdmin.exe" := Product(hash, 1), "HyperEditor.exe" := Product(hash, 1),
        "Libs/platforms/qwindows.dll" := Product(hash, 1), INVENTORY := Product(hash, 1)]
  }

  /** They are on the disk, and nothing else is. */
  function CommonRoot(p: Policy): map<string, string> {
    map[p.fold("HyperCommander.exe") := OlderHash(), p.fold("HyperCommanderAdmin.exe") := OlderHash(), p.fold("HyperEditor.exe") := OlderHash(),
        p.fold("Libs/platforms/qwindows.dll") := OlderHash(), p.fold(INVENTORY) := OlderHash()]
  }

  function CommonDisk(p: Policy): Disk {
    Disk(CommonRoot(p), map[], false, Journal("", [], []), map[], "", map[])
  }

  lemma CommonHashes(p: Policy, name: string, size: nat)
    ensures name in CommonFiles(OlderHash(), size) ==>
      && p.fold(name) in CommonRoot(p) && CommonRoot(p)[p.fold(name)] == OlderHash()
      && CommonFiles(OlderHash(), size)[name].hash == OlderHash()
  {
    hide OlderHash;
  }

  function AlikePlan(): Plan {
    Plan(["HyperCommander.exe", "HyperCommanderAdmin.exe", "HyperEditor.exe", "Libs/A.dll", "Libs/a.dll", "Libs/platforms/qwindows.dll", INVENTORY],
         CommonFiles(OlderHash(), 1)["Libs/A.dll" := Product(OlderHash(), 1)], CommonFiles(SampleHash(), 1)["Libs/a.dll" := Product(SampleHash(), 1)],
         map[], {})
  }

  lemma AlikeProducts(p: Policy, products: map<string, Product>, hash: string, name: string)
    requires ValidHash(hash) && p.owned(name) && products == CommonFiles(hash, 1)[name := Product(hash, 1)]
    requires forall k :: k in REQUIRED || k == INVENTORY ==> p.owned(k)
    ensures ValidProducts(p, products) && Complete(products)
  {
    hide ValidHash;
    forall k | k in products
      ensures (k in REQUIRED || k == INVENTORY || k == name) && products[k] == Product(hash, 1)
    {
    }
  }

  lemma AlikePlanParsed(p: Policy)
    requires p.owned("Libs/A.dll") && p.owned("Libs/a.dll") && forall name :: name in REQUIRED || name == INVENTORY ==> p.owned(name)
    ensures ParsedPlan(p, AlikePlan())
  {
    hide ValidHash, ValidProducts, SampleHash, OlderHash;
    var plan := AlikePlan();
    AlikeProducts(p, plan.originals, OlderHash(), "Libs/A.dll");
    AlikeProducts(p, plan.replacements, SampleHash(), "Libs/a.dll");
    forall name | name in plan.replacements
      ensures name in plan.order
    {
      assert plan.order[0] in plan.order && plan.order[1] in plan.order && plan.order[2] in plan.order && plan.order[4] in plan.order
          && plan.order[5] in plan.order && plan.order[6] in plan.order;
    }
  }

  /** The case arises, for every rule of letter case that folds these names alike: a file
      listed as `Libs/A.dll`, missing on disk, renamed to `Libs/a.dll` by the next version. */
  lemma FoldingAlikeHappens(p: Policy)
    requires p.owned("Libs/A.dll") && p.owned("Libs/a.dll") && forall name :: name in REQUIRED || name == INVENTORY ==> p.owned(name)
    requires p.fold("Libs/A.dll") == p.fold("Libs/a.dll") && p.fold("Libs/a.dll") !in CommonRoot(p)
    ensures ParsedPlan(p, AlikePlan()) && Begins(p, CommonDisk(p), AlikePlan()) && !FoldsApart(p, AlikePlan())
  {
    AlikePlanParsed(p);
    AlikePlanBegins(p);
    var plan := AlikePlan();
    assert p.fold(plan.order[3]) == p.fold(plan.order[4]);
  }

  lemma AlikePlanBegins(p: Policy)
    requires p.fold("Libs/A.dll") == p.fold("Libs/a.dll") && p.fold("Libs/a.dll") !in CommonRoot(p)
    ensures Begins(p, CommonDisk(p), AlikePlan())
  {
    hide ValidHash, SampleHash, OlderHash;
    var plan := AlikePlan();
    forall name | name in plan.order
      ensures name in CommonFiles(OlderHash(), 1) || name == "Libs/A.dll" || name == "Libs/a.dll"
    {
    }
    hide CommonRoot, CommonFiles;
    forall name | name in plan.order
      ensures Installable(p, CommonRoot(p), plan, name)
    {
      CommonHashes(p, name, 1);
    }
  }

  // -------------------------------------------------------- promoted copies

  /** A rollback from here puts ROOT back as it was before the update. */
  ghost predicate RollsBackTo(p: Policy, before: Root, d: Disk) {
    var r := Rollback(p, d, d.journal, []);
    r.end.Finished? && r.disk.root == before
  }

  /** The names are not pending, and their carriers hold what is recorded. */
  ghost predicate Placeable(p: Policy, d: Disk, copies: seq<Carried>) {
    && d.active && d.journal.state == "installed" && Accepted(p, d.journal)
    && DistinctCopies(p, copies) && RecordCopies(p, d.journal, copies).Extended?
    && |d.journal.promoted| + |copies| <= MAX_PROMOTED
    && (forall i :: 0 <= i < |copies| ==> AcceptedCopy(p, copies[i].copy) && copies[i].content == copies[i].copy.hash)
  }

  /** What a rollback of a changed journal makes of one of its promoted copies. */
  lemma RollbackAt(p: Policy, s: Story, d: Disk, k: string, i: nat)
    requires Awaiting(p, s.before, s.planned, d.journal, d.root, d.backup)
    requires RollsBackTo(p, s.before, d)
    requires i < |d.journal.promoted| && p.fold(d.journal.promoted[i].name) == k
    ensures if k in d.root && d.root[k] == d.journal.promoted[i].hash then k !in s.before else SameAt(s.before, d.root, k)
  {
    RollbackEffect(p, s.before, d, d.journal, []);
    assert Cleared(p, d.root, s.before, d.journal.promoted[i]);
  }

  /** The journal after recording copies. */
  function Recorded(p: Policy, d: Disk, copies: seq<Carried>): Journal
    requires RecordCopies(p, d.journal, copies).Extended?
  {
    RecordCopies(p, d.journal, copies).journal
  }

  /** A name recorded with another hash: losing power before the copy is placed leaves the
      earlier copy in ROOT. */
  lemma RerecordedCopyStays(p: Policy, s: Story, copies: seq<Carried>, n: nat, m: nat)
    requires Consistent(p, s) && Placeable(p, s.disk, copies) && Storable(Recorded(p, s.disk, copies))
    requires n < |copies| && !Fresh(p, s.disk.journal, s.disk.root, copies[n].copy)
    requires m < |s.disk.journal.promoted| && SameName(p, s.disk.journal.promoted[m].name, copies[n].copy.name)
    ensures !RollsBackTo(p, s.before, PlaceWithin(p, s.disk, copies, [Proceed, PowerLoss]).disk)
  {
    var d, c, k := s.disk, copies[n].copy, p.fold(copies[n].copy.name);
    var i := RecordsCopy(p, s, copies, n);
    var j := RecordCopies(p, d.journal, copies).journal;
    assert CleanCopy(p, s.before, d.root, d.journal.promoted[m]);
    assert d.journal.promoted[m].hash != c.hash;
    var saved := d.(journal := j);
    assert [Proceed, PowerLoss][1..] == [PowerLoss];
    PlaceAllStopsAtOnce(p, saved, copies);
    assert PlaceWithin(p, d, copies, [Proceed, PowerLoss]).disk == saved;
    if RollsBackTo(p, s.before, saved) {
      RollbackAt(p, s, saved, k, i);
      assert false;
    }
  }

  /** A name the product did not list and ROOT already had: once placed, the copy is deleted
      and the file from before is gone. */
  lemma OverwrittenFileIsLost(p: Policy, s: Story, copies: seq<Carried>, n: nat)
    requires Consistent(p, s) && Placeable(p, s.disk, copies) && Storable(Recorded(p, s.disk, copies))
    requires n < |copies| && !Fresh(p, s.disk.journal, s.disk.root, copies[n].copy)
    requires !Promoted(p, s.disk.journal.promoted, p.fold(copies[n].copy.name))
    ensures !RollsBackTo(p, s.before, PlaceWithin(p, s.disk, copies, []).disk)
  {
    hide PlaceAll, RecordCopies, Rollback;
    var d, c, k := s.disk, copies[n].copy, p.fold(copies[n].copy.name);
    var i := RecordsCopy(p, s, copies, n);
    var saved := d.(journal := RecordCopies(p, d.journal, copies).journal);
    assert SameAt(d.root, s.before, k);
    PlaceWithinKeeps(p, s.before, s.planned, d, copies, []);
    PlaceAllPlaces(p, saved, copies);
    PlaceAllInactive(p, saved, copies, []);
    var placed := PlaceAll(p, saved, copies, []).disk;
    assert PlaceWithin(p, d, copies, []).disk == placed;
    if RollsBackTo(p, s.before, placed) {
      RollbackAt(p, s, placed, k, i);
      assert false;
    }
  }

  /** Where the journal ends up recording an unlisted copy. */
  lemma RecordsCopy(p: Policy, s: Story, copies: seq<Carried>, n: nat) returns (i: nat)
    requires Consistent(p, s) && Placeable(p, s.disk, copies)
    requires n < |copies| && !Fresh(p, s.disk.journal, s.disk.root, copies[n].copy)
    ensures var j, c := RecordCopies(p, s.disk.journal, copies).journal, copies[n].copy;
      j != s.disk.journal && i < |j.promoted| && SameName(p, j.promoted[i].name, c.name) && j.promoted[i].hash == c.hash
      && Awaiting(p, s.before, s.planned, j, s.disk.root, s.disk.backup)
  {
    var d, c := s.disk, copies[n].copy;
    assert copies[0..] == copies;
    RecordCopiesKeep(p, s.before, s.planned, d.journal, d.root, d.backup, copies, 0);
    var j := RecordCopies(p, d.journal, copies).journal;
    SameListing(p, d.journal.files, j.files, p.fold(c.name));
    assert Covered(p, j, c) && IsRecorded(p, j.promoted, c);
    i :| 0 <= i < |j.promoted| && SameName(p, j.promoted[i].name, c.name) && j.promoted[i].hash == c.hash;
  }

  lemma PlaceAllStopsAtOnce(p: Policy, d: Disk, copies: seq<Carried>)
    requires copies != []
    ensures PlaceAll(p, d, copies, [PowerLoss]).disk == d
  {
  }

  /** What it takes for a rollback after placing: the journal leaves room before and after
      recording, and each copy is listed, absent from ROOT, or already recorded. A journal
      that cannot take the copies at all is left as it is, and so is ROOT. */
  ghost predicate KeepsRollback(p: Policy, d: Disk, copies: seq<Carried>)
    requires RecordCopies(p, d.journal, copies).Extended?
  {
    && LeavesRoom(d.journal)
    && (Storable(Recorded(p, d, copies)) ==>
          && LeavesRoom(Recorded(p, d, copies))
          && forall i :: 0 <= i < |copies| ==> Fresh(p, d.journal, d.root, copies[i].copy))
  }

  /** Placing copies keeps the rollback guarantee at every crash point exactly when
      `KeepsRollback`. */
  lemma PlacingKeepsRollbackExactly(p: Policy, s: Story, copies: seq<Carried>)
    requires Consistent(p, s) && Placeable(p, s.disk, copies)
    ensures (forall script :: RollsBackTo(p, s.before, PlaceWithin(p, s.disk, copies, script).disk)) <==> KeepsRollback(p, s.disk, copies)
  {
    hide Storable, LeavesRoom, Fresh, PlaceWithin, RollsBackTo;
    if KeepsRollback(p, s.disk, copies) {
      forall script
        ensures RollsBackTo(p, s.before, PlaceWithin(p, s.disk, copies, script).disk)
      {
        PlacedRollsBack(p, s, copies, script);
      }
    } else if !LeavesRoom(s.disk.journal) {
      FullJournalLost(p, s, copies);
    } else if !LeavesRoom(Recorded(p, s.disk, copies)) {
      FilledJournalLost(p, s, copies);
    } else {
      var i :| 0 <= i < |copies| && !Fresh(p, s.disk.journal, s.disk.root, copies[i].copy);
      var k := p.fold(copies[i].copy.name);
      if Promoted(p, s.disk.journal.promoted, k) {
        var m :| 0 <= m < |s.disk.journal.promoted| && p.fold(s.disk.journal.promoted[m].name) == k;
        RerecordedCopyStays(p, s, copies, i, m);
      } else {
        OverwrittenFileIsLost(p, s, copies, i);
      }
    }
  }

  lemma PlacedRollsBack(p: Policy, s: Story, copies: seq<Carried>, script: seq<Event>)
    requires Consistent(p, s) && Placeable(p, s.disk, copies) && KeepsRollback(p, s.disk, copies)
    ensures RollsBackTo(p, s.before, PlaceWithin(p, s.disk, copies, script).disk)
  {
    hide Storable, LeavesRoom, Fresh, RecordCopies, PlaceAll, Rollback, Consistent;
    var d := PlaceWithin(p, s.disk, copies, script).disk;
    if Storable(Recorded(p, s.disk, copies)) {
      FromConsistent(p, s);
      PromoteKeeps(p, s, copies, script);
      AwaitingFrom(p, s);
      PlaceWithinKeeps(p, s.before, s.planned, s.disk, copies, script);
    } else {
      FromConsistent(p, s);
      assert d == s.disk;
    }
    RollsBackFrom(p, s.(disk := d));
  }

  lemma AwaitingFrom(p: Policy, s: Story)
    requires Consistent(p, s) && s.disk.active && s.disk.journal.state == "installed"
    ensures Awaiting(p, s.before, s.planned, s.disk.journal, s.disk.root, s.disk.backup)
  {
  }

  lemma RollsBackFrom(p: Policy, s: Story)
    requires Consistent(p, s) && s.disk.active && s.disk.journal.state == "installed" && LeavesRoom(s.disk.journal)
    ensures RollsBackTo(p, s.before, s.disk)
  {
    hide Storable, LeavesRoom, Rollback, Consistent;
    StatesPlain();
    FromConsistent(p, s);
    RollbackKeeps(p, s.before, s.planned, s.disk, s.disk.journal, []);
    RollbackGoesThrough(p, s.disk, s.disk.journal);
  }

  lemma RecordedAccepted(p: Policy, s: Story, copies: seq<Carried>)
    requires Consistent(p, s) && Placeable(p, s.disk, copies)
    ensures Accepted(p, Recorded(p, s.disk, copies)) && Recorded(p, s.disk, copies).state == "installed"
  {
    hide RecordCopies, Storable;
    AwaitingFrom(p, s);
    assert copies[0..] == copies;
    RecordCopiesKeep(p, s.before, s.planned, s.disk.journal, s.disk.root, s.disk.backup, copies, 0);
    RecordCopiesAccepted(p, s.disk.journal, copies);
  }

  /** A journal without room: losing power before the copies are placed leaves a state no
      rollback can even begin in. */
  lemma FullJournalLost(p: Policy, s: Story, copies: seq<Carried>)
    requires Consistent(p, s) && Placeable(p, s.disk, copies) && !LeavesRoom(s.disk.journal)
    ensures !RollsBackTo(p, s.before, PlaceWithin(p, s.disk, copies, [PowerLoss]).disk)
  {
    hide Storable, LeavesRoom, Rollback, Consistent, RecordCopies;
    StatesPlain();
    FromConsistent(p, s);
    RoomExactly(p, s.disk.journal);
    assert PlaceWithin(p, s.disk, copies, [PowerLoss]).disk == s.disk by {
      if copies != [] { PlaceAllStopsAtOnce(p, s.disk, copies); }
    }
    NotSaved(p, s.disk, s.disk.journal, []);
  }

  lemma FilledJournalLost(p: Policy, s: Story, copies: seq<Carried>)
    requires Consistent(p, s) && Placeable(p, s.disk, copies) && LeavesRoom(s.disk.journal)
    requires Storable(Recorded(p, s.disk, copies)) && !LeavesRoom(Recorded(p, s.disk, copies))
    ensures !RollsBackTo(p, s.before, PlaceWithin(p, s.disk, copies, [Proceed, PowerLoss]).disk)
  {
    hide Storable, LeavesRoom, Rollback, Consistent, RecordCopies, PlaceAll;
    var j := Recorded(p, s.disk, copies);
    var saved := s.disk.(journal := j);
    StatesPlain();
    RecordedAccepted(p, s, copies);
    RoomExactly(p, j);
    NothingRecorded(p, s.disk.journal);
    assert copies != [] && [Proceed, PowerLoss][1..] == [PowerLoss];
    PlaceAllStopsAtOnce(p, saved, copies);
    assert PlaceWithin(p, s.disk, copies, [Proceed, PowerLoss]).disk == saved;
    NotSaved(p, saved, j, []);
  }

  lemma NothingRecorded(p: Policy, j: Journal)
    ensures RecordCopies(p, j, []) == Extended(j)
  {
  }
}
