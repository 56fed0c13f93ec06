/** When an update goes through: the exact condition for an undisturbed apply, and what the
    whole update leaves. */
module UpdateSuccess {
  import opened UpdateJournal
  import opened JournalStore
  import opened UpdateTransaction
  import opened UpdateRecovery
  import opened UpdateSafety
  import opened UpdatePromotion
  import opened UpdateRuns
  import opened UpdateGuarantees

  /** The replacement of an entry is staged as it should be. */
  predicate Staged(plan: Plan, e: Entry) {
    e.replacement == "" || (e.name in plan.staging && plan.staging[e.name] == e.replacement)
  }

  /** Every replacement of the plan is staged with its content. */
  predicate AllStaged(plan: Plan) {
    forall name <- plan.order :: name in plan.replacements ==> name in plan.staging && plan.staging[name] == plan.replacements[name].hash
  }

  lemma PutGoesThrough(p: Policy, d: Disk, e: Entry, plan: Plan)
    requires p.fold(e.name) !in d.root
    ensures var r := Put(p, d, e, plan, []); r.rest == [] && (r.end.Finished? <==> Staged(plan, e))
  {
  }

  /** An untouched entry is installed exactly if its replacement is staged. */
  lemma EntryGoesThrough(p: Policy, d: Disk, e: Entry, n: nat, plan: Plan)
    requires Original(p, d.root, d.backup, e, n)
    ensures var r := InstallEntry(p, d, e, n, plan, []); r.rest == [] && (r.end.Finished? <==> Staged(plan, e))
  {
    hide Put;
    var b := BackUp(p, d, e, n, []);
    assert b.end.Finished? && b.rest == [] && p.fold(e.name) !in b.disk.root;
    PutGoesThrough(p, b.disk, e, plan);
  }

  lemma {:induction false} FilesGoThrough(p: Policy, before: Root, files: seq<Entry>, d: Disk, plan: Plan, n: nat)
    requires n <= |files|
    requires Recoverable(p, before, files, [], d.root, d.backup)
    requires forall i :: n <= i < |files| ==> Original(p, d.root, d.backup, files[i], i)
    ensures var r := InstallFrom(p, d, plan, files, n, []);
      r.rest == [] && (r.end.Finished? <==> forall i :: n <= i < |files| ==> Staged(plan, files[i]))
    decreases |files| - n
  {
    hide InstallEntry;
    if n < |files| {
      EntryGoesThrough(p, d, files[n], n, plan);
      InstallOriginalEntry(p, d, files[n], n, plan, []);
      var r := InstallEntry(p, d, files[n], n, plan, []);
      ChangeOne(p, before, files, [], n, d, r.disk);
      if r.end.Finished? {
        forall i | n < i < |files|
          ensures Original(p, r.disk.root, r.disk.backup, files[i], i)
        {
          assert p.fold(files[i].name) != p.fold(files[n].name);
          assert SameAt(r.disk.root, d.root, p.fold(files[i].name));
        }
        FilesGoThrough(p, before, files, r.disk, plan, n + 1);
      }
    }
  }

  /** Every planned name has its new content or is gone, every other path is as before, and the
      old contents are kept. */
  ghost predicate FullyInstalled(p: Policy, before: Root, plan: Plan, d: Disk) {
    && (forall i :: 0 <= i < |plan.order| ==>
          var name, k := plan.order[i], p.fold(plan.order[i]);
          && (if name in plan.replacements then k in d.root && d.root[k] == plan.replacements[name].hash else k !in d.root)
          && (k in before <==> i in d.backup) && (k in before ==> d.backup[i] == before[k]))
    && (forall k :: (forall i :: 0 <= i < |plan.order| ==> p.fold(plan.order[i]) != k) ==> SameAt(d.root, before, k))
  }

  lemma PlannedStaged(p: Policy, root: Root, plan: Plan)
    requires ParsedPlan(p, plan)
    ensures (forall e :: e in PlanFiles(p, root, plan) ==> Staged(plan, e)) <==> AllStaged(plan)
  {
    var files := PlanFiles(p, root, plan);
    if AllStaged(plan) {
      forall e | e in files
        ensures Staged(plan, e)
      {
        var i :| 0 <= i < |files| && files[i] == e;
        assert plan.order[i] in plan.order;
      }
    }
    if forall e :: e in files ==> Staged(plan, e) {
      forall name | name in plan.order && name in plan.replacements
        ensures name in plan.staging && plan.staging[name] == plan.replacements[name].hash
      {
        var i :| 0 <= i < |plan.order| && plan.order[i] == name;
        assert files[i] in files && files[i].name == name;
      }
    }
  }

  /** The guarded part goes through exactly if its records can be saved and everything is
      staged. */
  lemma InstallGoesThrough(p: Policy, before: Root, files: seq<Entry>, d: Disk, plan: Plan)
    requires Recoverable(p, before, files, [], d.root, d.backup)
    requires forall i :: 0 <= i < |files| ==> Original(p, d.root, d.backup, files[i], i)
    requires Carries(files, plan)
    ensures Install(p, d, plan, files, []).end.Finished? <==>
      Storable(Journal("applying", files, [])) && Storable(Journal("installed", files, [])) && forall e :: e in files ==> Staged(plan, e)
  {
    hide Storable, Recoverable, InstallFrom, Installed, Original, Staged, Carries, Holds;
    var r1 := Save(d, Journal("applying", files, []), []);
    if r1.end.Finished? {
      InstallFromEffect(p, before, files, r1.disk, plan, 0, []);
      FilesGoThrough(p, before, files, r1.disk, plan, 0);
      var r2 := InstallFrom(p, r1.disk, plan, files, 0, []);
      if r2.end.Finished? { AllHeld(p, files, plan, r2.disk.root, r2.disk.backup); }
    }
  }

  lemma InstalledFully(p: Policy, before: Root, plan: Plan, d: Disk)
    requires ParsedPlan(p, plan)
    requires var files := PlanFiles(p, before, plan);
      && Recoverable(p, before, files, [], d.root, d.backup)
      && forall i :: 0 <= i < |files| ==> Installed(p, d.root, d.backup, files[i], i)
    ensures FullyInstalled(p, before, plan, d)
  {
    hide Storable;
    var files := PlanFiles(p, before, plan);
    forall i | 0 <= i < |plan.order|
      ensures var name, k := plan.order[i], p.fold(plan.order[i]);
        && (if name in plan.replacements then k in d.root && d.root[k] == plan.replacements[name].hash else k !in d.root)
        && (k in before <==> i in d.backup) && (k in before ==> d.backup[i] == before[k])
    {
      assert Installed(p, d.root, d.backup, files[i], i) && Describes(p, before, files[i]) && Safe(p, d.root, d.backup, files[i], i);
    }
    forall k | forall i :: 0 <= i < |plan.order| ==> p.fold(plan.order[i]) != k
      ensures SameAt(d.root, before, k)
    {
      assert !Listed(p, files, k) && !Promoted(p, [], k);
    }
  }

  /** An undisturbed update goes through exactly if no other is active, every present file is
      listed with its content, every replacement is staged with its content, and the record
      fits. Then it awaits its health check with every file in its new state. */
  lemma ApplySucceedsExactly(p: Policy, d: Disk, plan: Plan)
    requires ValidPlan(p, plan)
    ensures var r, done := Apply(p, d, plan, []), Journal("installed", PlanFiles(p, d.root, plan), []);
      && (r.end.Finished? <==>
            && !d.active && AllStaged(plan) && Storable(done)
            && forall i :: 0 <= i < |plan.order| && p.fold(plan.order[i]) in d.root ==>
                 plan.order[i] in plan.originals && d.root[p.fold(plan.order[i])] == plan.originals[plan.order[i]].hash)
      && (r.end.Finished? ==> r.disk.active && r.disk.journal == done && StartupAllowed(p, r.disk) && FullyInstalled(p, d.root, plan, r.disk))
  {
    hide Storable, Install, Rollback, FullyInstalled, AllStaged, Recoverable, Original, Installed, Complete, FoldsApart, Carries;
    var files := PlanFiles(p, d.root, plan);
    BeginsMeans(p, d, plan);
    if Begins(p, d, plan) {
      var active := Prepared(d, plan, files).(active := true);
      PlanFilesFit(p, d.root, plan);
      ShorterStates(p, files);
      InstallGoesThrough(p, d.root, files, active, plan);
      InstallEffect(p, d.root, files, active, plan, []);
      PlannedStaged(p, d.root, plan);
      UndoneFails(p, active, plan, files);
      if Apply(p, d, plan, []).end.Finished? { InstalledFully(p, d.root, plan, Apply(p, d, plan, []).disk); }
    }
  }

  /** What can be saved as installed can be saved in the states before. */
  lemma ShorterStates(p: Policy, files: seq<Entry>)
    requires forall state :: Accepted(p, Journal(state, files, []))
    ensures Storable(Journal("installed", files, [])) ==> Storable(Journal("prepared", files, [])) && Storable(Journal("applying", files, []))
  {
    hide Storable, Accepted;
    var done := Journal("installed", files, []);
    StatesPlain();
    if Storable(done) {
      ShorterStorable(p, done, "prepared");
      ShorterStorable(p, done, "applying");
    }
  }

  /** A failure that was undone is still a failure. */
  lemma UndoneFails(p: Policy, d: Disk, plan: Plan, files: seq<Entry>)
    ensures var r, all := Install(p, d, plan, files, []), InstallOrUndo(p, d, plan, files, []);
      (all.end.Finished? <==> r.end.Finished?) && (r.end.Finished? ==> all == r)
  {
    hide Install, Rollback;
  }

  lemma BeginsMeans(p: Policy, d: Disk, plan: Plan)
    requires ParsedPlan(p, plan)
    ensures Begins(p, d, plan) <==> !d.active && forall i :: 0 <= i < |plan.order| && p.fold(plan.order[i]) in d.root ==>
      plan.order[i] in plan.originals && d.root[p.fold(plan.order[i])] == plan.originals[plan.order[i]].hash
  {
    assert forall i :: 0 <= i < |plan.order| ==> plan.order[i] in plan.order;
  }

  /** The whole update: applied and then acknowledged, it is over and ROOT holds exactly what
      the plan asks for. */
  lemma UpdateEndsNew(p: Policy, d: Disk, plan: Plan)
    requires ValidPlan(p, plan) && Apply(p, d, plan, []).end.Finished?
    ensures var applied := Apply(p, d, plan, []).disk;
      var r := Acknowledge(p, applied, []);
      && r.end.Finished? && !r.disk.active && r.disk.root == applied.root
      && FullyInstalled(p, d.root, plan, r.disk)
  {
    hide Storable, Apply, FullyInstalled, Acknowledge, Consistent, Tracked, AllStaged;
    ApplySucceedsExactly(p, d, plan);
    var s := Story(d, d.root, []);
    ApplyKeeps(p, s, plan, []);
    BeginsMeans(p, d, plan);
    var now := Next(p, s, DoApply(plan), []);
    FromConsistent(p, now);
    AcknowledgeGoesThrough(p, now);
    AcknowledgeTouches(p, now.disk);
    SameInstalled(p, d.root, plan, now.disk, Acknowledge(p, now.disk, []).disk);
  }

  lemma AcknowledgeTouches(p: Policy, d: Disk)
    ensures var now := Acknowledge(p, d, []).disk; now.root == d.root && now.backup == d.backup
  {
    hide Storable, Accepted, Holds;
  }

  lemma SameInstalled(p: Policy, before: Root, plan: Plan, d: Disk, d': Disk)
    requires FullyInstalled(p, before, plan, d) && d'.root == d.root && d'.backup == d.backup
    ensures FullyInstalled(p, before, plan, d')
  {
  }

  // ------------------------------------------------------------ causes of failure

  /** A failure has its cause in the script, or in what `refusal` and `conflict` stand for. */
  ghost predicate Blames(script: seq<Event>, r: Run, refusal: bool, conflict: bool) {
    && (r.end.Refused? ==> refusal || Refuse in script) && (r.end.PowerCut? ==> PowerLoss in script)
    && (r.end.Conflict? ==> conflict) && !r.end.Rejected?
    && (forall e :: e in r.rest ==> e in script)
  }

  lemma AttemptBlames(before: Disk, after: Disk, script: seq<Event>)
    ensures Blames(script, Attempt(before, after, script), false, false)
  {
    if script != [] { assert script[0] in script && forall e :: e in script[1..] ==> e in script; }
  }

  lemma SaveBlames(d: Disk, j: Journal, script: seq<Event>)
    ensures Blames(script, Save(d, j, script), !Storable(j), false)
  {
    hide Storable;
    AttemptBlames(d, d.(journal := j), script);
  }

  /** Staged with another content. */
  predicate Wrong(plan: Plan, e: Entry) {
    e.replacement != "" && e.name in plan.staging && plan.staging[e.name] != e.replacement
  }

  predicate Unstaged(plan: Plan, e: Entry) {
    e.replacement != "" && e.name !in plan.staging
  }

  lemma EntryBlames(p: Policy, d: Disk, e: Entry, n: nat, plan: Plan, script: seq<Event>)
    requires Original(p, d.root, d.backup, e, n)
    ensures Blames(script, InstallEntry(p, d, e, n, plan, script), Unstaged(plan, e), Wrong(plan, e))
  {
    hide Attempt, Put, Original, Safe, Installed;
    var k := p.fold(e.name);
    assert !e.existed ==> k !in d.root by { OriginalMeans(p, d, e, n); }
    assert e.existed ==> k in d.root && d.root[k] == e.original && n !in d.backup by { OriginalMeans(p, d, e, n); }
    var after := if k in d.root then d.(root := d.root - {k}, backup := d.backup[n := d.root[k]]) else d;
    AttemptBlames(d, after, script);
    var b := BackUp(p, d, e, n, script);
    if b.end.Finished? {
      assert k !in b.disk.root by { BackedUp(p, d, e, n, script); }
      PutBlames(p, b.disk, e, plan, b.rest);
    }
  }

  lemma OriginalMeans(p: Policy, d: Disk, e: Entry, n: nat)
    requires Original(p, d.root, d.backup, e, n)
    ensures var k := p.fold(e.name); n !in d.backup && if e.existed then k in d.root && d.root[k] == e.original else k !in d.root
  {
  }

  lemma BackedUp(p: Policy, d: Disk, e: Entry, n: nat, script: seq<Event>)
    requires Original(p, d.root, d.backup, e, n) && BackUp(p, d, e, n, script).end.Finished?
    ensures p.fold(e.name) !in BackUp(p, d, e, n, script).disk.root
  {
  }

  lemma PutBlames(p: Policy, d: Disk, e: Entry, plan: Plan, script: seq<Event>)
    requires p.fold(e.name) !in d.root
    ensures Blames(script, Put(p, d, e, plan, script), Unstaged(plan, e), Wrong(plan, e))
  {
    if e.replacement != "" && e.name in plan.staging {
      var d1 := d.(temp := plan.staging[e.name]);
      AttemptBlames(d, d1, script);
      AttemptBlames(d1, d1.(root := d1.root[p.fold(e.name) := d1.temp], temp := ""), Attempt(d, d1, script).rest);
    }
  }

  lemma {:induction false} FilesBlame(p: Policy, before: Root, files: seq<Entry>, d: Disk, plan: Plan, n: nat, script: seq<Event>)
    requires n <= |files|
    requires Recoverable(p, before, files, [], d.root, d.backup)
    requires forall i :: n <= i < |files| ==> Original(p, d.root, d.backup, files[i], i)
    ensures Blames(script, InstallFrom(p, d, plan, files, n, script), exists e :: e in files && Unstaged(plan, e), exists e :: e in files && Wrong(plan, e))
    decreases |files| - n
  {
    hide InstallEntry, Recoverable, Original, Unstaged, Wrong;
    if n < |files| {
      assert files[n] in files;
      EntryBlames(p, d, files[n], n, plan, script);
      var r := InstallEntry(p, d, files[n], n, plan, script);
      if r.end.Finished? {
        StillOriginal(p, before, files, d, plan, n, script);
        FilesBlame(p, before, files, r.disk, plan, n + 1, r.rest);
      }
    }
  }

  lemma StillOriginal(p: Policy, before: Root, files: seq<Entry>, d: Disk, plan: Plan, n: nat, script: seq<Event>)
    requires n < |files| && Recoverable(p, before, files, [], d.root, d.backup)
    requires forall i :: n <= i < |files| ==> Original(p, d.root, d.backup, files[i], i)
    ensures var r := InstallEntry(p, d, files[n], n, plan, script);
      && Recoverable(p, before, files, [], r.disk.root, r.disk.backup)
      && (forall i :: n < i < |files| ==> Original(p, r.disk.root, r.disk.backup, files[i], i))
  {
    hide InstallEntry;
    InstallOriginalEntry(p, d, files[n], n, plan, script);
    var r := InstallEntry(p, d, files[n], n, plan, script);
    ChangeOne(p, before, files, [], n, d, r.disk);
    forall i | n < i < |files|
      ensures Original(p, r.disk.root, r.disk.backup, files[i], i)
    {
      assert p.fold(files[i].name) != p.fold(files[n].name);
      assert SameAt(r.disk.root, d.root, p.fold(files[i].name));
    }
  }

  lemma InstallBlames(p: Policy, before: Root, files: seq<Entry>, d: Disk, plan: Plan, script: seq<Event>)
    requires Recoverable(p, before, files, [], d.root, d.backup)
    requires forall i :: 0 <= i < |files| ==> Original(p, d.root, d.backup, files[i], i)
    requires Carries(files, plan)
    ensures Blames(script, Install(p, d, plan, files, script),
      !Storable(Journal("applying", files, [])) || !Storable(Journal("installed", files, [])) || exists e :: e in files && Unstaged(plan, e),
      exists e :: e in files && Wrong(plan, e))
  {
    hide Storable, Recoverable, InstallFrom, Installed, Original, Carries, Holds, Unstaged, Wrong, Attempt;
    SaveBlames(d, Journal("applying", files, []), script);
    var r1 := Save(d, Journal("applying", files, []), script);
    SavedDisk(d, Journal("applying", files, []), script);
    if r1.end.Finished? {
      InstallFromEffect(p, before, files, r1.disk, plan, 0, r1.rest);
      FilesBlame(p, before, files, r1.disk, plan, 0, r1.rest);
      var r2 := InstallFrom(p, r1.disk, plan, files, 0, r1.rest);
      if r2.end.Finished? {
        AllHeld(p, files, plan, r2.disk.root, r2.disk.backup);
        SaveBlames(r2.disk, Journal("installed", files, []), r2.rest);
      }
    }
  }

  lemma SavedDisk(d: Disk, j: Journal, script: seq<Event>)
    ensures var r := Save(d, j, script); r.disk.root == d.root && r.disk.backup == d.backup
  {
    hide Storable;
  }

  /** Without its content checks a rollback fails only on the environment or on its records. */
  lemma RollbackBlames(p: Policy, d: Disk, j: Journal, script: seq<Event>)
    requires !Rollback(p, d, j, script).end.Conflict?
    ensures Blames(script, Rollback(p, d, j, script), !Storable(j.(state := "rollingBack")) || !Storable(j.(state := "rolledBack")), false)
  {
    hide Storable, Attempt, RemovePromoted, RestoreFirst;
    var r1 := Save(d, j.(state := "rollingBack"), script);
    SaveBlames(d, j.(state := "rollingBack"), script);
    if r1.end.Finished? {
      RemoveBlames(p, r1.disk, j.promoted, r1.rest);
      var r2 := RemovePromoted(p, r1.disk, j.promoted, r1.rest);
      if r2.end.Finished? {
        RestoreBlames(p, r2.disk, j.files, |j.files|, r2.rest);
        var r3 := RestoreFirst(p, r2.disk, j.files, |j.files|, r2.rest);
        if r3.end.Finished? {
          SaveBlames(r3.disk, j.(state := "rolledBack"), r3.rest);
          var r4 := Save(r3.disk, j.(state := "rolledBack"), r3.rest);
          AttemptBlames(r4.disk, r4.disk.(active := false), r4.rest);
        }
      }
    }
  }

  lemma {:induction false} RemoveBlames(p: Policy, d: Disk, copies: seq<RootCopy>, script: seq<Event>)
    ensures Blames(script, RemovePromoted(p, d, copies, script), false, false)
    decreases |copies|
  {
    hide Attempt;
    if copies != [] {
      var k := p.fold(copies[0].name);
      var d' := d.(root := d.root - {k});
      AttemptBlames(d, d', script);
      if k in d.root && d.root[k] == copies[0].hash {
        var r := Attempt(d, d', script);
        if r.end.Finished? { RemoveBlames(p, r.disk, copies[1..], r.rest); }
      } else {
        RemoveBlames(p, d, copies[1..], script);
      }
    }
  }

  lemma {:induction false} RestoreBlames(p: Policy, d: Disk, files: seq<Entry>, n: nat, script: seq<Event>)
    requires n <= |files|
    ensures Blames(script, RestoreFirst(p, d, files, n, script), false, true)
    decreases n
  {
    hide RestoreEntry;
    if n > 0 {
      OneRestoreBlames(p, d, files[n - 1], n - 1, script);
      var r := RestoreEntry(p, d, files[n - 1], n - 1, script);
      if r.end.Finished? { RestoreBlames(p, r.disk, files, n - 1, r.rest); }
    }
  }

  lemma OneRestoreBlames(p: Policy, d: Disk, e: Entry, n: nat, script: seq<Event>)
    ensures Blames(script, RestoreEntry(p, d, e, n, script), false, true)
  {
    hide Attempt;
    var k := p.fold(e.name);
    AttemptBlames(d, d.(root := d.root - {k}), script);
    if n in d.backup { AttemptBlames(d, d.(root := d.root[k := d.backup[n]], backup := d.backup - {n}), script); }
  }

  /** Every way an update fails has its own cause. It is turned away exactly if another is
      active; it reports a conflict only over a present file that is unlisted or changed, or a
      staged file of another content; it is refused only where the system refuses an attempt,
      a replacement is not staged, or the record does not fit with the longest state; and it
      is cut off only by a power loss. */
  lemma FailuresHaveCauses(p: Policy, d: Disk, plan: Plan, script: seq<Event>)
    requires ValidPlan(p, plan)
    ensures var r, files := Apply(p, d, plan, script), PlanFiles(p, d.root, plan);
      && (r.end.Rejected? <==> d.active)
      && (r.end.Conflict? ==> (exists name :: name in plan.order && !Installable(p, d.root, plan, name)) || exists e :: e in files && Wrong(plan, e))
      && (r.end.Refused? ==> Refuse in script || !Storable(Journal("rollingBack", files, [])) || exists e :: e in files && Unstaged(plan, e))
      && (r.end.PowerCut? ==> PowerLoss in script)
  {
    hide Storable, InstallOrUndo, Recoverable, Original, Complete, FoldsApart, Carries, Unstaged, Wrong, Attempt, Installable;
    var files := PlanFiles(p, d.root, plan);
    if Begins(p, d, plan) {
      PlanFilesFit(p, d.root, plan);
      LongestState(p, files);
      var prepared := Prepared(d, plan, files);
      AttemptBlames(d, prepared, script);
      var r1 := Attempt(d, prepared, script);
      AttemptBlames(prepared, prepared.(active := true), r1.rest);
      var r2 := Attempt(prepared, prepared.(active := true), r1.rest);
      PreparedDisk(d, prepared, script);
      PreparedDisk(prepared, prepared.(active := true), r1.rest);
      if r1.end.Finished? && r2.end.Finished? { UndoBlames(p, d.root, files, r2.disk, plan, r2.rest); }
    }
  }

  lemma PreparedDisk(before: Disk, after: Disk, script: seq<Event>)
    ensures Attempt(before, after, script).end.Finished? ==> Attempt(before, after, script).disk == after
  {
  }

  lemma LongestState(p: Policy, files: seq<Entry>)
    requires forall state :: Accepted(p, Journal(state, files, []))
    ensures Storable(Journal("rollingBack", files, [])) ==>
      && Storable(Journal("prepared", files, [])) && Storable(Journal("applying", files, []))
      && Storable(Journal("installed", files, [])) && Storable(Journal("rolledBack", files, []))
  {
    hide Storable, Accepted;
    var longest := Journal("rollingBack", files, []);
    StatesPlain();
    if Storable(longest) {
      ShorterStorable(p, longest, "prepared");
      ShorterStorable(p, longest, "applying");
      ShorterStorable(p, longest, "installed");
      ShorterStorable(p, longest, "rolledBack");
    }
  }

  lemma UndoBlames(p: Policy, before: Root, files: seq<Entry>, d: Disk, plan: Plan, script: seq<Event>)
    requires Recoverable(p, before, files, [], d.root, d.backup)
    requires forall i :: 0 <= i < |files| ==> Original(p, d.root, d.backup, files[i], i)
    requires Carries(files, plan) && forall state :: Accepted(p, Journal(state, files, []))
    ensures Blames(script, InstallOrUndo(p, d, plan, files, script),
      !Storable(Journal("rollingBack", files, [])) || exists e :: e in files && Unstaged(plan, e), exists e :: e in files && Wrong(plan, e))
  {
    hide Storable, Install, Rollback, Original, Carries, Unstaged, Wrong, Recoverable;
    LongestState(p, files);
    InstallBlames(p, before, files, d, plan, script);
    InstallEffect(p, before, files, d, plan, script);
    var r := Install(p, d, plan, files, script);
    if !r.end.Finished? && !r.end.PowerCut? {
      RollbackEffect(p, before, r.disk, Journal("applying", files, []), r.rest);
      RollbackBlames(p, r.disk, Journal("applying", files, []), r.rest);
    }
  }

  // ---------------------------------------------------------------- health check

  lemma AppliedManifest(p: Policy, d: Disk, plan: Plan)
    requires ValidPlan(p, plan) && Apply(p, d, plan, []).end.Finished?
    ensures Apply(p, d, plan, []).disk.manifest == Manifest(plan)
  {
    hide Storable, Install, Rollback, Recoverable, Original, Installed, Complete, FoldsApart, Carries;
    BeginsMeans(p, d, plan);
    if Begins(p, d, plan) {
      var files := PlanFiles(p, d.root, plan);
      var active := Prepared(d, plan, files).(active := true);
      PlanFilesFit(p, d.root, plan);
      InstallEffect(p, d.root, files, active, plan, []);
      UndoneFails(p, active, plan, files);
    }
  }

  lemma ManifestHolds(p: Policy, root: Root, plan: Plan)
    ensures Holds(p, root, Manifest(plan)) <==> forall name :: name in plan.replacements && name !in plan.carried ==>
      p.fold(name) in root && root[p.fold(name)] == plan.replacements[name].hash
  {
    var manifest := Manifest(plan);
    assert forall name :: name in manifest <==> name in plan.replacements && name !in plan.carried;
  }

  lemma AcknowledgedIfHolds(p: Policy, d: Disk)
    requires d.active && Accepted(p, d.journal) && d.journal.state == "installed" && Storable(d.journal)
    ensures var r := Acknowledge(p, d, []);
      && (r.end.Finished? <==> Holds(p, d.root, d.manifest))
      && (if r.end.Finished? then !r.disk.active && r.disk.root == d.root else r == Run(Rejected, d, []))
  {
    hide Storable, Accepted, Holds;
    StatesPlain();
    ShorterStorable(p, d.journal, "completed");
  }

  /** Whatever becomes of ROOT after an update was applied: undisturbed, its acknowledgement goes
      through exactly if every new file is still in place with its content, but for those
      that only the carried copies stand for. Otherwise nothing changes. */
  lemma AcknowledgedIfHealthy(p: Policy, d: Disk, plan: Plan, root: Root)
    requires ValidPlan(p, plan) && Apply(p, d, plan, []).end.Finished?
    ensures var now := Apply(p, d, plan, []).disk.(root := root);
      var r := Acknowledge(p, now, []);
      && (r.end.Finished? <==> forall name :: name in plan.replacements && name !in plan.carried ==>
            p.fold(name) in root && root[p.fold(name)] == plan.replacements[name].hash)
      && (if r.end.Finished? then !r.disk.active && r.disk.root == root else r == Run(Rejected, now, []))
  {
    hide Storable, Apply, FullyInstalled, Consistent, Tracked, AllStaged, Accepted, Acknowledge, Holds, Manifest;
    ApplySucceedsExactly(p, d, plan);
    AppliedManifest(p, d, plan);
    ApplyKeeps(p, Story(d, d.root, []), plan, []);
    BeginsMeans(p, d, plan);
    FromConsistent(p, Next(p, Story(d, d.root, []), DoApply(plan), []));
    AcknowledgedIfHolds(p, Apply(p, d, plan, []).disk.(root := root));
    ManifestHolds(p, root, plan);
  }
}
