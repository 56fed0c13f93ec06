/** Whole runs of updates: every sequence of commands, each interrupted anywhere. */
module UpdateRuns {
  import opened UpdateJournal
  import opened JournalStore
  import opened UpdateTransaction
  import opened UpdateRecovery
  import opened UpdateSafety
  import opened UpdatePromotion

  /** The disk, with the root and the entries as they were when the latest update began. */
  datatype Story = Story(disk: Disk, before: Root, planned: seq<Entry>)

  datatype Command =
    | DoApply(plan: Plan)
    | DoRecover
    | DoAcknowledge
    | DoPromote(copies: seq<Carried>)
    | UseOutside(root: Root) // anybody changes ROOT while no update is active

  function Begins(p: Policy, d: Disk, plan: Plan): bool {
    !d.active && |plan.order| <= MAX_FILES && forall name <- plan.order :: Installable(p, d.root, plan, name)
  }

  function Perform(p: Policy, d: Disk, c: Command, script: seq<Event>): Run {
    match c
    case DoApply(plan) => Apply(p, d, plan, script)
    case DoRecover => Recover(p, d, script)
    case DoAcknowledge => Acknowledge(p, d, script)
    case DoPromote(copies) => if d.active then PlaceWithin(p, d, copies, script) else PlaceAll(p, d, copies, script)
    case UseOutside(root) => if d.active then Run(Rejected, d, script) else Run(Finished, d.(root := root), script)
  }

  function Next(p: Policy, s: Story, c: Command, script: seq<Event>): Story {
    var d := Perform(p, s.disk, c, script).disk;
    if c.DoApply? && Begins(p, s.disk, c.plan) then Story(d, s.disk.root, PlanFiles(p, s.disk.root, c.plan))
    else s.(disk := d)
  }

  /** What a command may assume: inventories that parse, and copies that are acceptable and,
      while an update is active, few enough. */
  ghost predicate Proper(p: Policy, s: Story, c: Command) {
    match c
    case DoApply(plan) => ValidPlan(p, plan)
    case DoPromote(copies) =>
      && DistinctCopies(p, copies)
      && (forall i :: 0 <= i < |copies| ==> AcceptedCopy(p, copies[i].copy))
      && (s.disk.active ==> |s.disk.journal.promoted| + |copies| <= MAX_PROMOTED)
    case _ => true
  }

  /** Copies placed into an active update are listed, absent from ROOT or already recorded. */
  ghost predicate FreshCopies(p: Policy, s: Story, c: Command) {
    c.DoPromote? && s.disk.active ==>
      forall i :: 0 <= i < |c.copies| ==> Fresh(p, s.disk.journal, s.disk.root, c.copies[i].copy)
  }

  /** ROOT is as before the update, but for paths of recorded copies. */
  ghost predicate RestoredButCopies(p: Policy, before: Root, promoted: seq<RootCopy>, root: Root) {
    forall k :: !Promoted(p, promoted, k) ==> SameAt(root, before, k)
  }

  /** The manifest names planned replacements only. */
  ghost predicate ManifestPlanned(manifest: map<string, string>, planned: seq<Entry>) {
    forall name :: name in manifest ==>
      manifest[name] != "" && exists i :: 0 <= i < |planned| && planned[i].name == name && planned[i].replacement == manifest[name]
  }

  const UNSETTLED := {"prepared", "applying", "rollingBack"}
  const NEW := {"installed", "completed"}

  /** What every reachable state keeps, whatever copies were placed. */
  ghost predicate Tracked(p: Policy, s: Story) {
    s.disk.active ==>
      && Accepted(p, s.disk.journal) && Storable(s.disk.journal)
      && Extends(s.planned, s.disk.journal.files)
      && Recoverable(p, s.before, s.disk.journal.files, s.disk.journal.promoted, s.disk.root, s.disk.backup)
      && ManifestPlanned(s.disk.manifest, s.planned)
      && (|| s.disk.journal.state in UNSETTLED
          || (s.disk.journal.state in NEW && AllInPlace(p, s.disk.root, s.disk.backup, s.planned, s.disk.journal.files))
          || (s.disk.journal.state == "rolledBack" && RestoredButCopies(p, s.before, s.disk.journal.promoted, s.disk.root)))
  }

  /** And what it keeps if all copies placed were fresh. */
  ghost predicate Consistent(p: Policy, s: Story) {
    && Tracked(p, s)
    && (s.disk.active ==>
          && CleanCopies(p, s.before, s.disk.root, s.disk.journal.promoted)
          && (s.disk.journal.state == "rolledBack" ==> s.disk.root == s.before))
  }

  lemma RolledBackClean(p: Policy, before: Root, j: Journal, was: Root, now: Root)
    requires RolledBackRoot(p, before, j, was, now) && CleanCopies(p, before, was, j.promoted)
    ensures now == before
  {
    forall k
      ensures SameAt(now, before, k)
    {
      if Promoted(p, j.promoted, k) {
        var i :| 0 <= i < |j.promoted| && p.fold(j.promoted[i].name) == k;
        assert Cleared(p, was, now, j.promoted[i]) && CleanCopy(p, before, was, j.promoted[i]);
      }
    }
    forall k | k in now ensures k in before && now[k] == before[k] { assert SameAt(now, before, k); }
    forall k | k in before ensures k in now { assert SameAt(now, before, k); }
  }

  lemma CleanAfterRollback(p: Policy, before: Root, d: Disk, j: Journal, script: seq<Event>)
    requires Recoverable(p, before, j.files, j.promoted, d.root, d.backup)
    requires CleanCopies(p, before, d.root, j.promoted)
    ensures CleanCopies(p, before, Rollback(p, d, j, script).disk.root, j.promoted)
  {
    hide Storable;
    var r1 := Save(d, j.(state := "rollingBack"), script);
    if r1.end.Finished? {
      RestoreRootClean(p, before, r1.disk, j, r1.rest);
    }
  }

  lemma RestoreRootClean(p: Policy, before: Root, d: Disk, j: Journal, script: seq<Event>)
    requires Recoverable(p, before, j.files, j.promoted, d.root, d.backup)
    requires CleanCopies(p, before, d.root, j.promoted)
    ensures CleanCopies(p, before, RestoreRoot(p, d, j, script).disk.root, j.promoted)
  {
    assert j.promoted[0..] == j.promoted;
    RemovePromotedShrinks(p, d, j.promoted, script);
    RemovePromotedEffect(p, before, j.files, j.promoted, 0, d, script);
    var r1 := RemovePromoted(p, d, j.promoted, script);
    forall i | 0 <= i < |j.promoted|
      ensures CleanCopy(p, before, r1.disk.root, j.promoted[i])
    {
      assert CleanCopy(p, before, d.root, j.promoted[i]);
    }
    if r1.end.Finished? {
      RestoreFirstClean(p, before, j, r1.disk, r1.rest);
    }
  }

  lemma RestoreFirstClean(p: Policy, before: Root, j: Journal, d: Disk, script: seq<Event>)
    requires Recoverable(p, before, j.files, j.promoted, d.root, d.backup)
    requires CleanCopies(p, before, d.root, j.promoted)
    ensures CleanCopies(p, before, RestoreFirst(p, d, j.files, |j.files|, script).disk.root, j.promoted)
  {
    RestoreFirstEffect(p, before, j.files, j.promoted, |j.files|, d, script);
    var r := RestoreFirst(p, d, j.files, |j.files|, script);
    forall i | 0 <= i < |j.promoted|
      ensures CleanCopy(p, before, r.disk.root, j.promoted[i])
    {
      assert CleanCopy(p, before, d.root, j.promoted[i]);
      assert !Listed(p, j.files, p.fold(j.promoted[i].name));
      assert SameAt(r.disk.root, d.root, p.fold(j.promoted[i].name));
    }
  }

  lemma {:induction false} RemovePromotedShrinks(p: Policy, d: Disk, copies: seq<RootCopy>, script: seq<Event>)
    ensures var r := RemovePromoted(p, d, copies, script);
      forall k :: k in r.disk.root ==> k in d.root && r.disk.root[k] == d.root[k]
    decreases |copies|
  {
    if copies != [] {
      var k := p.fold(copies[0].name);
      var r := if k in d.root && d.root[k] == copies[0].hash then Attempt(d, d.(root := d.root - {k}), script) else Run(Finished, d, script);
      if r.end.Finished? {
        RemovePromotedShrinks(p, r.disk, copies[1..], r.rest);
      }
    }
  }

  // ---------------------------------------------------------------- commands

  /** A rollback: at every interruption tracked again, and when finished ROOT is the one from
      before the update but for recorded copies, which are gone unless changed since. */
  lemma RollbackTracks(p: Policy, before: Root, planned: seq<Entry>, d: Disk, j: Journal, script: seq<Event>)
    requires Tracked(p, Story(d, before, planned)) && d.active
    requires j == d.journal.(state := j.state) && d.journal.state != "completed"
    ensures var r := Rollback(p, d, j, script);
      && Tracked(p, Story(r.disk, before, planned))
      && !r.end.Conflict? && !r.end.Rejected?
      && (r.end.Finished? ==> !r.disk.active)
      && (!r.disk.active ==> r.end.Finished? && RolledBackRoot(p, before, j, d.root, r.disk.root))
      && r.disk.journal.state != "completed"
  {
    hide Storable, Rollback;
    RollbackEffect(p, before, d, j, script);
  }

  /** If the copies were clean, it is exactly the one from before the update. */
  lemma RollbackKeeps(p: Policy, before: Root, planned: seq<Entry>, d: Disk, j: Journal, script: seq<Event>)
    requires Consistent(p, Story(d, before, planned)) && d.active
    requires j == d.journal.(state := j.state) && d.journal.state != "completed"
    ensures var r := Rollback(p, d, j, script);
      && Consistent(p, Story(r.disk, before, planned))
      && !r.end.Conflict? && !r.end.Rejected?
      && (r.end.Finished? ==> !r.disk.active)
      && (!r.disk.active ==> r.end.Finished? && r.disk.root == before)
      && r.disk.journal.state != "completed"
  {
    hide Storable, Rollback, Recoverable, ManifestPlanned, Extends, AllInPlace;
    assert Recoverable(p, before, j.files, j.promoted, d.root, d.backup);
    RollbackTracks(p, before, planned, d, j, script);
    RollbackEffect(p, before, d, j, script);
    CleanAfterRollback(p, before, d, j, script);
    var r := Rollback(p, d, j, script);
    if RolledBackRoot(p, before, j, d.root, r.disk.root) {
      RolledBackClean(p, before, j, d.root, r.disk.root);
    }
  }

  /** However installing ends, the record still describes the disk. */
  lemma InstalledConsistent(p: Policy, d: Disk, plan: Plan, r: Run)
    requires InstallEnds(p, d.root, d.journal.files, d, r) && d.active && d.backup == map[]
    requires d.journal == Journal("prepared", d.journal.files, [])
    requires forall state :: Accepted(p, Journal(state, d.journal.files, []))
    requires Storable(d.journal)
    requires ManifestPlanned(d.manifest, d.journal.files)
    ensures Consistent(p, Story(r.disk, d.root, d.journal.files)) && r.disk.active
    ensures r.disk.journal == d.journal.(state := r.disk.journal.state) && r.disk.journal.state in {"prepared", "applying", "installed"}
    ensures r.end.Finished? ==> r.disk.journal.state == "installed"
  {
    assert Accepted(p, Journal(r.disk.journal.state, d.journal.files, []));
  }

  lemma InstallOrUndoKeeps(p: Policy, d: Disk, plan: Plan, script: seq<Event>)
    requires ValidPlan(p, plan) && d.active && Storable(d.journal)
    requires forall name <- plan.order :: Installable(p, d.root, plan, name)
    requires d.journal == Journal("prepared", PlanFiles(p, d.root, plan), []) && d.backup == map[] && d.manifest == Manifest(plan)
    ensures var r := InstallOrUndo(p, d, plan, d.journal.files, script);
      && Consistent(p, Story(r.disk, d.root, d.journal.files))
      && (!r.disk.active ==> r.disk.root == d.root)
      && (r.end.Finished? ==> r.disk.active && r.disk.journal.state == "installed")
      && r.disk.journal.state != "completed"
  {
    hide Storable;
    hide Rollback, Install, Consistent, Complete, Tracked, FoldsApart;
    var files := d.journal.files;
    PlanFilesFit(p, d.root, plan);
    assert ManifestPlanned(Manifest(plan), files);
    InstallEffect(p, d.root, files, d, plan, script);
    var r := Install(p, d, plan, files, script);
    InstalledConsistent(p, d, plan, r);
    if !r.end.Finished? && !r.end.PowerCut? {
      RollbackKeeps(p, d.root, files, r.disk, Journal("applying", files, []), r.rest);
    }
  }

  /** Applying leaves a consistent story; without an active record ROOT is untouched. */
  lemma ApplyKeeps(p: Policy, s: Story, plan: Plan, script: seq<Event>)
    requires ValidPlan(p, plan) && !s.disk.active
    ensures var r := Apply(p, s.disk, plan, script);
      && Consistent(p, Next(p, s, DoApply(plan), script))
      && (!r.disk.active ==> r.disk.root == s.disk.root)
      && (r.end.Finished? ==> r.disk.active && r.disk.journal.state == "installed")
      && (r.disk.active ==> r.disk.journal.state != "completed")
  {
    hide Storable;
    var d := s.disk;
    if Begins(p, d, plan) {
      var prepared := Prepared(d, plan, PlanFiles(p, d.root, plan));
      var r1 := if Storable(prepared.journal) then Attempt(d, prepared, script) else Run(Refused, d, script);
      if r1.end.Finished? {
        var r2 := Attempt(prepared, prepared.(active := true), r1.rest);
        if r2.end.Finished? {
          InstallOrUndoKeeps(p, r2.disk, plan, r2.rest);
        }
      }
    }
  }

  lemma AcknowledgeKeeps(p: Policy, s: Story, script: seq<Event>)
    requires Tracked(p, s)
    ensures var r := Acknowledge(p, s.disk, script);
      && Tracked(p, s.(disk := r.disk)) && (Consistent(p, s) ==> Consistent(p, s.(disk := r.disk)))
      && r.disk.root == s.disk.root
      && (s.disk.active && r.disk != s.disk ==> s.disk.journal.state in NEW && r.disk.journal.state == "completed")
  {
    hide Storable, Recoverable, CleanCopies, ManifestPlanned, Holds, AllInPlace, Extends;
  }

  lemma PromoteKeeps(p: Policy, s: Story, copies: seq<Carried>, script: seq<Event>)
    requires Tracked(p, s) && s.disk.active && Proper(p, s, DoPromote(copies))
    ensures var r := PlaceWithin(p, s.disk, copies, script);
      && Tracked(p, s.(disk := r.disk))
      && (Consistent(p, s) && FreshCopies(p, s, DoPromote(copies)) ==> Consistent(p, s.(disk := r.disk)))
      && r.disk.active && r.disk.journal.state == s.disk.journal.state
      && (r.disk != s.disk ==> s.disk.journal.state == "installed")
  {
    hide Storable;
    hide RecordCopies, PlaceAll;
    var d := s.disk;
    if d.journal.state == "installed" && RecordCopies(p, d.journal, copies).Extended? {
      PlaceWithinKeeps(p, s.before, s.planned, d, copies, script);
      RecordCopiesAccepted(p, d.journal, copies);
      RecordCopiesCount(p, d.journal, copies);
    }
  }

  lemma {:induction false} RecordCopiesCount(p: Policy, j: Journal, copies: seq<Carried>)
    requires RecordCopies(p, j, copies).Extended?
    ensures var j' := RecordCopies(p, j, copies).journal; |j'.promoted| <= |j.promoted| + |copies| && j'.state == j.state
    decreases |copies|
  {
    if copies != [] { RecordCopiesCount(p, RecordCopy(p, j, copies[0].copy).journal, copies[1..]); }
  }

  /** Recording acceptable copies leaves acceptable entries and copies. */
  lemma {:induction false} RecordCopiesAccepted(p: Policy, j: Journal, copies: seq<Carried>)
    requires forall i :: 0 <= i < |j.files| ==> AcceptedEntry(p, j.files[i])
    requires forall i :: 0 <= i < |j.promoted| ==> AcceptedCopy(p, j.promoted[i])
    requires forall i :: 0 <= i < |copies| ==> AcceptedCopy(p, copies[i].copy)
    requires RecordCopies(p, j, copies).Extended?
    ensures var j' := RecordCopies(p, j, copies).journal;
      && |j'.files| == |j.files|
      && (forall i :: 0 <= i < |j.files| ==> AcceptedEntry(p, j'.files[i]) && j'.files[i].name == j.files[i].name)
      && (forall i :: 0 <= i < |j'.promoted| ==> AcceptedCopy(p, j'.promoted[i]))
    decreases |copies|
  {
    if copies != [] {
      var c := copies[0].copy;
      var j' := RecordCopy(p, j, c).journal;
      WithCopyMembers(p, j.promoted, c);
      forall i | 0 <= i < |j'.promoted|
        ensures AcceptedCopy(p, j'.promoted[i])
      {
        assert j'.promoted[i] in j'.promoted;
      }
      RecordCopiesAccepted(p, j', copies[1..]);
    }
  }

  // -------------------------------------------------------------------- runs

  datatype Happening = Happening(command: Command, script: seq<Event>)

  /** The states of a run, the first one included. */
  function States(p: Policy, s: Story, run: seq<Happening>): (states: seq<Story>)
    ensures |states| == |run| + 1 && states[0] == s
    decreases |run|
  {
    if run == [] then [s] else [s] + States(p, Next(p, s, run[0].command, run[0].script), run[1..])
  }

  ghost predicate ProperRun(p: Policy, s: Story, run: seq<Happening>)
    decreases |run|
  {
    run != [] ==> Proper(p, s, run[0].command) && ProperRun(p, Next(p, s, run[0].command, run[0].script), run[1..])
  }

  ghost predicate FreshRun(p: Policy, s: Story, run: seq<Happening>)
    decreases |run|
  {
    run != [] ==> FreshCopies(p, s, run[0].command) && FreshRun(p, Next(p, s, run[0].command, run[0].script), run[1..])
  }

  lemma NextConsistent(p: Policy, s: Story, c: Command, script: seq<Event>)
    requires Tracked(p, s) && Proper(p, s, c)
    ensures Tracked(p, Next(p, s, c, script))
    ensures Consistent(p, s) && FreshCopies(p, s, c) ==> Consistent(p, Next(p, s, c, script))
  {
    hide Storable, Recoverable, CleanCopies, ManifestPlanned, AllInPlace, Extends, Rollback;
    match c
    case DoApply(plan) => if !s.disk.active { ApplyKeeps(p, s, plan, script); }
    case DoRecover =>
      if s.disk.active && s.disk.journal.state != "completed" {
        RollbackTracks(p, s.before, s.planned, s.disk, s.disk.journal, script);
        if Consistent(p, s) { RollbackKeeps(p, s.before, s.planned, s.disk, s.disk.journal, script); }
      }
    case DoAcknowledge => AcknowledgeKeeps(p, s, script);
    case DoPromote(copies) => if s.disk.active { PromoteKeeps(p, s, copies, script); } else { PlaceAllInactive(p, s.disk, copies, script); }
    case UseOutside(_) =>
  }

  lemma {:induction false} PlaceAllInactive(p: Policy, d: Disk, copies: seq<Carried>, script: seq<Event>)
    ensures var r := PlaceAll(p, d, copies, script); r.disk == d.(root := r.disk.root, temps := r.disk.temps)
    decreases |copies|
  {
    if copies != [] {
      PlaceOneEffect(p, d, copies[0], script);
      var r := PlaceOne(p, d, copies[0], script);
      if r.end.Finished? { PlaceAllInactive(p, r.disk, copies[1..], r.rest); }
    }
  }

  /** Every state of every run is tracked, and consistent if only fresh copies were placed. */
  lemma {:induction false} RunConsistent(p: Policy, s: Story, run: seq<Happening>)
    requires Tracked(p, s) && ProperRun(p, s, run)
    ensures forall i :: 0 <= i <= |run| ==> Tracked(p, States(p, s, run)[i])
    ensures Consistent(p, s) && FreshRun(p, s, run) ==> forall i :: 0 <= i <= |run| ==> Consistent(p, States(p, s, run)[i])
    decreases |run|
  {
    hide Tracked, Consistent, Proper, FreshCopies, Next;
    if run != [] {
      NextConsistent(p, s, run[0].command, run[0].script);
      RunConsistent(p, Next(p, s, run[0].command, run[0].script), run[1..]);
      var rest := States(p, Next(p, s, run[0].command, run[0].script), run[1..]);
      forall i | 0 <= i <= |run|
        ensures Tracked(p, States(p, s, run)[i])
        ensures Consistent(p, s) && FreshRun(p, s, run) ==> Consistent(p, States(p, s, run)[i])
      {
        if i > 0 { assert States(p, s, run)[i] == rest[i - 1]; }
      }
    }
  }
}
