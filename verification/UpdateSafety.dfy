/** Safety of updates over whole runs: applying, losing power, recovering, acknowledging. */
module UpdateSafety {
  import opened UpdateJournal
  import opened JournalStore
  import opened UpdateTransaction
  import opened UpdateRecovery

  // ------------------------------------------------------------------- apply

  /** Entry `e` has its new state. */
  ghost predicate Replaced(p: Policy, root: Root, e: Entry) {
    var k := p.fold(e.name);
    if e.replacement == "" then k !in root else k in root && root[k] == e.replacement
  }

  /** An installed entry: replaced, and its original kept. */
  ghost predicate Installed(p: Policy, root: Root, backup: map<nat, string>, e: Entry, i: nat) {
    Replaced(p, root, e) && (e.existed <==> i in backup)
  }

  /** The journal order of a plan: the names of both inventories, the inventory file last. */
  ghost predicate Ordered(plan: Plan) {
    && 0 < |plan.order| <= MAX_FILES && plan.order[|plan.order| - 1] == INVENTORY
    && (forall i :: 0 <= i < |plan.order| ==> plan.order[i] in plan.originals || plan.order[i] in plan.replacements)
    && (forall name :: name in plan.replacements ==> name in plan.order)
  }

  /** No two names of the two inventories differ in letter case only. */
  ghost predicate FoldsApart(p: Policy, plan: Plan) {
    forall i, j :: 0 <= i < j < |plan.order| ==> p.fold(plan.order[i]) != p.fold(plan.order[j])
  }

  ghost predicate ValidProducts(p: Policy, products: map<string, Product>) {
    forall name :: name in products ==>
      p.owned(name) && ValidHash(products[name].hash) && products[name].size <= MAX_FILE_SIZE
  }

  /** Files that every inventory lists. */
  const REQUIRED := {"HyperCommander.exe", "HyperCommanderAdmin.exe", "HyperEditor.exe", "Libs/platforms/qwindows.dll"}

  ghost predicate Complete(products: map<string, Product>) {
    INVENTORY in products && forall name :: name in REQUIRED ==> name in products
  }

  /** A plan made from two parsed inventories. */
  ghost predicate ParsedPlan(p: Policy, plan: Plan) {
    Ordered(plan) && Complete(plan.originals) && Complete(plan.replacements) && ValidProducts(p, plan.originals) && ValidProducts(p, plan.replacements)
  }

  ghost predicate ValidPlan(p: Policy, plan: Plan) {
    ParsedPlan(p, plan) && FoldsApart(p, plan)
  }

  /** Every replacement of the plan is the replacement of an entry. */
  ghost predicate Carries(files: seq<Entry>, plan: Plan) {
    forall name :: name in plan.replacements ==>
      && plan.replacements[name].hash != ""
      && exists i :: 0 <= i < |files| && files[i].name == name && files[i].replacement == plan.replacements[name].hash
  }

  /** The journal of a parsed plan is one that loading accepts exactly when no two names
      fold alike. Nothing checks this before the journal is saved. */
  lemma PlanJournalAccepted(p: Policy, root: Root, plan: Plan, state: string)
    requires ParsedPlan(p, plan)
    ensures Accepted(p, Journal(state, PlanFiles(p, root, plan), [])) <==> FoldsApart(p, plan)
  {
    var files := PlanFiles(p, root, plan);
    forall i | 0 <= i < |files|
      ensures AcceptedEntry(p, files[i]) && files[i].name == plan.order[i]
    {
    }
  }

  lemma PlanFilesFit(p: Policy, root: Root, plan: Plan)
    requires ValidPlan(p, plan)
    requires forall name <- plan.order :: Installable(p, root, plan, name)
    ensures var files := PlanFiles(p, root, plan);
      && (forall state :: Accepted(p, Journal(state, files, [])))
      && Recoverable(p, root, files, [], root, map[])
      && (forall i :: 0 <= i < |files| ==> Original(p, root, map[], files[i], i))
      && Carries(files, plan)
  {
    hide Complete;
    var files := PlanFiles(p, root, plan);
    forall state { PlanJournalAccepted(p, root, plan, state); }
    forall i | 0 <= i < |files|
      ensures Original(p, root, map[], files[i], i) && Describes(p, root, files[i])
    {
      assert plan.order[i] in plan.order;
      assert Installable(p, root, plan, plan.order[i]);
    }
    forall name | name in plan.replacements
      ensures plan.replacements[name].hash != ""
      ensures exists i :: 0 <= i < |files| && files[i].name == name && files[i].replacement == plan.replacements[name].hash
    {
      var i :| 0 <= i < |plan.order| && plan.order[i] == name;
      assert files[i].name == name;
    }
  }

  /** What installing an untouched entry does to this entry alone. */
  lemma InstallOriginalEntry(p: Policy, d: Disk, e: Entry, n: nat, plan: Plan, script: seq<Event>)
    requires Original(p, d.root, d.backup, e, n)
    ensures var r := InstallEntry(p, d, e, n, plan, script);
      && !r.end.Rejected?
      && (r.end.Conflict? ==> e.name in plan.staging && plan.staging[e.name] != e.replacement)
      && r.disk == d.(root := r.disk.root, backup := r.disk.backup, temp := r.disk.temp)
      && Safe(p, r.disk.root, r.disk.backup, e, n)
      && (r.end.Finished? ==> Installed(p, r.disk.root, r.disk.backup, e, n))
      && Confined(p.fold(e.name), n, d, r.disk)
  {
    var b := BackUp(p, d, e, n, script);
    assert Safe(p, b.disk.root, b.disk.backup, e, n) && Confined(p.fold(e.name), n, d, b.disk);
    assert b.disk == d.(root := b.disk.root, backup := b.disk.backup);
    if b.end.Finished? {
      assert p.fold(e.name) !in b.disk.root && (e.existed <==> n in b.disk.backup);
      PutEffect(p, b.disk, e, n, plan, b.rest);
    }
  }

  lemma PutEffect(p: Policy, d: Disk, e: Entry, n: nat, plan: Plan, script: seq<Event>)
    requires p.fold(e.name) !in d.root && (e.existed <==> n in d.backup) && Safe(p, d.root, d.backup, e, n)
    ensures var r := Put(p, d, e, plan, script);
      && !r.end.Rejected?
      && (r.end.Conflict? ==> e.name in plan.staging && plan.staging[e.name] != e.replacement)
      && r.disk == d.(root := r.disk.root, temp := r.disk.temp)
      && Safe(p, r.disk.root, d.backup, e, n)
      && (r.end.Finished? ==> Replaced(p, r.disk.root, e))
      && (forall x :: x != p.fold(e.name) ==> SameAt(r.disk.root, d.root, x))
  {
  }

  lemma {:induction false} InstallFromEffect(p: Policy, before: Root, files: seq<Entry>, d: Disk, plan: Plan, n: nat, script: seq<Event>)
    requires n <= |files|
    requires Recoverable(p, before, files, [], d.root, d.backup)
    requires forall i :: 0 <= i < n ==> Installed(p, d.root, d.backup, files[i], i)
    requires forall i :: n <= i < |files| ==> Original(p, d.root, d.backup, files[i], i)
    ensures var r := InstallFrom(p, d, plan, files, n, script);
      && !r.end.Rejected?
      && (r.end.Conflict? ==> exists i :: 0 <= i < |files| && files[i].name in plan.staging && plan.staging[files[i].name] != files[i].replacement)
      && Recoverable(p, before, files, [], r.disk.root, r.disk.backup)
      && r.disk == d.(root := r.disk.root, backup := r.disk.backup, temp := r.disk.temp)
      && (r.end.Finished? ==> forall i :: 0 <= i < |files| ==> Installed(p, r.disk.root, r.disk.backup, files[i], i))
    decreases |files| - n
  {
    hide InstallEntry;
    if n < |files| {
      InstallOriginalEntry(p, d, files[n], n, plan, script);
      var r := InstallEntry(p, d, files[n], n, plan, script);
      ChangeOne(p, before, files, [], n, d, r.disk);
      if r.end.Finished? {
        forall i | 0 <= i < |files| && i != n
          ensures i < n ==> Installed(p, r.disk.root, r.disk.backup, files[i], i)
          ensures i > n ==> Original(p, r.disk.root, r.disk.backup, files[i], i)
        {
          assert p.fold(files[i].name) != p.fold(files[n].name);
          assert SameAt(r.disk.root, d.root, p.fold(files[i].name));
        }
        InstallFromEffect(p, before, files, r.disk, plan, n + 1, r.rest);
      }
    }
  }

  /** Every way the guarded part of applying can end; `from` is the prepared disk. */
  ghost predicate InstallEnds(p: Policy, before: Root, files: seq<Entry>, from: Disk, r: Run) {
    && !r.end.Rejected?
    && Recoverable(p, before, files, [], r.disk.root, r.disk.backup)
    && r.disk == from.(root := r.disk.root, backup := r.disk.backup, temp := r.disk.temp, journal := r.disk.journal)
    && (if r.end.Finished?
        then r.disk.journal == Journal("installed", files, []) && (forall i :: 0 <= i < |files| ==> Installed(p, r.disk.root, r.disk.backup, files[i], i))
        else r.disk.journal == Journal("applying", files, []) || r.disk == from)
    && (r.disk == from || Storable(r.disk.journal))
  }

  lemma InstallEffect(p: Policy, before: Root, files: seq<Entry>, d: Disk, plan: Plan, script: seq<Event>)
    requires Recoverable(p, before, files, [], d.root, d.backup)
    requires forall i :: 0 <= i < |files| ==> Original(p, d.root, d.backup, files[i], i)
    requires Carries(files, plan)
    ensures InstallEnds(p, before, files, d, Install(p, d, plan, files, script))
    ensures Install(p, d, plan, files, script).end.Conflict? ==>
      exists i :: 0 <= i < |files| && files[i].name in plan.staging && plan.staging[files[i].name] != files[i].replacement
  {
    hide Storable, Recoverable, InstallFrom, Installed, Original;
    var r1 := Save(d, Journal("applying", files, []), script);
    if r1.end.Finished? {
      InstallFromEffect(p, before, files, r1.disk, plan, 0, r1.rest);
      var r2 := InstallFrom(p, r1.disk, plan, files, 0, r1.rest);
      if r2.end.Finished? {
        AllHeld(p, files, plan, r2.disk.root, r2.disk.backup);
      }
    }
  }

  lemma AllHeld(p: Policy, files: seq<Entry>, plan: Plan, root: Root, backup: map<nat, string>)
    requires forall i :: 0 <= i < |files| ==> Installed(p, root, backup, files[i], i)
    requires Carries(files, plan)
    ensures Holds(p, root, Hashes(plan.replacements))
  {
    forall name | name in Hashes(plan.replacements)
      ensures p.fold(name) in root && root[p.fold(name)] == Hashes(plan.replacements)[name]
    {
      var i :| 0 <= i < |files| && files[i].name == name && files[i].replacement == plan.replacements[name].hash;
      assert Installed(p, root, backup, files[i], i);
    }
  }
}
