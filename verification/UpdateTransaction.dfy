/** The update transaction as a function of the disk and of what the environment does.

    Every attempt to change the disk takes the next event of a script: it goes through,
    is refused, or the machine loses power first. A finished script means that everything
    else goes through, so a statement about all scripts is one about every crash point and
    every failure. A file is represented by the hash of its content. */
module UpdateTransaction {
  import opened UpdateJournal
  import opened JournalStore

  datatype Event = Proceed | Refuse | PowerLoss

  /** ROOT by folded name, the directory of the active transaction, and the active record.
      `temps` holds the unfinished `.hc-promote` copies beside the ROOT files. */
  datatype Disk = Disk(
    root: map<string, string>, temps: map<string, string>,
    active: bool, journal: Journal, backup: map<nat, string>, temp: string, manifest: map<string, string>)

  /** Finished, or why not: the environment refused a step, a content check failed,
      the command does not apply to this state, or power was lost. */
  datatype End = Finished | Refused | Conflict | Rejected | PowerCut

  datatype Run = Run(end: End, disk: Disk, rest: seq<Event>) {
    predicate IsFailure() { !end.Finished? }
    function PropagateFailure(): Run requires IsFailure() { this }
    function Extract(): (Disk, seq<Event>) requires !IsFailure() { (disk, rest) }
  }

  /** What the next event makes of an attempt. */
  function Verdict(script: seq<Event>): (end: End)
    ensures end.Finished? || end.Refused? || end.PowerCut?
  {
    if script == [] then Finished
    else match script[0]
      case Proceed => Finished
      case Refuse => Refused
      case PowerLoss => PowerCut
  }

  /** One durable change of the disk: it happens or it does not. */
  function Attempt(before: Disk, after: Disk, script: seq<Event>): Run {
    var end := Verdict(script);
    Run(end, if end.Finished? then after else before, if script == [] then [] else script[1..])
  }

  /** A journal that the writer cannot read back is refused before anything is written. */
  function Save(d: Disk, j: Journal, script: seq<Event>): Run {
    if Storable(j) then Attempt(d, d.(journal := j), script) else Run(Refused, d, script)
  }

  function RemoveActive(d: Disk, script: seq<Event>): Run {
    Attempt(d, d.(active := false), script)
  }

  // ---------------------------------------------------------------- rollback

  /** Deletes every recorded ROOT copy that still holds the recorded content. */
  function RemovePromoted(p: Policy, d: Disk, copies: seq<RootCopy>, script: seq<Event>): Run
    decreases |copies|
  {
    if copies == [] then Run(Finished, d, script)
    else
      var k := p.fold(copies[0].name);
      if k in d.root && d.root[k] == copies[0].hash then
        var (d1, s1) :- Attempt(d, d.(root := d.root - {k}), script);
        RemovePromoted(p, d1, copies[1..], s1)
      else RemovePromoted(p, d, copies[1..], script)
  }

  /** Puts back entry `i`. */
  function RestoreEntry(p: Policy, d: Disk, e: Entry, i: nat, script: seq<Event>): Run {
    var k := p.fold(e.name);
    if i in d.backup then
      if !e.existed || d.backup[i] != e.original then Run(Conflict, d, script)
      else if k in d.root && d.root[k] != e.replacement && d.root[k] != e.original then Run(Conflict, d, script)
      else Attempt(d, d.(root := d.root[k := d.backup[i]], backup := d.backup - {i}), script)
    else if e.existed then
      if k in d.root && d.root[k] == e.original then Run(Finished, d, script) else Run(Conflict, d, script)
    else if k in d.root then
      if e.replacement == "" || d.root[k] != e.replacement then Run(Conflict, d, script)
      else Attempt(d, d.(root := d.root - {k}), script)
    else Run(Finished, d, script)
  }

  /** Puts back the first `n` entries, last one first. */
  function RestoreFirst(p: Policy, d: Disk, files: seq<Entry>, n: nat, script: seq<Event>): Run
    requires n <= |files|
    decreases n
  {
    if n == 0 then Run(Finished, d, script)
    else
      var (d1, s1) :- RestoreEntry(p, d, files[n - 1], n - 1, script);
      RestoreFirst(p, d1, files, n - 1, s1)
  }

  function RestoreRoot(p: Policy, d: Disk, j: Journal, script: seq<Event>): Run {
    var (d1, s1) :- RemovePromoted(p, d, j.promoted, script);
    RestoreFirst(p, d1, j.files, |j.files|, s1)
  }

  function Rollback(p: Policy, d: Disk, j: Journal, script: seq<Event>): Run {
    var (d1, s1) :- Save(d, j.(state := "rollingBack"), script);
    var (d2, s2) :- RestoreRoot(p, d1, j, s1);
    var (d3, s3) :- Save(d2, j.(state := "rolledBack"), s2);
    RemoveActive(d3, s3)
  }

  // ------------------------------------------------------------------- apply

  datatype Product = Product(hash: string, size: nat)

  /** What an update knows before it touches ROOT: the names in journal order, the files of
      the installed inventory, those of the next one (with the carried ROOT files), the
      staged contents to copy from, and which ROOT names are only carried. */
  datatype Plan = Plan(
    order: seq<string>, originals: map<string, Product>, replacements: map<string, Product>,
    staging: map<string, string>, carried: set<string>)

  function PlanEntry(p: Policy, root: map<string, string>, plan: Plan, name: string): Entry {
    var exists_ := p.fold(name) in root && name in plan.originals;
    Entry(name,
          if exists_ then plan.originals[name].hash else "",
          if name in plan.replacements then plan.replacements[name].hash else "",
          if exists_ then plan.originals[name].size else 0,
          exists_)
  }

  /** A present file must be listed and unchanged. */
  predicate Installable(p: Policy, root: map<string, string>, plan: Plan, name: string) {
    p.fold(name) in root ==> name in plan.originals && root[p.fold(name)] == plan.originals[name].hash
  }

  function PlanFiles(p: Policy, root: map<string, string>, plan: Plan): (files: seq<Entry>)
    ensures |files| == |plan.order|
  {
    seq(|plan.order|, i requires 0 <= i < |plan.order| => PlanEntry(p, root, plan, plan.order[i]))
  }

  predicate Holds(p: Policy, root: map<string, string>, wanted: map<string, string>) {
    forall name <- wanted :: p.fold(name) in root && root[p.fold(name)] == wanted[name]
  }

  function Manifest(plan: Plan): map<string, string> {
    map name | name in plan.replacements && name !in plan.carried :: plan.replacements[name].hash
  }

  /** Moves the original of entry `i` away. */
  function BackUp(p: Policy, d: Disk, e: Entry, i: nat, script: seq<Event>): Run {
    var k := p.fold(e.name);
    if !e.existed then Run(Finished, d, script)
    else if k !in d.root || d.root[k] != e.original then Run(Conflict, d, script)
    else if i in d.backup then Run(Refused, d, script)
    else Attempt(d, d.(root := d.root - {k}, backup := d.backup[i := d.root[k]]), script)
  }

  /** Copies the replacement of an entry aside, checks the copy and moves it into place. */
  function Put(p: Policy, d: Disk, e: Entry, plan: Plan, script: seq<Event>): Run {
    var k := p.fold(e.name);
    if e.replacement == "" then Run(Finished, d, script)
    else if e.name !in plan.staging then Run(Refused, d, script)
    else
      var (d1, s1) :- Attempt(d, d.(temp := plan.staging[e.name]), script);
      if d1.temp != e.replacement then Run(Conflict, d1, s1)
      else if k in d1.root then Run(Refused, d1, s1)
      else Attempt(d1, d1.(root := d1.root[k := d1.temp], temp := ""), s1)
  }

  function InstallEntry(p: Policy, d: Disk, e: Entry, i: nat, plan: Plan, script: seq<Event>): Run {
    var (d1, s1) :- BackUp(p, d, e, i, script);
    Put(p, d1, e, plan, s1)
  }

  function InstallFrom(p: Policy, d: Disk, plan: Plan, files: seq<Entry>, i: nat, script: seq<Event>): Run
    requires i <= |files|
    decreases |files| - i
  {
    if i == |files| then Run(Finished, d, script)
    else
      var (d1, s1) :- InstallEntry(p, d, files[i], i, plan, script);
      InstallFrom(p, d1, plan, files, i + 1, s1)
  }

  function Hashes(products: map<string, Product>): map<string, string> {
    map name | name in products :: products[name].hash
  }

  /** The guarded part of applying: failures in it are rolled back. */
  function Install(p: Policy, d: Disk, plan: Plan, files: seq<Entry>, script: seq<Event>): Run {
    var (d1, s1) :- Save(d, Journal("applying", files, []), script);
    var (d2, s2) :- InstallFrom(p, d1, plan, files, 0, s1);
    if !Holds(p, d2.root, Hashes(plan.replacements)) then Run(Conflict, d2, s2)
    else Save(d2, Journal("installed", files, []), s2)
  }

  /** Installs; a failure is rolled back at once and then reported. */
  function InstallOrUndo(p: Policy, d: Disk, plan: Plan, files: seq<Entry>, script: seq<Event>): Run {
    var r := Install(p, d, plan, files, script);
    if r.end.Finished? || r.end.PowerCut? then r
    else
      var undone := Rollback(p, r.disk, Journal("applying", files, []), r.rest);
      if undone.end.Finished? then undone.(end := r.end) else undone
  }

  function Prepared(d: Disk, plan: Plan, files: seq<Entry>): Disk {
    d.(journal := Journal("prepared", files, []), backup := map[], temp := "", manifest := Manifest(plan))
  }

  function Apply(p: Policy, d: Disk, plan: Plan, script: seq<Event>): Run {
    if d.active then Run(Rejected, d, script)
    else if |plan.order| > MAX_FILES || !(forall name <- plan.order :: Installable(p, d.root, plan, name))
    then Run(Conflict, d, script)
    else
      var files := PlanFiles(p, d.root, plan);
      var (d1, s1) :- if Storable(Journal("prepared", files, [])) then Attempt(d, Prepared(d, plan, files), script) else Run(Refused, d, script);
      var (d2, s2) :- Attempt(d1, d1.(active := true), s1);
      InstallOrUndo(p, d2, plan, files, s2)
  }

  // ----------------------------------------------- recovery, acknowledgement

  /** Whether the durable state alone lets the product start. */
  predicate StartupAllowed(p: Policy, d: Disk) {
    !d.active || (Accepted(p, d.journal) && d.journal.state in {"installed", "completed", "rolledBack"})
  }

  function Recover(p: Policy, d: Disk, script: seq<Event>): Run {
    if !d.active || !Accepted(p, d.journal) || d.journal.state == "completed" then Run(Rejected, d, script)
    else Rollback(p, d, d.journal, script)
  }

  function Acknowledge(p: Policy, d: Disk, script: seq<Event>): Run {
    if !d.active then Run(Finished, d, script)
    else if !Accepted(p, d.journal) || d.journal.state !in {"installed", "completed"} then Run(Rejected, d, script)
    else if !Holds(p, d.root, d.manifest) then Run(Rejected, d, script)
    else
      var (d1, s1) :- Save(d, d.journal.(state := "completed"), script);
      RemoveActive(d1, s1)
  }

  // --------------------------------------------------------------- promotion

  /** A ROOT copy to place: its recorded name and hash, and what its carrier holds now. */
  datatype Carried = Carried(copy: RootCopy, content: string)

  predicate SameName(p: Policy, a: string, b: string) {
    p.fold(a) == p.fold(b)
  }

  function FindListed(p: Policy, files: seq<Entry>, name: string): (i: nat)
    ensures i <= |files|
    ensures i < |files| ==> SameName(p, files[i].name, name)
    ensures forall k :: 0 <= k < i ==> !SameName(p, files[k].name, name)
  {
    if files == [] then 0
    else if SameName(p, files[0].name, name) then 0
    else
      var i := FindListed(p, files[1..], name);
      assert forall k :: 0 < k < i + 1 ==> files[k] == files[1..][k - 1];
      i + 1
  }

  predicate IsRecorded(p: Policy, promoted: seq<RootCopy>, c: RootCopy) {
    exists i :: 0 <= i < |promoted| && SameName(p, promoted[i].name, c.name) && promoted[i].hash == c.hash
  }

  function EraseName(p: Policy, promoted: seq<RootCopy>, name: string): (kept: seq<RootCopy>)
    ensures forall c :: c in kept <==> c in promoted && !SameName(p, c.name, name)
    ensures |kept| <= |promoted|
  {
    if promoted == [] then []
    else if SameName(p, promoted[0].name, name) then EraseName(p, promoted[1..], name)
    else [promoted[0]] + EraseName(p, promoted[1..], name)
  }

  datatype Recording = Extended(journal: Journal) | Pending

  /** Enters one copy: a listed name gets it as replacement, any other is promoted. */
  function RecordCopy(p: Policy, j: Journal, c: RootCopy): Recording {
    var i := FindListed(p, j.files, c.name);
    if i < |j.files| then
      if j.files[i].replacement == c.hash then Extended(j)
      else if j.files[i].replacement != "" then Pending
      else Extended(j.(files := j.files[i := j.files[i].(replacement := c.hash)]))
    else if IsRecorded(p, j.promoted, c) then Extended(j)
    else Extended(j.(promoted := EraseName(p, j.promoted, c.name) + [c]))
  }

  function RecordCopies(p: Policy, j: Journal, copies: seq<Carried>): Recording
    decreases |copies|
  {
    if copies == [] then Extended(j)
    else
      match RecordCopy(p, j, copies[0].copy)
      case Pending => Pending
      case Extended(j1) => RecordCopies(p, j1, copies[1..])
  }

  /** Deletes an unfinished copy after a failure; the original failure is reported. */
  function Discard(d: Disk, k: string, end: End, script: seq<Event>): Run {
    var r := Attempt(d, d.(temps := d.temps - {k}), script);
    r.(end := if r.end.PowerCut? then PowerCut else end)
  }

  /** Removes an earlier temporary and creates an empty one, where none may be. */
  function OpenTemp(d: Disk, k: string, script: seq<Event>): Run {
    var (d1, s1) :- if k in d.temps then Attempt(d, d.(temps := d.temps - {k}), script) else Run(Finished, d, script);
    if k in d1.temps then Run(Refused, d1, s1) else Attempt(d1, d1.(temps := d1.temps[k := ""]), s1)
  }

  /** Copies the carrier into the temporary, checks it and renames it over the target. */
  function FillTemp(d: Disk, k: string, c: Carried, script: seq<Event>): Run {
    var copied := Attempt(d, d.(temps := d.temps[k := c.content]), script);
    if copied.end.PowerCut? then copied
    else if !copied.end.Finished? then Discard(copied.disk, k, copied.end, copied.rest)
    else if c.content != c.copy.hash then Discard(copied.disk, k, Conflict, copied.rest)
    else
      var d1 := copied.disk;
      var moved := Attempt(d1, d1.(root := d1.root[k := c.content], temps := d1.temps - {k}), copied.rest);
      if moved.end.Finished? || moved.end.PowerCut? then moved
      else Discard(moved.disk, k, moved.end, moved.rest)
  }

  function PlaceOne(p: Policy, d: Disk, c: Carried, script: seq<Event>): Run {
    var k := p.fold(c.copy.name);
    var (d1, s1) :- OpenTemp(d, k, script);
    FillTemp(d1, k, c, s1)
  }

  function PlaceAll(p: Policy, d: Disk, copies: seq<Carried>, script: seq<Event>): Run
    decreases |copies|
  {
    if copies == [] then Run(Finished, d, script)
    else
      var (d1, s1) :- PlaceOne(p, d, copies[0], script);
      PlaceAll(p, d1, copies[1..], s1)
  }

  /** Records the copies in the journal of an installed update, then places them. */
  function PlaceWithin(p: Policy, d: Disk, copies: seq<Carried>, script: seq<Event>): Run {
    if !d.active || !Accepted(p, d.journal) || d.journal.state != "installed" then Run(Rejected, d, script)
    else
      match RecordCopies(p, d.journal, copies)
      case Pending => Run(Rejected, d, script)
      case Extended(j) =>
        var (d1, s1) :- if j != d.journal then Save(d, j, script) else Run(Finished, d, script);
        PlaceAll(p, d1, copies, s1)
  }
}
