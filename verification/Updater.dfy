/** The updater as the program performs it: step by step on one installation. */
module Updater {
  import opened UpdateJournal
  import opened JournalStore
  import opened UpdateTransaction
  import JournalFile
  import JournalCodec
  import JsonReader

  class Installation {
    const policy: Policy
    var root: map<string, string>
    var temps: map<string, string>
    var active: bool
    var journal: Journal
    var backup: map<nat, string>
    var temp: string
    var manifest: map<string, string>
    var script: seq<Event>

    constructor (policy: Policy, disk: Disk, script: seq<Event>)
      ensures this.policy == policy && Snapshot() == disk && this.script == script
    {
      this.policy := policy;
      root, temps, active, journal := disk.root, disk.temps, disk.active, disk.journal;
      backup, temp, manifest := disk.backup, disk.temp, disk.manifest;
      this.script := script;
    }

    function Snapshot(): Disk
      reads this
    {
      Disk(root, temps, active, journal, backup, temp, manifest)
    }

    /** The state as the outcome of a command that ended in `end`. */
    function Outcome(end: End): Run
      reads this
    {
      Run(end, Snapshot(), script)
    }

    /** Takes the next event. */
    method Ask() returns (end: End)
      modifies this`script
      ensures end == Verdict(old(script))
      ensures script == if old(script) == [] then [] else old(script)[1..]
    {
      end := Verdict(script);
      if script != [] { script := script[1..]; }
    }

    method Save(j: Journal) returns (end: End)
      modifies this`journal, this`script
      ensures Outcome(end) == UpdateTransaction.Save(old(Snapshot()), j, old(script))
    {
      hide JsonReader.Parse, JournalCodec.SaveText;
      var ok, bytes := JournalFile.Save(j);
      if !ok { return Refused; }
      end := Ask();
      if end.Finished? { journal := j; }
    }

    method RemoveActive() returns (end: End)
      modifies this`active, this`script
      ensures Outcome(end) == UpdateTransaction.RemoveActive(old(Snapshot()), old(script))
    {
      end := Ask();
      if end.Finished? { active := false; }
    }

    method RemovePromoted(copies: seq<RootCopy>) returns (end: End)
      modifies this`root, this`script
      ensures Outcome(end) == UpdateTransaction.RemovePromoted(policy, old(Snapshot()), copies, old(script))
    {
      for i := 0 to |copies|
        invariant UpdateTransaction.RemovePromoted(policy, Snapshot(), copies[i..], script)
               == UpdateTransaction.RemovePromoted(policy, old(Snapshot()), copies, old(script))
      {
        var k := policy.fold(copies[i].name);
        assert copies[i..][1..] == copies[i + 1..];
        if k in root && root[k] == copies[i].hash {
          end := Ask();
          if !end.Finished? { return; }
          root := root - {k};
        }
      }
      end := Finished;
    }

    method RestoreFiles(files: seq<Entry>) returns (end: End)
      modifies this`root, this`backup, this`script
      ensures Outcome(end) == RestoreFirst(policy, old(Snapshot()), files, |files|, old(script))
    {
      var count := |files|;
      while count > 0
        invariant 0 <= count <= |files|
        invariant RestoreFirst(policy, Snapshot(), files, count, script) == RestoreFirst(policy, old(Snapshot()), files, |files|, old(script))
      {
        var index := count - 1;
        var e := files[index];
        var k := policy.fold(e.name);
        if index in backup {
          if !e.existed || backup[index] != e.original { return Conflict; }
          if k in root && root[k] != e.replacement && root[k] != e.original { return Conflict; }
          end := Ask();
          if !end.Finished? { return; }
          root, backup := root[k := backup[index]], backup - {index};
        } else if e.existed {
          if k !in root || root[k] != e.original { return Conflict; }
        } else if k in root {
          if e.replacement == "" || root[k] != e.replacement { return Conflict; }
          end := Ask();
          if !end.Finished? { return; }
          root := root - {k};
        }
        count := index;
      }
      end := Finished;
    }

    method Rollback(j: Journal) returns (end: End)
      modifies this
      ensures Outcome(end) == UpdateTransaction.Rollback(policy, old(Snapshot()), j, old(script))
    {
      hide Storable;
      end := Save(j.(state := "rollingBack"));
      if !end.Finished? { return; }
      end := RemovePromoted(j.promoted);
      if !end.Finished? { return; }
      end := RestoreFiles(j.files);
      if !end.Finished? { return; }
      end := Save(j.(state := "rolledBack"));
      if !end.Finished? { return; }
      end := RemoveActive();
    }

    method InstallFiles(plan: Plan, files: seq<Entry>) returns (end: End)
      modifies this`root, this`backup, this`temp, this`script
      ensures Outcome(end) == InstallFrom(policy, old(Snapshot()), plan, files, 0, old(script))
    {
      for i := 0 to |files|
        invariant InstallFrom(policy, Snapshot(), plan, files, i, script) == InstallFrom(policy, old(Snapshot()), plan, files, 0, old(script))
      {
        end := InstallOne(plan, files[i], i);
        if !end.Finished? { return; }
      }
      end := Finished;
    }

    method InstallOne(plan: Plan, e: Entry, i: nat) returns (end: End)
      modifies this`root, this`backup, this`temp, this`script
      ensures Outcome(end) == InstallEntry(policy, old(Snapshot()), e, i, plan, old(script))
    {
      var k := policy.fold(e.name);
      if e.existed {
        if k !in root || root[k] != e.original { return Conflict; }
        if i in backup { return Refused; }
        end := Ask();
        if !end.Finished? { return; }
        root, backup := root - {k}, backup[i := root[k]];
      }
      if e.replacement != "" {
        if e.name !in plan.staging { return Refused; }
        end := Ask();
        if !end.Finished? { return; }
        temp := plan.staging[e.name];
        if temp != e.replacement { return Conflict; }
        if k in root { return Refused; }
        end := Ask();
        if !end.Finished? { return; }
        root, temp := root[k := temp], "";
      }
      end := Finished;
    }

    /** The journal entries of a plan, or a conflict with a present file. */
    method Prepare(plan: Plan) returns (ok: bool, files: seq<Entry>)
      ensures ok <==> |plan.order| <= MAX_FILES && forall name <- plan.order :: Installable(policy, root, plan, name)
      ensures ok ==> files == PlanFiles(policy, root, plan)
    {
      files := [];
      if |plan.order| > MAX_FILES { return false, files; }
      for i := 0 to |plan.order|
        invariant |files| == i
        invariant forall m :: 0 <= m < i ==> Installable(policy, root, plan, plan.order[m]) && files[m] == PlanEntry(policy, root, plan, plan.order[m])
      {
        var name := plan.order[i];
        var k := policy.fold(name);
        if k in root {
          if name !in plan.originals || root[k] != plan.originals[name].hash {
            assert name in plan.order && !Installable(policy, root, plan, name);
            return false, files;
          }
        }
        files := files + [PlanEntry(policy, root, plan, name)];
      }
      ok := true;
    }

    method Apply(plan: Plan) returns (end: End)
      modifies this
      ensures Outcome(end) == UpdateTransaction.Apply(policy, old(Snapshot()), plan, old(script))
    {
      hide Install, UpdateTransaction.Rollback, InstallFrom, JsonReader.Parse, JournalCodec.SaveText;
      if active { return Rejected; }
      var ok, files := Prepare(plan);
      if !ok { return Conflict; }
      var bytes;
      ok, bytes := JournalFile.Save(Journal("prepared", files, []));
      if !ok { return Refused; }
      end := Ask();
      if !end.Finished? { return; }
      journal, backup, temp, manifest := Journal("prepared", files, []), map[], "", Manifest(plan);
      end := Ask();
      if !end.Finished? { return; }
      active := true;
      end := Guarded(plan, files);
      if end.Finished? || end.PowerCut? { return; }
      var undone := Rollback(Journal("applying", files, []));
      if !undone.Finished? { end := undone; }
    }

    method Guarded(plan: Plan, files: seq<Entry>) returns (end: End)
      modifies this
      ensures Outcome(end) == Install(policy, old(Snapshot()), plan, files, old(script))
    {
      hide Storable;
      end := Save(Journal("applying", files, []));
      if !end.Finished? { return; }
      end := InstallFiles(plan, files);
      if !end.Finished? { return; }
      if !Holds(policy, root, Hashes(plan.replacements)) { return Conflict; }
      end := Save(Journal("installed", files, []));
    }

    method Recover() returns (end: End)
      modifies this
      ensures Outcome(end) == UpdateTransaction.Recover(policy, old(Snapshot()), old(script))
    {
      if !active || !Accepted(policy, journal) || journal.state == "completed" { return Rejected; }
      end := Rollback(journal);
    }

    method Acknowledge() returns (end: End)
      modifies this
      ensures Outcome(end) == UpdateTransaction.Acknowledge(policy, old(Snapshot()), old(script))
    {
      hide Storable;
      if !active { return Finished; }
      if !Accepted(policy, journal) || journal.state !in {"installed", "completed"} { return Rejected; }
      if !Holds(policy, root, manifest) { return Rejected; }
      end := Save(journal.(state := "completed"));
      if !end.Finished? { return; }
      end := RemoveActive();
    }

    method Discard(k: string, failure: End) returns (end: End)
      modifies this`temps, this`script
      ensures Outcome(end) == UpdateTransaction.Discard(old(Snapshot()), k, failure, old(script))
    {
      end := Ask();
      if end.Finished? { temps := temps - {k}; }
      if !end.PowerCut? { end := failure; }
    }

    method Place(c: Carried) returns (end: End)
      modifies this`root, this`temps, this`script
      ensures Outcome(end) == PlaceOne(policy, old(Snapshot()), c, old(script))
    {
      var k := policy.fold(c.copy.name);
      if k in temps {
        end := Ask();
        if !end.Finished? { return; }
        temps := temps - {k};
      }
      if k in temps { return Refused; }
      end := Ask();
      if !end.Finished? { return; }
      temps := temps[k := ""];
      end := Fill(k, c);
    }

    method Fill(k: string, c: Carried) returns (end: End)
      modifies this`root, this`temps, this`script
      ensures Outcome(end) == FillTemp(old(Snapshot()), k, c, old(script))
    {
      end := Ask();
      if end.PowerCut? { return; }
      if !end.Finished? { end := Discard(k, end); return; }
      temps := temps[k := c.content];
      if c.content != c.copy.hash { end := Discard(k, Conflict); return; }
      end := Ask();
      if end.PowerCut? { return; }
      if !end.Finished? { end := Discard(k, end); return; }
      root, temps := root[k := c.content], temps - {k};
    }

    method PlaceCopies(copies: seq<Carried>) returns (end: End)
      modifies this`root, this`temps, this`script
      ensures Outcome(end) == PlaceAll(policy, old(Snapshot()), copies, old(script))
    {
      for i := 0 to |copies|
        invariant PlaceAll(policy, Snapshot(), copies[i..], script) == PlaceAll(policy, old(Snapshot()), copies, old(script))
      {
        assert copies[i..][1..] == copies[i + 1..];
        end := Place(copies[i]);
        if !end.Finished? { return; }
      }
      end := Finished;
    }

    /** Enters the copies into `j`, or reports that the journal cannot take them. */
    method Record(j: Journal, copies: seq<Carried>) returns (recording: Recording)
      ensures recording == RecordCopies(policy, j, copies)
    {
      var now := j;
      for i := 0 to |copies|
        invariant RecordCopies(policy, now, copies[i..]) == RecordCopies(policy, j, copies)
      {
        assert copies[i..][1..] == copies[i + 1..];
        var c := copies[i].copy;
        var at := FindListed(policy, now.files, c.name);
        if at < |now.files| {
          if now.files[at].replacement != c.hash {
            if now.files[at].replacement != "" { return Pending; }
            now := now.(files := now.files[at := now.files[at].(replacement := c.hash)]);
          }
        } else if !IsRecorded(policy, now.promoted, c) {
          now := now.(promoted := EraseName(policy, now.promoted, c.name) + [c]);
        }
      }
      recording := Extended(now);
    }

    method PlaceWithin(copies: seq<Carried>) returns (end: End)
      modifies this
      ensures Outcome(end) == UpdateTransaction.PlaceWithin(policy, old(Snapshot()), copies, old(script))
    {
      hide Storable;
      if !active || !Accepted(policy, journal) || journal.state != "installed" { return Rejected; }
      var recording := Record(journal, copies);
      if recording.Pending? { return Rejected; }
      if recording.journal != journal {
        end := Save(recording.journal);
        if !end.Finished? { return; }
      }
      end := PlaceCopies(copies);
    }
  }
}
