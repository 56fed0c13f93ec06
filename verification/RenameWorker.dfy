/** The rename task as the program performs it: one object, advanced step by step. */
module RenameWorker {
  import opened BatchRename
  import opened RenameJournal
  import opened RenameExecute

  class RenameTask {
    const plan: Plan
    var vault: Vault
    var current: seq<Name>
    var mutated: bool
    var uncertain: bool
    var lost: set<nat>
    var log: LogHandle
    var script: seq<Event>
    var phase: nat
    var move: nat

    constructor (plan: Plan, vault: Vault, script: seq<Event>)
      ensures this.plan == plan && State() == Started(plan, vault, script) && phase == 0 && move == 0
    {
      this.plan, this.vault, this.script := plan, vault, script;
      current, mutated, uncertain, lost, log := Sources(plan.rows), false, false, {}, Unopened;
      phase, move := 0, 0;
    }

    function State(): Task
      reads this
    {
      Task(vault, current, mutated, uncertain, lost, log, script)
    }

    predicate Valid()
      reads this
    {
      |current| == |plan.rows|
    }

    method Ask() returns (event: Event)
      modifies this`script
      ensures event == Next(old(State())) && State() == Taken(old(State()))
    {
      event := Proceed;
      if script != [] { event, script := script[0], script[1..]; }
    }

    method Append(line: Line) returns (end: End)
      modifies this`vault, this`uncertain, this`script
      ensures Step(end, State()) == BatchRename.Append(plan, old(State()), line)
    {
      if !plan.logged { return Done; }
      if uncertain || !(log.Open? || log.Stray?) || Bytes(vault.lines) + LineSize(line) > LOG_BUDGET { return Failed; }
      var event := Ask();
      match event {
        case Proceed => vault := Written(vault, log, line, true); end := Done;
        case Refuse => end := Failed;
        case Spoil(whole) => vault, uncertain := Written(vault, log, line, whole), true; end := Failed;
        case PowerLoss(whole) => vault := Written(vault, log, line, whole); end := Cut;
        case Misplace => end := Failed;
      }
    }

    method Rename(i: nat, name: Name) returns (end: End)
      requires i < |plan.rows|
      modifies this`vault, this`lost, this`script
      ensures Step(end, State()) == BatchRename.Rename(plan, old(State()), i, name)
    {
      if i in lost { return Failed; }
      var id := plan.rows[i].id;
      var ok := Free(vault.folder, id, name);
      var moved := vault.(folder := vault.folder[id := name]);
      var event := Ask();
      end := Failed;
      match event {
        case Proceed => if ok { vault := moved; end := Done; }
        case Refuse =>
        case Spoil(_) => if ok && plan.redirected { vault, lost := moved, lost + {i}; }
        case PowerLoss(whole) => if ok && whole { vault := moved; } end := Cut;
        case Misplace =>
      }
    }

    method Move(i: nat, name: Name) returns (end: End)
      requires Valid() && i < |plan.rows|
      modifies this`vault, this`current, this`mutated, this`uncertain, this`lost, this`script
      ensures Valid() && Step(end, State()) == BatchRename.Move(plan, old(State()), i, name)
    {
      var role := RoleOf(plan.rows[i], name);
      end := Append(Intent(i, role));
      if !end.Done? { return; }
      end := Rename(i, name);
      if !end.Done? { return; }
      current, mutated := current[i := name], true;
      end := Append(Receipt(i, role));
    }

    /** The rest of the two phases from here. */
    ghost function Ahead(restore: bool): Step
      requires Valid() && phase <= 1 && move <= |plan.rows|
      reads this
    {
      if phase == 0 then
        var t1 :- Phase(plan, State(), 0, restore, move);
        Phase(plan, t1, 1, restore, 0)
      else Phase(plan, State(), 1, restore, move)
    }

    /** One move of a phase, as often as the scheduler asks for it. */
    method Advance(restore: bool) returns (end: End)
      requires Valid() && phase <= 1 && move < |plan.rows|
      modifies this`vault, this`current, this`mutated, this`uncertain, this`lost, this`script, this`move
      ensures Valid() && Step(end, State()) == BatchRename.Advance(plan, old(State()), phase, restore, old(move))
      ensures move == old(move) + 1
    {
      var i := move;
      move := move + 1;
      var goal := Goal(plan.rows[i], phase, restore);
      end := Done;
      if Moving(plan.rows[i]) && current[i] != goal {
        end := Move(i, goal);
      }
    }

    method BothPhases(restore: bool) returns (end: End)
      requires Valid()
      modifies this
      ensures Valid() && Step(end, State()) == BatchRename.BothPhases(plan, old(State()), restore)
    {
      phase, move := 0, 0;
      while phase < 2
        invariant Valid() && phase <= 2 && move <= |plan.rows| && (phase == 2 ==> move == 0)
        invariant BatchRename.BothPhases(plan, old(State()), restore) == if phase == 2 then Step(Done, State()) else Ahead(restore)
        decreases 2 - phase, |plan.rows| - move
      {
        if move < |plan.rows| {
          end := Advance(restore);
          if !end.Done? { return; }
        } else {
          phase, move := phase + 1, 0;
        }
      }
      end := Done;
    }

    method RetreatAside() returns (ok: bool, end: End)
      requires Valid()
      modifies this
      ensures Valid() && (ok, Step(end, State())) == BatchRename.RetreatAside(plan, old(State()), 0, true)
      ensures end.Cut? ==> !ok
    {
      hide BatchRename.Move;
      ok := true;
      for i := 0 to |plan.rows|
        invariant Valid()
        invariant BatchRename.RetreatAside(plan, State(), i, ok) == BatchRename.RetreatAside(plan, old(State()), 0, true)
      {
        if current[i] != plan.rows[i].source && current[i] != plan.rows[i].temporary {
          end := Move(i, plan.rows[i].temporary);
          if end.Cut? { return false, end; }
          ok := ok && end.Done?;
        }
      }
      end := Done;
    }

    method RetreatBack(wasOk: bool) returns (ok: bool, end: End)
      requires Valid()
      modifies this
      ensures Valid() && (ok, Step(end, State())) == BatchRename.RetreatBack(plan, old(State()), 0, wasOk)
    {
      hide BatchRename.Move;
      ok := wasOk;
      for i := 0 to |plan.rows|
        invariant Valid()
        invariant BatchRename.RetreatBack(plan, State(), i, ok) == BatchRename.RetreatBack(plan, old(State()), 0, wasOk)
      {
        if current[i] != plan.rows[i].source {
          end := Move(i, plan.rows[i].source);
          if end.Cut? { return false, end; }
          ok := ok && end.Done?;
        }
      }
      end := Done;
    }

    method Retreat() returns (ok: bool, end: End)
      requires Valid()
      modifies this
      ensures Valid() && (ok, Step(end, State())) == BatchRename.Retreat(plan, old(State()))
    {
      ok, end := RetreatAside();
      if !end.Cut? { ok, end := RetreatBack(ok); }
    }

    method OpenLog() returns (end: End)
      modifies this`vault, this`log, this`script
      ensures Step(end, State()) == RenameJournal.OpenLog(old(State()))
    {
      var event := Ask();
      if Bytes(vault.lines) > LOG_BUDGET {
        log, end := if event.Refuse? then Broken else Stray, if event.PowerLoss? then Cut else Failed;
        return;
      }
      match event {
        case Proceed => log, end := Open, Done;
        case Refuse => log, end := Broken, Failed;
        case Spoil(_) => log, end := Open, Failed;
        case Misplace => log, end := Stray, Failed;
        case PowerLoss(_) => end := Cut;
      }
    }

    method Record(state: State, note: Note) returns (end: End)
      modifies this`vault, this`log, this`uncertain, this`script
      ensures Step(end, State()) == RenameJournal.Record(plan, old(State()), state, note)
    {
      if log.Unopened? {
        end := OpenLog();
        if !end.Done? { return; }
      }
      end := Append(StateLine(state, note));
    }

    method Check() returns (end: End)
      modifies this`script
      ensures Step(end, State()) == RenameJournal.Check(old(State()))
    {
      var event := Ask();
      end := match event case Proceed => Done case PowerLoss(_) => Cut case _ => Failed;
    }

    method Begin(note: Note) returns (end: End)
      modifies this`vault, this`log, this`uncertain, this`script
      ensures Step(end, State()) == RenameJournal.Begin(plan, old(State()), note)
    {
      end := Check();
      if !end.Done? { return; }
      end := OpenLog();
      if !end.Done? { return; }
      end := Append(StateLine(Running, note));
    }

    /** All candidate names, each once: sources and targets row by row, then temporaries. */
    method CollectCandidates() returns (names: seq<Name>)
      ensures names == Candidates(plan.rows, |plan.rows|)
    {
      names := [];
      for i := 0 to |plan.rows|
        invariant names == SourcesAndTargets(plan.rows, i)
      {
        names := AddNew(AddNew(names, plan.rows[i].source), plan.rows[i].target);
      }
      for i := 0 to |plan.rows|
        invariant names == Candidates(plan.rows, i)
      {
        names := AddNew(names, plan.rows[i].temporary);
      }
    }

    method Locate(mode: Mode) returns (end: End)
      requires Valid()
      modifies this`current, this`script
      ensures Valid() && Step(end, State()) == RenameJournal.Locate(plan, old(State()), mode)
    {
      if !mode.Fresh? {
        var names := CollectCandidates();
        if !AllFound(vault.folder, plan.rows, names) { return Failed; }
        current := Discovered(vault.folder, plan.rows, names);
      }
      end := Check();
    }

    method Work(mode: Mode) returns (end: End)
      requires Valid()
      modifies this
      ensures Valid() && Step(end, State()) == RenameJournal.Work(plan, old(State()), mode)
    {
      end := Begin(mode.notes.working);
      if !end.Done? { return; }
      end := Locate(mode);
      if !end.Done? { return; }
      end := BothPhases(mode.Restore?);
      if !end.Done? { return; }
      end := Append(StateLine(if mode.Restore? then Restored else Completed, mode.notes.working));
    }

    method Finalize(mode: Mode) returns (end: End)
      requires Valid()
      modifies this
      ensures Valid() && Step(end, State()) == RenameJournal.Finalize(plan, old(State()), mode)
    {
      var restored := true;
      if mutated {
        restored, end := Retreat();
        if end.Cut? { return; }
      } else if !mode.Fresh? {
        restored := false;
      }
      end := Record(if restored then Restored else RecoveryRequired, mode.notes.failing);
    }

    method Perform(mode: Mode) returns (end: End)
      requires State() == Started(plan, vault, script)
      modifies this
      ensures Valid() && Step(end, State()) == RenameJournal.Perform(plan, old(vault), mode, old(script))
    {
      if !Allowed(vault, mode) { return Failed; }
      end := Work(mode);
      if end.Failed? {
        end := Finalize(mode);
        if end.Done? { end := Failed; }
      }
    }

    /** Pins every file and refuses repeated names, row by row. */
    method Screen(flagged: set<nat>) returns (end: End)
      modifies this`script
      ensures Step(end, State()) == RenameExecute.Screen(plan.rows, flagged, old(State()), 0)
    {
      var sources, targets := {}, {};
      for i := 0 to |plan.rows|
        invariant sources == set j | 0 <= j < i :: plan.rows[j].source.folded
        invariant targets == set j | 0 <= j < i :: plan.rows[j].target.folded
        invariant RenameExecute.Screen(plan.rows, flagged, State(), i) == RenameExecute.Screen(plan.rows, flagged, old(State()), 0)
      {
        var row := plan.rows[i];
        assert row.source.folded in sources <==> AmongSources(plan.rows, i, row.source);
        assert row.target.folded in targets <==> AmongTargets(plan.rows, i, row.target);
        if i in flagged || row.source.folded in sources || row.target.folded in targets { return Failed; }
        sources, targets := sources + {row.source.folded}, targets + {row.target.folded};
        end := Check();
        if !end.Done? { return; }
        if row.id !in vault.folder || vault.folder[row.id] != row.source { return Failed; }
      }
      end := Done;
    }

    /** The direct renaming of a folder. */
    method Execute(flagged: set<nat>) returns (outcome: Outcome)
      requires plan == Direct(plan.rows, plan.redirected) && State() == Begun(plan.rows, vault.folder, script)
      modifies this
      ensures outcome == RenameExecute.Execute(plan.rows, flagged, plan.redirected, old(vault.folder), old(script))
    {
      outcome := Outcome(false, true, vault.folder);
      if plan.rows == [] { return; }
      var end := Screen(flagged);
      if !end.Done? || !Vacant(plan.rows, vault.folder) { return; }
      end := BothPhases(false);
      if end.Failed? {
        var ok;
        ok, end := Retreat();
        return Outcome(false, ok, vault.folder);
      }
      outcome := Outcome(end.Done?, false, vault.folder);
    }
  }
}
