/** Undoing a completed rename is a rename of its own, with sources and targets exchanged. */
module RenameUndo {
  import opened BatchRename
  import opened RenameJournal
  import opened RenameSafety
  import opened RenamePhases
  import opened RenameRecovery
  import opened RenameRuns
  import opened RenameFull

  /** The undo of a record, unless it is not completed or a later record already undid it. */
  function Undo(plan: Plan, v: Vault, undone: bool, temporaries: seq<Name>): (found: seq<Plan>)
    requires |temporaries| == |plan.rows|
    ensures |found| <= 1
  {
    if !v.readable || !LastState(v.lines).Completed? || undone then [] else [Reversed(plan, temporaries)]
  }

  function Reversed(plan: Plan, temporaries: seq<Name>): (reverse: Plan)
    requires |temporaries| == |plan.rows|
    ensures |reverse.rows| == |plan.rows|
  {
    Plan(seq(|plan.rows|, i requires 0 <= i < |plan.rows| => Row(plan.rows[i].id, plan.rows[i].target, plan.rows[i].source, temporaries[i])),
         plan.redirected, plan.logged)
  }

  lemma ReversedStartable(plan: Plan, others: Folder, v: Vault, temporaries: seq<Name>, reverse: Plan)
    requires |temporaries| == |plan.rows| && ValidPlan(plan) && Sane(plan, others, v)
    requires reverse == Reversed(plan, temporaries) && ValidPlan(reverse)
    requires AllAtTarget(plan.rows, v.folder)
    requires forall i, id :: 0 <= i < |temporaries| && id in others ==> others[id].folded != temporaries[i].folded
    ensures Pristine(reverse, others, Vault(v.folder, [], true)) && Clear(reverse, others, false)
  {
    var folder := v.folder;
    forall id
      ensures OfRow(reverse.rows, id) <==> OfRow(plan.rows, id)
    {
      if OfRow(plan.rows, id) {
        var i :| 0 <= i < |plan.rows| && plan.rows[i].id == id;
        assert reverse.rows[i].id == id;
      }
    }
    forall i, id | 0 <= i < |reverse.rows| && id in others
      ensures id != reverse.rows[i].id && others[id].folded != reverse.rows[i].source.folded
      ensures others[id].folded != reverse.rows[i].target.folded && others[id].folded != reverse.rows[i].temporary.folded
    {
      assert !OfRow(plan.rows, id) && folder[plan.rows[i].id] == plan.rows[i].target;
    }
  }

  /** Undoing is offered for a completed rename that was not undone, and for no other; and then
      every file gets its old name again, with nothing else changed. */
  lemma UndoRestores(plan: Plan, others: Folder, v: Vault, undone: bool, temporaries: seq<Name>, notes: Notes)
    requires |temporaries| == |plan.rows| && ValidPlan(plan) && !plan.redirected && plan.logged && Sane(plan, others, v)
    requires ValidPlan(Reversed(plan, temporaries))
    requires forall i, id :: 0 <= i < |temporaries| && id in others ==> others[id].folded != temporaries[i].folded
    ensures var offers := Undo(plan, v, undone, temporaries);
      && (offers != [] <==> v.readable && LastState(v.lines).Completed? && !undone)
      && (offers != [] ==>
            var s := Perform(offers[0], Vault(v.folder, [], true), Fresh(notes), []);
            s.end.Done? && AllAtSource(plan.rows, s.task.vault.folder) && OthersKept(plan.rows, others, s.task.vault.folder))
  {
    if Undo(plan, v, undone, temporaries) != [] {
      var reverse, w := Reversed(plan, temporaries), Vault(v.folder, [], true);
      ReversedStartable(plan, others, v, temporaries, reverse);
      FirstRunSettles(reverse, others, w, notes);
      var end := Perform(reverse, w, Fresh(notes), []).task.vault;
      assert Startable(reverse, others, w, Fresh(notes)) by { PristineStartable(reverse, others, w, notes); }
      PerformKeeps(reverse, others, w, Fresh(notes), []);
      ReversedEnd(plan, others, v.folder, temporaries, end.folder);
    }
  }

  lemma ReversedEnd(plan: Plan, others: Folder, was: Folder, temporaries: seq<Name>, end: Folder)
    requires |temporaries| == |plan.rows| && FolderSane(plan.rows, others, was)
    requires var rows := Reversed(plan, temporaries).rows; FolderSane(rows, others, end) && AllAtTarget(rows, end)
    ensures AllAtSource(plan.rows, end) && OthersKept(plan.rows, others, end)
  {
    var reverse := Reversed(plan, temporaries);
    forall i | 0 <= i < |plan.rows|
      ensures plan.rows[i].id in end && end[plan.rows[i].id] == plan.rows[i].source
    {
      assert reverse.rows[i].id in end;
    }
    forall id
      ensures OfRow(reverse.rows, id) <==> OfRow(plan.rows, id)
    {
      if OfRow(plan.rows, id) {
        var i :| 0 <= i < |plan.rows| && plan.rows[i].id == id;
        assert reverse.rows[i].id == id;
      }
    }
  }

  lemma SameFolder(rows: seq<Row>, others: Folder, a: Folder, b: Folder)
    requires AllAtSource(rows, a) && OthersKept(rows, others, a) && AllAtSource(rows, b) && OthersKept(rows, others, b)
    ensures a == b
  {
    forall id
      ensures (id in a <==> id in b) && (id in a ==> a[id] == b[id])
    {
      if OfRow(rows, id) {
        var i :| 0 <= i < |rows| && rows[i].id == id;
      }
    }
  }

  /** Renaming and undoing, undisturbed: the undo is offered exactly if the rename went through,
      and it gives back the very folder. */
  lemma RenameThenUndo(plan: Plan, others: Folder, v: Vault, temporaries: seq<Name>, notes: Notes, again: Notes)
    requires |temporaries| == |plan.rows| && ValidPlan(plan) && !plan.redirected && plan.logged && Pristine(plan, others, v)
    requires ValidPlan(Reversed(plan, temporaries))
    requires forall i, id :: 0 <= i < |temporaries| && id in others ==> others[id].folded != temporaries[i].folded
    ensures var renamed := Perform(plan, v, Fresh(notes), []);
      var offers := Undo(plan, renamed.task.vault, false, temporaries);
      && (offers != [] <==> Clear(plan, others, false))
      && (offers != [] ==> Perform(offers[0], Vault(renamed.task.vault.folder, [], true), Fresh(again), []).task.vault.folder == v.folder)
  {
    hide Perform, ValidPlan, AllAtTarget, FolderSane, LastState, Clear;
    PristineStartable(plan, others, v, notes);
    FirstRunSettles(plan, others, v, notes);
    PerformKeeps(plan, others, v, Fresh(notes), []);
    var w := Perform(plan, v, Fresh(notes), []).task.vault;
    UndoRestores(plan, others, w, false, temporaries, again);
    if Undo(plan, w, false, temporaries) != [] {
      var end := Perform(Reversed(plan, temporaries), Vault(w.folder, [], true), Fresh(again), []).task.vault;
      PristineOthers(plan, others, v);
      SameFolder(plan.rows, others, end.folder, v.folder);
    }
  }

  lemma PristineOthers(plan: Plan, others: Folder, v: Vault)
    requires Pristine(plan, others, v)
    ensures OthersKept(plan.rows, others, v.folder) && AllAtSource(plan.rows, v.folder)
  {
  }
}
