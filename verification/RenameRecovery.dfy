/** Crash recovery of renames: files are found again by identity, and every task, however
    interrupted, leaves a folder and a log from which the next one can go on. */
module RenameRecovery {
  import opened BatchRename
  import opened RenameJournal
  import opened RenameSafety
  import opened RenamePhases

  // ---------------------------------------------------------------- discovery

  lemma AddNewHas(names: seq<Name>, a: Name, name: Name)
    ensures name in AddNew(names, a) <==> name in names || name == a
  {
  }

  /** Some row below `n` starts or ends at `name`. */
  ghost predicate Mentioned(rows: seq<Row>, n: nat, name: Name) {
    exists i :: 0 <= i < n && i < |rows| && (name == rows[i].source || name == rows[i].target)
  }

  ghost predicate MentionedAside(rows: seq<Row>, n: nat, name: Name) {
    exists i :: 0 <= i < n && i < |rows| && name == rows[i].temporary
  }

  lemma {:induction false} SourcesAndTargetsAre(rows: seq<Row>, n: nat, name: Name)
    requires n <= |rows|
    ensures name in SourcesAndTargets(rows, n) <==> Mentioned(rows, n, name)
  {
    if n > 0 {
      var before := SourcesAndTargets(rows, n - 1);
      SourcesAndTargetsAre(rows, n - 1, name);
      AddNewHas(before, rows[n - 1].source, name);
      AddNewHas(AddNew(before, rows[n - 1].source), rows[n - 1].target, name);
      assert Mentioned(rows, n, name) <==> Mentioned(rows, n - 1, name) || name == rows[n - 1].source || name == rows[n - 1].target;
    }
  }

  lemma {:induction false} CandidatesAre(rows: seq<Row>, n: nat, name: Name)
    requires n <= |rows|
    ensures name in Candidates(rows, n) <==> Mentioned(rows, |rows|, name) || MentionedAside(rows, n, name)
  {
    if n > 0 {
      CandidatesAre(rows, n - 1, name);
      AddNewHas(Candidates(rows, n - 1), rows[n - 1].temporary, name);
      assert MentionedAside(rows, n, name) <==> MentionedAside(rows, n - 1, name) || name == rows[n - 1].temporary;
    } else {
      SourcesAndTargetsAre(rows, |rows|, name);
    }
  }

  lemma AddNewLast(names: seq<Name>, name: Name, folded: string)
    ensures name.folded != folded ==> LastFolded(AddNew(names, name), folded) == LastFolded(names, folded)
    ensures name.folded == folded && name !in names ==> LastFolded(AddNew(names, name), folded) == [name]
  {
    assert (names + [name])[..|names|] == names;
  }

  /** Nothing before row `i` has the name of a row that changes letter case only. */
  lemma {:induction false} NotYetFound(plan: Plan, i: nat, n: nat)
    requires ValidPlan(plan) && i < |plan.rows| && n <= i
    requires plan.rows[i].source.folded == plan.rows[i].target.folded
    ensures LastFolded(SourcesAndTargets(plan.rows, n), plan.rows[i].source.folded) == []
  {
    hide LastFolded;
    if n > 0 {
      NotYetFound(plan, i, n - 1);
      OtherRowSkipped(plan, i, n);
    }
  }

  lemma OtherRowSkipped(plan: Plan, i: nat, n: nat)
    requires ValidPlan(plan) && i < |plan.rows| && 0 < n <= |plan.rows| && n != i + 1
    requires plan.rows[i].source.folded == plan.rows[i].target.folded
    ensures LastFolded(SourcesAndTargets(plan.rows, n), plan.rows[i].source.folded) ==
            LastFolded(SourcesAndTargets(plan.rows, n - 1), plan.rows[i].source.folded)
  {
    var f, row, before := plan.rows[i].source.folded, plan.rows[n - 1], SourcesAndTargets(plan.rows, n - 1);
    assert RowsApart(plan.rows[i], row, false);
    AddNewLast(before, row.source, f);
    AddNewLast(AddNew(before, row.source), row.target, f);
  }

  lemma SecondWins(names: seq<Name>, first: Name, second: Name)
    requires LastFolded(names, first.folded) == [] && first.folded == second.folded && first != second
    ensures LastFolded(AddNew(AddNew(names, first), second), first.folded) == [second]
  {
    assert first !in names && second !in names;
    AddNewLast(AddNew(names, first), second, first.folded);
  }

  lemma FirstFound(plan: Plan, i: nat)
    requires ValidPlan(plan) && i < |plan.rows|
    requires plan.rows[i].source.folded == plan.rows[i].target.folded && Moving(plan.rows[i])
    ensures LastFolded(SourcesAndTargets(plan.rows, i + 1), plan.rows[i].source.folded) == [plan.rows[i].target]
  {
    NotYetFound(plan, i, i);
    SecondWins(SourcesAndTargets(plan.rows, i), plan.rows[i].source, plan.rows[i].target);
  }

  /** A row that changes letter case only is found under its target name. */
  lemma {:induction false} CaseOnlyLast(plan: Plan, i: nat, n: nat)
    requires ValidPlan(plan) && i < n <= |plan.rows|
    requires plan.rows[i].source.folded == plan.rows[i].target.folded && Moving(plan.rows[i])
    ensures LastFolded(SourcesAndTargets(plan.rows, n), plan.rows[i].source.folded) == [plan.rows[i].target]
  {
    hide SourcesAndTargets, LastFolded;
    if i + 1 < n {
      CaseOnlyLast(plan, i, n - 1);
      OtherRowSkipped(plan, i, n);
    } else {
      FirstFound(plan, i);
    }
  }

  lemma {:induction false} CaseOnlyCandidate(plan: Plan, i: nat, n: nat)
    requires ValidPlan(plan) && i < |plan.rows| && n <= |plan.rows|
    requires plan.rows[i].source.folded == plan.rows[i].target.folded && Moving(plan.rows[i])
    ensures LastFolded(Candidates(plan.rows, n), plan.rows[i].source.folded) == [plan.rows[i].target]
  {
    if n == 0 {
      CaseOnlyLast(plan, i, |plan.rows|);
    } else {
      CaseOnlyCandidate(plan, i, n - 1);
      assert RowsApart(plan.rows[n - 1], plan.rows[i], i == n - 1);
      AddNewLast(Candidates(plan.rows, n - 1), plan.rows[n - 1].temporary, plan.rows[i].source.folded);
    }
  }

  lemma FoundTracks(plan: Plan, others: Folder, folder: Folder, i: nat)
    requires ValidPlan(plan) && FolderSane(plan.rows, others, folder) && i < |plan.rows|
    ensures var found := Found(folder, plan.rows[i].id, Candidates(plan.rows, |plan.rows|));
      found != [] && TrackedRow(folder, plan.rows[i], found[0])
  {
    var rows, names, row := plan.rows, Candidates(plan.rows, |plan.rows|), plan.rows[i];
    assert InOnePlace(folder, row) && RowsApart(row, row, true);
    CandidatesAre(rows, |rows|, folder[row.id]);
    var name := Found(folder, row.id, names)[0];
    CandidatesAre(rows, |rows|, name);
    if Mentioned(rows, |rows|, name) {
      var j :| 0 <= j < |rows| && (name == rows[j].source || name == rows[j].target);
      assert RowsApart(row, rows[j], i == j) && RowsApart(rows[j], row, i == j);
    } else {
      var j :| 0 <= j < |rows| && name == rows[j].temporary;
      assert RowsApart(rows[j], row, i == j) && RowsApart(row, rows[j], i == j);
    }
    if Moving(row) && row.source.folded == row.target.folded {
      CaseOnlyCandidate(plan, i, |rows|);
    }
  }

  /** Identity discovery finds every file, at exactly one of its three names, and well
      enough to go on from there. */
  lemma DiscoveryTracks(plan: Plan, others: Folder, folder: Folder)
    requires ValidPlan(plan) && FolderSane(plan.rows, others, folder)
    ensures var names := Candidates(plan.rows, |plan.rows|);
      && AllFound(folder, plan.rows, names)
      && forall i :: 0 <= i < |plan.rows| ==> TrackedRow(folder, plan.rows[i], Discovered(folder, plan.rows, names)[i])
  {
    var rows, names := plan.rows, Candidates(plan.rows, |plan.rows|);
    forall i | 0 <= i < |rows|
      ensures Found(folder, rows[i].id, names) != [] && TrackedRow(folder, rows[i], Found(folder, rows[i].id, names)[0])
    {
      FoundTracks(plan, others, folder, i);
    }
  }
}
