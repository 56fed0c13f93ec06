/** The size of the log: what every move adds to it, and what a phase needs at most. */
module RenameLog {
  import opened BatchRename

  lemma BytesAppend(lines: seq<Line>, line: Line)
    ensures Bytes(lines + [line]) == Bytes(lines) + LineSize(line)
  {
    assert (lines + [line])[..|lines|] == lines;
  }

  lemma {:induction false} BytesConcat(a: seq<Line>, b: seq<Line>)
    ensures Bytes(a + b) == Bytes(a) + Bytes(b)
    decreases |b|
  {
    if b == [] {
      assert a + b == a;
    } else {
      var front := b[..|b| - 1];
      assert a + b == (a + front) + [b[|b| - 1]];
      BytesAppend(a + front, b[|b| - 1]);
      BytesConcat(a, front);
    }
  }

  /** The intent and the receipt of one move. */
  function MoveCost(rows: seq<Row>, i: nat, name: Name): nat
    requires i < |rows|
  {
    LineSize(Intent(i, RoleOf(rows[i], name))) + LineSize(Receipt(i, RoleOf(rows[i], name)))
  }

  /** What a phase writes from row `i` on, with the files where `current` says. */
  function PhaseCost(plan: Plan, current: seq<Name>, phase: nat, restore: bool, i: nat): nat
    requires i <= |plan.rows| == |current|
    decreases |plan.rows| - i
  {
    if i == |plan.rows| then 0
    else
      var goal := Goal(plan.rows[i], phase, restore);
      (if Moving(plan.rows[i]) && current[i] != goal then MoveCost(plan.rows, i, goal) else 0)
      + PhaseCost(plan, current, phase, restore, i + 1)
  }

  /** The same with no file in place. */
  function GoalCost(plan: Plan, phase: nat, restore: bool, i: nat): nat
    requires i <= |plan.rows|
    decreases |plan.rows| - i
  {
    if i == |plan.rows| then 0
    else
      (if Moving(plan.rows[i]) then MoveCost(plan.rows, i, Goal(plan.rows[i], phase, restore)) else 0) + GoalCost(plan, phase, restore, i + 1)
  }

  lemma {:induction false} PhaseCostBound(plan: Plan, current: seq<Name>, phase: nat, restore: bool, i: nat)
    requires i <= |plan.rows| == |current|
    ensures PhaseCost(plan, current, phase, restore, i) <= GoalCost(plan, phase, restore, i)
    ensures (forall j :: i <= j < |current| && Moving(plan.rows[j]) ==> current[j] != Goal(plan.rows[j], phase, restore)) ==>
              PhaseCost(plan, current, phase, restore, i) == GoalCost(plan, phase, restore, i)
    decreases |plan.rows| - i
  {
    hide MoveCost;
    if i < |plan.rows| { PhaseCostBound(plan, current, phase, restore, i + 1); }
  }

  /** Only which files are in place matters. */
  lemma {:induction false} PhaseCostSame(plan: Plan, current: seq<Name>, current': seq<Name>, phase: nat, restore: bool, i: nat)
    requires i <= |plan.rows| == |current| == |current'|
    requires forall j :: i <= j < |current| ==>
      (current[j] == Goal(plan.rows[j], phase, restore) <==> current'[j] == Goal(plan.rows[j], phase, restore))
    ensures PhaseCost(plan, current, phase, restore, i) == PhaseCost(plan, current', phase, restore, i)
    decreases |plan.rows| - i
  {
    hide MoveCost;
    if i < |plan.rows| { PhaseCostSame(plan, current, current', phase, restore, i + 1); }
  }

  lemma DigitsOf(n: nat)
    requires n < MAX_ROWS
    ensures Digits(n) <= 5 && (10000 <= n ==> Digits(n) == 5)
  {
    var a, b, c, d := n / 10, n / 100, n / 1000, n / 10000;
    assert a / 10 == b && b / 10 == c && c / 10 == d;
    assert Digits(d) == 1;
    assert Digits(c) <= 2 && (1 <= d ==> Digits(c) == 2);
    assert Digits(b) <= 3 && (1 <= d ==> Digits(b) == 3);
    assert Digits(a) <= 4 && (1 <= d ==> Digits(a) == 4);
  }

  lemma {:induction false} GoalCostBound(plan: Plan, phase: nat, restore: bool, i: nat)
    requires i <= |plan.rows| <= MAX_ROWS
    ensures GoalCost(plan, phase, restore, i) <= 117 * (|plan.rows| - i)
    decreases |plan.rows| - i
  {
    if i < |plan.rows| {
      DigitsOf(i);
      GoalCostBound(plan, phase, restore, i + 1);
    }
  }

  /** The log takes `n` more bytes. */
  predicate Room(plan: Plan, t: Task, n: nat) {
    plan.logged ==> Bytes(t.vault.lines) + n <= LOG_BUDGET
  }

  lemma WrittenAtEnd(v: Vault, log: LogHandle, line: Line, whole: bool)
    requires !log.Stray?
    ensures Written(v, log, line, whole) == if whole then v.(lines := v.lines + [line]) else v
  {
  }

  /** How an append can change the log through a handle at its end. */
  lemma AppendBytes(plan: Plan, t: Task, line: Line)
    requires !t.log.Stray?
    ensures var s := Append(plan, t, line);
      && Bytes(s.task.vault.lines) <= Bytes(t.vault.lines) + LineSize(line)
      && (s.end.Done? && plan.logged ==> Bytes(s.task.vault.lines) == Bytes(t.vault.lines) + LineSize(line))
      && Bytes(t.vault.lines) <= Bytes(s.task.vault.lines)
      && (Bytes(s.task.vault.lines) == Bytes(t.vault.lines) || Bytes(s.task.vault.lines) <= LOG_BUDGET)
      && s.task.log == t.log && s.task.current == t.current && s.task.vault.folder == t.vault.folder
  {
    hide LineSize, Written, Bytes;
    WrittenAtEnd(t.vault, t.log, line, true);
    WrittenAtEnd(t.vault, t.log, line, false);
    BytesAppend(t.vault.lines, line);
  }

  lemma RenameBytes(plan: Plan, t: Task, i: nat, name: Name)
    requires i < |plan.rows| == |t.current|
    ensures var s := Shift(plan, t, i, name);
      && s.task.vault.lines == t.vault.lines && s.task.log == t.log
      && (s.task.current == t.current || s.task.current == t.current[i := name]) && (s.end.Done? ==> s.task.current == t.current[i := name])
  {
  }

  /** A move that is done writes exactly its two lines, and any other at most these. */
  lemma MoveBytes(plan: Plan, t: Task, i: nat, name: Name)
    requires i < |plan.rows| == |t.current| && !t.log.Stray?
    ensures var s := Move(plan, t, i, name);
      && Bytes(t.vault.lines) <= Bytes(s.task.vault.lines) <= Bytes(t.vault.lines) + MoveCost(plan.rows, i, name)
      && (s.end.Done? && plan.logged ==> Bytes(s.task.vault.lines) == Bytes(t.vault.lines) + MoveCost(plan.rows, i, name))
      && s.task.log == t.log
      && (s.task.current == t.current || s.task.current == t.current[i := name]) && (s.end.Done? ==> s.task.current == t.current[i := name])
  {
    hide Append, Shift, LineSize, Bytes;
    var role := RoleOf(plan.rows[i], name);
    AppendBytes(plan, t, Intent(i, role));
    var s1 := Append(plan, t, Intent(i, role));
    if s1.end.Done? {
      RenameBytes(plan, s1.task, i, name);
      var s2 := Shift(plan, s1.task, i, name);
      if s2.end.Done? { AppendBytes(plan, s2.task, Receipt(i, role)); }
    }
  }

  lemma {:induction false} PhaseBytes(plan: Plan, t: Task, phase: nat, restore: bool, i: nat)
    requires i <= |plan.rows| == |t.current| && !t.log.Stray?
    ensures var s := Phase(plan, t, phase, restore, i);
      && Bytes(s.task.vault.lines) <= Bytes(t.vault.lines) + PhaseCost(plan, t.current, phase, restore, i)
      && (s.end.Done? && plan.logged ==> Bytes(s.task.vault.lines) == Bytes(t.vault.lines) + PhaseCost(plan, t.current, phase, restore, i))
      && s.task.log == t.log
    decreases |plan.rows| - i
  {
    hide Move, MoveCost, Bytes;
    if i < |plan.rows| {
      MoveBytes(plan, t, i, Goal(plan.rows[i], phase, restore));
      var s := Advance(plan, t, phase, restore, i);
      if s.end.Done? {
        PhaseBytes(plan, s.task, phase, restore, i + 1);
        PhaseCostSame(plan, t.current, s.task.current, phase, restore, i + 1);
      }
    }
  }

  lemma {:induction false} CoveredIs(lines: seq<Line>, size: nat, n: nat)
    requires n <= |lines|
    ensures var k := Covered(lines, size, n);
      (k == |lines| || Bytes(lines[..k]) == size) && forall i :: n <= i < k ==> Bytes(lines[..i]) != size
    decreases |lines| - n
  {
    if n < |lines| && Bytes(lines[..n]) != size { CoveredIs(lines, size, n + 1); }
  }

  /** What a line written over the start of a log of whole lines leaves: if it ends where one of
      them ended, or behind them all, it replaces exactly these lines; otherwise the log
      cannot be read any more. A part of a line always destroys it. */
  lemma OverwrittenExactly(v: Vault, line: Line, whole: bool)
    requires v.readable && v.lines != []
    ensures var w, size := Written(v, Stray, line, whole), LineSize(line);
      && (w.readable <==> whole && (size >= Bytes(v.lines) || exists k :: 0 <= k < |v.lines| && Bytes(v.lines[..k]) == size))
      && (w.readable ==>
            exists k :: (&& 0 <= k <= |v.lines| && w.lines == [line] + v.lines[k..]
                         && (Bytes(v.lines[..k]) == size || (k == |v.lines| && Bytes(v.lines) < size))))
      && w.folder == v.folder
  {
    var size, k := LineSize(line), Covered(v.lines, LineSize(line), 0);
    CoveredIs(v.lines, size, 0);
    assert v.lines[..|v.lines|] == v.lines;
    if k == |v.lines| && whole && !EndsInside(v.lines, size) {
      assert Bytes(v.lines) <= size;
    }
  }
}
