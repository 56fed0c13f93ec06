/** Ranks of rows under a column sort: sorting a new tail into an existing order, and moving
    the archive row behind the parent row. Rows are numbers, compared by a total preorder. */
module SortRanks {

  type Before = (int, int) -> bool

  ghost predicate Preorder(leq: Before) {
    (forall a, b :: leq(a, b) || leq(b, a)) && (forall a, b, c :: leq(a, b) && leq(b, c) ==> leq(a, c))
  }

  /** The order of a stable sort: equal rows keep the order of their numbers. */
  predicate Precedes(leq: Before, a: int, b: int) {
    leq(a, b) && (leq(b, a) ==> a <= b)
  }

  ghost predicate Ordered(leq: Before, rows: seq<int>) {
    forall i, j :: 0 <= i < j < |rows| ==> Precedes(leq, rows[i], rows[j])
  }

  function Rows(from: int, to: int): (rows: seq<int>)
    requires from <= to
    ensures |rows| == to - from
  {
    seq(to - from, i requires 0 <= i < to - from => from + i)
  }

  /** Puts `row` behind everything that does not come after it. */
  function Insert(leq: Before, rows: seq<int>, row: int): (r: seq<int>)
    ensures |r| == |rows| + 1
  {
    if rows == [] || leq(rows[|rows| - 1], row) then rows + [row]
    else Insert(leq, rows[..|rows| - 1], row) + [rows[|rows| - 1]]
  }

  function StableSort(leq: Before, rows: seq<int>): (r: seq<int>)
    ensures |r| == |rows|
  {
    if rows == [] then [] else Insert(leq, StableSort(leq, rows[..|rows| - 1]), rows[|rows| - 1])
  }

  /** Merging, with the left side first among equals. */
  function Merge(leq: Before, a: seq<int>, b: seq<int>): seq<int>
    decreases |a| + |b|
  {
    if a == [] then b
    else if b == [] then a
    else if leq(a[0], b[0]) then [a[0]] + Merge(leq, a[1..], b)
    else [b[0]] + Merge(leq, a, b[1..])
  }

  // -------------------------------------------------- sorting is determined

  lemma PrecedesTotal(leq: Before, a: int, b: int, c: int)
    requires Preorder(leq)
    ensures Precedes(leq, a, b) && Precedes(leq, b, a) ==> a == b
    ensures Precedes(leq, a, b) && Precedes(leq, b, c) ==> Precedes(leq, a, c)
  {
  }

  lemma {:induction false} InsertHas(leq: Before, rows: seq<int>, row: int)
    ensures multiset(Insert(leq, rows, row)) == multiset(rows) + multiset{row}
  {
    if rows != [] && !leq(rows[|rows| - 1], row) {
      InsertHas(leq, rows[..|rows| - 1], row);
      assert rows == rows[..|rows| - 1] + [rows[|rows| - 1]];
    }
  }

  ghost predicate AllBelow(rows: seq<int>, row: int) {
    forall i :: 0 <= i < |rows| ==> rows[i] < row
  }

  lemma {:induction false} InsertOrdered(leq: Before, rows: seq<int>, row: int)
    requires Preorder(leq) && Ordered(leq, rows) && AllBelow(rows, row)
    ensures Ordered(leq, Insert(leq, rows, row))
  {
    if rows == [] || leq(rows[|rows| - 1], row) {
      var all := rows + [row];
      forall i | 0 <= i < |rows|
        ensures Precedes(leq, all[i], row)
      {
        assert rows[i] < row && (i < |rows| - 1 ==> Precedes(leq, rows[i], rows[|rows| - 1]));
      }
    } else {
      var init, last := rows[..|rows| - 1], rows[|rows| - 1];
      assert rows == init + [last];
      InsertOrdered(leq, init, row);
      InsertHas(leq, init, row);
      var all := Insert(leq, rows, row);
      forall i | 0 <= i < |rows|
        ensures Precedes(leq, all[i], last)
      {
        assert all[i] == Insert(leq, init, row)[i] && all[i] in multiset(Insert(leq, init, row));
        if all[i] in multiset(init) {
          var k :| 0 <= k < |init| && init[k] == all[i];
          assert Precedes(leq, rows[k], rows[|rows| - 1]);
        }
      }
    }
  }

  lemma {:induction false} SortHas(leq: Before, rows: seq<int>)
    ensures multiset(StableSort(leq, rows)) == multiset(rows)
  {
    if rows != [] {
      SortHas(leq, rows[..|rows| - 1]);
      InsertHas(leq, StableSort(leq, rows[..|rows| - 1]), rows[|rows| - 1]);
      assert rows == rows[..|rows| - 1] + [rows[|rows| - 1]];
    }
  }

  ghost predicate Increasing(rows: seq<int>) {
    forall i, j :: 0 <= i < j < |rows| ==> rows[i] < rows[j]
  }

  lemma {:induction false} SortOrdered(leq: Before, rows: seq<int>)
    requires Preorder(leq) && Increasing(rows)
    ensures Ordered(leq, StableSort(leq, rows))
  {
    if rows != [] {
      var init, last := rows[..|rows| - 1], rows[|rows| - 1];
      SortOrdered(leq, init);
      SortHas(leq, init);
      forall i | 0 <= i < |init|
        ensures StableSort(leq, init)[i] < last
      {
        assert StableSort(leq, init)[i] in multiset(init);
        var k :| 0 <= k < |init| && init[k] == StableSort(leq, init)[i];
        assert rows[k] < rows[|rows| - 1];
      }
      InsertOrdered(leq, StableSort(leq, init), last);
    }
  }

  /** The first row of a stable sort is determined by the rows. */
  lemma FirstSame(leq: Before, a: seq<int>, b: seq<int>)
    requires Preorder(leq) && Ordered(leq, a) && Ordered(leq, b) && multiset(a) == multiset(b) && a != []
    ensures b != [] && a[0] == b[0]
  {
    assert a[0] in multiset(b) && |multiset(a)| == |multiset(b)|;
    var i :| 0 <= i < |b| && b[i] == a[0];
    assert b[0] in multiset(a);
    var j :| 0 <= j < |a| && a[j] == b[0];
    if i > 0 && j > 0 {
      assert Precedes(leq, b[0], b[i]) && Precedes(leq, a[0], a[j]);
      PrecedesTotal(leq, a[0], b[0], a[0]);
    }
  }

  lemma TailOrdered(leq: Before, a: seq<int>)
    requires Ordered(leq, a) && a != []
    ensures Ordered(leq, a[1..]) && multiset(a[1..]) == multiset(a) - multiset{a[0]}
  {
    assert a == [a[0]] + a[1..];
  }

  /** Two orders of the same rows that are both stable sorts are the same. */
  lemma {:induction false} OrderUnique(leq: Before, a: seq<int>, b: seq<int>)
    requires Preorder(leq) && Ordered(leq, a) && Ordered(leq, b) && multiset(a) == multiset(b)
    ensures a == b
    decreases |a|
  {
    hide Preorder, Ordered;
    if a == [] {
      assert |multiset(a)| == |multiset(b)|;
    } else {
      FirstSame(leq, a, b);
      TailOrdered(leq, a);
      TailOrdered(leq, b);
      OrderUnique(leq, a[1..], b[1..]);
    }
  }

  lemma {:induction false} MergeHas(leq: Before, a: seq<int>, b: seq<int>)
    ensures multiset(Merge(leq, a, b)) == multiset(a) + multiset(b)
    decreases |a| + |b|
  {
    if a != [] && b != [] {
      assert a == [a[0]] + a[1..] && b == [b[0]] + b[1..];
      if leq(a[0], b[0]) { MergeHas(leq, a[1..], b); } else { MergeHas(leq, a, b[1..]); }
    }
  }

  /** Every row of `a` has a smaller number than every row of `b`. */
  ghost predicate Below(a: seq<int>, b: seq<int>) {
    forall i, j :: 0 <= i < |a| && 0 <= j < |b| ==> a[i] < b[j]
  }

  lemma {:induction false} MergeOrdered(leq: Before, a: seq<int>, b: seq<int>)
    requires Preorder(leq) && Ordered(leq, a) && Ordered(leq, b) && Below(a, b)
    ensures Ordered(leq, Merge(leq, a, b))
    decreases |a| + |b|
  {
    if a != [] && b != [] {
      HeadFirst(leq, a, b);
      if leq(a[0], b[0]) {
        MergeOrdered(leq, a[1..], b);
        FirstOrdered(leq, a[0], a[1..], b, Merge(leq, a[1..], b));
      } else {
        MergeOrdered(leq, a, b[1..]);
        FirstOrdered(leq, b[0], a, b[1..], Merge(leq, a, b[1..]));
      }
    }
  }

  /** The smaller of two heads comes before everything else. */
  lemma HeadFirst(leq: Before, a: seq<int>, b: seq<int>)
    requires Preorder(leq) && Ordered(leq, a) && Ordered(leq, b) && Below(a, b) && a != [] && b != []
    ensures Ordered(leq, a[1..]) && Ordered(leq, b[1..]) && Below(a[1..], b) && Below(a, b[1..])
    ensures leq(a[0], b[0]) ==> forall x :: x in a[1..] || x in b ==> Precedes(leq, a[0], x)
    ensures !leq(a[0], b[0]) ==> forall x :: x in a || x in b[1..] ==> Precedes(leq, b[0], x)
  {
    TailOrdered(leq, a);
    TailOrdered(leq, b);
    forall x | x in a[1..]
      ensures Precedes(leq, a[0], x) && x < b[0]
    {
      var i :| 0 <= i < |a[1..]| && a[1..][i] == x;
      assert a[i + 1] == x;
    }
    forall x | x in b[1..]
      ensures Precedes(leq, b[0], x) && a[0] < x
    {
      var i :| 0 <= i < |b[1..]| && b[1..][i] == x;
      assert b[i + 1] == x;
    }
    assert a[0] < b[0] && a == [a[0]] + a[1..] && b == [b[0]] + b[1..];
  }

  /** A row that comes before everything may stand first. */
  lemma FirstOrdered(leq: Before, row: int, a: seq<int>, b: seq<int>, rest: seq<int>)
    requires Preorder(leq) && Ordered(leq, rest) && rest == Merge(leq, a, b)
    requires forall x :: x in a || x in b ==> Precedes(leq, row, x)
    ensures Ordered(leq, [row] + rest)
  {
    MergeHas(leq, a, b);
    forall i | 0 <= i < |rest|
      ensures Precedes(leq, row, rest[i])
    {
      assert rest[i] in multiset(a) + multiset(b);
    }
  }

  /** Sorting the rows from `first` on and merging them into the sorted rows before gives the
      stable sort of all rows. */
  lemma MergeIsSort(leq: Before, first: nat, count: nat)
    requires Preorder(leq) && first <= count
    ensures Merge(leq, StableSort(leq, Rows(0, first)), StableSort(leq, Rows(first, count))) == StableSort(leq, Rows(0, count))
  {
    hide StableSort, Merge, Ordered, Preorder;
    var a, b := StableSort(leq, Rows(0, first)), StableSort(leq, Rows(first, count));
    SortOrdered(leq, Rows(0, first));
    SortOrdered(leq, Rows(first, count));
    SortOrdered(leq, Rows(0, count));
    SortHas(leq, Rows(0, first));
    SortHas(leq, Rows(first, count));
    SortHas(leq, Rows(0, count));
    SortsBelow(a, b, first, count);
    MergeOrdered(leq, a, b);
    MergeHas(leq, a, b);
    assert Rows(0, count) == Rows(0, first) + Rows(first, count);
    OrderUnique(leq, Merge(leq, a, b), StableSort(leq, Rows(0, count)));
  }

  lemma SortsBelow(a: seq<int>, b: seq<int>, first: nat, count: nat)
    requires first <= count && multiset(a) == multiset(Rows(0, first)) && multiset(b) == multiset(Rows(first, count))
    ensures Below(a, b)
  {
    forall i, j | 0 <= i < |a| && 0 <= j < |b|
      ensures a[i] < b[j]
    {
      assert a[i] in multiset(a) && b[j] in multiset(b);
      assert a[i] in Rows(0, first) && b[j] in Rows(first, count);
    }
  }

  // ------------------------------------------------------------------- ranks

  /** `ranks` says of every row its place in `order`. */
  ghost predicate RanksOf(ranks: seq<nat>, order: seq<int>) {
    && |ranks| == |order|
    && (forall r :: 0 <= r < |order| ==> 0 <= order[r] < |order| && ranks[order[r]] == r)
    && (forall row :: 0 <= row < |ranks| ==> ranks[row] < |order| && order[ranks[row]] == row)
  }

  /** An order lists every row once. */
  ghost predicate Listing(order: seq<int>) {
    && (forall r :: 0 <= r < |order| ==> 0 <= order[r] < |order|)
    && (forall i, j :: 0 <= i < j < |order| ==> order[i] != order[j])
    && (forall row :: 0 <= row < |order| ==> row in order)
  }

  lemma SortLists(leq: Before, count: nat)
    ensures Listing(StableSort(leq, Rows(0, count)))
  {
    SortHas(leq, Rows(0, count));
    var order, rows := StableSort(leq, Rows(0, count)), Rows(0, count);
    forall r | 0 <= r < count
      ensures 0 <= order[r] < count && r in order
    {
      assert order[r] in multiset(rows) && rows[r] in multiset(order);
    }
    forall i, j | 0 <= i < j < count
      ensures order[i] != order[j]
    {
      RowsOnce(count, order[i]);
      if order[i] == order[j] { TwiceCounts(order, i, j); }
    }
  }

  lemma {:induction false} RowsOnce(count: nat, row: int)
    ensures multiset(Rows(0, count))[row] <= 1
  {
    if count > 0 {
      RowsOnce(count - 1, row);
      assert Rows(0, count) == Rows(0, count - 1) + [count - 1];
      assert count - 1 !in Rows(0, count - 1);
    }
  }

  lemma TwiceCounts(order: seq<int>, i: nat, j: nat)
    requires i < j < |order| && order[i] == order[j]
    ensures multiset(order)[order[i]] >= 2
  {
    assert order == order[..j] + [order[j]] + order[j + 1..];
    assert order[i] in order[..j];
  }

  /** Brings the ranks up to date: rows below `first` keep their order, and the others are
      sorted and merged into it. With `first` 0 everything is sorted anew. */
  method RefreshRanks(leq: Before, ranks: seq<nat>, first: nat, count: nat) returns (updated: seq<nat>)
    requires Preorder(leq) && first <= count
    requires first > 0 ==> RanksOf(ranks, StableSort(leq, Rows(0, first)))
    ensures RanksOf(updated, StableSort(leq, Rows(0, count)))
  {
    hide Preorder, StableSort, Merge, Listing;
    var order := new int[count];
    ghost var before := StableSort(leq, Rows(0, first));
    for row := 0 to first
      invariant forall r :: 0 <= r < row ==> order[ranks[r]] == r
    {
      order[ranks[row]] := row;
    }
    assert order[..first] == before by {
      forall r | 0 <= r < first
        ensures order[r] == before[r]
      {
        assert ranks[before[r]] == r;
      }
    }
    var tail := StableSort(leq, Rows(first, count));
    var sorted := Merge(leq, order[..first], tail);
    MergeIsSort(leq, first, count);
    SortLists(leq, count);
    updated := Inverse(sorted);
  }

  method Inverse(order: seq<int>) returns (ranks: seq<nat>)
    requires Listing(order)
    ensures RanksOf(ranks, order)
  {
    var places := new nat[|order|];
    for rank := 0 to |order|
      invariant forall r :: 0 <= r < rank ==> places[order[r]] == r
    {
      places[order[rank]] := rank;
    }
    ranks := places[..];
    forall row | 0 <= row < |order|
      ensures ranks[row] < |order| && order[ranks[row]] == row
    {
      assert row in order;
      var r :| 0 <= r < |order| && order[r] == row;
      assert places[order[r]] == r;
    }
  }

  // -------------------------------------------------------- the archive row

  /** Moves row `row` to place `place`, and everything from there to its old place one down. */
  function Shifted(ranks: seq<nat>, row: nat, place: nat): (r: seq<nat>)
    requires row < |ranks|
    ensures |r| == |ranks|
  {
    seq(|ranks|, i requires 0 <= i < |ranks| =>
      if i == row then place else if place <= ranks[i] < ranks[row] then ranks[i] + 1 else ranks[i])
  }

  ghost predicate Permutation(ranks: seq<nat>) {
    && (forall i :: 0 <= i < |ranks| ==> ranks[i] < |ranks|)
    && (forall i, j :: 0 <= i < j < |ranks| ==> ranks[i] != ranks[j])
  }

  /** The loop over the ranks, in place. */
  method ShiftInPlace(ranks: array<nat>, row: nat, place: nat)
    requires row < ranks.Length
    modifies ranks
    ensures ranks[..] == Shifted(old(ranks[..]), row, place)
  {
    var was := ranks[row];
    for i := 0 to ranks.Length
      invariant forall k :: i <= k < ranks.Length ==> ranks[k] == old(ranks[k])
      invariant forall k :: 0 <= k < i ==> ranks[k] == if place <= old(ranks[k]) < was then old(ranks[k]) + 1 else old(ranks[k])
    {
      if place <= ranks[i] < was { ranks[i] := ranks[i] + 1; }
    }
    ranks[row] := place;
  }
}
