/** The synthetic archive rows of a folder view stay behind the parent rows in every column
    sort: one after the other is moved up there, and all ranks between make room. */
module ArchiveRows {
  import opened SortRanks

  /** How many of the first `n` rows are marked. */
  function Count(marked: seq<bool>, n: nat): nat
    requires n <= |marked|
  {
    if n == 0 then 0 else Count(marked, n - 1) + if marked[n - 1] then 1 else 0
  }

  /** Parent rows rank above all others. */
  ghost predicate ParentsFirst(ranks: seq<nat>, parent: seq<bool>)
    requires |parent| == |ranks|
  {
    forall i, j :: 0 <= i < |ranks| && 0 <= j < |ranks| && parent[i] && !parent[j] ==> ranks[i] < ranks[j]
  }

  /** A comparison that puts parent rows before all others makes them rank above. */
  lemma SortedParentsFirst(leq: Before, ranks: seq<nat>, parent: seq<bool>)
    requires Preorder(leq) && RanksOf(ranks, StableSort(leq, Rows(0, |ranks|))) && |parent| == |ranks|
    requires forall i, j :: 0 <= i < |parent| && 0 <= j < |parent| && parent[i] && !parent[j] ==> !leq(j, i)
    ensures Permutation(ranks) && ParentsFirst(ranks, parent)
  {
    var order := StableSort(leq, Rows(0, |ranks|));
    SortOrdered(leq, Rows(0, |ranks|));
    forall i, j | 0 <= i < |ranks| && 0 <= j < |ranks| && parent[i] && !parent[j]
      ensures ranks[i] < ranks[j]
    {
      assert order[ranks[i]] == i && order[ranks[j]] == j;
      assert ranks[j] < ranks[i] ==> Precedes(leq, order[ranks[j]], order[ranks[i]]);
    }
    forall i, j | 0 <= i < j < |ranks|
      ensures ranks[i] != ranks[j]
    {
      assert order[ranks[i]] == i && order[ranks[j]] == j;
    }
  }

  // ---------------------------------------------------------------- counting

  function RanksWhere(ranks: seq<nat>, marked: seq<bool>, wanted: bool, n: nat): set<nat>
    requires n <= |ranks| == |marked|
  {
    set i | 0 <= i < n && marked[i] == wanted :: ranks[i]
  }

  lemma {:induction false} RanksCounted(ranks: seq<nat>, marked: seq<bool>, wanted: bool, n: nat)
    requires Permutation(ranks) && n <= |ranks| == |marked|
    ensures |RanksWhere(ranks, marked, wanted, n)| == if wanted then Count(marked, n) else n - Count(marked, n)
    decreases n
  {
    if n > 0 {
      RanksCounted(ranks, marked, wanted, n - 1);
      OneMoreRank(ranks, marked, wanted, n - 1);
    }
  }

  lemma OneMoreRank(ranks: seq<nat>, marked: seq<bool>, wanted: bool, n: nat)
    requires Permutation(ranks) && n < |ranks| == |marked|
    ensures var s := RanksWhere(ranks, marked, wanted, n);
      ranks[n] !in s && RanksWhere(ranks, marked, wanted, n + 1) == if marked[n] == wanted then s + {ranks[n]} else s
  {
    var s := RanksWhere(ranks, marked, wanted, n);
    forall x | x in RanksWhere(ranks, marked, wanted, n + 1)
      ensures x in s || (marked[n] == wanted && x == ranks[n])
    {
      var i :| 0 <= i < n + 1 && marked[i] == wanted && ranks[i] == x;
      assert i < n ==> ranks[i] in s;
    }
  }

  lemma {:induction false} Interval(lo: nat, hi: nat, s: set<nat>)
    requires lo <= hi && forall x :: x in s ==> lo <= x < hi
    ensures |s| <= hi - lo
    decreases hi - lo
  {
    if lo == hi {
      assert s == {};
    } else if hi - 1 in s {
      assert s == (s - {hi - 1}) + {hi - 1};
      Interval(lo, hi - 1, s - {hi - 1});
    } else {
      Interval(lo, hi - 1, s);
    }
  }

  /** The parent rows have exactly the first ranks. */
  lemma ParentsTakeFirst(ranks: seq<nat>, parent: seq<bool>)
    requires Permutation(ranks) && |parent| == |ranks| && ParentsFirst(ranks, parent)
    ensures forall i :: 0 <= i < |ranks| ==> (parent[i] <==> ranks[i] < Count(parent, |parent|))
  {
    var n := |ranks|;
    RanksCounted(ranks, parent, true, n);
    RanksCounted(ranks, parent, false, n);
    forall i | 0 <= i < n
      ensures parent[i] <==> ranks[i] < Count(parent, n)
    {
      if parent[i] { Interval(ranks[i] + 1, n, RanksWhere(ranks, parent, false, n)); }
      else { Interval(0, ranks[i], RanksWhere(ranks, parent, true, n)); }
    }
  }

  // ---------------------------------------------------------------- the loop

  /** The archive rows among the first `n`, moved to `place` one after the other. */
  function ShiftedAll(ranks: seq<nat>, archive: seq<bool>, place: nat, n: nat): (r: seq<nat>)
    requires n <= |archive| == |ranks|
    ensures |r| == |ranks|
  {
    if n == 0 then ranks
    else
      var before := ShiftedAll(ranks, archive, place, n - 1);
      if archive[n - 1] then Shifted(before, n - 1, place) else before
  }

  /** Parents have not moved, and nothing else has come before them. */
  ghost predicate ParentsStay(ranks: seq<nat>, now: seq<nat>, parent: seq<bool>)
    requires |parent| == |ranks| == |now|
  {
    forall i :: 0 <= i < |ranks| ==> if parent[i] then now[i] == ranks[i] < Count(parent, |parent|) else now[i] >= Count(parent, |parent|)
  }

  predicate Done(archive: seq<bool>, n: nat, i: int)
    requires 0 <= i < |archive|
  {
    archive[i] && i < n
  }

  /** Rows that are not moved archive rows keep their order. */
  ghost predicate SameOrder(ranks: seq<nat>, now: seq<nat>, archive: seq<bool>, n: nat)
    requires |archive| == |ranks| == |now|
  {
    forall i, j :: 0 <= i < |ranks| && 0 <= j < |ranks| && !Done(archive, n, i) && !Done(archive, n, j) ==> (now[i] < now[j] <==> ranks[i] < ranks[j])
  }

  /** Moved archive rows come before all other rows that are not parents, later ones first. */
  ghost predicate InFront(now: seq<nat>, parent: seq<bool>, archive: seq<bool>, n: nat)
    requires |parent| == |archive| == |now|
  {
    && (forall a, j :: 0 <= a < |now| && 0 <= j < |now| && Done(archive, n, a) && !parent[j] && !Done(archive, n, j) ==> now[a] < now[j])
    && (forall a, b :: 0 <= a < b < |now| && Done(archive, n, a) && Done(archive, n, b) ==> now[b] < now[a])
  }

  ghost predicate Placed(ranks: seq<nat>, now: seq<nat>, parent: seq<bool>, archive: seq<bool>, n: nat)
    requires |parent| == |archive| == |ranks| == |now|
  {
    Permutation(now) && ParentsStay(ranks, now, parent) && SameOrder(ranks, now, archive, n) && InFront(now, parent, archive, n)
  }

  /** What one more archive row changes: it takes the first place behind the parents. */
  lemma MovedUp(ranks: seq<nat>, parent: seq<bool>, row: nat)
    requires row < |parent| == |ranks| && Permutation(ranks) && !parent[row]
    requires forall i :: 0 <= i < |ranks| ==> (parent[i] <==> ranks[i] < Count(parent, |parent|))
    ensures var next := Shifted(ranks, row, Count(parent, |parent|));
      && Permutation(next) && next[row] == Count(parent, |parent|)
      && (forall i :: 0 <= i < |ranks| && parent[i] ==> next[i] == ranks[i])
      && (forall i :: 0 <= i < |ranks| && !parent[i] && i != row ==> next[i] > next[row])
      && (forall i, j :: 0 <= i < |ranks| && 0 <= j < |ranks| && i != row && j != row ==> (next[i] < next[j] <==> ranks[i] < ranks[j]))
  {
    ShiftUp(ranks, row, Count(parent, |parent|));
    forall i | 0 <= i < |ranks| && i != row
      ensures ranks[i] != ranks[row]
    {
      assert if i < row then ranks[i] != ranks[row] else ranks[row] != ranks[i];
    }
  }

  lemma PlacedNext(ranks: seq<nat>, now: seq<nat>, parent: seq<bool>, archive: seq<bool>, n: nat)
    requires n < |parent| == |archive| == |ranks| == |now|
    requires Placed(ranks, now, parent, archive, n) && archive[n] && forall i :: 0 <= i < |archive| && archive[i] ==> !parent[i]
    ensures Placed(ranks, Shifted(now, n, Count(parent, |parent|)), parent, archive, n + 1)
  {
    hide Permutation, Shifted, Count, SameOrder, InFront;
    MovedUp(now, parent, n);
    var next := Shifted(now, n, Count(parent, |parent|));
    OrderNext(ranks, now, next, archive, n);
    FrontNext(now, next, parent, archive, n);
  }

  lemma OrderNext(ranks: seq<nat>, now: seq<nat>, next: seq<nat>, archive: seq<bool>, n: nat)
    requires n < |archive| == |ranks| == |now| == |next| && archive[n] && SameOrder(ranks, now, archive, n)
    requires forall i, j :: 0 <= i < |ranks| && 0 <= j < |ranks| && i != n && j != n ==> (next[i] < next[j] <==> now[i] < now[j])
    ensures SameOrder(ranks, next, archive, n + 1)
  {
    forall i, j | 0 <= i < |ranks| && 0 <= j < |ranks| && !Done(archive, n + 1, i) && !Done(archive, n + 1, j)
      ensures next[i] < next[j] <==> ranks[i] < ranks[j]
    {
      assert !Done(archive, n, i) && !Done(archive, n, j);
    }
  }

  lemma FrontNext(now: seq<nat>, next: seq<nat>, parent: seq<bool>, archive: seq<bool>, n: nat)
    requires n < |parent| == |archive| == |now| == |next| && archive[n] && InFront(now, parent, archive, n)
    requires forall i :: 0 <= i < |archive| && archive[i] ==> !parent[i]
    requires forall i :: 0 <= i < |now| && !parent[i] && i != n ==> next[i] > next[n]
    requires forall i, j :: 0 <= i < |now| && 0 <= j < |now| && i != n && j != n ==> (next[i] < next[j] <==> now[i] < now[j])
    ensures InFront(next, parent, archive, n + 1)
  {
    forall a, j | 0 <= a < |now| && 0 <= j < |now| && Done(archive, n + 1, a) && !parent[j] && !Done(archive, n + 1, j)
      ensures next[a] < next[j]
    {
      assert j != n && !Done(archive, n, j) && (a != n ==> Done(archive, n, a));
    }
    forall a, b | 0 <= a < b < |now| && Done(archive, n + 1, a) && Done(archive, n + 1, b)
      ensures next[b] < next[a]
    {
      assert a != n && Done(archive, n, a) && (b != n ==> Done(archive, n, b));
    }
  }

  lemma NothingDone(now: seq<nat>, parent: seq<bool>, archive: seq<bool>, ranks: seq<nat>)
    requires |parent| == |archive| == |now| == |ranks|
    ensures InFront(now, parent, archive, 0) && SameOrder(ranks, ranks, archive, 0)
  {
  }

  lemma NotDone(ranks: seq<nat>, now: seq<nat>, parent: seq<bool>, archive: seq<bool>, n: nat)
    requires n < |parent| == |archive| == |ranks| == |now| && !archive[n] && Placed(ranks, now, parent, archive, n)
    ensures Placed(ranks, now, parent, archive, n + 1)
  {
    forall i | 0 <= i < |archive|
      ensures Done(archive, n + 1, i) <==> Done(archive, n, i)
    {
    }
    hide Permutation, ParentsStay, Done;
  }

  /** A row that moves up leaves a permutation, and the order of all others. */
  lemma ShiftUp(ranks: seq<nat>, row: nat, place: nat)
    requires Permutation(ranks) && row < |ranks| && place <= ranks[row]
    ensures Permutation(Shifted(ranks, row, place)) && Shifted(ranks, row, place)[row] == place
    ensures forall i, j :: 0 <= i < |ranks| && 0 <= j < |ranks| && i != row && j != row ==>
      (Shifted(ranks, row, place)[i] < Shifted(ranks, row, place)[j] <==> ranks[i] < ranks[j])
  {
    var r := Shifted(ranks, row, place);
    forall i, j | 0 <= i < j < |ranks|
      ensures r[i] != r[j]
    {
      assert ranks[i] != ranks[j];
    }
    forall i | 0 <= i < |ranks|
      ensures r[i] < |ranks|
    {
      assert ranks[row] < |ranks|;
    }
  }

  lemma {:induction false} LoopPlaces(ranks: seq<nat>, parent: seq<bool>, archive: seq<bool>, n: nat)
    requires n <= |parent| == |archive| == |ranks|
    requires Permutation(ranks) && ParentsFirst(ranks, parent) && forall i :: 0 <= i < |archive| && archive[i] ==> !parent[i]
    ensures Placed(ranks, ShiftedAll(ranks, archive, Count(parent, |parent|), n), parent, archive, n)
    decreases n
  {
    hide Permutation, Shifted, Count, SameOrder, InFront, ParentsFirst;
    if n == 0 {
      ParentsTakeFirst(ranks, parent);
      NothingDone(ranks, parent, archive, ranks);
    } else {
      hide ParentsStay, Placed;
      LoopPlaces(ranks, parent, archive, n - 1);
      var before := ShiftedAll(ranks, archive, Count(parent, |parent|), n - 1);
      if archive[n - 1] { PlacedNext(ranks, before, parent, archive, n - 1); }
      else { NotDone(ranks, before, parent, archive, n - 1); }
    }
  }

  /** After a column sort that puts parent rows first, moving every archive row behind them
      always leaves a permutation of the ranks: parents stay where they were, then come the
      archive rows, and all other rows follow in their sorted order. */
  lemma ArchiveRowsFollowParents(leq: Before, ranks: seq<nat>, parent: seq<bool>, archive: seq<bool>)
    requires Preorder(leq) && RanksOf(ranks, StableSort(leq, Rows(0, |ranks|))) && |parent| == |archive| == |ranks|
    requires forall i, j :: 0 <= i < |parent| && 0 <= j < |parent| && parent[i] && !parent[j] ==> !leq(j, i)
    requires forall i :: 0 <= i < |archive| && archive[i] ==> !parent[i]
    ensures var now, n := ShiftedAll(ranks, archive, Count(parent, |parent|), |ranks|), |ranks|;
      Permutation(now) && ParentsStay(ranks, now, parent) && SameOrder(ranks, now, archive, n) && InFront(now, parent, archive, n)
  {
    hide Preorder, StableSort, RanksOf, Permutation, Shifted, Count, ParentsFirst, ParentsStay, SameOrder, InFront;
    SortedParentsFirst(leq, ranks, parent);
    LoopPlaces(ranks, parent, archive, |ranks|);
  }

  /** The loop over the rows, in place. */
  method PlaceArchiveRows(ranks: array<nat>, parent: seq<bool>, archive: seq<bool>)
    requires |parent| == |archive| == ranks.Length
    modifies ranks
    ensures ranks[..] == ShiftedAll(old(ranks[..]), archive, Count(parent, |parent|), |parent|)
  {
    var first := 0;
    for row := 0 to |parent|
      invariant first == Count(parent, row)
    {
      if parent[row] { first := first + 1; }
    }
    for row := 0 to |archive|
      invariant ranks[..] == ShiftedAll(old(ranks[..]), archive, first, row)
    {
      if archive[row] { ShiftInPlace(ranks, row, first); }
    }
  }
}
