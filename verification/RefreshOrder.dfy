/** Refreshing a directory listing: files that stay keep their order, new ones follow. The
    two listings are joined page by page in one pass over their keys.

    Keys are only compared, so integers stand for them. The external sorter is a stable sort. */
module RefreshOrder {

  /** A row with its selection key and its order hint. */
  datatype Entry = Entry(key: int, data: nat, hint: nat)

  function Key(e: Entry): int { e.key }

  function Hint(e: Entry): int { e.hint }

  // ----------------------------------------------------------------- sorting

  /** Puts `x` after everything that ranks no higher. */
  function Insert(sorted: seq<Entry>, x: Entry, rank: Entry -> int): (r: seq<Entry>)
    ensures |r| == |sorted| + 1
  {
    if sorted == [] || rank(sorted[|sorted| - 1]) <= rank(x) then sorted + [x]
    else Insert(sorted[..|sorted| - 1], x, rank) + [sorted[|sorted| - 1]]
  }

  function Sort(xs: seq<Entry>, rank: Entry -> int): (r: seq<Entry>)
    ensures |r| == |xs|
  {
    if xs == [] then [] else Insert(Sort(xs[..|xs| - 1], rank), xs[|xs| - 1], rank)
  }

  ghost predicate Sorted(xs: seq<Entry>, rank: Entry -> int) {
    forall i, j :: 0 <= i <= j < |xs| ==> rank(xs[i]) <= rank(xs[j])
  }

  lemma {:induction false} InsertHas(sorted: seq<Entry>, x: Entry, rank: Entry -> int, e: Entry)
    ensures e in Insert(sorted, x, rank) <==> e in sorted || e == x
  {
    if sorted != [] && rank(sorted[|sorted| - 1]) > rank(x) {
      assert sorted == sorted[..|sorted| - 1] + [sorted[|sorted| - 1]];
      InsertHas(sorted[..|sorted| - 1], x, rank, e);
    }
  }

  lemma {:induction false} InsertSorts(sorted: seq<Entry>, x: Entry, rank: Entry -> int)
    requires Sorted(sorted, rank)
    ensures Sorted(Insert(sorted, x, rank), rank)
  {
    if sorted != [] && rank(sorted[|sorted| - 1]) > rank(x) {
      var init, last := sorted[..|sorted| - 1], sorted[|sorted| - 1];
      InsertSorts(init, x, rank);
      forall i | 0 <= i < |sorted|
        ensures rank(Insert(init, x, rank)[i]) <= rank(last)
      {
        InsertHas(init, x, rank, Insert(init, x, rank)[i]);
      }
    }
  }

  lemma {:induction false} SortHas(xs: seq<Entry>, rank: Entry -> int, e: Entry)
    ensures e in Sort(xs, rank) <==> e in xs
  {
    if xs != [] {
      assert xs == xs[..|xs| - 1] + [xs[|xs| - 1]];
      SortHas(xs[..|xs| - 1], rank, e);
      InsertHas(Sort(xs[..|xs| - 1], rank), xs[|xs| - 1], rank, e);
    }
  }

  lemma {:induction false} SortSorts(xs: seq<Entry>, rank: Entry -> int)
    ensures Sorted(Sort(xs, rank), rank)
  {
    if xs != [] {
      SortSorts(xs[..|xs| - 1], rank);
      InsertSorts(Sort(xs[..|xs| - 1], rank), xs[|xs| - 1], rank);
    }
  }

  /** The first row with a key, if there is one. */
  function First(xs: seq<Entry>, key: int): (found: seq<Entry>)
    ensures |found| <= 1
    ensures found != [] ==> found[0] in xs && found[0].key == key
    ensures found == [] <==> forall e :: e in xs ==> e.key != key
  {
    if xs == [] then []
    else
      assert xs == [xs[0]] + xs[1..];
      if xs[0].key == key then [xs[0]] else First(xs[1..], key)
  }

  lemma {:induction false} FirstConcat(a: seq<Entry>, b: seq<Entry>, key: int)
    ensures First(a + b, key) == if First(a, key) != [] then First(a, key) else First(b, key)
  {
    if a == [] {
      assert a + b == b;
    } else {
      assert (a + b)[1..] == a[1..] + b;
      FirstConcat(a[1..], b, key);
    }
  }

  lemma {:induction false} InsertFirst(sorted: seq<Entry>, x: Entry, key: int)
    requires Sorted(sorted, Key)
    ensures First(Insert(sorted, x, Key), key) == First(sorted + [x], key)
  {
    if sorted != [] && Key(sorted[|sorted| - 1]) > Key(x) {
      var init, last := sorted[..|sorted| - 1], sorted[|sorted| - 1];
      assert sorted == init + [last];
      InsertFirst(init, x, key);
      FirstConcat(Insert(init, x, Key), [last], key);
      FirstConcat(init, [x], key);
      FirstConcat(init, [last], key);
      FirstConcat(sorted, [x], key);
    }
  }

  /** Sorting by key leaves the first of several rows with one key first. */
  lemma {:induction false} SortFirst(xs: seq<Entry>, key: int)
    ensures First(Sort(xs, Key), key) == First(xs, key)
  {
    if xs != [] {
      var init, last := xs[..|xs| - 1], xs[|xs| - 1];
      assert xs == init + [last];
      SortFirst(init, key);
      SortSorts(init, Key);
      InsertFirst(Sort(init, Key), last, key);
      FirstConcat(Sort(init, Key), [last], key);
      FirstConcat(init, [last], key);
    }
  }

  // ------------------------------------------------------- the plain meaning

  /** Rows with their positions as hints. */
  function Numbered(rows: seq<Entry>, from: nat): (r: seq<Entry>)
    ensures |r| == |rows|
  {
    if rows == [] then [] else [rows[0].(hint := from)] + Numbered(rows[1..], from + 1)
  }

  /** Looks every key up on its own: an old row gives its hint, the others count on. */
  function Tagged(new_: seq<Entry>, old_: seq<Entry>, arrival: nat): seq<Entry> {
    if new_ == [] then []
    else
      var found := First(old_, new_[0].key);
      if found != [] then [new_[0].(hint := found[0].hint)] + Tagged(new_[1..], old_, arrival)
      else [new_[0].(hint := arrival)] + Tagged(new_[1..], old_, arrival + 1)
  }

  function AppendNewEntries(current: seq<Entry>, previous: seq<Entry>): seq<Entry> {
    Sort(Tagged(Sort(current, Key), Sort(Numbered(previous, 0), Key), |previous|), Hint)
  }

  // ---------------------------------------------------------------- the join

  /** The first position from `at` on whose key is not below `key`. */
  function SkipTo(old_: seq<Entry>, at: nat, key: int): (r: nat)
    requires at <= |old_|
    ensures at <= r <= |old_|
    ensures forall i :: at <= i < r ==> old_[i].key < key
    ensures r < |old_| ==> old_[r].key >= key
    decreases |old_| - at
  {
    if at < |old_| && old_[at].key < key then SkipTo(old_, at + 1, key) else at
  }

  /** One pass over both listings. */
  function Joined(new_: seq<Entry>, old_: seq<Entry>, at: nat, arrival: nat): seq<Entry>
    requires at <= |old_|
  {
    if new_ == [] then []
    else
      var i := SkipTo(old_, at, new_[0].key);
      if i < |old_| && old_[i].key == new_[0].key then [new_[0].(hint := old_[i].hint)] + Joined(new_[1..], old_, i, arrival)
      else [new_[0].(hint := arrival)] + Joined(new_[1..], old_, i, arrival + 1)
  }

  lemma {:induction false} FirstFrom(old_: seq<Entry>, at: nat, key: int)
    requires at <= |old_| && forall i :: 0 <= i < at ==> old_[i].key < key
    ensures First(old_, key) == First(old_[at..], key)
    decreases at
  {
    if at > 0 {
      FirstFrom(old_, at - 1, key);
      assert old_[at - 1..][1..] == old_[at..];
    } else {
      assert old_[0..] == old_;
    }
  }

  /** The one-pass join agrees with looking up every key. */
  lemma {:induction false} JoinIsLookup(new_: seq<Entry>, old_: seq<Entry>, at: nat, arrival: nat)
    requires Sorted(new_, Key) && Sorted(old_, Key) && at <= |old_|
    requires new_ != [] ==> forall i :: 0 <= i < at ==> old_[i].key < new_[0].key
    ensures Joined(new_, old_, at, arrival) == Tagged(new_, old_, arrival)
    decreases |new_|
  {
    if new_ != [] {
      var key := new_[0].key;
      var i := SkipTo(old_, at, key);
      FirstFrom(old_, i, key);
      var hit := i < |old_| && old_[i].key == key;
      assert hit ==> First(old_[i..], key) == [old_[i]];
      assert !hit ==> First(old_[i..], key) == [] by {
        forall e | !hit && e in old_[i..]
          ensures e.key != key
        {
          var k :| 0 <= k < |old_[i..]| && old_[i..][k] == e;
          assert Key(old_[i]) <= Key(old_[i + k]);
        }
      }
      var rest := new_[1..];
      assert forall a :: 0 <= a < |rest| ==> rest[a] == new_[a + 1];
      assert rest != [] ==> Key(new_[0]) <= Key(rest[0]);
      JoinIsLookup(new_[1..], old_, i, if hit then arrival else arrival + 1);
    }
  }

  // -------------------------------------------------------------- main result

  function Strip(xs: seq<Entry>): (r: seq<Entry>)
    ensures |r| == |xs|
  {
    seq(|xs|, i requires 0 <= i < |xs| => xs[i].(hint := 0))
  }

  lemma StripConcat(a: seq<Entry>, b: seq<Entry>)
    ensures Strip(a + b) == Strip(a) + Strip(b)
  {
  }

  /** The position of the first row with a key. */
  function Rank(rows: seq<Entry>, key: int): (r: nat)
    ensures r <= |rows|
  {
    if rows == [] || rows[0].key == key then 0 else 1 + Rank(rows[1..], key)
  }

  predicate Survives(previous: seq<Entry>, e: Entry) {
    Rank(previous, e.key) < |previous|
  }

  lemma {:induction false} NumberedFirst(rows: seq<Entry>, from: nat, key: int)
    ensures First(Numbered(rows, from), key) == [] <==> Rank(rows, key) == |rows|
    ensures First(Numbered(rows, from), key) != [] ==> First(Numbered(rows, from), key)[0].hint == from + Rank(rows, key)
  {
    if rows != [] {
      assert Numbered(rows, from)[1..] == Numbered(rows[1..], from + 1);
      NumberedFirst(rows[1..], from + 1, key);
    }
  }

  /** An old row has its previous position, and the others count on from `arrival`. */
  ghost predicate WellTagged(new_: seq<Entry>, t: seq<Entry>, previous: seq<Entry>, arrival: nat) {
    && |t| == |new_|
    && (forall i :: 0 <= i < |t| ==> t[i].key == new_[i].key && RightTag(previous, t[i], arrival))
    && (forall i, j :: 0 <= i < j < |t| ==> Counting(previous, t[i], t[j]))
  }

  predicate RightTag(previous: seq<Entry>, e: Entry, arrival: nat) {
    if Survives(previous, e) then e.hint == Rank(previous, e.key) else e.hint >= arrival
  }

  predicate Counting(previous: seq<Entry>, a: Entry, b: Entry) {
    !Survives(previous, a) && !Survives(previous, b) ==> a.hint < b.hint
  }

  lemma {:induction false} TaggedAre(new_: seq<Entry>, old_: seq<Entry>, previous: seq<Entry>, arrival: nat)
    requires old_ == Sort(Numbered(previous, 0), Key)
    ensures WellTagged(new_, Tagged(new_, old_, arrival), previous, arrival) && Strip(Tagged(new_, old_, arrival)) == Strip(new_)
  {
    hide Strip, Sort, Rank, Numbered, WellTagged;
    if new_ != [] {
      var key, t := new_[0].key, Tagged(new_, old_, arrival);
      SortFirst(Numbered(previous, 0), key);
      NumberedFirst(previous, 0, key);
      var found := First(old_, key) != [];
      var rest := Tagged(new_[1..], old_, if found then arrival else arrival + 1);
      TaggedAre(new_[1..], old_, previous, if found then arrival else arrival + 1);
      assert t == [t[0]] + rest;
      TagsFollow(new_, t[0], rest, previous, arrival);
    } else {
      NoTags(old_, previous, arrival);
    }
  }

  lemma NoTags(old_: seq<Entry>, previous: seq<Entry>, arrival: nat)
    ensures WellTagged([], Tagged([], old_, arrival), previous, arrival)
  {
  }

  /** The tags of a listing, from its first one and those of its tail. */
  lemma TagsFollow(new_: seq<Entry>, first: Entry, rest: seq<Entry>, previous: seq<Entry>, arrival: nat)
    requires new_ != [] && first == new_[0].(hint := first.hint)
    requires first.hint == if Survives(previous, first) then Rank(previous, first.key) else arrival
    requires WellTagged(new_[1..], rest, previous, if Survives(previous, first) then arrival else arrival + 1)
    requires Strip(rest) == Strip(new_[1..])
    ensures WellTagged(new_, [first] + rest, previous, arrival) && Strip([first] + rest) == Strip(new_)
  {
    var t := [first] + rest;
    assert forall i :: 0 < i < |t| ==> t[i] == rest[i - 1] && new_[i] == new_[1..][i - 1];
    assert new_ == [new_[0]] + new_[1..];
    StripConcat([first], rest);
    StripConcat([new_[0]], new_[1..]);
    assert Strip([first]) == Strip([new_[0]]);
  }

  lemma StripOne(x: Entry)
    ensures Strip([x]) == [x.(hint := 0)]
  {
  }

  lemma {:induction false} InsertStrip(sorted: seq<Entry>, x: Entry, rank: Entry -> int)
    ensures multiset(Strip(Insert(sorted, x, rank))) == multiset(Strip(sorted)) + multiset{x.(hint := 0)}
  {
    hide Strip;
    StripOne(x);
    if sorted == [] || rank(sorted[|sorted| - 1]) <= rank(x) {
      StripConcat(sorted, [x]);
    } else {
      var init, last := sorted[..|sorted| - 1], sorted[|sorted| - 1];
      StripOne(last);
      InsertStrip(init, x, rank);
      StripConcat(Insert(init, x, rank), [last]);
      StripConcat(init, [last]);
      assert sorted == init + [last];
    }
  }

  lemma {:induction false} SortStrip(xs: seq<Entry>, rank: Entry -> int)
    ensures multiset(Strip(Sort(xs, rank))) == multiset(Strip(xs))
  {
    if xs != [] {
      var init, last := xs[..|xs| - 1], xs[|xs| - 1];
      SortStrip(init, rank);
      InsertStrip(Sort(init, rank), last, rank);
      StripConcat(init, [last]);
      assert xs == init + [last] && Strip([last]) == [last.(hint := 0)];
    }
  }

  /** `a` may stand before `b` in a refreshed listing. */
  predicate Before(previous: seq<Entry>, a: Entry, b: Entry) {
    if Survives(previous, b) then Survives(previous, a) && Rank(previous, a.key) <= Rank(previous, b.key)
    else Survives(previous, a) || a.key <= b.key
  }

  lemma HintsOrder(new_: seq<Entry>, t: seq<Entry>, previous: seq<Entry>, x: Entry, y: Entry)
    requires WellTagged(new_, t, previous, |previous|) && Sorted(new_, Key)
    requires x in t && y in t && x.hint <= y.hint
    ensures Before(previous, x, y)
  {
    hide Rank;
    var a :| 0 <= a < |t| && t[a] == x;
    var b :| 0 <= b < |t| && t[b] == y;
    assert RightTag(previous, x, |previous|) && RightTag(previous, y, |previous|);
    if b < a {
      assert Counting(previous, t[b], t[a]);
    } else {
      assert Key(new_[a]) <= Key(new_[b]);
    }
  }

  /** A refreshed listing shows exactly the current rows: those that were there before in
      their previous order, then the new ones by key. */
  lemma RefreshKeepsOrder(current: seq<Entry>, previous: seq<Entry>)
    ensures var r := AppendNewEntries(current, previous);
      && multiset(Strip(r)) == multiset(Strip(current))
      && forall i, j :: 0 <= i < j < |r| ==> Before(previous, r[i], r[j])
  {
    hide Tagged, Sort, Before, Strip, WellTagged;
    var sorted, old_ := Sort(current, Key), Sort(Numbered(previous, 0), Key);
    var t := Tagged(sorted, old_, |previous|);
    var r := Sort(t, Hint);
    SortStrip(current, Key);
    SortStrip(t, Hint);
    SortSorts(current, Key);
    SortSorts(t, Hint);
    TaggedAre(sorted, old_, previous, |previous|);
    forall i, j | 0 <= i < j < |r|
      ensures Before(previous, r[i], r[j])
    {
      SortHas(t, Hint, r[i]);
      SortHas(t, Hint, r[j]);
      assert Hint(r[i]) <= Hint(r[j]);
      HintsOrder(sorted, t, previous, r[i], r[j]);
    }
  }

  // ------------------------------------------------------------ page by page

  /** A page of an index. */
  function Page(index: seq<Entry>, offset: nat, max: nat): seq<Entry>
    requires offset <= |index|
  {
    index[offset..if offset + max <= |index| then offset + max else |index|]
  }

  /** The join as a cursor: it holds one page of the old listing at a time. */
  class JoinCursor {
    const next: seq<Entry>
    const old_: seq<Entry>
    var offset: nat
    var oldPage: seq<Entry>
    var oldOffset: nat
    var oldPosition: nat
    var arrival: nat

    constructor (next: seq<Entry>, old_: seq<Entry>, count: nat)
      ensures Valid() && this.next == next && this.old_ == old_
      ensures Remaining() == Joined(next, old_, 0, count) && offset == 0
    {
      this.next, this.old_, offset, oldPage, oldOffset, oldPosition, arrival := next, old_, 0, [], 0, 0, count;
    }

    predicate Valid()
      reads this
    {
      && offset <= |next| && oldPosition <= |oldPage| <= oldOffset <= |old_|
      && oldPage == old_[oldOffset - |oldPage|..oldOffset]
    }

    function At(): (at: nat)
      requires Valid()
      reads this
      ensures at <= |old_|
    {
      oldOffset - |oldPage| + oldPosition
    }

    /** What the cursor has still to give. */
    ghost function Remaining(): seq<Entry>
      requires Valid()
      reads this
    {
      Joined(next[offset..], old_, At(), arrival)
    }

    /** Reads the next page of the old listing when the last one is used up. */
    method Refill(max: nat)
      requires Valid() && max > 0
      modifies this`oldPage, this`oldOffset, this`oldPosition
      ensures Valid() && At() == old(At())
      ensures oldPosition < |oldPage| <==> At() < |old_|
      ensures oldPosition < |oldPage| ==> oldPage[oldPosition] == old_[At()]
    {
      if oldPosition == |oldPage| && oldOffset < |old_| {
        oldPage := Page(old_, oldOffset, max);
        oldOffset := oldOffset + |oldPage|;
        oldPosition := 0;
      }
    }

    /** Moves to the first old row whose key is not below `key`. */
    method Skip(key: int, max: nat)
      requires Valid() && max > 0
      modifies this`oldPage, this`oldOffset, this`oldPosition
      ensures Valid() && At() == SkipTo(old_, old(At()), key)
      ensures oldPosition < |oldPage| <==> At() < |old_|
      ensures oldPosition < |oldPage| ==> oldPage[oldPosition] == old_[At()]
    {
      while true
        invariant Valid() && SkipTo(old_, At(), key) == SkipTo(old_, old(At()), key)
        decreases |old_| - At()
      {
        Refill(max);
        if oldPosition == |oldPage| || oldPage[oldPosition].key >= key { break; }
        oldPosition := oldPosition + 1;
      }
    }

    /** Gives one current row its hint. */
    method Tag(row: Entry, max: nat, ghost rest: seq<Entry>) returns (tagged: Entry)
      requires Valid() && max > 0
      modifies this`oldPage, this`oldOffset, this`oldPosition, this`arrival
      ensures Valid() && Joined([row] + rest, old_, old(At()), old(arrival)) == [tagged] + Joined(rest, old_, At(), arrival)
    {
      hide SkipTo;
      assert ([row] + rest)[1..] == rest;
      Skip(row.key, max);
      if oldPosition < |oldPage| && oldPage[oldPosition].key == row.key {
        tagged := row.(hint := oldPage[oldPosition].hint);
      } else {
        tagged := row.(hint := arrival);
        arrival := arrival + 1;
      }
    }

    method Next(max: nat) returns (page: seq<Entry>)
      requires Valid() && max > 0
      modifies this
      ensures Valid() && page + Remaining() == old(Remaining())
      ensures |page| == |Page(next, old(offset), max)| && offset == old(offset) + |page|
    {
      hide Joined;
      var rows := Page(next, offset, max);
      ghost var start := offset;
      offset := offset + |rows|;
      page := [];
      for i := 0 to |rows|
        invariant Valid() && |page| == i && offset == start + |rows|
        invariant page + Joined(next[start + i..], old_, At(), arrival) == old(Remaining())
      {
        ghost var rest := next[start + i + 1..];
        assert next[start + i..] == [rows[i]] + rest;
        var tagged := Tag(rows[i], max, rest);
        Append(page, tagged, Joined(rest, old_, At(), arrival));
        page := page + [tagged];
      }
    }
  }

  lemma Append(page: seq<Entry>, e: Entry, rest: seq<Entry>)
    ensures page + ([e] + rest) == page + [e] + rest
  {
  }

  /** Building an index from the join, with any page sizes, gives the plain lookup. */
  method Join(new_: seq<Entry>, old_: seq<Entry>, count: nat, sizes: seq<nat>, size: nat) returns (rows: seq<Entry>)
    requires Sorted(new_, Key) && Sorted(old_, Key) && size > 0
    requires forall i :: 0 <= i < |sizes| ==> sizes[i] > 0
    ensures rows == Tagged(new_, old_, count)
  {
    hide Joined, Tagged;
    JoinIsLookup(new_, old_, 0, count);
    NothingJoined(old_);
    var cursor := new JoinCursor(new_, old_, count);
    rows := [];
    var turn := 0;
    while cursor.offset < |new_|
      invariant cursor.Valid() && cursor.next == new_ && cursor.old_ == old_ && fresh(cursor)
      invariant rows + cursor.Remaining() == Joined(new_, old_, 0, count)
      decreases |new_| - cursor.offset
    {
      ghost var before := rows;
      var page := cursor.Next(if turn < |sizes| then sizes[turn] else size);
      Concat(before, page, cursor.Remaining());
      rows, turn := rows + page, turn + 1;
    }
    assert new_[|new_|..] == [] && rows + [] == rows;
  }

  lemma Concat(a: seq<Entry>, b: seq<Entry>, c: seq<Entry>)
    ensures a + (b + c) == a + b + c
  {
  }

  lemma NothingJoined(old_: seq<Entry>)
    ensures forall at, arrival :: 0 <= at <= |old_| && 0 <= arrival ==> Joined([], old_, at, arrival) == []
  {
  }
}
