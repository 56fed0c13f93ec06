/** Checking the layout of an update archive before it is unpacked: sections 4.3.7, 4.3.12 and
    4.3.16 of the PKWARE APPNOTE name its records. */
module ZipLayout {

  type Byte = b: nat | b < 256
  type Bytes = seq<Byte>

  datatype Option<T> = None | Some(value: T) {
    predicate IsFailure() { None? }
    function PropagateFailure<U>(): Option<U> requires IsFailure() { None }
    function Extract(): T requires !IsFailure() { value }
  }

  const MIN_FILE := 22
  const MAX_FILE := 1073741824
  const MAX_TAIL := 65557
  const MAX_MEMBERS := 4096
  const MAX_NAME := 2048
  const MAX_SIZE := 536870912

  const CENTRAL: Bytes := [0x50, 0x4B, 1, 2]
  const LOCAL: Bytes := [0x50, 0x4B, 3, 4]
  const END: Bytes := [0x50, 0x4B, 5, 6]

  /** Name rules of the updater, over raw names. */
  type NameRule = Bytes -> bool

  function U16(b: Bytes, at: nat): (n: nat)
    requires at + 2 <= |b|
    ensures n < 0x1_0000
  {
    b[at] as int + 256 * b[at + 1] as int
  }

  function U32(b: Bytes, at: nat): (n: nat)
    requires at + 4 <= |b|
    ensures n < 0x1_0000_0000
  {
    U16(b, at) + 65536 * U16(b, at + 2)
  }

  function At(file: Bytes, offset: nat, size: nat): Option<Bytes> {
    if offset + size <= |file| then Some(file[offset..offset + size]) else None
  }

  predicate Ascii(name: Bytes) {
    forall i :: 0 <= i < |name| ==> name[i] < 128
  }

  predicate Bit(flags: nat, weight: nat)
    requires weight > 0
  {
    flags / weight % 2 == 1
  }

  /** One entry: where its central record starts and how long it is, and which bytes its local
      header and payload take. */
  datatype Member = Member(at: nat, span: nat, name: Bytes, start: nat, end: nat, size: nat, crc: nat, folder: bool)

  function IsFolder(name: Bytes): bool {
    name != [] && name[|name| - 1] == 0x2F
  }

  // ----------------------------------------------------------------- one entry

  predicate GoodCentral(h: Bytes)
    requires |h| == 46
  {
    && h[..4] == CENTRAL && !Bit(U16(h, 8), 1) && (U16(h, 10) == 0 || U16(h, 10) == 8)
    && 0 < U16(h, 28) <= MAX_NAME && U16(h, 34) == 0
    && U32(h, 24) <= MAX_SIZE && U32(h, 20) != 0xFFFFFFFF && U32(h, 24) != 0xFFFFFFFF
  }

  predicate GoodName(rule: NameRule, h: Bytes, name: Bytes)
    requires |h| == 46
  {
    && (!Bit(U16(h, 8), 0x800) ==> Ascii(name))
    && rule(if IsFolder(name) then name[..|name| - 1] else name)
  }

  /** The local header says the same as the central one. */
  predicate GoodLocal(h: Bytes, local: Bytes)
    requires |h| == 46 && |local| == 30
  {
    && local[..4] == LOCAL && U16(local, 6) == U16(h, 8) && U16(local, 8) == U16(h, 10) && U16(local, 26) == U16(h, 28)
    && (!Bit(U16(h, 8), 8) ==> U32(local, 14) == U32(h, 16) && U32(local, 18) == U32(h, 20) && U32(local, 22) == U32(h, 24))
  }

  /** Reads the entry whose central record starts at `at`; the directory starts at `directory`
      and ends at `end`. */
  function ReadMember(rule: NameRule, file: Bytes, at: nat, directory: nat, end: nat): Option<Member> {
    var h :- At(file, at, 46);
    if !GoodCentral(h) then None
    else
      var n := U16(h, 28);
      var name :- At(file, at + 46, n);
      var start := U32(h, 42);
      var local :- At(file, start, 30);
      var localName :- At(file, start + 30, n);
      if !GoodName(rule, h, name) || !GoodLocal(h, local) || localName != name then None
      else
        var payload := start + 30 + n + U16(local, 28);
        var span := 46 + n + U16(h, 30) + U16(h, 32);
        var folder := IsFolder(name);
        if payload + U32(h, 20) > directory || (folder && (U32(h, 24) != 0 || U32(h, 20) != 0)) || at + span > end then None
        else Some(Member(at, span, name, start, payload + U32(h, 20), U32(h, 24), U32(h, 16), folder))
  }

  function ReadMembers(rule: NameRule, file: Bytes, at: nat, count: nat, directory: nat, end: nat): Option<seq<Member>>
    decreases count
  {
    if count == 0 then if at == end then Some([]) else None
    else
      var m :- ReadMember(rule, file, at, directory, end);
      var rest :- ReadMembers(rule, file, at + m.span, count - 1, directory, end);
      Some([m] + rest)
  }

  // ------------------------------------------------------------- the directory

  /** Where the directory starts, where it ends, and how many records it has. */
  datatype Footer = Footer(directory: nat, end: nat, count: nat)

  function LastEnd(tail: Bytes, before: nat): Option<nat>
    requires before <= |tail|
    decreases before
  {
    if before < 4 then None
    else if tail[before - 4..before] == END then Some(before - 4)
    else LastEnd(tail, before - 1)
  }

  function ReadFooter(file: Bytes): Option<Footer> {
    if |file| < MIN_FILE || |file| > MAX_FILE then None
    else
      var tailStart := if |file| > MAX_TAIL then |file| - MAX_TAIL else 0;
      var tail := file[tailStart..];
      var e :- LastEnd(tail, |tail|);
      if e + 22 > |tail| then None
      else
        var f := tail[e..];
        if !(U16(f, 4) == 0 && U16(f, 6) == 0 && U16(f, 8) == U16(f, 10) && 0 < U16(f, 10) <= MAX_MEMBERS && |f| == 22 + U16(f, 20)) then None
        else if U32(f, 16) + U32(f, 12) != tailStart + e || file[..4] != LOCAL then None
        else Some(Footer(U32(f, 16), tailStart + e, U16(f, 10)))
  }

  predicate Overlap(a: Member, b: Member) {
    a.start < b.end && b.start < a.end
  }

  ghost predicate Disjoint(members: seq<Member>) {
    forall i, j :: 0 <= i < j < |members| ==> !Overlap(members[i], members[j])
  }

  // ------------------------------------------------------------------ sorting

  /** By start, then by end. */
  predicate NotAfter(a: Member, b: Member) {
    a.start < b.start || (a.start == b.start && a.end <= b.end)
  }

  function Insert(sorted: seq<Member>, m: Member): (r: seq<Member>)
    ensures |r| == |sorted| + 1
  {
    if sorted == [] || NotAfter(m, sorted[0]) then [m] + sorted else [sorted[0]] + Insert(sorted[1..], m)
  }

  function Sort(members: seq<Member>): (r: seq<Member>)
    ensures |r| == |members|
  {
    if members == [] then [] else Insert(Sort(members[1..]), members[0])
  }

  ghost predicate Sorted(members: seq<Member>) {
    forall i, j :: 0 <= i < j < |members| ==> NotAfter(members[i], members[j])
  }

  /** Neighbours do not overlap. */
  predicate Adjacent(members: seq<Member>) {
    forall i :: 0 < i < |members| ==> members[i - 1].end <= members[i].start
  }

  lemma {:induction false} InsertSorts(sorted: seq<Member>, m: Member)
    requires Sorted(sorted)
    ensures Sorted(Insert(sorted, m)) && multiset(Insert(sorted, m)) == multiset(sorted) + multiset{m}
  {
    if sorted != [] && !NotAfter(m, sorted[0]) {
      assert sorted == [sorted[0]] + sorted[1..];
      InsertSorts(sorted[1..], m);
      var rest := Insert(sorted[1..], m);
      forall i | 0 <= i < |rest|
        ensures NotAfter(sorted[0], rest[i])
      {
        assert rest[i] in multiset(rest);
        if rest[i] != m {
          assert rest[i] in sorted[1..];
          var k :| 0 <= k < |sorted[1..]| && sorted[1..][k] == rest[i];
          assert sorted[k + 1] == rest[i];
        }
      }
    }
  }

  lemma {:induction false} SortSorts(members: seq<Member>)
    ensures Sorted(Sort(members)) && multiset(Sort(members)) == multiset(members)
  {
    if members != [] {
      SortSorts(members[1..]);
      InsertSorts(Sort(members[1..]), members[0]);
      assert members == [members[0]] + members[1..];
    }
  }

  ghost predicate Nonempty(members: seq<Member>) {
    forall i :: 0 <= i < |members| ==> members[i].start < members[i].end
  }

  /** In an order by start, neighbours that do not overlap mean that nobody does. */
  lemma AdjacentMeans(members: seq<Member>)
    requires Sorted(members) && Nonempty(members)
    ensures Adjacent(members) <==> Disjoint(members)
  {
    if Adjacent(members) {
      forall i, j | 0 <= i < j < |members|
        ensures !Overlap(members[i], members[j])
      {
        Between(members, i, j);
      }
    }
    if Disjoint(members) {
      forall i | 0 < i < |members|
        ensures members[i - 1].end <= members[i].start
      {
        assert !Overlap(members[i - 1], members[i]) && NotAfter(members[i - 1], members[i]);
      }
    }
  }

  lemma {:induction false} Between(members: seq<Member>, i: nat, j: nat)
    requires Adjacent(members) && Nonempty(members) && i < j < |members|
    ensures members[i].end <= members[j].start
    decreases j - i
  {
    if i + 1 < j { Between(members, i + 1, j); }
  }

  /** Entries that take bytes and share none are different. */
  lemma {:induction false} Once(a: seq<Member>, m: Member)
    requires Disjoint(a) && Nonempty(a)
    ensures multiset(a)[m] <= 1
  {
    if a != [] {
      forall k | 0 < k < |a|
        ensures a[k] != a[0]
      {
        assert !Overlap(a[0], a[k]);
      }
      assert a == [a[0]] + a[1..] && a[0] !in a[1..];
      assert forall i :: 0 <= i < |a[1..]| ==> a[1..][i] == a[i + 1];
      Once(a[1..], m);
    }
  }

  lemma TwoOf(b: seq<Member>, i: nat, j: nat)
    requires i < j < |b|
    ensures b[i] == b[j] ==> multiset(b)[b[i]] >= 2
  {
    assert b == b[..j] + [b[j]] + b[j + 1..] && b[i] in b[..j];
  }

  /** Overlaps do not depend on the order. */
  lemma DisjointPermuted(a: seq<Member>, b: seq<Member>)
    requires multiset(a) == multiset(b) && Disjoint(a) && Nonempty(a)
    ensures Disjoint(b) && Nonempty(b)
  {
    forall i | 0 <= i < |b|
      ensures b[i].start < b[i].end
    {
      assert b[i] in multiset(a);
    }
    forall i, j | 0 <= i < j < |b|
      ensures !Overlap(b[i], b[j])
    {
      TwoOf(b, i, j);
      Once(a, b[i]);
      assert b[i] in multiset(a) && b[j] in multiset(a);
      var k :| 0 <= k < |a| && a[k] == b[i];
      var l :| 0 <= l < |a| && a[l] == b[j];
      assert k != l;
      assert if k < l then !Overlap(a[k], a[l]) else !Overlap(a[l], a[k]);
    }
  }

  // -------------------------------------------------------------- acceptance

  function ZipDirectory(rule: NameRule, file: Bytes): Option<seq<Member>> {
    var f :- ReadFooter(file);
    var members :- ReadMembers(rule, file, f.directory, f.count, f.directory, f.end);
    if Adjacent(Sort(members)) then Some(members) else None
  }

  /** The central records follow one another without a gap. */
  ghost predicate Tile(members: seq<Member>, from: nat, to: nat)
    decreases |members|
  {
    if members == [] then from == to else members[0].at == from && Tile(members[1..], from + members[0].span, to)
  }

  lemma MemberMeans(rule: NameRule, file: Bytes, at: nat, directory: nat, end: nat)
    requires ReadMember(rule, file, at, directory, end).Some?
    ensures var m := ReadMember(rule, file, at, directory, end).value;
      m.at == at && m.start < m.end <= directory && m.size <= MAX_SIZE && at + m.span <= end
  {
    hide GoodName, GoodLocal;
  }

  lemma {:induction false} ReadMembersMean(rule: NameRule, file: Bytes, at: nat, count: nat, directory: nat, end: nat)
    requires ReadMembers(rule, file, at, count, directory, end).Some?
    ensures var members := ReadMembers(rule, file, at, count, directory, end).value;
      && |members| == count && Tile(members, at, end) && Nonempty(members)
      && forall i :: 0 <= i < |members| ==> members[i].end <= directory && members[i].size <= MAX_SIZE
    decreases count
  {
    hide ReadMember;
    if count > 0 {
      var m := ReadMember(rule, file, at, directory, end).value;
      MemberMeans(rule, file, at, directory, end);
      ReadMembersMean(rule, file, at + m.span, count - 1, directory, end);
    }
  }

  /** In every accepted archive the central records tile the directory exactly, every local
      header with its payload ends before the directory, and no two of them share a byte; and
      an archive whose records can all be read is refused only for an overlap. */
  lemma AcceptedLayout(rule: NameRule, file: Bytes)
    ensures ZipDirectory(rule, file).Some? <==>
      && ReadFooter(file).Some?
      && var f := ReadFooter(file).value;
         var read := ReadMembers(rule, file, f.directory, f.count, f.directory, f.end);
         read.Some? && Disjoint(read.value)
    ensures ZipDirectory(rule, file).Some? ==>
      var f, members := ReadFooter(file).value, ZipDirectory(rule, file).value;
      && |members| == f.count && Tile(members, f.directory, f.end) && Disjoint(members)
      && forall i :: 0 <= i < |members| ==> members[i].start < members[i].end <= f.directory
  {
    if ReadFooter(file).Some? {
      var f := ReadFooter(file).value;
      var read := ReadMembers(rule, file, f.directory, f.count, f.directory, f.end);
      if read.Some? {
        ReadMembersMean(rule, file, f.directory, f.count, f.directory, f.end);
        OverlapFound(read.value);
      }
    }
  }

  lemma OverlapFound(members: seq<Member>)
    requires Nonempty(members)
    ensures Adjacent(Sort(members)) <==> Disjoint(members)
  {
    var sorted := Sort(members);
    SortSorts(members);
    forall i | 0 <= i < |sorted|
      ensures sorted[i].start < sorted[i].end
    {
      assert sorted[i] in multiset(members);
    }
    AdjacentMeans(sorted);
    if Adjacent(sorted) { DisjointPermuted(sorted, members); }
    if Disjoint(members) { DisjointPermuted(members, sorted); }
  }

  // ------------------------------------------------------------ as performed

  /** Walks the directory record by record, then sorts the ranges and compares neighbours. */
  method ReadDirectory(rule: NameRule, file: Bytes) returns (result: Option<seq<Member>>)
    ensures result == ZipDirectory(rule, file)
  {
    hide ReadMember, ReadFooter;
    var footer := ReadFooter(file);
    if footer.None? { return None; }
    var f := footer.value;
    var cursor: nat, members := f.directory, [];
    Unchanged(ReadMembers(rule, file, f.directory, f.count, f.directory, f.end));
    for index := 0 to f.count
      invariant ReadMembers(rule, file, f.directory, f.count, f.directory, f.end) ==
        var rest := ReadMembers(rule, file, cursor, f.count - index, f.directory, f.end);
        if rest.None? then None else Some(members + rest.value)
    {
      var m := ReadMember(rule, file, cursor, f.directory, f.end);
      if m.None? { return None; }
      ghost var rest := ReadMembers(rule, file, cursor + m.value.span, f.count - index - 1, f.directory, f.end);
      if rest.Some? { Regroup(members, [m.value], rest.value); }
      members := members + [m.value];
      cursor := cursor + m.value.span;
    }
    if cursor != f.end { return None; }
    assert members + [] == members;
    var sorted := Sort(members);
    var index := 1;
    while index < |sorted|
      invariant index >= 1 && forall i :: 0 < i < index && i < |sorted| ==> sorted[i - 1].end <= sorted[i].start
    {
      if sorted[index - 1].end > sorted[index].start { return None; }
      index := index + 1;
    }
    result := Some(members);
  }

  lemma Unchanged(read: Option<seq<Member>>)
    ensures read.Some? ==> [] + read.value == read.value
  {
  }

  lemma Regroup(a: seq<Member>, b: seq<Member>, c: seq<Member>)
    ensures a + (b + c) == a + b + c
  {
  }

  // ---------------------------------------------------------------- the total

  const WORD := 0x1_0000_0000_0000_0000

  function TotalSize(members: seq<Member>): nat {
    if members == [] then 0 else TotalSize(members[..|members| - 1]) + members[|members| - 1].size
  }

  /** Adds the sizes in 64-bit words, refusing whatever exceeds the announced total. The result
      is the exact comparison; nothing wraps around. */
  method CheckTotal(members: seq<Member>, unpacked: nat) returns (ok: bool)
    requires unpacked < WORD
    ensures ok <==> TotalSize(members) == unpacked
  {
    var total := 0;
    ok := false;
    for index := 0 to |members|
      invariant total == TotalSize(members[..index]) <= unpacked
    {
      assert members[..index + 1][..index] == members[..index];
      if members[index].size > (unpacked - total) % WORD {
        TotalGrows(members, index + 1);
        return;
      }
      total := (total + members[index].size) % WORD;
    }
    assert members[..|members|] == members;
    ok := total == unpacked;
  }

  lemma {:induction false} TotalGrows(members: seq<Member>, n: nat)
    requires n <= |members|
    ensures TotalSize(members[..n]) <= TotalSize(members)
    decreases |members| - n
  {
    if n < |members| {
      assert members[..n + 1][..n] == members[..n];
      TotalGrows(members, n + 1);
    } else {
      assert members[..n] == members;
    }
  }
}
