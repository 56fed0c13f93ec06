/** The records of an archive as they are written, after sections 4.3.7, 4.3.12 and 4.3.16 of
    the PKWARE APPNOTE, and that the reader accepts exactly files made of such records. */
module ZipRecords {
  import opened ZipLayout

  type Word = n: nat | n < 0x1_0000
  type Double = n: nat | n < 0x1_0000_0000
  type Text = b: Bytes | |b| < 0x1_0000

  // ------------------------------------------------------------------- writing

  /** A number of two or four bytes, lowest byte first. */
  datatype Field = Two(value: Word) | Four(wide: Double)

  function Width(f: Field): nat {
    if f.Two? then 2 else 4
  }

  function Low(n: Word): (b: Bytes)
    ensures |b| == 2
  {
    [n % 256, n / 256]
  }

  function FieldBytes(f: Field): (b: Bytes)
    ensures |b| == Width(f)
  {
    match f
    case Two(value) => Low(value)
    case Four(wide) => Low(wide % 0x1_0000) + Low(wide / 0x1_0000)
  }

  function Write(fields: seq<Field>): Bytes {
    if fields == [] then [] else Write(fields[..|fields| - 1]) + FieldBytes(fields[|fields| - 1])
  }

  /** Section 4.3.7. */
  datatype Local = Local(
    version: Word, flags: Word, compression: Word, time: Word, date: Word, crc: Double, packed: Double, size: Double, name: Text, extra: Text)

  function LocalFields(l: Local): seq<Field> {
    [Four(0x04034B50), Two(l.version), Two(l.flags), Two(l.compression), Two(l.time), Two(l.date), Four(l.crc), Four(l.packed), Four(l.size),
     Two(|l.name|), Two(|l.extra|)]
  }

  function LocalBytes(l: Local): Bytes {
    Write(LocalFields(l)) + l.name + l.extra
  }

  /** Section 4.3.12. */
  datatype Central = Central(
    madeBy: Word, version: Word, flags: Word, compression: Word, time: Word, date: Word, crc: Double, packed: Double, size: Double,
    disk: Word, inner: Word, outer: Double, offset: Double, name: Text, extra: Text, comment: Text)

  function CentralFields(c: Central): seq<Field> {
    [Four(0x02014B50), Two(c.madeBy), Two(c.version), Two(c.flags), Two(c.compression), Two(c.time), Two(c.date), Four(c.crc), Four(c.packed),
     Four(c.size), Two(|c.name|), Two(|c.extra|), Two(|c.comment|), Two(c.disk), Two(c.inner), Four(c.outer), Four(c.offset)]
  }

  function CentralBytes(c: Central): Bytes {
    Write(CentralFields(c)) + c.name + c.extra + c.comment
  }

  /** Section 4.3.16. */
  datatype End = End(disk: Word, first: Word, here: Word, count: Word, bytes: Double, offset: Double, comment: Text)

  function EndFields(e: End): seq<Field> {
    [Four(0x06054B50), Two(e.disk), Two(e.first), Two(e.here), Two(e.count), Four(e.bytes), Four(e.offset), Two(|e.comment|)]
  }

  function EndBytes(e: End): Bytes {
    Write(EndFields(e)) + e.comment
  }

  // ------------------------------------------------------------------ archives

  predicate Lies(file: Bytes, at: nat, bytes: Bytes) {
    at + |bytes| <= |file| && file[at..at + |bytes|] == bytes
  }

  /** One entry: its central record and its local header. */
  datatype Entry = Entry(central: Central, local: Local)

  /** Both say the same; checksum and sizes may follow the payload instead. */
  predicate Agrees(c: Central, l: Local) {
    && l.flags == c.flags && l.compression == c.compression && l.name == c.name
    && (!Bit(c.flags, 8) ==> l.crc == c.crc && l.packed == c.packed && l.size == c.size)
  }

  /** What the updater accepts: not encrypted, stored or deflated, on one disk, with a name the
      rule allows, in bounds, and an empty payload for a folder. */
  predicate Permitted(rule: NameRule, c: Central) {
    && !Bit(c.flags, 1) && (c.compression == 0 || c.compression == 8) && 0 < |c.name| <= MAX_NAME && c.disk == 0
    && c.size <= MAX_SIZE && c.packed != 0xFFFFFFFF && (!Bit(c.flags, 0x800) ==> Ascii(c.name))
    && rule(if IsFolder(c.name) then c.name[..|c.name| - 1] else c.name) && (IsFolder(c.name) ==> c.size == 0 && c.packed == 0)
  }

  function PayloadEnd(e: Entry): nat {
    e.central.offset + |LocalBytes(e.local)| + e.central.packed
  }

  predicate EntryLies(rule: NameRule, file: Bytes, e: Entry, at: nat, directory: nat, end: nat) {
    && Lies(file, at, CentralBytes(e.central)) && at + |CentralBytes(e.central)| <= end
    && Lies(file, e.central.offset, LocalBytes(e.local)) && PayloadEnd(e) <= directory
    && Agrees(e.central, e.local) && Permitted(rule, e.central)
  }

  /** The central records follow one another from `at` to `end`. */
  predicate EntriesLie(rule: NameRule, file: Bytes, entries: seq<Entry>, at: nat, directory: nat, end: nat)
    decreases |entries|
  {
    if entries == [] then at == end
    else EntryLies(rule, file, entries[0], at, directory, end)
         && EntriesLie(rule, file, entries[1..], at + |CentralBytes(entries[0].central)|, directory, end)
  }

  function MemberOf(e: Entry, at: nat): Member {
    var c := e.central;
    Member(at, |CentralBytes(c)|, c.name, c.offset, PayloadEnd(e), c.size, c.crc, IsFolder(c.name))
  }

  function MembersOf(entries: seq<Entry>, at: nat): seq<Member>
    decreases |entries|
  {
    if entries == [] then [] else [MemberOf(entries[0], at)] + MembersOf(entries[1..], at + |CentralBytes(entries[0].central)|)
  }

  predicate SignatureAt(file: Bytes, i: nat) {
    i + 4 <= |file| && file[i..i + 4] == END
  }

  /** The end record is the last thing in the file, no later bytes look like the start of one,
      and it describes a directory of one disk that ends where it starts. */
  ghost predicate EndLies(file: Bytes, e: End, at: nat) {
    && MIN_FILE <= |file| <= MAX_FILE && Lies(file, at, EndBytes(e)) && at + |EndBytes(e)| == |file|
    && (forall i :: at < i ==> !SignatureAt(file, i))
    && e.disk == 0 && e.first == 0 && e.here == e.count && 0 < e.count <= MAX_MEMBERS
    && e.offset + e.bytes == at && file[..4] == LOCAL
  }

  ghost predicate Archive(rule: NameRule, file: Bytes, e: End, at: nat, entries: seq<Entry>) {
    && EndLies(file, e, at) && |entries| == e.count && EntriesLie(rule, file, entries, e.offset, e.offset, at)
    && Disjoint(MembersOf(entries, e.offset))
  }

  // -------------------------------------------------------- reading what is written

  function Start(fields: seq<Field>, k: nat): nat
    requires k <= |fields|
  {
    if k == 0 then 0 else Start(fields, k - 1) + Width(fields[k - 1])
  }

  lemma {:induction false} StartPrefix(fields: seq<Field>, n: nat, k: nat)
    requires k <= n <= |fields|
    ensures Start(fields[..n], k) == Start(fields, k)
  {
    if k > 0 { StartPrefix(fields, n, k - 1); }
  }

  lemma {:induction false} StartGrows(fields: seq<Field>, k: nat, n: nat)
    requires k <= n <= |fields|
    ensures Start(fields, k) <= Start(fields, n)
    decreases n - k
  {
    if k < n { StartGrows(fields, k, n - 1); }
  }

  lemma {:induction false} WriteLength(fields: seq<Field>)
    ensures |Write(fields)| == Start(fields, |fields|)
    decreases |fields|
  {
    if fields != [] {
      var n := |fields| - 1;
      WriteLength(fields[..n]);
      StartPrefix(fields, n, n);
    }
  }

  /** Field `k` stands where the fields before it end. */
  predicate Holds(b: Bytes, fields: seq<Field>, k: nat)
    requires k < |fields|
  {
    Start(fields, k) + Width(fields[k]) <= |b| && b[Start(fields, k)..Start(fields, k) + Width(fields[k])] == FieldBytes(fields[k])
  }

  predicate AllHold(b: Bytes, fields: seq<Field>, n: nat)
    requires n <= |fields|
  {
    n == 0 || (AllHold(b, fields, n - 1) && Holds(b, fields, n - 1))
  }

  lemma {:induction false} SameHolds(b: Bytes, cut: nat, fields: seq<Field>, n: nat, k: nat)
    requires k <= n <= |fields| && cut == Start(fields, n) <= |b|
    ensures AllHold(b[..cut], fields[..n], k) <==> AllHold(b, fields, k)
  {
    if k > 0 {
      SameHolds(b, cut, fields, n, k - 1);
      StartPrefix(fields, n, k - 1);
      StartUnfolds(fields, k - 1);
      StartGrows(fields, k, n);
      var at, to := Start(fields, k - 1), Start(fields, k);
      assert b[..cut][at..to] == b[at..to];
    }
  }

  lemma {:induction false} WrittenExactly(b: Bytes, fields: seq<Field>)
    requires |b| == Start(fields, |fields|)
    ensures Write(fields) == b <==> AllHold(b, fields, |fields|)
    decreases |fields|
  {
    if fields != [] {
      hide Start, FieldBytes;
      var n := |fields| - 1;
      var front, last := fields[..n], fields[n];
      StartUnfolds(fields, n);
      StartPrefix(fields, n, n);
      var cut := Start(fields, n);
      WriteLength(front);
      WrittenExactly(b[..cut], front);
      SameHolds(b, cut, fields, n, n);
      WriteUnfolds(b, fields);
      assert b[cut..cut + Width(last)] == b[cut..];
      assert Holds(b, fields, n) <==> b[cut..] == FieldBytes(last);
      hide Write, AllHold, Holds;
      Joins(Write(front), FieldBytes(last), b, cut);
    }
  }

  lemma Joins(a: Bytes, c: Bytes, b: Bytes, cut: nat)
    requires |a| == cut <= |b|
    ensures a + c == b <==> a == b[..cut] && c == b[cut..]
  {
    assert b == b[..cut] + b[cut..];
    assert (a + c)[..cut] == a && (a + c)[cut..] == c;
  }

  lemma WriteUnfolds(b: Bytes, fields: seq<Field>)
    requires fields != []
    ensures var n := |fields| - 1;
      && Write(fields) == Write(fields[..n]) + FieldBytes(fields[n]) && (AllHold(b, fields, n + 1) <==> AllHold(b, fields, n) && Holds(b, fields, n))
  {
  }

  lemma StartUnfolds(fields: seq<Field>, k: nat)
    requires k < |fields|
    ensures Start(fields, k + 1) == Start(fields, k) + Width(fields[k])
  {
  }

  lemma FieldRead(b: Bytes, at: nat, f: Field)
    requires at + Width(f) <= |b|
    ensures b[at..at + Width(f)] == FieldBytes(f) <==> Reads(b, at, f)
  {
    var s := b[at..at + Width(f)];
    if f.Two? {
      LowRead(s, f.value);
      assert s[0] == b[at] && s[1] == b[at + 1];
    } else {
      var low, high := s[..2], s[2..];
      LowRead(low, f.wide % 0x1_0000);
      LowRead(high, f.wide / 0x1_0000);
      assert s == low + high;
      assert low[0] == b[at] && low[1] == b[at + 1] && high[0] == b[at + 2] && high[1] == b[at + 3];
      assert FieldBytes(f)[..2] == Low(f.wide % 0x1_0000) && FieldBytes(f)[2..] == Low(f.wide / 0x1_0000);
    }
  }

  predicate Reads(b: Bytes, at: nat, f: Field)
    requires at + Width(f) <= |b|
  {
    if f.Two? then U16(b, at) == f.value else U32(b, at) == f.wide
  }

  /** The next field of a record. */
  lemma ReadsNext(b: Bytes, fields: seq<Field>, k: nat, at: nat)
    requires k < |fields| && Start(fields, k) == at && at + Width(fields[k]) <= |b|
    ensures Start(fields, k + 1) == at + Width(fields[k])
    ensures AllHold(b, fields, k + 1) <==> AllHold(b, fields, k) && Reads(b, at, fields[k])
  {
    FieldRead(b, at, fields[k]);
  }

  lemma LowRead(s: Bytes, n: Word)
    requires |s| == 2
    ensures s == Low(n) <==> U16(s, 0) == n
  {
  }

  // ------------------------------------------------------------ the records

  lemma Signature(h: Bytes, wide: Double, bytes: Bytes)
    requires |h| >= 4 && |bytes| == 4 && wide == U32(bytes, 0)
    ensures U32(h, 0) == wide <==> h[..4] == bytes
  {
    FieldRead(h, 0, Four(wide));
    FieldRead(bytes, 0, Four(wide));
    assert bytes[0..4] == bytes && h[0..4] == h[..4];
  }

  lemma Signatures()
    ensures U32(LOCAL, 0) == 0x04034B50 && U32(CENTRAL, 0) == 0x02014B50 && U32(END, 0) == 0x06054B50
  {
  }

  /** The fields of a record at the places where they are read. */
  predicate LocalReads(h: Bytes, l: Local)
    requires |h| >= 30
  {
    && h[..4] == LOCAL
    && U16(h, 4) == l.version && U16(h, 6) == l.flags && U16(h, 8) == l.compression && U16(h, 10) == l.time
    && U16(h, 12) == l.date && U32(h, 14) == l.crc && U32(h, 18) == l.packed && U32(h, 22) == l.size
    && U16(h, 26) == |l.name| && U16(h, 28) == |l.extra|
  }

  lemma LocalExactly(h: Bytes, l: Local)
    requires |h| == 30
    ensures Write(LocalFields(l)) == h <==> LocalReads(h, l)
  {
    var f := LocalFields(l);
    assert Start(f, 0) == 0 && AllHold(h, f, 0);
    hide Start, Write, U16, U32, FieldBytes, AllHold;
    ReadsNext(h, f, 0, 0);
    ReadsNext(h, f, 1, 4);
    ReadsNext(h, f, 2, 6);
    ReadsNext(h, f, 3, 8);
    ReadsNext(h, f, 4, 10);
    ReadsNext(h, f, 5, 12);
    ReadsNext(h, f, 6, 14);
    ReadsNext(h, f, 7, 18);
    ReadsNext(h, f, 8, 22);
    ReadsNext(h, f, 9, 26);
    ReadsNext(h, f, 10, 28);
    WrittenExactly(h, f);
    Signatures();
    Signature(h, 0x04034B50, LOCAL);
  }

  /** The fields of a record at the places where they are read. */
  predicate CentralReads(h: Bytes, c: Central)
    requires |h| >= 46
  {
    && h[..4] == CENTRAL
    && U16(h, 4) == c.madeBy && U16(h, 6) == c.version && U16(h, 8) == c.flags && U16(h, 10) == c.compression
    && U16(h, 12) == c.time && U16(h, 14) == c.date && U32(h, 16) == c.crc && U32(h, 20) == c.packed
    && U32(h, 24) == c.size && U16(h, 28) == |c.name| && U16(h, 30) == |c.extra| && U16(h, 32) == |c.comment|
    && U16(h, 34) == c.disk && U16(h, 36) == c.inner && U32(h, 38) == c.outer && U32(h, 42) == c.offset
  }

  lemma CentralHead(h: Bytes, c: Central)
    requires |h| == 46
    ensures var f := CentralFields(c); Start(f, 6) == 14 && (AllHold(h, f, 6) <==>
      && U32(h, 0) == 0x02014B50
      && U16(h, 4) == c.madeBy && U16(h, 6) == c.version && U16(h, 8) == c.flags
      && U16(h, 10) == c.compression && U16(h, 12) == c.time)
  {
    var f := CentralFields(c);
    assert Start(f, 0) == 0 && AllHold(h, f, 0);
    hide Start, Write, U16, U32, FieldBytes, AllHold;
    ReadsNext(h, f, 0, 0);
    ReadsNext(h, f, 1, 4);
    ReadsNext(h, f, 2, 6);
    ReadsNext(h, f, 3, 8);
    ReadsNext(h, f, 4, 10);
    ReadsNext(h, f, 5, 12);
  }

  lemma CentralMiddle(h: Bytes, c: Central)
    requires |h| == 46
    ensures var f := CentralFields(c); Start(f, 12) == 32 && (AllHold(h, f, 12) <==>
      && AllHold(h, f, 6)
      && U16(h, 14) == c.date && U32(h, 16) == c.crc && U32(h, 20) == c.packed && U32(h, 24) == c.size
      && U16(h, 28) == |c.name| && U16(h, 30) == |c.extra|)
  {
    var f := CentralFields(c);
    hide Start, Write, U16, U32, FieldBytes, AllHold;
    CentralHead(h, c);
    ReadsNext(h, f, 6, 14);
    ReadsNext(h, f, 7, 16);
    ReadsNext(h, f, 8, 20);
    ReadsNext(h, f, 9, 24);
    ReadsNext(h, f, 10, 28);
    ReadsNext(h, f, 11, 30);
  }

  lemma CentralExactly(h: Bytes, c: Central)
    requires |h| == 46
    ensures Write(CentralFields(c)) == h <==> CentralReads(h, c)
  {
    var f := CentralFields(c);
    hide Start, Write, U16, U32, FieldBytes, AllHold;
    CentralHead(h, c);
    CentralMiddle(h, c);
    ReadsNext(h, f, 12, 32);
    ReadsNext(h, f, 13, 34);
    ReadsNext(h, f, 14, 36);
    ReadsNext(h, f, 15, 38);
    ReadsNext(h, f, 16, 42);
    WrittenExactly(h, f);
    Signatures();
    Signature(h, 0x02014B50, CENTRAL);
  }

  /** The fields of a record at the places where they are read. */
  predicate EndReads(h: Bytes, e: End)
    requires |h| >= 22
  {
    && h[..4] == END
    && U16(h, 4) == e.disk && U16(h, 6) == e.first && U16(h, 8) == e.here && U16(h, 10) == e.count
    && U32(h, 12) == e.bytes && U32(h, 16) == e.offset && U16(h, 20) == |e.comment|
  }

  lemma EndExactly(h: Bytes, e: End)
    requires |h| == 22
    ensures Write(EndFields(e)) == h <==> EndReads(h, e)
  {
    var f := EndFields(e);
    assert Start(f, 0) == 0 && AllHold(h, f, 0);
    hide Start, Write, U16, U32, FieldBytes, AllHold;
    ReadsNext(h, f, 0, 0);
    ReadsNext(h, f, 1, 4);
    ReadsNext(h, f, 2, 6);
    ReadsNext(h, f, 3, 8);
    ReadsNext(h, f, 4, 10);
    ReadsNext(h, f, 5, 12);
    ReadsNext(h, f, 6, 16);
    ReadsNext(h, f, 7, 20);
    WrittenExactly(h, f);
    Signatures();
    Signature(h, 0x06054B50, END);
  }

  // ------------------------------------------------------------- the entries

  lemma Pieces(file: Bytes, at: nat, a: Bytes, b: Bytes)
    ensures Lies(file, at, a + b) <==> Lies(file, at, a) && Lies(file, at + |a|, b)
  {
    if at + |a + b| <= |file| {
      var s := file[at..at + |a + b|];
      Joins(a, b, s, |a|);
      assert s[..|a|] == file[at..at + |a|] && s[|a|..] == file[at + |a|..at + |a| + |b|];
    }
  }

  lemma LocalLength(l: Local)
    ensures |Write(LocalFields(l))| == 30 && |LocalBytes(l)| == 30 + |l.name| + |l.extra|
  {
    var f := LocalFields(l);
    WriteLength(f);
    assert Start(f, 1) == 4;
    assert Start(f, 2) == 6;
    assert Start(f, 4) == 10;
    assert Start(f, 6) == 14;
    assert Start(f, 8) == 22;
    assert Start(f, 10) == 28;
  }

  lemma CentralLength(c: Central)
    ensures |Write(CentralFields(c))| == 46 && |CentralBytes(c)| == 46 + |c.name| + |c.extra| + |c.comment|
  {
    var f := CentralFields(c);
    WriteLength(f);
    assert Start(f, 1) == 4;
    assert Start(f, 2) == 6;
    assert Start(f, 4) == 10;
    assert Start(f, 6) == 14;
    assert Start(f, 8) == 20;
    assert Start(f, 10) == 28;
    assert Start(f, 12) == 32;
    assert Start(f, 14) == 36;
    assert Start(f, 16) == 42;
  }

  lemma EndLength(e: End)
    ensures |Write(EndFields(e))| == 22 && |EndBytes(e)| == 22 + |e.comment|
  {
    var f := EndFields(e);
    WriteLength(f);
    assert Start(f, 1) == 4;
    assert Start(f, 2) == 6;
    assert Start(f, 4) == 10;
    assert Start(f, 6) == 16;
  }

  /** A central record in a file, field by field. */
  predicate CentralLies(file: Bytes, at: nat, c: Central) {
    var n, x := at + 46 + |c.name|, at + 46 + |c.name| + |c.extra|;
    && x + |c.comment| <= |file| && CentralReads(file[at..at + 46], c)
    && file[at + 46..n] == c.name && file[n..x] == c.extra && file[x..x + |c.comment|] == c.comment
  }

  lemma CentralLiesExactly(file: Bytes, at: nat, c: Central)
    ensures Lies(file, at, CentralBytes(c)) <==> CentralLies(file, at, c)
  {
    hide Write, CentralFields, CentralReads;
    var w := Write(CentralFields(c));
    CentralLength(c);
    Pieces(file, at, w + c.name + c.extra, c.comment);
    Pieces(file, at, w + c.name, c.extra);
    Pieces(file, at, w, c.name);
    if at + 46 <= |file| { CentralExactly(file[at..at + 46], c); }
  }

  predicate LocalLies(file: Bytes, at: nat, l: Local) {
    var n := at + 30 + |l.name|;
    n + |l.extra| <= |file| && LocalReads(file[at..at + 30], l) && file[at + 30..n] == l.name && file[n..n + |l.extra|] == l.extra
  }

  lemma LocalLiesExactly(file: Bytes, at: nat, l: Local)
    ensures Lies(file, at, LocalBytes(l)) <==> LocalLies(file, at, l)
  {
    hide Write, LocalFields, LocalReads;
    var w := Write(LocalFields(l));
    LocalLength(l);
    Pieces(file, at, w + l.name, l.extra);
    Pieces(file, at, w, l.name);
    if at + 30 <= |file| { LocalExactly(file[at..at + 30], l); }
  }

  /** What the reader looks at. */
  lemma CentralShown(file: Bytes, at: nat, c: Central)
    requires Lies(file, at, CentralBytes(c))
    ensures at + 46 + |c.name| + |c.extra| + |c.comment| <= |file| && At(file, at, 46) == Some(file[at..at + 46])
    ensures At(file, at + 46, |c.name|) == Option<Bytes>.Some(c.name)
    ensures var h := file[at..at + 46];
      && h[..4] == CENTRAL && U16(h, 8) == c.flags && U16(h, 10) == c.compression && U32(h, 16) == c.crc && U32(h, 20) == c.packed
      && U32(h, 24) == c.size && U16(h, 28) == |c.name| && U16(h, 30) == |c.extra| && U16(h, 32) == |c.comment| && U16(h, 34) == c.disk
      && U32(h, 42) == c.offset
  {
    hide CentralBytes, Lies, U16, U32;
    CentralLiesExactly(file, at, c);
  }

  lemma LocalShown(file: Bytes, at: nat, l: Local)
    requires Lies(file, at, LocalBytes(l))
    ensures at + 30 + |l.name| + |l.extra| <= |file| && At(file, at, 30) == Some(file[at..at + 30])
    ensures At(file, at + 30, |l.name|) == Option<Bytes>.Some(l.name)
    ensures var g := file[at..at + 30];
      && g[..4] == LOCAL && U16(g, 6) == l.flags && U16(g, 8) == l.compression && U32(g, 14) == l.crc && U32(g, 18) == l.packed
      && U32(g, 22) == l.size && U16(g, 26) == |l.name| && U16(g, 28) == |l.extra|
  {
    hide LocalBytes, Lies, U16, U32;
    LocalLiesExactly(file, at, l);
  }

  /** The reader returns the fields of an entry that lies in the file. */
  lemma EntryIsRead(rule: NameRule, file: Bytes, e: Entry, at: nat, directory: nat, end: nat)
    requires EntryLies(rule, file, e, at, directory, end)
    ensures ReadMember(rule, file, at, directory, end) == Some(MemberOf(e, at))
  {
    hide CentralBytes, LocalBytes, Lies, U16, U32, Bit, At, Ascii;
    CentralLength(e.central);
    LocalLength(e.local);
    CentralShown(file, at, e.central);
    LocalShown(file, e.central.offset, e.local);
  }

  function CentralOf(h: Bytes, name: Text, extra: Text, comment: Text): Central
    requires |h| == 46
  {
    Central(U16(h, 4), U16(h, 6), U16(h, 8), U16(h, 10), U16(h, 12), U16(h, 14), U32(h, 16), U32(h, 20), U32(h, 24),
            U16(h, 34), U16(h, 36), U32(h, 38), U32(h, 42), name, extra, comment)
  }

  function LocalOf(h: Bytes, name: Text, extra: Text): Local
    requires |h| == 30
  {
    Local(U16(h, 4), U16(h, 6), U16(h, 8), U16(h, 10), U16(h, 12), U32(h, 14), U32(h, 18), U32(h, 22), name, extra)
  }

  lemma CentralFound(file: Bytes, at: nat) returns (c: Central)
    requires at + 46 <= |file| && var h := file[at..at + 46]; h[..4] == CENTRAL && at + 46 + U16(h, 28) + U16(h, 30) + U16(h, 32) <= |file|
    ensures Lies(file, at, CentralBytes(c))
  {
    hide U16, U32;
    var h := file[at..at + 46];
    var n, x := at + 46 + U16(h, 28), at + 46 + U16(h, 28) + U16(h, 30);
    c := CentralOf(h, file[at + 46..n], file[n..x], file[x..x + U16(h, 32)]);
    CentralLiesExactly(file, at, c);
  }

  lemma LocalFound(file: Bytes, at: nat) returns (l: Local)
    requires at + 30 <= |file| && var g := file[at..at + 30]; g[..4] == LOCAL && at + 30 + U16(g, 26) + U16(g, 28) <= |file|
    ensures Lies(file, at, LocalBytes(l))
  {
    hide U16, U32;
    var g := file[at..at + 30];
    var k := at + 30 + U16(g, 26);
    l := LocalOf(g, file[at + 30..k], file[k..k + U16(g, 28)]);
    LocalLiesExactly(file, at, l);
  }

  /** Whatever the reader takes for an entry is one. */
  lemma EntryFound(rule: NameRule, file: Bytes, at: nat, directory: nat, end: nat) returns (e: Entry)
    requires ReadMember(rule, file, at, directory, end).Some? && end <= |file| && directory <= |file|
    ensures EntryLies(rule, file, e, at, directory, end)
  {
    hide U16, U32, Bit, CentralBytes, LocalBytes, Lies, Ascii;
    var c := CentralFound(file, at);
    var l := LocalFound(file, U32(file[at..at + 46], 42));
    e := Entry(c, l);
    CentralLength(c);
    CentralShown(file, at, c);
    LocalLength(l);
    LocalShown(file, c.offset, l);
  }

  // ----------------------------------------------------------- whole archives

  lemma {:induction false} EntriesAreRead(rule: NameRule, file: Bytes, entries: seq<Entry>, at: nat, directory: nat, end: nat)
    requires EntriesLie(rule, file, entries, at, directory, end)
    ensures ReadMembers(rule, file, at, |entries|, directory, end) == Some(MembersOf(entries, at))
    decreases |entries|
  {
    hide ReadMember, EntryLies;
    if entries != [] {
      EntryIsRead(rule, file, entries[0], at, directory, end);
      EntriesAreRead(rule, file, entries[1..], at + |CentralBytes(entries[0].central)|, directory, end);
    }
  }

  lemma {:induction false} EntriesFound(rule: NameRule, file: Bytes, at: nat, count: nat, directory: nat, end: nat) returns (entries: seq<Entry>)
    requires ReadMembers(rule, file, at, count, directory, end).Some? && end <= |file| && directory <= |file|
    ensures |entries| == count && EntriesLie(rule, file, entries, at, directory, end)
    decreases count
  {
    hide ReadMember, EntryLies;
    entries := [];
    if count > 0 {
      var e := EntryFound(rule, file, at, directory, end);
      EntryIsRead(rule, file, e, at, directory, end);
      var rest := EntriesFound(rule, file, at + |CentralBytes(e.central)|, count - 1, directory, end);
      entries := [e] + rest;
      assert entries[0] == e && entries[1..] == rest;
    }
  }

  lemma {:induction false} LastEndIs(tail: Bytes, before: nat, i: nat)
    requires before <= |tail| && i + 4 <= before && SignatureAt(tail, i)
    requires forall j :: i < j <= before - 4 ==> !SignatureAt(tail, j)
    ensures LastEnd(tail, before) == Some(i)
    decreases before
  {
    if i + 4 < before {
      assert !SignatureAt(tail, before - 4);
      LastEndIs(tail, before - 1, i);
    }
  }

  lemma {:induction false} LastEndMeans(tail: Bytes, before: nat)
    requires before <= |tail| && LastEnd(tail, before).Some?
    ensures var i := LastEnd(tail, before).value;
      i + 4 <= before && SignatureAt(tail, i) && forall j :: i < j <= before - 4 ==> !SignatureAt(tail, j)
    decreases before
  {
    if !SignatureAt(tail, before - 4) { LastEndMeans(tail, before - 1); }
  }

  function TailStart(file: Bytes): nat {
    if |file| > MAX_TAIL then |file| - MAX_TAIL else 0
  }

  lemma SameSignature(file: Bytes, start: nat, i: nat)
    requires start <= |file|
    ensures SignatureAt(file[start..], i) <==> SignatureAt(file, start + i)
  {
    if start + i + 4 <= |file| { assert file[start..][i..i + 4] == file[start + i..start + i + 4]; }
  }

  lemma SameSignatures(file: Bytes, start: nat)
    requires start <= |file|
    ensures forall i: nat :: SignatureAt(file[start..], i) <==> SignatureAt(file, start + i)
    ensures forall i: nat :: start <= i ==> (SignatureAt(file, i) <==> SignatureAt(file[start..], i - start))
  {
    forall i: nat
      ensures SignatureAt(file[start..], i) <==> SignatureAt(file, start + i)
    {
      SameSignature(file, start, i);
    }
    forall i: nat | start <= i
      ensures SignatureAt(file, i) <==> SignatureAt(file[start..], i - start)
    {
      SameSignature(file, start, i - start);
    }
  }

  /** An end record, field by field. */
  lemma EndLiesExactly(file: Bytes, at: nat, e: End)
    requires at + 22 <= |file|
    ensures var f := file[at..]; Lies(file, at, EndBytes(e)) && at + |EndBytes(e)| == |file| <==> EndReads(f, e) && f[22..] == e.comment
  {
    hide Write, EndFields, EndReads;
    var f := file[at..];
    EndLength(e);
    Pieces(file, at, Write(EndFields(e)), e.comment);
    EndExactly(file[at..at + 22], e);
    EndFront(f, e);
    assert f[..22] == file[at..at + 22];
    assert f[22..] == file[at + 22..];
  }

  lemma EndFront(f: Bytes, e: End)
    requires |f| >= 22
    ensures EndReads(f[..22], e) <==> EndReads(f, e)
  {
    assert f[..22][..4] == f[..4];
  }

  lemma EndIsRead(file: Bytes, e: End, at: nat)
    requires EndLies(file, e, at)
    ensures ReadFooter(file) == Some(Footer(e.offset, at, e.count))
  {
    hide EndBytes, Lies, U16, U32, SignatureAt, LastEnd;
    EndLength(e);
    EndLiesExactly(file, at, e);
    var start := TailStart(file);
    var tail := file[start..];
    SameSignatures(file, start);
    assert SignatureAt(file, at) by { EndSignature(file, at, e); }
    LastEndIs(tail, |tail|, at - start);
    assert tail[at - start..] == file[at..];
  }

  lemma EndSignature(file: Bytes, at: nat, e: End)
    requires at + 22 <= |file| && EndReads(file[at..], e)
    ensures SignatureAt(file, at)
  {
    assert file[at..][..4] == file[at..at + 4];
  }

  function EndOf(f: Bytes, comment: Text): End
    requires |f| >= 22
  {
    End(U16(f, 4), U16(f, 6), U16(f, 8), U16(f, 10), U32(f, 12), U32(f, 16), comment)
  }

  lemma EndFound(file: Bytes) returns (e: End, at: nat)
    requires ReadFooter(file).Some?
    ensures EndLies(file, e, at) && at <= |file|
  {
    hide EndBytes, Lies, U16, U32, SignatureAt, LastEnd;
    var start := TailStart(file);
    var tail := file[start..];
    LastEndMeans(tail, |tail|);
    SameSignatures(file, start);
    var i := LastEnd(tail, |tail|).value;
    at := start + i;
    var f := file[at..];
    assert tail[i..] == f;
    e := EndOf(f, f[22..]);
    assert f[..4] == END by { SignatureFront(file, at); }
    EndLiesExactly(file, at, e);
    forall j | at < j
      ensures !SignatureAt(file, j)
    {
      if j + 4 <= |file| { assert !SignatureAt(tail, j - start); } else { TooLate(file, j); }
    }
  }

  lemma SignatureFront(file: Bytes, at: nat)
    requires SignatureAt(file, at)
    ensures at <= |file| && |file[at..]| >= 4 && file[at..][..4] == END
  {
    assert file[at..][..4] == file[at..at + 4];
  }

  lemma TooLate(file: Bytes, j: nat)
    requires j + 4 > |file|
    ensures !SignatureAt(file, j)
  {
  }

  /** The reader accepts exactly archives made of the records above, laid out as they should be
      and with disjoint entries, and it returns the fields of their entries. */
  lemma ReadsExactlyArchives(rule: NameRule, file: Bytes, members: seq<Member>)
    ensures ZipDirectory(rule, file) == Some(members) <==>
      exists e, at, entries :: Archive(rule, file, e, at, entries) && members == MembersOf(entries, e.offset)
  {
    hide ReadFooter, ReadMembers, EndLies, EntriesLie, Disjoint, Adjacent, Sort;
    if ZipDirectory(rule, file) == Some(members) {
      var e, at := EndFound(file);
      EndIsRead(file, e, at);
      EndBounds(file, e, at);
      var entries := EntriesFound(rule, file, e.offset, e.count, e.offset, at);
      EntriesAreRead(rule, file, entries, e.offset, e.offset, at);
      AcceptedLayout(rule, file);
      assert Archive(rule, file, e, at, entries);
    }
    if e, at, entries :| Archive(rule, file, e, at, entries) && members == MembersOf(entries, e.offset) {
      EndIsRead(file, e, at);
      EntriesAreRead(rule, file, entries, e.offset, e.offset, at);
      AcceptedLayout(rule, file);
    }
  }

  lemma EndBounds(file: Bytes, e: End, at: nat)
    requires EndLies(file, e, at)
    ensures e.offset <= at <= |file|
  {
  }
}
