/** The journal of an update transaction, and what a reader accepts as one. */
module UpdateJournal {

  /** One ROOT path an update replaces, adds or removes. An empty hash means "no file". */
  datatype Entry = Entry(name: string, original: string, replacement: string, size: nat, existed: bool)

  /** A ROOT file copied from its carried copy while the update awaits its health check. */
  datatype RootCopy = RootCopy(name: string, hash: string)

  datatype Journal = Journal(state: string, files: seq<Entry>, promoted: seq<RootCopy>)

  /** Case folding of file names, and the path ownership rule of the build. */
  datatype Policy = Policy(fold: string -> string, owned: string -> bool)

  const MAX_FILES := 4096
  const MAX_PROMOTED := 64
  const MAX_FILE_SIZE := 536870912
  const INVENTORY := "product-inventory.json"

  predicate HexDigit(c: char) {
    '0' <= c <= '9' || 'a' <= c <= 'f'
  }

  predicate ValidHash(text: string) {
    |text| == 64 && forall i :: 0 <= i < |text| ==> HexDigit(text[i])
  }

  predicate AcceptedEntry(p: Policy, e: Entry) {
    && p.owned(e.name)
    && e.size <= MAX_FILE_SIZE
    && (if e.existed then ValidHash(e.original) else e.original == "")
    && (e.replacement == "" || ValidHash(e.replacement))
  }

  predicate AcceptedCopy(p: Policy, c: RootCopy) {
    p.owned(c.name) && '/' !in c.name && ValidHash(c.hash)
  }

  /** No two names of a journal fold to the same one. */
  predicate Apart(p: Policy, files: seq<Entry>, promoted: seq<RootCopy>) {
    && (forall i, j :: 0 <= i < j < |files| ==> p.fold(files[i].name) != p.fold(files[j].name))
    && (forall i, j :: 0 <= i < |files| && 0 <= j < |promoted| ==> p.fold(files[i].name) != p.fold(promoted[j].name))
    && (forall i, j :: 0 <= i < j < |promoted| ==> p.fold(promoted[i].name) != p.fold(promoted[j].name))
  }

  /** What loading requires of a journal. */
  predicate Accepted(p: Policy, j: Journal) {
    && 0 < |j.files| <= MAX_FILES
    && (forall i :: 0 <= i < |j.files| ==> AcceptedEntry(p, j.files[i]))
    && j.files[|j.files| - 1].name == INVENTORY
    && |j.promoted| <= MAX_PROMOTED
    && (forall i :: 0 <= i < |j.promoted| ==> AcceptedCopy(p, j.promoted[i]))
    && Apart(p, j.files, j.promoted)
  }

  // --------------------------------------------------------- hashes as printed

  type Byte = n: nat | n < 256

  function Figure(d: nat): char
    requires d < 16
  {
    if d < 10 then ('0' as int + d) as char else ('a' as int + d - 10) as char
  }

  /** Two figures for each byte, the higher one first. */
  function HexText(bytes: seq<Byte>): string {
    if bytes == [] then "" else [Figure(bytes[0] / 16), Figure(bytes[0] % 16)] + HexText(bytes[1..])
  }

  lemma {:induction false} HexTextIs(bytes: seq<Byte>)
    ensures var text := HexText(bytes); |text| == 2 * |bytes| && forall i :: 0 <= i < |text| ==> HexDigit(text[i])
  {
    if bytes != [] { HexTextIs(bytes[1..]); }
  }

  lemma FigureFound(c: char) returns (d: nat)
    requires HexDigit(c)
    ensures d < 16 && Figure(d) == c
  {
    d := if c <= '9' then c as int - '0' as int else c as int - 'a' as int + 10;
  }

  lemma {:induction false} BytesFound(text: string) returns (bytes: seq<Byte>)
    requires |text| % 2 == 0 && forall i :: 0 <= i < |text| ==> HexDigit(text[i])
    ensures HexText(bytes) == text
  {
    if text == "" {
      bytes := [];
    } else {
      var high := FigureFound(text[0]);
      var low := FigureFound(text[1]);
      var rest := BytesFound(text[2..]);
      var first: Byte := 16 * high + low;
      bytes := [first] + rest;
      assert bytes[1..] == rest && first / 16 == high && first % 16 == low;
      assert text == [text[0], text[1]] + text[2..];
    }
  }

  /** The loader takes for hashes exactly the printed forms of 32 bytes. */
  lemma ValidHashExactly(text: string)
    ensures ValidHash(text) <==> exists bytes: seq<Byte> :: |bytes| == 32 && HexText(bytes) == text
  {
    if ValidHash(text) {
      var bytes := BytesFound(text);
      HexTextIs(bytes);
    }
    if bytes: seq<Byte> :| |bytes| == 32 && HexText(bytes) == text { HexTextIs(bytes); }
  }
}
