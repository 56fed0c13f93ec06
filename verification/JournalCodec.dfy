/** The journal as a file: written as JSON, and read back with every check of a loader. */
module JournalCodec {
  import opened UpdateJournal
  import opened Utf8
  import opened Json
  import opened JsonReader
  import opened JsonQuote
  import opened JsonPrint
  import JsonCorrect
  import JsonParser

  // ------------------------------------------------------------------ format

  function EntryJson(e: Entry): Json {
    Object([Member("path", Text(e.name)), Member("existed", Boolean(e.existed)), Member("original", Text(e.original)),
            Member("replacement", Text(e.replacement)), Member("size", Number(e.size))])
  }

  function CopyJson(c: RootCopy): Json {
    Object([Member("path", Text(c.name)), Member("sha256", Text(c.hash))])
  }

  function EntriesJson(files: seq<Entry>): (items: seq<Json>)
    ensures |items| == |files|
  {
    seq(|files|, i requires 0 <= i < |files| => EntryJson(files[i]))
  }

  function CopiesJson(copies: seq<RootCopy>): (items: seq<Json>)
    ensures |items| == |copies|
  {
    seq(|copies|, i requires 0 <= i < |copies| => CopyJson(copies[i]))
  }

  /** The promoted copies are left out when there are none. */
  function JournalJson(j: Journal): Json {
    var members := [Member("schema", Number(1)), Member("state", Text(j.state)), Member("files", Array(EntriesJson(j.files)))];
    Object(if j.promoted == [] then members else members + [Member("promoted", Array(CopiesJson(j.promoted)))])
  }

  function SaveText(j: Journal): string {
    Print(JournalJson(j))
  }

  /** A member of an object, or null. No kind a loader asks for is null. */
  function At(v: Json, key: string): Json {
    if v.Object? then Lookup(v.members, key) else Null
  }

  function Lookup(members: seq<Member>, key: string): Json {
    if members == [] then Null
    else if members[0].key == key then members[0].value
    else Lookup(members[1..], key)
  }

  predicate EntryShaped(v: Json) {
    && At(v, "path").Text? && At(v, "original").Text? && At(v, "replacement").Text?
    && At(v, "size").Number? && At(v, "existed").Boolean?
  }

  function EntryOf(v: Json): Entry
    requires EntryShaped(v)
  {
    Entry(At(v, "path").text, At(v, "original").text, At(v, "replacement").text, At(v, "size").number, At(v, "existed").truth)
  }

  predicate CopyShaped(v: Json) {
    At(v, "path").Text? && At(v, "sha256").Text?
  }

  function CopyOf(v: Json): RootCopy
    requires CopyShaped(v)
  {
    RootCopy(At(v, "path").text, At(v, "sha256").text)
  }

  /** A null list of copies is a fault, a missing one is empty. */
  predicate HasCopies(v: Json) {
    v.Object? && HasKey(v.members, "promoted")
  }

  predicate Shaped(v: Json) {
    && At(v, "schema") == Number(1) && At(v, "state").Text? && At(v, "files").Array?
    && (forall i :: 0 <= i < |At(v, "files").items| ==> EntryShaped(At(v, "files").items[i]))
    && (HasCopies(v) ==> At(v, "promoted").Array? && forall i :: 0 <= i < |At(v, "promoted").items| ==> CopyShaped(At(v, "promoted").items[i]))
  }

  function Decode(v: Json): Journal
    requires Shaped(v)
  {
    var items := At(v, "files").items;
    var copies := if HasCopies(v) then At(v, "promoted").items else [];
    Journal(At(v, "state").text, seq(|items|, i requires 0 <= i < |items| => EntryOf(items[i])),
            seq(|copies|, i requires 0 <= i < |copies| => CopyOf(copies[i])))
  }

  datatype Loaded = Stored(journal: Journal) | Unusable

  function Checked(p: Policy, v: Json): Loaded {
    if Shaped(v) && Accepted(p, Decode(v)) then Stored(Decode(v)) else Unusable
  }

  function Load(p: Policy, text: string): Loaded {
    var r := Parse(text);
    if r.Good? then Checked(p, r.value) else Unusable
  }

  // -------------------------------------------------------------- round trip

  predicate SizesFit(j: Journal) {
    forall i :: 0 <= i < |j.files| ==> j.files[i].size <= MAX_NUMBER
  }

  predicate TextsFit(j: Journal) {
    && Valid(j.state)
    && (forall i :: 0 <= i < |j.files| ==> Valid(j.files[i].name) && Valid(j.files[i].original) && Valid(j.files[i].replacement))
    && (forall i :: 0 <= i < |j.promoted| ==> Valid(j.promoted[i].name) && Valid(j.promoted[i].hash))
  }

  /** An object with one more member at its start. */
  lemma Cons(m: Member, ms: seq<Member>, depth: nat, used: set<string>)
    ensures var all := [m] + ms;
      && (PrintableMembers(all, depth, used) <==> m.key !in used && Printable(m.value, depth) && PrintableMembers(ms, depth, used + {m.key}))
      && CountMembers(all) == Count(m.value) + CountMembers(ms)
      && (MembersValid(all) <==> Valid(m.key) && AllValid(m.value) && MembersValid(ms))
      && (forall key :: Lookup(all, key) == if m.key == key then m.value else Lookup(ms, key))
  {
    assert ([m] + ms)[1..] == ms;
  }

  lemma KeysValid()
    ensures Valid("path") && Valid("existed") && Valid("original") && Valid("replacement") && Valid("size") && Valid("sha256")
    ensures Valid("schema") && Valid("state") && Valid("files") && Valid("promoted")
  {
    hide Valid;
    AsciiValid("path"); AsciiValid("existed"); AsciiValid("original"); AsciiValid("replacement"); AsciiValid("size"); AsciiValid("sha256");
    AsciiValid("schema"); AsciiValid("state"); AsciiValid("files"); AsciiValid("promoted");
  }

  lemma KeysDiffer()
    ensures "existed" != "path" && "original" !in {"path", "existed"} && "replacement" !in {"path", "existed", "original"}
    ensures "size" !in {"path", "existed", "original", "replacement"}
  {
    assert "size"[0] == 's' && "path"[0] == 'p';
  }

  lemma EntryPrintable(e: Entry)
    requires e.size <= MAX_NUMBER
    ensures Printable(EntryJson(e), 2) && Count(EntryJson(e)) == 6
    ensures Valid(e.name) && Valid(e.original) && Valid(e.replacement) ==> AllValid(EntryJson(e))
    ensures EntryShaped(EntryJson(e)) && EntryOf(EntryJson(e)) == e
  {
    hide Valid, PrintableMembers, CountMembers, MembersValid, Lookup;
    KeysValid();
    KeysDiffer();
    var m := EntryJson(e).members;
    Empty(3);
    Cons(m[4], [], 3, {"path", "existed", "original", "replacement"});
    Cons(m[3], [m[4]], 3, {"path", "existed", "original"});
    Cons(m[2], [m[3], m[4]], 3, {"path", "existed"});
    Cons(m[1], [m[2], m[3], m[4]], 3, {"path"});
    Cons(m[0], [m[1], m[2], m[3], m[4]], 3, {});
    assert [m[4]] + [] == [m[4]] && [m[3]] + [m[4]] == [m[3], m[4]] && [m[2]] + [m[3], m[4]] == [m[2], m[3], m[4]];
    assert [m[1]] + [m[2], m[3], m[4]] == [m[1], m[2], m[3], m[4]] && [m[0]] + [m[1], m[2], m[3], m[4]] == m;
    assert {} + {"path"} == {"path"} && {"path"} + {"existed"} == {"path", "existed"};
    assert {"path", "existed"} + {"original"} == {"path", "existed", "original"};
    assert {"path", "existed", "original"} + {"replacement"} == {"path", "existed", "original", "replacement"};
  }

  lemma Empty(depth: nat)
    ensures forall used :: PrintableMembers([], depth, used)
    ensures CountMembers([]) == 0 && MembersValid([]) && forall key :: Lookup([], key) == Null
  {
  }

  lemma CopyPrintable(c: RootCopy)
    ensures Printable(CopyJson(c), 2) && Count(CopyJson(c)) == 3
    ensures Valid(c.name) && Valid(c.hash) ==> AllValid(CopyJson(c))
    ensures CopyShaped(CopyJson(c)) && CopyOf(CopyJson(c)) == c
  {
    hide Valid, PrintableMembers, CountMembers, MembersValid, Lookup;
    KeysValid();
    var m := CopyJson(c).members;
    Empty(3);
    Cons(m[1], [], 3, {"path"});
    Cons(m[0], [m[1]], 3, {});
    assert [m[1]] + [] == [m[1]] && [m[0]] + [m[1]] == m && {} + {"path"} == {"path"};
  }

  lemma {:induction false} EntriesPrintable(files: seq<Entry>)
    requires forall i :: 0 <= i < |files| ==> files[i].size <= MAX_NUMBER
    ensures PrintableItems(EntriesJson(files), 2) && CountItems(EntriesJson(files)) == 6 * |files|
    ensures (forall i :: 0 <= i < |files| ==> Valid(files[i].name) && Valid(files[i].original) && Valid(files[i].replacement))
      ==> ItemsValid(EntriesJson(files))
  {
    hide Valid, Printable, Count, AllValid;
    if files != [] {
      EntryPrintable(files[0]);
      EntriesPrintable(files[1..]);
      assert EntriesJson(files)[1..] == EntriesJson(files[1..]);
    }
  }

  lemma {:induction false} CopiesPrintable(copies: seq<RootCopy>)
    ensures PrintableItems(CopiesJson(copies), 2) && CountItems(CopiesJson(copies)) == 3 * |copies|
    ensures (forall i :: 0 <= i < |copies| ==> Valid(copies[i].name) && Valid(copies[i].hash)) ==> ItemsValid(CopiesJson(copies))
  {
    hide Valid, Printable, Count, AllValid;
    if copies != [] {
      CopyPrintable(copies[0]);
      CopiesPrintable(copies[1..]);
      assert CopiesJson(copies)[1..] == CopiesJson(copies[1..]);
    }
  }

  /** The number of values in a journal's text. */
  function JournalNodes(j: Journal): nat {
    4 + 6 * |j.files| + if j.promoted == [] then 0 else 1 + 3 * |j.promoted|
  }

  lemma JournalPrintable(j: Journal)
    requires SizesFit(j)
    ensures Printable(JournalJson(j), 0) && Count(JournalJson(j)) == JournalNodes(j)
    ensures TextsFit(j) ==> AllValid(JournalJson(j))
    ensures var v := JournalJson(j);
      && At(v, "schema") == Number(1) && At(v, "state") == Text(j.state) && At(v, "files") == Array(EntriesJson(j.files))
      && (j.promoted != [] ==> At(v, "promoted") == Array(CopiesJson(j.promoted)))
  {
    hide Valid, PrintableMembers, CountMembers, MembersValid, Lookup, PrintableItems, CountItems, ItemsValid;
    KeysValid();
    EntriesPrintable(j.files);
    CopiesPrintable(j.promoted);
    Empty(1);
    var m := JournalJson(j).members;
    var last := if j.promoted == [] then [] else [m[3]];
    assert "schema"[1] == 'c' && "state"[1] == 't';
    if j.promoted != [] { Cons(m[3], [], 1, {"schema", "state", "files"}); }
    Cons(m[2], last, 1, {"schema", "state"});
    Cons(m[1], [m[2]] + last, 1, {"schema"});
    Cons(m[0], [m[1]] + ([m[2]] + last), 1, {});
    assert j.promoted != [] ==> [m[3]] + [] == [m[3]];
    assert m == [m[0]] + ([m[1]] + ([m[2]] + last));
    assert {} + {"schema"} == {"schema"} && {"schema"} + {"state"} == {"schema", "state"} && {"schema", "state"} + {"files"} == {"schema", "state", "files"};
  }

  lemma JournalDecodes(j: Journal)
    requires SizesFit(j)
    ensures Shaped(JournalJson(j)) && Decode(JournalJson(j)) == j
  {
    hide Lookup;
    JournalPrintable(j);
    var v := JournalJson(j);
    forall i | 0 <= i < |j.files|
      ensures EntryShaped(EntriesJson(j.files)[i]) && EntryOf(EntriesJson(j.files)[i]) == j.files[i]
    {
      EntryPrintable(j.files[i]);
    }
    forall i | 0 <= i < |j.promoted|
      ensures CopyShaped(CopiesJson(j.promoted)[i]) && CopyOf(CopiesJson(j.promoted)[i]) == j.promoted[i]
    {
      CopyPrintable(j.promoted[i]);
    }
    assert HasCopies(v) <==> j.promoted != [] by {
      if j.promoted != [] { assert v.members[3].key == "promoted"; }
      else { assert v.members[0].key == "schema" && v.members[1].key == "state" && v.members[2].key == "files"; }
    }
  }

  /** Of the journals whose text can be saved at all, exactly the acceptable ones are loaded,
      and they are loaded unchanged. */
  lemma SaveLoad(p: Policy, j: Journal)
    requires SizesFit(j) && JournalNodes(j) <= MAX_NODES && Parse(SaveText(j)).Good?
    ensures Load(p, SaveText(j)) == if Accepted(p, j) then Stored(j) else Unusable
  {
    hide Parse, Print;
    JournalPrintable(j);
    AcceptedPrint(JournalJson(j));
    JournalDecodes(j);
  }

  /** An acceptable journal is loaded as it was saved, whenever its names are UTF-8 and its
      text is not too long. */
  lemma LoadsWhatWasSaved(p: Policy, j: Journal)
    requires Accepted(p, j) && TextsFit(j) && |SaveText(j)| <= MAX_BYTES
    ensures Parse(SaveText(j)).Good? && Load(p, SaveText(j)) == Stored(j)
  {
    hide Parse, Print;
    assert SizesFit(j);
    JournalPrintable(j);
    PrintRoundTrip(JournalJson(j));
    SaveLoad(p, j);
  }

  // ------------------------------------------------------------------ saving

  lemma {:induction false} PlainQuote(key: string)
    requires forall i :: 0 <= i < |key| ==> key[i] as int >= 32 && key[i] != '"' && key[i] != '\\'
    ensures QuoteChars(key) == key
  {
    if key != "" {
      PlainQuote(key[1..]);
      assert key == [key[0]] + key[1..];
    }
  }

  /** How keys stand in a text: after an opening brace, and after a comma. */
  lemma EntryKeysPlain()
    ensures "{" + Quote("path") + ":" == "{\"path\":" && "," + Quote("existed") + ":" == ",\"existed\":"
    ensures "," + Quote("original") + ":" == ",\"original\":" && "," + Quote("replacement") + ":" == ",\"replacement\":"
    ensures "," + Quote("size") + ":" == ",\"size\":" && "," + Quote("sha256") + ":" == ",\"sha256\":"
  {
    hide QuoteChars;
    PlainQuote("path"); PlainQuote("existed"); PlainQuote("original"); PlainQuote("replacement"); PlainQuote("size"); PlainQuote("sha256");
  }

  lemma JournalKeysPlain()
    ensures "{" + Quote("schema") + ":" == "{\"schema\":" && "," + Quote("state") + ":" == ",\"state\":"
    ensures "," + Quote("files") + ":" == ",\"files\":" && "," + Quote("promoted") + ":" == ",\"promoted\":"
  {
    hide QuoteChars;
    PlainQuote("schema"); PlainQuote("state"); PlainQuote("files"); PlainQuote("promoted");
  }

  /** One member and what follows it: `lead` is the brace or comma before it, `title` both
      with the key. */
  lemma PrintOne(lead: string, title: string, m: Member, ms: seq<Member>)
    requires lead + Quote(m.key) + ":" == title
    ensures lead + PrintMembers([m] + ms) == title + (Print(m.value) + if ms == [] then "}" else "," + PrintMembers(ms))
  {
    hide Quote, Print;
    assert ([m] + ms)[1..] == ms;
    var after := if ms == [] then "}" else "," + PrintMembers(ms);
    Together(lead, Quote(m.key), Print(m.value) + after);
  }

  lemma Together(a: string, b: string, c: string)
    ensures a + (b + (":" + c)) == a + b + ":" + c
  {
  }

  function EntryText(e: Entry): string {
    "{\"path\":" + (Quote(e.name) + (",\"existed\":" + ((if e.existed then "true" else "false") + (",\"original\":" + (Quote(e.original)
    + (",\"replacement\":" + (Quote(e.replacement) + (",\"size\":" + (DecimalText(e.size) + "}")))))))))
  }

  lemma EntryTextIs(e: Entry)
    ensures EntryText(e) == Print(EntryJson(e))
  {
    hide Quote, DecimalText, PrintMembers;
    EntryKeysPlain();
    var m := EntryJson(e).members;
    assert m == [m[0]] + [m[1], m[2], m[3], m[4]];
    PrintOne("{", "{\"path\":", m[0], [m[1], m[2], m[3], m[4]]);
    PrintOne(",", ",\"existed\":", m[1], [m[2], m[3], m[4]]);
    PrintOne(",", ",\"original\":", m[2], [m[3], m[4]]);
    PrintOne(",", ",\"replacement\":", m[3], [m[4]]);
    PrintOne(",", ",\"size\":", m[4], []);
    assert [m[4]] + [] == [m[4]] && [m[3]] + [m[4]] == [m[3], m[4]] && [m[2]] + [m[3], m[4]] == [m[2], m[3], m[4]];
    assert [m[1]] + [m[2], m[3], m[4]] == [m[1], m[2], m[3], m[4]];
  }

  function CopyText(c: RootCopy): string {
    "{\"path\":" + (Quote(c.name) + (",\"sha256\":" + (Quote(c.hash) + "}")))
  }

  lemma CopyTextIs(c: RootCopy)
    ensures CopyText(c) == Print(CopyJson(c))
  {
    hide Quote, PrintMembers;
    EntryKeysPlain();
    var m := CopyJson(c).members;
    assert m == [m[0]] + [m[1]] && [m[1]] == [m[1]] + [];
    PrintOne("{", "{\"path\":", m[0], [m[1]]);
    PrintOne(",", ",\"sha256\":", m[1], []);
  }

  function JournalText(j: Journal): string {
    "{\"schema\":" + ("1" + (",\"state\":" + (Quote(j.state) + (",\"files\":" + (ListText(EntriesJson(j.files))
    + if j.promoted == [] then "}" else ",\"promoted\":" + (ListText(CopiesJson(j.promoted)) + "}"))))))
  }

  function ListText(items: seq<Json>): string {
    "[" + if items == [] then "]" else PrintItems(items)
  }

  lemma JournalTextIs(j: Journal)
    ensures JournalText(j) == SaveText(j)
  {
    hide Quote, PrintMembers, PrintItems, EntriesJson, CopiesJson;
    JournalKeysPlain();
    var m := JournalJson(j).members;
    var last := if j.promoted == [] then [] else [m[3]];
    assert DecimalText(1) == "1" && "[" + "]" == "[]";
    PrintOne("{", "{\"schema\":", m[0], [m[1]] + ([m[2]] + last));
    PrintOne(",", ",\"state\":", m[1], [m[2]] + last);
    PrintOne(",", ",\"files\":", m[2], last);
    if j.promoted != [] {
      PrintOne(",", ",\"promoted\":", m[3], []);
      assert [m[3]] + [] == last;
    }
    assert m == [m[0]] + ([m[1]] + ([m[2]] + last));
  }
}
