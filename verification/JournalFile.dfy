/** Writing and loading the journal file, step by step. */
module JournalFile {
  import opened UpdateJournal
  import opened Json
  import opened JsonCorrect
  import opened JsonQuote
  import opened JsonPrint
  import opened JournalCodec
  import JsonParser
  import JsonReader

  // ------------------------------------------------------------------ saving

  lemma AppendTwo(bytes: string, a: string, b: string, rest: string)
    ensures bytes + (a + (b + rest)) == (bytes + a + b) + rest
  {
  }

  method AppendEntry(bytes: string, e: Entry) returns (longer: string)
    ensures longer == bytes + Print(EntryJson(e))
  {
    hide Quote, DecimalText, Print;
    EntryTextIs(e);
    var name := QuoteJson(e.name);
    var original := QuoteJson(e.original);
    var replacement := QuoteJson(e.replacement);
    var existed := if e.existed then "true" else "false";
    longer := bytes + "{\"path\":" + name;
    ghost var r4 := ",\"size\":" + (DecimalText(e.size) + "}");
    ghost var r3 := ",\"replacement\":" + (replacement + r4);
    ghost var r2 := ",\"original\":" + (original + r3);
    ghost var r1 := ",\"existed\":" + (existed + r2);
    AppendTwo(bytes, "{\"path\":", name, r1);
    AppendTwo(longer, ",\"existed\":", existed, r2);
    longer := longer + ",\"existed\":" + existed;
    AppendTwo(longer, ",\"original\":", original, r3);
    longer := longer + ",\"original\":" + original;
    AppendTwo(longer, ",\"replacement\":", replacement, r4);
    longer := longer + ",\"replacement\":" + replacement;
    AppendTwo(longer, ",\"size\":", DecimalText(e.size), "}");
    longer := longer + ",\"size\":" + DecimalText(e.size) + "}";
  }

  method AppendCopy(bytes: string, c: RootCopy) returns (longer: string)
    ensures longer == bytes + Print(CopyJson(c))
  {
    hide Quote, Print;
    CopyTextIs(c);
    var name := QuoteJson(c.name);
    var hash := QuoteJson(c.hash);
    longer := bytes + "{\"path\":" + name;
    AppendTwo(bytes, "{\"path\":", name, ",\"sha256\":" + (hash + "}"));
    AppendTwo(longer, ",\"sha256\":", hash, "}");
    longer := longer + ",\"sha256\":" + hash + "}";
  }

  /** What is missing in a list of which `bytes` ends the part before `items`. */
  function Missing(bytes: string, items: seq<Json>): string
    requires bytes != ""
  {
    if items == [] then "]" else if bytes[|bytes| - 1] == '[' then PrintItems(items) else "," + PrintItems(items)
  }

  lemma ObjectsClose(members: seq<Member>)
    requires members != []
    ensures PrintMembers(members) != "" && PrintMembers(members)[|PrintMembers(members)| - 1] == '}'
  {
    hide Quote, Print;
    if |members| > 1 { ObjectsClose(members[1..]); }
  }

  /** An item is appended to an open list. */
  lemma ItemAppended(bytes: string, items: seq<Json>)
    requires bytes != "" && items != [] && items[0].Object? && items[0].members != []
    ensures var longer := bytes + (if bytes[|bytes| - 1] == '[' then "" else ",") + Print(items[0]);
      && longer != "" && longer[|longer| - 1] != '[' && longer + Missing(longer, items[1..]) == bytes + Missing(bytes, items)
  {
    hide Print, PrintMembers;
    ObjectsClose(items[0].members);
    PrintObject(items[0]);
    var rest := if |items| == 1 then "]" else "," + PrintItems(items[1..]);
    var comma := if bytes[|bytes| - 1] == '[' then "" else ",";
    LastOf(bytes + comma, Print(items[0]));
    NextItem(bytes, comma, Print(items[0]), rest);
    assert PrintItems(items) == Print(items[0]) + rest;
  }

  lemma LastOf(a: string, b: string)
    requires b != ""
    ensures (a + b)[|a + b| - 1] == b[|b| - 1]
  {
  }

  lemma NextItem(bytes: string, comma: string, item: string, rest: string)
    ensures (bytes + comma + item) + rest == bytes + (comma + (item + rest))
    ensures comma == "" ==> comma + (item + rest) == item + rest
  {
  }

  lemma PrintObject(v: Json)
    requires v.Object? && v.members != []
    ensures Print(v) == "{" + PrintMembers(v.members)
  {
    hide PrintMembers;
  }

  method AppendEntries(start: string, files: seq<Entry>) returns (bytes: string)
    ensures bytes == start + ListText(EntriesJson(files))
  {
    hide Print, PrintItems;
    ghost var items := EntriesJson(files);
    bytes := start + "[";
    for i := 0 to |files|
      invariant bytes != "" && bytes + Missing(bytes, items[i..]) == start + ListText(items)
    {
      assert items[i..][0] == EntryJson(files[i]) && items[i..][1..] == items[i + 1..];
      ItemAppended(bytes, items[i..]);
      if bytes[|bytes| - 1] != '[' { bytes := bytes + ","; } else { assert bytes == bytes + ""; }
      bytes := AppendEntry(bytes, files[i]);
    }
    bytes := bytes + "]";
  }

  method AppendCopies(start: string, copies: seq<RootCopy>) returns (bytes: string)
    ensures bytes == start + ListText(CopiesJson(copies))
  {
    hide Print, PrintItems;
    ghost var items := CopiesJson(copies);
    bytes := start + "[";
    for i := 0 to |copies|
      invariant bytes != "" && bytes + Missing(bytes, items[i..]) == start + ListText(items)
    {
      assert items[i..][0] == CopyJson(copies[i]) && items[i..][1..] == items[i + 1..];
      ItemAppended(bytes, items[i..]);
      if bytes[|bytes| - 1] != '[' { bytes := bytes + ","; } else { assert bytes == bytes + ""; }
      bytes := AppendCopy(bytes, copies[i]);
    }
    bytes := bytes + "]";
  }

  /** Writes a journal and checks that its own reader takes it. */
  method Save(j: Journal) returns (ok: bool, bytes: string)
    ensures bytes == SaveText(j) && ok == JsonReader.Parse(bytes).Good?
  {
    hide Quote, SaveText, ListText;
    JournalTextIs(j);
    var state := QuoteJson(j.state);
    bytes := "{\"schema\":1,\"state\":" + state + ",\"files\":";
    ghost var list := ListText(EntriesJson(j.files));
    ghost var end := if j.promoted == [] then "}" else ",\"promoted\":" + (ListText(CopiesJson(j.promoted)) + "}");
    assert bytes + (list + end) == JournalText(j);
    Regroup(bytes, list, end);
    bytes := AppendEntries(bytes, j.files);
    if j.promoted != [] {
      ghost var copies := ListText(CopiesJson(j.promoted));
      AppendTwo(bytes, ",\"promoted\":", copies, "}");
      bytes := AppendCopies(bytes + ",\"promoted\":", j.promoted);
    }
    bytes := bytes + "}";
    var parser := new JsonParser.Parser(bytes);
    var value;
    ok, value := parser.Parse();
  }

  // ----------------------------------------------------------------- loading

  predicate GoodEntryItem(p: Policy, item: Json) {
    EntryShaped(item) && AcceptedEntry(p, EntryOf(item))
  }

  predicate GoodCopyItem(p: Policy, item: Json) {
    CopyShaped(item) && AcceptedCopy(p, CopyOf(item))
  }

  predicate NamesApart(p: Policy, names: seq<string>) {
    forall k, l :: 0 <= k < l < |names| ==> p.fold(names[k]) != p.fold(names[l])
  }

  /** The names of the items, in order. */
  function EntryNames(items: seq<Json>): (names: seq<string>)
    requires forall i :: 0 <= i < |items| ==> EntryShaped(items[i])
    ensures |names| == |items|
  {
    seq(|items|, i requires 0 <= i < |items| => EntryOf(items[i]).name)
  }

  function CopyNames(items: seq<Json>): (names: seq<string>)
    requires forall i :: 0 <= i < |items| ==> CopyShaped(items[i])
    ensures |names| == |items|
  {
    seq(|items|, i requires 0 <= i < |items| => CopyOf(items[i]).name)
  }

  predicate GoodEntryItems(p: Policy, items: seq<Json>) {
    |items| <= MAX_FILES && (forall i :: 0 <= i < |items| ==> GoodEntryItem(p, items[i])) && NamesApart(p, EntryNames(items))
  }

  predicate GoodCopyItems(p: Policy, before: seq<string>, items: seq<Json>) {
    |items| <= MAX_PROMOTED && (forall i :: 0 <= i < |items| ==> GoodCopyItem(p, items[i])) && NamesApart(p, before + CopyNames(items))
  }

  function Folds(p: Policy, names: seq<string>): set<string> {
    set k | 0 <= k < |names| :: p.fold(names[k])
  }

  /** A name joins a set of distinct ones exactly when nobody folds like it. */
  lemma NameJoins(p: Policy, names: seq<string>, name: string)
    requires NamesApart(p, names)
    ensures NamesApart(p, names + [name]) <==> p.fold(name) !in Folds(p, names)
    ensures Folds(p, names + [name]) == Folds(p, names) + {p.fold(name)}
  {
    var all := names + [name];
    assert all[|names|] == name && forall k :: 0 <= k < |names| ==> all[k] == names[k];
    if p.fold(name) in Folds(p, names) {
      var k :| 0 <= k < |names| && p.fold(names[k]) == p.fold(name);
      assert p.fold(all[k]) == p.fold(all[|names|]);
    }
    forall fold
      ensures fold in Folds(p, all) <==> fold in Folds(p, names) + {p.fold(name)}
    {
      if fold in Folds(p, names) {
        var k :| 0 <= k < |names| && p.fold(names[k]) == fold;
        assert p.fold(all[k]) == fold;
      }
    }
  }

  lemma FewerApart(p: Policy, names: seq<string>, n: nat)
    requires n <= |names|
    ensures NamesApart(p, names) ==> NamesApart(p, names[..n])
  {
  }

  method LoadEntries(p: Policy, items: seq<Json>) returns (ok: bool, files: seq<Entry>, seen: set<string>)
    ensures ok == GoodEntryItems(p, items)
    ensures ok ==> |files| == |items| && (forall k :: 0 <= k < |items| ==> files[k] == EntryOf(items[k])) && seen == Folds(p, EntryNames(items))
  {
    hide EntryShaped, EntryOf, AcceptedEntry, NamesApart, Folds;
    ok, files, seen := false, [], {};
    Nobody(p);
    for i := 0 to |items|
      invariant |files| == i <= MAX_FILES
      invariant forall k :: 0 <= k < i ==> GoodEntryItem(p, items[k]) && files[k] == EntryOf(items[k])
      invariant NamesApart(p, EntryNames(items[..i])) && seen == Folds(p, EntryNames(items[..i]))
    {
      if |files| >= MAX_FILES || !GoodEntryItem(p, items[i]) { return; }
      var e := EntryOf(items[i]);
      assert EntryNames(items[..i + 1]) == EntryNames(items[..i]) + [e.name];
      NameJoins(p, EntryNames(items[..i]), e.name);
      if p.fold(e.name) in seen {
        if forall k :: 0 <= k < |items| ==> EntryShaped(items[k]) {
          assert EntryNames(items)[..i + 1] == EntryNames(items[..i + 1]);
          FewerApart(p, EntryNames(items), i + 1);
        }
        return;
      }
      files, seen := files + [e], seen + {p.fold(e.name)};
    }
    assert items[..|items|] == items;
    ok := true;
  }

  lemma Nobody(p: Policy)
    ensures NamesApart(p, []) && Folds(p, []) == {}
  {
  }

  method LoadCopies(p: Policy, names: seq<string>, taken: set<string>, items: seq<Json>) returns (ok: bool, copies: seq<RootCopy>)
    requires NamesApart(p, names) && taken == Folds(p, names)
    ensures ok == GoodCopyItems(p, names, items)
    ensures ok ==> |copies| == |items| && (forall k :: 0 <= k < |items| ==> copies[k] == CopyOf(items[k]))
  {
    hide CopyShaped, CopyOf, AcceptedCopy, NamesApart, Folds;
    ok, copies := false, [];
    var seen := taken;
    assert names + CopyNames(items[..0]) == names;
    for i := 0 to |items|
      invariant |copies| == i <= MAX_PROMOTED
      invariant forall k :: 0 <= k < i ==> GoodCopyItem(p, items[k]) && copies[k] == CopyOf(items[k])
      invariant NamesApart(p, names + CopyNames(items[..i])) && seen == Folds(p, names + CopyNames(items[..i]))
    {
      if !GoodCopyItem(p, items[i]) || |copies| >= MAX_PROMOTED { return; }
      var c := CopyOf(items[i]);
      assert names + CopyNames(items[..i + 1]) == (names + CopyNames(items[..i])) + [c.name];
      NameJoins(p, names + CopyNames(items[..i]), c.name);
      if p.fold(c.name) in seen {
        if forall k :: 0 <= k < |items| ==> CopyShaped(items[k]) {
          assert (names + CopyNames(items))[..|names| + i + 1] == names + CopyNames(items[..i + 1]);
          FewerApart(p, names + CopyNames(items), |names| + i + 1);
        }
        return;
      }
      copies, seen := copies + [c], seen + {p.fold(c.name)};
    }
    assert items[..|items|] == items;
    ok := true;
  }

  /** The checks item by item are the ones a journal is accepted by. */
  lemma ChecksMean(p: Policy, v: Json, items: seq<Json>, copies: seq<Json>)
    requires At(v, "schema") == Number(1) && At(v, "state").Text? && At(v, "files") == Array(items)
    requires if HasCopies(v) then At(v, "promoted") == Array(copies) else copies == []
    ensures (forall i :: 0 <= i < |items| ==> EntryShaped(items[i])) && (forall i :: 0 <= i < |copies| ==> CopyShaped(copies[i])) ==> Shaped(v)
    ensures Shaped(v) && Accepted(p, Decode(v)) <==>
      && GoodEntryItems(p, items) && items != [] && EntryOf(items[|items| - 1]).name == INVENTORY
      && GoodCopyItems(p, EntryNames(items), copies)
  {
    hide EntryShaped, EntryOf, CopyShaped, CopyOf, AcceptedEntry, AcceptedCopy, At, HasCopies;
    if Shaped(v) {
      hide Apart, NamesApart;
      var j := Decode(v);
      EntriesMean(p, items, j.files);
      CopiesMean(p, EntryNames(items), copies, j.promoted);
      ApartMeans(p, j.files, j.promoted, EntryNames(items), CopyNames(copies));
    }
  }

  lemma EntriesMean(p: Policy, items: seq<Json>, files: seq<Entry>)
    requires |files| == |items| && forall i :: 0 <= i < |items| ==> EntryShaped(items[i]) && files[i] == EntryOf(items[i])
    ensures GoodEntryItems(p, items) <==>
      |files| <= MAX_FILES && (forall i :: 0 <= i < |files| ==> AcceptedEntry(p, files[i])) && NamesApart(p, EntryNames(items))
  {
    hide EntryShaped, EntryOf, AcceptedEntry, NamesApart;
  }

  lemma CopiesMean(p: Policy, names: seq<string>, items: seq<Json>, copies: seq<RootCopy>)
    requires |copies| == |items| && forall i :: 0 <= i < |items| ==> CopyShaped(items[i]) && copies[i] == CopyOf(items[i])
    ensures GoodCopyItems(p, names, items) <==>
      |copies| <= MAX_PROMOTED && (forall i :: 0 <= i < |copies| ==> AcceptedCopy(p, copies[i])) && NamesApart(p, names + CopyNames(items))
  {
    hide CopyShaped, CopyOf, AcceptedCopy, NamesApart;
  }

  lemma ApartMeans(p: Policy, files: seq<Entry>, promoted: seq<RootCopy>, names: seq<string>, copies: seq<string>)
    requires |names| == |files| && forall i :: 0 <= i < |files| ==> names[i] == files[i].name
    requires |copies| == |promoted| && forall i :: 0 <= i < |promoted| ==> copies[i] == promoted[i].name
    ensures Apart(p, files, promoted) <==> NamesApart(p, names) && NamesApart(p, names + copies)
  {
    var all := names + copies;
    assert forall k :: 0 <= k < |names| ==> all[k] == files[k].name;
    assert forall k :: 0 <= k < |copies| ==> all[|names| + k] == promoted[k].name;
    if NamesApart(p, all) {
      forall i, j | 0 <= i < |files| && 0 <= j < |promoted|
        ensures p.fold(files[i].name) != p.fold(promoted[j].name)
      {
        assert p.fold(all[i]) != p.fold(all[|names| + j]);
      }
      forall i, j | 0 <= i < j < |promoted|
        ensures p.fold(promoted[i].name) != p.fold(promoted[j].name)
      {
        assert p.fold(all[|names| + i]) != p.fold(all[|names| + j]);
      }
    }
    if Apart(p, files, promoted) {
      forall k, l | 0 <= k < l < |all|
        ensures p.fold(all[k]) != p.fold(all[l])
      {
        assert k >= |names| ==> all[k] == promoted[k - |names|].name;
        assert l >= |names| ==> all[l] == promoted[l - |names|].name;
      }
    }
  }

  lemma ShapedHead(v: Json)
    ensures Shaped(v) ==> At(v, "schema") == Number(1) && At(v, "state").Text? && At(v, "files").Array?
    ensures Shaped(v) && HasCopies(v) ==> At(v, "promoted").Array?
  {
    hide At, HasCopies, EntryShaped, CopyShaped;
  }

  method LoadLists(p: Policy, v: Json, items: seq<Json>, copies: seq<Json>) returns (r: Loaded)
    requires At(v, "schema") == Number(1) && At(v, "state").Text? && At(v, "files") == Array(items)
    requires if HasCopies(v) then At(v, "promoted") == Array(copies) else copies == []
    ensures r == Checked(p, v)
  {
    hide At, EntryOf, CopyOf, EntryShaped, CopyShaped, HasCopies, Accepted, Decode, EntryNames, Shaped, GoodEntryItems, GoodCopyItems, NamesApart, Folds;
    ChecksMean(p, v, items, copies);
    var ok, files, seen := LoadEntries(p, items);
    if !ok { return Unusable; }
    if files == [] || files[|files| - 1].name != INVENTORY { return Unusable; }
    EntriesGood(p, items);
    var promoted;
    ok, promoted := LoadCopies(p, EntryNames(items), seen, copies);
    if !ok { return Unusable; }
    DecodeIs(v, items, copies, files, promoted);
    r := Stored(Journal(At(v, "state").text, files, promoted));
  }

  /** Reads a journal and makes every check of a loader, item by item. */
  method LoadJournal(p: Policy, text: string) returns (r: Loaded)
    ensures r == Load(p, text)
  {
    hide JsonReader.Parse, At, HasCopies, Accepted, Decode, Shaped;
    var parser := new JsonParser.Parser(text);
    var ok, v := parser.Parse();
    if !ok { return Unusable; }
    ShapedHead(v);
    if At(v, "schema") != Number(1) || !At(v, "state").Text? || !At(v, "files").Array? { return Unusable; }
    if HasCopies(v) && !At(v, "promoted").Array? { return Unusable; }
    r := LoadLists(p, v, At(v, "files").items, if HasCopies(v) then At(v, "promoted").items else []);
  }

  lemma DecodeIs(v: Json, items: seq<Json>, copies: seq<Json>, files: seq<Entry>, promoted: seq<RootCopy>)
    requires Shaped(v) && At(v, "files") == Array(items)
    requires if HasCopies(v) then At(v, "promoted") == Array(copies) else copies == []
    requires |files| == |items| && forall k :: 0 <= k < |items| ==> files[k] == EntryOf(items[k])
    requires |promoted| == |copies| && forall k :: 0 <= k < |copies| ==> promoted[k] == CopyOf(copies[k])
    ensures Decode(v) == Journal(At(v, "state").text, files, promoted)
  {
    hide EntryShaped, EntryOf, CopyShaped, CopyOf, At, HasCopies;
  }

  lemma EntriesGood(p: Policy, items: seq<Json>)
    requires GoodEntryItems(p, items)
    ensures (forall i :: 0 <= i < |items| ==> EntryShaped(items[i])) && NamesApart(p, EntryNames(items))
  {
  }
}
