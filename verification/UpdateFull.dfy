/** An update that locks the product out although nothing interferes: its journal fills the
    limit of a saved text exactly, so that it is saved and activated as prepared, but neither
    as installed nor as rolling back. */
module UpdateFull {
  import opened UpdateJournal
  import opened JournalStore
  import opened UpdateTransaction
  import opened UpdateSafety
  import opened UpdateRuns
  import opened UpdateGuarantees
  import opened UpdateLimits
  import Json
  import Utf8
  import JsonQuote
  import JsonPrint
  import JournalCodec

  /** New files, each with a name of 179 characters. */
  const NEW_FILES := 3368

  function FileNumber(i: nat): (s: string)
    requires i < 10000
    ensures |s| == 4 && Written(s)
  {
    [JsonPrint.Figure(i / 1000), JsonPrint.Figure(i / 100 % 10), JsonPrint.Figure(i / 10 % 10), JsonPrint.Figure(i % 10)]
  }

  /** Characters that are printed as they are. */
  predicate Written(s: string) {
    forall i :: 0 <= i < |s| ==> 32 <= s[i] as int < 128 && s[i] != '"' && s[i] != '\\'
  }

  function Padding(): (s: string)
    ensures |s| == 170 && Written(s)
  {
    seq(170, _ => 'x')
  }

  function FileName(i: nat): (name: string)
    requires i < 10000
    ensures |name| == 179 && Written(name)
  {
    "Libs/" + (FileNumber(i) + Padding())
  }

  lemma NamesDiffer(i: nat, j: nat)
    requires i < 10000 && j < 10000 && FileName(i) == FileName(j)
    ensures i == j
  {
    hide FileNumber, Padding;
    assert FileName(i)[5..9] == FileNumber(i) && FileName(j)[5..9] == FileNumber(j);
    NumbersDiffer(i, j);
  }

  lemma NumbersDiffer(i: nat, j: nat)
    requires i < 10000 && j < 10000 && FileNumber(i) == FileNumber(j)
    ensures i == j
  {
    var a, b := FileNumber(i), FileNumber(j);
    DigitsOf(i);
    DigitsOf(j);
    assert a[0] == b[0] && a[1] == b[1] && a[2] == b[2] && a[3] == b[3];
  }

  lemma DigitsOf(i: nat)
    requires i < 10000
    ensures var s := FileNumber(i); i == 1000 * Json.Digit(s[0]) + 100 * Json.Digit(s[1]) + 10 * Json.Digit(s[2]) + Json.Digit(s[3])
    ensures forall k :: 0 <= k < 4 ==> Json.IsDigit(FileNumber(i)[k])
  {
    Shifted(i, 10);
    Shifted(i / 10, 10);
    Shifted(i / 100, 10);
    assert i / 10 / 10 == i / 100 && i / 100 / 10 == i / 1000;
  }

  lemma Shifted(n: nat, base: nat)
    requires base > 0
    ensures n == base * (n / base) + n % base
  {
  }

  function NewNames(): (names: seq<string>)
    ensures |names| == NEW_FILES
  {
    seq(NEW_FILES, i requires 0 <= i < NEW_FILES => FileName(i))
  }

  const FIRST := ["HyperCommander.exe", "HyperCommanderAdmin.exe", "HyperEditor.exe"]
  const LAST := ["Libs/platforms/qwindows.dll", INVENTORY]

  /** The names in their order, the inventory last. */
  function FullOrder(): (order: seq<string>)
    ensures |order| == NEW_FILES + 5
  {
    FIRST + NewNames() + LAST
  }

  /** The next version replaces every file and adds the new ones. */
  function FullPlan(): Plan {
    var order := FullOrder();
    Plan(order, CommonFiles(OlderHash(), 10000000), map name | name in order :: Product(SampleHash(), 1), map name | name in order :: SampleHash(), {})
  }

  /** The names are the product's own, and the folding keeps them apart. */
  ghost predicate Admits(p: Policy) {
    && (forall name :: name in FullOrder() ==> p.owned(name))
    && (forall a, b :: a in FullOrder() && b in FullOrder() && p.fold(a) == p.fold(b) ==> a == b)
  }

  predicate Common(name: string) {
    name in FIRST || name in LAST
  }

  lemma CommonNames(name: string)
    ensures name in CommonFiles(OlderHash(), 10000000) <==> Common(name)
    ensures Common(name) ==> |name| < 30
    ensures Common(name) <==> name in REQUIRED || name == INVENTORY
  {
    hide OlderHash;
    assert FIRST[0] in FIRST && FIRST[1] in FIRST && FIRST[2] in FIRST && LAST[0] in LAST && LAST[1] in LAST;
  }

  lemma OrderAt(i: nat)
    requires i < NEW_FILES + 5
    ensures FullOrder()[i] in FullOrder()
    ensures if i < 3 then FullOrder()[i] == FIRST[i] else if i < NEW_FILES + 3 then FullOrder()[i] == FileName(i - 3) else FullOrder()[i] == LAST[i - NEW_FILES - 3]
    ensures i < 3 || i >= NEW_FILES + 3 ==> Common(FullOrder()[i])
    ensures 3 <= i < NEW_FILES + 3 ==> !Common(FullOrder()[i])
  {
    hide FileName;
    if i < 3 { assert FIRST[i] in FIRST; }
    else if i >= NEW_FILES + 3 { assert LAST[i - NEW_FILES - 3] in LAST; }
    else { CommonNames(FileName(i - 3)); }
  }

  lemma CommonInOrder(name: string) returns (i: nat)
    requires Common(name)
    ensures i < NEW_FILES + 5 && FullOrder()[i] == name && (i < 3 || i >= NEW_FILES + 3)
  {
    hide NewNames;
    if name in FIRST {
      var k :| 0 <= k < 3 && FIRST[k] == name;
      i := k;
    } else {
      var k :| 0 <= k < 2 && LAST[k] == name;
      i := NEW_FILES + 3 + k;
    }
    OrderAt(i);
  }

  lemma OrderApart(i: nat, k: nat)
    requires i < NEW_FILES + 5 && k < NEW_FILES + 5 && i != k
    ensures FullOrder()[i] != FullOrder()[k]
  {
    hide FullOrder, FileName, Common;
    OrderAt(i);
    OrderAt(k);
    if 3 <= i < NEW_FILES + 3 && 3 <= k < NEW_FILES + 3 && FileName(i - 3) == FileName(k - 3) { NamesDiffer(i - 3, k - 3); }
  }

  lemma FoldsDiffer(p: Policy, i: nat, k: nat)
    requires Admits(p) && i < NEW_FILES + 5 && k < NEW_FILES + 5 && i != k
    ensures p.fold(FullOrder()[i]) != p.fold(FullOrder()[k])
  {
    OrderApart(i, k);
    hide FullOrder;
    assert FullOrder()[i] in FullOrder() && FullOrder()[k] in FullOrder();
  }

  lemma ProductsValid(p: Policy, products: map<string, Product>, hash: string)
    requires ValidHash(hash) && forall name :: name in products ==> p.owned(name) && products[name].hash == hash && products[name].size <= 10000000
    ensures ValidProducts(p, products)
  {
  }

  lemma KeptApart(p: Policy)
    requires Admits(p)
    ensures FoldsApart(p, FullPlan())
  {
    hide FullOrder;
    forall i, j | 0 <= i < j < |FullPlan().order|
      ensures p.fold(FullPlan().order[i]) != p.fold(FullPlan().order[j])
    {
      FoldsDiffer(p, i, j);
    }
  }

  lemma BothComplete()
    ensures Complete(FullPlan().originals) && Complete(FullPlan().replacements)
  {
    hide FullOrder, SampleHash, OlderHash, Common;
    forall name
      ensures name in REQUIRED || name == INVENTORY <==> Common(name)
      ensures Common(name) ==> name in FullPlan().originals && name in FullPlan().replacements
    {
      CommonNames(name);
      if Common(name) {
        var i := CommonInOrder(name);
        OrderAt(i);
      }
    }
  }

  lemma BothValid(p: Policy)
    requires Admits(p)
    ensures ValidProducts(p, FullPlan().originals) && ValidProducts(p, FullPlan().replacements)
  {
    hide FullOrder, SampleHash, OlderHash, ValidHash, ValidProducts, Common;
    var plan := FullPlan();
    forall name | name in plan.originals
      ensures p.owned(name) && plan.originals[name].hash == OlderHash() && plan.originals[name].size <= 10000000
    {
      CommonNames(name);
      var i := CommonInOrder(name);
      OrderAt(i);
    }
    ProductsValid(p, plan.originals, OlderHash());
    ProductsValid(p, plan.replacements, SampleHash());
  }

  lemma FullPlanValid(p: Policy)
    requires Admits(p)
    ensures ValidPlan(p, FullPlan())
  {
    hide FullOrder, CommonFiles, ValidProducts, FoldsApart, Complete, Admits;
    KeptApart(p);
    BothComplete();
    BothValid(p);
    OrderAt(NEW_FILES + 4);
  }

  lemma NewPathFree(p: Policy, i: nat)
    requires Admits(p) && 3 <= i < NEW_FILES + 3
    ensures p.fold(FullOrder()[i]) !in CommonRoot(p)
  {
    hide FullOrder, CommonRoot, Admits, Common;
    if p.fold(FullOrder()[i]) in CommonRoot(p) {
      var name := CommonFold(p, p.fold(FullOrder()[i]));
      var k := CommonInOrder(name);
      FoldsDiffer(p, i, k);
      assert false;
    }
  }

  lemma FullPlanBegins(p: Policy)
    requires Admits(p)
    ensures Begins(p, CommonDisk(p), FullPlan())
  {
    hide FullOrder, SampleHash, OlderHash, CommonRoot, Common;
    var plan := FullPlan();
    forall name | name in plan.order
      ensures Installable(p, CommonRoot(p), plan, name)
    {
      var i :| 0 <= i < |plan.order| && plan.order[i] == name;
      OrderAt(i);
      CommonNames(name);
      CommonHashes(p, name, 10000000);
      if !Common(name) { NewPathFree(p, i); }
    }
  }

  /** Every path on the disk is one of a common file. */
  lemma CommonFold(p: Policy, k: string) returns (name: string)
    requires k in CommonRoot(p)
    ensures Common(name) && p.fold(name) == k
  {
    hide OlderHash;
    name := if k == p.fold(FIRST[0]) then FIRST[0] else if k == p.fold(FIRST[1]) then FIRST[1] else if k == p.fold(FIRST[2]) then FIRST[2]
            else if k == p.fold(LAST[0]) then LAST[0] else LAST[1];
  }

  // ------------------------------------------------------------------- sizes

  lemma QuoteSize(s: string)
    requires Written(s)
    ensures JsonQuote.Quote(s) == "\"" + s + "\"" && |JsonQuote.Quote(s)| == |s| + 2 && Utf8.Valid(s)
  {
    JournalCodec.PlainQuote(s);
    Utf8.AsciiValid(s);
  }

  lemma EntrySize(e: Entry)
    requires Written(e.name) && Written(e.original) && Written(e.replacement)
    ensures |JsonPrint.Print(JournalCodec.EntryJson(e))| ==
      (if e.existed then 65 else 66) + |JsonPrint.DecimalText(e.size)| + |e.name| + |e.original| + |e.replacement|
  {
    hide JsonQuote.Quote, JsonPrint.Print, Utf8.Valid, JsonPrint.DecimalText;
    JournalCodec.EntryTextIs(e);
    QuoteSize(e.name);
    QuoteSize(e.original);
    QuoteSize(e.replacement);
  }

  /** The length of the items of a list and of what follows each of them. */
  function ListSize(items: seq<Json.Json>): nat {
    if items == [] then 0 else ListSize(items[..|items| - 1]) + |JsonPrint.Print(items[|items| - 1])| + 1
  }

  lemma {:induction false} ListSizeConcat(a: seq<Json.Json>, b: seq<Json.Json>)
    ensures ListSize(a + b) == ListSize(a) + ListSize(b)
    decreases |b|
  {
    hide JsonPrint.Print;
    if b == [] {
      assert a + b == a;
    } else {
      assert (a + b)[..|a + b| - 1] == a + b[..|b| - 1];
      ListSizeConcat(a, b[..|b| - 1]);
    }
  }

  lemma {:induction false} ItemsSize(items: seq<Json.Json>)
    requires items != []
    ensures |JsonPrint.PrintItems(items)| == ListSize(items)
    decreases |items|
  {
    hide JsonPrint.Print;
    assert items == [items[0]] + items[1..];
    ListSizeConcat([items[0]], items[1..]);
    assert [items[0]][..0] == [];
    assert ListSize([items[0]]) == |JsonPrint.Print(items[0])| + 1;
    if |items| > 1 { ItemsSize(items[1..]); }
  }

  lemma {:induction false} AlikeSize(items: seq<Json.Json>, each: nat)
    requires forall i :: 0 <= i < |items| ==> |JsonPrint.Print(items[i])| == each
    ensures ListSize(items) == |items| * (each + 1)
    decreases |items|
  {
    hide JsonPrint.Print;
    if items != [] { AlikeSize(items[..|items| - 1], each); }
  }

  function NewEntry(i: nat): Entry
    requires i < NEW_FILES
  {
    Entry(FileName(i), "", SampleHash(), 0, false)
  }

  function CommonEntry(name: string): Entry {
    Entry(name, OlderHash(), SampleHash(), if name == FIRST[0] then 10000000 else 1, true)
  }

  lemma FullEntries(p: Policy)
    ensures var files := PlanFiles(p, CommonRoot(p), FullPlan());
      && |files| == NEW_FILES + 5
      && forall i :: 0 <= i < |files| ==> files[i] == if 3 <= i < NEW_FILES + 3 then NewEntry(i - 3) else CommonEntry(FullOrder()[i])
  {
    hide FileName, SampleHash, OlderHash, FullOrder, Common, CommonRoot;
    var plan := FullPlan();
    forall i | 0 <= i < NEW_FILES + 5
      ensures PlanEntry(p, CommonRoot(p), plan, plan.order[i]) == if 3 <= i < NEW_FILES + 3 then NewEntry(i - 3) else CommonEntry(plan.order[i])
    {
      OrderAt(i);
      CommonNames(plan.order[i]);
      CommonHashes(p, plan.order[i], 10000000);
    }
  }

  lemma NewEntryPrints(i: nat)
    requires i < NEW_FILES
    ensures |JsonPrint.Print(JournalCodec.EntryJson(NewEntry(i)))| == 310
    ensures Utf8.Valid(FileName(i)) && Utf8.Valid("") && Utf8.Valid(SampleHash())
  {
    hide JsonPrint.Print, Utf8.Valid, JournalCodec.EntryJson, FileName;
    PlainTexts();
    QuoteSize("");
    QuoteSize(SampleHash());
    QuoteSize(FileName(i));
    EntrySize(NewEntry(i));
    assert |JsonPrint.DecimalText(0)| == 1;
  }

  lemma SizeTexts()
    ensures |JsonPrint.DecimalText(1)| == 1 && |JsonPrint.DecimalText(10000000)| == 8
  {
    assert |JsonPrint.DecimalText(100)| == 3;
    assert |JsonPrint.DecimalText(10000)| == 5;
    assert |JsonPrint.DecimalText(1000000)| == 7;
  }

  lemma CommonPrints(name: string)
    requires Common(name)
    ensures |JsonPrint.Print(JournalCodec.EntryJson(CommonEntry(name)))| == 194 + |name| + if name == FIRST[0] then 7 else 0
    ensures Utf8.Valid(name) && Utf8.Valid(SampleHash()) && Utf8.Valid(OlderHash())
  {
    CommonWritten(name);
    PlainTexts();
    hide JsonPrint.Print, Utf8.Valid, JournalCodec.EntryJson, JsonPrint.DecimalText;
    SizeTexts();
    QuoteSize(SampleHash());
    QuoteSize(OlderHash());
    QuoteSize(name);
    EntrySize(CommonEntry(name));
  }

  lemma CommonWritten(name: string)
    requires Common(name)
    ensures Written(name)
  {
    if name in FIRST { FirstWritten(name); } else { LastWritten(name); }
  }

  lemma FirstWritten(name: string)
    requires name in FIRST
    ensures Written(name)
  {
  }

  lemma LastWritten(name: string)
    requires name in LAST
    ensures Written(name)
  {
  }

  lemma FullTexts(files: seq<Entry>)
    requires |files| == NEW_FILES + 5
    requires forall i :: 0 <= i < |files| ==> files[i] == if 3 <= i < NEW_FILES + 3 then NewEntry(i - 3) else CommonEntry(FullOrder()[i])
    ensures |JsonPrint.PrintItems(JournalCodec.EntriesJson(files))| == NEW_FILES * 311 + 1087
    ensures forall i :: 0 <= i < |files| ==> Utf8.Valid(files[i].name) && Utf8.Valid(files[i].original) && Utf8.Valid(files[i].replacement)
  {
    hide JsonPrint.Print, JsonPrint.PrintItems, Utf8.Valid, FileName, SampleHash, OlderHash, JournalCodec.EntryJson, FullOrder, Common;
    var items := JournalCodec.EntriesJson(files);
    forall i | 0 <= i < |files|
      ensures 3 <= i < NEW_FILES + 3 ==> |JsonPrint.Print(items[i])| == 310
      ensures !(3 <= i < NEW_FILES + 3) ==> |JsonPrint.Print(items[i])| == 194 + |FullOrder()[i]| + if FullOrder()[i] == FIRST[0] then 7 else 0
      ensures Utf8.Valid(files[i].name) && Utf8.Valid(files[i].original) && Utf8.Valid(files[i].replacement)
    {
      OrderAt(i);
      if 3 <= i < NEW_FILES + 3 { NewEntryPrints(i - 3); } else { CommonPrints(FullOrder()[i]); }
    }
    FullListSize(items);
    ItemsSize(items);
  }

  lemma FullListSize(items: seq<Json.Json>)
    requires |items| == NEW_FILES + 5
    requires forall i :: 3 <= i < NEW_FILES + 3 ==> |JsonPrint.Print(items[i])| == 310
    requires forall i :: 0 <= i < |items| && !(3 <= i < NEW_FILES + 3) ==>
      |JsonPrint.Print(items[i])| == 194 + |FullOrder()[i]| + if FullOrder()[i] == FIRST[0] then 7 else 0
    ensures ListSize(items) == NEW_FILES * 311 + 1087
  {
    hide JsonPrint.Print, FullOrder;
    var n := NEW_FILES + 3;
    OrderAt(0);
    OrderAt(1);
    OrderAt(2);
    OrderAt(n);
    OrderAt(n + 1);
    var first, middle, last := items[..3], items[3..n], items[n..];
    assert items == first + (middle + last);
    ListSizeConcat(first, middle + last);
    ListSizeConcat(middle, last);
    AlikeSize(middle, 310);
    Listed3(first);
    Listed2(last);
  }

  lemma Listed2(items: seq<Json.Json>)
    requires |items| == 2
    ensures ListSize(items) == |JsonPrint.Print(items[0])| + |JsonPrint.Print(items[1])| + 2
  {
    hide JsonPrint.Print;
    assert items[..1][..0] == [] && items[..1][0] == items[0];
    assert ListSize(items[..1]) == |JsonPrint.Print(items[0])| + 1;
  }

  lemma Listed3(items: seq<Json.Json>)
    requires |items| == 3
    ensures ListSize(items) == |JsonPrint.Print(items[0])| + |JsonPrint.Print(items[1])| + |JsonPrint.Print(items[2])| + 3
  {
    hide JsonPrint.Print;
    Listed2(items[..2]);
  }

  lemma PlainTexts()
    ensures Written("") && Written(SampleHash()) && Written(OlderHash()) && |SampleHash()| == 64 && |OlderHash()| == 64
  {
  }

  lemma SizeIs(j: Journal)
    requires Plain(j.state) && j.promoted == [] && j.files != []
    ensures JournalCodec.EntriesJson(j.files) != []
    ensures Size(j) == 33 + |j.state| + |JsonPrint.PrintItems(JournalCodec.EntriesJson(j.files))|
  {
    hide JsonPrint.PrintItems, JournalCodec.SaveText, JournalCodec.EntriesJson;
    var rest := SplitText(j);
  }

  lemma PreparedPlain()
    ensures Plain("prepared") && Utf8.Valid("prepared") && |"prepared"| == 8
  {
    hide JsonQuote.Quote, Utf8.Valid;
    QuoteSize("prepared");
  }

  lemma FullSize(p: Policy)
    ensures Size(FirstJournal(p, CommonDisk(p), FullPlan())) == Json.MAX_BYTES
    ensures JournalCodec.TextsFit(FirstJournal(p, CommonDisk(p), FullPlan()))
  {
    hide JsonPrint.PrintItems, Size, JournalCodec.EntriesJson, Utf8.Valid, PlanFiles, FullPlan, FullOrder, NewEntry, CommonEntry, CommonRoot, Plain;
    var j := FirstJournal(p, CommonDisk(p), FullPlan());
    FullEntries(p);
    FullTexts(j.files);
    PreparedPlain();
    SizeIs(j);
  }

  lemma FullJournalStates(p: Policy)
    requires Admits(p)
    ensures var j := FirstJournal(p, CommonDisk(p), FullPlan());
      && Storable(j) && !LeavesRoom(j)
      && forall state :: Plain(state) && |state| > |"prepared"| ==> !Storable(j.(state := state))
  {
    hide Utf8.Valid, JournalCodec.SaveText, FullPlan, Admits;
    var j := FirstJournal(p, CommonDisk(p), FullPlan());
    FullSize(p);
    FullPlanValid(p);
    FullPlanBegins(p);
    PlanFilesFit(p, CommonRoot(p), FullPlan());
    JournalCodec.LoadsWhatWasSaved(p, j);
    StatesPlain();
    forall state | Plain(state) && |state| > |"prepared"|
      ensures !Storable(j.(state := state))
    {
      StateSize(j, state);
    }
  }

  /** The update above, applied without any interference, ends without success and with its
      record active. Then, as after any interruption that leaves the record, the product may
      not start, and no recovery changes that. It is so for every rule of ownership and of
      letter case that admits the names. */
  lemma FullJournalLocksOut(p: Policy, script: seq<Event>)
    requires Admits(p)
    ensures var d, plan := CommonDisk(p), FullPlan();
      && ValidPlan(p, plan) && Begins(p, d, plan)
      && var r := Apply(p, d, plan, script);
      && !r.end.Finished? && (script == [] ==> r.disk.active)
      && (r.disk.active ==> !StartupAllowed(p, r.disk) && forall again :: Recover(p, r.disk, again).disk == r.disk)
  {
    assert !CommonDisk(p).active;
    hide Storable, LeavesRoom, Apply, FullPlan, PlanFiles, Consistent, Admits, ValidPlan, CommonDisk, Begins, Tracked;
    var d, plan := CommonDisk(p), FullPlan();
    FullPlanValid(p);
    FullPlanBegins(p);
    FullJournalStates(p);
    StatesPlain();
    ApplyKeeps(p, Story(d, d.root, []), plan, script);
    var r := Apply(p, d, plan, script);
    if script == [] { UndisturbedStaysActive(p, d, plan); }
    if r.disk.active {
      ApplyFiles(p, d, plan, script);
      FromConsistent(p, Story(r.disk, d.root, PlanFiles(p, d.root, plan)));
      CrashedApplyRecoversExactly(p, d, plan, script);
      assert r.disk.journal.state !in {"installed", "rolledBack"};
    }
  }

  lemma UndisturbedStaysActive(p: Policy, d: Disk, plan: Plan)
    requires Begins(p, d, plan) && Storable(FirstJournal(p, d, plan))
    requires !Storable(FirstJournal(p, d, plan).(state := "installed")) && !Storable(FirstJournal(p, d, plan).(state := "rollingBack"))
    ensures Apply(p, d, plan, []).disk.active
  {
    hide Storable;
    var files := PlanFiles(p, d.root, plan);
    var active := Prepared(d, plan, files).(active := true);
    InstallStaysActive(p, active, plan, files);
    var r := Install(p, active, plan, files, []);
    NotSaved(p, r.disk, Journal("applying", files, []), r.rest);
  }

  lemma InstallStaysActive(p: Policy, d: Disk, plan: Plan, files: seq<Entry>)
    requires !Storable(Journal("installed", files, []))
    ensures var r := Install(p, d, plan, files, []); !r.end.Finished? && r.disk.active == d.active
  {
    hide Storable, Holds;
    var r1 := Save(d, Journal("applying", files, []), []);
    if r1.end.Finished? { InstallFromActive(p, r1.disk, plan, files, 0, r1.rest); }
  }

  lemma {:induction false} InstallFromActive(p: Policy, d: Disk, plan: Plan, files: seq<Entry>, n: nat, script: seq<Event>)
    requires n <= |files|
    ensures InstallFrom(p, d, plan, files, n, script).disk.active == d.active
    decreases |files| - n
  {
    if n < |files| {
      var r := InstallEntry(p, d, files[n], n, plan, script);
      if r.end.Finished? { InstallFromActive(p, r.disk, plan, files, n + 1, r.rest); }
    }
  }
}
