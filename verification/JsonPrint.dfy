/** Values printed without blanks, and read back. */
module JsonPrint {
  import opened Utf8
  import opened Json
  import opened JsonReader
  import opened JsonCorrect
  import opened JsonComplete
  import opened JsonSound
  import opened JsonQuote

  function DecimalText(n: nat): (s: string)
    ensures s != ""
  {
    if n < 10 then [Figure(n)] else DecimalText(n / 10) + [Figure(n % 10)]
  }

  function Figure(d: nat): (c: char)
    requires d < 10
    ensures IsDigit(c) && Digit(c) == d
  {
    ('0' as int + d) as char
  }

  lemma {:induction false} DecimalTextIs(n: nat)
    ensures AllDigits(DecimalText(n)) && Decimal(DecimalText(n)) == n
    ensures DecimalText(n)[0] == '0' ==> n == 0
  {
    if n >= 10 {
      DecimalTextIs(n / 10);
      DecimalNext(DecimalText(n / 10), Figure(n % 10));
    } else {
      assert [Figure(n)][..0] == "";
      assert Decimal([Figure(n)]) == Digit([Figure(n)][0]);
    }
  }

  function Print(v: Json): string {
    match v
    case Null => "null"
    case Boolean(truth) => if truth then "true" else "false"
    case Number(number) => DecimalText(number)
    case Text(text) => Quote(text)
    case Array(items) => if items == [] then "[]" else "[" + PrintItems(items)
    case Object(members) => if members == [] then "{}" else "{" + PrintMembers(members)
  }

  function PrintItems(items: seq<Json>): string
    requires items != []
  {
    Print(items[0]) + if |items| == 1 then "]" else "," + PrintItems(items[1..])
  }

  function PrintMembers(members: seq<Member>): string
    requires members != []
  {
    Quote(members[0].key) + (":" + (Print(members[0].value) + if |members| == 1 then "}" else "," + PrintMembers(members[1..])))
  }

  /** Nothing too deep, no number too large, no repeated key. */
  predicate Printable(v: Json, depth: nat) {
    && depth <= MAX_DEPTH
    && match v
       case Number(number) => number <= MAX_NUMBER
       case Array(items) => PrintableItems(items, depth + 1)
       case Object(members) => PrintableMembers(members, depth + 1, {})
       case _ => true
  }

  predicate PrintableItems(items: seq<Json>, depth: nat) {
    items == [] || (Printable(items[0], depth) && PrintableItems(items[1..], depth))
  }

  predicate PrintableMembers(members: seq<Member>, depth: nat, used: set<string>) {
    members == [] || (members[0].key !in used && Printable(members[0].value, depth)
                      && PrintableMembers(members[1..], depth, used + {members[0].key}))
  }

  function Count(v: Json): nat {
    match v
    case Array(items) => 1 + CountItems(items)
    case Object(members) => 1 + CountMembers(members)
    case _ => 1
  }

  function CountItems(items: seq<Json>): nat {
    if items == [] then 0 else Count(items[0]) + CountItems(items[1..])
  }

  function CountMembers(members: seq<Member>): nat {
    if members == [] then 0 else Count(members[0].value) + CountMembers(members[1..])
  }

  // ------------------------------------------------------------- round trip

  /** `t` is a tree for the printed form of `v`. */
  ghost predicate PrintedAs(t: Tree, v: Json, depth: nat) {
    GoodTree(t, depth) && TreeText(t) == Print(v) && TreeValue(t, depth) == v && TreeNodes(t) == Count(v)
  }

  lemma NumberPrinted(number: nat, depth: nat) returns (t: Tree)
    requires Printable(Number(number), depth)
    ensures PrintedAs(t, Number(number), depth)
  {
    DecimalTextIs(number);
    t := DigitsTree("", DecimalText(number));
    assert DecimalText(0) == ['0'];
    assert "" + DecimalText(number) == DecimalText(number);
  }

  lemma TextPrinted(text: string, depth: nat) returns (t: Tree)
    requires depth <= MAX_DEPTH
    ensures PrintedAs(t, Text(text), depth)
  {
    hide QuoteChars, PiecesText, PiecesValue;
    QuotePiecesAre(text);
    t := StringTree("", QuotePieces(text));
    assert "" + Quote(text) == Quote(text);
  }

  lemma {:induction false} HasTree(v: Json, depth: nat) returns (t: Tree)
    requires Printable(v, depth)
    ensures PrintedAs(t, v, depth)
    decreases v, 1
  {
    hide DecimalText, Quote, PiecesText;
    match v
    case Null => t := NullTree("");
    case Boolean(truth) => t := if truth then TrueTree("") else FalseTree("");
    case Number(number) => t := NumberPrinted(number, depth);
    case Text(text) => t := TextPrinted(text, depth);
    case Array(items) =>
      if items == [] {
        t := EmptyArrayTree("", "");
      } else {
        var elements := HasItems(items, depth + 1);
        t := ArrayTree("", elements);
      }
    case Object(members) =>
      if members == [] {
        t := EmptyObjectTree("", "");
      } else {
        var fields := HasFields(members, depth + 1, {});
        t := ObjectTree("", fields);
      }
  }

  lemma {:induction false} HasItems(items: seq<Json>, depth: nat) returns (t: Items)
    requires items != [] && PrintableItems(items, depth)
    ensures GoodItems(t, depth) && ItemsText(t) == PrintItems(items) && ItemsValue(t, depth) == items && ItemsNodes(t) == CountItems(items)
    decreases items, 0
  {
    var first := HasTree(items[0], depth);
    assert CountItems(items[1..]) == CountItems(items) - Count(items[0]);
    if |items| == 1 {
      t := LastItem(first, "");
      assert "" + "]" == "]" && items == [items[0]];
    } else {
      var rest := HasItems(items[1..], depth);
      t := MoreItems(first, "", rest);
      assert "" + ("," + ItemsText(rest)) == "," + ItemsText(rest);
      assert items == [items[0]] + items[1..];
    }
  }

  lemma KeyPieces(key: string)
    ensures GoodPieces(QuotePieces(key)) && Quoted(QuotePieces(key)) == Quote(key) && PiecesValue(QuotePieces(key)) == key
  {
    QuotePiecesAre(key);
  }

  lemma {:induction false} HasFields(members: seq<Member>, depth: nat, used: set<string>) returns (t: Fields)
    requires members != [] && PrintableMembers(members, depth, used)
    ensures GoodFields(t, depth, used) && FieldsText(t) == PrintMembers(members)
    ensures FieldsValue(t, depth, used) == members && FieldsNodes(t) == CountMembers(members)
    decreases members, 0
  {
    hide QuotePieces, Quoted, Quote, Print, TreeText, TreeValue;
    var m := members[0];
    var ps := QuotePieces(m.key);
    var value := HasTree(m.value, depth);
    KeyPieces(m.key);
    if |members| == 1 {
      t := LastField("", ps, "", value, "");
      NoBlanks(Quote(m.key), Print(m.value), "}");
      assert members == [Member(m.key, m.value)];
    } else {
      var rest := HasFields(members[1..], depth, used + {m.key});
      t := MoreFields("", ps, "", value, "", rest);
      NoBlanks(Quote(m.key), Print(m.value), "," + FieldsText(rest));
      assert members == [Member(m.key, m.value)] + members[1..];
    }
  }

  lemma NoBlanks(key: string, value: string, rest: string)
    ensures "" + (key + ("" + (":" + (value + ("" + rest))))) == key + (":" + (value + rest))
  {
  }

  // --------------------------------------------------------------- encoding

  /** All texts and keys in a value are UTF-8. */
  predicate AllValid(v: Json) {
    match v
    case Text(text) => Valid(text)
    case Array(items) => ItemsValid(items)
    case Object(members) => MembersValid(members)
    case _ => true
  }

  predicate ItemsValid(items: seq<Json>) {
    items == [] || (AllValid(items[0]) && ItemsValid(items[1..]))
  }

  predicate MembersValid(members: seq<Member>) {
    members == [] || (Valid(members[0].key) && AllValid(members[0].value) && MembersValid(members[1..]))
  }

  lemma {:induction false} DecimalTextValid(n: nat)
    ensures Valid(DecimalText(n))
  {
    DecimalTextIs(n);
    AsciiValid(DecimalText(n));
  }

  lemma ValidChain(a: string, b: string)
    requires Valid(a) && Valid(b)
    ensures Valid(a + b)
  {
    ValidConcat(a, b);
  }

  lemma {:induction false} PrintValid(v: Json)
    requires AllValid(v)
    ensures Valid(Print(v))
    decreases v, 1
  {
    hide Valid, Quote, DecimalText;
    match v
    case Number(number) => DecimalTextValid(number);
    case Text(text) => QuoteValid(text);
    case Array(items) =>
      AsciiValid("[");
      AsciiValid("[]");
      if items != [] { PrintItemsValid(items); ValidChain("[", PrintItems(items)); }
    case Object(members) =>
      AsciiValid("{");
      AsciiValid("{}");
      if members != [] { PrintMembersValid(members); ValidChain("{", PrintMembers(members)); }
    case _ => AsciiValid(Print(v));
  }

  lemma {:induction false} PrintItemsValid(items: seq<Json>)
    requires items != [] && ItemsValid(items)
    ensures Valid(PrintItems(items))
    decreases items, 0
  {
    hide Valid, Print;
    PrintValid(items[0]);
    AsciiValid("]");
    AsciiValid(",");
    if |items| > 1 {
      PrintItemsValid(items[1..]);
      ValidChain(",", PrintItems(items[1..]));
      ValidChain(Print(items[0]), "," + PrintItems(items[1..]));
    } else {
      ValidChain(Print(items[0]), "]");
    }
  }

  lemma {:induction false} PrintMembersValid(members: seq<Member>)
    requires members != [] && MembersValid(members)
    ensures Valid(PrintMembers(members))
    decreases members, 0
  {
    hide Valid, Print, Quote;
    var key, value := Quote(members[0].key), Print(members[0].value);
    QuoteValid(members[0].key);
    PrintValid(members[0].value);
    AsciiValid(":");
    AsciiValid("}");
    AsciiValid(",");
    var after := "}";
    if |members| > 1 {
      PrintMembersValid(members[1..]);
      ValidChain(",", PrintMembers(members[1..]));
      after := "," + PrintMembers(members[1..]);
    }
    ValidChain(value, after);
    ValidChain(":", value + after);
    ValidChain(key, ":" + (value + after));
  }

  /** Printing and reading are inverse for every value within the limits. */
  lemma PrintRoundTrip(v: Json)
    requires Printable(v, 0) && Count(v) <= MAX_NODES && AllValid(v) && |Print(v)| <= MAX_BYTES
    ensures Parse(Print(v)) == Good(v, "")
  {
    PrintValid(v);
    AcceptedPrint(v);
  }

  /** A printed value that is accepted at all is read as that value. */
  lemma AcceptedPrint(v: Json)
    requires Printable(v, 0) && Count(v) <= MAX_NODES
    ensures Parse(Print(v)).Good? <==> |Print(v)| <= MAX_BYTES && Valid(Print(v))
    ensures Parse(Print(v)).Good? ==> Parse(Print(v)) == Good(v, "")
  {
    hide Print, TreeText, Value, Printable, Count;
    if |Print(v)| <= MAX_BYTES && Valid(Print(v)) {
      var t := HasTree(v, 0);
      assert TreeText(t) + "" == Print(v);
      Nonempty(v);
      ValueIs(t, "", Print(v));
    }
  }

  lemma Nonempty(v: Json)
    ensures Print(v) != ""
  {
  }
}
