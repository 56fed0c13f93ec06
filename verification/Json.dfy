/** JSON values as the updater keeps them, and the grammar of their texts. Texts are byte
    strings: every character is a byte. */
module Json {
  import opened Utf8

  datatype Json =
    | Null
    | Boolean(truth: bool)
    | Number(number: nat)
    | Text(text: string)
    | Array(items: seq<Json>)
    | Object(members: seq<Member>)

  datatype Member = Member(key: string, value: Json)

  const MAX_BYTES := 1048576
  const MAX_DEPTH := 24
  const MAX_NODES := 40000
  const MAX_NUMBER := 0xFFFF_FFFF_FFFF_FFFF

  predicate HasKey(members: seq<Member>, key: string) {
    exists i :: 0 <= i < |members| && members[i].key == key
  }

  // -------------------------------------------------------------- characters

  predicate IsSpace(c: char) {
    c == ' ' || c == '\r' || c == '\n' || c == '\t'
  }

  predicate IsDigit(c: char) {
    '0' <= c <= '9'
  }

  predicate IsHex(c: char) {
    IsDigit(c) || 'a' <= c <= 'f' || 'A' <= c <= 'F'
  }

  function HexDigit(c: char): (d: nat)
    requires IsHex(c)
    ensures d < 16
  {
    if IsDigit(c) then c as int - '0' as int else if 'a' <= c then c as int - 'a' as int + 10 else c as int - 'A' as int + 10
  }

  predicate IsHex4(s: string) {
    |s| == 4 && IsHex(s[0]) && IsHex(s[1]) && IsHex(s[2]) && IsHex(s[3])
  }

  function Hex4(s: string): (code: nat)
    requires IsHex4(s)
    ensures code < 0x10000
  {
    ((HexDigit(s[0]) * 16 + HexDigit(s[1])) * 16 + HexDigit(s[2])) * 16 + HexDigit(s[3])
  }

  predicate IsHigh(code: nat) {
    0xD800 <= code <= 0xDBFF
  }

  predicate IsLow(code: nat) {
    0xDC00 <= code <= 0xDFFF
  }

  /** Section 2.2 of RFC 2781. */
  function Joined(high: nat, low: nat): nat
    requires IsHigh(high) && IsLow(low)
  {
    0x10000 + (high - 0xD800) * 0x400 + (low - 0xDC00)
  }

  // ----------------------------------------------------------------- grammar

  /** One item of a string: a byte that stands for itself, or an escape. */
  datatype Piece = Plain(c: char) | Short(letter: char) | Unit(hex: string) | Pair(high: string, low: string)

  const LETTERS := "\"\\/bfnrt"

  predicate GoodPiece(p: Piece) {
    match p
    case Plain(c) => 32 <= c as int && c != '"' && c != '\\'
    case Short(letter) => letter in LETTERS
    case Unit(hex) => IsHex4(hex) && !IsHigh(Hex4(hex)) && !IsLow(Hex4(hex))
    case Pair(high, low) => IsHex4(high) && IsHigh(Hex4(high)) && IsHex4(low) && IsLow(Hex4(low))
  }

  function PieceText(p: Piece): string {
    match p
    case Plain(c) => [c]
    case Short(letter) => ['\\', letter]
    case Unit(hex) => "\\u" + hex
    case Pair(high, low) => "\\u" + high + "\\u" + low
  }

  function Unescaped(letter: char): char {
    match letter
    case 'b' => 8 as char
    case 'f' => 12 as char
    case 'n' => '\n'
    case 'r' => '\r'
    case 't' => '\t'
    case _ => letter
  }

  function PieceValue(p: Piece): string
    requires GoodPiece(p)
  {
    match p
    case Plain(c) => [c]
    case Short(letter) => [Unescaped(letter)]
    case Unit(hex) => Encoded(Hex4(hex))
    case Pair(high, low) => Encoded(Joined(Hex4(high), Hex4(low)))
  }

  predicate GoodPieces(ps: seq<Piece>) {
    forall i :: 0 <= i < |ps| ==> GoodPiece(ps[i])
  }

  function PiecesText(ps: seq<Piece>): string {
    if ps == [] then "" else PieceText(ps[0]) + PiecesText(ps[1..])
  }

  function PiecesValue(ps: seq<Piece>): string
    requires GoodPieces(ps)
  {
    if ps == [] then "" else PieceValue(ps[0]) + PiecesValue(ps[1..])
  }

  function Quoted(ps: seq<Piece>): string {
    "\"" + PiecesText(ps) + "\""
  }

  /** A number: decimal digits without superfluous zeros. */
  predicate GoodDigits(s: string) {
    && s != "" && (forall i :: 0 <= i < |s| ==> IsDigit(s[i])) && (s[0] == '0' ==> |s| == 1)
    && Decimal(s) <= MAX_NUMBER
  }

  function Digit(c: char): nat
    requires IsDigit(c)
  {
    c as int - '0' as int
  }

  function Decimal(s: string): nat
    requires forall i :: 0 <= i < |s| ==> IsDigit(s[i])
  {
    if s == "" then 0 else Decimal(s[..|s| - 1]) * 10 + Digit(s[|s| - 1])
  }

  predicate Blank(s: string) {
    forall i :: 0 <= i < |s| ==> IsSpace(s[i])
  }

  /** A syntax tree. Blanks stand before every token, and once at the end of a text. */
  datatype Tree =
    | TrueTree(lead: string)
    | FalseTree(lead: string)
    | NullTree(lead: string)
    | DigitsTree(lead: string, digits: string)
    | StringTree(lead: string, pieces: seq<Piece>)
    | EmptyArrayTree(lead: string, gap: string)
    | ArrayTree(lead: string, elements: Items)
    | EmptyObjectTree(lead: string, gap: string)
    | ObjectTree(lead: string, fields: Fields)

  /** The items of an array, after its opening bracket. */
  datatype Items = LastItem(item: Tree, gap: string) | MoreItems(item: Tree, gap: string, rest: Items)

  /** The members of an object, after its opening brace. */
  datatype Fields =
    | LastField(lead: string, key: seq<Piece>, colon: string, value: Tree, gap: string)
    | MoreFields(lead: string, key: seq<Piece>, colon: string, value: Tree, gap: string, rest: Fields)

  function TreeText(t: Tree): string {
    match t
    case TrueTree(lead) => lead + "true"
    case FalseTree(lead) => lead + "false"
    case NullTree(lead) => lead + "null"
    case DigitsTree(lead, digits) => lead + digits
    case StringTree(lead, pieces) => lead + Quoted(pieces)
    case EmptyArrayTree(lead, gap) => lead + ("[" + (gap + "]"))
    case ArrayTree(lead, elements) => lead + ("[" + ItemsText(elements))
    case EmptyObjectTree(lead, gap) => lead + ("{" + (gap + "}"))
    case ObjectTree(lead, fields) => lead + ("{" + FieldsText(fields))
  }

  function ItemsText(items: Items): string {
    match items
    case LastItem(item, gap) => TreeText(item) + (gap + "]")
    case MoreItems(item, gap, rest) => TreeText(item) + (gap + ("," + ItemsText(rest)))
  }

  function FieldsText(fields: Fields): string {
    match fields
    case LastField(lead, key, colon, value, gap) => lead + (Quoted(key) + (colon + (":" + (TreeText(value) + (gap + "}")))))
    case MoreFields(lead, key, colon, value, gap, rest) =>
      lead + (Quoted(key) + (colon + (":" + (TreeText(value) + (gap + ("," + FieldsText(rest)))))))
  }

  /** Blanks are blank, strings and numbers are well formed, nothing is nested deeper than
      allowed. */
  predicate GoodTree(t: Tree, depth: nat) {
    && depth <= MAX_DEPTH && Blank(t.lead)
    && match t
       case DigitsTree(_, digits) => GoodDigits(digits)
       case StringTree(_, pieces) => GoodPieces(pieces)
       case EmptyArrayTree(_, gap) => Blank(gap)
       case ArrayTree(_, elements) => GoodItems(elements, depth + 1)
       case EmptyObjectTree(_, gap) => Blank(gap)
       case ObjectTree(_, fields) => GoodFields(fields, depth + 1, {})
       case _ => true
  }

  predicate GoodItems(items: Items, depth: nat) {
    GoodTree(items.item, depth) && Blank(items.gap) && (items.MoreItems? ==> GoodItems(items.rest, depth))
  }

  /** No key repeats one of the `used` keys or another one. */
  predicate GoodFields(fields: Fields, depth: nat, used: set<string>) {
    && Blank(fields.lead) && GoodPieces(fields.key) && PiecesValue(fields.key) !in used
    && Blank(fields.colon) && GoodTree(fields.value, depth) && Blank(fields.gap)
    && (fields.MoreFields? ==> GoodFields(fields.rest, depth, used + {PiecesValue(fields.key)}))
  }

  function TreeValue(t: Tree, depth: nat): Json
    requires GoodTree(t, depth)
  {
    match t
    case TrueTree(_) => Boolean(true)
    case FalseTree(_) => Boolean(false)
    case NullTree(_) => Null
    case DigitsTree(_, digits) => Number(Decimal(digits))
    case StringTree(_, pieces) => Text(PiecesValue(pieces))
    case EmptyArrayTree(_, _) => Array([])
    case ArrayTree(_, elements) => Array(ItemsValue(elements, depth + 1))
    case EmptyObjectTree(_, _) => Object([])
    case ObjectTree(_, fields) => Object(FieldsValue(fields, depth + 1, {}))
  }

  function ItemsValue(items: Items, depth: nat): seq<Json>
    requires GoodItems(items, depth)
  {
    var value := TreeValue(items.item, depth);
    if items.LastItem? then [value] else [value] + ItemsValue(items.rest, depth)
  }

  function FieldsValue(fields: Fields, depth: nat, used: set<string>): seq<Member>
    requires GoodFields(fields, depth, used)
  {
    var m := Member(PiecesValue(fields.key), TreeValue(fields.value, depth));
    if fields.LastField? then [m] else [m] + FieldsValue(fields.rest, depth, used + {m.key})
  }

  /** The number of values in a tree. */
  function TreeNodes(t: Tree): nat {
    match t
    case ArrayTree(_, elements) => 1 + ItemsNodes(elements)
    case ObjectTree(_, fields) => 1 + FieldsNodes(fields)
    case _ => 1
  }

  function ItemsNodes(items: Items): nat {
    TreeNodes(items.item) + if items.LastItem? then 0 else ItemsNodes(items.rest)
  }

  function FieldsNodes(fields: Fields): nat {
    TreeNodes(fields.value) + if fields.LastField? then 0 else FieldsNodes(fields.rest)
  }
}
