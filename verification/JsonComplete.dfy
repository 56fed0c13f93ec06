/** Every text of the grammar within the limits is read, and as its value. */
module JsonComplete {
  import opened Utf8
  import opened Json
  import opened JsonReader
  import opened JsonCorrect

  function Body(t: Tree): string {
    match t
    case TrueTree(_) => "true"
    case FalseTree(_) => "false"
    case NullTree(_) => "null"
    case DigitsTree(_, digits) => digits
    case StringTree(_, pieces) => Quoted(pieces)
    case EmptyArrayTree(_, gap) => "[" + (gap + "]")
    case ArrayTree(_, elements) => "[" + ItemsText(elements)
    case EmptyObjectTree(_, gap) => "{" + (gap + "}")
    case ObjectTree(_, fields) => "{" + FieldsText(fields)
  }

  lemma BodyFirst(t: Tree, depth: nat)
    requires GoodTree(t, depth)
    ensures TreeText(t) == t.lead + Body(t) && Body(t) != "" && !IsSpace(Body(t)[0]) && Body(t)[0] != ']'
  {
  }

  /** The token that opens a value. */
  lemma BodyStarts(t: Tree, depth: nat, rest: string)
    requires GoodTree(t, depth)
    ensures Body(t) != "" && Body(t)[0] != ']' && Space(TreeText(t) + rest) == Body(t) + rest
  {
    BodyFirst(t, depth);
    Regroup(t.lead, Body(t), rest);
    SpaceSkips(t.lead, Body(t) + rest);
  }

  lemma Leaf(t: Tree, depth: nat, nodes: nat, rest: string)
    requires GoodTree(t, depth) && NoDigit(rest) && nodes + 1 <= MAX_NODES
    requires t.TrueTree? || t.FalseTree? || t.NullTree?
    ensures Value(TreeText(t) + rest, depth, nodes) == Good((TreeValue(t, depth), nodes + 1), rest)
  {
    BodyStarts(t, depth, rest);
    var s := Body(t) + rest;
    assert s[..|Body(t)|] == Body(t) && s[|Body(t)|..] == rest;
  }

  lemma NumberLeaf(t: Tree, depth: nat, nodes: nat, rest: string)
    requires GoodTree(t, depth) && NoDigit(rest) && nodes + 1 <= MAX_NODES && t.DigitsTree?
    ensures Value(TreeText(t) + rest, depth, nodes) == Good((TreeValue(t, depth), nodes + 1), rest)
  {
    BodyStarts(t, depth, rest);
    assert "" + t.digits == t.digits && (t.digits + rest)[0] == t.digits[0];
    DigitsComplete("", t.digits, rest);
    NumberValue(TreeText(t) + rest, depth, nodes);
  }

  lemma NumberValue(s: string, depth: nat, nodes: nat)
    requires depth <= MAX_DEPTH && nodes + 1 <= MAX_NODES && Space(s) != "" && IsDigit(Space(s)[0])
    ensures var r := Digits(Space(s), 0); Value(s, depth, nodes) == if r.Bad? then Bad else Good((Number(r.value), nodes + 1), r.rest)
  {
  }

  lemma StringLeaf(t: Tree, depth: nat, nodes: nat, rest: string)
    requires GoodTree(t, depth) && nodes + 1 <= MAX_NODES && t.StringTree?
    ensures Value(TreeText(t) + rest, depth, nodes) == Good((TreeValue(t, depth), nodes + 1), rest)
  {
    BodyStarts(t, depth, rest);
    var s := Quoted(t.pieces) + rest;
    assert "" + s == s;
    StringComplete("", t.pieces, rest);
  }

  lemma EmptyArrayValue(s: string, depth: nat, nodes: nat, gap: string, rest: string)
    requires depth <= MAX_DEPTH && nodes + 1 <= MAX_NODES && Blank(gap) && Space(s) == ("[" + (gap + "]")) + rest
    ensures Value(s, depth, nodes) == Good((Array([]), nodes + 1), rest)
  {
    assert Space(s)[1..] == gap + ("]" + rest);
    TakeSkips(gap, ']', rest);
  }

  lemma EmptyObjectValue(s: string, depth: nat, nodes: nat, gap: string, rest: string)
    requires depth <= MAX_DEPTH && nodes + 1 <= MAX_NODES && Blank(gap) && Space(s) == ("{" + (gap + "}")) + rest
    ensures Value(s, depth, nodes) == Good((Object([]), nodes + 1), rest)
  {
    assert Space(s)[1..] == gap + ("}" + rest);
    TakeSkips(gap, '}', rest);
  }

  lemma EmptyLeaf(t: Tree, depth: nat, nodes: nat, rest: string)
    requires GoodTree(t, depth) && nodes + 1 <= MAX_NODES && (t.EmptyArrayTree? || t.EmptyObjectTree?)
    ensures Value(TreeText(t) + rest, depth, nodes) == Good((TreeValue(t, depth), nodes + 1), rest)
  {
    BodyStarts(t, depth, rest);
    if t.EmptyArrayTree? {
      EmptyArrayValue(TreeText(t) + rest, depth, nodes, t.gap, rest);
    } else {
      EmptyObjectValue(TreeText(t) + rest, depth, nodes, t.gap, rest);
    }
  }

  /** A value never starts with a closing bracket or brace. */
  lemma NotClosing(t: Tree, depth: nat, rest: string)
    requires GoodTree(t, depth)
    ensures !Sees(TreeText(t) + rest, ']')
  {
    BodyStarts(t, depth, rest);
  }

  lemma FieldsNotClosing(fields: Fields, depth: nat, used: set<string>, rest: string)
    requires GoodFields(fields, depth, used)
    ensures !Sees(FieldsText(fields) + rest, '}')
  {
    hide TreeText, PiecesText, GoodTree;
    var inner := FieldsText(fields)[|fields.lead| + 1..];
    assert FieldsText(fields) + rest == fields.lead + (['"'] + (inner + rest));
    TakeSkips(fields.lead, '"', inner + rest);
  }

  /** What follows an item or a member: a comma, or the closing token. */
  lemma Separated(gap: string, c: char, rest: string)
    requires Blank(gap) && !IsSpace(c) && !IsDigit(c)
    ensures NoDigit(gap + ([c] + rest)) && Sees(gap + ([c] + rest), c) && Space(gap + ([c] + rest))[1..] == rest
    ensures forall d :: d != c ==> !Sees(gap + ([c] + rest), d)
  {
    TakeSkips(gap, c, rest);
    if gap != "" { assert (gap + ([c] + rest))[0] == gap[0]; }
  }

  lemma ArrayValue(s: string, depth: nat, nodes: nat, inner: string, rest: string)
    requires depth <= MAX_DEPTH && nodes + 1 <= MAX_NODES && Space(s) == ("[" + inner) + rest && !Sees(inner + rest, ']')
    ensures Value(s, depth, nodes) == Elements(inner + rest, depth, nodes + 1, [])
  {
    assert Space(s)[1..] == inner + rest;
  }

  lemma ObjectValue(s: string, depth: nat, nodes: nat, inner: string, rest: string)
    requires depth <= MAX_DEPTH && nodes + 1 <= MAX_NODES && Space(s) == ("{" + inner) + rest && !Sees(inner + rest, '}')
    ensures Value(s, depth, nodes) == Members(inner + rest, depth, nodes + 1, [])
  {
    assert Space(s)[1..] == inner + rest;
  }

  lemma EmptyFirst<T>(xs: seq<T>)
    ensures [] + xs == xs
  {
  }

  lemma {:induction false} ValueComplete(t: Tree, depth: nat, nodes: nat, rest: string)
    requires GoodTree(t, depth) && NoDigit(rest) && nodes + TreeNodes(t) <= MAX_NODES
    ensures Value(TreeText(t) + rest, depth, nodes) == Good((TreeValue(t, depth), nodes + TreeNodes(t)), rest)
    decreases t, 1
  {
    match t
    case DigitsTree(_, _) => NumberLeaf(t, depth, nodes, rest);
    case StringTree(_, _) => StringLeaf(t, depth, nodes, rest);
    case EmptyArrayTree(_, _) => EmptyLeaf(t, depth, nodes, rest);
    case EmptyObjectTree(_, _) => EmptyLeaf(t, depth, nodes, rest);
    case ArrayTree(_, _) => ArrayComplete(t, depth, nodes, rest);
    case ObjectTree(_, _) => ObjectComplete(t, depth, nodes, rest);
    case _ => Leaf(t, depth, nodes, rest);
  }

  lemma ArrayComplete(t: Tree, depth: nat, nodes: nat, rest: string)
    requires GoodTree(t, depth) && nodes + TreeNodes(t) <= MAX_NODES && t.ArrayTree?
    ensures Value(TreeText(t) + rest, depth, nodes) == Good((TreeValue(t, depth), nodes + TreeNodes(t)), rest)
    decreases t, 0
  {
    hide Value, Elements, Members;
    BodyStarts(t, depth, rest);
    ItemsStart(t.elements, depth + 1, rest);
    ArrayValue(TreeText(t) + rest, depth, nodes, ItemsText(t.elements), rest);
    ElementsComplete(t.elements, depth, nodes + 1, [], rest);
    EmptyFirst(ItemsValue(t.elements, depth + 1));
  }

  lemma ObjectComplete(t: Tree, depth: nat, nodes: nat, rest: string)
    requires GoodTree(t, depth) && nodes + TreeNodes(t) <= MAX_NODES && t.ObjectTree?
    ensures Value(TreeText(t) + rest, depth, nodes) == Good((TreeValue(t, depth), nodes + TreeNodes(t)), rest)
    decreases t, 0
  {
    hide Value, Elements, Members;
    BodyStarts(t, depth, rest);
    FieldsNotClosing(t.fields, depth + 1, {}, rest);
    ObjectValue(TreeText(t) + rest, depth, nodes, FieldsText(t.fields), rest);
    MembersComplete(t.fields, depth, nodes + 1, [], {}, rest);
    EmptyFirst(FieldsValue(t.fields, depth + 1, {}));
  }

  lemma ItemsStart(items: Items, depth: nat, rest: string)
    requires GoodItems(items, depth)
    ensures !Sees(ItemsText(items) + rest, ']')
  {
    var after := ItemsText(items)[|TreeText(items.item)|..];
    assert ItemsText(items) + rest == TreeText(items.item) + (after + rest);
    NotClosing(items.item, depth, after + rest);
  }

  /** What an array's text is after its first item. */
  function AfterItem(items: Items): string {
    if items.LastItem? then items.gap + "]" else items.gap + ("," + ItemsText(items.rest))
  }

  lemma ElementsLast(s: string, depth: nat, nodes: nat, acc: seq<Json>, item: Json, n: nat, gap: string, rest: string)
    requires Blank(gap) && Value(s, depth + 1, nodes) == Good((item, n), gap + ("]" + rest))
    ensures Elements(s, depth, nodes, acc) == Good((Array(acc + [item]), n), rest)
  {
    Separated(gap, ']', rest);
  }

  lemma ElementsMore(s: string, depth: nat, nodes: nat, acc: seq<Json>, item: Json, n: nat, gap: string, more: string)
    requires Blank(gap) && Value(s, depth + 1, nodes) == Good((item, n), gap + ("," + more))
    ensures Elements(s, depth, nodes, acc) == Elements(more, depth, n, acc + [item])
  {
    Separated(gap, ',', more);
  }

  /** The first item of an array, with what follows it. */
  lemma ItemComplete(items: Items, depth: nat, nodes: nat, rest: string, follow: string)
    requires GoodItems(items, depth + 1) && nodes + TreeNodes(items.item) <= MAX_NODES
    requires follow == if items.LastItem? then items.gap + ("]" + rest) else items.gap + ("," + (ItemsText(items.rest) + rest))
    ensures Value(ItemsText(items) + rest, depth + 1, nodes) ==
            Good((TreeValue(items.item, depth + 1), nodes + TreeNodes(items.item)), follow)
    decreases items, 0
  {
    hide Value, Elements, Members;
    Regroup(TreeText(items.item), AfterItem(items), rest);
    assert AfterItem(items) + rest == follow;
    if items.LastItem? { Separated(items.gap, ']', rest); } else { Separated(items.gap, ',', ItemsText(items.rest) + rest); }
    ValueComplete(items.item, depth + 1, nodes, follow);
  }

  lemma LastItemComplete(items: Items, depth: nat, nodes: nat, acc: seq<Json>, rest: string)
    requires GoodItems(items, depth + 1) && nodes + ItemsNodes(items) <= MAX_NODES && items.LastItem?
    ensures Elements(ItemsText(items) + rest, depth, nodes, acc) ==
            Good((Array(acc + ItemsValue(items, depth + 1)), nodes + ItemsNodes(items)), rest)
    decreases items, 1
  {
    hide Value, Elements, Members;
    ItemComplete(items, depth, nodes, rest, items.gap + ("]" + rest));
    ElementsLast(ItemsText(items) + rest, depth, nodes, acc, TreeValue(items.item, depth + 1), nodes + TreeNodes(items.item), items.gap, rest);
  }

  lemma FirstItemComplete(items: Items, depth: nat, nodes: nat, acc: seq<Json>, rest: string)
    requires GoodItems(items, depth + 1) && nodes + ItemsNodes(items) <= MAX_NODES && items.MoreItems?
    ensures Elements(ItemsText(items) + rest, depth, nodes, acc) ==
            Elements(ItemsText(items.rest) + rest, depth, nodes + TreeNodes(items.item), acc + [TreeValue(items.item, depth + 1)])
    decreases items, 1
  {
    hide Value, Elements, Members;
    var more := ItemsText(items.rest) + rest;
    ItemComplete(items, depth, nodes, rest, items.gap + ("," + more));
    ElementsMore(ItemsText(items) + rest, depth, nodes, acc, TreeValue(items.item, depth + 1), nodes + TreeNodes(items.item), items.gap, more);
  }

  lemma {:induction false} ElementsComplete(items: Items, depth: nat, nodes: nat, acc: seq<Json>, rest: string)
    requires GoodItems(items, depth + 1) && nodes + ItemsNodes(items) <= MAX_NODES
    ensures Elements(ItemsText(items) + rest, depth, nodes, acc) ==
            Good((Array(acc + ItemsValue(items, depth + 1)), nodes + ItemsNodes(items)), rest)
    decreases items, 2
  {
    hide Value, Elements, Members;
    if items.LastItem? {
      LastItemComplete(items, depth, nodes, acc, rest);
    } else {
      var value := TreeValue(items.item, depth + 1);
      FirstItemComplete(items, depth, nodes, acc, rest);
      ElementsComplete(items.rest, depth, nodes + TreeNodes(items.item), acc + [value], rest);
      AppendFirst(acc, value, ItemsValue(items.rest, depth + 1));
    }
  }

  lemma AppendFirst<T>(acc: seq<T>, x: T, xs: seq<T>)
    ensures acc + [x] + xs == acc + ([x] + xs)
  {
  }

  function Keys(members: seq<Member>): set<string> {
    set i | 0 <= i < |members| :: members[i].key
  }

  lemma KeysAdd(members: seq<Member>, m: Member)
    ensures Keys(members + [m]) == Keys(members) + {m.key}
    ensures HasKey(members, m.key) <==> m.key in Keys(members)
  {
    forall key
      ensures key in Keys(members + [m]) <==> key in Keys(members) + {m.key}
    {
      if key in Keys(members) {
        var i :| 0 <= i < |members| && members[i].key == key;
        assert (members + [m])[i].key == key;
      }
      assert (members + [m])[|members|].key == m.key;
    }
  }

  function AfterField(fields: Fields): string {
    if fields.LastField? then fields.gap + "}" else fields.gap + ("," + FieldsText(fields.rest))
  }

  /** Key, colon and value of the first member, with what follows it. */
  lemma FieldComplete(fields: Fields, depth: nat, nodes: nat, used: set<string>, rest: string, follow: string)
    requires GoodFields(fields, depth + 1, used) && nodes + TreeNodes(fields.value) <= MAX_NODES
    requires follow == if fields.LastField? then fields.gap + ("}" + rest) else fields.gap + ("," + (FieldsText(fields.rest) + rest))
    ensures var s := FieldsText(fields) + rest;
      && String(s).Good? && String(s).value == PiecesValue(fields.key)
      && Sees(String(s).rest, ':')
      && Value(Space(String(s).rest)[1..], depth + 1, nodes)
         == Good((TreeValue(fields.value, depth + 1), nodes + TreeNodes(fields.value)), follow)
    decreases fields, 0
  {
    hide Value, Elements, Members;
    var tail := TreeText(fields.value) + follow;
    var colon := fields.colon + ([':'] + tail);
    FieldsSplit(fields, rest, follow);
    StringComplete(fields.lead, fields.key, colon);
    TakeSkips(fields.colon, ':', tail);
    if fields.LastField? { Separated(fields.gap, '}', rest); } else { Separated(fields.gap, ',', FieldsText(fields.rest) + rest); }
    ValueComplete(fields.value, depth + 1, nodes, follow);
  }

  lemma FieldsSplit(fields: Fields, rest: string, follow: string)
    requires follow == if fields.LastField? then fields.gap + ("}" + rest) else fields.gap + ("," + (FieldsText(fields.rest) + rest))
    ensures FieldsText(fields) + rest == fields.lead + (Quoted(fields.key) + (fields.colon + (":" + (TreeText(fields.value) + follow))))
  {
    assert AfterField(fields) + rest == follow;
    Regroup(TreeText(fields.value), AfterField(fields), rest);
    Regroup(":", TreeText(fields.value) + AfterField(fields), rest);
    Regroup(fields.colon, ":" + (TreeText(fields.value) + AfterField(fields)), rest);
    Regroup(Quoted(fields.key), fields.colon + (":" + (TreeText(fields.value) + AfterField(fields))), rest);
    Regroup(fields.lead, Quoted(fields.key) + (fields.colon + (":" + (TreeText(fields.value) + AfterField(fields)))), rest);
  }

  lemma MembersLast(s: string, depth: nat, nodes: nat, acc: seq<Member>, m: Member, n: nat, gap: string, rest: string)
    requires String(s).Good? && String(s).value == m.key && Sees(String(s).rest, ':') && !HasKey(acc, m.key)
    requires Blank(gap) && Value(Space(String(s).rest)[1..], depth + 1, nodes) == Good((m.value, n), gap + ("}" + rest))
    ensures Members(s, depth, nodes, acc) == Good((Object(acc + [m]), n), rest)
  {
    Separated(gap, '}', rest);
  }

  lemma MembersMore(s: string, depth: nat, nodes: nat, acc: seq<Member>, m: Member, n: nat, gap: string, more: string)
    requires String(s).Good? && String(s).value == m.key && Sees(String(s).rest, ':') && !HasKey(acc, m.key)
    requires Blank(gap) && Value(Space(String(s).rest)[1..], depth + 1, nodes) == Good((m.value, n), gap + ("," + more))
    ensures Members(s, depth, nodes, acc) == Members(more, depth, n, acc + [m])
  {
    Separated(gap, ',', more);
  }

  lemma LastFieldComplete(fields: Fields, depth: nat, nodes: nat, acc: seq<Member>, used: set<string>, rest: string)
    requires GoodFields(fields, depth + 1, used) && used == Keys(acc) && nodes + FieldsNodes(fields) <= MAX_NODES && fields.LastField?
    ensures Members(FieldsText(fields) + rest, depth, nodes, acc) ==
            Good((Object(acc + FieldsValue(fields, depth + 1, used)), nodes + FieldsNodes(fields)), rest)
    decreases fields, 1
  {
    hide Value, Elements, Members;
    var m := Member(PiecesValue(fields.key), TreeValue(fields.value, depth + 1));
    KeysAdd(acc, m);
    FieldComplete(fields, depth, nodes, used, rest, fields.gap + ("}" + rest));
    MembersLast(FieldsText(fields) + rest, depth, nodes, acc, m, nodes + TreeNodes(fields.value), fields.gap, rest);
  }

  lemma FirstFieldComplete(fields: Fields, depth: nat, nodes: nat, acc: seq<Member>, used: set<string>, rest: string, m: Member)
    requires GoodFields(fields, depth + 1, used) && used == Keys(acc) && nodes + FieldsNodes(fields) <= MAX_NODES && fields.MoreFields?
    requires m == Member(PiecesValue(fields.key), TreeValue(fields.value, depth + 1))
    ensures Members(FieldsText(fields) + rest, depth, nodes, acc) ==
            Members(FieldsText(fields.rest) + rest, depth, nodes + TreeNodes(fields.value), acc + [m])
    decreases fields, 1
  {
    hide Value, Elements, Members;
    var more := FieldsText(fields.rest) + rest;
    KeysAdd(acc, m);
    FieldComplete(fields, depth, nodes, used, rest, fields.gap + ("," + more));
    MembersMore(FieldsText(fields) + rest, depth, nodes, acc, m, nodes + TreeNodes(fields.value), fields.gap, more);
  }

  lemma {:induction false} MembersComplete(fields: Fields, depth: nat, nodes: nat, acc: seq<Member>, used: set<string>, rest: string)
    requires GoodFields(fields, depth + 1, used) && used == Keys(acc) && nodes + FieldsNodes(fields) <= MAX_NODES
    ensures Members(FieldsText(fields) + rest, depth, nodes, acc) ==
            Good((Object(acc + FieldsValue(fields, depth + 1, used)), nodes + FieldsNodes(fields)), rest)
    decreases fields, 2
  {
    hide Value, Elements, Members;
    if fields.LastField? {
      LastFieldComplete(fields, depth, nodes, acc, used, rest);
    } else {
      var m := Member(PiecesValue(fields.key), TreeValue(fields.value, depth + 1));
      FirstFieldComplete(fields, depth, nodes, acc, used, rest, m);
      KeysAdd(acc, m);
      MembersComplete(fields.rest, depth, nodes + TreeNodes(fields.value), acc + [m], used + {m.key}, rest);
      AppendFirst(acc, m, FieldsValue(fields.rest, depth + 1, used + {m.key}));
    }
  }
}
