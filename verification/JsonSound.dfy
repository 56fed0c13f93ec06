/** Whatever is read has a syntax tree, and the value of that tree. */
module JsonSound {
  import opened Utf8
  import opened Json
  import opened JsonReader
  import opened JsonCorrect
  import opened JsonComplete

  /** `t` describes what a reader consumed of `s`. */
  ghost predicate Describes(t: Tree, s: string, depth: nat, nodes: nat, r: Read<(Json, nat)>) {
    r.Good? && GoodTree(t, depth) && s == TreeText(t) + r.rest && r.value == (TreeValue(t, depth), nodes + TreeNodes(t)) && r.value.1 <= MAX_NODES
  }

  ghost predicate DescribesItems(items: Items, s: string, depth: nat, nodes: nat, acc: seq<Json>, r: Read<(Json, nat)>) {
    && r.Good? && GoodItems(items, depth + 1) && s == ItemsText(items) + r.rest
    && r.value == (Array(acc + ItemsValue(items, depth + 1)), nodes + ItemsNodes(items)) && r.value.1 <= MAX_NODES
  }

  ghost predicate DescribesFields(fields: Fields, s: string, depth: nat, nodes: nat, acc: seq<Member>, r: Read<(Json, nat)>) {
    && r.Good? && GoodFields(fields, depth + 1, Keys(acc)) && s == FieldsText(fields) + r.rest
    && r.value == (Object(acc + FieldsValue(fields, depth + 1, Keys(acc))), nodes + FieldsNodes(fields)) && r.value.1 <= MAX_NODES
  }

  /** What starts a value decides how it is read. */
  lemma ValueCases(s: string, depth: nat, nodes: nat)
    requires Value(s, depth, nodes).Good?
    ensures var t, r := Space(s), Value(s, depth, nodes);
      && depth <= MAX_DEPTH && nodes + 1 <= MAX_NODES && t != ""
      && (t[0] == '{' && !Sees(t[1..], '}') ==> r == Members(t[1..], depth, nodes + 1, []))
      && (t[0] == '[' && !Sees(t[1..], ']') ==> r == Elements(t[1..], depth, nodes + 1, []))
  {
  }

  /** A tree whose token text stands after the blanks. */
  lemma Assemble(t: Tree, s: string, depth: nat, nodes: nat, r: Read<(Json, nat)>)
    requires r.Good? && GoodTree(t, depth) && s == t.lead + Space(s) && Space(s) == Body(t) + r.rest
    requires r.value == (TreeValue(t, depth), nodes + TreeNodes(t)) && r.value.1 <= MAX_NODES
    ensures Describes(t, s, depth, nodes, r)
  {
    hide GoodTree, TreeValue, TreeNodes, TreeText, Space, Body;
    BodyFirst(t, depth);
    Regroup(t.lead, Body(t), r.rest);
  }

  lemma EmptyCases(s: string, depth: nat, nodes: nat)
    requires Value(s, depth, nodes).Good?
    ensures var t, r := Space(s), Value(s, depth, nodes);
      && depth <= MAX_DEPTH && nodes + 1 <= MAX_NODES && t != ""
      && (t[0] == '{' && Sees(t[1..], '}') ==> r == Good((Object([]), nodes + 1), Space(t[1..])[1..]))
      && (t[0] == '[' && Sees(t[1..], ']') ==> r == Good((Array([]), nodes + 1), Space(t[1..])[1..]))
  {
    hide Digits, String, Elements, Members;
  }

  lemma EmptySound(s: string, depth: nat, nodes: nat) returns (t: Tree)
    requires Value(s, depth, nodes).Good?
    requires (Space(s)[0] == '{' && Sees(Space(s)[1..], '}')) || (Space(s)[0] == '[' && Sees(Space(s)[1..], ']'))
    ensures Describes(t, s, depth, nodes, Value(s, depth, nodes))
  {
    hide Value, Space, Sees;
    EmptyCases(s, depth, nodes);
    SpaceSplits(s);
    var inner, rest := Space(s)[1..], Value(s, depth, nodes).rest;
    if Space(s)[0] == '{' && Sees(inner, '}') {
      TakeSplits(inner, '}');
      t := EmptyObjectTree(LeadOf(s), LeadOf(inner));
      Closed(Space(s), '{', LeadOf(inner), '}', rest);
    } else {
      TakeSplits(inner, ']');
      t := EmptyArrayTree(LeadOf(s), LeadOf(inner));
      Closed(Space(s), '[', LeadOf(inner), ']', rest);
    }
    Assemble(t, s, depth, nodes, Value(s, depth, nodes));
  }

  lemma Closed(s: string, open: char, gap: string, close: char, rest: string)
    requires s != "" && s[0] == open && s[1..] == gap + ([close] + rest)
    ensures s == ([open] + (gap + [close])) + rest
  {
  }

  lemma StringCase(s: string, depth: nat, nodes: nat)
    requires Value(s, depth, nodes).Good? && Space(s)[0] == '"'
    ensures depth <= MAX_DEPTH && nodes + 1 <= MAX_NODES && String(Space(s)).Good?
    ensures Value(s, depth, nodes) == Good((Text(String(Space(s)).value), nodes + 1), String(Space(s)).rest)
  {
    hide String;
  }

  lemma NoLead(s: string)
    requires s != "" && !IsSpace(s[0])
    ensures LeadOf(s) == ""
  {
  }

  lemma StringValueSound(s: string, depth: nat, nodes: nat) returns (t: Tree)
    requires Value(s, depth, nodes).Good? && Space(s)[0] == '"'
    ensures Describes(t, s, depth, nodes, Value(s, depth, nodes))
  {
    hide Value, String, Space, LeadOf, Quoted;
    StringCase(s, depth, nodes);
    SpaceSplits(s);
    var lead, ps := StringSound(Space(s));
    NoLead(Space(s));
    assert "" + (Quoted(ps) + Value(s, depth, nodes).rest) == Quoted(ps) + Value(s, depth, nodes).rest;
    t := StringTree(LeadOf(s), ps);
    Assemble(t, s, depth, nodes, Value(s, depth, nodes));
  }

  predicate IsWord(t: Tree) {
    t.TrueTree? || t.FalseTree? || t.NullTree?
  }

  lemma WordCases(s: string, depth: nat, nodes: nat) returns (t: Tree)
    requires Value(s, depth, nodes).Good? && Space(s)[0] !in {'{', '[', '"'} && !IsDigit(Space(s)[0])
    ensures depth <= MAX_DEPTH && nodes + 1 <= MAX_NODES && IsWord(t) && t.lead == LeadOf(s)
    ensures var r := Value(s, depth, nodes);
      Space(s) == Body(t) + r.rest && (Blank(t.lead) ==> r.value == (TreeValue(t, depth), nodes + 1))
  {
    hide Digits, String, Elements, Members, LeadOf;
    t := if Starts(Space(s), "true") then TrueTree(LeadOf(s)) else if Starts(Space(s), "false") then FalseTree(LeadOf(s)) else NullTree(LeadOf(s));
  }

  lemma NumberCase(s: string, depth: nat, nodes: nat)
    requires Value(s, depth, nodes).Good? && IsDigit(Space(s)[0])
    ensures depth <= MAX_DEPTH && nodes + 1 <= MAX_NODES && Digits(Space(s), 0).Good?
    ensures Value(s, depth, nodes) == Good((Number(Digits(Space(s), 0).value), nodes + 1), Digits(Space(s), 0).rest)
  {
    hide Digits, String, Elements, Members;
  }

  lemma LeafSound(s: string, depth: nat, nodes: nat) returns (t: Tree)
    requires Value(s, depth, nodes).Good? && Space(s)[0] !in {'{', '[', '"'}
    ensures Describes(t, s, depth, nodes, Value(s, depth, nodes))
  {
    hide Value, Digits, Space, LeadOf;
    ValueCases(s, depth, nodes);
    SpaceSplits(s);
    if IsDigit(Space(s)[0]) {
      NumberCase(s, depth, nodes);
      var digits := DigitsSound("", Space(s));
      assert "" + Space(s) == Space(s);
      t := DigitsTree(LeadOf(s), digits);
    } else {
      t := WordCases(s, depth, nodes);
    }
    Assemble(t, s, depth, nodes, Value(s, depth, nodes));
  }

  lemma {:induction false} ValueSound(s: string, depth: nat, nodes: nat) returns (t: Tree)
    requires Value(s, depth, nodes).Good?
    ensures Describes(t, s, depth, nodes, Value(s, depth, nodes))
    decreases |s|, 1
  {
    hide Value, Elements, Members;
    ValueCases(s, depth, nodes);
    SpaceSplits(s);
    var inner, r := Space(s)[1..], Value(s, depth, nodes);
    if Space(s)[0] == '{' && !Sees(inner, '}') {
      var fields := MembersSound(inner, depth, nodes + 1, []);
      t := ObjectTree(LeadOf(s), fields);
      ObjectDescribed(t, s, depth, nodes, r);
    } else if Space(s)[0] == '[' && !Sees(inner, ']') {
      var items := ElementsSound(inner, depth, nodes + 1, []);
      t := ArrayTree(LeadOf(s), items);
      ArrayDescribed(t, s, depth, nodes, r);
    } else if Space(s)[0] == '{' || Space(s)[0] == '[' {
      t := EmptySound(s, depth, nodes);
    } else if Space(s)[0] == '"' {
      t := StringValueSound(s, depth, nodes);
    } else {
      t := LeafSound(s, depth, nodes);
    }
  }

  lemma ArrayDescribed(t: Tree, s: string, depth: nat, nodes: nat, r: Read<(Json, nat)>)
    requires t.ArrayTree? && Blank(t.lead) && depth <= MAX_DEPTH && s == t.lead + Space(s) && Space(s) != "" && Space(s)[0] == '['
    requires DescribesItems(t.elements, Space(s)[1..], depth, nodes + 1, [], r)
    ensures Describes(t, s, depth, nodes, r)
  {
    hide ItemsText, Space;
    assert Space(s) == ("[" + ItemsText(t.elements)) + r.rest;
    EmptyFirst(ItemsValue(t.elements, depth + 1));
    Assemble(t, s, depth, nodes, r);
  }

  lemma ObjectDescribed(t: Tree, s: string, depth: nat, nodes: nat, r: Read<(Json, nat)>)
    requires t.ObjectTree? && Blank(t.lead) && depth <= MAX_DEPTH && s == t.lead + Space(s) && Space(s) != "" && Space(s)[0] == '{'
    requires DescribesFields(t.fields, Space(s)[1..], depth, nodes + 1, [], r)
    ensures Describes(t, s, depth, nodes, r)
  {
    hide FieldsText, Space;
    assert Keys([]) == {};
    assert Space(s) == ("{" + FieldsText(t.fields)) + r.rest;
    EmptyFirst(FieldsValue(t.fields, depth + 1, {}));
    Assemble(t, s, depth, nodes, r);
  }

  lemma ElementsCases(s: string, depth: nat, nodes: nat, acc: seq<Json>)
    requires Elements(s, depth, nodes, acc).Good?
    ensures var v, r := Value(s, depth + 1, nodes), Elements(s, depth, nodes, acc);
      && v.Good? && |v.rest| < |s| && |Space(v.rest)| <= |v.rest|
      && (Sees(v.rest, ',') ==> r == Elements(Space(v.rest)[1..], depth, v.value.1, acc + [v.value.0]))
      && (!Sees(v.rest, ',') ==> Sees(v.rest, ']') && r == Good((Array(acc + [v.value.0]), v.value.1), Space(v.rest)[1..]))
  {
  }

  lemma {:induction false} ElementsSound(s: string, depth: nat, nodes: nat, acc: seq<Json>) returns (items: Items)
    requires Elements(s, depth, nodes, acc).Good?
    ensures DescribesItems(items, s, depth, nodes, acc, Elements(s, depth, nodes, acc))
    decreases |s|, 2
  {
    hide Value, Elements, Members;
    ElementsCases(s, depth, nodes, acc);
    var v, r := Value(s, depth + 1, nodes), Elements(s, depth, nodes, acc);
    var t := ValueSound(s, depth + 1, nodes);
    if Sees(v.rest, ',') {
      TakeSplits(v.rest, ',');
      var more := ElementsSound(Space(v.rest)[1..], depth, v.value.1, acc + [v.value.0]);
      items := MoreItems(t, LeadOf(v.rest), more);
      MoreDescribed(items, s, depth, nodes, acc, v, r);
    } else {
      TakeSplits(v.rest, ']');
      items := LastItem(t, LeadOf(v.rest));
      Regroup(LeadOf(v.rest), "]", r.rest);
      Regroup(TreeText(t), LeadOf(v.rest) + "]", r.rest);
    }
  }

  lemma MoreDescribed(items: Items, s: string, depth: nat, nodes: nat, acc: seq<Json>, v: Read<(Json, nat)>, r: Read<(Json, nat)>)
    requires items.MoreItems? && Blank(items.gap) && Describes(items.item, s, depth + 1, nodes, v)
    requires Sees(v.rest, ',') && v.rest == items.gap + ("," + Space(v.rest)[1..])
    requires DescribesItems(items.rest, Space(v.rest)[1..], depth, v.value.1, acc + [v.value.0], r)
    ensures DescribesItems(items, s, depth, nodes, acc, r)
  {
    Regroup(",", ItemsText(items.rest), r.rest);
    Regroup(items.gap, "," + ItemsText(items.rest), r.rest);
    Regroup(TreeText(items.item), items.gap + ("," + ItemsText(items.rest)), r.rest);
    AppendFirst(acc, v.value.0, ItemsValue(items.rest, depth + 1));
  }

  lemma MembersCases(s: string, depth: nat, nodes: nat, acc: seq<Member>)
    requires Members(s, depth, nodes, acc).Good?
    ensures String(s).Good? && Sees(String(s).rest, ':') && !HasKey(acc, String(s).value)
    ensures var inner := Space(String(s).rest)[1..];
      var v, r := Value(inner, depth + 1, nodes), Members(s, depth, nodes, acc);
      && |inner| < |s| && v.Good? && |v.rest| < |s| && |Space(v.rest)| <= |v.rest|
      && (Sees(v.rest, ',') ==> r == Members(Space(v.rest)[1..], depth, v.value.1, acc + [Member(String(s).value, v.value.0)]))
      && (!Sees(v.rest, ',') ==>
            Sees(v.rest, '}') && r == Good((Object(acc + [Member(String(s).value, v.value.0)]), v.value.1), Space(v.rest)[1..]))
  {
  }

  lemma {:induction false} MembersSound(s: string, depth: nat, nodes: nat, acc: seq<Member>) returns (fields: Fields)
    requires Members(s, depth, nodes, acc).Good?
    ensures DescribesFields(fields, s, depth, nodes, acc, Members(s, depth, nodes, acc))
    decreases |s|, 2
  {
    hide Value, Elements, Members, String;
    MembersCases(s, depth, nodes, acc);
    var lead, ps := StringSound(s);
    TakeSplits(String(s).rest, ':');
    var colon, inner := LeadOf(String(s).rest), Space(String(s).rest)[1..];
    var t := ValueSound(inner, depth + 1, nodes);
    var v, r := Value(inner, depth + 1, nodes), Members(s, depth, nodes, acc);
    var m := Member(String(s).value, v.value.0);
    KeysAdd(acc, m);
    if Sees(v.rest, ',') {
      TakeSplits(v.rest, ',');
      var more := MembersSound(Space(v.rest)[1..], depth, v.value.1, acc + [m]);
      fields := MoreFields(lead, ps, colon, t, LeadOf(v.rest), more);
      MoreFieldsDescribed(fields, s, inner, depth, nodes, acc, v, r);
    } else {
      TakeSplits(v.rest, '}');
      fields := LastField(lead, ps, colon, t, LeadOf(v.rest));
      LastFieldDescribed(fields, s, inner, depth, nodes, acc, v, r);
    }
  }

  /** Key, colon and value of a member as they stand in the text. */
  ghost predicate FieldAt(fields: Fields, s: string, inner: string, depth: nat, nodes: nat, acc: seq<Member>, v: Read<(Json, nat)>) {
    && Blank(fields.lead) && Blank(fields.colon) && Blank(fields.gap) && GoodPieces(fields.key) && PiecesValue(fields.key) !in Keys(acc)
    && s == fields.lead + (Quoted(fields.key) + (fields.colon + (":" + inner)))
    && Describes(fields.value, inner, depth + 1, nodes, v)
  }

  lemma LastFieldDescribed(fields: Fields, s: string, inner: string, depth: nat, nodes: nat, acc: seq<Member>, v: Read<(Json, nat)>, r: Read<(Json, nat)>)
    requires fields.LastField? && FieldAt(fields, s, inner, depth, nodes, acc, v) && r.Good?
    requires v.rest == fields.gap + ("}" + r.rest)
    requires r.value == (Object(acc + [Member(PiecesValue(fields.key), v.value.0)]), v.value.1)
    ensures DescribesFields(fields, s, depth, nodes, acc, r)
  {
    FieldsSplit(fields, r.rest, v.rest);
  }

  lemma MoreFieldsDescribed(fields: Fields, s: string, inner: string, depth: nat, nodes: nat, acc: seq<Member>, v: Read<(Json, nat)>, r: Read<(Json, nat)>)
    requires fields.MoreFields? && FieldAt(fields, s, inner, depth, nodes, acc, v)
    requires Sees(v.rest, ',') && v.rest == fields.gap + ("," + Space(v.rest)[1..])
    requires DescribesFields(fields.rest, Space(v.rest)[1..], depth, v.value.1, acc + [Member(PiecesValue(fields.key), v.value.0)], r)
    ensures DescribesFields(fields, s, depth, nodes, acc, r)
  {
    hide Sees, Space, TreeText, Quoted;
    var m := Member(PiecesValue(fields.key), v.value.0);
    KeysAdd(acc, m);
    FieldsSplit(fields, r.rest, v.rest);
    AppendFirst(acc, m, FieldsValue(fields.rest, depth + 1, Keys(acc) + {m.key}));
  }

  // -------------------------------------------------------------- the parser

  /** A text of the grammar within every limit, with its value. */
  ghost predicate IsTextOf(t: Tree, gap: string, s: string) {
    GoodTree(t, 0) && Blank(gap) && s == TreeText(t) + gap && TreeNodes(t) <= MAX_NODES
  }

  /** A text is accepted exactly when it is a text of the grammar: one value between blanks,
      nested at most 24 deep, with at most 40000 values, no repeated key, and numbers of 64
      bits; and its size and encoding are right. */
  lemma AcceptsExactly(s: string)
    ensures Parse(s).Good? <==> s != "" && |s| <= MAX_BYTES && Valid(s) && exists t, gap :: IsTextOf(t, gap, s)
  {
    hide Value;
    if Parse(s).Good? {
      var t := ValueSound(s, 0, 0);
      var rest := Value(s, 0, 0).rest;
      SpaceSplits(rest);
      assert rest == LeadOf(rest);
      assert IsTextOf(t, rest, s);
    }
    if s != "" && |s| <= MAX_BYTES && Valid(s) && exists t, gap :: IsTextOf(t, gap, s) {
      var t, gap :| IsTextOf(t, gap, s);
      ValueIs(t, gap, s);
    }
  }

  /** The value is the one of the syntax tree, whichever tree the text has. */
  lemma ValueIs(t: Tree, gap: string, s: string)
    requires IsTextOf(t, gap, s) && s != "" && |s| <= MAX_BYTES && Valid(s)
    ensures Parse(s) == Good(TreeValue(t, 0), "")
  {
    hide Value;
    ValueComplete(t, 0, 0, gap);
    assert gap + "" == gap;
    SpaceSkips(gap, "");
  }
}
