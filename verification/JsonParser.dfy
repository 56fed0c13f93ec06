/** The parser as one object that advances through a text. A `false` result stands for the
    exception that ends the parse. */
module JsonParser {
  import opened Utf8
  import opened Json
  import opened JsonReader

  lemma {:induction false} SpaceTwice(s: string)
    ensures Space(Space(s)) == Space(s)
    ensures forall c :: Sees(Space(s), c) == Sees(s, c) && Take(Space(s), c) == Take(s, c)
  {
    if s != "" && IsSpace(s[0]) { SpaceTwice(s[1..]); }
  }

  /** Blanks before a value or a member do not matter. */
  lemma BlanksBefore(s: string, depth: nat, nodes: nat)
    ensures Value(Space(s), depth, nodes) == Value(s, depth, nodes) && String(Space(s)) == String(s)
  {
    SpaceTwice(s);
  }

  lemma BlanksBeforeAll(s: string, depth: nat, nodes: nat)
    ensures Elements(Space(s), depth, nodes, []) == Elements(s, depth, nodes, [])
    ensures Members(Space(s), depth, nodes, []) == Members(s, depth, nodes, [])
  {
    hide Value, String;
    BlanksBefore(s, depth + 1, nodes);
  }

  /** A value that is a word or a number. */
  function Leaf(t: string, n: nat): Read<(Json, nat)>
    requires t != ""
  {
    if Starts(t, "true") then Good((Boolean(true), n), t[4..])
    else if Starts(t, "false") then Good((Boolean(false), n), t[5..])
    else if Starts(t, "null") then Good((Null, n), t[4..])
    else if !IsDigit(t[0]) then Bad
    else
      var (number, rest) :- Digits(t, 0);
      Good((Number(number), n), rest)
  }

  /** A value, by its first character. */
  function Token(t: string, depth: nat, n: nat): Read<(Json, nat)>
    requires t != ""
  {
    if t[0] == '{' then if Sees(t[1..], '}') then Good((Object([]), n), Space(t[1..])[1..]) else Members(t[1..], depth, n, [])
    else if t[0] == '[' then if Sees(t[1..], ']') then Good((Array([]), n), Space(t[1..])[1..]) else Elements(t[1..], depth, n, [])
    else if t[0] == '"' then
      var (text, rest) :- String(t);
      Good((Text(text), n), rest)
    else Leaf(t, n)
  }

  lemma ValueBegins(s: string, depth: nat, nodes: nat)
    ensures Value(s, depth, nodes) ==
      if depth > MAX_DEPTH || Space(s) == "" || nodes + 1 > MAX_NODES then Bad else Token(Space(s), depth, nodes + 1)
  {
    hide Elements, Members, String, Digits;
  }

  lemma ElementNext(s: string, depth: nat, nodes: nat, items: seq<Json>)
    ensures var v := Value(s, depth + 1, nodes);
      Elements(s, depth, nodes, items) ==
        if v.Bad? then Bad
        else if Sees(v.rest, ',') then Elements(Space(v.rest)[1..], depth, v.value.1, items + [v.value.0])
        else
          var close := Take(v.rest, ']');
          if close.Bad? then Bad else Good((Array(items + [v.value.0]), v.value.1), close.rest)
  {
    hide Value;
  }

  lemma MemberNext(s: string, depth: nat, nodes: nat, members: seq<Member>)
    ensures var k := String(s);
      Members(s, depth, nodes, members) ==
        if k.Bad? || !Sees(k.rest, ':') then Bad
        else
          var v := Value(Space(k.rest)[1..], depth + 1, nodes);
          if v.Bad? || HasKey(members, k.value) then Bad
          else
            var members' := members + [Member(k.value, v.value.0)];
            if Sees(v.rest, ',') then Members(Space(v.rest)[1..], depth, v.value.1, members')
            else
              var close := Take(v.rest, '}');
              if close.Bad? then Bad else Good((Object(members'), v.value.1), close.rest)
  {
    hide Value, String;
  }

  class Parser {
    const bytes: string
    var position: nat
    var nodes: nat

    constructor (bytes: string)
      ensures this.bytes == bytes && Valid() && Rest() == bytes && nodes == 0
    {
      this.bytes, position, nodes := bytes, 0, 0;
    }

    predicate Valid()
      reads this
    {
      position <= |bytes|
    }

    function Rest(): string
      requires Valid()
      reads this
    {
      bytes[position..]
    }

    method SkipSpace()
      requires Valid()
      modifies this`position
      ensures Valid() && Rest() == Space(old(Rest())) && position >= old(position)
    {
      while position < |bytes| && IsSpace(bytes[position])
        invariant Valid() && position >= old(position) && Space(Rest()) == Space(old(Rest()))
      {
        assert Rest()[1..] == bytes[position + 1..];
        position := position + 1;
      }
    }

    method Take(c: char) returns (taken: bool)
      requires Valid()
      modifies this`position
      ensures Valid() && position >= old(position) && (taken ==> position > old(position))
      ensures taken == Sees(old(Rest()), c)
      ensures Rest() == if taken then Space(old(Rest()))[1..] else Space(old(Rest()))
    {
      SkipSpace();
      taken := position < |bytes| && bytes[position] == c;
      if taken {
        assert Rest()[1..] == bytes[position + 1..];
        position := position + 1;
      }
    }

    method TakeHex() returns (ok: bool, value: nat)
      requires Valid()
      modifies this`position
      ensures Valid() && position >= old(position)
      ensures ok == Hex(old(Rest())).Good?
      ensures ok ==> Hex(old(Rest())) == Good(value, Rest())
    {
      ok, value := false, 0;
      if position + 4 > |bytes| { return; }
      ghost var hex := Rest()[..4];
      for index := 0 to 4
        invariant Valid() && position == old(position) + index && position + 4 - index <= |bytes|
        invariant hex == old(Rest())[..4]
        invariant forall k :: 0 <= k < index ==> IsHex(hex[k])
        invariant index == 1 ==> value == HexDigit(hex[0])
        invariant index == 2 ==> value == HexDigit(hex[0]) * 16 + HexDigit(hex[1])
        invariant index == 3 ==> value == (HexDigit(hex[0]) * 16 + HexDigit(hex[1])) * 16 + HexDigit(hex[2])
        invariant index == 4 ==> value == Hex4(hex)
        invariant index == 0 ==> value == 0
      {
        var c := bytes[position];
        assert c == hex[index];
        position := position + 1;
        if !IsHex(c) { return; }
        value := value * 16 + HexDigit(c);
      }
      ok := true;
      assert Rest() == old(Rest())[4..];
    }

    method TakeEscape() returns (ok: bool, text: string)
      requires Valid()
      modifies this`position
      ensures Valid() && position >= old(position)
      ensures ok == Escape(old(Rest())).Good?
      ensures ok ==> Escape(old(Rest())) == Good(text, Rest())
    {
      text := "";
      var code, low;
      ok, code := TakeHex();
      if !ok { return; }
      if IsHigh(code) {
        if position + 2 > |bytes| || bytes[position..position + 2] != "\\u" { return false, text; }
        assert Rest()[..2] == bytes[position..position + 2] && Rest()[2..] == bytes[position + 2..];
        position := position + 2;
        ok, low := TakeHex();
        if !ok { return; }
        if !IsLow(low) { return false, text; }
        code := Joined(code, low);
      } else if IsLow(code) {
        return false, text;
      }
      text := Encoded(code);
    }

    /** One character of a string. */
    method TakeCharacter() returns (ok: bool, text: string)
      requires Valid() && position < |bytes| && bytes[position] != '"'
      modifies this`position
      ensures Valid() && position > old(position)
      ensures ok == Character(old(Rest())).Good?
      ensures ok ==> Character(old(Rest())) == Good(text, Rest())
    {
      ok, text := false, "";
      var c := bytes[position];
      assert Rest()[1..] == bytes[position + 1..];
      position := position + 1;
      if c as int < 32 { return; }
      if c != '\\' { return true, [c]; }
      if position == |bytes| { return; }
      c := bytes[position];
      assert old(Rest())[2..] == bytes[position + 1..] && old(Rest())[1] == c;
      position := position + 1;
      if c == 'u' {
        ok, text := TakeEscape();
      } else if c in LETTERS {
        ok, text := true, [Unescaped(c)];
      }
    }

    method TakeString() returns (ok: bool, text: string)
      requires Valid()
      modifies this`position
      ensures Valid() && position >= old(position)
      ensures ok == String(old(Rest())).Good?
      ensures ok ==> String(old(Rest())) == Good(text, Rest())
    {
      text := "";
      ok := Take('"');
      if !ok { return; }
      while position < |bytes|
        invariant Valid() && position > old(position) && Characters(Rest(), text) == String(old(Rest()))
      {
        assert Rest()[0] == bytes[position] && Rest()[1..] == bytes[position + 1..];
        if bytes[position] == '"' {
          position := position + 1;
          return true, text;
        }
        var part;
        ok, part := TakeCharacter();
        if !ok { return; }
        text := text + part;
      }
      ok := false;
    }

    method TakeNumber() returns (ok: bool, number: nat)
      requires Valid() && position < |bytes| && IsDigit(bytes[position])
      modifies this`position
      ensures Valid() && position > old(position)
      ensures ok == Digits(old(Rest()), 0).Good?
      ensures ok ==> Digits(old(Rest()), 0) == Good(number, Rest())
    {
      ok, number := false, 0;
      var first := bytes[position];
      var more := true;
      while more
        invariant Valid() && position >= old(position) && (position == old(position) ==> more)
        invariant more ==> position < |bytes| && IsDigit(bytes[position]) && Digits(Rest(), number) == Digits(old(Rest()), 0)
        invariant if position == old(position) then number == 0 && bytes[position] == first else more ==> first != '0' && number > 0
        invariant !more ==> Digits(old(Rest()), 0) == Good(number, Rest())
        decreases |bytes| - position, more
      {
        var digit := Digit(bytes[position]);
        assert Rest()[0] == bytes[position] && Rest()[1..] == bytes[position + 1..];
        if number > (MAX_NUMBER - digit) / 10 { position := position + 1; return; }
        number := number * 10 + digit;
        position := position + 1;
        more := position < |bytes| && IsDigit(bytes[position]);
        if first == '0' && more { return; }
      }
      ok := true;
    }

    method TakeWord(word: string) returns (taken: bool)
      requires Valid()
      modifies this`position
      ensures Valid() && position >= old(position) && taken == Starts(old(Rest()), word)
      ensures Rest() == if taken then old(Rest())[|word|..] else old(Rest())
    {
      taken := position + |word| <= |bytes| && bytes[position..position + |word|] == word;
      assert taken <==> Starts(Rest(), word) by {
        if position + |word| <= |bytes| { assert Rest()[..|word|] == bytes[position..position + |word|]; }
      }
      if taken {
        assert Rest()[|word|..] == bytes[position + |word|..];
        position := position + |word|;
      }
    }

    method ReadLeaf() returns (ok: bool, value: Json)
      requires Valid() && position < |bytes|
      modifies this`position
      ensures Valid() && position >= old(position)
      ensures var r := Leaf(old(Rest()), nodes); ok == r.Good? && (ok ==> r == Good((value, nodes), Rest()))
    {
      hide Digits;
      value := Null;
      ok := TakeWord("true");
      if ok { return true, Boolean(true); }
      ok := TakeWord("false");
      if ok { return true, Boolean(false); }
      ok := TakeWord("null");
      if ok { return true, Null; }
      if !IsDigit(bytes[position]) { return; }
      var number;
      ok, number := TakeNumber();
      value := Number(number);
    }

    method ReadElements(depth: nat) returns (ok: bool, value: Json)
      requires Valid() && depth <= MAX_DEPTH
      modifies this
      ensures Valid() && position >= old(position)
      ensures var r := Elements(old(Rest()), depth, old(nodes), []); ok == r.Good? && (ok ==> r == Good((value, nodes), Rest()))
      decreases MAX_DEPTH + 1 - depth, 0
    {
      hide Value, Elements, Members, Sees, Space;
      var items, more := [], true;
      value := Null;
      while more
        invariant Valid() && position >= old(position)
        invariant Elements(old(Rest()), depth, old(nodes), []) ==
          if more then Elements(Rest(), depth, nodes, items)
          else
            var close := JsonReader.Take(Rest(), ']');
            if close.Bad? then Bad else Good((Array(items), nodes), close.rest)
        decreases |bytes| - position, more
      {
        ElementNext(Rest(), depth, nodes, items);
        ghost var rest := Value(Rest(), depth + 1, nodes);
        var item;
        ok, item := Read(depth + 1);
        if !ok { return; }
        items := items + [item];
        SpaceTwice(Rest());
        more := Take(',');
      }
      ok := Take(']');
      value := Array(items);
    }

    method ReadMembers(depth: nat) returns (ok: bool, value: Json)
      requires Valid() && depth <= MAX_DEPTH
      modifies this
      ensures Valid() && position >= old(position)
      ensures var r := Members(old(Rest()), depth, old(nodes), []); ok == r.Good? && (ok ==> r == Good((value, nodes), Rest()))
      decreases MAX_DEPTH + 1 - depth, 0
    {
      hide Value, Elements, Members, String, Sees, Space, HasKey;
      var members, more := [], true;
      value := Null;
      while more
        invariant Valid() && position >= old(position)
        invariant Members(old(Rest()), depth, old(nodes), []) ==
          if more then Members(Rest(), depth, nodes, members)
          else
            var close := JsonReader.Take(Rest(), '}');
            if close.Bad? then Bad else Good((Object(members), nodes), close.rest)
        decreases |bytes| - position, more
      {
        MemberNext(Rest(), depth, nodes, members);
        var key, item;
        ok, key := TakeString();
        if !ok { return; }
        ok := Take(':');
        if !ok { return; }
        ok, item := Read(depth + 1);
        if !ok { return; }
        if HasKey(members, key) { return false, Null; }
        members := members + [Member(key, item)];
        SpaceTwice(Rest());
        more := Take(',');
      }
      ok := Take('}');
      value := Object(members);
    }

    method ReadToken(depth: nat) returns (ok: bool, value: Json)
      requires Valid() && depth <= MAX_DEPTH && position < |bytes|
      modifies this
      ensures Valid() && position >= old(position)
      ensures var r := Token(old(Rest()), depth, old(nodes)); ok == r.Good? && (ok ==> r == Good((value, nodes), Rest()))
      decreases MAX_DEPTH + 1 - depth, 1
    {
      hide Elements, Members, String, Leaf;
      var c := bytes[position];
      assert Rest()[0] == c && Rest()[1..] == bytes[position + 1..];
      if c == '{' {
        position := position + 1;
        BlanksBeforeAll(Rest(), depth, nodes);
        var empty := Take('}');
        if empty { return true, Object([]); }
        ok, value := ReadMembers(depth);
      } else if c == '[' {
        position := position + 1;
        BlanksBeforeAll(Rest(), depth, nodes);
        var empty := Take(']');
        if empty { return true, Array([]); }
        ok, value := ReadElements(depth);
      } else if c == '"' {
        var text;
        ok, text := TakeString();
        value := Text(text);
      } else {
        ok, value := ReadLeaf();
      }
    }

    method Read(depth: nat) returns (ok: bool, value: Json)
      requires Valid() && depth <= MAX_DEPTH + 1
      modifies this
      ensures Valid() && position >= old(position)
      ensures var r := Value(old(Rest()), depth, old(nodes)); ok == r.Good? && (ok ==> r == Good((value, nodes), Rest()))
      decreases MAX_DEPTH + 1 - depth, 2
    {
      hide Value, Token;
      ValueBegins(Rest(), depth, nodes);
      SkipSpace();
      ok, value := false, Null;
      if depth > MAX_DEPTH || position == |bytes| { return; }
      nodes := nodes + 1;
      if nodes > MAX_NODES { return; }
      ok, value := ReadToken(depth);
    }

    method Parse() returns (ok: bool, value: Json)
      requires position == 0 && nodes == 0
      modifies this
      ensures ok == JsonReader.Parse(bytes).Good?
      ensures ok ==> JsonReader.Parse(bytes).value == value
    {
      hide Value;
      ok, value := false, Null;
      assert Rest() == bytes;
      if bytes == "" || |bytes| > MAX_BYTES || !Utf8.Valid(bytes) { return; }
      ok, value := Read(0);
      if !ok { return; }
      SkipSpace();
      ok := position == |bytes|;
    }
  }
}
