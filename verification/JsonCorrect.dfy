/** The reader accepts exactly the texts of the grammar, with exactly their values. */
module JsonCorrect {
  import opened Utf8
  import opened Json
  import opened JsonReader

  // ------------------------------------------------------------------ blanks

  function LeadOf(s: string): string {
    s[..|s| - |Space(s)|]
  }

  lemma {:induction false} SpaceSplits(s: string)
    ensures Blank(LeadOf(s)) && s == LeadOf(s) + Space(s) && (Space(s) != "" ==> !IsSpace(Space(s)[0]))
  {
    if s != "" && IsSpace(s[0]) {
      SpaceSplits(s[1..]);
      assert LeadOf(s) == [s[0]] + LeadOf(s[1..]);
    }
  }

  lemma {:induction false} SpaceSkips(lead: string, s: string)
    requires Blank(lead) && (s != "" ==> !IsSpace(s[0]))
    ensures Space(lead + s) == s
  {
    if lead != "" {
      assert (lead + s)[1..] == lead[1..] + s;
      SpaceSkips(lead[1..], s);
    } else {
      assert lead + s == s;
    }
  }

  /** A passed token is one with blanks before it. */
  lemma TakeSplits(s: string, c: char)
    requires Sees(s, c)
    ensures Blank(LeadOf(s)) && s == LeadOf(s) + ([c] + Space(s)[1..])
  {
    SpaceSplits(s);
  }

  lemma TakeSkips(lead: string, c: char, rest: string)
    requires Blank(lead) && !IsSpace(c)
    ensures Sees(lead + ([c] + rest), c) && Space(lead + ([c] + rest))[1..] == rest
    ensures forall d :: d != c ==> !Sees(lead + ([c] + rest), d)
  {
    SpaceSkips(lead, [c] + rest);
  }

  // ----------------------------------------------------------------- strings

  lemma PiecesCons(p: Piece, ps: seq<Piece>)
    ensures PiecesText([p] + ps) == PieceText(p) + PiecesText(ps)
    ensures GoodPiece(p) && GoodPieces(ps) ==> GoodPieces([p] + ps) && PiecesValue([p] + ps) == PieceValue(p) + PiecesValue(ps)
  {
    assert ([p] + ps)[1..] == ps;
  }

  /** The escape that was read after `\u`. */
  lemma EscapeSound(s: string) returns (p: Piece)
    requires Escape(s).Good?
    ensures GoodPiece(p) && PieceText(p) + Escape(s).rest == "\\u" + s && PieceValue(p) == Escape(s).value
  {
    var h := s[..4];
    if IsHigh(Hex4(h)) {
      var after := s[4..];
      p := Pair(h, after[2..][..4]);
      assert after == "\\u" + (after[2..][..4] + Escape(s).rest);
    } else {
      p := Unit(h);
    }
  }

  lemma CharacterSound(s: string) returns (p: Piece)
    requires s != "" && s[0] != '"' && Character(s).Good?
    ensures GoodPiece(p) && s == PieceText(p) + Character(s).rest && Character(s).value == PieceValue(p)
  {
    if s[0] != '\\' {
      p := Plain(s[0]);
    } else if s[1] == 'u' {
      p := EscapeSound(s[2..]);
    } else {
      p := Short(s[1]);
    }
  }

  lemma Regroup(a: string, b: string, c: string)
    ensures a + (b + c) == (a + b) + c
  {
  }

  lemma CharactersStep(s: string, acc: string)
    requires s != "" && s[0] != '"' && Character(s).Good?
    ensures Characters(s, acc) == Characters(Character(s).rest, acc + Character(s).value)
  {
  }

  /** A string with one more character at its start. */
  lemma CharactersExtend(s: string, acc: string, p: Piece, ps: seq<Piece>) returns (qs: seq<Piece>)
    requires s != "" && s[0] != '"' && Character(s).Good? && Characters(s, acc).Good?
    requires GoodPiece(p) && s == PieceText(p) + Character(s).rest && Character(s).value == PieceValue(p)
    requires GoodPieces(ps) && Character(s).rest == PiecesText(ps) + ("\"" + Characters(s, acc).rest)
    requires Characters(s, acc).value == acc + PieceValue(p) + PiecesValue(ps)
    ensures GoodPieces(qs) && s == PiecesText(qs) + ("\"" + Characters(s, acc).rest)
    ensures Characters(s, acc).value == acc + PiecesValue(qs)
  {
    qs := [p] + ps;
    PiecesCons(p, ps);
    Regroup(PieceText(p), PiecesText(ps), "\"" + Characters(s, acc).rest);
    Regroup(acc, PieceValue(p), PiecesValue(ps));
  }

  lemma {:induction false} CharactersSound(s: string, acc: string) returns (ps: seq<Piece>)
    requires Characters(s, acc).Good?
    ensures GoodPieces(ps) && s == PiecesText(ps) + ("\"" + Characters(s, acc).rest)
    ensures Characters(s, acc).value == acc + PiecesValue(ps)
    decreases |s|
  {
    if s[0] == '"' {
      ps := [];
      assert s == PiecesText(ps) + ("\"" + s[1..]) && acc == acc + PiecesValue(ps);
    } else {
      var p := CharacterSound(s);
      CharactersStep(s, acc);
      var qs := CharactersSound(Character(s).rest, acc + Character(s).value);
      ps := CharactersExtend(s, acc, p, qs);
    }
  }

  lemma EscapeComplete(p: Piece, rest: string)
    requires GoodPiece(p) && (p.Unit? || p.Pair?)
    ensures Escape(PieceText(p)[2..] + rest) == Good(PieceValue(p), rest)
  {
    var s := PieceText(p)[2..] + rest;
    if p.Unit? {
      assert s[..4] == p.hex && s[4..] == rest;
    } else {
      assert s[..4] == p.high && s[4..] == "\\u" + p.low + rest;
      assert s[4..][2..] == p.low + rest && s[4..][..2] == "\\u";
      assert (p.low + rest)[..4] == p.low && (p.low + rest)[4..] == rest;
    }
  }

  lemma CharacterComplete(p: Piece, rest: string)
    requires GoodPiece(p)
    ensures PieceText(p)[0] != '"' && Character(PieceText(p) + rest) == Good(PieceValue(p), rest)
  {
    hide Escape;
    var s := PieceText(p) + rest;
    if p.Plain? {
      assert s[1..] == rest;
    } else if p.Short? {
      assert s[2..] == rest;
    } else {
      assert s[2..] == PieceText(p)[2..] + rest;
      EscapeComplete(p, rest);
    }
  }

  lemma {:induction false} CharactersComplete(ps: seq<Piece>, rest: string, acc: string)
    requires GoodPieces(ps)
    ensures Characters(PiecesText(ps) + ("\"" + rest), acc) == Good(acc + PiecesValue(ps), rest)
  {
    if ps == [] {
      assert PiecesText(ps) + ("\"" + rest) == "\"" + rest && acc + PiecesValue(ps) == acc;
    } else {
      var more := PiecesText(ps[1..]) + ("\"" + rest);
      CharacterComplete(ps[0], more);
      Regroup(PieceText(ps[0]), PiecesText(ps[1..]), "\"" + rest);
      Regroup(acc, PieceValue(ps[0]), PiecesValue(ps[1..]));
      CharactersStep(PieceText(ps[0]) + more, acc);
      CharactersComplete(ps[1..], rest, acc + PieceValue(ps[0]));
    }
  }

  lemma StringCases(s: string)
    requires String(s).Good?
    ensures Sees(s, '"') && String(s) == Characters(Space(s)[1..], "")
  {
    hide Characters;
  }

  lemma StringSound(s: string) returns (lead: string, ps: seq<Piece>)
    requires String(s).Good?
    ensures Blank(lead) && lead == LeadOf(s) && GoodPieces(ps) && s == lead + (Quoted(ps) + String(s).rest) && String(s).value == PiecesValue(ps)
  {
    hide Characters, String;
    StringCases(s);
    TakeSplits(s, '"');
    lead := LeadOf(s);
    ps := CharactersSound(Space(s)[1..], "");
    assert Quoted(ps) + String(s).rest == ['"'] + (PiecesText(ps) + ("\"" + String(s).rest));
  }

  lemma StringComplete(lead: string, ps: seq<Piece>, rest: string)
    requires Blank(lead) && GoodPieces(ps)
    ensures String(lead + (Quoted(ps) + rest)) == Good(PiecesValue(ps), rest)
  {
    var inner := PiecesText(ps) + ("\"" + rest);
    assert Quoted(ps) + rest == ['"'] + inner;
    TakeSkips(lead, '"', inner);
    CharactersComplete(ps, rest, "");
    assert "" + PiecesValue(ps) == PiecesValue(ps);
  }

  // ----------------------------------------------------------------- numbers

  predicate AllDigits(s: string) {
    forall i :: 0 <= i < |s| ==> IsDigit(s[i])
  }

  predicate NoDigit(s: string) {
    s == "" || !IsDigit(s[0])
  }

  lemma {:induction false} DecimalGrows(p: string, d: string)
    requires AllDigits(p) && AllDigits(d)
    ensures Decimal(p) <= Decimal(p + d)
  {
    if d == "" {
      assert p + d == p;
    } else {
      assert (p + d)[..|p + d| - 1] == p + d[..|d| - 1];
      DecimalGrows(p, d[..|d| - 1]);
    }
  }

  lemma DecimalNext(p: string, c: char)
    requires AllDigits(p) && IsDigit(c)
    ensures Decimal(p + [c]) == Decimal(p) * 10 + Digit(c)
  {
    assert (p + [c])[..|p|] == p;
  }

  lemma {:induction false} DecimalPositive(p: string)
    requires AllDigits(p) && p != "" && p[0] != '0'
    ensures Decimal(p) > 0
  {
    if |p| > 1 { DecimalPositive(p[..|p| - 1]); }
  }

  /** Reading digits after the digits `p` have been read. */
  lemma {:induction false} DigitsSound(p: string, s: string) returns (digits: string)
    requires s != "" && IsDigit(s[0]) && AllDigits(p) && (p != "" ==> p[0] != '0')
    requires Digits(s, Decimal(p)).Good?
    ensures var r := Digits(s, Decimal(p));
      && p + s == digits + r.rest && GoodDigits(digits) && Decimal(digits) == r.value && |digits| > |p| && NoDigit(r.rest)
    decreases |s|
  {
    var p' := p + [s[0]];
    DecimalNext(p, s[0]);
    assert p + s == p' + s[1..];
    if |s| > 1 && IsDigit(s[1]) {
      if p != "" { DecimalPositive(p); }
      digits := DigitsSound(p', s[1..]);
    } else {
      digits := p';
    }
  }

  lemma {:induction false} DigitsComplete(p: string, d: string, rest: string)
    requires GoodDigits(p + d) && AllDigits(p) && d != "" && NoDigit(rest)
    ensures IsDigit(d[0]) && Digits(d + rest, Decimal(p)) == Good(Decimal(p + d), rest)
    decreases |d|
  {
    hide Decimal;
    assert d[0] == (p + d)[|p|];
    var p', d' := p + [d[0]], d[1..];
    assert p' + d' == p + d && (d + rest)[1..] == d' + rest;
    DecimalNext(p, d[0]);
    assert AllDigits(d') by { assert forall i :: 0 <= i < |d'| ==> d'[i] == (p + d)[|p| + 1 + i]; }
    DecimalGrows(p', d');
    if d' == "" {
      assert d' + rest == rest && p' == p + d;
    } else {
      if p != "" { assert p[0] == (p + d)[0]; DecimalPositive(p); }
      DigitsComplete(p', d', rest);
    }
  }
}
