/** Printing strings, and reading them back. */
module JsonQuote {
  import opened Utf8
  import opened Json
  import opened JsonReader
  import opened JsonCorrect
  import opened JsonComplete
  import opened JsonSound

  const HEX := "0123456789abcdef"

  function QuoteChar(c: char): string {
    if c == '"' || c == '\\' then ['\\', c]
    else if c as int < 32 then "\\u00" + [HEX[c as int / 16], HEX[c as int % 16]]
    else [c]
  }

  function QuoteChars(text: string): string {
    if text == "" then "" else QuoteChar(text[0]) + QuoteChars(text[1..])
  }

  function Quote(text: string): string {
    "\"" + QuoteChars(text) + "\""
  }

  /** Appends character by character. */
  method QuoteJson(text: string) returns (quoted: string)
    ensures quoted == Quote(text)
  {
    quoted := "\"";
    for i := 0 to |text|
      invariant quoted + QuoteChars(text[i..]) == "\"" + QuoteChars(text)
    {
      var c := text[i];
      assert text[i..][1..] == text[i + 1..];
      Regroup(quoted, QuoteChar(c), QuoteChars(text[i + 1..]));
      if c == '"' || c == '\\' {
        quoted := quoted + ['\\', c];
      } else if c as int < 32 {
        quoted := quoted + ("\\u00" + [HEX[c as int / 16], HEX[c as int % 16]]);
      } else {
        quoted := quoted + [c];
      }
    }
    quoted := quoted + "\"";
  }

  function QuotePiece(c: char): Piece {
    if c == '"' || c == '\\' then Short(c)
    else if c as int < 32 then Unit("00" + [HEX[c as int / 16], HEX[c as int % 16]])
    else Plain(c)
  }

  function QuotePieces(text: string): (ps: seq<Piece>)
    ensures |ps| == |text|
  {
    seq(|text|, i requires 0 <= i < |text| => QuotePiece(text[i]))
  }

  lemma HexRoundTrip(n: nat)
    requires n < 32
    ensures var hex := "00" + [HEX[n / 16], HEX[n % 16]];
      IsHex4(hex) && Hex4(hex) == n
  {
    var hex := "00" + [HEX[n / 16], HEX[n % 16]];
    assert hex[0] == '0' && hex[1] == '0' && hex[2] == HEX[n / 16] && hex[3] == HEX[n % 16];
    assert HexDigit(HEX[n / 16]) == n / 16;
    assert n % 16 < 10 ==> HEX[n % 16] as int == '0' as int + n % 16;
    assert n % 16 >= 10 ==> HEX[n % 16] as int == 'a' as int + n % 16 - 10;
  }

  lemma QuotePieceIs(c: char)
    ensures PieceText(QuotePiece(c)) == QuoteChar(c) && GoodPiece(QuotePiece(c)) && PieceValue(QuotePiece(c)) == [c]
  {
    if c == '"' || c == '\\' {
      assert c in LETTERS by { assert LETTERS[0] == '"' && LETTERS[1] == '\\'; }
    } else if c as int < 32 {
      HexRoundTrip(c as int);
    }
  }

  /** What is printed is a string of the grammar, and it means the text. */
  lemma {:induction false} QuotePiecesAre(text: string)
    ensures GoodPieces(QuotePieces(text)) && PiecesText(QuotePieces(text)) == QuoteChars(text) && PiecesValue(QuotePieces(text)) == text
  {
    if text != "" {
      QuotePiecesAre(text[1..]);
      QuotePieceIs(text[0]);
      PiecesCons(QuotePiece(text[0]), QuotePieces(text[1..]));
      assert QuotePieces(text) == [QuotePiece(text[0])] + QuotePieces(text[1..]);
    }
  }

  lemma QuoteFirst(text: string)
    requires text != ""
    ensures QuoteChars(text) == QuoteChar(text[0]) + QuoteChars(text[1..])
  {
  }

  lemma {:induction false} HighKept(text: string, n: nat)
    requires n <= |text| && forall i :: 0 <= i < n ==> text[i] as int >= 0x80
    ensures QuoteChars(text) == text[..n] + QuoteChars(text[n..])
  {
    if n > 0 {
      hide QuoteChars;
      HighKept(text[1..], n - 1);
      assert text[1..][n - 1..] == text[n..];
      assert text[..n] == [text[0]] + text[1..][..n - 1];
      Regroup([text[0]], text[1..][..n - 1], QuoteChars(text[n..]));
      QuoteFirst(text);
    } else {
      assert text[n..] == text;
    }
  }

  lemma LeadAlone(s: string)
    requires Lead(s) > 0
    ensures Valid(s[..Lead(s)])
  {
    var c := s[..Lead(s)];
    assert Lead(c) == |c| && c[|c|..] == "";
  }

  lemma QuoteCharAscii(c: char)
    requires c as int < 0x80
    ensures Valid(QuoteChar(c))
  {
    AsciiValid(QuoteChar(c));
  }

  /** Escaping keeps the encoding well formed. */
  lemma {:induction false} QuoteCharsValid(text: string)
    requires Valid(text)
    ensures Valid(QuoteChars(text))
    decreases |text|
  {
    if text != "" {
      hide QuoteChars, QuoteChar;
      var n := Lead(text);
      QuoteCharsValid(text[n..]);
      if text[0] as int >= 0x80 {
        HighKept(text, n);
        LeadAlone(text);
        ValidConcat(text[..n], QuoteChars(text[n..]));
      } else {
        QuoteFirst(text);
        QuoteCharAscii(text[0]);
        ValidConcat(QuoteChar(text[0]), QuoteChars(text[1..]));
      }
    }
  }

  lemma QuoteValid(text: string)
    requires Valid(text)
    ensures Valid(Quote(text))
  {
    QuoteCharsValid(text);
    AsciiValid("\"");
    ValidConcat(QuoteChars(text), "\"");
    ValidConcat("\"", QuoteChars(text) + "\"");
    assert Quote(text) == "\"" + (QuoteChars(text) + "\"");
  }

  /** Printing a text of valid UTF-8 and reading it gives the text. */
  lemma QuoteRoundTrip(text: string)
    requires Valid(text) && |Quote(text)| <= MAX_BYTES
    ensures Parse(Quote(text)) == Good(Text(text), "")
  {
    QuotePiecesAre(text);
    QuoteValid(text);
    var t := StringTree("", QuotePieces(text));
    assert TreeText(t) + "" == Quote(text);
    ValueIs(t, "", Quote(text));
  }

  /** A pair of escapes made by section 2.1 of RFC 2781 is read as the character it stands
      for, whatever code point that is. */
  lemma SurrogatesJoin(code: nat)
    requires 0x10000 <= code < 0x110000
    ensures var high, low := 0xD800 + (code - 0x10000) / 0x400, 0xDC00 + (code - 0x10000) % 0x400;
      IsHigh(high) && IsLow(low) && Joined(high, low) == code
  {
  }

  /** Every escape stands for exactly one character, in valid UTF-8. */
  lemma EscapesDecode(p: Piece, rest: string)
    requires GoodPiece(p) && (p.Unit? || p.Pair?)
    ensures Valid(PieceValue(p))
    ensures Decoded(PieceValue(p) + rest) == if p.Unit? then Hex4(p.hex) else Joined(Hex4(p.high), Hex4(p.low))
  {
    var code := if p.Unit? then Hex4(p.hex) else Joined(Hex4(p.high), Hex4(p.low));
    EncodedDecodes(code, rest);
    EncodedValid(code);
  }
}
