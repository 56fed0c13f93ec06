/** The encoding form of section 3 and the syntax of section 4 of RFC 3629, over byte strings. */
module Utf8 {

  predicate Tail(c: char) {
    0x80 <= c as int <= 0xBF
  }

  /** A scalar value: no surrogate. */
  predicate Scalar(code: nat) {
    code < 0xD800 || 0xE000 <= code < 0x110000
  }

  function Byte(n: nat): char
    requires n < 256
  {
    n as char
  }

  function Encoded(code: nat): string
    requires code < 0x110000
  {
    if code < 0x80 then [Byte(code)]
    else if code < 0x800 then [Byte(0xC0 + code / 0x40), Byte(0x80 + code % 0x40)]
    else if code < 0x10000 then [Byte(0xE0 + code / 0x1000), Byte(0x80 + code / 0x40 % 0x40), Byte(0x80 + code % 0x40)]
    else [Byte(0xF0 + code / 0x40000), Byte(0x80 + code / 0x1000 % 0x40), Byte(0x80 + code / 0x40 % 0x40), Byte(0x80 + code % 0x40)]
  }

  /** How many bytes the character at the start has; 0 when there is none. */
  function Lead(s: string): (n: nat)
    ensures n <= |s|
    ensures forall i :: 0 < i < n ==> s[i] as int >= 0x80
    ensures n > 1 ==> s[0] as int >= 0x80
  {
    if s == "" then 0
    else
      var b := s[0] as int;
      if b < 0x80 then 1
      else if 0xC2 <= b <= 0xDF then if |s| >= 2 && Tail(s[1]) then 2 else 0
      else if 0xE0 <= b <= 0xEF then
        if |s| >= 3 && Tail(s[1]) && Tail(s[2]) && (b == 0xE0 ==> s[1] as int >= 0xA0) && (b == 0xED ==> s[1] as int <= 0x9F) then 3 else 0
      else if 0xF0 <= b <= 0xF4 then
        if |s| >= 4 && Tail(s[1]) && Tail(s[2]) && Tail(s[3]) && (b == 0xF0 ==> s[1] as int >= 0x90) && (b == 0xF4 ==> s[1] as int <= 0x8F) then 4 else 0
      else 0
  }

  predicate Valid(s: string) {
    s == "" || (Lead(s) > 0 && Valid(s[Lead(s)..]))
  }

  /** The code point at the start. */
  function Decoded(s: string): nat
    requires Lead(s) > 0
  {
    var b := s[0] as int;
    match Lead(s)
    case 1 => b
    case 2 => (b - 0xC0) * 0x40 + (s[1] as int - 0x80)
    case 3 => ((b - 0xE0) * 0x40 + (s[1] as int - 0x80)) * 0x40 + (s[2] as int - 0x80)
    case _ => (((b - 0xF0) * 0x40 + (s[1] as int - 0x80)) * 0x40 + (s[2] as int - 0x80)) * 0x40 + (s[3] as int - 0x80)
  }

  lemma SixBits(code: nat)
    ensures code == code / 0x40 * 0x40 + code % 0x40
    ensures code / 0x1000 == code / 0x40 / 0x40
    ensures code / 0x40000 == code / 0x1000 / 0x40
  {
  }

  lemma ThreeDecode(code: nat, rest: string)
    requires Scalar(code) && 0x800 <= code < 0x10000
    ensures Lead(Encoded(code) + rest) == 3 && Decoded(Encoded(code) + rest) == code
  {
    SixBits(code);
    var s := Encoded(code) + rest;
    assert s[0] as int == 0xE0 + code / 0x1000;
    assert s[1] as int == 0x80 + code / 0x40 % 0x40;
    assert s[2] as int == 0x80 + code % 0x40;
  }

  lemma FourDecode(code: nat, rest: string)
    requires 0x10000 <= code < 0x110000
    ensures Lead(Encoded(code) + rest) == 4 && Decoded(Encoded(code) + rest) == code
  {
    SixBits(code);
    var s := Encoded(code) + rest;
    assert s[0] as int == 0xF0 + code / 0x40000;
    assert s[1] as int == 0x80 + code / 0x1000 % 0x40;
    assert s[2] as int == 0x80 + code / 0x40 % 0x40;
    assert s[3] as int == 0x80 + code % 0x40;
  }

  /** Encoding a scalar value gives one character that decodes to it. */
  lemma EncodedDecodes(code: nat, rest: string)
    requires Scalar(code)
    ensures Lead(Encoded(code) + rest) == |Encoded(code)| && Decoded(Encoded(code) + rest) == code
  {
    if code >= 0x10000 {
      FourDecode(code, rest);
    } else if code >= 0x800 {
      ThreeDecode(code, rest);
    }
  }

  /** Characters are recognised whatever follows them. */
  lemma LeadExtends(s: string, rest: string)
    requires Lead(s) > 0
    ensures Lead(s + rest) == Lead(s)
  {
  }

  lemma {:induction false} ValidConcat(a: string, b: string)
    requires Valid(a)
    ensures Valid(a + b) <==> Valid(b)
    decreases |a|
  {
    if a == "" {
      assert a + b == b;
    } else {
      LeadExtends(a, b);
      assert (a + b)[Lead(a)..] == a[Lead(a)..] + b;
      ValidConcat(a[Lead(a)..], b);
    }
  }

  lemma EncodedValid(code: nat)
    requires Scalar(code)
    ensures Valid(Encoded(code))
  {
    EncodedDecodes(code, "");
    assert Encoded(code) + "" == Encoded(code);
    assert Encoded(code)[|Encoded(code)|..] == "";
  }

  /** ASCII bytes are characters of their own. */
  lemma {:induction false} AsciiValid(s: string)
    requires forall i :: 0 <= i < |s| ==> s[i] as int < 0x80
    ensures Valid(s)
    decreases |s|
  {
    if s != "" { AsciiValid(s[1..]); }
  }
}
