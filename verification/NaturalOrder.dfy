/** Comparing names with numbers in them by value. Results are negative, zero or positive. */
module NaturalOrder {

  /** The order of characters: their codes, or those of their case-folded forms. */
  type Fold = char -> int

  predicate IsDigit(c: char) {
    '0' <= c <= '9'
  }

  /** Digits fold to themselves, and nothing else folds to a digit. */
  ghost predicate Sane(fold: Fold) {
    forall c :: if IsDigit(c) then fold(c) == c as int else fold(c) < '0' as int || fold(c) > '9' as int
  }

  function Sign(a: int, b: int): int {
    if a < b then -1 else if a > b then 1 else 0
  }

  /** Character by character; a prefix comes first. */
  function CompareText(fold: Fold, a: string, b: string): int
    decreases |a|
  {
    if a == "" || b == "" then Sign(|a|, |b|)
    else if fold(a[0]) != fold(b[0]) then Sign(fold(a[0]), fold(b[0]))
    else CompareText(fold, a[1..], b[1..])
  }

  // ---------------------------------------------------------------- the meaning

  /** A name as runs of digits, which stand for their values, and runs of other characters,
      which stand for their folded forms. */
  datatype Segment = Number(value: nat) | Text(codes: seq<int>)

  function DigitRun(s: string): (n: nat)
    ensures n <= |s| && forall i :: 0 <= i < n ==> IsDigit(s[i])
    ensures n < |s| ==> !IsDigit(s[n])
  {
    if s != "" && IsDigit(s[0]) then 1 + DigitRun(s[1..]) else 0
  }

  function TextRun(s: string): (n: nat)
    ensures n <= |s| && forall i :: 0 <= i < n ==> !IsDigit(s[i])
    ensures n < |s| ==> IsDigit(s[n])
  {
    if s != "" && !IsDigit(s[0]) then 1 + TextRun(s[1..]) else 0
  }

  function Digit(c: char): (d: nat)
    requires IsDigit(c)
    ensures d < 10
  {
    c as int - '0' as int
  }

  function Value(digits: string): nat
    requires forall i :: 0 <= i < |digits| ==> IsDigit(digits[i])
  {
    if digits == "" then 0 else Value(digits[..|digits| - 1]) * 10 + Digit(digits[|digits| - 1])
  }

  function Codes(fold: Fold, s: string): (r: seq<int>)
    ensures |r| == |s|
  {
    seq(|s|, i requires 0 <= i < |s| => fold(s[i]))
  }

  function Segments(fold: Fold, s: string): seq<Segment>
    decreases |s|
  {
    if s == "" then []
    else if IsDigit(s[0]) then
      var n := DigitRun(s);
      [Number(Value(s[..n]))] + Segments(fold, s[n..])
    else
      var n := TextRun(s);
      [Text(Codes(fold, s[..n]))] + Segments(fold, s[n..])
  }

  function CompareCodes(a: seq<int>, b: seq<int>): int
    decreases |a|
  {
    if a == [] || b == [] then Sign(|a|, |b|)
    else if a[0] != b[0] then Sign(a[0], b[0])
    else CompareCodes(a[1..], b[1..])
  }

  /** Text before the digits or after them, by its first character. */
  function Side(t: seq<int>): int {
    if t == [] || t[0] < '0' as int then -1 else 1
  }

  function CompareSegments(a: Segment, b: Segment): int {
    match (a, b)
    case (Number(x), Number(y)) => Sign(x, y)
    case (Text(x), Text(y)) => CompareCodes(x, y)
    case (Text(x), Number(_)) => Side(x)
    case (Number(_), Text(y)) => -Side(y)
  }

  function CompareAll(a: seq<Segment>, b: seq<Segment>): int
    decreases |a|
  {
    if a == [] || b == [] then Sign(|a|, |b|)
    else if CompareSegments(a[0], b[0]) != 0 then CompareSegments(a[0], b[0])
    else CompareAll(a[1..], b[1..])
  }

  /** The order of two names. */
  function Compare(fold: Fold, a: string, b: string): int {
    CompareAll(Segments(fold, a), Segments(fold, b))
  }

  // ------------------------------------------------------------ total preorder

  lemma {:induction false} CodesOrder(a: seq<int>, b: seq<int>, c: seq<int>)
    ensures CompareCodes(b, a) == -CompareCodes(a, b)
    ensures CompareCodes(a, b) == 0 <==> a == b
    ensures CompareCodes(a, b) <= 0 && CompareCodes(b, c) <= 0 ==> CompareCodes(a, c) <= 0
    decreases |a|
  {
    if a != [] && b != [] && a[0] == b[0] {
      assert a == [a[0]] + a[1..] && b == [b[0]] + b[1..];
      CodesOrder(a[1..], b[1..], if c == [] then [] else c[1..]);
    }
  }

  /** Texts below the digits come before texts above them. */
  lemma SidesOrder(a: seq<int>, b: seq<int>)
    requires a != [] && b != [] && Side(a) == -1 && Side(b) == 1
    ensures CompareCodes(a, b) < 0
  {
  }

  predicate Proper(s: Segment) {
    s.Text? ==> s.codes != []
  }

  lemma SegmentsOrder(a: Segment, b: Segment, c: Segment)
    requires Proper(a) && Proper(b) && Proper(c)
    ensures CompareSegments(b, a) == -CompareSegments(a, b)
    ensures CompareSegments(a, b) == 0 <==> a == b
    ensures CompareSegments(a, b) <= 0 && CompareSegments(b, c) <= 0 ==> CompareSegments(a, c) <= 0
  {
    if a.Text? && b.Text? && c.Text? {
      CodesOrder(a.codes, b.codes, c.codes);
    } else {
      if a.Text? && b.Text? {
        CodesOrder(a.codes, b.codes, a.codes);
        if Side(a.codes) == 1 && Side(b.codes) == -1 { SidesOrder(b.codes, a.codes); CodesOrder(b.codes, a.codes, b.codes); }
      }
      if b.Text? && c.Text? {
        if Side(b.codes) == 1 && Side(c.codes) == -1 { SidesOrder(c.codes, b.codes); CodesOrder(c.codes, b.codes, c.codes); }
      }
      if a.Text? && c.Text? {
        if Side(a.codes) == -1 && Side(c.codes) == 1 { SidesOrder(a.codes, c.codes); }
      }
    }
  }

  ghost predicate AllProper(a: seq<Segment>) {
    forall i :: 0 <= i < |a| ==> Proper(a[i])
  }

  lemma {:induction false} ListsOrder(a: seq<Segment>, b: seq<Segment>, c: seq<Segment>)
    requires AllProper(a) && AllProper(b) && AllProper(c)
    ensures CompareAll(b, a) == -CompareAll(a, b)
    ensures CompareAll(a, b) == 0 <==> a == b
    ensures CompareAll(a, b) <= 0 && CompareAll(b, c) <= 0 ==> CompareAll(a, c) <= 0
    decreases |a|
  {
    if a != [] && b != [] {
      SegmentsOrder(a[0], b[0], if c == [] then a[0] else c[0]);
      assert a == [a[0]] + a[1..] && b == [b[0]] + b[1..];
      if a[0] == b[0] { ListsOrder(a[1..], b[1..], if c == [] then [] else c[1..]); }
      if c != [] {
        SegmentsOrder(b[0], c[0], a[0]);
        SegmentsOrder(a[0], c[0], b[0]);
      }
    }
  }

  lemma {:induction false} SegmentsProper(fold: Fold, s: string)
    ensures AllProper(Segments(fold, s))
    decreases |s|
  {
    if s != "" {
      var n := if IsDigit(s[0]) then DigitRun(s) else TextRun(s);
      SegmentsProper(fold, s[n..]);
    }
  }

  /** The comparison of names is a total preorder: it can be turned around, it is transitive,
      and names are equal in it exactly when they have the same numbers and the same folded
      texts. Leading zeros, digit runs of any length and names starting with either kind are
      no exception. */
  lemma NaturalIsPreorder(fold: Fold, a: string, b: string, c: string)
    ensures Compare(fold, b, a) == -Compare(fold, a, b)
    ensures Compare(fold, a, b) == 0 <==> Segments(fold, a) == Segments(fold, b)
    ensures Compare(fold, a, b) <= 0 && Compare(fold, b, c) <= 0 ==> Compare(fold, a, c) <= 0
  {
    SegmentsProper(fold, a);
    SegmentsProper(fold, b);
    SegmentsProper(fold, c);
    ListsOrder(Segments(fold, a), Segments(fold, b), Segments(fold, c));
  }

  // ------------------------------------------------------------ numbered names

  /** A number in figures, without leading zeros. */
  function Figures(n: nat): (s: string)
    ensures s != ""
  {
    (if n < 10 then "" else Figures(n / 10)) + [('0' as int + n % 10) as char]
  }

  function Zeros(k: nat): string {
    if k == 0 then "" else Zeros(k - 1) + "0"
  }

  lemma {:induction false} ZerosAre(k: nat)
    ensures |Zeros(k)| == k && forall i :: 0 <= i < k ==> Zeros(k)[i] == '0' && IsDigit(Zeros(k)[i])
  {
    if k > 0 { ZerosAre(k - 1); }
  }

  lemma {:induction false} FiguresValue(k: nat, n: nat)
    ensures var s := Zeros(k) + Figures(n);
      (forall i :: 0 <= i < |s| ==> IsDigit(s[i])) && Value(s) == n
    decreases n
  {
    ZerosAre(k);
    var s := Zeros(k) + Figures(n);
    if n < 10 {
      assert s[..|s| - 1] == Zeros(k);
      ZerosWorthless(k);
    } else {
      assert s[..|s| - 1] == Zeros(k) + Figures(n / 10);
      FiguresValue(k, n / 10);
    }
  }

  lemma {:induction false} ZerosWorthless(k: nat)
    ensures |Zeros(k)| == k && (forall i :: 0 <= i < k ==> IsDigit(Zeros(k)[i])) && Value(Zeros(k)) == 0
  {
    ZerosAre(k);
    if k > 0 {
      ZerosWorthless(k - 1);
      assert Zeros(k)[..k - 1] == Zeros(k - 1);
    }
  }

  lemma RunsAre(s: string, n: nat)
    requires n <= |s|
    ensures (forall i :: 0 <= i < n ==> IsDigit(s[i])) && (n < |s| ==> !IsDigit(s[n])) ==> DigitRun(s) == n
    ensures (forall i :: 0 <= i < n ==> !IsDigit(s[i])) && (n < |s| ==> IsDigit(s[n])) ==> TextRun(s) == n
  {
  }

  /** The first run of a name, and the rest. */
  function FirstRun(s: string): (n: nat)
    requires s != ""
    ensures 0 < n <= |s|
  {
    if IsDigit(s[0]) then DigitRun(s) else TextRun(s)
  }

  function RunSegment(fold: Fold, s: string): Segment
    requires s != ""
  {
    if IsDigit(s[0]) then Number(Value(s[..DigitRun(s)])) else Text(Codes(fold, s[..TextRun(s)]))
  }

  lemma Unfold(fold: Fold, s: string)
    requires s != ""
    ensures Segments(fold, s) == [RunSegment(fold, s)] + Segments(fold, s[FirstRun(s)..])
  {
  }

  lemma MeetingRun(fold: Fold, stem: string, rest: string)
    requires stem != "" && !IsDigit(stem[|stem| - 1]) && rest != "" && IsDigit(rest[0])
    ensures var all, n := stem + rest, FirstRun(stem);
      FirstRun(all) == n && RunSegment(fold, all) == RunSegment(fold, stem) && all[n..] == stem[n..] + rest
  {
    var all, n := stem + rest, FirstRun(stem);
    RunsAre(all, n);
    assert all[..n] == stem[..n];
  }

  /** Where a text meets a digit, a name comes apart. */
  lemma {:induction false} SegmentsMeet(fold: Fold, stem: string, rest: string)
    requires (stem != "" ==> !IsDigit(stem[|stem| - 1])) && rest != "" && IsDigit(rest[0])
    ensures Segments(fold, stem + rest) == Segments(fold, stem) + Segments(fold, rest)
    decreases |stem|
  {
    hide Segments, RunSegment, FirstRun;
    if stem == "" {
      assert stem + rest == rest && Segments(fold, "") == [] by { NoSegments(fold); }
    } else {
      var n := FirstRun(stem);
      MeetingRun(fold, stem, rest);
      Unfold(fold, stem + rest);
      Unfold(fold, stem);
      SegmentsMeet(fold, stem[n..], rest);
    }
  }

  lemma NoSegments(fold: Fold)
    ensures Segments(fold, "") == []
  {
  }

  lemma {:induction false} SameStart(start: seq<Segment>, a: seq<Segment>, b: seq<Segment>)
    requires AllProper(start)
    ensures CompareAll(start + a, start + b) == CompareAll(a, b)
    decreases |start|
  {
    if start == [] {
      assert start + a == a && start + b == b;
    } else {
      SegmentsOrder(start[0], start[0], start[0]);
      assert (start + a)[1..] == start[1..] + a && (start + b)[1..] == start[1..] + b;
      SameStart(start[1..], a, b);
    }
  }

  /** Figures at the start of a name, and what follows them. */
  lemma FiguresFirst(fold: Fold, k: nat, n: nat, rest: string)
    requires rest != "" ==> !IsDigit(rest[0])
    ensures var s := Zeros(k) + Figures(n) + rest;
      s != "" && IsDigit(s[0]) && Segments(fold, s) == [Number(n)] + Segments(fold, rest)
  {
    var digits := Zeros(k) + Figures(n);
    var s := digits + rest;
    FiguresValue(k, n);
    assert digits != "" && s[0] == digits[0];
    RunsAre(s, |digits|);
    assert s[..|digits|] == digits && s[|digits|..] == rest;
  }

  /** Names that differ first in a number, after a common stem that does not end in a digit,
      are ordered by that number, whatever leading zeros it has and whatever follows it. */
  lemma NumberedInOrder(fold: Fold, stem: string, k: nat, m: nat, l: nat, n: nat, a: string, b: string)
    requires (stem != "" ==> !IsDigit(stem[|stem| - 1])) && (a != "" ==> !IsDigit(a[0])) && (b != "" ==> !IsDigit(b[0])) && m < n
    ensures Compare(fold, stem + (Zeros(k) + Figures(m) + a), stem + (Zeros(l) + Figures(n) + b)) < 0
  {
    FiguresFirst(fold, k, m, a);
    FiguresFirst(fold, l, n, b);
    SegmentsMeet(fold, stem, Zeros(k) + Figures(m) + a);
    SegmentsMeet(fold, stem, Zeros(l) + Figures(n) + b);
    SegmentsProper(fold, stem);
    SameStart(Segments(fold, stem), [Number(m)] + Segments(fold, a), [Number(n)] + Segments(fold, b));
  }

  // -------------------------------------------------------------- the cursors

  lemma {:induction false} ValueBound(digits: string)
    requires forall i :: 0 <= i < |digits| ==> IsDigit(digits[i])
    ensures Value(digits) < Power(|digits|)
  {
    if digits != "" { ValueBound(digits[..|digits| - 1]); }
  }

  function Power(n: nat): (p: nat)
    ensures p > 0
  {
    if n == 0 then 1 else 10 * Power(n - 1)
  }

  lemma {:induction false} PowerGrows(m: nat, n: nat)
    requires m <= n
    ensures Power(m) <= Power(n)
    decreases n
  {
    if m < n { PowerGrows(m, n - 1); }
  }

  /** The first digit counts most. */
  lemma {:induction false} ValueFirst(digits: string)
    requires digits != "" && forall i :: 0 <= i < |digits| ==> IsDigit(digits[i])
    ensures Value(digits) == Digit(digits[0]) * Power(|digits| - 1) + Value(digits[1..])
  {
    var n := |digits| - 1;
    if n > 0 {
      ValueFirst(digits[..n]);
      assert digits[..n][1..] == digits[1..][..n - 1] && digits[1..][n - 1] == digits[n];
      Scale(Digit(digits[0]), Power(n - 1));
    } else {
      assert digits[..0] == "" && digits[1..] == "";
    }
  }

  lemma Scale(d: nat, p: nat)
    ensures d * p * 10 == d * (10 * p)
  {
  }

  /** Skipping leading zeros keeps the value. */
  lemma {:induction false} ZerosSkipped(digits: string, n: nat)
    requires forall i :: 0 <= i < |digits| ==> IsDigit(digits[i])
    requires n <= |digits| && forall i :: 0 <= i < n ==> digits[i] == '0'
    ensures Value(digits[n..]) == Value(digits)
    decreases n
  {
    if n > 0 {
      ZerosSkipped(digits[1..], n - 1);
      assert digits[1..][n - 1..] == digits[n..];
      ValueFirst(digits);
    } else {
      assert digits[0..] == digits;
    }
  }

  function Identity(c: char): int {
    c as int
  }

  /** Without leading zeros a longer number is larger, and equally long ones compare like
      texts. */
  lemma {:induction false} LengthThenText(a: string, b: string)
    requires |a| == |b|
    requires forall i :: 0 <= i < |a| ==> IsDigit(a[i]) && IsDigit(b[i])
    ensures CompareText(Identity, a, b) == Sign(Value(a), Value(b))
    decreases |a|
  {
    if a != "" {
      var n := |a| - 1;
      ValueFirst(a);
      ValueFirst(b);
      ValueBound(a[1..]);
      ValueBound(b[1..]);
      if a[0] == b[0] {
        LengthThenText(a[1..], b[1..]);
      } else if a[0] < b[0] {
        FirstDigitWins(Digit(a[0]), Digit(b[0]), Power(n), Value(a[1..]), Value(b[1..]));
      } else {
        FirstDigitWins(Digit(b[0]), Digit(a[0]), Power(n), Value(b[1..]), Value(a[1..]));
      }
    }
  }

  lemma Distribute(x: nat, k: nat, p: nat)
    ensures (x + k) * p == x * p + k * p
  {
  }

  lemma FirstDigitWins(x: nat, y: nat, p: nat, a: nat, b: nat)
    requires x < y && a < p
    ensures x * p + a < y * p + b
  {
    var k := y - x;
    AtLeast(k, p, 0);
    Distribute(x, k, p);
  }

  lemma LongerIsLarger(a: string, b: string)
    requires forall i :: 0 <= i < |a| ==> IsDigit(a[i])
    requires forall i :: 0 <= i < |b| ==> IsDigit(b[i])
    requires |a| < |b| && b[0] != '0'
    ensures Value(a) < Value(b)
  {
    ValueBound(a);
    PowerGrows(|a|, |b| - 1);
    ValueFirst(b);
    assert Digit(b[0]) >= 1;
    AtLeast(Digit(b[0]), Power(|b| - 1), Value(b[1..]));
  }

  lemma AtLeast(d: nat, p: nat, v: nat)
    requires d >= 1
    ensures d * p + v >= p
  {
    assert d * p >= 1 * p;
  }

  lemma {:induction false} TextIsCodes(fold: Fold, a: string, b: string)
    ensures CompareText(fold, a, b) == CompareCodes(Codes(fold, a), Codes(fold, b))
    decreases |a|
  {
    if a != "" && b != "" && fold(a[0]) == fold(b[0]) {
      TextIsCodes(fold, a[1..], b[1..]);
      assert Codes(fold, a)[1..] == Codes(fold, a[1..]) && Codes(fold, b)[1..] == Codes(fold, b[1..]);
    }
  }

  /** The end of the run of digits that starts at `at`. */
  method RunEnd(s: string, at: nat, digits: bool) returns (end: nat)
    requires at <= |s|
    ensures end == at + if digits then DigitRun(s[at..]) else TextRun(s[at..])
    ensures end <= |s| && (at < |s| && IsDigit(s[at]) == digits ==> end > at)
  {
    end := at;
    while end < |s| && IsDigit(s[end]) == digits
      invariant at <= end <= |s|
      invariant digits ==> end + DigitRun(s[end..]) == at + DigitRun(s[at..])
      invariant !digits ==> end + TextRun(s[end..]) == at + TextRun(s[at..])
    {
      assert s[end..][1..] == s[end + 1..];
      end := end + 1;
    }
  }

  method SkipZeros(s: string, at: nat, end: nat) returns (first: nat)
    requires at <= end <= |s| && forall i :: at <= i < end ==> IsDigit(s[i])
    ensures at <= first <= end && (first < end ==> s[first] != '0')
    ensures forall i :: at <= i < first ==> s[i] == '0'
  {
    first := at;
    while first < end && s[first] == '0'
      invariant at <= first <= end && forall i :: at <= i < first ==> s[i] == '0'
    {
      first := first + 1;
    }
  }

  method CompareNumbers(a: string, b: string) returns (compared: int)
    requires forall i :: 0 <= i < |a| ==> IsDigit(a[i])
    requires forall i :: 0 <= i < |b| ==> IsDigit(b[i])
    ensures compared == Sign(Value(a), Value(b))
  {
    var i := SkipZeros(a, 0, |a|);
    var j := SkipZeros(b, 0, |b|);
    ZerosSkipped(a, i);
    ZerosSkipped(b, j);
    var x, y := a[i..], b[j..];
    if |x| != |y| {
      if |x| < |y| { LongerIsLarger(x, y); } else { LongerIsLarger(y, x); }
      return if |x| < |y| then -1 else 1;
    }
    LengthThenText(x, y);
    compared := CompareText(Identity, x, y);
  }

  lemma FirstSegment(fold: Fold, s: string)
    requires s != ""
    ensures IsDigit(s[0]) ==> Segments(fold, s) == [Number(Value(s[..DigitRun(s)]))] + Segments(fold, s[DigitRun(s)..])
    ensures !IsDigit(s[0]) ==> Segments(fold, s) == [Text(Codes(fold, s[..TextRun(s)]))] + Segments(fold, s[TextRun(s)..])
  {
  }

  /** Where one name starts a number and the other a text, the first characters decide. */
  lemma MixedDecides(fold: Fold, a: string, b: string)
    requires Sane(fold) && a != "" && b != "" && IsDigit(a[0]) != IsDigit(b[0])
    ensures CompareText(fold, a[..1], b[..1]) == Compare(fold, a, b) && Compare(fold, a, b) != 0
  {
    FirstSegment(fold, a);
    FirstSegment(fold, b);
  }

  lemma SegmentsRest(fold: Fold, a: string, b: string, i: nat, j: nat, x: Segment, y: Segment)
    requires i <= |a| && j <= |b|
    requires Segments(fold, a) == [x] + Segments(fold, a[i..]) && Segments(fold, b) == [y] + Segments(fold, b[j..])
    ensures Compare(fold, a, b) == if CompareSegments(x, y) != 0 then CompareSegments(x, y) else Compare(fold, a[i..], b[j..])
  {
    assert Segments(fold, a)[1..] == Segments(fold, a[i..]) && Segments(fold, b)[1..] == Segments(fold, b[j..]);
  }

  /** Compares two runs of the same kind and tells where they end. */
  method CompareRuns(fold: Fold, left: string, right: string, l: nat, r: nat) returns (compared: int, le: nat, re: nat)
    requires l < |left| && r < |right| && IsDigit(left[l]) == IsDigit(right[r])
    ensures l < le <= |left| && r < re <= |right|
    ensures Compare(fold, left[l..], right[r..]) == if compared != 0 then compared else Compare(fold, left[le..], right[re..])
  {
    hide Segments, CompareCodes, CompareText, Value;
    ghost var a, b := left[l..], right[r..];
    FirstSegment(fold, a);
    FirstSegment(fold, b);
    var digits := IsDigit(left[l]);
    le := RunEnd(left, l, digits);
    re := RunEnd(right, r, digits);
    Slices(left, l, le);
    Slices(right, r, re);
    if digits {
      SegmentsRest(fold, a, b, le - l, re - r, Number(Value(a[..le - l])), Number(Value(b[..re - r])));
      compared := CompareNumbers(left[l..le], right[r..re]);
    } else {
      SegmentsRest(fold, a, b, le - l, re - r, Text(Codes(fold, a[..le - l])), Text(Codes(fold, b[..re - r])));
      TextIsCodes(fold, left[l..le], right[r..re]);
      compared := CompareText(fold, left[l..le], right[r..re]);
    }
  }

  lemma Slices(s: string, at: nat, end: nat)
    requires at <= end <= |s|
    ensures s[at..end] == s[at..][..end - at] && s[end..] == s[at..][end - at..]
  {
  }

  /** The comparison with two cursors, run by run. */
  method NaturalCompare(fold: Fold, left: string, right: string) returns (compared: int)
    requires Sane(fold)
    ensures compared == Compare(fold, left, right)
  {
    hide Compare, CompareText;
    var l, r := 0, 0;
    while l < |left| && r < |right|
      invariant l <= |left| && r <= |right|
      invariant Compare(fold, left, right) == Compare(fold, left[l..], right[r..])
      decreases |left| - l
    {
      if IsDigit(left[l]) != IsDigit(right[r]) {
        MixedDecides(fold, left[l..], right[r..]);
        Slices(left, l, l + 1);
        Slices(right, r, r + 1);
        return CompareText(fold, left[l..l + 1], right[r..r + 1]);
      }
      var le, re;
      compared, le, re := CompareRuns(fold, left, right, l, r);
      if compared != 0 { return; }
      l, r := le, re;
    }
    compared := if l < |left| then 1 else if r < |right| then -1 else 0;
    EndsDecide(fold, left[l..], right[r..]);
  }

  lemma EndsDecide(fold: Fold, a: string, b: string)
    requires a == "" || b == ""
    ensures Compare(fold, a, b) == if a != "" then 1 else if b != "" then -1 else 0
  {
    if a != "" { FirstSegment(fold, a); }
    if b != "" { FirstSegment(fold, b); }
  }
}
