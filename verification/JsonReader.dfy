/** Reading a JSON text from left to right. Every function takes the rest of the text and
    gives the rest after what it read. */
module JsonReader {
  import opened Json
  import opened Utf8

  datatype Read<T> = Bad | Good(value: T, rest: string) {
    predicate IsFailure() { Bad? }
    function PropagateFailure<U>(): Read<U> requires IsFailure() { Bad }
    function Extract(): (T, string) requires !IsFailure() { (value, rest) }
  }

  function Space(s: string): (rest: string)
    ensures |rest| <= |s|
  {
    if s != "" && IsSpace(s[0]) then Space(s[1..]) else s
  }

  /** After blanks: is `c` next? Then it is passed. */
  predicate Sees(s: string, c: char) {
    var r := Space(s);
    r != "" && r[0] == c
  }

  function Take(s: string, c: char): Read<()> {
    if Sees(s, c) then Good((), Space(s)[1..]) else Bad
  }

  function Hex(s: string): (r: Read<nat>)
    ensures r.Good? ==> |s| >= 4 && r.rest == s[4..] && IsHex4(s[..4]) && r.value == Hex4(s[..4])
    ensures r.Bad? ==> |s| < 4 || !IsHex4(s[..4])
  {
    if |s| >= 4 && IsHex4(s[..4]) then Good(Hex4(s[..4]), s[4..]) else Bad
  }

  /** The code point after a `\u`. */
  function Escape(s: string): (r: Read<string>)
    ensures r.Good? ==> |r.rest| < |s|
  {
    var (code, rest) :- Hex(s);
    if IsHigh(code) then
      if |rest| < 2 || rest[..2] != "\\u" then Bad
      else
        var (low, after) :- Hex(rest[2..]);
        if IsLow(low) then Good(Encoded(Joined(code, low)), after) else Bad
    else if IsLow(code) then Bad
    else Good(Encoded(code), rest)
  }

  /** One character of a string: what it stands for. */
  function Character(s: string): (r: Read<string>)
    requires s != ""
    ensures r.Good? ==> |r.rest| < |s|
  {
    if s[0] as int < 32 then Bad
    else if s[0] != '\\' then Good([s[0]], s[1..])
    else if |s| == 1 then Bad
    else if s[1] == 'u' then Escape(s[2..])
    else if s[1] in LETTERS then Good([Unescaped(s[1])], s[2..])
    else Bad
  }

  /** The string after its opening quote, appended to `acc`. */
  function Characters(s: string, acc: string): (r: Read<string>)
    ensures r.Good? ==> |r.rest| < |s|
    decreases |s|
  {
    if s == "" then Bad
    else if s[0] == '"' then Good(acc, s[1..])
    else
      var (bytes, rest) :- Character(s);
      Characters(rest, acc + bytes)
  }

  function String(s: string): (r: Read<string>)
    ensures r.Good? ==> |r.rest| < |s|
  {
    var (_, rest) :- Take(s, '"');
    Characters(rest, "")
  }

  /** The digits of a number, refusing to exceed 64 bits or to follow a zero. */
  function Digits(s: string, number: nat): (r: Read<nat>)
    requires s != "" && IsDigit(s[0])
    ensures r.Good? ==> |r.rest| < |s|
    decreases |s|
  {
    var digit := Digit(s[0]);
    if number > (MAX_NUMBER - digit) / 10 then Bad
    else
      var next := number * 10 + digit;
      if |s| > 1 && IsDigit(s[1]) then if s[0] == '0' && number == 0 then Bad else Digits(s[1..], next)
      else Good(next, s[1..])
  }

  predicate Starts(s: string, word: string) {
    word <= s
  }

  /** A value at a depth; `nodes` values have been begun before. The result carries their new
      number. */
  function Value(s: string, depth: nat, nodes: nat): (r: Read<(Json, nat)>)
    ensures r.Good? ==> |r.rest| < |s|
    decreases |s|, 1
  {
    var t := Space(s);
    if depth > MAX_DEPTH || t == "" || nodes + 1 > MAX_NODES then Bad
    else if t[0] == '{' then
      if Sees(t[1..], '}') then Good((Object([]), nodes + 1), Space(t[1..])[1..]) else Members(t[1..], depth, nodes + 1, [])
    else if t[0] == '[' then
      if Sees(t[1..], ']') then Good((Array([]), nodes + 1), Space(t[1..])[1..]) else Elements(t[1..], depth, nodes + 1, [])
    else if t[0] == '"' then
      var (text, rest) :- String(t);
      Good((Text(text), nodes + 1), rest)
    else if Starts(t, "true") then Good((Boolean(true), nodes + 1), t[4..])
    else if Starts(t, "false") then Good((Boolean(false), nodes + 1), t[5..])
    else if Starts(t, "null") then Good((Null, nodes + 1), t[4..])
    else if !IsDigit(t[0]) then Bad
    else
      var (number, rest) :- Digits(t, 0);
      Good((Number(number), nodes + 1), rest)
  }

  /** The rest of an array that has `items` so far and gets another one. */
  function Elements(s: string, depth: nat, nodes: nat, items: seq<Json>): (r: Read<(Json, nat)>)
    ensures r.Good? ==> |r.rest| < |s|
    decreases |s|, 2
  {
    var (item, rest) :- Value(s, depth + 1, nodes);
    var items' := items + [item.0];
    if Sees(rest, ',') then Elements(Space(rest)[1..], depth, item.1, items')
    else
      var (_, after) :- Take(rest, ']');
      Good((Array(items'), item.1), after)
  }

  /** The rest of an object that has `members` so far and gets another one. */
  function Members(s: string, depth: nat, nodes: nat, members: seq<Member>): (r: Read<(Json, nat)>)
    ensures r.Good? ==> |r.rest| < |s|
    decreases |s|, 2
  {
    var (key, afterKey) :- String(s);
    var (_, afterColon) :- Take(afterKey, ':');
    var (item, rest) :- Value(afterColon, depth + 1, nodes);
    if HasKey(members, key) then Bad
    else
      var members' := members + [Member(key, item.0)];
      if Sees(rest, ',') then Members(Space(rest)[1..], depth, item.1, members')
      else
        var (_, after) :- Take(rest, '}');
        Good((Object(members'), item.1), after)
  }

  /** A whole text: its size, its encoding, one value, and nothing else but blanks. */
  function Parse(s: string): Read<Json> {
    if s == "" || |s| > MAX_BYTES || !Valid(s) then Bad
    else
      var (value, rest) :- Value(s, 0, 0);
      if Space(rest) == "" then Good(value.0, "") else Bad
  }
}
