/** The byte-exact text pieces the canonical encodings are built from: decimal numbers and TOML basic
    strings. A string is a sequence of Unicode scalar values; UTF-8 is below this model. */
module Text {
  import opened Wrappers

  // ---- decimal numbers -------------------------------------------------------------------

  function Digit(d: nat): (c: char)
    requires d < 10
    ensures IsDigit(c) && DigitValue(c) == d
  {
    '0' + d as char
  }

  predicate IsDigit(c: char) {
    '0' <= c <= '9'
  }

  function DigitValue(c: char): (d: nat)
    requires IsDigit(c)
    ensures d < 10
  {
    c as int - '0' as int
  }

  function Decimal(n: nat): (s: string)
    ensures s != "" && forall c :: c in s ==> IsDigit(c)
  {
    if n < 10 then [Digit(n)] else Decimal(n / 10) + [Digit(n % 10)]
  }

  predicate AllDigits(s: string) {
    forall c :: c in s ==> IsDigit(c)
  }

  function DecimalValue(s: string): nat
    requires AllDigits(s)
  {
    if s == "" then 0 else DecimalValue(s[..|s| - 1]) * 10 + DigitValue(s[|s| - 1])
  }

  lemma {:induction false} DecimalRoundTrip(n: nat)
    ensures DecimalValue(Decimal(n)) == n
  {
    if n >= 10 {
      DecimalRoundTrip(n / 10);
      assert Decimal(n)[..|Decimal(n)| - 1] == Decimal(n / 10);
    }
  }

  /** Signed decimal, as printed for a size. */
  function Integer(i: int): string {
    if i < 0 then "-" + Decimal(-i) else Decimal(i)
  }

  const MAX_INT64: int := 0x7fff_ffff_ffff_ffff

  function Clamp(i: int): int {
    if i > MAX_INT64 then MAX_INT64 else if i < -MAX_INT64 - 1 then -MAX_INT64 - 1 else i
  }

  function ReadInteger(s: string): Option<int> {
    var signed := s != "" && (s[0] == '-' || s[0] == '+');
    var digits := if signed then s[1..] else s;
    if digits == "" || !AllDigits(digits) then None
    else
      var value: int := DecimalValue(digits);
      Some(if signed && s[0] == '-' then -value else value)
  }

  lemma IntegerReadsBack(i: int)
    ensures ReadInteger(Integer(i)) == Some(i)
  {
    if i < 0 {
      DecimalRoundTrip(-i);
      assert Integer(i)[1..] == Decimal(-i);
    } else {
      DecimalRoundTrip(i);
      assert Integer(i)[0] in Decimal(i);
    }
  }

  /** A 64-bit size whose parse errors the caller ignores: malformed text reads as zero, overflow saturates. */
  function ParseSize(s: string): int {
    var i := ReadInteger(s);
    if i.None? then 0 else Clamp(i.value)
  }

  function Pow10(w: nat): (p: nat)
    ensures p > 0
  {
    if w == 0 then 1 else 10 * Pow10(w - 1)
  }

  // ---- TOML basic strings ----------------------------------------------------------------

  function HexDigit(d: nat): (c: char)
    requires d < 16
  {
    if d < 10 then '0' + d as char else 'A' + (d - 10) as char
  }

  function HexValue(c: char): Option<nat> {
    if IsDigit(c) then Some(DigitValue(c))
    else if 'A' <= c <= 'F' then Some(c as int - 'A' as int + 10)
    else None
  }

  const QUOTE: char := '\"'
  const BACKSLASH: char := '\\'
  const BS: char := 8 as char
  const TAB: char := '\t'
  const LF: char := '\n'
  const FF: char := 12 as char
  const CR: char := '\r'

  /** One character inside a double-quoted string. */
  function EscapeChar(c: char): string {
    if c == BACKSLASH then [BACKSLASH, BACKSLASH]
    else if c == QUOTE then [BACKSLASH, QUOTE]
    else if c == BS then [BACKSLASH, 'b']
    else if c == TAB then [BACKSLASH, 't']
    else if c == LF then [BACKSLASH, 'n']
    else if c == FF then [BACKSLASH, 'f']
    else if c == CR then [BACKSLASH, 'r']
    else if c as int < 0x20 || c as int == 0x7f then
      [BACKSLASH, 'u', '0', '0', HexDigit(c as int / 16), HexDigit(c as int % 16)]
    else [c]
  }

  function Escape(s: string): string {
    if s == "" then "" else EscapeChar(s[0]) + Escape(s[1..])
  }

  method EscapeBasic(s: string) returns (b: string)
    ensures b == Escape(s)
  {
    b := "";
    for i := 0 to |s|
      invariant b + Escape(s[i..]) == Escape(s)
    {
      assert s[i..][0] == s[i] && s[i..][1..] == s[i + 1..];
      b := b + EscapeChar(s[i]);
    }
    assert s[|s|..] == "";
  }

  /** A reader's view of one possibly escaped character: it, and what follows. */
  function ReadChar(t: string): Option<(char, string)> {
    if t == "" || t[0] == QUOTE then None
    else if t[0] != BACKSLASH then Some((t[0], t[1..]))
    else if |t| < 2 then None
    else if t[1] == BACKSLASH then Some((BACKSLASH, t[2..]))
    else if t[1] == QUOTE then Some((QUOTE, t[2..]))
    else if t[1] == 'b' then Some((BS, t[2..]))
    else if t[1] == 't' then Some((TAB, t[2..]))
    else if t[1] == 'n' then Some((LF, t[2..]))
    else if t[1] == 'f' then Some((FF, t[2..]))
    else if t[1] == 'r' then Some((CR, t[2..]))
    else if t[1] == 'u' && |t| >= 6 && t[2] == '0' && t[3] == '0' && HexValue(t[4]).Some? && HexValue(t[5]).Some?
    then Some(((HexValue(t[4]).value * 16 + HexValue(t[5]).value) as char, t[6..]))
    else None
  }

  /** The quoted value at the front of t (its opening quote already consumed), and what follows the
      closing quote. */
  function ReadQuoted(t: string): (r: Option<(string, string)>)
    ensures r.Some? ==> |r.value.1| < |t|
    decreases |t|
  {
    if t == "" then None
    else if t[0] == QUOTE then Some(("", t[1..]))
    else match ReadChar(t)
      case None => None
      case Some((c, rest)) =>
        match ReadQuoted(rest)
        case None => None
        case Some((s, after)) => Some(([c] + s, after))
  }

  lemma EscapedCharReadsBack(c: char, rest: string)
    ensures EscapeChar(c) != "" && (EscapeChar(c) + rest)[0] != QUOTE
    ensures ReadChar(EscapeChar(c) + rest) == Some((c, rest))
  {
    var e := EscapeChar(c);
    var t := e + rest;
    assert |e| == 1 ==> t[1..] == rest;
    assert |e| == 2 ==> t[2..] == rest;
    assert |e| == 6 ==> t[6..] == rest;
  }

  /** Reading inverts escaping, whatever follows the closing quote. */
  lemma {:induction false} QuotedReadsBack(s: string, rest: string)
    ensures ReadQuoted(Escape(s) + [QUOTE] + rest) == Some((s, rest))
  {
    var t := Escape(s) + [QUOTE] + rest;
    if s == "" {
      assert t[1..] == rest;
    } else {
      var tail := Escape(s[1..]) + [QUOTE] + rest;
      assert t == EscapeChar(s[0]) + tail;
      EscapedCharReadsBack(s[0], tail);
      QuotedReadsBack(s[1..], rest);
      assert [s[0]] + s[1..] == s;
    }
  }

  /** A canonical line: key, one space either side of the equals sign, quoted value, line feed. */
  function Line(key: string, val: string): string {
    key + " = " + [QUOTE] + Escape(val) + [QUOTE] + [LF]
  }

  /** Append one canonical line to what is written so far. */
  method WriteLine(b: string, key: string, val: string) returns (r: string)
    ensures r == b + Line(key, val)
  {
    var escaped := EscapeBasic(val);
    r := b + key + " = \"" + escaped + "\"\n";
  }

  /** Drop an expected prefix. */
  function Expect(prefix: string, t: string): (r: Option<string>)
    ensures r.Some? ==> |r.value| == |t| - |prefix| && t == prefix + r.value
  {
    if |prefix| <= |t| && t[..|prefix|] == prefix then Some(t[|prefix|..]) else None
  }

  lemma ExpectPrefix(prefix: string, rest: string)
    ensures Expect(prefix, prefix + rest) == Some(rest)
  {
    assert (prefix + rest)[..|prefix|] == prefix;
    assert (prefix + rest)[|prefix|..] == rest;
  }

  /** Read a line with the given key: its value and what follows. */
  function ReadLine(key: string, t: string): Option<(string, string)> {
    match Expect(key + " = " + [QUOTE], t)
    case None => None
    case Some(u) =>
      match ReadQuoted(u)
      case None => None
      case Some((val, after)) =>
        match Expect([LF], after)
        case None => None
        case Some(rest) => Some((val, rest))
  }

  lemma LineReadsBack(key: string, val: string, rest: string)
    ensures ReadLine(key, Line(key, val) + rest) == Some((val, rest))
  {
    var t := Line(key, val) + rest;
    var u := Escape(val) + [QUOTE] + ([LF] + rest);
    assert t == (key + " = " + [QUOTE]) + u;
    ExpectPrefix(key + " = " + [QUOTE], u);
    QuotedReadsBack(val, [LF] + rest);
    ExpectPrefix([LF], rest);
  }
}
