// JSON strings as json.dumps writes them, with every character outside printable ASCII escaped, and
// reading them back.

module JsonText {
  import opened Base

  /** The number of a character. */
  function Code(c: char): (n: int)
    ensures 0 <= n < 0xD800 || 0xE000 <= n < 0x11_0000
  {
    c as int
  }

  predicate IsScalar(n: int) {
    0 <= n < 0xD800 || 0xE000 <= n < 0x11_0000
  }

  function HexDigit(n: int): char
    requires 0 <= n < 16
  {
    if n < 10 then '0' + n as char else 'a' + (n - 10) as char
  }

  function HexValue(c: char): Option<int> {
    if '0' <= c <= '9' then Some((c - '0') as int)
    else if 'a' <= c <= 'f' then Some((c - 'a') as int + 10)
    else if 'A' <= c <= 'F' then Some((c - 'A') as int + 10)
    else None
  }

  function Hex4(n: int): string
    requires 0 <= n < 0x1_0000
  {
    [HexDigit(n / 4096), HexDigit(n / 256 % 16), HexDigit(n / 16 % 16), HexDigit(n % 16)]
  }

  /** The number that four hexadecimal digits at the start of a text stand for. */
  function Unhex4(t: string): Option<int> {
    if |t| < 4 then None
    else
      var a, b, c, d := HexValue(t[0]), HexValue(t[1]), HexValue(t[2]), HexValue(t[3]);
      if a.None? || b.None? || c.None? || d.None? then None
      else Some(a.value * 4096 + b.value * 256 + c.value * 16 + d.value)
  }

  lemma HexDigitReturns(n: int)
    requires 0 <= n < 16
    ensures HexValue(HexDigit(n)) == Some(n)
  {
  }

  /** The digits from ten on may be capital letters. */
  lemma CapitalsRead(n: int)
    requires 10 <= n < 16
    ensures HexValue('A' + (n - 10) as char) == Some(n) == HexValue(HexDigit(n))
  {
  }

  lemma DigitsSum(n: int)
    requires 0 <= n < 0x1_0000
    ensures n / 4096 * 4096 + n / 256 % 16 * 256 + n / 16 % 16 * 16 + n % 16 == n
    ensures n / 4096 < 16
  {
  }

  lemma Hex4Returns(n: int, rest: string)
    requires 0 <= n < 0x1_0000
    ensures Unhex4(Hex4(n) + rest) == Some(n)
  {
    DigitsSum(n);
    HexDigitReturns(n / 4096);
    HexDigitReturns(n / 256 % 16);
    HexDigitReturns(n / 16 % 16);
    HexDigitReturns(n % 16);
  }

  const BACKSPACE: char := 8 as char
  const FORM_FEED: char := 12 as char

  /** The letter of a short escape. */
  function ShortEscape(c: char): Option<char> {
    if c == '"' then Some('"')
    else if c == '\\' then Some('\\')
    else if c == '\n' then Some('n')
    else if c == '\r' then Some('r')
    else if c == '\t' then Some('t')
    else if c == BACKSPACE then Some('b')
    else if c == FORM_FEED then Some('f')
    else None
  }

  function ShortUnescape(e: char): Option<char> {
    if e == '"' then Some('"')
    else if e == '\\' then Some('\\')
    else if e == '/' then Some('/')
    else if e == 'n' then Some('\n')
    else if e == 'r' then Some('\r')
    else if e == 't' then Some('\t')
    else if e == 'b' then Some(BACKSPACE)
    else if e == 'f' then Some(FORM_FEED)
    else None
  }

  function High(n: int): int {
    0xD800 + (n - 0x1_0000) / 1024
  }

  function Low(n: int): int {
    0xDC00 + (n - 0x1_0000) % 1024
  }

  function Escape(c: char): string {
    if ShortEscape(c).Some? then ['\\', ShortEscape(c).value]
    else if ' ' <= c <= '~' then [c]
    else if Code(c) < 0x1_0000 then "\\u" + Hex4(Code(c))
    else "\\u" + Hex4(High(Code(c))) + "\\u" + Hex4(Low(Code(c)))
  }

  function EscapeAll(s: string): string {
    if s == "" then "" else Escape(s[0]) + EscapeAll(s[1..])
  }

  function Quote(s: string): string {
    "\"" + EscapeAll(s) + "\""
  }

  /** One character at the start of the inside of a string, and how long its text is; a surrogate
      that has no partner stands for no character. */
  function ReadChar(t: string): Option<(char, nat)>
    ensures ReadChar(t).Some? ==> 0 < ReadChar(t).value.1 <= |t|
  {
    if t == "" || t[0] == '"' || t[0] < ' ' then None
    else if t[0] != '\\' then Some((t[0], 1))
    else if |t| < 2 then None
    else if t[1] != 'u' then
      var c := ShortUnescape(t[1]);
      if c.None? then None else Some((c.value, 2))
    else
      var n := Unhex4(t[2..]);
      if n.None? then None
      else if IsScalar(n.value) then Some((n.value as char, 6))
      else if n.value < 0xDC00 then ReadLow(t, n.value)
      else None
  }

  function ReadLow(t: string, high: int): (r: Option<(char, nat)>)
    requires |t| >= 6 && 0xD800 <= high < 0xDC00
    ensures r.Some? ==> 0 < r.value.1 <= |t|
  {
    if |t| < 12 || t[6] != '\\' || t[7] != 'u' then None
    else
      var n := Unhex4(t[8..]);
      if n.None? || !(0xDC00 <= n.value < 0xE000) then None
      else
        var code := 0x1_0000 + (high - 0xD800) * 1024 + (n.value - 0xDC00);
        Some((code as char, 12))
  }

  /** The inside of a string up to its closing quote, and what follows. */
  function ReadString(t: string): Option<(string, string)>
    decreases |t|
  {
    if t == "" then None
    else if t[0] == '"' then Some(("", t[1..]))
    else
      match ReadChar(t)
      case None => None
      case Some((c, n)) =>
        match ReadString(t[n..])
        case None => None
        case Some((s, rest)) => Some(([c] + s, rest))
  }

  lemma ShortEscapeReturns(c: char)
    requires ShortEscape(c).Some?
    ensures ShortUnescape(ShortEscape(c).value) == Some(c) && ShortEscape(c).value != 'u'
  {
  }

  lemma SurrogatesReturn(n: int)
    requires 0x1_0000 <= n < 0x11_0000
    ensures 0xD800 <= High(n) < 0xDC00 && 0xDC00 <= Low(n) < 0xE000
    ensures 0x1_0000 + (High(n) - 0xD800) * 1024 + (Low(n) - 0xDC00) == n
  {
  }

  /** An escaped character reads back as itself, whatever follows. */
  lemma EscapeReturns(c: char, rest: string)
    ensures ReadChar(Escape(c) + rest) == Some((c, |Escape(c)|))
  {
    var t := Escape(c) + rest;
    if ShortEscape(c).Some? {
      ShortEscapeReturns(c);
    } else if ' ' <= c <= '~' {
      assert t[0] == c;
    } else if Code(c) < 0x1_0000 {
      assert t[2..] == Hex4(Code(c)) + rest;
      Hex4Returns(Code(c), rest);
    } else {
      PairReturns(c, rest);
    }
  }

  lemma PairReturns(c: char, rest: string)
    requires Code(c) >= 0x1_0000
    ensures var t := "\\u" + Hex4(High(Code(c))) + "\\u" + Hex4(Low(Code(c))) + rest;
            ReadChar(t) == Some((c, 12))
  {
    var n := Code(c);
    SurrogatesReturn(n);
    var t := "\\u" + Hex4(High(n)) + "\\u" + Hex4(Low(n)) + rest;
    assert t[2..] == Hex4(High(n)) + ("\\u" + Hex4(Low(n)) + rest);
    Hex4Returns(High(n), "\\u" + Hex4(Low(n)) + rest);
    LowReturns(t, c);
  }

  lemma LowReturns(t: string, c: char)
    requires Code(c) >= 0x1_0000 && |t| >= 12 && t[6] == '\\' && t[7] == 'u' && t[8..12] == Hex4(Low(Code(c)))
    requires 0xD800 <= High(Code(c)) < 0xDC00
    ensures ReadLow(t, High(Code(c))) == Some((c, 12))
  {
    var n := Code(c);
    SurrogatesReturn(n);
    assert t[8..] == Hex4(Low(n)) + t[12..];
    Hex4Returns(Low(n), t[12..]);
  }

  const HEX_DIGITS := "0123456789abcdef"

  lemma HexDigitIs(n: int)
    requires 0 <= n < 16
    ensures |HEX_DIGITS| == 16 && HexDigit(n) == HEX_DIGITS[n]
  {
    if n < 4 {
      assert n == 0 || n == 1 || n == 2 || n == 3;
    } else if n < 8 {
      assert n == 4 || n == 5 || n == 6 || n == 7;
    } else if n < 12 {
      assert n == 8 || n == 9 || n == 10 || n == 11;
    } else {
      assert n == 12 || n == 13 || n == 14 || n == 15;
    }
  }

  /** Four hexadecimal digits, the first one most significant. */
  lemma Hex4Is(n: int) returns (a: int, b: int, c: int, d: int)
    requires 0 <= n < 0x1_0000
    ensures 0 <= a < 16 && 0 <= b < 16 && 0 <= c < 16 && 0 <= d < 16 && ((a * 16 + b) * 16 + c) * 16 + d == n
    ensures |HEX_DIGITS| == 16 && Hex4(n) == [HEX_DIGITS[a], HEX_DIGITS[b], HEX_DIGITS[c], HEX_DIGITS[d]]
  {
    a, b, c, d := n / 4096, n / 256 % 16, n / 16 % 16, n % 16;
    DigitsSum(n);
    HexDigitIs(a);
    HexDigitIs(b);
    HexDigitIs(c);
    HexDigitIs(d);
  }

  /** Section 7 of RFC 8259: seven characters have a short escape, what is outside printable ASCII is
      written as its four digits, or as the digits of its two surrogates beyond 16 bits. */
  lemma EscapesExactly(c: char)
    ensures Escape('"') == "\\\"" && Escape('\\') == "\\\\" && Escape('\n') == "\\n" && Escape('\r') == "\\r"
    ensures Escape('\t') == "\\t" && Escape(8 as char) == "\\b" && Escape(12 as char) == "\\f"
    ensures 32 <= c as int <= 126 && c != '"' && c != '\\' ==> Escape(c) == [c]
    ensures (c as int < 32 && c as int !in {8, 9, 10, 12, 13}) || 126 < c as int < 0x1_0000 ==>
              Escape(c) == "\\u" + Hex4(c as int)
    ensures 0x1_0000 <= c as int ==>
              exists high, low :: 0xD800 <= high < 0xDC00 && 0xDC00 <= low < 0xE000
                && Escape(c) == "\\u" + Hex4(high) + "\\u" + Hex4(low)
                && c as int == 0x1_0000 + (high - 0xD800) * 0x400 + (low - 0xDC00)
  {
    if 0x1_0000 <= c as int { SurrogatesReturn(Code(c)); }
  }

  lemma ReadStringStep(e: string, more: string, c: char, s: string, rest: string)
    requires e != "" && e[0] != '"' && ReadChar(e + more) == Some((c, |e|)) && ReadString(more) == Some((s, rest))
    ensures ReadString(e + more) == Some(([c] + s, rest))
  {
    assert (e + more)[|e|..] == more;
  }

  /** A quoted text reads back as itself, whatever follows. */
  lemma {:induction false} QuoteReturns(s: string, rest: string)
    ensures ReadString(EscapeAll(s) + "\"" + rest) == Some((s, rest))
  {
    var t := EscapeAll(s) + "\"" + rest;
    if s == "" {
      assert t == "\"" + rest && t[1..] == rest;
    } else {
      var e, more := Escape(s[0]), EscapeAll(s[1..]) + "\"" + rest;
      EscapeReturns(s[0], more);
      EscapeStart(s[0]);
      QuoteReturns(s[1..], rest);
      ReadStringStep(e, more, s[0], s[1..], rest);
      assert t == e + more && s == [s[0]] + s[1..];
    }
  }

  lemma EscapeStart(c: char)
    ensures Escape(c) != "" && Escape(c)[0] != '"'
  {
  }

  /** Everything that is written is ASCII. */
  lemma EscapeIsAscii(c: char)
    ensures forall i :: 0 <= i < |Escape(c)| ==> Code(Escape(c)[i]) < 128
  {
  }

  lemma {:induction false} EscapeAllIsAscii(s: string)
    ensures forall i :: 0 <= i < |EscapeAll(s)| ==> Code(EscapeAll(s)[i]) < 128
  {
    if s != "" {
      EscapeIsAscii(s[0]);
      EscapeAllIsAscii(s[1..]);
    }
  }
}
