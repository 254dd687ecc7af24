// The URL-safe base64 text of section 5 of RFC 4648, and leaving out and restoring its padding.

module Base64 {
  import opened Base

  type Byte = b: int | 0 <= b < 256

  type Sextet = s: int | 0 <= s < 64

  /** The table of the alphabet: letters, digits, '-' and '_'. */
  function Symbol(s: Sextet): char {
    if s < 26 then 'A' + s as char
    else if s < 52 then 'a' + (s - 26) as char
    else if s < 62 then '0' + (s - 52) as char
    else if s == 62 then '-'
    else '_'
  }

  function SextetOf(c: char): Option<Sextet> {
    if 'A' <= c <= 'Z' then Some((c - 'A') as int)
    else if 'a' <= c <= 'z' then Some((c - 'a') as int + 26)
    else if '0' <= c <= '9' then Some((c - '0') as int + 52)
    else if c == '-' then Some(62)
    else if c == '_' then Some(63)
    else None
  }

  lemma SymbolRoundTrip(s: Sextet)
    ensures SextetOf(Symbol(s)) == Some(s) && Symbol(s) != '='
  {
  }

  // Three bytes as four sextets, and back.

  function First(x: Byte): Sextet { x / 4 }
  function Second(x: Byte, y: Byte): Sextet { x % 4 * 16 + y / 16 }
  function Third(y: Byte, z: Byte): Sextet { y % 16 * 4 + z / 64 }
  function Fourth(z: Byte): Sextet { z % 64 }

  function ByteOne(a: Sextet, b: Sextet): Byte { a * 4 + b / 16 }
  function ByteTwo(b: Sextet, c: Sextet): Byte { b % 16 * 16 + c / 4 }
  function ByteThree(c: Sextet, d: Sextet): Byte { c % 4 * 64 + d }

  lemma BytesReturn(x: Byte, y: Byte, z: Byte)
    ensures ByteOne(First(x), Second(x, y)) == x
    ensures ByteTwo(Second(x, y), Third(y, z)) == y
    ensures ByteThree(Third(y, z), Fourth(z)) == z
  {
  }

  /** urlsafe_b64encode: four symbols for three bytes, the last group padded with '='. */
  function Encode(b: seq<Byte>): string {
    if b == [] then ""
    else if |b| == 1 then [Symbol(First(b[0])), Symbol(Second(b[0], 0)), '=', '=']
    else if |b| == 2 then [Symbol(First(b[0])), Symbol(Second(b[0], b[1])), Symbol(Third(b[1], 0)), '=']
    else Group(b[0], b[1], b[2]) + Encode(b[3..])
  }

  function Group(x: Byte, y: Byte, z: Byte): string {
    [Symbol(First(x)), Symbol(Second(x, y)), Symbol(Third(y, z)), Symbol(Fourth(z))]
  }

  /** The table of the alphabet: the symbols of a range follow one another. */
  lemma SymbolsInOrder(s: Sextet)
    ensures Symbol(0) == 'A' && Symbol(25) == 'Z' && Symbol(26) == 'a' && Symbol(51) == 'z'
    ensures Symbol(52) == '0' && Symbol(61) == '9' && Symbol(62) == '-' && Symbol(63) == '_'
    ensures s !in {25, 51, 61, 62, 63} ==> Symbol(s + 1) as int == Symbol(s) as int + 1
  {
  }

  /** Three bytes and their four sextets are one number of 24 bits, the first part most significant. */
  lemma GroupKeepsNumber(x: Byte, y: Byte, z: Byte) returns (a: Sextet, b: Sextet, c: Sextet, d: Sextet)
    ensures a * 262144 + b * 4096 + c * 64 + d == x * 65536 + y * 256 + z
    ensures Encode([x, y, z]) == [Symbol(a), Symbol(b), Symbol(c), Symbol(d)]
  {
    a, b, c, d := First(x), Second(x, y), Third(y, z), Fourth(z);
    assert Encode([x, y, z]) == Group(x, y, z) + Encode([]);
  }

  /** One or two bytes are coded as the group that zeros complete, with '=' for each byte that is missing. */
  lemma ShortGroups(x: Byte, y: Byte)
    ensures Encode([x]) == Encode([x, 0, 0])[..2] + "==" && Encode([x, y]) == Encode([x, y, 0])[..3] + "="
  {
    assert Encode([x, 0, 0]) == Group(x, 0, 0) + Encode([]) && Encode([x, y, 0]) == Group(x, y, 0) + Encode([]);
  }

  /** The bytes of one group of four characters; padding may end the last group. */
  function DecodeGroup(t: string, isLast: bool): Option<seq<Byte>>
    requires |t| == 4
  {
    var a, b, c, d := SextetOf(t[0]), SextetOf(t[1]), SextetOf(t[2]), SextetOf(t[3]);
    if a.None? || b.None? then None
    else if isLast && t[2] == '=' && t[3] == '=' then Some([ByteOne(a.value, b.value)])
    else if c.None? then None
    else if isLast && t[3] == '=' then Some([ByteOne(a.value, b.value), ByteTwo(b.value, c.value)])
    else if d.None? then None
    else Some([ByteOne(a.value, b.value), ByteTwo(b.value, c.value), ByteThree(c.value, d.value)])
  }

  function Decode(t: string): Option<seq<Byte>> {
    if t == "" then Some([])
    else if |t| < 4 then None
    else
      var head := DecodeGroup(t[..4], |t| == 4);
      var tail := Decode(t[4..]);
      if head.None? || tail.None? then None else Some(head.value + tail.value)
  }

  lemma GroupDecodes(x: Byte, y: Byte, z: Byte, isLast: bool)
    ensures DecodeGroup(Group(x, y, z), isLast) == Some([x, y, z])
  {
    SymbolRoundTrip(First(x));
    SymbolRoundTrip(Second(x, y));
    SymbolRoundTrip(Third(y, z));
    SymbolRoundTrip(Fourth(z));
    BytesReturn(x, y, z);
  }

  lemma OneByteDecodes(x: Byte)
    ensures DecodeGroup([Symbol(First(x)), Symbol(Second(x, 0)), '=', '='], true) == Some([x])
  {
    HeadReturns(x, First(x), Second(x, 0));
    PaddedGroup(First(x), Second(x, 0));
  }

  lemma HeadReturns(x: Byte, a: Sextet, b: Sextet)
    requires a == x / 4 && b == x % 4 * 16
    ensures ByteOne(a, b) == x
  {
  }

  lemma PaddedGroup(a: Sextet, b: Sextet)
    ensures DecodeGroup([Symbol(a), Symbol(b), '=', '='], true) == Some([ByteOne(a, b)])
  {
    SymbolRoundTrip(a);
    SymbolRoundTrip(b);
  }

  lemma TwoBytesDecode(x: Byte, y: Byte)
    ensures DecodeGroup([Symbol(First(x)), Symbol(Second(x, y)), Symbol(Third(y, 0)), '='], true) == Some([x, y])
  {
    SymbolRoundTrip(First(x));
    SymbolRoundTrip(Second(x, y));
    SymbolRoundTrip(Third(y, 0));
    BytesReturn(x, y, 0);
  }

  /** The text of a group followed by more. */
  lemma DecodeStep(head: string, rest: string, bytes: seq<Byte>, more: seq<Byte>)
    requires |head| == 4 && DecodeGroup(head, rest == "") == Some(bytes) && Decode(rest) == Some(more)
    ensures Decode(head + rest) == Some(bytes + more)
  {
    assert (head + rest)[..4] == head && (head + rest)[4..] == rest;
  }

  lemma LastGroupDecodes(b: seq<Byte>)
    requires 1 <= |b| <= 2
    ensures Decode(Encode(b)) == Some(b)
  {
    if |b| == 1 {
      OneByteDecodes(b[0]);
      assert b == [b[0]];
    } else {
      TwoBytesDecode(b[0], b[1]);
      assert b == [b[0], b[1]];
    }
    var t := Encode(b);
    DecodeStep(t, "", b, []);
    assert t + "" == t && b + [] == b;
  }

  lemma {:induction false} DecodeEncode(b: seq<Byte>)
    ensures Decode(Encode(b)) == Some(b)
  {
    if b == [] {
    } else if |b| <= 2 {
      LastGroupDecodes(b);
    } else {
      DecodeEncode(b[3..]);
      FullGroupDecodes(b[0], b[1], b[2], b[3..]);
      assert b == [b[0], b[1], b[2]] + b[3..];
    }
  }

  lemma FullGroupDecodes(x: Byte, y: Byte, z: Byte, more: seq<Byte>)
    requires Decode(Encode(more)) == Some(more)
    ensures Decode(Encode([x, y, z] + more)) == Some([x, y, z] + more)
  {
    var b := [x, y, z] + more;
    assert b[3..] == more;
    GroupDecodes(x, y, z, Encode(more) == "");
    DecodeStep(Group(x, y, z), Encode(more), [x, y, z], more);
  }

  // ----- Padding -----

  /** rstrip("=") */
  function StripPadding(t: string): string {
    if t != "" && t[|t| - 1] == '=' then StripPadding(t[..|t| - 1]) else t
  }

  function Equals(n: nat): string {
    seq(n, _ => '=')
  }

  /** cursor + "=" * (-len(cursor) % 4) */
  function Pad(t: string): string {
    t + Equals((-|t|) % 4)
  }

  /** A text of whole groups that ends in k marks of padding, at most two, after another symbol. */
  ghost predicate EndsInPadding(t: string, k: nat) {
    |t| % 4 == 0 && k <= 2 && k <= |t| && t[|t| - k..] == Equals(k) && (k < |t| ==> t[|t| - k - 1] != '=')
  }

  lemma PaddingBehind(g: string, rest: string, k: nat)
    requires |g| == 4 && g[3] != '=' && EndsInPadding(rest, k) && (rest == "" ==> k == 0) && (rest != "" ==> k < |rest|)
    ensures EndsInPadding(g + rest, k)
  {
    assert (g + rest)[|g + rest| - k..] == rest[|rest| - k..];
  }

  lemma {:induction false} EncodePadding(b: seq<Byte>) returns (k: nat)
    ensures EndsInPadding(Encode(b), k) && (Encode(b) == "" ==> k == 0) && (Encode(b) != "" ==> k < |Encode(b)|)
  {
    if b == [] {
      k := 0;
    } else if |b| <= 2 {
      k := 3 - |b|;
      LastGroupPadding(b);
    } else {
      k := EncodePadding(b[3..]);
      SymbolRoundTrip(Fourth(b[2]));
      PaddingBehind(Group(b[0], b[1], b[2]), Encode(b[3..]), k);
    }
  }

  lemma LastGroupPadding(b: seq<Byte>)
    requires 1 <= |b| <= 2
    ensures |Encode(b)| == 4 && EndsInPadding(Encode(b), 3 - |b|)
  {
    var t := Encode(b);
    if |b| == 1 {
      SymbolRoundTrip(Second(b[0], 0));
      assert t[2..] == Equals(2);
    } else {
      SymbolRoundTrip(Third(b[1], 0));
      assert t[3..] == Equals(1);
    }
  }

  lemma {:induction false} StripRemoves(t: string, k: nat)
    requires k <= |t| && t[|t| - k..] == Equals(k) && (k < |t| ==> t[|t| - k - 1] != '=')
    ensures StripPadding(t) == t[..|t| - k]
    decreases k
  {
    if k > 0 {
      var front := t[..|t| - 1];
      assert t[|t| - k..][k - 1] == '=';
      assert front[|front| - (k - 1)..] == t[|t| - k..][..k - 1] == Equals(k - 1);
      StripRemoves(front, k - 1);
    }
  }

  /** The length alone tells how much padding was left out. */
  lemma PadRestores(b: seq<Byte>)
    ensures Pad(StripPadding(Encode(b))) == Encode(b)
  {
    var k := EncodePadding(b);
    PadReturns(Encode(b), k);
  }

  lemma PadReturns(t: string, k: nat)
    requires EndsInPadding(t, k)
    ensures Pad(StripPadding(t)) == t
  {
    StripRemoves(t, k);
    PaddingLength(|t|, k);
    var body := t[..|t| - k];
    assert Pad(body) == body + Equals(k);
    assert t == body + t[|t| - k..];
  }

  lemma PaddingLength(n: nat, k: nat)
    requires n % 4 == 0 && k <= 2 && k <= n
    ensures (-(n - k)) % 4 == k
  {
  }
}
