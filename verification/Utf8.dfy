/** UTF-8 text, as the Rust strings store it: `str::len` and `str::as_bytes` count and list these bytes. */
module Utf8 {

  newtype Byte = x: int | 0 <= x < 256

  function EncodeChar(c: char): (r: seq<Byte>)
    ensures 1 <= |r| <= 4
  {
    var n := c as int;
    if n < 0x80 then [n as Byte]
    else if n < 0x800 then [(0xC0 + n / 0x40) as Byte, (0x80 + n % 0x40) as Byte]
    else if n < 0x1_0000 then [(0xE0 + n / 0x1000) as Byte, (0x80 + n / 0x40 % 0x40) as Byte, (0x80 + n % 0x40) as Byte]
    else [(0xF0 + n / 0x4_0000) as Byte, (0x80 + n / 0x1000 % 0x40) as Byte, (0x80 + n / 0x40 % 0x40) as Byte,
          (0x80 + n % 0x40) as Byte]
  }

  function Encode(s: string): seq<Byte> {
    if s == "" then [] else EncodeChar(s[0]) + Encode(s[1..])
  }

  function Len(s: string): nat { |Encode(s)| }

  lemma {:induction false} EncodeConcat(a: string, b: string)
    ensures Encode(a + b) == Encode(a) + Encode(b)
  {
    hide EncodeChar;
    if a == "" {
      assert a + b == b;
    } else {
      assert (a + b)[1..] == a[1..] + b;
      EncodeConcat(a[1..], b);
    }
  }

  // ---------- reading it back (section 3 of RFC 3629) ----------

  /** The length of a sequence, by its first byte. */
  function Width(first: Byte): (n: nat)
    ensures 1 <= n <= 4
  {
    if first < 0x80 then 1 else if first < 0xE0 then 2 else if first < 0xF0 then 3 else 4
  }

  /** The payload bits of a continuation byte. */
  function Tail(b: Byte): int { b as int - 0x80 }

  function CodePoint(bytes: seq<Byte>): int
    requires bytes != [] && |bytes| == Width(bytes[0])
  {
    var first := bytes[0] as int;
    match |bytes|
    case 1 => first
    case 2 => (first - 0xC0) * 0x40 + Tail(bytes[1])
    case 3 => ((first - 0xE0) * 0x40 + Tail(bytes[1])) * 0x40 + Tail(bytes[2])
    case _ => (((first - 0xF0) * 0x40 + Tail(bytes[1])) * 0x40 + Tail(bytes[2])) * 0x40 + Tail(bytes[3])
  }

  function Decode(bytes: seq<Byte>): seq<int>
    decreases |bytes|
  {
    if bytes == [] || |bytes| < Width(bytes[0]) then []
    else [CodePoint(bytes[..Width(bytes[0])])] + Decode(bytes[Width(bytes[0])..])
  }

  function CodePoints(s: string): seq<int> {
    seq(|s|, i requires 0 <= i < |s| => s[i] as int)
  }

  /** Two six-bit digits. */
  lemma SixBits(n: nat)
    ensures n / 0x40 * 0x40 + n % 0x40 == n && n / 0x1000 == n / 0x40 / 0x40 && n / 0x4_0000 == n / 0x1000 / 0x40
  {
  }

  lemma CharReadsBack(c: char)
    ensures |EncodeChar(c)| == Width(EncodeChar(c)[0]) && CodePoint(EncodeChar(c)) == c as int
  {
    var n := c as int;
    SixBits(n);
    if n < 0x80 {
    } else if n < 0x800 {
      TwoBytes(n / 0x40, n % 0x40);
    } else if n < 0x1_0000 {
      SixBits(n / 0x40);
      ThreeBytes(n / 0x1000, n / 0x40 % 0x40, n % 0x40);
    } else {
      SixBits(n / 0x40);
      SixBits(n / 0x1000);
      FourBytes(n / 0x4_0000, n / 0x1000 % 0x40, n / 0x40 % 0x40, n % 0x40);
    }
  }

  lemma TwoBytes(a: nat, b: nat)
    requires a < 0x20 && b < 0x40
    ensures CodePoint([(0xC0 + a) as Byte, (0x80 + b) as Byte]) == a * 0x40 + b
  {
  }

  lemma ThreeBytes(a: nat, b: nat, c: nat)
    requires a < 0x10 && b < 0x40 && c < 0x40
    ensures CodePoint([(0xE0 + a) as Byte, (0x80 + b) as Byte, (0x80 + c) as Byte]) == (a * 0x40 + b) * 0x40 + c
  {
  }

  lemma FourBytes(a: nat, b: nat, c: nat, d: nat)
    requires a < 0x8 && b < 0x40 && c < 0x40 && d < 0x40
    ensures CodePoint([(0xF0 + a) as Byte, (0x80 + b) as Byte, (0x80 + c) as Byte, (0x80 + d) as Byte]) ==
              ((a * 0x40 + b) * 0x40 + c) * 0x40 + d
  {
  }

  /** Reading an encoded text gives back its characters. */
  lemma {:induction false} TextReadsBack(s: string)
    ensures Decode(Encode(s)) == CodePoints(s)
  {
    if s != "" {
      var head, rest := EncodeChar(s[0]), Encode(s[1..]);
      CharReadsBack(s[0]);
      hide EncodeChar, CodePoint;
      TextReadsBack(s[1..]);
      assert (head + rest)[..|head|] == head && (head + rest)[|head|..] == rest;
      assert CodePoints(s) == [s[0] as int] + CodePoints(s[1..]);
    }
  }
}
