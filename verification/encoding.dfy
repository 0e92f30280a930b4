/** How text turns into mojibake: a character is written out as its UTF-8
    bytes, and each byte is then read back as one Windows-1252 character.
    Several literals in the dashboard views went through this once. */
module Encoding {

  /** The UTF-8 encoding of one code point (section 3 of RFC 3629). */
  function Utf8(c: char): (bytes: seq<int>)
    ensures 1 <= |bytes| <= 4
    ensures forall k | 0 <= k < |bytes| :: 0 <= bytes[k] < 256
    ensures (|bytes| == 1) <==> (c as int) < 0x80
  {
    var n := c as int;
    if n < 0x80 then [n]
    else if n < 0x800 then [0xC0 + n / 0x40, 0x80 + n % 0x40]
    else if n < 0x10000 then [0xE0 + n / 0x1000, 0x80 + (n / 0x40) % 0x40, 0x80 + n % 0x40]
    else [0xF0 + n / 0x40000, 0x80 + (n / 0x1000) % 0x40, 0x80 + (n / 0x40) % 0x40, 0x80 + n % 0x40]
  }

  /** Reads a lead byte and its continuation bytes back into a code point. */
  function Utf8Value(bytes: seq<int>): int
    requires 1 <= |bytes| <= 4
  {
    if |bytes| == 1 then bytes[0]
    else if |bytes| == 2 then (bytes[0] - 0xC0) * 0x40 + (bytes[1] - 0x80)
    else if |bytes| == 3 then
      ((bytes[0] - 0xE0) * 0x40 + (bytes[1] - 0x80)) * 0x40 + (bytes[2] - 0x80)
    else
      (((bytes[0] - 0xF0) * 0x40 + (bytes[1] - 0x80)) * 0x40 + (bytes[2] - 0x80)) * 0x40 + (bytes[3] - 0x80)
  }

  /** Decoding the bytes gives the code point back. */
  lemma Utf8RoundTrip(c: char)
    ensures Utf8Value(Utf8(c)) == c as int
  {
    var n := c as int;
    if n >= 0x10000 {
      SixBits(n);
      SixBits(n / 0x40);
      SixBits(n / 0x1000);
      Shifts(n);
      assert Utf8Value(Utf8(c)) ==
        ((n / 0x40000 * 0x40 + (n / 0x1000) % 0x40) * 0x40 + (n / 0x40) % 0x40) * 0x40 + n % 0x40;
    } else if n >= 0x800 {
      SixBits(n);
      SixBits(n / 0x40);
      Shifts(n);
      assert Utf8Value(Utf8(c)) == (n / 0x1000 * 0x40 + (n / 0x40) % 0x40) * 0x40 + n % 0x40;
    } else if n >= 0x80 {
      SixBits(n);
    }
  }

  /** A number is its high part shifted by six bits plus its low six bits. */
  lemma SixBits(m: int)
    requires m >= 0
    ensures m == m / 0x40 * 0x40 + m % 0x40
  {
  }

  /** Shifting by six bits twice or three times is shifting by twelve or
      eighteen. */
  lemma Shifts(n: int)
    requires n >= 0
    ensures n / 0x40 / 0x40 == n / 0x1000
    ensures n / 0x1000 / 0x40 == n / 0x40000
  {
  }

  /** One byte read as Windows-1252: bytes 0x80 to 0x9F carry the typographic
      characters of that code page (the five it leaves unassigned map to the
      same-numbered control characters), all other bytes are Latin-1. */
  function Cp1252(b: int): (c: char)
    requires 0 <= b < 256
    ensures (b < 0x80 || b >= 0xA0) ==> c as int == b
  {
    if b == 0x80 then '\U{20AC}'
    else if b == 0x82 then '\U{201A}'
    else if b == 0x83 then '\U{0192}'
    else if b == 0x84 then '\U{201E}'
    else if b == 0x85 then '\U{2026}'
    else if b == 0x86 then '\U{2020}'
    else if b == 0x87 then '\U{2021}'
    else if b == 0x88 then '\U{02C6}'
    else if b == 0x89 then '\U{2030}'
    else if b == 0x8A then '\U{0160}'
    else if b == 0x8B then '\U{2039}'
    else if b == 0x8C then '\U{0152}'
    else if b == 0x8E then '\U{017D}'
    else if b == 0x91 then '\U{2018}'
    else if b == 0x92 then '\U{2019}'
    else if b == 0x93 then '\U{201C}'
    else if b == 0x94 then '\U{201D}'
    else if b == 0x95 then '\U{2022}'
    else if b == 0x96 then '\U{2013}'
    else if b == 0x97 then '\U{2014}'
    else if b == 0x98 then '\U{02DC}'
    else if b == 0x99 then '\U{2122}'
    else if b == 0x9A then '\U{0161}'
    else if b == 0x9B then '\U{203A}'
    else if b == 0x9C then '\U{0153}'
    else if b == 0x9E then '\U{017E}'
    else if b == 0x9F then '\U{0178}'
    else b as char
  }

  function Cp1252All(bytes: seq<int>): (s: string)
    requires forall k | 0 <= k < |bytes| :: 0 <= bytes[k] < 256
    ensures |s| == |bytes|
  {
    if |bytes| == 0 then "" else [Cp1252(bytes[0])] + Cp1252All(bytes[1..])
  }

  /** The text as it reads after its UTF-8 bytes are taken for Windows-1252. */
  function Misread(s: string): (r: string)
    ensures |r| >= |s|
    ensures (forall k | 0 <= k < |s| :: (s[k] as int) < 0x80) ==> r == s
  {
    if |s| == 0 then "" else Cp1252All(Utf8(s[0])) + Misread(s[1..])
  }

  /** The newspaper emoji U+1F4F0 comes out as `ðŸ“°`. */
  lemma NewspaperMisread()
    ensures Misread("\U{1F4F0}") == "\U{00F0}\U{0178}\U{201C}\U{00B0}"
  {
    assert Utf8('\U{1F4F0}') == [0xF0, 0x9F, 0x93, 0xB0];
    var bytes := [0xF0, 0x9F, 0x93, 0xB0];
    assert Misread("\U{1F4F0}") == Cp1252All(bytes) + Misread("");
    assert Cp1252All(bytes) == [Cp1252(bytes[0])] + Cp1252All(bytes[1..]);
    assert Cp1252All(bytes[1..]) == [Cp1252(bytes[1])] + Cp1252All(bytes[2..]);
    assert Cp1252All(bytes[2..]) == [Cp1252(bytes[2])] + Cp1252All(bytes[3..]);
    assert Cp1252All(bytes[3..]) == [Cp1252(bytes[3])] + Cp1252All(bytes[4..]);
  }

  /** The glowing star U+1F31F comes out as `ðŸŒŸ`. */
  lemma StarMisread()
    ensures Misread("\U{1F31F}") == "\U{00F0}\U{0178}\U{0152}\U{0178}"
  {
    assert Utf8('\U{1F31F}') == [0xF0, 0x9F, 0x8C, 0x9F];
    var bytes := [0xF0, 0x9F, 0x8C, 0x9F];
    assert Misread("\U{1F31F}") == Cp1252All(bytes) + Misread("");
    assert Cp1252All(bytes) == [Cp1252(bytes[0])] + Cp1252All(bytes[1..]);
    assert Cp1252All(bytes[1..]) == [Cp1252(bytes[1])] + Cp1252All(bytes[2..]);
    assert Cp1252All(bytes[2..]) == [Cp1252(bytes[2])] + Cp1252All(bytes[3..]);
    assert Cp1252All(bytes[3..]) == [Cp1252(bytes[3])] + Cp1252All(bytes[4..]);
  }

  /** The bullet U+2022 comes out as `â€¢`. */
  lemma BulletMisread()
    ensures Misread("\U{2022}") == "\U{00E2}\U{20AC}\U{00A2}"
  {
    assert Utf8('\U{2022}') == [0xE2, 0x80, 0xA2];
    var bytes := [0xE2, 0x80, 0xA2];
    assert Misread("\U{2022}") == Cp1252All(bytes) + Misread("");
    assert Cp1252All(bytes) == [Cp1252(bytes[0])] + Cp1252All(bytes[1..]);
    assert Cp1252All(bytes[1..]) == [Cp1252(bytes[1])] + Cp1252All(bytes[2..]);
    assert Cp1252All(bytes[2..]) == [Cp1252(bytes[2])] + Cp1252All(bytes[3..]);
  }
}
