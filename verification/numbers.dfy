/** Conversions between integers and their decimal text: JavaScript's
    `Number.prototype.toString()` on an integer and the global `parseInt`
    with no radix argument. */
module Numbers {
  import opened Strings

  /** What `parseInt` returns: an integer, or `NaN` when no digit was found. */
  datatype ParsedInt = Int(value: int) | NaN

  function DigitChar(d: nat): char
    requires d < 10
  {
    "0123456789"[d]
  }

  /** Decimal digits of `n`, most significant first, no leading zeros. */
  function NatToString(n: nat): (r: string)
    ensures |r| >= 1
    ensures forall k :: 0 <= k < |r| ==> '0' <= r[k] <= '9'
    ensures n >= 10 ==> r[0] != '0'
    decreases n
  {
    if n < 10 then [DigitChar(n)] else NatToString(n / 10) + [DigitChar(n % 10)]
  }

  /** `n.toString()`: a minus sign for negative numbers, then the digits. */
  function IntToString(n: int): (r: string)
    ensures |r| >= 1
    ensures (r[0] == '-') <==> n < 0
  {
    if n < 0 then "-" + NatToString(-n) else NatToString(n)
  }

  /** The value of `c` as a digit of radix 36 (`0`-`9`, then `a`-`z` or
      `A`-`Z`), or -1 for any other character. */
  function DigitValue(c: char): int {
    if '0' <= c <= '9' then c as int - '0' as int
    else if 'a' <= c <= 'z' then c as int - 'a' as int + 10
    else if 'A' <= c <= 'Z' then c as int - 'A' as int + 10
    else -1
  }

  predicate IsDigitIn(c: char, radix: nat) {
    0 <= DigitValue(c) < radix
  }

  /** The length of the run of radix digits `s` starts with. */
  function DigitRun(s: string, radix: nat): (n: nat)
    ensures n <= |s|
    ensures forall k :: 0 <= k < n ==> IsDigitIn(s[k], radix)
    ensures n == |s| || !IsDigitIn(s[n], radix)
    decreases |s|
  {
    if |s| > 0 && IsDigitIn(s[0], radix) then 1 + DigitRun(s[1..], radix) else 0
  }

  /** The number a string of radix digits denotes, most significant first. */
  function DigitsValue(ds: string, radix: nat): nat
    requires forall k :: 0 <= k < |ds| ==> IsDigitIn(ds[k], radix)
    decreases |ds|
  {
    if |ds| == 0 then 0
    else
      var high := DigitsValue(ds[..|ds| - 1], radix);
      assert IsDigitIn(ds[|ds| - 1], radix);
      assert high * radix >= 0;
      high * radix + DigitValue(ds[|ds| - 1])
  }

  /** The text `parseInt` reads digits from: leading whitespace and one sign
      removed. */
  function Unsigned(s: string): string {
    var t := s[LeadingSpace(s)..];
    if |t| > 0 && (t[0] == '-' || t[0] == '+') then t[1..] else t
  }

  predicate HasHexPrefix(u: string) {
    |u| >= 2 && u[0] == '0' && (u[1] == 'x' || u[1] == 'X')
  }

  /** `parseInt(s)` (section 19.2.5 of ECMA-262): skip leading whitespace,
      take one optional sign, read hexadecimal after a `0x`/`0X` prefix and
      decimal otherwise, stop at the first character that is not a digit,
      and yield `NaN` when there was no digit at all. */
  function ParseInt(s: string): (r: ParsedInt)
    ensures r == NaN <==>
      DigitRun(if HasHexPrefix(Unsigned(s)) then Unsigned(s)[2..] else Unsigned(s),
               if HasHexPrefix(Unsigned(s)) then 16 else 10) == 0
  {
    var t := s[LeadingSpace(s)..];
    var negative := |t| > 0 && t[0] == '-';
    var u := Unsigned(s);
    var hex := HasHexPrefix(u);
    var radix := if hex then 16 else 10;
    var w := if hex then u[2..] else u;
    var k := DigitRun(w, radix);
    if k == 0 then NaN
    else
      var m: int := DigitsValue(w[..k], radix);
      Int(if negative then -m else m)
  }

  lemma {:induction false} NatToStringValue(n: nat)
    ensures DigitsValue(NatToString(n), 10) == n
    decreases n
  {
    var r := NatToString(n);
    if n >= 10 {
      NatToStringValue(n / 10);
      assert r[..|r| - 1] == NatToString(n / 10);
    }
  }

  lemma DecimalDigitsRun(s: string)
    requires forall k :: 0 <= k < |s| ==> '0' <= s[k] <= '9'
    ensures DigitRun(s, 10) == |s|
  {
  }

  /** Printing an integer and parsing the text back gives the integer. */
  lemma ParseIntToString(n: int)
    ensures ParseInt(IntToString(n)) == Int(n)
  {
    var s := IntToString(n);
    var m: nat := if n < 0 then -n else n;
    var digits := NatToString(m);
    assert !IsWhitespace(s[0]);
    assert LeadingSpace(s) == 0;
    assert s[0..] == s;
    assert Unsigned(s) == digits;
    assert !HasHexPrefix(digits);
    DecimalDigitsRun(digits);
    assert digits[..|digits|] == digits;
    NatToStringValue(m);
  }

  /** Parsing stops at the first non-digit: text after the number is ignored. */
  lemma ParseIntIgnoresTail(n: nat, tail: string)
    requires |tail| == 0 || !IsDigitIn(tail[0], 10)
    requires n >= 1 || |tail| == 0 || (tail[0] != 'x' && tail[0] != 'X')
    ensures ParseInt(NatToString(n) + tail) == Int(n)
  {
    var digits := NatToString(n);
    var s := digits + tail;
    assert s[0] == digits[0];
    assert LeadingSpace(s) == 0;
    assert s[0..] == s;
    assert Unsigned(s) == s;
    if |digits| >= 2 { assert s[1] == digits[1]; }
    assert !HasHexPrefix(s);
    DecimalDigitsRun(digits);
    var k := DigitRun(s, 10);
    assert forall i :: 0 <= i < |digits| ==> s[i] == digits[i];
    assert |s| > |digits| ==> s[|digits|] == tail[0];
    assert s[..k] == digits;
    NatToStringValue(n);
  }

  /** The digits of `m` followed by a tail that does not continue them read
      as a decimal run worth `m`. */
  lemma DigitsThenTail(m: nat, tail: string)
    requires |tail| == 0 || (!IsDigitIn(tail[0], 10) && tail[0] != 'x' && tail[0] != 'X')
    ensures
      var u := NatToString(m) + tail;
      && !HasHexPrefix(u)
      && DigitRun(u, 10) == |NatToString(m)|
      && DigitsValue(u[..|NatToString(m)|], 10) == m
  {
    var digits := NatToString(m);
    var u := digits + tail;
    assert u[0] == digits[0];
    if |digits| >= 2 { assert u[1] == digits[1]; }
    DecimalDigitsRun(digits);
    assert forall i :: 0 <= i < |digits| ==> u[i] == digits[i];
    assert |u| > |digits| ==> u[|digits|] == tail[0];
    assert u[..|digits|] == digits;
    NatToStringValue(m);
  }

  /** The same for a signed integer: `parseInt` of the printed integer
      followed by text that does not continue the number gives the integer. */
  lemma ParseIntToStringThen(n: int, tail: string)
    requires |tail| == 0 || (!IsDigitIn(tail[0], 10) && tail[0] != 'x' && tail[0] != 'X')
    ensures ParseInt(IntToString(n) + tail) == Int(n)
  {
    var m: nat := if n < 0 then -n else n;
    var u := NatToString(m) + tail;
    var s := IntToString(n) + tail;
    assert !IsWhitespace(s[0]);
    assert LeadingSpace(s) == 0;
    assert s[0..] == s;
    if n < 0 {
      assert s == "-" + u;
      assert s[1..] == u;
    } else {
      assert s == u;
    }
    assert Unsigned(s) == u;
    DigitsThenTail(m, tail);
  }

  function Pow10(w: nat): nat {
    if w == 0 then 1 else 10 * Pow10(w - 1)
  }

  lemma {:induction false} NatToStringLength(n: nat, w: nat)
    requires w >= 1 && n < Pow10(w)
    ensures |NatToString(n)| <= w
    decreases w
  {
    if n >= 10 {
      assert w >= 2;
      NatToStringLength(n / 10, w - 1);
    }
  }

  lemma PadLength(n: nat, width: nat)
    ensures n < Pow10(width) && width >= 1 ==> |NatToString(n)| <= width
  {
    if n < Pow10(width) && width >= 1 { NatToStringLength(n, width); }
  }

  /** `n` in decimal, left-padded with zeros to at least `width` characters
      (`String(n).padStart(width, '0')`). */
  function ZeroPad(n: nat, width: nat): (r: string)
    ensures forall k :: 0 <= k < |r| ==> '0' <= r[k] <= '9'
    ensures |r| >= width
    ensures n < Pow10(width) && width >= 1 ==> |r| == width
  {
    var digits := NatToString(n);
    PadLength(n, width);
    if |digits| >= width then digits else seq(width - |digits|, _ => '0') + digits
  }
}
