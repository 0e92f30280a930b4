/** String operations the JavaScript code relies on, over `seq<char>`:
    substring search, `Array.prototype.join`, `String.prototype.split`
    with a string separator, and `String.prototype.trim`. */
module Strings {

  /** `d` occurs in `s` starting at index `i`. */
  predicate OccursAt(s: string, d: string, i: int) {
    0 <= i && i + |d| <= |s| && s[i..i + |d|] == d
  }

  /** `d` is a substring of `s` (JavaScript `s.includes(d)`). */
  predicate Contains(s: string, d: string) {
    exists i | 0 <= i <= |s| :: OccursAt(s, d, i)
  }

  lemma ContainsMiddle(a: string, b: string, c: string)
    ensures Contains(a + b + c, b)
  {
    assert (a + b + c)[|a|..|a| + |b|] == b;
    assert OccursAt(a + b + c, b, |a|);
  }

  lemma ContainsSuffix(a: string, b: string)
    ensures Contains(a + b, b)
  {
    assert (a + b)[|a|..|a| + |b|] == b;
    assert OccursAt(a + b, b, |a|);
  }

  lemma ContainsPrefix(a: string, b: string)
    ensures Contains(a + b, a)
  {
    assert (a + b)[0..|a|] == a;
    assert OccursAt(a + b, a, 0);
  }

  /** A substring of a substring is a substring. */
  lemma ContainsTransitive(s: string, t: string, d: string)
    requires Contains(s, t) && Contains(t, d)
    ensures Contains(s, d)
  {
    var i :| 0 <= i <= |s| && OccursAt(s, t, i);
    var j :| 0 <= j <= |t| && OccursAt(t, d, j);
    assert i + |t| <= |s| && j + |d| <= |t|;
    assert s[i..i + |t|] == t;
    forall k | 0 <= k < |d| ensures s[i + j + k] == d[k] {
      assert t[j + k] == d[k];
      assert s[i..i + |t|][j + k] == s[i + j + k];
    }
    assert s[i + j..i + j + |d|] == d;
    assert OccursAt(s, d, i + j);
  }

  /** A substring of the tail is a substring of the whole. */
  lemma ContainsTail(s: string, d: string)
    requires |s| > 0
    ensures Contains(s[1..], d) ==> Contains(s, d)
  {
    if Contains(s[1..], d) {
      var i :| 0 <= i <= |s| - 1 && OccursAt(s[1..], d, i);
      assert s[i + 1..i + 1 + |d|] == s[1..][i..i + |d|];
      assert OccursAt(s, d, i + 1);
    }
  }

  /** Slicing inside the right operand of a concatenation. */
  lemma SliceRight(a: string, b: string, x: int, y: int)
    requires 0 <= x <= y <= |b|
    ensures (a + b)[|a| + x..|a| + y] == b[x..y]
  {
  }

  // ---------------------------------------------------------------- join

  /** `parts.join(sep)`: the parts in order with `sep` between neighbours. */
  function Join(parts: seq<string>, sep: string): string
    decreases |parts|
  {
    if |parts| == 0 then ""
    else if |parts| == 1 then parts[0]
    else parts[0] + sep + Join(parts[1..], sep)
  }

  /** Where part `i` starts in `Join(parts, sep)`. */
  function JoinOffset(parts: seq<string>, sep: string, i: nat): nat
    requires i <= |parts|
  {
    if i == 0 then 0 else JoinOffset(parts, sep, i - 1) + |parts[i - 1]| + |sep|
  }

  lemma {:induction false} JoinOffsetTail(parts: seq<string>, sep: string, i: nat)
    requires 1 <= i <= |parts|
    ensures JoinOffset(parts, sep, i) == |parts[0]| + |sep| + JoinOffset(parts[1..], sep, i - 1)
    decreases i
  {
    if i > 1 {
      JoinOffsetTail(parts, sep, i - 1);
      assert parts[1..][i - 2] == parts[i - 1];
    }
  }

  /** Every part appears verbatim at its offset, in the original order. */
  lemma {:induction false} JoinAt(parts: seq<string>, sep: string, i: nat)
    requires i < |parts|
    ensures JoinOffset(parts, sep, i) + |parts[i]| <= |Join(parts, sep)|
    ensures Join(parts, sep)[JoinOffset(parts, sep, i)..JoinOffset(parts, sep, i) + |parts[i]|] == parts[i]
    decreases i
  {
    var j := Join(parts, sep);
    if i == 0 {
      if |parts| > 1 {
        assert j == parts[0] + (sep + Join(parts[1..], sep));
      }
    } else {
      var rest := Join(parts[1..], sep);
      var head := parts[0] + sep;
      assert j == head + rest;
      JoinAt(parts[1..], sep, i - 1);
      JoinOffsetTail(parts, sep, i);
      assert parts[1..][i - 1] == parts[i];
      var o := JoinOffset(parts[1..], sep, i - 1);
      SliceRight(head, rest, o, o + |parts[i]|);
      assert JoinOffset(parts, sep, i) == |head| + o;
    }
  }

  /** Exactly `sep` separates part `i` from part `i + 1`. */
  lemma {:induction false} JoinSeparatorAt(parts: seq<string>, sep: string, i: nat)
    requires i + 1 < |parts|
    ensures JoinOffset(parts, sep, i + 1) <= |Join(parts, sep)|
    ensures Join(parts, sep)[JoinOffset(parts, sep, i) + |parts[i]|..JoinOffset(parts, sep, i + 1)] == sep
    decreases i
  {
    var rest := Join(parts[1..], sep);
    var head := parts[0] + sep;
    assert Join(parts, sep) == head + rest;
    if i == 0 {
      assert (head + rest)[|parts[0]|..|head|] == sep;
    } else {
      JoinSeparatorAt(parts[1..], sep, i - 1);
      JoinOffsetTail(parts, sep, i);
      JoinOffsetTail(parts, sep, i + 1);
      assert parts[1..][i - 1] == parts[i];
      var o := JoinOffset(parts[1..], sep, i - 1) + |parts[i]|;
      SliceRight(head, rest, o, JoinOffset(parts[1..], sep, i));
    }
  }

  /** Text put in front of the first part comes out in front of the join. */
  lemma JoinPrependFirst(pre: string, parts: seq<string>, sep: string)
    requires |parts| >= 1
    ensures Join([pre + parts[0]] + parts[1..], sep) == pre + Join(parts, sep)
  {
    if |parts| > 1 {
      assert ([pre + parts[0]] + parts[1..])[1..] == parts[1..];
    }
  }

  /** Each part of a join is a substring of the joined text. */
  lemma JoinContainsPart(parts: seq<string>, sep: string, i: nat)
    requires i < |parts|
    ensures Contains(Join(parts, sep), parts[i])
  {
    JoinAt(parts, sep, i);
    assert OccursAt(Join(parts, sep), parts[i], JoinOffset(parts, sep, i));
  }

  /** Two neighbouring parts appear joined by exactly `sep`. */
  lemma JoinContainsPair(parts: seq<string>, sep: string, i: nat)
    requires i + 1 < |parts|
    ensures Contains(Join(parts, sep), parts[i] + sep + parts[i + 1])
  {
    var j := Join(parts, sep);
    JoinAt(parts, sep, i);
    JoinAt(parts, sep, i + 1);
    JoinSeparatorAt(parts, sep, i);
    var o := JoinOffset(parts, sep, i);
    var e := JoinOffset(parts, sep, i + 1) + |parts[i + 1]|;
    assert j[o..e] == j[o..o + |parts[i]|] + j[o + |parts[i]|..JoinOffset(parts, sep, i + 1)]
      + j[JoinOffset(parts, sep, i + 1)..e];
    assert OccursAt(j, parts[i] + sep + parts[i + 1], o);
  }

  // --------------------------------------------------------------- split

  /** `s.split(d)` for a non-empty string separator: scanning left to right,
      every occurrence of `d` ends one piece and starts the next. The empty
      string splits into one empty piece. */
  function Split(s: string, d: string): (parts: seq<string>)
    requires |d| > 0
    ensures |parts| >= 1
    decreases |s|
  {
    if |s| == 0 then [""]
    else if d <= s then [""] + Split(s[|d|..], d)
    else
      var rest := Split(s[1..], d);
      [[s[0]] + rest[0]] + rest[1..]
  }

  /** Joining the pieces with the separator gives back the original text. */
  lemma {:induction false} JoinSplit(s: string, d: string)
    requires |d| > 0
    ensures Join(Split(s, d), d) == s
    decreases |s|
  {
    if |s| == 0 {
    } else if d <= s {
      JoinSplit(s[|d|..], d);
      JoinSplitAtSeparator(s, d);
    } else {
      JoinSplit(s[1..], d);
      JoinSplitAtChar(s, d);
    }
  }

  /** The step of `JoinSplit` where the text starts with the separator. */
  lemma JoinSplitAtSeparator(s: string, d: string)
    requires |d| > 0 && |s| > 0 && d <= s
    requires Join(Split(s[|d|..], d), d) == s[|d|..]
    ensures Join(Split(s, d), d) == s
  {
    var rest := Split(s[|d|..], d);
    var parts := [""] + rest;
    assert Split(s, d) == parts;
    assert |parts| >= 2 && parts[0] == "" && parts[1..] == rest;
    assert Join(parts, d) == parts[0] + d + Join(parts[1..], d);
    PrefixRest(s, d);
  }

  /** A text that starts with `d` is `d` followed by the rest. */
  lemma PrefixRest(s: string, d: string)
    requires d <= s
    ensures "" + d + s[|d|..] == s
  {
    assert s[..|d|] == d;
    assert s == s[..|d|] + s[|d|..];
  }

  /** The step of `JoinSplit` where the text starts with an ordinary
      character. */
  lemma JoinSplitAtChar(s: string, d: string)
    requires |d| > 0 && |s| > 0 && !(d <= s)
    requires Join(Split(s[1..], d), d) == s[1..]
    ensures Join(Split(s, d), d) == s
  {
    var rest := Split(s[1..], d);
    assert Split(s, d) == [[s[0]] + rest[0]] + rest[1..];
    JoinPrependFirst([s[0]], rest, d);
    HeadRest(s);
  }

  lemma HeadRest(s: string)
    requires |s| > 0
    ensures [s[0]] + s[1..] == s
  {
  }

  /** With a one-character separator no piece contains that character. */
  lemma {:induction false} SplitPiecesFree(s: string, c: char)
    ensures forall p :: p in Split(s, [c]) ==> c !in p
    decreases |s|
  {
    if |s| == 0 {
    } else if [c] <= s {
      SplitPiecesFree(s[1..], c);
    } else {
      SplitPiecesFree(s[1..], c);
      var rest := Split(s[1..], [c]);
      assert rest[0] in rest;
      forall p | p in Split(s, [c]) ensures c !in p {
        if p != [s[0]] + rest[0] {
          assert p in rest[1..];
        }
      }
    }
  }

  /** Text without the separator character is one piece. */
  lemma {:induction false} SplitAbsent(s: string, c: char)
    requires c !in s
    ensures Split(s, [c]) == [s]
    decreases |s|
  {
    if |s| > 0 {
      assert s[0] != c;
      assert !([c] <= s);
      SplitAbsent(s[1..], c);
      assert [s[0]] + s[1..] == s;
    }
  }

  /** The first piece is everything before the first separator character. */
  lemma {:induction false} SplitFirstPiece(a: string, c: char, b: string)
    requires c !in a
    ensures Split(a + [c] + b, [c])[0] == a
    decreases |a|
  {
    var s := a + [c] + b;
    if |a| == 0 {
      assert [c] <= s;
    } else {
      assert s[0] == a[0] && a[0] != c;
      assert !([c] <= s);
      assert s[1..] == a[1..] + [c] + b;
      SplitFirstPiece(a[1..], c, b);
      assert [a[0]] + a[1..] == a;
    }
  }

  // ---------------------------------------------------------------- trim

  /** ECMAScript's WhiteSpace and LineTerminator code points: the set that
      `trim` removes and `parseInt` skips (section 12.2 and 12.3 of
      ECMA-262, with the Unicode `Zs` category written out). */
  predicate IsWhitespace(c: char) {
    c == '\t' || c == '\n' || c == '\U{000B}' || c == '\U{000C}' || c == '\r' ||
    c == ' ' || c == '\U{00A0}' || c == '\U{1680}' ||
    ('\U{2000}' <= c <= '\U{200A}') ||
    c == '\U{2028}' || c == '\U{2029}' || c == '\U{202F}' || c == '\U{205F}' ||
    c == '\U{3000}' || c == '\U{FEFF}'
  }

  predicate AllWhitespace(s: string) {
    forall k :: 0 <= k < |s| ==> IsWhitespace(s[k])
  }

  /** Neither end of `s` is whitespace. */
  predicate IsTrimmed(s: string) {
    |s| == 0 || (!IsWhitespace(s[0]) && !IsWhitespace(s[|s| - 1]))
  }

  /** The number of whitespace characters `s` starts with. */
  function LeadingSpace(s: string): (n: nat)
    ensures n <= |s| && AllWhitespace(s[..n])
    ensures n == |s| || !IsWhitespace(s[n])
    decreases |s|
  {
    if |s| > 0 && IsWhitespace(s[0]) then
      var k := LeadingSpace(s[1..]);
      assert s[..k + 1] == [s[0]] + s[1..][..k];
      k + 1
    else 0
  }

  /** The number of whitespace characters `s` ends with. */
  function TrailingSpace(s: string): (n: nat)
    ensures n <= |s| && AllWhitespace(s[|s| - n..])
    ensures n == |s| || !IsWhitespace(s[|s| - n - 1])
    decreases |s|
  {
    if |s| > 0 && IsWhitespace(s[|s| - 1]) then
      var k := TrailingSpace(s[..|s| - 1]);
      assert s[|s| - (k + 1)..] == s[..|s| - 1][|s| - 1 - k..] + [s[|s| - 1]];
      k + 1
    else 0
  }

  /** `s.trim()`: `s` without its leading and trailing whitespace. The result
      is the slice of `s` that starts after the leading whitespace and is
      followed only by whitespace. */
  function Trim(s: string): (r: string)
    ensures IsTrimmed(r)
    ensures LeadingSpace(s) + |r| <= |s|
    ensures r == s[LeadingSpace(s)..LeadingSpace(s) + |r|]
    ensures AllWhitespace(s[LeadingSpace(s) + |r|..])
  {
    var t := s[LeadingSpace(s)..];
    var r := t[..|t| - TrailingSpace(t)];
    assert s[LeadingSpace(s) + |r|..] == t[|t| - TrailingSpace(t)..];
    r
  }

  /** Trimming yields the empty string exactly for whitespace-only text. */
  lemma TrimEmptyIff(s: string)
    ensures Trim(s) == "" <==> AllWhitespace(s)
  {
    if Trim(s) == "" {
      var n := LeadingSpace(s);
      assert s[..n] == s;
    }
  }

  /** Text that is already trimmed is left as it is. */
  lemma TrimTrimmed(s: string)
    requires IsTrimmed(s)
    ensures Trim(s) == s
  {
    if |s| > 0 {
      assert LeadingSpace(s) == 0;
    }
  }
}
