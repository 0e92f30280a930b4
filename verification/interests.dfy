/** The interest-list updates the profile forms share: the toggle used by
    ChildIntakeForm and ChildEditForm, the checkbox add/remove used by
    SignupFormSection and AddChildForm, and the parsing of the free-text
    "additional interests" field. */
module Interests {
  import opened Strings

  predicate NoDuplicates(xs: seq<string>) {
    forall i, j :: 0 <= i < j < |xs| ==> xs[i] != xs[j]
  }

  /** `a` is `b` with some elements left out, the rest in their order. */
  predicate IsSubsequence(a: seq<string>, b: seq<string>)
    decreases |b|
  {
    if |a| == 0 then true
    else if |b| == 0 then false
    else if a[0] == b[0] then IsSubsequence(a[1..], b[1..])
    else IsSubsequence(a, b[1..])
  }

  /** `xs.filter(i => i !== x)`: every occurrence of `x` removed, the other
      entries kept with their multiplicities. */
  function RemoveAll(xs: seq<string>, x: string): (r: seq<string>)
    ensures x !in r
    ensures forall y :: y != x ==> (y in r <==> y in xs)
    ensures forall y :: y != x ==> multiset(r)[y] == multiset(xs)[y]
    ensures |r| == |xs| - multiset(xs)[x]
    decreases |xs|
  {
    if |xs| == 0 then []
    else
      assert xs == [xs[0]] + xs[1..];
      if xs[0] == x then RemoveAll(xs[1..], x) else [xs[0]] + RemoveAll(xs[1..], x)
  }

  /** Filtering distributes over concatenation: the order of what is kept
      does not change. */
  lemma {:induction false} RemoveAllAppend(a: seq<string>, b: seq<string>, x: string)
    ensures RemoveAll(a + b, x) == RemoveAll(a, x) + RemoveAll(b, x)
    decreases |a|
  {
    if |a| > 0 {
      assert (a + b)[1..] == a[1..] + b;
      RemoveAllAppend(a[1..], b, x);
    } else {
      assert a + b == b;
    }
  }

  /** Removing a value that is not there changes nothing. */
  lemma {:induction false} RemoveAllAbsent(xs: seq<string>, x: string)
    requires x !in xs
    ensures RemoveAll(xs, x) == xs
    decreases |xs|
  {
    if |xs| > 0 {
      RemoveAllAbsent(xs[1..], x);
      assert [xs[0]] + xs[1..] == xs;
    }
  }

  /** The entries that remain are the original ones in their original order. */
  lemma {:induction false} RemoveAllSubsequence(xs: seq<string>, x: string)
    ensures IsSubsequence(RemoveAll(xs, x), xs)
    decreases |xs|
  {
    if |xs| > 0 {
      RemoveAllSubsequence(xs[1..], x);
      var r := RemoveAll(xs, x);
      if xs[0] != x {
        assert r[1..] == RemoveAll(xs[1..], x);
      } else if |r| > 0 {
        assert r[0] != x;
      }
    }
  }

  lemma {:induction false} RemoveAllKeepsNoDuplicates(xs: seq<string>, x: string)
    ensures NoDuplicates(xs) ==> NoDuplicates(RemoveAll(xs, x))
    decreases |xs|
  {
    if |xs| > 0 && NoDuplicates(xs) {
      assert NoDuplicates(xs[1..]) by {
        forall i, j | 0 <= i < j < |xs| - 1 ensures xs[1..][i] != xs[1..][j] {
          assert xs[1..][i] == xs[i + 1] && xs[1..][j] == xs[j + 1];
        }
      }
      RemoveAllKeepsNoDuplicates(xs[1..], x);
      assert xs[0] !in xs[1..] by {
        forall k | 0 <= k < |xs| - 1 ensures xs[1..][k] != xs[0] {
          assert xs[1..][k] == xs[k + 1];
        }
      }
    }
  }

  /** `handleInterestToggle`: a selected interest is removed (every
      occurrence), an unselected one is appended at the end. */
  function ToggleInterest(xs: seq<string>, x: string): (r: seq<string>)
    ensures x in r <==> x !in xs
    ensures forall y :: y != x ==> (y in r <==> y in xs)
    ensures x !in xs ==> r == xs + [x]
    ensures x !in xs ==> |r| == |xs| + 1 && r[..|xs|] == xs && r[|xs|] == x
    ensures x in xs ==> r == RemoveAll(xs, x)
    ensures x in xs ==> |r| < |xs| && IsSubsequence(r, xs)
    ensures NoDuplicates(xs) ==> NoDuplicates(r)
  {
    if x in xs then
      RemoveAllSubsequence(xs, x);
      RemoveAllKeepsNoDuplicates(xs, x);
      RemoveAll(xs, x)
    else
      assert (xs + [x])[..|xs|] == xs;
      xs + [x]
  }

  /** Toggling an unselected interest twice restores the list. */
  lemma ToggleTwiceAbsent(xs: seq<string>, x: string)
    requires x !in xs
    ensures ToggleInterest(ToggleInterest(xs, x), x) == xs
  {
    RemoveAllAppend(xs, [x], x);
    RemoveAllAbsent(xs, x);
  }

  /** Toggling a selected interest twice moves one copy of it to the end. */
  lemma ToggleTwicePresent(xs: seq<string>, x: string)
    requires x in xs
    ensures ToggleInterest(ToggleInterest(xs, x), x) == RemoveAll(xs, x) + [x]
  {
  }

  /** `handleInterestChange(interest, checked)`: checking appends without
      looking for an existing copy, unchecking removes every copy. */
  function CheckInterest(xs: seq<string>, x: string, checked: bool): (r: seq<string>)
    ensures checked ==> multiset(r)[x] == multiset(xs)[x] + 1 && |r| == |xs| + 1 && r[..|xs|] == xs && r[|xs|] == x
    ensures !checked ==> r == RemoveAll(xs, x)
    ensures !checked ==> x !in r && IsSubsequence(r, xs)
    ensures forall y :: y != x ==> multiset(r)[y] == multiset(xs)[y]
  {
    if checked then
      assert (xs + [x])[..|xs|] == xs;
      xs + [x]
    else
      RemoveAllSubsequence(xs, x);
      RemoveAll(xs, x)
  }

  /** Where the checkbox shows the current membership, a click reports the
      opposite state, and then the checkbox update is the toggle. */
  lemma CheckboxClickIsToggle(xs: seq<string>, x: string)
    ensures CheckInterest(xs, x, x !in xs) == ToggleInterest(xs, x)
  {
  }

  /** Trims each piece and keeps the non-empty results, in order. */
  function TrimPieces(pieces: seq<string>): (r: seq<string>)
    ensures |r| <= |pieces|
    ensures forall i :: 0 <= i < |r| ==> r[i] != "" && IsTrimmed(r[i])
    decreases |pieces|
  {
    if |pieces| == 0 then []
    else
      var t := Trim(pieces[0]);
      if t == "" then TrimPieces(pieces[1..]) else [t] + TrimPieces(pieces[1..])
  }

  /** `text.split(',').map(i => i.trim()).filter(i => i)`. */
  function ParseCustomInterests(text: string): seq<string> {
    TrimPieces(Split(text, ","))
  }

  /** Every character of a trimmed piece comes from the piece. */
  lemma TrimSubset(s: string, c: char)
    ensures c in Trim(s) ==> c in s
  {
    var r := Trim(s);
    if c in r {
      var k :| 0 <= k < |r| && r[k] == c;
      assert s[LeadingSpace(s) + k] == c;
    }
  }

  lemma {:induction false} TrimPiecesFree(pieces: seq<string>, c: char)
    requires forall p :: p in pieces ==> c !in p
    ensures forall p :: p in TrimPieces(pieces) ==> c !in p
    decreases |pieces|
  {
    if |pieces| > 0 {
      TrimSubset(pieces[0], c);
      TrimPiecesFree(pieces[1..], c);
    }
  }

  lemma {:induction false} TrimPiecesBlank(pieces: seq<string>)
    requires forall p :: p in pieces ==> AllWhitespace(p)
    ensures TrimPieces(pieces) == []
    decreases |pieces|
  {
    if |pieces| > 0 {
      TrimEmptyIff(pieces[0]);
      TrimPiecesBlank(pieces[1..]);
    }
  }

  /** Every character of a piece occurs in the text that was split. */
  lemma {:induction false} SplitPiecesFromText(s: string, d: string, c: char)
    requires |d| > 0
    ensures forall p :: p in Split(s, d) && c in p ==> c in s
    decreases |s|
  {
    if |s| > 0 {
      if d <= s {
        SplitPiecesFromText(s[|d|..], d, c);
        assert forall p :: p in Split(s, d) ==> p == "" || p in Split(s[|d|..], d);
      } else {
        SplitPiecesFromText(s[1..], d, c);
        var rest := Split(s[1..], d);
        assert forall p :: p in Split(s, d) ==> p == [s[0]] + rest[0] || p in rest;
        assert rest[0] in rest;
      }
    }
  }

  /** The parsed interests are non-empty, trimmed, and contain no comma. */
  lemma CustomInterestsWellFormed(text: string)
    ensures forall p :: p in ParseCustomInterests(text) ==> p != "" && IsTrimmed(p) && ',' !in p
  {
    SplitPiecesFree(text, ',');
    TrimPiecesFree(Split(text, ","), ',');
    var r := ParseCustomInterests(text);
    forall p | p in r ensures p != "" && IsTrimmed(p) {
      var i :| 0 <= i < |r| && r[i] == p;
    }
  }

  /** Whitespace-only text adds no interest. */
  lemma BlankCustomInterests(text: string)
    ensures AllWhitespace(text) ==> ParseCustomInterests(text) == []
  {
    if AllWhitespace(text) {
      forall p | p in Split(text, ",") ensures AllWhitespace(p) {
        forall k | 0 <= k < |p| ensures IsWhitespace(p[k]) {
          assert p[k] in p;
          SplitPiecesFromText(text, ",", p[k]);
        }
      }
      TrimPiecesBlank(Split(text, ","));
    }
  }

  /** Text without a comma and with some visible character is one interest,
      trimmed. */
  lemma SingleCustomInterest(text: string)
    requires ',' !in text && Trim(text) != ""
    ensures ParseCustomInterests(text) == [Trim(text)]
  {
    SplitAbsent(text, ',');
  }

  /** The intake form's combination: checked interests first, then the
      custom ones, but only when the custom field is not blank after trimming. */
  function CombineInterests(checked: seq<string>, custom: string): (r: seq<string>)
    ensures |r| >= |checked| && r[..|checked|] == checked
    ensures r[|checked|..] == ParseCustomInterests(custom)
  {
    if Trim(custom) != "" then
      assert (checked + ParseCustomInterests(custom))[..|checked|] == checked;
      checked + ParseCustomInterests(custom)
    else
      TrimEmptyIff(custom);
      BlankCustomInterests(custom);
      checked
  }
}
