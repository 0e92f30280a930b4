/** The rendering rule both delivery paths share: the newsletter text with
    every newline replaced by a `<br>` line break and nothing else changed
    or escaped, placed in a document with a title, a heading, a greeting
    naming the child, the body and an optional footer. */
module Render {
  import opened Wrappers
  import opened Strings
  import opened Schema

  const BreakTag: string := "<br>"

  /** `text.replace(/\n/g, '<br>')`. */
  function NewlinesToBreaks(text: string): (r: string)
    ensures '\n' !in r
    ensures '\n' !in text ==> r == text
    ensures |r| >= |text|
    decreases |text|
  {
    if |text| == 0 then ""
    else if text[0] == '\n' then BreakTag + NewlinesToBreaks(text[1..])
    else [text[0]] + NewlinesToBreaks(text[1..])
  }

  /** Replacing every newline is the same as cutting the text into lines and
      joining the lines with `<br>`: one break per newline, no other change. */
  lemma {:induction false} BreaksJoinLines(text: string)
    ensures NewlinesToBreaks(text) == Join(Split(text, "\n"), BreakTag)
    decreases |text|
  {
    if |text| > 0 {
      BreaksJoinLines(text[1..]);
      var rest := Split(text[1..], "\n");
      if text[0] == '\n' {
        assert "\n" <= text;
        assert Split(text, "\n") == [""] + rest;
        assert ([""] + rest)[1..] == rest;
      } else {
        assert !("\n" <= text);
        JoinPrependFirst([text[0]], rest, BreakTag);
      }
    }
  }

  /** What the output starts with when it does not start with `<`: the same
      character, taken over from the input. */
  lemma BreaksHead(text: string)
    requires |NewlinesToBreaks(text)| > 0 && NewlinesToBreaks(text)[0] != '<'
    ensures |text| > 0 && text[0] == NewlinesToBreaks(text)[0]
    ensures NewlinesToBreaks(text)[1..] == NewlinesToBreaks(text[1..])
  {
  }

  /** The output starts with `br>` only if the input does: a `<br>` tag never
      supplies those three characters. */
  lemma BreaksNoTagTail(text: string)
    ensures "br>" <= NewlinesToBreaks(text) ==> "br>" <= text
  {
    if "br>" <= NewlinesToBreaks(text) {
      BreaksNoTagTailFrom(text);
    }
  }

  lemma BreaksNoTagTailFrom(text: string)
    requires "br>" <= NewlinesToBreaks(text)
    ensures "br>" <= text
  {
    var r := NewlinesToBreaks(text);
    BreaksHead(text);
    var t1 := text[1..];
    assert "r>" <= NewlinesToBreaks(t1);
    BreaksHead(t1);
    var t2 := t1[1..];
    assert ">" <= NewlinesToBreaks(t2);
    BreaksHead(t2);
    assert text[..3] == [text[0], t1[0], t2[0]];
  }

  /** Splitting the rendered body on `<br>` gives back the lines of the text,
      provided the text did not already contain a literal `<br>`. */
  lemma {:induction false} BreaksRoundTrip(text: string)
    requires !Contains(text, BreakTag)
    ensures Split(NewlinesToBreaks(text), BreakTag) == Split(text, "\n")
    decreases |text|
  {
    if |text| > 0 {
      var tail := text[1..];
      ContainsTail(text, BreakTag);
      BreaksRoundTrip(tail);
      var r := NewlinesToBreaks(text);
      if text[0] == '\n' {
        assert r == BreakTag + NewlinesToBreaks(tail);
        assert BreakTag <= r;
        assert r[|BreakTag|..] == NewlinesToBreaks(tail);
        assert "\n" <= text;
      } else {
        assert r == [text[0]] + NewlinesToBreaks(tail);
        BreaksNoTagTail(tail);
        assert BreakTag <= r ==> "br>" <= NewlinesToBreaks(tail);
        assert BreakTag <= r ==> text[..4] == BreakTag;
        assert BreakTag <= r ==> OccursAt(text, BreakTag, 0);
        assert !("\n" <= text);
        assert r[1..] == NewlinesToBreaks(tail);
      }
    }
  }

  /** `newsletter.content?.text || ''`: the stored text, or the empty string
      when the content or its `text` member is missing. */
  function ContentText(content: Option<Envelope>): (r: string)
    ensures content.Some? && content.value.text.Some? ==> r == content.value.text.value
    ensures content.None? || content.value.text.None? ==> r == ""
  {
    match content
    case Some(Envelope(Some(t))) => t
    case _ => ""
  }

  /** A rendered newsletter: the `<title>`, the `<h1>`, the greeting line of
      the header block, the converted body and the footer lines. Styling is
      left out. */
  datatype Document = Document(
    title: string,
    heading: string,
    greeting: string,
    body: string,
    footer: seq<string>)
}
