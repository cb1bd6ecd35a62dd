/** The legal and privacy pages: a section's text is split on newlines and
    each line is rendered followed by a line break, except the last; the
    sections fade in one after the other. */
module LegalContent {
  import opened Text

  /** One rendered `<span>`: the line and whether a `<br />` follows it. */
  datatype Segment = Segment(line: string, breakAfter: bool)

  /** `text.split('\n')`: the maximal newline-free pieces, in order. */
  function SplitLines(text: string): (lines: seq<string>)
    ensures |lines| >= 1
    ensures forall i :: 0 <= i < |lines| ==> '\n' !in lines[i]
  {
    if '\n' !in text then [text]
    else
      var i := IndexOf(text, '\n');
      [text[..i]] + SplitLines(text[i + 1..])
  }

  /** The lines put back together with newlines between them. */
  function JoinLines(lines: seq<string>): string
    requires |lines| >= 1
  {
    if |lines| == 1 then lines[0] else lines[0] + "\n" + JoinLines(lines[1..])
  }

  /** `renderText`: one segment per line, in order, with a break after every
      line but the last. */
  function RenderText(text: string): (segments: seq<Segment>)
    ensures |segments| == |SplitLines(text)|
    ensures forall i :: 0 <= i < |segments| ==>
      segments[i].line == SplitLines(text)[i] && (segments[i].breakAfter <==> i < |segments| - 1)
  {
    var lines := SplitLines(text);
    seq(|lines|, i requires 0 <= i < |lines| => Segment(lines[i], i < |lines| - 1))
  }

  function CountBreaks(segments: seq<Segment>): nat {
    if segments == [] then 0 else (if segments[0].breakAfter then 1 else 0) + CountBreaks(segments[1..])
  }

  /** Splitting then joining gives the text back. */
  lemma {:induction false} JoinSplit(text: string)
    ensures JoinLines(SplitLines(text)) == text
    decreases |text|
  {
    if '\n' in text {
      var i := IndexOf(text, '\n');
      var rest := text[i + 1..];
      JoinSplit(rest);
      assert SplitLines(text)[1..] == SplitLines(rest);
      assert text == text[..i] + "\n" + rest;
    }
  }

  /** Conversely, the split is the only list of newline-free lines that
      joins back to the text. */
  lemma {:induction false} SplitUnique(lines: seq<string>)
    requires |lines| >= 1
    requires forall i :: 0 <= i < |lines| ==> '\n' !in lines[i]
    ensures SplitLines(JoinLines(lines)) == lines
  {
    var text := JoinLines(lines);
    if |lines| == 1 {
      assert text == lines[0];
    } else {
      var rest := lines[1..];
      assert forall i :: 0 <= i < |rest| ==> rest[i] == lines[i + 1];
      SplitUnique(rest);
      var n := |lines[0]|;
      assert text == lines[0] + "\n" + JoinLines(rest);
      assert text[n] == '\n';
      assert text[..n] == lines[0];
      assert '\n' in text;
      IndexOfUnique(text, '\n', n);
      assert text[n + 1..] == JoinLines(rest);
    }
  }

  /** There is one more line than there are newlines. */
  lemma {:induction false} LineCount(text: string)
    ensures |SplitLines(text)| == Count(text, '\n') + 1
    decreases |text|
  {
    if '\n' in text {
      var i := IndexOf(text, '\n');
      LineCount(text[i + 1..]);
      CountAppend(text[..i], text[i..], '\n');
      assert text == text[..i] + text[i..];
      assert text[i..][1..] == text[i + 1..];
    }
  }

  /** A segment list whose breaks follow every element but the last has one
      break fewer than it has elements. */
  lemma {:induction false} BreaksBeforeLast(segments: seq<Segment>)
    requires |segments| >= 1
    requires forall i :: 0 <= i < |segments| ==> (segments[i].breakAfter <==> i < |segments| - 1)
    ensures CountBreaks(segments) == |segments| - 1
  {
    if |segments| > 1 {
      var rest := segments[1..];
      assert forall i :: 0 <= i < |rest| ==> rest[i] == segments[i + 1];
      BreaksBeforeLast(rest);
    }
  }

  /** The rendered text has exactly as many line breaks as the text has newlines. */
  lemma BreaksMatchNewlines(text: string)
    ensures CountBreaks(RenderText(text)) == Count(text, '\n')
  {
    BreaksBeforeLast(RenderText(text));
    LineCount(text);
  }

  /** The lines of the rendered segments, joined with newlines, are the text. */
  lemma RenderRoundTrip(text: string)
    ensures var segments := RenderText(text);
      JoinLines(seq(|segments|, i requires 0 <= i < |segments| => segments[i].line)) == text
  {
    var segments := RenderText(text);
    assert seq(|segments|, i requires 0 <= i < |segments| => segments[i].line) == SplitLines(text);
    JoinSplit(text);
  }

  /** The transition delay of section `index`, in milliseconds. */
  function SectionDelay(index: nat): (ms: nat)
    ensures ms >= 300
  {
    300 + index * 150
  }

  /** Later sections start later, 150 ms apart. */
  lemma DelayIncreasing(i: nat, j: nat)
    requires i < j
    ensures SectionDelay(i) < SectionDelay(j)
    ensures SectionDelay(j) - SectionDelay(i) == 150 * (j - i)
  {
  }
}
