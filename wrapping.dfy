/**
 * The greedy line wrapper `wrapText` of src/QuoteMaking/Shapes/index.ts.
 *
 * The canvas context is reduced to what the wrapper asks of it: the width
 * of a string in the current font (`measure`) and the split of a token into
 * grapheme clusters (`graphemes`, `Intl.Segmenter` in the source). Both are
 * injected; nothing is assumed of them here.
 *
 * The functions below state what `wrapText` returns, loop by loop:
 * `PackGraphemes` is the per-grapheme loop, `PackTokens` the loop over the
 * tokens of one paragraph, `PackParagraphs` the loop over paragraphs and
 * `Ellipsize` the truncation at the end. The method `WrapText` is the
 * imperative algorithm itself, proved to return `Wrap`.
 */
module Wrapping {
  import opened Text

  /** The arguments of one `wrapText` call other than the text. */
  datatype Params = Params(
    measure: string -> real,
    graphemes: string -> seq<string>,
    maxWidth: real,
    maxLines: int,
    ellipsis: string)

  /** `measureText(s).width <= maxWidth`. */
  predicate Fits(p: Params, s: string) {
    p.measure(s) <= p.maxWidth
  }

  /** The wrapper's working state: the lines pushed so far and the open line `current`. */
  datatype Acc = Acc(lines: seq<string>, current: string)

  /** The default ellipsis, U+2026. */
  const Ellipsis: string := "\U{2026}"

  /** The default line limit. */
  const DefaultMaxLines := 20

  /**
   * The per-grapheme loop for a token too wide on its own: graphemes are
   * appended to `buf` while the result fits; otherwise `buf` is pushed
   * (trimmed) and the grapheme starts the next line; reaching `maxLines`
   * stops the loop with the grapheme left in `buf`.
   */
  function PackGraphemes(p: Params, lines: seq<string>, buf: string, chars: seq<string>): (r: Acc)
    ensures lines <= r.lines
    decreases |chars|
  {
    if chars == [] then Acc(lines, buf)
    else
      var ch := chars[0];
      if Fits(p, buf + ch) then PackGraphemes(p, lines, buf + ch, chars[1..])
      else if |lines| + 1 >= p.maxLines then Acc(lines + [TrimEnd(buf)], ch)
      else PackGraphemes(p, lines + [TrimEnd(buf)], ch, chars[1..])
  }

  /** `flush()`: push the open line, trimmed, when it is not empty. */
  function Flush(acc: Acc): (r: seq<string>)
    ensures acc.lines <= r && |r| <= |acc.lines| + 1
    ensures |r| == |acc.lines| + 1 <==> acc.current != ""
    ensures |r| > |acc.lines| ==> var last := r[|r| - 1]; !EndsInSpace(last) && |last| <= |acc.current| && last == acc.current[..|last|]
  {
    if acc.current != "" then acc.lines + [TrimEnd(acc.current)] else acc.lines
  }

  /**
   * A token that does not fit on the open line: broken into graphemes when it
   * does not fit on a line of its own either, otherwise it starts a new line
   * without its leading white space.
   */
  function Overflow(p: Params, acc: Acc, token: string): (r: Acc)
    ensures acc.lines <= r.lines
    ensures Fits(p, token) ==>
      && r.lines == Flush(acc)
      && (r.current == "" || !IsSpace(r.current[0]))
      && |r.current| <= |token| && r.current == token[|token| - |r.current|..]
  {
    if !Fits(p, token) then PackGraphemes(p, acc.lines, acc.current, p.graphemes(token))
    else Acc(Flush(acc), TrimStart(token))
  }

  /**
   * The loop over the tokens of one paragraph. A token that fits on the open
   * line is appended without looking at the line count; after any other
   * token the loop stops once `maxLines` lines were pushed.
   */
  function PackTokens(p: Params, acc: Acc, tokens: seq<string>): (r: Acc)
    ensures acc.lines <= r.lines
    decreases |tokens|
  {
    if tokens == [] then acc
    else if Fits(p, acc.current + tokens[0]) then
      PackTokens(p, Acc(acc.lines, acc.current + tokens[0]), tokens[1..])
    else
      var next := Overflow(p, acc, tokens[0]);
      if |next.lines| >= p.maxLines then next else PackTokens(p, next, tokens[1..])
  }

  /**
   * The loop over paragraphs. An empty paragraph pushes `""` without looking
   * at the line count; after a non-empty one the loop stops, before the open
   * line is flushed, once `maxLines` lines were pushed.
   */
  function PackParagraphs(p: Params, lines: seq<string>, paras: seq<string>): (r: seq<string>)
    ensures lines <= r
    decreases |paras|
  {
    if paras == [] then lines
    else if paras[0] == "" then PackParagraphs(p, lines + [""], paras[1..])
    else
      var acc := PackTokens(p, Acc(lines, ""), Tokens(paras[0]));
      if |acc.lines| >= p.maxLines then acc.lines
      else PackParagraphs(p, Flush(acc), paras[1..])
  }

  // ---------------------------------------------------------------------------
  // Every pushed line is trimmed

  /** No line ends in white space. */
  ghost predicate NoneEndsInSpace(lines: seq<string>) {
    forall i | 0 <= i < |lines| :: !EndsInSpace(lines[i])
  }

  lemma {:induction false} PackGraphemesTrimmed(p: Params, lines: seq<string>, buf: string, chars: seq<string>)
    requires NoneEndsInSpace(lines)
    ensures NoneEndsInSpace(PackGraphemes(p, lines, buf, chars).lines)
    decreases |chars|
  {
    if chars != [] {
      var ch := chars[0];
      if Fits(p, buf + ch) {
        PackGraphemesTrimmed(p, lines, buf + ch, chars[1..]);
      } else if |lines| + 1 < p.maxLines {
        PackGraphemesTrimmed(p, lines + [TrimEnd(buf)], ch, chars[1..]);
      }
    }
  }

  /** Flushing pushes the open line trimmed, so it does not end in white space. */
  lemma FlushTrimmed(acc: Acc)
    requires NoneEndsInSpace(acc.lines)
    ensures NoneEndsInSpace(Flush(acc))
  {
    if acc.current != "" {
      var l := Flush(acc);
      forall i | 0 <= i < |l|
        ensures !EndsInSpace(l[i])
      {
        if i < |acc.lines| {
          assert l[i] == acc.lines[i];
        }
      }
    }
  }

  lemma {:induction false} PackTokensTrimmed(p: Params, acc: Acc, tokens: seq<string>)
    requires NoneEndsInSpace(acc.lines)
    ensures NoneEndsInSpace(PackTokens(p, acc, tokens).lines)
    decreases |tokens|
  {
    if tokens != [] {
      var t := tokens[0];
      if Fits(p, acc.current + t) {
        assert PackTokens(p, acc, tokens) == PackTokens(p, Acc(acc.lines, acc.current + t), tokens[1..]);
        PackTokensTrimmed(p, Acc(acc.lines, acc.current + t), tokens[1..]);
      } else {
        var next := Overflow(p, acc, t);
        if !Fits(p, t) {
          assert next == PackGraphemes(p, acc.lines, acc.current, p.graphemes(t));
          PackGraphemesTrimmed(p, acc.lines, acc.current, p.graphemes(t));
        } else {
          assert next.lines == Flush(acc);
          FlushTrimmed(acc);
        }
        if |next.lines| < p.maxLines {
          assert PackTokens(p, acc, tokens) == PackTokens(p, next, tokens[1..]);
          PackTokensTrimmed(p, next, tokens[1..]);
        } else {
          assert PackTokens(p, acc, tokens) == next;
        }
      }
    }
  }

  lemma {:induction false} PackParagraphsTrimmed(p: Params, lines: seq<string>, paras: seq<string>)
    requires NoneEndsInSpace(lines)
    ensures NoneEndsInSpace(PackParagraphs(p, lines, paras))
    decreases |paras|
  {
    if paras != [] {
      if paras[0] == "" {
        PackParagraphsTrimmed(p, lines + [""], paras[1..]);
      } else {
        var acc := PackTokens(p, Acc(lines, ""), Tokens(paras[0]));
        PackTokensTrimmed(p, Acc(lines, ""), Tokens(paras[0]));
        if |acc.lines| < p.maxLines {
          PackParagraphsTrimmed(p, Flush(acc), paras[1..]);
        }
      }
    }
  }

  /**
   * The paragraphs of `text`: line endings normalised to LF, then split on
   * LF. There is at least one; none holds a CR or LF, and joined with LF they
   * give back the normalised text.
   */
  function Paragraphs(text: string): (ps: seq<string>)
    ensures |ps| >= 1
    ensures forall i | 0 <= i < |ps| :: '\r' !in ps[i] && '\n' !in ps[i]
    ensures Join(ps, '\n') == NormalizeNewlines(text)
  {
    var n := NormalizeNewlines(text);
    var ps := Split(n, '\n');
    JoinSplit(n, '\n');
    JoinExcludes(ps, '\n', '\r');
    ps
  }

  /** The lines accumulated before the ellipsis step: each went through `trimEnd`, or is empty. */
  function Accumulate(p: Params, text: string): (lines: seq<string>)
    ensures NoneEndsInSpace(lines)
  {
    PackParagraphsTrimmed(p, [], Paragraphs(text));
    PackParagraphs(p, [], Paragraphs(text))
  }

  /**
   * The shortening loop: drop the last character of `last` while `last` plus
   * the ellipsis does not fit and `last` is not empty. The result is the
   * longest prefix that fits with the ellipsis, or `""` when none does.
   */
  function ShortenToFit(p: Params, last: string): (r: string)
    ensures |r| <= |last| && r == last[..|r|]
    ensures Fits(p, r + p.ellipsis) || r == ""
    ensures forall k | |r| < k <= |last| :: !Fits(p, last[..k] + p.ellipsis)
    decreases |last|
  {
    if !Fits(p, last + p.ellipsis) && |last| > 0 then
      var r := ShortenToFit(p, last[..|last| - 1]);
      assert last[..|last|] == last;
      assert forall k | |r| < k < |last| :: last[..|last| - 1][..k] == last[..k];
      r
    else last
  }

  /**
   * Truncation: when more than `maxLines` lines were accumulated, keep the
   * first `maxLines`, shorten the last of them and append the ellipsis.
   */
  function Ellipsize(p: Params, lines: seq<string>): (r: seq<string>)
    requires p.maxLines >= 1
    ensures |r| <= p.maxLines
    ensures |lines| <= p.maxLines ==> r == lines
    ensures |lines| > p.maxLines ==> |r| == p.maxLines && r[..p.maxLines - 1] == lines[..p.maxLines - 1]
  {
    if |lines| > p.maxLines then
      lines[..p.maxLines - 1] + [ShortenToFit(p, lines[p.maxLines - 1]) + p.ellipsis]
    else lines
  }

  /** What `wrapText(ctx, text, maxWidth, maxLines, ellipsis)` returns. */
  function Wrap(p: Params, text: string): (r: seq<string>)
    requires p.maxLines >= 1
    ensures |r| <= p.maxLines
  {
    Ellipsize(p, Accumulate(p, text))
  }

  /**
   * `wrapText` as the source runs it: the lines array grows by pushes, the
   * open line and the grapheme buffer are reassigned, and the loops stop
   * early at `maxLines`. The body of the paragraph loop is `WrapParagraph`,
   * its grapheme loop `BreakToken`, the final truncation `ApplyEllipsis`;
   * `flush` is written out where it is called.
   */
  method WrapText(measure: string -> real, graphemes: string -> seq<string>, text: string,
                  maxWidth: real, maxLines: int, ellipsis: string)
    returns (lines: seq<string>)
    requires maxLines >= 1
    ensures lines == Wrap(Params(measure, graphemes, maxWidth, maxLines, ellipsis), text)
  {
    var p := Params(measure, graphemes, maxWidth, maxLines, ellipsis);
    lines := [];
    var paragraphs := Split(NormalizeNewlines(text), '\n');
    var j := 0;
    while j < |paragraphs|
      invariant 0 <= j <= |paragraphs|
      invariant PackParagraphs(p, lines, paragraphs[j..]) == Accumulate(p, text)
    {
      var para := paragraphs[j];
      if para == "" {
        lines := lines + [""];
        j := j + 1;
        continue;
      }
      var current;
      lines, current := WrapParagraph(p, lines, para);
      if |lines| >= maxLines {
        break;
      }
      if current != "" {
        lines := lines + [TrimEnd(current)];
        current := "";
      }
      j := j + 1;
    }
    lines := ApplyEllipsis(p, lines);
  }

  /** The truncation step at the end of `wrapText` (lines 90-100 of the source). */
  method ApplyEllipsis(p: Params, lines: seq<string>) returns (clipped: seq<string>)
    requires p.maxLines >= 1
    ensures clipped == Ellipsize(p, lines)
  {
    if |lines| <= p.maxLines {
      return lines;
    }
    clipped := lines[..p.maxLines];
    var last := clipped[|clipped| - 1];
    while p.measure(last + p.ellipsis) > p.maxWidth && |last| > 0
      invariant ShortenToFit(p, last) == ShortenToFit(p, clipped[|clipped| - 1])
      decreases |last|
    {
      last := last[..|last| - 1];
    }
    clipped := clipped[|clipped| - 1 := last + p.ellipsis];
    assert clipped == lines[..p.maxLines - 1] + [last + p.ellipsis];
  }

  /** The loop over the tokens of one non-empty paragraph (lines 47-84 of the source). */
  method WrapParagraph(p: Params, lines0: seq<string>, para: string)
    returns (lines: seq<string>, current: string)
    ensures Acc(lines, current) == PackTokens(p, Acc(lines0, ""), Tokens(para))
  {
    var words := Tokens(para);
    lines, current := lines0, "";
    var i := 0;
    while i < |words|
      invariant 0 <= i <= |words|
      invariant PackTokens(p, Acc(lines, current), words[i..]) == PackTokens(p, Acc(lines0, ""), words)
    {
      var token := words[i];
      var test := current + token;
      if p.measure(test) <= p.maxWidth {
        current := test;
        i := i + 1;
        continue;
      }
      ghost var before := Acc(lines, current);
      if p.measure(token) > p.maxWidth {
        lines, current := BreakToken(p, lines, current, token);
      } else {
        if current != "" {
          lines := lines + [TrimEnd(current)];
          current := "";
        }
        current := TrimStart(token);
      }
      assert Acc(lines, current) == Overflow(p, before, token);
      if |lines| >= p.maxLines {
        break;
      }
      i := i + 1;
    }
  }

  /** The per-grapheme loop for a token too wide for a line of its own (lines 64-76). */
  method BreakToken(p: Params, lines0: seq<string>, current: string, token: string)
    returns (lines: seq<string>, buf: string)
    ensures Acc(lines, buf) == PackGraphemes(p, lines0, current, p.graphemes(token))
  {
    var chars := p.graphemes(token);
    lines, buf := lines0, current;
    var k := 0;
    while k < |chars|
      invariant 0 <= k <= |chars|
      invariant PackGraphemes(p, lines, buf, chars[k..]) == PackGraphemes(p, lines0, current, chars)
    {
      var ch := chars[k];
      var t2 := buf + ch;
      if p.measure(t2) <= p.maxWidth {
        buf := t2;
      } else {
        lines := lines + [TrimEnd(buf)];
        buf := ch;
        if |lines| >= p.maxLines {
          break;
        }
      }
      k := k + 1;
    }
  }
}
