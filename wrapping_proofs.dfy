/**
 * Properties of `wrapText` (src/QuoteMaking/Shapes/index.ts), stated on
 * `Wrapping.Wrap`, which `Wrapping.WrapText` is proved to return.
 */
module WrappingProofs {
  import opened Text
  import opened Wrapping

  /**
   * A measure that never shrinks when a string is extended at either end, as
   * the advance width of a real font does.
   */
  ghost predicate Monotone(p: Params) {
    forall a: string, b: string :: p.measure(a) <= p.measure(a + b) && p.measure(b) <= p.measure(a + b)
  }

  /** The grapheme splitter returns pieces that concatenate back to the token. */
  ghost predicate SplitsFaithfully(p: Params) {
    forall t: string :: Concat(p.graphemes(t)) == t
  }

  // ---------------------------------------------------------------------------
  // Line endings, paragraphs, tokens

  /** A text without CR and LF is a single paragraph, itself. */
  lemma OneParagraph(text: string)
    requires '\r' !in text && '\n' !in text
    ensures Paragraphs(text) == [text]
  {
    SplitPlain(text, '\n');
  }

  /** A non-empty one-paragraph text accumulates the lines of its token loop, then its open line unless the limit was reached. */
  lemma AccumulateOneParagraph(p: Params, text: string)
    requires text != "" && '\r' !in text && '\n' !in text
    ensures var acc := PackTokens(p, Acc([], ""), Tokens(text));
      Accumulate(p, text) == if |acc.lines| >= p.maxLines then acc.lines else Flush(acc)
  {
    OneParagraph(text);
    var acc := PackTokens(p, Acc([], ""), Tokens(text));
    if |acc.lines| < p.maxLines {
      assert PackParagraphs(p, [], [text]) == PackParagraphs(p, Flush(acc), []);
    }
  }

  /** The empty text is one empty paragraph, and wraps to one empty line. */
  lemma WrapEmptyText(p: Params)
    requires p.maxLines >= 1
    ensures Paragraphs("") == [""]
    ensures Wrap(p, "") == [""]
  {
  }

  // ---------------------------------------------------------------------------
  // Line count

  /** The grapheme loop only appends lines; it appends none only when every grapheme joined the buffer. */
  lemma {:induction false} PackGraphemesProgress(p: Params, lines: seq<string>, buf: string, chars: seq<string>)
    ensures var r := PackGraphemes(p, lines, buf, chars);
      |r.lines| >= |lines| && (|r.lines| > |lines| || r.current == buf + Concat(chars))
    decreases |chars|
  {
    if chars != [] {
      var ch := chars[0];
      if Fits(p, buf + ch) {
        PackGraphemesProgress(p, lines, buf + ch, chars[1..]);
        assert buf + ch + Concat(chars[1..]) == buf + Concat(chars);
      } else if |lines| + 1 < p.maxLines {
        PackGraphemesProgress(p, lines + [TrimEnd(buf)], ch, chars[1..]);
      }
    }
  }

  /** The token loop only appends lines, and once it has appended one or opened a line it keeps that progress. */
  lemma {:induction false} PackTokensProgress(p: Params, acc: Acc, tokens: seq<string>, n: nat)
    requires SplitsFaithfully(p)
    requires forall i | 0 <= i < |tokens| :: tokens[i] != ""
    requires |acc.lines| >= n
    requires |acc.lines| > n || acc.current != "" || (tokens != [] && acc.current + tokens[0] == tokens[0])
    ensures var r := PackTokens(p, acc, tokens); |r.lines| >= n && (|r.lines| > n || r.current != "" || tokens == [])
    decreases |tokens|
  {
    if tokens != [] {
      var t := tokens[0];
      if Fits(p, acc.current + t) {
        PackTokensProgress(p, Acc(acc.lines, acc.current + t), tokens[1..], n);
      } else {
        var next := Overflow(p, acc, t);
        if !Fits(p, t) {
          PackGraphemesProgress(p, acc.lines, acc.current, p.graphemes(t));
          assert Concat(p.graphemes(t)) == t;
        }
        assert |next.lines| > n || next.current != "";
        if |next.lines| < p.maxLines {
          PackTokensProgress(p, next, tokens[1..], n);
        }
      }
    }
  }

  /** The paragraph loop never removes lines and leaves at least one line when it has a paragraph to wrap. */
  lemma {:induction false} PackParagraphsNonEmpty(p: Params, lines: seq<string>, paras: seq<string>)
    requires SplitsFaithfully(p) && p.maxLines >= 1
    ensures |PackParagraphs(p, lines, paras)| >= |lines|
    ensures paras != [] ==> |PackParagraphs(p, lines, paras)| >= 1
    decreases |paras|
  {
    if paras != [] {
      if paras[0] == "" {
        PackParagraphsNonEmpty(p, lines + [""], paras[1..]);
      } else {
        var ts := Tokens(paras[0]);
        PackTokensProgress(p, Acc(lines, ""), ts, |lines|);
        var acc := PackTokens(p, Acc(lines, ""), ts);
        if |acc.lines| < p.maxLines {
          PackParagraphsNonEmpty(p, Flush(acc), paras[1..]);
        }
      }
    }
  }

  /** The wrapper returns at least one line and never more than `maxLines`. */
  lemma WrapLineCount(p: Params, text: string)
    requires p.maxLines >= 1 && SplitsFaithfully(p)
    ensures 1 <= |Wrap(p, text)| <= p.maxLines
  {
    PackParagraphsNonEmpty(p, [], Paragraphs(text));
  }

  /**
   * No returned line ends in white space: every pushed line went through
   * `trimEnd`, and the truncated line ends in the ellipsis, provided the
   * ellipsis is not empty and does not end in white space itself.
   */
  lemma WrapNoTrailingSpace(p: Params, text: string)
    requires p.maxLines >= 1
    requires p.ellipsis != "" && !EndsInSpace(p.ellipsis)
    ensures NoneEndsInSpace(Wrap(p, text))
  {
    var acc := Accumulate(p, text);
    var r := Wrap(p, text);
    assert r == Ellipsize(p, acc);
    if |acc| > p.maxLines {
      var k := p.maxLines - 1;
      var last := ShortenToFit(p, acc[k]) + p.ellipsis;
      assert r == acc[..k] + [last];
      assert last[|last| - 1] == p.ellipsis[|p.ellipsis| - 1];
      forall i | 0 <= i < |r|
        ensures !EndsInSpace(r[i])
      {
        if i < k {
          assert r[i] == acc[i];
        }
      }
    }
  }

  // ---------------------------------------------------------------------------
  // Width bound

  /** Every grapheme the wrapper can split off any token of `text`. */
  ghost function AllGraphemes(p: Params, text: string): set<string> {
    set para, t, g | para in Paragraphs(text) && t in Tokens(para) && g in p.graphemes(t) :: g
  }

  /** The lines a lone grapheme from `pool` wider than `maxWidth` becomes once trimmed. */
  ghost function WideLines(p: Params, pool: set<string>): set<string> {
    set g | g in pool && !Fits(p, g) :: TrimEnd(g)
  }

  /** The lines of `text` that may legitimately exceed `maxWidth`: single graphemes too wide on their own. */
  ghost function WideGraphemeLines(p: Params, text: string): set<string> {
    WideLines(p, AllGraphemes(p, text))
  }

  ghost predicate LineOk(p: Params, pool: set<string>, line: string) {
    Fits(p, line) || line == "" || line in WideLines(p, pool)
  }

  ghost predicate AllOk(p: Params, pool: set<string>, lines: seq<string>) {
    forall i | 0 <= i < |lines| :: LineOk(p, pool, lines[i])
  }

  /** An open line: fits, is empty, or is a single grapheme from the pool. */
  ghost predicate BufOk(p: Params, pool: set<string>, buf: string) {
    Fits(p, buf) || buf == "" || buf in pool
  }

  lemma TrimEndOk(p: Params, pool: set<string>, buf: string)
    requires Monotone(p) && BufOk(p, pool, buf)
    ensures LineOk(p, pool, TrimEnd(buf))
  {
    var t := TrimEnd(buf);
    assert buf == t + buf[|t|..];
    assert p.measure(t) <= p.measure(t + buf[|t|..]);
    if !Fits(p, buf) && buf != "" {
      assert t in WideLines(p, pool);
    }
  }

  lemma {:induction false} PackGraphemesOk(p: Params, pool: set<string>, lines: seq<string>, buf: string, chars: seq<string>)
    requires Monotone(p)
    requires AllOk(p, pool, lines) && BufOk(p, pool, buf)
    requires forall i | 0 <= i < |chars| :: chars[i] in pool
    ensures var r := PackGraphemes(p, lines, buf, chars); AllOk(p, pool, r.lines) && BufOk(p, pool, r.current)
    decreases |chars|
  {
    if chars != [] {
      var ch := chars[0];
      if Fits(p, buf + ch) {
        PackGraphemesOk(p, pool, lines, buf + ch, chars[1..]);
      } else {
        TrimEndOk(p, pool, buf);
        if |lines| + 1 < p.maxLines {
          PackGraphemesOk(p, pool, lines + [TrimEnd(buf)], ch, chars[1..]);
        }
      }
    }
  }

  lemma {:induction false} PackTokensOk(p: Params, pool: set<string>, acc: Acc, tokens: seq<string>)
    requires Monotone(p)
    requires AllOk(p, pool, acc.lines) && BufOk(p, pool, acc.current)
    requires forall i, g | 0 <= i < |tokens| && g in p.graphemes(tokens[i]) :: g in pool
    ensures var r := PackTokens(p, acc, tokens); AllOk(p, pool, r.lines) && BufOk(p, pool, r.current)
    decreases |tokens|
  {
    if tokens != [] {
      var t := tokens[0];
      if Fits(p, acc.current + t) {
        PackTokensOk(p, pool, Acc(acc.lines, acc.current + t), tokens[1..]);
      } else {
        if !Fits(p, t) {
          PackGraphemesOk(p, pool, acc.lines, acc.current, p.graphemes(t));
        } else {
          if acc.current != "" {
            TrimEndOk(p, pool, acc.current);
          }
          var s := TrimStart(t);
          assert t == t[..|t| - |s|] + s;
          assert p.measure(s) <= p.measure(t[..|t| - |s|] + s);
        }
        var next := Overflow(p, acc, t);
        if |next.lines| < p.maxLines {
          PackTokensOk(p, pool, next, tokens[1..]);
        }
      }
    }
  }

  lemma {:induction false} PackParagraphsOk(p: Params, pool: set<string>, lines: seq<string>, paras: seq<string>)
    requires Monotone(p)
    requires AllOk(p, pool, lines)
    requires forall para, t, g | para in paras && t in Tokens(para) && g in p.graphemes(t) :: g in pool
    ensures AllOk(p, pool, PackParagraphs(p, lines, paras))
    decreases |paras|
  {
    if paras != [] {
      if paras[0] == "" {
        PackParagraphsOk(p, pool, lines + [""], paras[1..]);
      } else {
        var ts := Tokens(paras[0]);
        PackTokensOk(p, pool, Acc(lines, ""), ts);
        var acc := PackTokens(p, Acc(lines, ""), ts);
        if |acc.lines| < p.maxLines {
          if acc.current != "" {
            TrimEndOk(p, pool, acc.current);
          }
          PackParagraphsOk(p, pool, Flush(acc), paras[1..]);
        }
      }
    }
  }

  /**
   * The width bound. For a measure that never shrinks when a string is
   * extended, every returned line fits in `maxWidth`, except
   *  - a lone grapheme cluster that is wider than `maxWidth` by itself,
   *  - an empty line (which only fails to fit when `maxWidth` is below the
   *    width of the empty string), and
   *  - the truncated last line, when even the bare ellipsis does not fit.
   */
  lemma WrapWidthBound(p: Params, text: string)
    requires p.maxLines >= 1 && Monotone(p)
    ensures var lines := Wrap(p, text);
      forall i | 0 <= i < |lines| ::
        || Fits(p, lines[i])
        || lines[i] == ""
        || lines[i] in WideGraphemeLines(p, text)
        || (|Accumulate(p, text)| > p.maxLines && i == p.maxLines - 1 && lines[i] == p.ellipsis)
  {
    var pool := AllGraphemes(p, text);
    var paras := Paragraphs(text);
    forall para, t, g | para in paras && t in Tokens(para) && g in p.graphemes(t) ensures g in pool {
    }
    PackParagraphsOk(p, pool, [], paras);
  }

  // ---------------------------------------------------------------------------
  // A paragraph that fits

  /** Tokens whose concatenation fits after the open line are all appended to it. */
  lemma {:induction false} PackTokensAllFit(p: Params, acc: Acc, tokens: seq<string>)
    requires Monotone(p)
    requires Fits(p, acc.current + Concat(tokens))
    ensures PackTokens(p, acc, tokens) == Acc(acc.lines, acc.current + Concat(tokens))
    decreases |tokens|
  {
    if tokens != [] {
      var t := tokens[0];
      assert acc.current + Concat(tokens) == (acc.current + t) + Concat(tokens[1..]);
      assert p.measure(acc.current + t) <= p.measure((acc.current + t) + Concat(tokens[1..]));
      PackTokensAllFit(p, Acc(acc.lines, acc.current + t), tokens[1..]);
    }
  }

  /**
   * A one-paragraph text that fits in `maxWidth` as a whole is returned as a
   * single line: the text with its trailing white space trimmed.
   */
  lemma WrapFittingParagraph(p: Params, text: string)
    requires p.maxLines >= 1 && Monotone(p)
    requires text != "" && '\r' !in text && '\n' !in text
    requires Fits(p, text)
    ensures Wrap(p, text) == [TrimEnd(text)]
  {
    AccumulateOneParagraph(p, text);
    var ts := Tokens(text);
    assert "" + Concat(ts) == text;
    PackTokensAllFit(p, Acc([], ""), ts);
    assert Accumulate(p, text) == [TrimEnd(text)];
  }

  // ---------------------------------------------------------------------------
  // Ellipsis

  /**
   * The ellipsis step. When at most `maxLines` lines were accumulated they are
   * returned unchanged. Otherwise exactly `maxLines` lines are returned: the
   * first `maxLines - 1` accumulated lines unchanged, then the longest prefix
   * of the next accumulated line that fits together with the ellipsis (or the
   * empty prefix when none does), followed by the ellipsis.
   */
  ghost predicate LongestFittingPrefix(p: Params, s: string, kept: string) {
    && |kept| <= |s| && kept == s[..|kept|]
    && (Fits(p, kept + p.ellipsis) || kept == "")
    && (forall k | |kept| < k <= |s| :: !Fits(p, s[..k] + p.ellipsis))
  }

  lemma WrapEllipsis(p: Params, text: string)
    requires p.maxLines >= 1
    ensures var acc, lines := Accumulate(p, text), Wrap(p, text);
      && (|acc| <= p.maxLines ==> lines == acc)
      && (|acc| > p.maxLines ==>
            var n := p.maxLines;
            var kept := lines[n - 1][..|lines[n - 1]| - |p.ellipsis|];
            && |lines| == n
            && lines[..n - 1] == acc[..n - 1]
            && |lines[n - 1]| >= |p.ellipsis|
            && lines[n - 1] == kept + p.ellipsis
            && LongestFittingPrefix(p, acc[n - 1], kept))
  {
    var acc := Accumulate(p, text);
    if |acc| > p.maxLines {
      var n := p.maxLines;
      var r := ShortenToFit(p, acc[n - 1]);
      var lines := Wrap(p, text);
      assert lines[n - 1] == r + p.ellipsis;
      assert lines[n - 1][..|lines[n - 1]| - |p.ellipsis|] == r;
    }
  }

  lemma {:induction false} PackGraphemesAtMost(p: Params, lines: seq<string>, buf: string, chars: seq<string>)
    requires |lines| < p.maxLines
    ensures |PackGraphemes(p, lines, buf, chars).lines| <= p.maxLines
    decreases |chars|
  {
    if chars != [] {
      var ch := chars[0];
      if Fits(p, buf + ch) {
        PackGraphemesAtMost(p, lines, buf + ch, chars[1..]);
      } else if |lines| + 1 < p.maxLines {
        PackGraphemesAtMost(p, lines + [TrimEnd(buf)], ch, chars[1..]);
      }
    }
  }

  lemma {:induction false} PackTokensAtMost(p: Params, acc: Acc, tokens: seq<string>)
    requires |acc.lines| < p.maxLines
    ensures |PackTokens(p, acc, tokens).lines| <= p.maxLines
    decreases |tokens|
  {
    if tokens != [] {
      var t := tokens[0];
      if Fits(p, acc.current + t) {
        PackTokensAtMost(p, Acc(acc.lines, acc.current + t), tokens[1..]);
      } else {
        if !Fits(p, t) {
          PackGraphemesAtMost(p, acc.lines, acc.current, p.graphemes(t));
        }
        var next := Overflow(p, acc, t);
        if |next.lines| < p.maxLines {
          PackTokensAtMost(p, next, tokens[1..]);
        }
      }
    }
  }

  /**
   * A text without line breaks is never truncated with the ellipsis: the
   * token loop stops as soon as `maxLines` lines exist, so at most `maxLines`
   * are accumulated, even when the rest of the paragraph is dropped.
   */
  lemma SingleParagraphNoEllipsis(p: Params, text: string)
    requires p.maxLines >= 1
    requires '\r' !in text && '\n' !in text
    ensures |Accumulate(p, text)| <= p.maxLines
    ensures Wrap(p, text) == Accumulate(p, text)
  {
    if text != "" {
      AccumulateOneParagraph(p, text);
      PackTokensAtMost(p, Acc([], ""), Tokens(text));
    }
  }

  // ---------------------------------------------------------------------------
  // A grapheme too wide on its own

  /**
   * A word of one grapheme cluster that is wider than `maxWidth`, at the start
   * of a paragraph, is preceded by an empty line: the grapheme loop pushes the
   * still empty buffer before starting a line with the grapheme. With
   * `maxLines == 1` that empty line is all that is returned.
   */
  lemma WideGlyphLeadingBlankLine(p: Params, word: string)
    requires p.maxLines >= 1
    requires word != "" && NoSpace(word)
    requires p.graphemes(word) == [word]
    requires !Fits(p, word)
    ensures Wrap(p, word) == if p.maxLines == 1 then [""] else ["", word]
  {
    assert '\r' !in word && '\n' !in word by {
      forall i | 0 <= i < |word| ensures word[i] != '\r' && word[i] != '\n' {
        assert !IsSpace(word[i]);
      }
    }
    TokensOfWord(word);
    AccumulateOneParagraph(p, word);
    WideGlyphTokens(p, word);
    var acc := PackTokens(p, Acc([], ""), [word]);
    assert TrimEnd(word) == word;
    assert Accumulate(p, word) == if p.maxLines == 1 then [""] else ["", word];
  }

  /** The token loop on that word alone: one empty line pushed, the word left open. */
  lemma WideGlyphTokens(p: Params, word: string)
    requires p.maxLines >= 1
    requires p.graphemes(word) == [word]
    requires !Fits(p, word)
    ensures PackTokens(p, Acc([], ""), [word]) == Acc([""], word)
  {
    assert "" + word == word;
    WideGlyphGraphemes(p, word);
    assert Overflow(p, Acc([], ""), word) == Acc([""], word);
  }

  /** A word without white space is a single token. */
  lemma TokensOfWord(word: string)
    requires word != "" && NoSpace(word)
    ensures Tokens(word) == [word]
  {
    var n := RunLength(word);
    assert n == |word|;
    assert word[..n] == word && word[n..] == [];
  }

  /** The grapheme loop on a lone over-wide grapheme with an empty buffer pushes the empty buffer. */
  lemma WideGlyphGraphemes(p: Params, word: string)
    requires p.maxLines >= 1 && !Fits(p, word)
    ensures PackGraphemes(p, [], "", [word]) == Acc([""], word)
  {
    assert "" + word == word;
    assert TrimEnd("") == "";
    assert [word][1..] == [];
  }
}
