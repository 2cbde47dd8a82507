/**
 * The layout arithmetic of `createMessageBubble`
 * (src/QuoteMaking/withResponse.ts) with the canvas taken away: the
 * measuring context becomes an injected `Measurer`, the wrapped lines come
 * from `Wrapping.Wrap`, and what is left is the geometry of the bubble, the
 * avatar choice, the two small string rules (initials and the author label)
 * and the y cursor that places each line of text.
 */
module Bubble {
  import opened Wrappers
  import opened Text
  import opened Wrapping
  import WrappingProofs
  import Shapes
  import Avatar

  datatype Mode = Normal | Reply

  /**
   * What `measureText` reports: the advance width and the two bounding-box
   * extents, each of which the source treats as possibly missing.
   */
  datatype Metrics = Metrics(width: real, ascent: Option<real>, descent: Option<real>)

  /** `measureText` under a font: `m(font, text)`. */
  type Measurer = (string, string) -> Metrics

  /** The options `createMessageBubble` reads for its layout; `None` is an absent option. */
  datatype Options = Options(
    mode: Option<Mode>, side: Option<Shapes.Side>,
    width: Option<real>, bubbleRadius: Option<real>, avatarSize: Option<real>,
    authorFont: Option<string>, quotedFont: Option<string>,
    bodyFont: Option<string>, timeFont: Option<string>,
    authorToBodyGap: Option<real>, avatarBorderWidth: Option<real>)

  /** The options after their defaults were filled in. */
  datatype Settings = Settings(
    mode: Mode, side: Shapes.Side,
    width: real, bubbleRadius: real, avatarSize: real,
    authorFont: string, quotedFont: string, bodyFont: string, timeFont: string,
    authorToBodyGap: Option<real>, avatarBorderWidth: Option<real>)

  const DefaultWidth: real := 400.0
  const DefaultBubbleRadius: real := 16.0
  const DefaultAvatarSize: real := 80.0
  const DefaultAuthorFont: string := "bold 36px Arial"
  const DefaultQuotedFont: string := "32px Arial"
  const DefaultBodyFont: string := "32px Arial"
  const DefaultTimeFont: string := "24px Arial"

  const Spacing: real := 8.0
  const PadX: real := 14.0
  const PadY: real := 24.0
  const BetweenQuoteAndBody: real := 10.0
  const BetweenBodyAndTime: real := 8.0
  const BarW: real := 5.0
  const BarGap: real := 8.0
  const ArrowSize: real := 12.0
  const ArrowHeight: real := 18.0
  const DefaultAuthorToBodyGap: real := 12.0
  const DefaultAvatarBorderWidth: real := 2.0
  const AvatarShadowBlur: real := 6.0

  /** Each option `o ?? default`. */
  function Resolve(o: Options): Settings {
    Settings(
      o.mode.GetOr(Normal), o.side.GetOr(Shapes.Left),
      o.width.GetOr(DefaultWidth), o.bubbleRadius.GetOr(DefaultBubbleRadius),
      o.avatarSize.GetOr(DefaultAvatarSize),
      o.authorFont.GetOr(DefaultAuthorFont), o.quotedFont.GetOr(DefaultQuotedFont),
      o.bodyFont.GetOr(DefaultBodyFont), o.timeFont.GetOr(DefaultTimeFont),
      o.authorToBodyGap, o.avatarBorderWidth)
  }

  /** A present option is used as given; an absent one takes its default. */
  lemma ResolveDefaults(o: Options)
    ensures var s := Resolve(o);
      && (o.mode.None? ==> s.mode == Normal) && (o.mode.Some? ==> s.mode == o.mode.value)
      && (o.side.None? ==> s.side == Shapes.Left) && (o.side.Some? ==> s.side == o.side.value)
      && (o.width.None? ==> s.width == 400.0) && (o.width.Some? ==> s.width == o.width.value)
      && (o.bubbleRadius.None? ==> s.bubbleRadius == 16.0) && (o.bubbleRadius.Some? ==> s.bubbleRadius == o.bubbleRadius.value)
      && (o.avatarSize.None? ==> s.avatarSize == 80.0) && (o.avatarSize.Some? ==> s.avatarSize == o.avatarSize.value)
    ensures var s := Resolve(o);
      && (o.authorFont.None? ==> s.authorFont == "bold 36px Arial") && (o.authorFont.Some? ==> s.authorFont == o.authorFont.value)
      && (o.quotedFont.None? ==> s.quotedFont == "32px Arial") && (o.quotedFont.Some? ==> s.quotedFont == o.quotedFont.value)
      && (o.bodyFont.None? ==> s.bodyFont == "32px Arial") && (o.bodyFont.Some? ==> s.bodyFont == o.bodyFont.value)
      && (o.timeFont.None? ==> s.timeFont == "24px Arial") && (o.timeFont.Some? ==> s.timeFont == o.timeFont.value)
    ensures var s := Resolve(o);
      s.authorToBodyGap == o.authorToBodyGap && s.avatarBorderWidth == o.avatarBorderWidth
  {
  }

  /** JavaScript truthiness of an optional string: present and not empty. */
  predicate Truthy(o: Option<string>) {
    o.Some? && o.value != ""
  }

  /** `Math.ceil`. */
  function Ceil(x: real): (n: int)
    ensures x <= n as real < x + 1.0
  {
    -((-x).Floor)
  }

  /**
   * `Math.ceil((met.actualBoundingBoxAscent ?? a) + (met.actualBoundingBoxDescent ?? d))`:
   * the height of a line box, with the source's fallback extents.
   */
  function LineBox(met: Metrics, a: real, d: real): (n: int)
    ensures var h := met.ascent.GetOr(a) + met.descent.GetOr(d); h <= n as real < h + 1.0
    ensures met.ascent.None? && met.descent.None? ==> a + d <= n as real < a + d + 1.0
  {
    Ceil(met.ascent.GetOr(a) + met.descent.GetOr(d))
  }

  /** The arguments `wrapText(meas, text, maxWidth)` is called with, `meas.font` being `font`. */
  function WrapParams(m: Measurer, graphemes: string -> seq<string>, font: string, maxWidth: real): Params {
    Params(s => m(font, s).width, graphemes, maxWidth, DefaultMaxLines, Ellipsis)
  }

  /** Everything the drawing section needs from the measuring section. */
  datatype Layout = Layout(
    bubbleX: real, bubbleW: real, textMaxW: real,
    quoted: bool, authorH: int, quotedLineH: int, quotedLines: seq<string>, quotedH: int,
    bodyLineH: int, bodyLines: seq<string>, bodyH: int, timeH: int,
    bubbleH: real, height: real)

  /**
   * `padY + (reply ? quotedH + 10 : 0) + bodyH + 8 + timeH + 2 * padY`. The
   * author line drawn above the body has no term of its own.
   */
  function BubbleHeight(mode: Mode, quotedH: int, bodyH: int, timeH: int): (h: real)
    ensures quotedH >= 0 && bodyH >= 0 && timeH >= 0 ==> h >= 3.0 * PadY + BetweenBodyAndTime
  {
    PadY + (if mode == Reply then quotedH as real + BetweenQuoteAndBody else 0.0)
    + bodyH as real + BetweenBodyAndTime + timeH as real + PadY * 2.0
  }

  /** `Math.max(a, b)`. */
  function Max(a: real, b: real): (r: real)
    ensures r >= a && r >= b && (r == a || r == b)
  {
    if a >= b then a else b
  }

  /**
   * The measuring section of `createMessageBubble`: horizontal split of the
   * canvas, the quoted block (measured only in reply mode with a non-empty
   * reply author and snippet), the body, the timestamp, the bubble and the
   * canvas height.
   */
  function Plan(m: Measurer, graphemes: string -> seq<string>, s: Settings,
                replyAuthor: Option<string>, replySnippet: Option<string>,
                bodyText: string, timeText: string): (l: Layout)
    ensures l.bubbleX == s.avatarSize + Spacing && l.bubbleX + l.bubbleW == s.width
    ensures l.textMaxW + 2.0 * PadX == l.bubbleW
    ensures l.quoted <==> s.mode == Reply && Truthy(replyAuthor) && Truthy(replySnippet)
    ensures !l.quoted ==> l.quotedH == 0 && l.quotedLines == []
    ensures l.quoted ==>
      && l.quotedLines == Wrap(WrapParams(m, graphemes, s.quotedFont, l.textMaxW - BarW - BarGap), replySnippet.value)
      && l.quotedH == l.authorH + 4 + |l.quotedLines| * (l.quotedLineH + 4)
    ensures l.bodyLines == Wrap(WrapParams(m, graphemes, s.bodyFont, l.textMaxW), bodyText)
    ensures l.bodyH == |l.bodyLines| * l.bodyLineH
    ensures l.quoted ==>
      && l.authorH == LineBox(m(s.authorFont, replyAuthor.value), 14.0, 4.0)
      && l.quotedLineH == LineBox(m(s.quotedFont, "Mg"), 12.0, 4.0) + 2
    ensures l.bodyLineH == LineBox(m(s.bodyFont, "Mg"), 15.0, 5.0) + 3
    ensures l.timeH == LineBox(m(s.timeFont, timeText), 10.0, 3.0)
    ensures l.bubbleH == BubbleHeight(s.mode, l.quotedH, l.bodyH, l.timeH)
    ensures l.height >= l.bubbleH && l.height >= s.avatarSize && (l.height == l.bubbleH || l.height == s.avatarSize)
  {
    var bubbleX := s.avatarSize + Spacing;
    var bubbleW := s.width - bubbleX;
    var textMaxW := bubbleW - PadX * 2.0;
    var quoted := s.mode == Reply && Truthy(replyAuthor) && Truthy(replySnippet);
    var q := if quoted then QuoteBlock(m, graphemes, s, replyAuthor.value, replySnippet.value, textMaxW)
             else Quote(0, 0, [], 0);
    var (authorH, quotedLineH, quotedLines, quotedH) := (q.authorH, q.lineH, q.lines, q.h);
    var bodyLineH := LineBox(m(s.bodyFont, "Mg"), 15.0, 5.0) + 3;
    var bodyLines := Wrap(WrapParams(m, graphemes, s.bodyFont, textMaxW), bodyText);
    var bodyH := |bodyLines| * bodyLineH;
    var timeH := LineBox(m(s.timeFont, timeText), 10.0, 3.0);
    var bubbleH := BubbleHeight(s.mode, quotedH, bodyH, timeH);
    Layout(bubbleX, bubbleW, textMaxW, quoted, authorH, quotedLineH, quotedLines, quotedH,
           bodyLineH, bodyLines, bodyH, timeH, bubbleH, Max(bubbleH, s.avatarSize))
  }

  /** The measured quote block: author line, quoted line height, wrapped snippet and total height. */
  datatype Quote = Quote(authorH: int, lineH: int, lines: seq<string>, h: int)

  /**
   * The quote block of a reply: the snippet wraps beside the bar, and the
   * block is the author line, a 4px gap and each quoted line with 4px after it.
   */
  function QuoteBlock(m: Measurer, graphemes: string -> seq<string>, s: Settings,
                      author: string, snippet: string, textMaxW: real): (q: Quote)
    ensures q.authorH == LineBox(m(s.authorFont, author), 14.0, 4.0)
    ensures q.lineH == LineBox(m(s.quotedFont, "Mg"), 12.0, 4.0) + 2
    ensures q.lines == Wrap(WrapParams(m, graphemes, s.quotedFont, textMaxW - BarW - BarGap), snippet)
    ensures |q.lines| <= DefaultMaxLines
    ensures q.h == q.authorH + 4 + |q.lines| * (q.lineH + 4)
  {
    var authorH := LineBox(m(s.authorFont, author), 14.0, 4.0);
    var lineH := LineBox(m(s.quotedFont, "Mg"), 12.0, 4.0) + 2;
    var lines := Wrap(WrapParams(m, graphemes, s.quotedFont, textMaxW - BarW - BarGap), snippet);
    Quote(authorH, lineH, lines, authorH + 4 + |lines| * (lineH + 4))
  }

  /** A measurer that reports no bounding box for any text in any font. */
  ghost predicate NoBoundingBoxes(m: Measurer) {
    forall font: string, text: string :: m(font, text).ascent.None? && m(font, text).descent.None?
  }

  /**
   * Without bounding boxes the line heights fall back to 14 + 4 for the reply
   * author, 12 + 4 (+ 2) for a quoted line, 15 + 5 (+ 3) for a body line and
   * 10 + 3 for the timestamp.
   */
  lemma FallbackHeights(m: Measurer, graphemes: string -> seq<string>, s: Settings,
                        replyAuthor: Option<string>, replySnippet: Option<string>,
                        bodyText: string, timeText: string)
    requires NoBoundingBoxes(m)
    ensures var l := Plan(m, graphemes, s, replyAuthor, replySnippet, bodyText, timeText);
      && l.bodyLineH == 23 && l.timeH == 13
      && (l.quoted ==> l.authorH == 18 && l.quotedLineH == 18)
  {
    var l := Plan(m, graphemes, s, replyAuthor, replySnippet, bodyText, timeText);
    assert l.bodyLineH == LineBox(m(s.bodyFont, "Mg"), 15.0, 5.0) + 3;
    assert l.timeH == LineBox(m(s.timeFont, timeText), 10.0, 3.0);
    if l.quoted {
      assert l.authorH == LineBox(m(s.authorFont, replyAuthor.value), 14.0, 4.0);
      assert l.quotedLineH == LineBox(m(s.quotedFont, "Mg"), 12.0, 4.0) + 2;
    }
  }

  /**
   * With a faithful grapheme splitter the body wraps to between 1 and 20
   * lines, and so does a quoted snippet that is shown.
   */
  lemma LineCounts(m: Measurer, graphemes: string -> seq<string>, s: Settings,
                   replyAuthor: Option<string>, replySnippet: Option<string>,
                   bodyText: string, timeText: string)
    requires forall t: string :: Concat(graphemes(t)) == t
    ensures var l := Plan(m, graphemes, s, replyAuthor, replySnippet, bodyText, timeText);
      && 1 <= |l.bodyLines| <= DefaultMaxLines
      && (l.quoted ==> 1 <= |l.quotedLines| <= DefaultMaxLines)
  {
    var l := Plan(m, graphemes, s, replyAuthor, replySnippet, bodyText, timeText);
    var pb := WrapParams(m, graphemes, s.bodyFont, l.textMaxW);
    assert pb.maxLines == DefaultMaxLines && l.bodyLines == Wrap(pb, bodyText);
    WrappingProofs.WrapLineCount(pb, bodyText);
    if l.quoted {
      var pq := WrapParams(m, graphemes, s.quotedFont, l.textMaxW - BarW - BarGap);
      assert pq.maxLines == DefaultMaxLines && l.quotedLines == Wrap(pq, replySnippet.value);
      WrappingProofs.WrapLineCount(pq, replySnippet.value);
    }
  }

  /**
   * Reply mode adds the 10 px gap below the quote even when no quote is
   * shown: with a missing or empty reply author or snippet the bubble is
   * exactly 10 px taller than the same bubble in normal mode.
   */
  lemma ReplyGapWithoutQuote(m: Measurer, graphemes: string -> seq<string>, s: Settings,
                             replyAuthor: Option<string>, replySnippet: Option<string>,
                             bodyText: string, timeText: string)
    requires s.mode == Reply && !(Truthy(replyAuthor) && Truthy(replySnippet))
    ensures Plan(m, graphemes, s, replyAuthor, replySnippet, bodyText, timeText).bubbleH
         == Plan(m, graphemes, s.(mode := Normal), replyAuthor, replySnippet, bodyText, timeText).bubbleH + 10.0
  {
    var s2 := s.(mode := Normal);
    SameBodyAndTime(m, graphemes, s, s2, replyAuthor, replySnippet, bodyText, timeText);
    var l1 := Plan(m, graphemes, s, replyAuthor, replySnippet, bodyText, timeText);
    var l2 := Plan(m, graphemes, s2, replyAuthor, replySnippet, bodyText, timeText);
    var b, t := l1.bodyH, l1.timeH;
    assert l1.bubbleH == BubbleHeight(Reply, 0, b, t);
    assert l2.bubbleH == BubbleHeight(Normal, 0, b, t);
    ReplyTerm(b, t);
  }

  /** Two settings with the same width, avatar size and fonts give the same body and timestamp heights. */
  lemma SameBodyAndTime(m: Measurer, graphemes: string -> seq<string>, s1: Settings, s2: Settings,
                        replyAuthor: Option<string>, replySnippet: Option<string>,
                        bodyText: string, timeText: string)
    requires s1.width == s2.width && s1.avatarSize == s2.avatarSize
    requires s1.bodyFont == s2.bodyFont && s1.timeFont == s2.timeFont
    ensures Plan(m, graphemes, s1, replyAuthor, replySnippet, bodyText, timeText).bodyH
         == Plan(m, graphemes, s2, replyAuthor, replySnippet, bodyText, timeText).bodyH
    ensures Plan(m, graphemes, s1, replyAuthor, replySnippet, bodyText, timeText).timeH
         == Plan(m, graphemes, s2, replyAuthor, replySnippet, bodyText, timeText).timeH
  {
    var l1 := Plan(m, graphemes, s1, replyAuthor, replySnippet, bodyText, timeText);
    var l2 := Plan(m, graphemes, s2, replyAuthor, replySnippet, bodyText, timeText);
    assert l1.textMaxW == l2.textMaxW;
    assert l1.bodyLines == l2.bodyLines && l1.bodyLineH == l2.bodyLineH;
  }

  /** Without a quote block the reply mode adds only the gap between quote and body. */
  lemma ReplyTerm(bodyH: int, timeH: int)
    ensures BubbleHeight(Reply, 0, bodyH, timeH) == BubbleHeight(Normal, 0, bodyH, timeH) + BetweenQuoteAndBody
  {
  }

  /**
   * The canvas never gets shorter when the body gains lines, as long as a
   * body line has non-negative height.
   */
  lemma CanvasHeightMonotone(mode: Mode, quotedH: int, bodyLineH: int, timeH: int, avatarSize: real, n1: nat, n2: nat)
    requires n1 <= n2 && bodyLineH >= 0
    ensures Max(BubbleHeight(mode, quotedH, n1 * bodyLineH, timeH), avatarSize)
         <= Max(BubbleHeight(mode, quotedH, n2 * bodyLineH, timeH), avatarSize)
  {
    assert n2 * bodyLineH == n1 * bodyLineH + (n2 - n1) * bodyLineH;
    assert (n2 - n1) * bodyLineH >= 0;
  }

  // ---------------------------------------------------------------------
  // Bubble shape and arrow
  // ---------------------------------------------------------------------

  /** The radius `roundRect(ctx, bubbleX, 0, bubbleW, bubbleH, bubbleRadius)` draws the corners with. */
  function BubbleCornerRadius(s: Settings, l: Layout): (rr: real)
    ensures rr <= s.bubbleRadius && 2.0 * rr <= l.bubbleW && 2.0 * rr <= l.bubbleH
    ensures rr == s.bubbleRadius || 2.0 * rr == l.bubbleW || 2.0 * rr == l.bubbleH
  {
    Shapes.CornerRadius(s.bubbleRadius, l.bubbleW, l.bubbleH)
  }

  /** The arrow: anchored at `(bubbleX + 12, 0)`, base 24, height 36, on the chosen side. */
  function BubbleArrow(s: Settings, l: Layout): (vs: seq<Shapes.Point>)
    ensures |vs| == 3 && vs[0] == Shapes.Point(l.bubbleX + ArrowSize, 0.0)
    ensures s.side == Shapes.Left ==> vs[1] == Shapes.Point(l.bubbleX + ArrowSize - 24.0, 0.0)
    ensures s.side == Shapes.Right ==> vs[1] == Shapes.Point(l.bubbleX + ArrowSize + 24.0, 0.0)
    ensures vs[2] == Shapes.Point(l.bubbleX + ArrowSize, 36.0)
  {
    Shapes.ArrowVertices(l.bubbleX + ArrowSize, 0.0, ArrowSize * 2.0, ArrowHeight * 2.0, s.side)
  }

  /**
   * The anchor is not mirrored for `right`: on a bubble at least 36 px wide
   * the right-pointing arrow lies entirely over the bubble's own rectangle,
   * while the left-pointing one reaches 12 px past its left edge.
   */
  lemma ArrowPlacement(s: Settings, l: Layout)
    requires l.bubbleW >= 3.0 * ArrowSize && l.bubbleH >= ArrowHeight * 2.0
    ensures s.side == Shapes.Right ==>
      forall i | 0 <= i < 3 :: var v := BubbleArrow(s, l)[i];
        l.bubbleX <= v.x <= l.bubbleX + l.bubbleW && 0.0 <= v.y <= l.bubbleH
    ensures s.side == Shapes.Left ==> BubbleArrow(s, l)[1].x == l.bubbleX - ArrowSize
  {
  }

  // ---------------------------------------------------------------------
  // Avatar
  // ---------------------------------------------------------------------

  /** The first character of a word; `w[0]` of an empty word is `undefined`, which `join` writes as nothing. */
  function FirstUnit(w: string): (r: string)
    ensures |r| <= 1 && (w != "" ==> r == [w[0]])
  {
    if w == "" then "" else [w[0]]
  }

  /**
   * `msgAuthor.trim().split(/\s+/).map(w => w[0]).slice(0, 2).join('')`: the
   * first character of each of the first two words.
   */
  function Initials(name: string): (r: string)
    ensures |r| <= 2
    ensures forall i | 0 <= i < |r| :: !IsSpace(r[i])
  {
    var words := SplitOnSpaceRuns(Trim(name));
    if |words| == 1 then FirstUnit(words[0])
    else FirstUnit(words[0]) + FirstUnit(words[1])
  }

  /** A name that is blank (white space only, or empty) and only such a name gives no initials. */
  lemma InitialsBlank(name: string)
    ensures Initials(name) == "" <==> AllSpace(name)
  {
    var t := Trim(name);
    var words := SplitOnSpaceRuns(t);
    if t != [] {
      SplitOnSpaceRunsNonEmpty(t);
      assert words[0] != [];
    }
  }

  /** The first initial is the name's first non-space character. */
  lemma InitialsFirst(name: string)
    requires !AllSpace(name)
    ensures Initials(name) != "" && Initials(name)[0] == TrimStart(name)[0]
  {
    var t := Trim(name);
    assert t != [];
    var words := SplitOnSpaceRuns(t);
    assert words[0] != [] && words[0][0] == t[0];
  }

  /**
   * The second initial is the first character after the first white-space
   * run of the trimmed name, that is, the first character of its second word.
   */
  lemma {:induction false} InitialsSecond(name: string)
    requires !NoSpace(Trim(name))
    ensures var t := Trim(name);
      var k := RunLength(t);
      var j := k + SpaceRunLength(t[k..]);
      && j < |t| && |Initials(name)| == 2 && Initials(name)[1] == t[j]
  {
    var t := Trim(name);
    SplitOnSpaceRunsSecond(t);
    SplitOnSpaceRunsNonEmpty(t);
    var words := SplitOnSpaceRuns(t);
    var j := RunLength(t) + SpaceRunLength(t[RunLength(t)..]);
    FirstUnitsOfTwo(words, t[j]);
    assert Initials(name) == FirstUnit(words[0]) + FirstUnit(words[1]);
  }

  /** Two non-empty words give two units, the second being the second word's first. */
  lemma FirstUnitsOfTwo(words: seq<string>, c: char)
    requires |words| >= 2 && words[0] != [] && words[1] != [] && words[1][0] == c
    ensures var r := FirstUnit(words[0]) + FirstUnit(words[1]); |r| == 2 && r[1] == c
  {
  }

  /** There are two initials exactly when the trimmed name has white space inside it. */
  lemma InitialsCount(name: string)
    ensures |Initials(name)| == 2 <==> !NoSpace(Trim(name))
  {
    var t := Trim(name);
    var words := SplitOnSpaceRuns(t);
    if !NoSpace(t) {
      SplitOnSpaceRunsNonEmpty(t);
      assert |words| >= 2 && words[0] != [] && words[1] != [];
      assert Initials(name) == FirstUnit(words[0]) + FirstUnit(words[1]);
    } else {
      assert |words| == 1;
      assert Initials(name) == FirstUnit(words[0]);
    }
  }

  /** `msgAuthor.length > 15 ? msgAuthor.slice(0, 14) + '...' : msgAuthor`. */
  function AuthorLabel(name: string): (r: string)
    ensures |name| <= 15 ==> r == name
    ensures |name| > 15 ==> |r| == 17 && r[..14] == name[..14] && r[14..] == "..."
  {
    if |name| > 15 then name[..14] + "..." else name
  }

  /**
   * The drawn author label is at most 17 characters long, and a name of
   * exactly 16 comes out one character longer than it went in.
   */
  lemma AuthorLabelLength(name: string)
    ensures |AuthorLabel(name)| <= 17 && |AuthorLabel(name)| <= |name| + 1
    ensures |name| == 16 ==> |AuthorLabel(name)| == |name| + 1
  {
  }

  /** Either the circular photo or the initials disc. */
  datatype AvatarDraw =
    | Photo(circle: Avatar.CircleAvatar)
    | InitialsDisc(text: string, center: Shapes.Point, radius: real)

  /**
   * The avatar branch: a present, non-empty `avatarSrc` is normalised and
   * loaded (`loads` says whether loading that string succeeds); on success
   * the photo is drawn as a circle of side `avatarSize` in the top-left
   * corner with a ring (default width 2) and shadow 6, otherwise the
   * upper-cased initials of `msgAuthor` are drawn in a disc of the same size.
   */
  function AvatarPlan(s: Settings, avatarSrc: Option<string>, loads: string -> bool, msgAuthor: string): (d: AvatarDraw)
    ensures d.Photo? <==> Truthy(avatarSrc) && loads(Avatar.NormalizeSource(avatarSrc.value))
    ensures d.Photo? ==> d.circle.corner == Shapes.Point(0.0, 0.0) && d.circle.size == s.avatarSize && d.circle.shadow
    ensures d.InitialsDisc? ==>
      && d.text == Avatar.InitialsLabel(Initials(msgAuthor))
      && d.center == Shapes.Point(s.avatarSize / 2.0, s.avatarSize / 2.0)
      && d.radius * 2.0 == s.avatarSize
  {
    var c := s.avatarSize / 2.0;
    if Truthy(avatarSrc) && loads(Avatar.NormalizeSource(avatarSrc.value)) then
      Photo(Avatar.CircularAvatar(c, c, s.avatarSize,
                                  Some(s.avatarBorderWidth.GetOr(DefaultAvatarBorderWidth)),
                                  Some(AvatarShadowBlur)))
    else
      InitialsDisc(Avatar.InitialsLabel(Initials(msgAuthor)), Shapes.Point(c, c), c)
  }

  /** Without a border width option the photo gets a 2 px ring inset by 1 px. */
  lemma DefaultAvatarRing(s: Settings, avatarSrc: Option<string>, loads: string -> bool, msgAuthor: string)
    requires s.avatarBorderWidth.None?
    requires Truthy(avatarSrc) && loads(Avatar.NormalizeSource(avatarSrc.value))
    ensures var d := AvatarPlan(s, avatarSrc, loads, msgAuthor);
      d.Photo? && d.circle.ring == Some(Avatar.Ring(s.avatarSize / 2.0 - 1.0, 2.0))
  {
  }

  // ---------------------------------------------------------------------
  // Text placement
  // ---------------------------------------------------------------------

  datatype Rect = Rect(x: real, y: real, w: real, h: real)

  /**
   * `y + d` for a cursor that may already be `NaN` (`None`): `NaN` stays
   * `NaN`.
   */
  function Advance(y: Option<real>, d: real): (r: Option<real>)
    ensures r.Some? <==> y.Some?
    ensures r.Some? ==> r.value - d == y.value
  {
    if y.Some? then Some(y.value + d) else None
  }

  /**
   * Where the author label is drawn: below the quoted block and the 10 px
   * gap, if any. For a layout whose quote height is the sum `Plan` computes,
   * that is 18 px below the quoted block's height: the cursor spends
   * `authorH + 12` on the quoted author where the height counts
   * `authorH + 4`, then adds the 10 px gap.
   */
  function AuthorY(l: Layout): (y: real)
    ensures !l.quoted ==> y == PadY / 2.0
    ensures l.quoted && l.quotedH == l.authorH + 4 + |l.quotedLines| * (l.quotedLineH + 4) ==>
      y == PadY / 2.0 + l.quotedH as real + 18.0
  {
    var lines := |l.quotedLines| * (l.quotedLineH + 4);
    assert (l.authorH + 12 + lines) as real == (l.authorH + 4 + lines) as real + 8.0;
    PadY / 2.0 +
    if l.quoted then (l.authorH + 12 + lines) as real + BetweenQuoteAndBody
    else 0.0
  }

  /**
   * The cursor after the author label: `ascent + (descent ?? 0) + (gap ?? 12)`
   * further down. An author measure without an ascent makes the sum `NaN`.
   */
  function BodyTop(m: Measurer, s: Settings, l: Layout, msgAuthor: string): (r: Option<real>)
    ensures r.Some? <==> m(s.authorFont, msgAuthor).ascent.Some?
    ensures var met := m(s.authorFont, msgAuthor);
      r.Some? && met.descent.GetOr(0.0) >= 0.0 && s.authorToBodyGap.GetOr(DefaultAuthorToBodyGap) >= 0.0 ==>
      r.value >= AuthorY(l) + met.ascent.value
  {
    var met := m(s.authorFont, msgAuthor);
    if met.ascent.Some? then
      Some(AuthorY(l) + met.ascent.value + met.descent.GetOr(0.0) + s.authorToBodyGap.GetOr(DefaultAuthorToBodyGap))
    else None
  }

  /** The timestamp's y: after every body line and the 8 px gap. */
  function TimeY(m: Measurer, s: Settings, l: Layout, msgAuthor: string): (r: Option<real>)
    ensures r.Some? <==> BodyTop(m, s, l, msgAuthor).Some?
    ensures r.Some? && l.bodyH == |l.bodyLines| * l.bodyLineH ==>
      r.value == BodyTop(m, s, l, msgAuthor).value + l.bodyH as real + BetweenBodyAndTime
  {
    Advance(BodyTop(m, s, l, msgAuthor), (|l.bodyLines| * l.bodyLineH) as real + BetweenBodyAndTime)
  }

  /**
   * The drawing section's text cursor: the quoted block (bar, quoted author
   * and each quoted line, in reply mode with a quote only), the author label,
   * each body line and the timestamp, which is right-aligned against the
   * bubble's inner edge.
   */
  method PlaceText(m: Measurer, s: Settings, l: Layout, msgAuthor: string, timeText: string)
    returns (bar: Option<Rect>, quotedYs: seq<real>, authorY: real, bodyYs: seq<Option<real>>,
             timeX: real, timeY: Option<real>)
    ensures l.quoted ==> bar == Some(Rect(l.bubbleX + PadX, PadY / 2.0, BarW, (l.quotedH + 8 + |l.quotedLines|) as real))
    ensures !l.quoted ==> bar.None? && quotedYs == []
    ensures l.quoted ==>
      && |quotedYs| == |l.quotedLines| + 1 && quotedYs[0] == PadY / 2.0
      && forall i | 1 <= i < |quotedYs| ::
           quotedYs[i] == PadY / 2.0 + (l.authorH + 12 + (i - 1) * (l.quotedLineH + 4)) as real
    ensures authorY == AuthorY(l)
    ensures |bodyYs| == |l.bodyLines|
    ensures forall i | 0 <= i < |bodyYs| :: bodyYs[i] == Advance(BodyTop(m, s, l, msgAuthor), (i * l.bodyLineH) as real)
    ensures timeX + m(s.timeFont, timeText).width + PadX == l.bubbleX + l.bubbleW
    ensures timeY == TimeY(m, s, l, msgAuthor)
  {
    var x := l.bubbleX + PadX;
    var y;
    bar, quotedYs, y := PlaceQuote(l, x);
    authorY := y;
    var met := m(s.authorFont, msgAuthor);
    var cursor: Option<real> := None;
    if met.ascent.Some? {
      cursor := Some(y + met.ascent.value + met.descent.GetOr(0.0) + s.authorToBodyGap.GetOr(DefaultAuthorToBodyGap));
    }
    bodyYs, cursor := PlaceBody(cursor, l.bodyLineH, |l.bodyLines|);
    timeY := Advance(cursor, BetweenBodyAndTime);
    var timeWidth := m(s.timeFont, timeText).width;
    timeX := l.bubbleX + l.bubbleW - PadX - timeWidth;
  }

  /**
   * The quoted block at text column `x`: the bar, the quoted author at the
   * top padding, `authorH + 12` further down the first quoted line, then one
   * line every `quotedLineH + 4`; the cursor ends 10 px below the last one.
   */
  method PlaceQuote(l: Layout, x: real) returns (bar: Option<Rect>, quotedYs: seq<real>, y: real)
    ensures l.quoted ==> bar == Some(Rect(x, PadY / 2.0, BarW, (l.quotedH + 8 + |l.quotedLines|) as real))
    ensures !l.quoted ==> bar.None? && quotedYs == []
    ensures l.quoted ==>
      && |quotedYs| == |l.quotedLines| + 1 && quotedYs[0] == PadY / 2.0
      && forall i | 1 <= i < |quotedYs| ::
           quotedYs[i] == PadY / 2.0 + (l.authorH + 12 + (i - 1) * (l.quotedLineH + 4)) as real
    ensures y == AuthorY(l)
  {
    y := PadY / 2.0;
    bar, quotedYs := None, [];
    if !l.quoted {
      return;
    }
    bar := Some(Rect(x, y, BarW, (l.quotedH + 8 + |l.quotedLines|) as real));
    quotedYs := [y];
    y := y + l.authorH as real + 8.0 + 4.0;
    var i := 0;
    while i < |l.quotedLines|
      invariant 0 <= i <= |l.quotedLines|
      invariant |quotedYs| == i + 1 && quotedYs[0] == PadY / 2.0
      invariant forall k | 1 <= k < |quotedYs| ::
        quotedYs[k] == PadY / 2.0 + (l.authorH + 12 + (k - 1) * (l.quotedLineH + 4)) as real
      invariant y == PadY / 2.0 + (l.authorH + 12 + i * (l.quotedLineH + 4)) as real
    {
      quotedYs := quotedYs + [y];
      y := y + l.quotedLineH as real + 4.0;
      assert (i + 1) * (l.quotedLineH + 4) == i * (l.quotedLineH + 4) + l.quotedLineH + 4;
      i := i + 1;
    }
    y := y + BetweenQuoteAndBody;
  }

  /** `n` body lines from the cursor `top`, one every `lineH`; the cursor ends below the last. */
  method PlaceBody(top: Option<real>, lineH: int, n: nat) returns (ys: seq<Option<real>>, cursor: Option<real>)
    ensures |ys| == n
    ensures forall k | 0 <= k < n :: ys[k] == Advance(top, (k * lineH) as real)
    ensures cursor == Advance(top, (n * lineH) as real)
  {
    ys, cursor := [], top;
    var j := 0;
    while j < n
      invariant 0 <= j <= n
      invariant |ys| == j
      invariant forall k | 0 <= k < j :: ys[k] == Advance(top, (k * lineH) as real)
      invariant cursor == Advance(top, (j * lineH) as real)
    {
      ys := ys + [cursor];
      cursor := Advance(cursor, lineH as real);
      assert (j + 1) * lineH == j * lineH + lineH;
      j := j + 1;
    }
  }

  /**
   * How far the author label may reach (its ascent plus descent plus the
   * gap below it) before the timestamp's line box runs past the bubble's
   * bottom edge: 60 px in normal mode, 52 px under a quote and 70 px in
   * reply mode without one.
   */
  function AuthorAllowance(mode: Mode, quoted: bool): real {
    if mode == Normal then 60.0 else if quoted then 52.0 else 70.0
  }

  /** The relations `Plan` establishes between the heights of a layout. */
  ghost predicate Consistent(s: Settings, l: Layout) {
    && (l.quoted ==> s.mode == Reply && l.quotedH == l.authorH + 4 + |l.quotedLines| * (l.quotedLineH + 4))
    && (!l.quoted ==> l.quotedH == 0)
    && l.bodyH == |l.bodyLines| * l.bodyLineH
    && l.bubbleH == BubbleHeight(s.mode, l.quotedH, l.bodyH, l.timeH)
  }

  lemma PlanConsistent(m: Measurer, graphemes: string -> seq<string>, s: Settings,
                       replyAuthor: Option<string>, replySnippet: Option<string>,
                       bodyText: string, timeText: string)
    ensures Consistent(s, Plan(m, graphemes, s, replyAuthor, replySnippet, bodyText, timeText))
  {
  }

  /**
   * The timestamp's line box ends inside the bubble exactly when the author
   * label's advance is within the allowance: the bubble height budgets the
   * quote with 8 px less than the cursor spends on it and does not budget
   * the author label at all, leaving it only the padding.
   */
  lemma TimestampInsideBubble(m: Measurer, s: Settings, l: Layout, msgAuthor: string)
    requires Consistent(s, l)
    requires m(s.authorFont, msgAuthor).ascent.Some?
    ensures var met := m(s.authorFont, msgAuthor);
      var advance := met.ascent.value + met.descent.GetOr(0.0) + s.authorToBodyGap.GetOr(DefaultAuthorToBodyGap);
      TimeY(m, s, l, msgAuthor).Some? &&
      (TimeY(m, s, l, msgAuthor).value + l.timeH as real <= l.bubbleH <==> advance <= AuthorAllowance(s.mode, l.quoted))
  {
    var q := (|l.quotedLines| * (l.quotedLineH + 4)) as real;
    var b := l.bodyH as real;
    assert AuthorY(l) == PadY / 2.0 + (if l.quoted then l.authorH as real + 12.0 + q + 10.0 else 0.0);
    assert l.quoted ==> l.quotedH as real == l.authorH as real + 4.0 + q;
    assert (|l.bodyLines| * l.bodyLineH) as real == b;
  }

  /** The timestamp is right-aligned: it ends `padX` before the canvas's right edge. */
  lemma TimestampRightAligned(m: Measurer, graphemes: string -> seq<string>, s: Settings,
                              replyAuthor: Option<string>, replySnippet: Option<string>,
                              bodyText: string, timeText: string)
    ensures var l := Plan(m, graphemes, s, replyAuthor, replySnippet, bodyText, timeText);
      l.bubbleX + l.bubbleW - PadX == s.width - 14.0
  {
  }
}
