# Chat-bubble layout, modelled in Dafny

This project models the text-layout and geometry core of a service that renders a
chat message as a PNG "bubble" image. The message can be a reply (a quoted author and
snippet above the body) or a normal message. The bubble shows an author label, a
timestamp and a round avatar. The model covers four parts of the service:

- **The line wrapper `wrapText`** (`Wrapping`, `WrappingProofs`, `Text`).
  - Line endings are normalised and the text is split into paragraphs.
  - Each paragraph is cut into white-space and non-white-space runs, and the runs are
    packed greedily against a width budget.
  - A run too wide for a line of its own is broken into grapheme clusters.
  - Wrapping stops at `maxLines`. An ellipsis is added only when more than `maxLines`
    lines were collected.
  - The font measure and the grapheme splitter are injected functions.
  - `Wrapping.WrapText` is the imperative algorithm: nested loops, early `break`s and
    the shortening `while` loop. It is proved to return the functional specification
    `Wrapping.Wrap`, and every property of the wrapper is proved about `Wrap`.
- **The geometry planner of `createMessageBubble`** (`Bubble`).
  - The horizontal split of the canvas, the quoted-block height, the line heights (with
    their fallbacks), the bubble height and the canvas height.
  - The rounded-corner radius and the arrow vertices (`Shapes`).
  - The avatar choice, the initials, the author label.
  - The y cursor that places every line of text. The cursor is the imperative method
    `Bubble.PlaceText`.
- **The avatar helpers** (`Avatar`): source-string normalisation before an image is
  loaded, the cover-fit crop (over `real`), the circle and ring geometry, and the
  upper-cased initials.
- **Request validation and palette resolution** (`Validation`, `Styles`).
  - The `hexColor` rule and every field rule of the payload schema, including defaults,
    the strict colour override and the `avatarSrc` rule.
  - The reply-mode rule.
  - `resolveStyle` over the palette table.

Modelling conventions:

- A Dafny `char` is a Unicode scalar value, not a UTF-16 code unit. Inside the Basic Multilingual
  Plane the two agree, so there `|s|` is JavaScript's `s.length`. A character outside it is one
  `char` here and two code units (a surrogate pair) in the source; see "Left out".
- JavaScript numbers are `real`, with no floating-point rounding. `Math.ceil` is `Bubble.Ceil`.
- An optional value (`undefined`, or `null` where `??` treats it so) is `Wrappers.Option`.
- A `NaN` y cursor, which appears when the author measure has no ascent, is `None`.

Where the code departs from its evident intent, the model follows the code. The intent shows in
the source's own comments: `drawBalloonArrow` documents `side` as choosing the bubble's side
(src/QuoteMaking/Shapes/index.ts:110), and the truncation step says it applies the ellipsis when
the text exceeded `maxLines` (src/QuoteMaking/Shapes/index.ts:89). Each departure is stated as a lemma:

- Empty text wraps to one empty line `[""]`, not to zero lines (`WrappingProofs.WrapEmptyText`).
- Reaching exactly `maxLines` in the middle of a paragraph drops the rest of the text
  without an ellipsis. A single paragraph, however long, never gets one
  (`WrappingProofs.SingleParagraphNoEllipsis`).
- If the first cluster of a paragraph is wider than the line on its own, the wrapper
  first pushes an empty line (`WrappingProofs.WideGlyphLeadingBlankLine`).
- The arrow is not mirrored for `side = right`. It is drawn from the same anchor and
  lies over the bubble itself (`Bubble.ArrowPlacement`).
- Only the canvas, not the bubble, is at least as tall as the avatar (`Bubble.Plan`).
- The bubble height has no term for the author label. The cursor also spends 8 px more
  on a quote than the height allows for. So whether the timestamp ends inside the bubble
  depends on the author label's height (`Bubble.TimestampInsideBubble`).
- Reply mode adds the 10 px quote gap even when no quote is shown (`Bubble.ReplyGapWithoutQuote`).
- The renderer's default avatar size is 80 px, but the request schema's default is 64 px
  (`Bubble.ResolveDefaults`, `Validation.ParseDefaults`).
- The fallback palette's author colour `#128c7t` would not pass the schema's own colour
  check (`Validation.FallbackAuthorColorRejected`).

## Model

| member | source | states |
|---|---|---|
| Text.IsSpace | src/QuoteMaking/Shapes/index.ts:47 | the characters of JavaScript's `\s` class, which `trim`, `trimEnd` and `trimStart` also remove |
| Text.TrimEnd | src/QuoteMaking/Shapes/index.ts:51 | `trimEnd` keeps the longest prefix that does not end in white space; only white space is removed |
| Text.TrimStart | src/QuoteMaking/Shapes/index.ts:80 | `trimStart` keeps the longest suffix that does not start with white space; only white space is removed |
| Text.Trim | src/QuoteMaking/withResponse.ts:143 | `trim` is empty exactly for an all-white-space string; otherwise both its ends are non-space and it starts with the first character `trimStart` keeps |
| Text.TrimSlice | src/QuoteMaking/withResponse.ts:143 | `trim` is the slice of `s` that starts where `trimStart` leaves off |
| Text.TrimSurroundings | src/QuoteMaking/withResponse.ts:143 | before and after the slice `trim` keeps there is only white space |
| Text.Split | src/QuoteMaking/Shapes/index.ts:30 | `split('\n')` returns at least one part, and no part contains the separator |
| Text.JoinSplit | src/QuoteMaking/Shapes/index.ts:30 | joining the parts of a split with the separator gives back the string |
| Text.SplitJoin | src/QuoteMaking/Shapes/index.ts:30 | splitting a join of separator-free parts gives back the parts |
| Text.NormalizeNewlines | src/QuoteMaking/Shapes/index.ts:30 | after `replace(/\r\n?/g, '\n')` no CR is left and the text is no longer; text without a CR is unchanged |
| Text.NormalizeNewlinesPrefix | src/QuoteMaking/Shapes/index.ts:30 | CR-free text is kept as it is in front of whatever follows it |
| Text.NormalizeNewlinesCrLf | src/QuoteMaking/Shapes/index.ts:30 | a CRLF pair becomes a single LF |
| Text.NormalizeNewlinesLoneCr | src/QuoteMaking/Shapes/index.ts:30 | a CR that is not followed by LF also becomes a single LF |
| Text.Tokens | src/QuoteMaking/Shapes/index.ts:47 | `split(/(\s+)/).filter(Boolean)` concatenates back to the paragraph; each token is non-empty and all space or all non-space; neighbours alternate kind |
| Text.SplitOnSpaceRuns | src/QuoteMaking/withResponse.ts:144 | `split(/\s+/)` yields at least one piece and no piece holds white space; there is one piece exactly when the string has no white space, and it is then the string itself |
| Text.SplitOnSpaceRunsWord | src/QuoteMaking/withResponse.ts:144 | a word followed by a white-space run is the first piece, and the pieces of the rest follow it, so every piece is a word of the string |
| Text.SplitOnSpaceRunsSecond | src/QuoteMaking/withResponse.ts:143-144 | in a trimmed string with white space inside, the second piece starts at the first character after the first white-space run |
| Text.SplitOnSpaceRunsNonEmpty | src/QuoteMaking/withResponse.ts:143-144 | on a trimmed non-empty string, `split(/\s+/)` yields no empty piece |
| Text.RemoveSpaces | src/QuoteMaking/Shapes/drawAvatar.ts:11 | `replace(/\s+/g, '')` leaves no white space, never lengthens the string and changes nothing in a string without any |
| Text.RemoveSpacesChar | src/QuoteMaking/Shapes/drawAvatar.ts:11 | a white-space character is dropped and any other character is kept |
| Text.RemoveSpacesAppend | src/QuoteMaking/Shapes/drawAvatar.ts:11 | removal works piece by piece, so the non-space characters stay in their order |
| Text.ToUpper | src/QuoteMaking/Shapes/drawAvatar.ts:119 | upper-casing keeps the length, leaves no lower-case ASCII letter and changes only those letters, each by the ASCII case offset |
| Wrapping.Flush | src/QuoteMaking/Shapes/index.ts:50-53 | `flush` pushes exactly one line when the open line is non-empty and none otherwise; the pushed line is a prefix of the open line that does not end in white space |
| Wrapping.Overflow | src/QuoteMaking/Shapes/index.ts:62-81 | a token that does not fit on the open line only pushes lines; when it fits on a line of its own, the open line is flushed and the token, less its leading white space, opens the next |
| Wrapping.PackGraphemes | src/QuoteMaking/Shapes/index.ts:62-76 | breaking a token into graphemes only pushes lines, never rewriting the lines before it |
| Wrapping.PackTokens | src/QuoteMaking/Shapes/index.ts:47-84 | packing the tokens of a paragraph only pushes lines |
| Wrapping.PackParagraphs | src/QuoteMaking/Shapes/index.ts:40-87 | the paragraph loop only pushes lines |
| Wrapping.Accumulate | src/QuoteMaking/Shapes/index.ts:40-87 | no line collected by the paragraph loop ends in white space |
| Wrapping.PackGraphemesTrimmed | src/QuoteMaking/Shapes/index.ts:62-76 | the lines the grapheme loop pushes do not end in white space |
| Wrapping.FlushTrimmed | src/QuoteMaking/Shapes/index.ts:50-53 | the line `flush` pushes does not end in white space |
| Wrapping.PackTokensTrimmed | src/QuoteMaking/Shapes/index.ts:47-84 | the lines the token loop pushes do not end in white space |
| Wrapping.PackParagraphsTrimmed | src/QuoteMaking/Shapes/index.ts:40-87 | the lines the paragraph loop pushes do not end in white space |
| Wrapping.Ellipsize | src/QuoteMaking/Shapes/index.ts:89-100 | at most `maxLines` lines come out; no more than `maxLines` go through unchanged; otherwise the first `maxLines - 1` are kept |
| Wrapping.Wrap | src/QuoteMaking/Shapes/index.ts:22-101 | `wrapText` never returns more than `maxLines` lines |
| Wrapping.WrapText | src/QuoteMaking/Shapes/index.ts:22-101 | the imperative wrapper returns exactly `Wrap` of its arguments |
| Wrapping.WrapParagraph | src/QuoteMaking/Shapes/index.ts:47-84 | the token loop of one paragraph ends in the state `PackTokens` gives |
| Wrapping.BreakToken | src/QuoteMaking/Shapes/index.ts:63-76 | the per-grapheme loop ends in the state `PackGraphemes` gives, stopping at `maxLines` |
| Wrapping.ApplyEllipsis | src/QuoteMaking/Shapes/index.ts:89-100 | the truncation step returns `Ellipsize`; its shortening loop terminates |
| Wrapping.ShortenToFit | src/QuoteMaking/Shapes/index.ts:92-95 | the shortened line is a prefix that fits with the ellipsis (or is empty), and no longer prefix fits |
| Wrapping.Paragraphs | src/QuoteMaking/Shapes/index.ts:30 | there is at least one paragraph, none contains CR or LF, and joined with LF they give the normalised text |
| WrappingProofs.WrapEmptyText | src/QuoteMaking/Shapes/index.ts:40-45 | the empty text is one empty paragraph and wraps to `[""]` |
| WrappingProofs.WrapLineCount | src/QuoteMaking/Shapes/index.ts:73-91 | with a faithful grapheme splitter the result has between 1 and `maxLines` lines |
| WrappingProofs.WrapNoTrailingSpace | src/QuoteMaking/Shapes/index.ts:50-53 | with a non-empty ellipsis that does not end in white space, no returned line ends in white space |
| WrappingProofs.WrapWidthBound | src/QuoteMaking/Shapes/index.ts:55-96 | for a monotone measure every line fits, or is empty, or is a lone over-wide grapheme cluster, or is the bare ellipsis of a truncated last line |
| WrappingProofs.PackTokensAllFit | src/QuoteMaking/Shapes/index.ts:55-59 | tokens that fit together after the open line are all appended to it |
| WrappingProofs.WrapFittingParagraph | src/QuoteMaking/Shapes/index.ts:55-86 | a single paragraph that fits is returned as one line, its trailing white space trimmed |
| WrappingProofs.WrapEllipsis | src/QuoteMaking/Shapes/index.ts:89-100 | at most `maxLines` accumulated lines are returned unchanged; otherwise exactly `maxLines` lines come back, the first `maxLines - 1` kept and the last the longest fitting prefix plus the ellipsis |
| WrappingProofs.SingleParagraphNoEllipsis | src/QuoteMaking/Shapes/index.ts:73-90 | a text without line breaks accumulates at most `maxLines` lines and so never gets an ellipsis |
| WrappingProofs.WideGlyphLeadingBlankLine | src/QuoteMaking/Shapes/index.ts:62-76 | a single word that is one over-wide cluster wraps to `["", word]` (`[""]` when `maxLines` is 1) |
| Shapes.CornerRadius | src/QuoteMaking/Shapes/index.ts:11 | the radius is at most `r`, `w / 2` and `h / 2`, and equals one of them |
| Shapes.CornerRadiusIsGreatest | src/QuoteMaking/Shapes/index.ts:11 | any value below all three is below the radius, so the radius is their minimum |
| Shapes.CornerRadiusFits | src/QuoteMaking/Shapes/index.ts:11 | two corners fit along each side |
| Shapes.ArrowVertices | src/QuoteMaking/Shapes/index.ts:124-134 | the path is the corner `(x, y)`, the tip `size` left or right of it, and `(x, y + height)` |
| Shapes.ArrowSidesMirror | src/QuoteMaking/Shapes/index.ts:124-134 | the left and right triangles are mirror images about the anchor's vertical line |
| Avatar.IsDataUrl | src/QuoteMaking/Shapes/drawAvatar.ts:5 | the data-URL test: the `data:image/` prefix, a non-empty run of ASCII letters, then `;base64,` |
| Avatar.IsPureBase64 | src/QuoteMaking/Shapes/drawAvatar.ts:6 | the bare-base64 test: more than 512 characters, each a base64 character or white space |
| Avatar.DataUrlOfType | src/QuoteMaking/Shapes/drawAvatar.ts:5 | any letter-only image type followed by `;base64,` and any payload passes the data-URL test |
| Avatar.NormalizeSource | src/QuoteMaking/Shapes/drawAvatar.ts:5-12 | the loader gets a data URL or the input unchanged; a changed input was a long bare base64 string and now starts with the PNG data prefix |
| Avatar.PngPrefixIsDataUrl | src/QuoteMaking/Shapes/drawAvatar.ts:5 | anything after `data:image/png;base64,` makes a data URL |
| Avatar.DataUrlUnchanged | src/QuoteMaking/Shapes/drawAvatar.ts:5-9 | a data URL passes through unchanged |
| Avatar.BareBase64Wrapped | src/QuoteMaking/Shapes/drawAvatar.ts:6-11 | a long bare base64 string becomes the PNG prefix plus the string without white space, which is a data URL |
| Avatar.OtherSourcesUnchanged | src/QuoteMaking/Shapes/drawAvatar.ts:6-12 | every other input, any non-data string of at most 512 characters included, is unchanged |
| Avatar.NormalizeIdempotent | src/QuoteMaking/Shapes/drawAvatar.ts:5-12 | normalising twice gives what normalising once gives |
| Avatar.CoverCrop | src/QuoteMaking/Shapes/drawAvatar.ts:26-43 | a wider image keeps its full height; any other image keeps its full width |
| Avatar.CoverCropAspect | src/QuoteMaking/Shapes/drawAvatar.ts:26-43 | the crop has the box's aspect ratio: `sw * h == sh * w` |
| Avatar.CoverCropInsideCentred | src/QuoteMaking/Shapes/drawAvatar.ts:33-43 | the crop lies inside the image, has equal margins on opposite sides and spans the full width or the full height |
| Avatar.CircularAvatar | src/QuoteMaking/Shapes/drawAvatar.ts:61-91 | the centre is `(xCenter, yCenter)`, the radius is half the size, the image square is centred on the centre, a ring is drawn exactly for a positive border width, and the shadow exactly for a non-zero blur |
| Avatar.RingTouchesClipCircle | src/QuoteMaking/Shapes/drawAvatar.ts:85-90 | the ring's stroke ends exactly on the clip circle |
| Avatar.InitialsLabel | src/QuoteMaking/Shapes/drawAvatar.ts:119 | the drawn initials keep their length; each lower-case ASCII letter becomes its upper-case letter (its code less 32), and every other character is unchanged |
| Avatar.InitialsLabelIdempotent | src/QuoteMaking/Shapes/drawAvatar.ts:119 | upper-casing the label again changes nothing |
| Bubble.Resolve | src/QuoteMaking/withResponse.ts:40-64 | each layout option `opts.x ?? default` (the contract is `Bubble.ResolveDefaults`) |
| Bubble.ResolveDefaults | src/QuoteMaking/withResponse.ts:40-64 | every absent option takes its default (normal, left, 400, 16, 80, `bold 36px Arial`, `32px Arial`, `32px Arial`, `24px Arial`); every present one is used as given; the author gap and avatar border stay optional |
| Bubble.BubbleHeight | src/QuoteMaking/withResponse.ts:111-117 | with non-negative parts the bubble is at least 80 px tall: three paddings and the gap before the timestamp |
| Bubble.Ceil | src/QuoteMaking/withResponse.ts:82-84 | `Math.ceil(x)` is the integer in `[x, x + 1)` |
| Bubble.LineBox | src/QuoteMaking/withResponse.ts:82-109 | a line box is the ceiling of its two extents, a missing extent replaced by its fallback; without either it is the ceiling of the two fallbacks |
| Bubble.Max | src/QuoteMaking/withResponse.ts:119 | `Math.max` is at least both arguments and equals one of them |
| Bubble.Plan | src/QuoteMaking/withResponse.ts:70-119 | `bubbleX = avatarSize + 8` and `bubbleX + bubbleW = width`, with `textMaxW = bubbleW - 28`; the quote is measured exactly in reply mode with a non-empty author and snippet, and wraps at `textMaxW - 13`; `authorH`, `quotedLineH`, `bodyLineH` and `timeH` are the line boxes of the author, `Mg` in the quoted font (+2), `Mg` in the body font (+3) and the timestamp, with fallbacks 14/4, 12/4, 15/5 and 10/3; the stated quote, body and bubble heights; the canvas height is the larger of bubble height and avatar size |
| Bubble.QuoteBlock | src/QuoteMaking/withResponse.ts:79-94 | the quote block's author line box (fallback 14/4), its line height (`Mg` box + 2, fallback 12/4), the snippet wrapped at `textMaxW - 13` into at most 20 lines, and `quotedH = authorH + 4 + lines * (quotedLineH + 4)` |
| Bubble.FallbackHeights | src/QuoteMaking/withResponse.ts:82-109 | with no bounding boxes the heights are 18 (quoted author), 18 (quoted line), 23 (body line) and 13 (timestamp) |
| Bubble.LineCounts | src/QuoteMaking/withResponse.ts:92-102 | with a faithful grapheme splitter the body, and a shown quote, wrap to 1..20 lines |
| Bubble.ReplyGapWithoutQuote | src/QuoteMaking/withResponse.ts:111-117 | in reply mode without a shown quote, the bubble is 10 px taller than in normal mode |
| Bubble.CanvasHeightMonotone | src/QuoteMaking/withResponse.ts:103-119 | with a non-negative body line height, more body lines never make the canvas shorter |
| Bubble.BubbleCornerRadius | src/QuoteMaking/withResponse.ts:153 | the bubble's corner radius is at most the requested radius and half of each side, and equals one of them, so it is their minimum |
| Bubble.BubbleArrow | src/QuoteMaking/withResponse.ts:155-165 | the arrow runs from `(bubbleX + 12, 0)` to a tip 24 px to the left (`left`) or right (`right`) at the same height, then down to `(bubbleX + 12, 36)` |
| Bubble.ArrowPlacement | src/QuoteMaking/withResponse.ts:155-165 | on a bubble at least 36 px wide and tall, the right arrow lies within the bubble; the left arrow's tip is 12 px left of it |
| Bubble.FirstUnit | src/QuoteMaking/withResponse.ts:145 | a word's first character (its first code unit in the Basic Multilingual Plane), nothing for an empty word |
| Bubble.Initials | src/QuoteMaking/withResponse.ts:142-147 | at most two characters, none of them white space |
| Bubble.InitialsBlank | src/QuoteMaking/withResponse.ts:142-147 | the initials are empty exactly for a blank name |
| Bubble.InitialsFirst | src/QuoteMaking/withResponse.ts:142-147 | the first initial is the name's first non-space character |
| Bubble.InitialsSecond | src/QuoteMaking/withResponse.ts:142-147 | when the trimmed name has white space inside, the second initial is the first character after its first white-space run, the first character of the second word |
| Bubble.InitialsCount | src/QuoteMaking/withResponse.ts:142-147 | there are two initials exactly when the trimmed name contains white space |
| Bubble.AuthorLabel | src/QuoteMaking/withResponse.ts:197 | names up to 15 characters are unchanged; longer ones become their first 14 plus `...`, 17 in all |
| Bubble.AuthorLabelLength | src/QuoteMaking/withResponse.ts:197 | the label is at most 17 long, and a 16-character name gets longer |
| Bubble.AvatarPlan | src/QuoteMaking/withResponse.ts:126-149 | the photo is drawn exactly when a non-empty source, once normalised, loads; it fills the top-left square with a shadow; otherwise the upper-cased initials are drawn centred in a disc of the same size |
| Bubble.DefaultAvatarRing | src/QuoteMaking/withResponse.ts:132-137 | without a border option the photo gets a 2 px ring of radius `avatarSize / 2 - 1` |
| Bubble.Advance | src/QuoteMaking/withResponse.ts:206 | moving a cursor keeps a `NaN` cursor `NaN` and otherwise moves it by the distance |
| Bubble.AuthorY | src/QuoteMaking/withResponse.ts:169-191 | without a quote the author label is drawn at `padY / 2`; under a quote whose height is the sum `Plan` gives, it is drawn `quotedH + 18` lower |
| Bubble.BodyTop | src/QuoteMaking/withResponse.ts:203-206 | the body starts at a number exactly when the author measure has an ascent (otherwise the cursor is `NaN`); with a non-negative descent and gap it starts at least the ascent below the author's y |
| Bubble.TimeY | src/QuoteMaking/withResponse.ts:208-219 | the timestamp's y is a number exactly when the body top is, and is then the body top plus `bodyH` plus the 8 px gap |
| Bubble.PlaceText | src/QuoteMaking/withResponse.ts:167-219 | the bar rectangle, the y of the quoted author and of each quoted line, the author's y, the y of each body line and the timestamp's position; the timestamp ends `padX` inside the bubble's right edge |
| Bubble.PlaceQuote | src/QuoteMaking/withResponse.ts:171-191 | the quoted lines are `quotedLineH + 4` apart, starting `authorH + 12` below the quoted author, and the cursor ends at the author label's y |
| Bubble.PlaceBody | src/QuoteMaking/withResponse.ts:208-215 | the body lines are `bodyLineH` apart from the top of the body |
| Bubble.PlanConsistent | src/QuoteMaking/withResponse.ts:93-117 | every planned layout satisfies the height relations the timestamp lemma assumes |
| Bubble.TimestampInsideBubble | src/QuoteMaking/withResponse.ts:202-219 | when the author label's ascent is known, the timestamp's line box ends inside the bubble exactly when the author label's advance is at most 60 px (normal), 52 px (under a quote) or 70 px (reply mode without a quote) |
| Bubble.TimestampRightAligned | src/QuoteMaking/withResponse.ts:219 | the timestamp's right edge is at `width - 14` |
| Styles.KeyNamesDistinct | src/QuoteMaking/Styles/index.ts:4-10 | the seven colour keys have distinct names |
| Styles.KeyNamed | src/QuoteMaking/Styles/index.ts:4-10 | each of the seven names names its key |
| Styles.FallbackInTable | src/QuoteMaking/Styles/index.ts:14-22 | the fallback palette `whatsappDark` is in the table, with author colour `#128c7t` |
| Validation.IsHexColor | src/Validation/index.ts:5-7 | the `hexColor` regex: `#` and then exactly three or six hex digits |
| Validation.AvatarSrcOk | src/Validation/index.ts:39-48 | the `avatarSrc` rule: an `http://` or `https://` URL, or a non-empty string of base64 characters and white space |
| Validation.ParseMode | src/Validation/index.ts:24 | absent gives `normal`; a present value is accepted exactly when it is the string `normal` or `reply`, and the result names it |
| Validation.ParseSide | src/Validation/index.ts:25 | absent gives `left`; a present value is accepted exactly when it is the string `left` or `right`, and the result names it |
| Validation.ParseString | src/Validation/index.ts:30-31 | a required string is accepted exactly when it is present, is a string and its length is within the bounds, and is then returned as given |
| Validation.ParseStringDefault | src/Validation/index.ts:32 | absent gives the default; a present value is accepted exactly when it is a string, and is then returned as given |
| Validation.ParseOptString | src/Validation/index.ts:26 | an optional string is absent exactly when the key is; a present string within the maximum length is accepted as given, and nothing else is |
| Validation.ParseIntDefault | src/Validation/index.ts:51-52 | absent gives the default; a present value is accepted exactly when it is an integer number within the bounds, and is then that integer |
| Validation.ParseOptInt | src/Validation/index.ts:53 | an optional integer is absent exactly when the key is; a present value is accepted exactly when it is an integer number within the bounds, and is then that integer |
| Validation.ParseFonts | src/Validation/index.ts:54-62 | absent gives no fonts; a non-object is rejected; an object is accepted exactly when each of the four font keys is absent or a string, and the result holds exactly those strings |
| Validation.FieldsOk | src/Validation/index.ts:22-63 | the field rules of the object schema; the width and avatar-size bounds leave the bubble's text column at least 4 px wide |
| Validation.WellFormed | src/Validation/index.ts:22-79 | an accepted payload meets the field rules and raises no reply issue |
| Validation.ParseFields | src/Validation/index.ts:22-63 | a body that passes the object schema yields a payload that meets every field constraint (lengths, integer ranges, colours, `avatarSrc`) |
| Validation.HexColorDigits | src/Validation/index.ts:5-7 | a hex colour is `#` and then three or six hex digits of either case |
| Validation.FallbackAuthorColorRejected | src/Validation/index.ts:5-7 | the fallback palette's author colour is not a hex colour |
| Validation.ParseOverride | src/Validation/index.ts:9-20 | an accepted override object gives exactly the colours it holds, each a hex colour |
| Validation.OverrideIsStrict | src/Validation/index.ts:9-20 | an override object holding any other key is rejected |
| Validation.ReplyIssues | src/Validation/index.ts:64-79 | in reply mode there is one issue per missing or empty reply author or snippet; normal mode has none |
| Validation.Parse | src/Validation/index.ts:22-79 | every accepted payload keeps the length bounds, integer ranges, colour rule, `avatarSrc` rule and reply rule |
| Validation.ParseDefaults | src/Validation/index.ts:24-53 | a body with only a valid `bodyText` and `msgAuthor` is accepted with every default (normal, left, `""`, 400, 64) |
| Validation.ParseIgnoresUnknownKeys | src/Validation/index.ts:22-63 | keys the schema does not name make no difference |
| Validation.ParseToJson | src/Validation/index.ts:22-79 | every payload that meets the constraints is what its own request body parses to |
| Validation.ToJsonContent | src/Validation/index.ts:24-36 | the enum and text fields of a written payload parse back |
| Validation.ToJsonLayout | src/Validation/index.ts:39-53 | the `avatarSrc` and numeric fields of a written payload parse back |
| Validation.ToJsonObjects | src/Validation/index.ts:9-20 | the override and font objects of a written payload parse back |
| Validation.OverrideRoundTrip | src/Validation/index.ts:9-20 | an override of hex colours parses back from its object |
| Validation.FontsRoundTrip | src/Validation/index.ts:54-62 | a font selection parses back from its object |
| Validation.BaseStyle | src/Validation/index.ts:88-91 | a non-empty known key selects its palette; anything else selects `whatsappDark` |
| Validation.ResolveStyle | src/Validation/index.ts:93-96 | each colour is the override's when it gives one, and the base palette's otherwise |
| Validation.EmptyOverrideKeepsBase | src/Validation/index.ts:93-96 | no override, or an empty one, gives the base palette |
| Validation.ResolvedPaletteOfPayload | src/Validation/index.ts:84-96 | for a validated request every resolved colour is a hex override or the base palette's colour |
| Validation.UnknownStyleFallsBack | src/Validation/index.ts:88-91 | a missing, empty or unknown key resolves like `whatsappDark` |

## Left out

- The HTTP layer (src/index.ts) is not part of this model: the Express app, status codes and headers.
- Pixel drawing is not modelled: paths, `arcTo`, clipping, fills, strokes, text rendering and PNG encoding. Only the coordinates passed to them are.
- Image loading (`canvas.loadImage`, the `await` and the `try`/`catch`) is the injected predicate `loads`.
- Font metrics are the injected `Measurer`, and grapheme segmentation (`Intl.Segmenter` or `Array.from`) is an injected splitter. The width-bound and line-count lemmas state what they assume of these as premises.
- Colours, shadow colours and font strings are opaque strings. The colour options of `createMessageBubble` are not part of `Bubble.Options`, because nothing in the layout depends on them.
- Floating-point rounding, `Infinity` and a `NaN` supplied as an option are not modelled, because numbers are `real`.
- Wrapping.WrapText: `maxLines` below 1 is excluded (`requires maxLines >= 1`). For such a value the source indexes `clipped[-1]` and can throw. Every caller uses the default 20.
- Avatar.CoverCrop: the image and target dimensions are required to be positive. For zero dimensions the source divides by zero.
- Text.ToUpper: upper-cases ASCII letters only. `toUpperCase` on other scripts is not modelled.
- Avatar.InitialsLabel: upper-cases ASCII letters only, so its length-keeping contract holds for the model but not for every source input. The source turns `é` into `É` and `ß` into `SS`, which makes the label longer.
- Text.IsSpace: a `char` is a Unicode scalar value. The white-space set has no character outside the Basic Multilingual Plane, so it is exact. Grapheme clusters come only from the injected splitter.
- Bubble.AuthorLabel: counts characters, not UTF-16 code units. A name with a character outside the Basic Multilingual Plane is cut later here than by `length` and `slice(0, 14)`, which can also split a surrogate pair.
- Bubble.FirstUnit: takes a word's first character. For a word that starts outside the Basic Multilingual Plane the source's `w[0]` is a lone high surrogate.
- Bubble.Initials: built from `Bubble.FirstUnit`, so the same difference applies to each initial.
- Wrapping.ShortenToFit: drops one character per step. The source's `slice(0, -1)` drops one code unit, so it can stop between the two halves of a surrogate pair.
- Wrapping.ApplyEllipsis: runs `Wrapping.ShortenToFit`, so the same difference applies.
- Validation.ParseString: its length bounds count characters. zod's `min` and `max` count code units, so a character outside the Basic Multilingual Plane counts as two there.
- Validation.FieldsOk: its length bounds on `bodyText`, `msgAuthor`, `replyAuthor` and `replySnippet` count characters, not code units, for the same reason.
- Validation.BaseStyle: keys inherited from `Object.prototype` (for example `toString`) are treated as unknown keys. In the source such a key finds a function, and spreading it gives no colours.
- Validation.Parse: takes the body as a JSON object (a map from keys to values). A body that is not a JSON object cannot be represented, and the source rejects it.
- Validation.Parse: accepts or rejects only. The wording and paths of zod's issues are not modelled; only the reply rule's issues are listed (`Validation.ReplyIssues`).
- The renderer's other options (`authorColor`, shadow settings) and the font strings reach the canvas unchanged, so no property is stated about them.
