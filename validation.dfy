/**
 * The request validation of src/Validation/index.ts: the `hexColor` rule,
 * the payload schema (field types, bounds, defaults, the strict colour
 * override and the `avatarSrc` refinement), the reply-mode rule of its
 * `superRefine`, and `resolveStyle`, which picks a palette and spreads the
 * override over it.
 *
 * The request body is a JSON object. Parsing either rejects it or yields a
 * typed `Payload` with the defaults filled in; which issues are reported and
 * how they are worded is left out, except for the reply-mode rule, whose
 * issues are listed.
 */
module Validation {
  import opened Wrappers
  import opened Text
  import Shapes
  import Bubble
  import Avatar
  import Styles

  datatype Json =
    | JNull
    | JBool(b: bool)
    | JNum(n: real)
    | JStr(s: string)
    | JArr(items: seq<Json>)
    | JObj(fields: map<string, Json>)

  // ---------------------------------------------------------------------
  // hexColor
  // ---------------------------------------------------------------------

  predicate IsHexDigit(c: char) {
    ('0' <= c <= '9') || ('a' <= c <= 'f') || ('A' <= c <= 'F')
  }

  predicate AllHex(s: string) {
    forall i | 0 <= i < |s| :: IsHexDigit(s[i])
  }

  /** `/^#([0-9a-fA-F]{3}|[0-9a-fA-F]{6})$/`. */
  predicate IsHexColor(s: string) {
    (|s| == 4 || |s| == 7) && s[0] == '#' && AllHex(s[1..])
  }

  /** A hex colour is `#` followed by three or six hex digits of either case, and nothing else is. */
  lemma HexColorDigits(digits: string)
    ensures IsHexColor("#" + digits) <==> (|digits| == 3 || |digits| == 6) && AllHex(digits)
  {
    assert ("#" + digits)[1..] == digits;
  }

  /**
   * The author colour of the fallback palette, `#128c7t`, is not a hex
   * colour: it could not be sent as an override.
   */
  lemma FallbackAuthorColorRejected()
    ensures Styles.FallbackStyle in Styles.BubbleStyles
    ensures !IsHexColor(Styles.BubbleStyles[Styles.FallbackStyle].authorColor)
  {
    Styles.FallbackInTable();
    var c := Styles.BubbleStyles[Styles.FallbackStyle].authorColor;
    assert !IsHexDigit(c[6]);
  }

  // ---------------------------------------------------------------------
  // Field parsers: `None` rejects the body
  // ---------------------------------------------------------------------

  /** The value under `k`, `None` when the key is absent. */
  function Field(o: map<string, Json>, k: string): Option<Json> {
    if k in o then Some(o[k]) else None
  }

  /** `z.enum(['normal', 'reply']).default('normal')`. */
  function ParseMode(v: Option<Json>): (r: Option<Bubble.Mode>)
    ensures v.None? ==> r == Some(Bubble.Normal)
    ensures v.Some? ==> (r.Some? <==> v.value == JStr("normal") || v.value == JStr("reply"))
    ensures v.Some? && r.Some? ==> v.value == JStr(ModeName(r.value))
  {
    if v.None? then Some(Bubble.Normal)
    else if v.value == JStr("normal") then Some(Bubble.Normal)
    else if v.value == JStr("reply") then Some(Bubble.Reply)
    else None
  }

  /** `z.enum(['left', 'right']).default('left')`. */
  function ParseSide(v: Option<Json>): (r: Option<Shapes.Side>)
    ensures v.None? ==> r == Some(Shapes.Left)
    ensures v.Some? ==> (r.Some? <==> v.value == JStr("left") || v.value == JStr("right"))
    ensures v.Some? && r.Some? ==> v.value == JStr(SideName(r.value))
  {
    if v.None? then Some(Shapes.Left)
    else if v.value == JStr("left") then Some(Shapes.Left)
    else if v.value == JStr("right") then Some(Shapes.Right)
    else None
  }

  /** `z.string().min(lo).max(hi)`, required. */
  function ParseString(v: Option<Json>, lo: nat, hi: nat): (r: Option<string>)
    ensures r.Some? ==> v == Some(JStr(r.value)) && lo <= |r.value| <= hi
    ensures v.Some? && v.value.JStr? && lo <= |v.value.s| <= hi ==> r.Some?
  {
    if v.Some? && v.value.JStr? && lo <= |v.value.s| <= hi then Some(v.value.s) else None
  }

  /** `z.string().default(d)`. */
  function ParseStringDefault(v: Option<Json>, d: string): (r: Option<string>)
    ensures v.None? ==> r == Some(d)
    ensures v.Some? ==> (r.Some? <==> v.value.JStr?)
    ensures v.Some? && r.Some? ==> v == Some(JStr(r.value))
  {
    if v.None? then Some(d) else if v.value.JStr? then Some(v.value.s) else None
  }

  /** `z.string().max(hi).optional()` (`z.string().optional()` when `hi` is `None`). */
  function ParseOptString(v: Option<Json>, hi: Option<nat>): (r: Option<Option<string>>)
    ensures r == Some(None) <==> v.None?
    ensures r.Some? && r.value.Some? ==>
      v == Some(JStr(r.value.value)) && (hi.None? || |r.value.value| <= hi.value)
    ensures v.Some? && v.value.JStr? && (hi.None? || |v.value.s| <= hi.value) ==> r.Some?
  {
    if v.None? then Some(None)
    else if v.value.JStr? && (hi.None? || |v.value.s| <= hi.value) then Some(Some(v.value.s))
    else None
  }

  /** `z.number().int().min(lo).max(hi)`. */
  predicate IsIntIn(j: Json, lo: int, hi: int) {
    j.JNum? && j.n.Floor as real == j.n && lo as real <= j.n <= hi as real
  }

  /** `z.number().int().min(lo).max(hi).default(d)`. */
  function ParseIntDefault(v: Option<Json>, lo: int, hi: int, d: int): (r: Option<int>)
    ensures v.None? ==> r == Some(d)
    ensures v.Some? ==> (r.Some? <==> IsIntIn(v.value, lo, hi))
    ensures v.Some? && r.Some? ==> v.value == JNum(r.value as real) && lo <= r.value <= hi
  {
    if v.None? then Some(d)
    else if IsIntIn(v.value, lo, hi) then Some(v.value.n.Floor)
    else None
  }

  /** `z.number().int().min(lo).max(hi).optional()`. */
  function ParseOptInt(v: Option<Json>, lo: int, hi: int): (r: Option<Option<int>>)
    ensures r == Some(None) <==> v.None?
    ensures v.Some? ==> (r.Some? <==> IsIntIn(v.value, lo, hi))
    ensures r.Some? && r.value.Some? ==> v == Some(JNum(r.value.value as real)) && lo <= r.value.value <= hi
  {
    if v.None? then Some(None)
    else if IsIntIn(v.value, lo, hi) then Some(Some(v.value.n.Floor))
    else None
  }

  /** The refinement on `avatarSrc`: an http(s) URL, or a non-empty run of base64 characters and white space. */
  predicate AvatarSrcOk(s: string) {
    || "http://" <= s || "https://" <= s
    || (|s| >= 1 && forall i | 0 <= i < |s| :: Avatar.IsBase64Char(s[i]) || IsSpace(s[i]))
  }

  /** The parsed override: each colour key optional. */
  datatype Override = Override(
    bubbleColor: Option<string>, textColor: Option<string>, quotedBarColor: Option<string>,
    quotedHeaderColor: Option<string>, quotedTextColor: Option<string>,
    timeColor: Option<string>, authorColor: Option<string>)
  {
    /** `override[key]`, `None` when the key was not given. */
    function Get(k: Styles.ColorKey): Option<string> {
      match k
      case BubbleColor => bubbleColor
      case TextColor => textColor
      case QuotedBarColor => quotedBarColor
      case QuotedHeaderColor => quotedHeaderColor
      case QuotedTextColor => quotedTextColor
      case TimeColor => timeColor
      case AuthorColor => authorColor
    }
  }

  /** The strict override object: only the seven colour keys, each holding a hex colour. */
  predicate OverrideOk(o: map<string, Json>) {
    o.Keys <= Styles.ColorKeyNames && forall k | k in o :: o[k].JStr? && IsHexColor(o[k].s)
  }

  /** The colour given under `k`'s name. */
  function GivenColor(o: map<string, Json>, k: Styles.ColorKey): Option<string>
    requires OverrideOk(o)
  {
    var name := Styles.KeyName(k);
    if name in o then Some(o[name].s) else None
  }

  /** `styleOverrideSchema`: absent, or a strict object of optional hex colours. */
  function ParseOverride(v: Option<Json>): (r: Option<Option<Override>>)
    ensures r.Some? && r.value.Some? ==>
      && v.Some? && v.value.JObj?
      && forall k: Styles.ColorKey ::
           && (r.value.value.Get(k).Some? <==> Styles.KeyName(k) in v.value.fields)
           && (r.value.value.Get(k).Some? ==> IsHexColor(r.value.value.Get(k).value))
  {
    if v.None? then Some(None)
    else if v.value.JObj? && OverrideOk(v.value.fields) then
      var o := v.value.fields;
      Some(Some(Override(
        GivenColor(o, Styles.BubbleColor), GivenColor(o, Styles.TextColor),
        GivenColor(o, Styles.QuotedBarColor), GivenColor(o, Styles.QuotedHeaderColor),
        GivenColor(o, Styles.QuotedTextColor), GivenColor(o, Styles.TimeColor),
        GivenColor(o, Styles.AuthorColor))))
    else None
  }

  /**
   * The override is strict: an object holding any key other than the seven
   * colour names is rejected, whatever it holds.
   */
  lemma OverrideIsStrict(o: map<string, Json>, extra: string)
    requires extra in o && extra !in Styles.ColorKeyNames
    ensures ParseOverride(Some(JObj(o))) == None
  {
  }

  /** The four optional font strings. */
  datatype Fonts = Fonts(authorFont: Option<string>, quotedFont: Option<string>,
                         bodyFont: Option<string>, timeFont: Option<string>)

  /** `fonts`: absent, or an object of optional strings whose other keys are dropped. */
  function ParseFonts(v: Option<Json>): (r: Option<Option<Fonts>>)
    ensures r == Some(None) <==> v.None?
    ensures v.Some? && !v.value.JObj? ==> r.None?
    ensures v.Some? && v.value.JObj? ==>
      var o := v.value.fields;
      (r.Some? <==>
        && StrOrAbsent(Field(o, "authorFont")) && StrOrAbsent(Field(o, "quotedFont"))
        && StrOrAbsent(Field(o, "bodyFont")) && StrOrAbsent(Field(o, "timeFont")))
    ensures r.Some? && r.value.Some? ==>
      && v.Some? && v.value.JObj?
      && var o, f := v.value.fields, r.value.value;
         && Field(o, "authorFont") == StrJson(f.authorFont) && Field(o, "quotedFont") == StrJson(f.quotedFont)
         && Field(o, "bodyFont") == StrJson(f.bodyFont) && Field(o, "timeFont") == StrJson(f.timeFont)
  {
    if v.None? then Some(None)
    else if !v.value.JObj? then None
    else
      var o := v.value.fields;
      var a := ParseOptString(Field(o, "authorFont"), None);
      var q := ParseOptString(Field(o, "quotedFont"), None);
      var b := ParseOptString(Field(o, "bodyFont"), None);
      var t := ParseOptString(Field(o, "timeFont"), None);
      if a.Some? && q.Some? && b.Some? && t.Some? then Some(Some(Fonts(a.value, q.value, b.value, t.value)))
      else None
  }

  // ---------------------------------------------------------------------
  // The payload
  // ---------------------------------------------------------------------

  /** A validated request with its defaults filled in. */
  datatype Payload = Payload(
    mode: Bubble.Mode, side: Shapes.Side, style: Option<string>, override: Option<Override>,
    bodyText: string, msgAuthor: string, timeText: string,
    replyAuthor: Option<string>, replySnippet: Option<string>, avatarSrc: Option<string>,
    width: int, avatarSize: int, bubbleRadius: Option<int>, fonts: Option<Fonts>)

  /** The keys the schema reads; any other key of the body is dropped. */
  const FieldNames: set<string> := {
    "mode", "side", "style", "override", "bodyText", "msgAuthor", "timeText",
    "replyAuthor", "replySnippet", "avatarSrc", "width", "avatarSize", "bubbleRadius", "fonts"}

  /** A string or nothing, as `z.string().optional()` accepts. */
  predicate StrOrAbsent(v: Option<Json>) {
    v.None? || v.value.JStr?
  }

  /**
   * Every constraint the object schema puts on its fields, the reply rule
   * aside. The width and avatar bounds leave the bubble's text column at
   * least 4 px wide.
   */
  predicate FieldsOk(p: Payload)
    ensures FieldsOk(p) ==> (p.width - p.avatarSize) as real - Bubble.Spacing - 2.0 * Bubble.PadX >= 4.0
  {
    && 1 <= |p.bodyText| <= 4000
    && 1 <= |p.msgAuthor| <= 120
    && (p.replyAuthor.Some? ==> |p.replyAuthor.value| <= 120)
    && (p.replySnippet.Some? ==> |p.replySnippet.value| <= 4000)
    && (p.avatarSrc.Some? ==> AvatarSrcOk(p.avatarSrc.value))
    && 200 <= p.width <= 1200
    && 24 <= p.avatarSize <= 160
    && (p.bubbleRadius.Some? ==> 0 <= p.bubbleRadius.value <= 32)
    && (p.override.Some? ==>
          forall k: Styles.ColorKey :: p.override.value.Get(k).Some? ==> IsHexColor(p.override.value.Get(k).value))
  }

  /** The object schema without the reply rule: every field parsed, defaults filled in. */
  function ParseFields(body: map<string, Json>): (r: Option<Payload>)
    ensures r.Some? ==> FieldsOk(r.value)
  {
    var mode := ParseMode(Field(body, "mode"));
    var side := ParseSide(Field(body, "side"));
    var style := ParseOptString(Field(body, "style"), None);
    var override := ParseOverride(Field(body, "override"));
    var bodyText := ParseString(Field(body, "bodyText"), 1, 4000);
    var msgAuthor := ParseString(Field(body, "msgAuthor"), 1, 120);
    var timeText := ParseStringDefault(Field(body, "timeText"), "");
    var replyAuthor := ParseOptString(Field(body, "replyAuthor"), Some(120));
    var replySnippet := ParseOptString(Field(body, "replySnippet"), Some(4000));
    var avatarSrc := ParseOptString(Field(body, "avatarSrc"), None);
    var width := ParseIntDefault(Field(body, "width"), 200, 1200, 400);
    var avatarSize := ParseIntDefault(Field(body, "avatarSize"), 24, 160, 64);
    var bubbleRadius := ParseOptInt(Field(body, "bubbleRadius"), 0, 32);
    var fonts := ParseFonts(Field(body, "fonts"));
    if && mode.Some? && side.Some? && style.Some? && override.Some? && bodyText.Some?
       && msgAuthor.Some? && timeText.Some? && replyAuthor.Some? && replySnippet.Some?
       && avatarSrc.Some? && (avatarSrc.value.None? || AvatarSrcOk(avatarSrc.value.value))
       && width.Some? && avatarSize.Some? && bubbleRadius.Some? && fonts.Some?
    then
      Some(Payload(mode.value, side.value, style.value, override.value, bodyText.value, msgAuthor.value,
                   timeText.value, replyAuthor.value, replySnippet.value, avatarSrc.value,
                   width.value, avatarSize.value, bubbleRadius.value, fonts.value))
    else None
  }

  datatype Issue = ReplyAuthorRequired | ReplySnippetRequired

  /**
   * The `superRefine` rule: in reply mode, one issue for a missing or empty
   * reply author and one for a missing or empty snippet; none in normal mode.
   */
  function ReplyIssues(p: Payload): (issues: seq<Issue>)
    ensures p.mode == Bubble.Normal ==> issues == []
    ensures p.mode == Bubble.Reply ==>
      && (ReplyAuthorRequired in issues <==> !Bubble.Truthy(p.replyAuthor))
      && (ReplySnippetRequired in issues <==> !Bubble.Truthy(p.replySnippet))
      && |issues| == (if Bubble.Truthy(p.replyAuthor) then 0 else 1) + (if Bubble.Truthy(p.replySnippet) then 0 else 1)
  {
    if p.mode == Bubble.Reply then
      (if Bubble.Truthy(p.replyAuthor) then [] else [ReplyAuthorRequired])
      + (if Bubble.Truthy(p.replySnippet) then [] else [ReplySnippetRequired])
    else []
  }

  /** Every constraint the schema puts on an accepted payload: the field rules, and no reply issue. */
  predicate WellFormed(p: Payload)
    ensures WellFormed(p) <==> FieldsOk(p) && ReplyIssues(p) == []
  {
    && FieldsOk(p)
    && (p.mode == Bubble.Reply ==> Bubble.Truthy(p.replyAuthor) && Bubble.Truthy(p.replySnippet))
  }

  /** `payloadSchema.safeParse(body)`: the parsed payload, or `None` when the body is rejected. */
  function Parse(body: map<string, Json>): (r: Option<Payload>)
    ensures r.Some? ==> WellFormed(r.value)
  {
    var fields := ParseFields(body);
    if fields.Some? && ReplyIssues(fields.value) == [] then fields else None
  }

  /** A body holding only a valid `bodyText` and `msgAuthor` is accepted with every default. */
  lemma ParseDefaults(bodyText: string, msgAuthor: string)
    requires 1 <= |bodyText| <= 4000 && 1 <= |msgAuthor| <= 120
    ensures Parse(map["bodyText" := JStr(bodyText), "msgAuthor" := JStr(msgAuthor)])
         == Some(Payload(Bubble.Normal, Shapes.Left, None, None, bodyText, msgAuthor, "",
                         None, None, None, 400, 64, None, None))
  {
    var body := map["bodyText" := JStr(bodyText), "msgAuthor" := JStr(msgAuthor)];
    assert Field(body, "bodyText") == Some(JStr(bodyText));
    assert Field(body, "msgAuthor") == Some(JStr(msgAuthor));
    assert "timeText" !in body && "mode" !in body && "side" !in body && "style" !in body;
    assert "override" !in body && "replyAuthor" !in body && "replySnippet" !in body && "avatarSrc" !in body;
    assert "width" !in body && "avatarSize" !in body && "bubbleRadius" !in body && "fonts" !in body;
  }

  /** Keys the schema does not read make no difference. */
  lemma ParseIgnoresUnknownKeys(body: map<string, Json>, k: string, v: Json)
    requires k !in FieldNames
    ensures Parse(body[k := v]) == Parse(body)
  {
    var b2 := body[k := v];
    forall f | f in FieldNames ensures Field(b2, f) == Field(body, f) && (f in b2 <==> f in body) {
    }
  }

  // ---------------------------------------------------------------------
  // The payload written back as a request body
  // ---------------------------------------------------------------------

  /** `o` with `k` set to `v`, or `o` itself when there is no value. */
  function Put(o: map<string, Json>, k: string, v: Option<Json>): (r: map<string, Json>)
    ensures v.Some? ==> r == o[k := v.value]
    ensures v.None? ==> r == o
  {
    if v.Some? then o[k := v.value] else o
  }

  function StrJson(s: Option<string>): Option<Json> {
    if s.Some? then Some(JStr(s.value)) else None
  }

  function ModeName(m: Bubble.Mode): string {
    if m == Bubble.Reply then "reply" else "normal"
  }

  function SideName(d: Shapes.Side): string {
    if d == Shapes.Right then "right" else "left"
  }

  /** An override as the object a client would send, only the given colours present. */
  function OverrideJson(o: Override): (j: map<string, Json>)
    ensures j.Keys <= Styles.ColorKeyNames
  {
    map name | name in Styles.ColorKeyNames && o.Get(Styles.KeyNamed(name)).Some? ::
      JStr(o.Get(Styles.KeyNamed(name)).value)
  }

  function FontsJson(f: Fonts): map<string, Json> {
    var m0 := Put(map[], "authorFont", StrJson(f.authorFont));
    var m1 := Put(m0, "quotedFont", StrJson(f.quotedFont));
    var m2 := Put(m1, "bodyFont", StrJson(f.bodyFont));
    Put(m2, "timeFont", StrJson(f.timeFont))
  }

  /** What a payload field is written as, `None` for a field left out. */
  function FieldValue(p: Payload, name: string): Option<Json> {
    if name == "mode" then Some(JStr(ModeName(p.mode)))
    else if name == "side" then Some(JStr(SideName(p.side)))
    else if name == "style" then StrJson(p.style)
    else if name == "override" then (if p.override.Some? then Some(JObj(OverrideJson(p.override.value))) else None)
    else if name == "bodyText" then Some(JStr(p.bodyText))
    else if name == "msgAuthor" then Some(JStr(p.msgAuthor))
    else if name == "timeText" then Some(JStr(p.timeText))
    else if name == "replyAuthor" then StrJson(p.replyAuthor)
    else if name == "replySnippet" then StrJson(p.replySnippet)
    else if name == "avatarSrc" then StrJson(p.avatarSrc)
    else if name == "width" then Some(JNum(p.width as real))
    else if name == "avatarSize" then Some(JNum(p.avatarSize as real))
    else if name == "bubbleRadius" then (if p.bubbleRadius.Some? then Some(JNum(p.bubbleRadius.value as real)) else None)
    else if name == "fonts" then (if p.fonts.Some? then Some(JObj(FontsJson(p.fonts.value))) else None)
    else None
  }

  /** A payload as a request body, every defaulted field written out and every absent one left out. */
  function ToJson(p: Payload): (body: map<string, Json>)
    ensures forall name | name in FieldNames :: Field(body, name) == FieldValue(p, name)
  {
    map name | name in FieldNames && FieldValue(p, name).Some? :: FieldValue(p, name).value
  }

  /** An override whose colours are all hex colours parses back from its object. */
  lemma OverrideRoundTrip(o: Override)
    requires forall k: Styles.ColorKey :: o.Get(k).Some? ==> IsHexColor(o.Get(k).value)
    ensures ParseOverride(Some(JObj(OverrideJson(o)))) == Some(Some(o))
  {
    var j := OverrideJson(o);
    forall k: Styles.ColorKey ensures GivenColor(j, k) == o.Get(k) {
      Styles.KeyNamesDistinct(k, Styles.KeyNamed(Styles.KeyName(k)));
    }
    assert GivenColor(j, Styles.BubbleColor) == o.bubbleColor;
    assert GivenColor(j, Styles.TextColor) == o.textColor;
    assert GivenColor(j, Styles.QuotedBarColor) == o.quotedBarColor;
    assert GivenColor(j, Styles.QuotedHeaderColor) == o.quotedHeaderColor;
    assert GivenColor(j, Styles.QuotedTextColor) == o.quotedTextColor;
    assert GivenColor(j, Styles.TimeColor) == o.timeColor;
    assert GivenColor(j, Styles.AuthorColor) == o.authorColor;
  }

  lemma FontsRoundTrip(f: Fonts)
    ensures ParseFonts(Some(JObj(FontsJson(f)))) == Some(Some(f))
  {
  }

  /** Every well-formed payload is what its own request body parses to. */
  lemma ParseToJson(p: Payload)
    requires WellFormed(p)
    ensures Parse(ToJson(p)) == Some(p)
  {
    ToJsonContent(p);
    ToJsonLayout(p);
    ToJsonObjects(p);
  }

  /** The content fields of a written payload parse back. */
  lemma ToJsonContent(p: Payload)
    requires WellFormed(p)
    ensures var body := ToJson(p);
      && ParseMode(Field(body, "mode")) == Some(p.mode)
      && ParseSide(Field(body, "side")) == Some(p.side)
      && ParseString(Field(body, "bodyText"), 1, 4000) == Some(p.bodyText)
      && ParseString(Field(body, "msgAuthor"), 1, 120) == Some(p.msgAuthor)
      && ParseStringDefault(Field(body, "timeText"), "") == Some(p.timeText)
      && ParseOptString(Field(body, "style"), None) == Some(p.style)
      && ParseOptString(Field(body, "replyAuthor"), Some(120)) == Some(p.replyAuthor)
      && ParseOptString(Field(body, "replySnippet"), Some(4000)) == Some(p.replySnippet)
  {
    var body := ToJson(p);
    assert Field(body, "mode") == FieldValue(p, "mode");
    assert Field(body, "side") == FieldValue(p, "side");
    assert Field(body, "bodyText") == FieldValue(p, "bodyText");
    assert Field(body, "msgAuthor") == FieldValue(p, "msgAuthor");
    assert Field(body, "timeText") == FieldValue(p, "timeText");
    assert Field(body, "style") == FieldValue(p, "style");
    assert Field(body, "replyAuthor") == FieldValue(p, "replyAuthor");
    assert Field(body, "replySnippet") == FieldValue(p, "replySnippet");
  }

  /** The media and layout fields of a written payload parse back. */
  lemma ToJsonLayout(p: Payload)
    requires WellFormed(p)
    ensures var body := ToJson(p);
      && ParseOptString(Field(body, "avatarSrc"), None) == Some(p.avatarSrc)
      && ParseIntDefault(Field(body, "width"), 200, 1200, 400) == Some(p.width)
      && ParseIntDefault(Field(body, "avatarSize"), 24, 160, 64) == Some(p.avatarSize)
      && ParseOptInt(Field(body, "bubbleRadius"), 0, 32) == Some(p.bubbleRadius)
  {
    var body := ToJson(p);
    assert Field(body, "avatarSrc") == FieldValue(p, "avatarSrc");
    assert Field(body, "width") == FieldValue(p, "width");
    assert Field(body, "avatarSize") == FieldValue(p, "avatarSize");
    assert Field(body, "bubbleRadius") == FieldValue(p, "bubbleRadius");
  }

  /** The override and font objects of a written payload parse back. */
  lemma ToJsonObjects(p: Payload)
    requires WellFormed(p)
    ensures var body := ToJson(p);
      && ParseOverride(Field(body, "override")) == Some(p.override)
      && ParseFonts(Field(body, "fonts")) == Some(p.fonts)
  {
    var body := ToJson(p);
    if p.override.Some? {
      OverrideRoundTrip(p.override.value);
    }
    if p.fonts.Some? {
      FontsRoundTrip(p.fonts.value);
    }
    assert Field(body, "override") == FieldValue(p, "override");
    assert Field(body, "fonts") == FieldValue(p, "fonts");
  }

  // ---------------------------------------------------------------------
  // resolveStyle
  // ---------------------------------------------------------------------

  /**
   * The base palette: the one named by a non-empty known key, the
   * `whatsappDark` palette otherwise.
   */
  function BaseStyle(styleKey: Option<string>): (base: Styles.Palette)
    ensures Bubble.Truthy(styleKey) && styleKey.value in Styles.BubbleStyles ==>
      base == Styles.BubbleStyles[styleKey.value]
    ensures !(Bubble.Truthy(styleKey) && styleKey.value in Styles.BubbleStyles) ==>
      Styles.FallbackStyle in Styles.BubbleStyles && base == Styles.BubbleStyles[Styles.FallbackStyle]
  {
    Styles.FallbackInTable();
    if Bubble.Truthy(styleKey) && styleKey.value in Styles.BubbleStyles then Styles.BubbleStyles[styleKey.value]
    else Styles.BubbleStyles[Styles.FallbackStyle]
  }

  /**
   * `{ ...base, ...(override ?? {}) }`: a colour the override gives replaces
   * the base colour, every other colour is the base's.
   */
  function ResolveStyle(styleKey: Option<string>, override: Option<Override>): (r: Styles.Palette)
    ensures forall k: Styles.ColorKey ::
      r.Color(k) == if override.Some? && override.value.Get(k).Some? then override.value.Get(k).value
                    else BaseStyle(styleKey).Color(k)
  {
    var base := BaseStyle(styleKey);
    if override.None? then base
    else
      var o := override.value;
      Styles.Palette(
        o.bubbleColor.GetOr(base.bubbleColor), o.textColor.GetOr(base.textColor),
        o.quotedBarColor.GetOr(base.quotedBarColor), o.quotedHeaderColor.GetOr(base.quotedHeaderColor),
        o.quotedTextColor.GetOr(base.quotedTextColor), o.timeColor.GetOr(base.timeColor),
        o.authorColor.GetOr(base.authorColor))
  }

  /** No override, or an empty one, leaves the base palette as it is. */
  lemma EmptyOverrideKeepsBase(styleKey: Option<string>)
    ensures ResolveStyle(styleKey, None) == BaseStyle(styleKey)
    ensures ResolveStyle(styleKey, Some(Override(None, None, None, None, None, None, None))) == BaseStyle(styleKey)
  {
    var r := ResolveStyle(styleKey, Some(Override(None, None, None, None, None, None, None)));
    assert r.Color(Styles.BubbleColor) == BaseStyle(styleKey).bubbleColor;
  }

  /**
   * For a validated request every colour of the resolved palette is either
   * a hex colour given by the override or the colour of the chosen palette.
   */
  lemma ResolvedPaletteOfPayload(p: Payload, k: Styles.ColorKey)
    requires WellFormed(p)
    ensures var c := ResolveStyle(p.style, p.override).Color(k);
      IsHexColor(c) || c == BaseStyle(p.style).Color(k)
  {
  }

  /** An absent, empty or unknown style key resolves like the `whatsappDark` key. */
  lemma UnknownStyleFallsBack(styleKey: Option<string>, override: Option<Override>)
    requires styleKey.None? || styleKey.value == "" || styleKey.value !in Styles.BubbleStyles
    ensures ResolveStyle(styleKey, override) == ResolveStyle(Some(Styles.FallbackStyle), override)
  {
    Styles.FallbackInTable();
  }
}
