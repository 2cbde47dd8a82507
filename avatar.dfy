/**
 * The avatar helpers of src/QuoteMaking/Shapes/drawAvatar.ts without the
 * canvas: how `loadImageFromInput` rewrites its source string before it is
 * loaded, the "object-fit: cover" crop of `drawImageCover`, the circle and
 * ring of `drawCircularAvatar` and the label of `drawInitialsAvatar`.
 */
module Avatar {
  import opened Wrappers
  import opened Text
  import Shapes

  // ---------------------------------------------------------------------
  // Source normalisation (loadImageFromInput)
  // ---------------------------------------------------------------------

  const DataImagePrefix: string := "data:image/"
  const Base64Marker: string := ";base64,"
  const PngDataPrefix: string := "data:image/png;base64,"

  /** Bound a string must exceed before it is taken for bare base64. */
  const MinBareBase64Length := 512

  predicate IsAsciiLetter(c: char) {
    ('a' <= c <= 'z') || ('A' <= c <= 'Z')
  }

  /** The characters of the class `[A-Za-z0-9+/=]`. */
  predicate IsBase64Char(c: char) {
    IsAsciiLetter(c) || ('0' <= c <= '9') || c == '+' || c == '/' || c == '='
  }

  /** Length of the run of ASCII letters at the start of `s`. */
  function LetterRun(s: string): (n: nat)
    ensures n <= |s|
    ensures forall i | 0 <= i < n :: IsAsciiLetter(s[i])
    ensures n < |s| ==> !IsAsciiLetter(s[n])
  {
    if s != [] && IsAsciiLetter(s[0]) then 1 + LetterRun(s[1..]) else 0
  }

  /**
   * `/^data:image\/[a-zA-Z]+;base64,/`: the prefix, at least one letter and
   * the marker. `;` is not a letter, so the letters the pattern matches are
   * exactly the maximal run of them.
   */
  predicate IsDataUrl(s: string) {
    |s| >= |DataImagePrefix| && s[..|DataImagePrefix|] == DataImagePrefix &&
    var rest := s[|DataImagePrefix|..];
    var n := LetterRun(rest);
    n >= 1 && Base64Marker <= rest[n..]
  }

  /** `/^[A-Za-z0-9+/=\s]+$/.test(s) && s.length > 512`. */
  predicate IsPureBase64(s: string) {
    |s| > MinBareBase64Length && forall i | 0 <= i < |s| :: IsBase64Char(s[i]) || IsSpace(s[i])
  }

  /** The string `loadImageFromInput` hands to the image loader. */
  function NormalizeSource(src: string): (r: string)
    ensures IsDataUrl(r) || r == src
    ensures r != src ==> !IsDataUrl(src) && IsPureBase64(src) && PngDataPrefix <= r
  {
    if IsDataUrl(src) then src
    else if IsPureBase64(src) then
      PngPrefixIsDataUrl(RemoveSpaces(src));
      PngDataPrefix + RemoveSpaces(src)
    else src
  }

  /** `data:image/png;base64,` followed by anything is itself a data URL. */
  lemma PngPrefixIsDataUrl(payload: string)
    ensures IsDataUrl(PngDataPrefix + payload)
  {
    var s := PngDataPrefix + payload;
    var rest := s[|DataImagePrefix|..];
    assert rest == "png" + Base64Marker + payload;
    assert LetterRun(rest) == 3 by {
      assert rest[0] == 'p' && rest[1] == 'n' && rest[2] == 'g' && rest[3] == ';';
      assert rest[1..][1..][1..] == rest[3..];
    }
    assert rest[3..] == Base64Marker + payload;
  }

  /** The letter run stops at the first character that is not a letter. */
  lemma {:induction false} LetterRunExact(t: string, tail: string)
    requires forall i | 0 <= i < |t| :: IsAsciiLetter(t[i])
    requires tail == [] || !IsAsciiLetter(tail[0])
    ensures LetterRun(t + tail) == |t|
  {
    if t == [] {
      assert t + tail == tail;
    } else {
      assert (t + tail)[1..] == t[1..] + tail;
      LetterRunExact(t[1..], tail);
    }
  }

  /**
   * `data:image/`, a non-empty run of ASCII letters, `;base64,` and anything
   * after it is a data URL, whatever the image type and the payload.
   */
  lemma {:induction false} DataUrlOfType(t: string, payload: string)
    requires t != [] && forall i | 0 <= i < |t| :: IsAsciiLetter(t[i])
    ensures IsDataUrl(DataImagePrefix + t + Base64Marker + payload)
  {
    var s := DataImagePrefix + t + Base64Marker + payload;
    var rest := s[|DataImagePrefix|..];
    assert rest == t + (Base64Marker + payload);
    LetterRunExact(t, Base64Marker + payload);
    assert rest[|t|..] == Base64Marker + payload;
  }

  /** Data URLs pass through unchanged. */
  lemma DataUrlUnchanged(src: string)
    requires IsDataUrl(src)
    ensures NormalizeSource(src) == src
  {
  }

  /**
   * A long bare base64 string (white space allowed) is wrapped as a PNG data
   * URL with all of its white space removed; the payload is the source's
   * non-space characters.
   */
  lemma BareBase64Wrapped(src: string)
    requires !IsDataUrl(src) && IsPureBase64(src)
    ensures NormalizeSource(src) == PngDataPrefix + RemoveSpaces(src)
    ensures NoSpace(NormalizeSource(src)[|PngDataPrefix|..])
    ensures IsDataUrl(NormalizeSource(src))
  {
    PngPrefixIsDataUrl(RemoveSpaces(src));
    assert (PngDataPrefix + RemoveSpaces(src))[|PngDataPrefix|..] == RemoveSpaces(src);
  }

  /** Everything else, every non-data string of at most 512 characters included, is left as it is. */
  lemma OtherSourcesUnchanged(src: string)
    requires !IsDataUrl(src) && (|src| <= MinBareBase64Length || exists i | 0 <= i < |src| :: !IsBase64Char(src[i]) && !IsSpace(src[i]))
    ensures NormalizeSource(src) == src
  {
  }

  /** Normalising twice changes nothing more. */
  lemma NormalizeIdempotent(src: string)
    ensures NormalizeSource(NormalizeSource(src)) == NormalizeSource(src)
  {
    if !IsDataUrl(src) && IsPureBase64(src) {
      PngPrefixIsDataUrl(RemoveSpaces(src));
    }
  }

  // ---------------------------------------------------------------------
  // Cover crop (drawImageCover)
  // ---------------------------------------------------------------------

  /** The source rectangle `(sx, sy, sw, sh)` passed to `drawImage`. */
  datatype Crop = Crop(sx: real, sy: real, sw: real, sh: real)

  /**
   * The crop of an `imgW` by `imgH` image drawn into a `w` by `h` box:
   * a wider image loses equal strips left and right, any other loses equal
   * strips top and bottom.
   */
  function CoverCrop(imgW: real, imgH: real, w: real, h: real): (c: Crop)
    requires imgW > 0.0 && imgH > 0.0 && w > 0.0 && h > 0.0
    ensures imgW / imgH > w / h ==> c.sy == 0.0 && c.sh == imgH
    ensures imgW / imgH <= w / h ==> c.sx == 0.0 && c.sw == imgW
  {
    var ir := imgW / imgH;
    var rr := w / h;
    if ir > rr then
      var targetW := imgH * rr;
      Crop((imgW - targetW) / 2.0, 0.0, targetW, imgH)
    else
      var targetH := imgW / rr;
      Crop(0.0, (imgH - targetH) / 2.0, imgW, targetH)
  }

  /** The crop has the aspect ratio of the box it is drawn into: `sw / sh == w / h`. */
  lemma CoverCropAspect(imgW: real, imgH: real, w: real, h: real)
    requires imgW > 0.0 && imgH > 0.0 && w > 0.0 && h > 0.0
    ensures var c := CoverCrop(imgW, imgH, w, h);
            c.sh > 0.0 && c.sw * h == c.sh * w
  {
    var c := CoverCrop(imgW, imgH, w, h);
    if imgW / imgH > w / h {
      assert c.sw == imgH * (w / h);
      assert c.sw * h == imgH * w;
    } else {
      assert c.sh == imgW / (w / h);
      assert c.sh * w == imgW * h;
    }
  }

  /**
   * The crop lies inside the image, is centred in it with equal margins on
   * opposite sides, and spans the image's full width or full height.
   */
  lemma CoverCropInsideCentred(imgW: real, imgH: real, w: real, h: real)
    requires imgW > 0.0 && imgH > 0.0 && w > 0.0 && h > 0.0
    ensures var c := CoverCrop(imgW, imgH, w, h);
            && 0.0 <= c.sx && c.sx + c.sw <= imgW
            && 0.0 <= c.sy && c.sy + c.sh <= imgH
            && c.sx == imgW - (c.sx + c.sw)
            && c.sy == imgH - (c.sy + c.sh)
            && (c.sw == imgW || c.sh == imgH)
  {
    var c := CoverCrop(imgW, imgH, w, h);
    if imgW / imgH > w / h {
      assert imgH * (w / h) < imgW by {
        assert imgW / imgH * imgH == imgW;
      }
    } else {
      assert imgW / (w / h) <= imgH by {
        assert imgW / (w / h) == (imgW / imgH) / (w / h) * imgH;
        assert (imgW / imgH) / (w / h) <= 1.0;
      }
    }
  }

  // ---------------------------------------------------------------------
  // Circular avatar (drawCircularAvatar) and initials (drawInitialsAvatar)
  // ---------------------------------------------------------------------

  /** A ring stroked along a circle: its radius and its line width. */
  datatype Ring = Ring(radius: real, lineWidth: real)

  /**
   * What `drawCircularAvatar` draws: the clip circle, the square the image is
   * cover-drawn into (`x`, `y`, side `size`), the optional ring and whether
   * the shadow is on.
   */
  datatype CircleAvatar = CircleAvatar(
    center: Shapes.Point, radius: real, corner: Shapes.Point, size: real,
    ring: Option<Ring>, shadow: bool)

  /**
   * The geometry of `drawCircularAvatar(ctx, img, xCenter, yCenter, size, opts)`.
   * The ring is drawn only for a positive `borderWidth`; the shadow for a
   * `shadowBlur` that is present and not 0.
   */
  function CircularAvatar(xCenter: real, yCenter: real, size: real,
                          borderWidth: Option<real>, shadowBlur: Option<real>): (a: CircleAvatar)
    ensures a.center == Shapes.Point(xCenter, yCenter)
    ensures a.radius * 2.0 == a.size == size
    ensures a.corner.x + a.radius == xCenter && a.corner.y + a.radius == yCenter
    ensures a.ring.Some? <==> borderWidth.Some? && borderWidth.value > 0.0
    ensures a.ring.Some? ==> a.ring.value.lineWidth == borderWidth.value
    ensures a.shadow <==> shadowBlur.Some? && shadowBlur.value != 0.0
  {
    var r := size / 2.0;
    var ring := if borderWidth.Some? && borderWidth.value > 0.0
                then Some(Ring(r - borderWidth.value / 2.0, borderWidth.value))
                else None;
    CircleAvatar(Shapes.Point(xCenter, yCenter), r, Shapes.Point(xCenter - r, yCenter - r), size,
                 ring, shadowBlur.Some? && shadowBlur.value != 0.0)
  }

  /**
   * The ring is inset by half its width, so its stroke (which extends
   * `lineWidth / 2` to either side of its radius) ends exactly on the clip
   * circle, and the image square is the circle's bounding box.
   */
  lemma RingTouchesClipCircle(xCenter: real, yCenter: real, size: real, bw: real, shadowBlur: Option<real>)
    requires bw > 0.0
    ensures var a := CircularAvatar(xCenter, yCenter, size, Some(bw), shadowBlur);
            a.ring.Some? && a.ring.value.radius + a.ring.value.lineWidth / 2.0 == a.radius
  {
  }

  /** The label `drawInitialsAvatar` writes in the circle: the initials upper-cased. */
  function InitialsLabel(initials: string): (shown: string)
    ensures |shown| == |initials|
    ensures forall i | 0 <= i < |shown| :: !IsLowerAscii(shown[i])
    ensures forall i | 0 <= i < |initials| :: !IsLowerAscii(initials[i]) ==> shown[i] == initials[i]
    ensures forall i | 0 <= i < |initials| :: IsLowerAscii(initials[i]) ==> shown[i] as int == initials[i] as int - 32
  {
    ToUpper(initials)
  }

  /** Upper-casing a label again changes nothing. */
  lemma {:induction false} InitialsLabelIdempotent(initials: string)
    ensures InitialsLabel(InitialsLabel(initials)) == InitialsLabel(initials)
  {
    var once := InitialsLabel(initials);
    var twice := InitialsLabel(once);
    assert forall i | 0 <= i < |once| :: twice[i] == once[i];
  }
}
