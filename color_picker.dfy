/**
 * The colour picker: hex formatting of channels, clamped single-pixel sampling, the mapping
 * between CSS (display) offsets and image pixels, the ten colour slots and the cursor.
 */
module ColorPicker {
  import opened Wrappers
  import opened Arith
  import opened Canvas
  import opened Types

  // ---------------------------------------------------------------------------------------
  // rgbToHex

  /** The digit for `d` in base 16 as `Number.prototype.toString(16)` writes it (lower case). */
  function LowerDigit(d: int): char
    requires 0 <= d < 16
  {
    if d < 10 then ('0' as int + d) as char else ('a' as int + d - 10) as char
  }

  function UpperDigit(d: int): char
    requires 0 <= d < 16
  {
    if d < 10 then ('0' as int + d) as char else ('A' as int + d - 10) as char
  }

  predicate IsLowerHexDigit(c: char) {
    '0' <= c <= '9' || 'a' <= c <= 'f'
  }

  predicate IsUpperHexDigit(c: char) {
    '0' <= c <= '9' || 'A' <= c <= 'F'
  }

  /** `v.toString(16)` for a non-negative integer: its base-16 digits, most significant first, no leading zeros. */
  function ToBase16(v: nat): (s: string)
    ensures 1 <= |s| && forall i | 0 <= i < |s| :: IsLowerHexDigit(s[i])
    ensures (|s| == 1) == (v < 16)
    decreases v
  {
    if v < 16 then [LowerDigit(v)] else ToBase16(v / 16) + [LowerDigit(v % 16)]
  }

  /** `s.padStart(n, c)` with a one-character pad. */
  function PadStart(s: string, n: nat, c: char): (p: string)
    ensures |s| >= n ==> p == s
    ensures |s| < n ==> |p| == n && p[n - |s|..] == s && forall i | 0 <= i < n - |s| :: p[i] == c
  {
    if |s| >= n then s else seq(n - |s|, _ => c) + s
  }

  /** `toUpperCase` on the characters that occur here (ASCII letters are mapped, the rest kept). */
  function UpperChar(c: char): (u: char)
    ensures IsLowerHexDigit(c) ==> IsUpperHexDigit(u) && HexDigitValue(u) == HexDigitValue(c)
    ensures !('a' <= c <= 'z') ==> u == c
  {
    if 'a' <= c <= 'z' then (c as int - 32) as char else c
  }

  /** Upper-casing turns lower-case hex digits into upper-case digits of the same value. */
  function ToUpper(s: string): (u: string)
    ensures |u| == |s|
    ensures (forall i | 0 <= i < |s| :: IsLowerHexDigit(s[i])) ==>
      forall i | 0 <= i < |s| :: IsUpperHexDigit(u[i]) && HexDigitValue(u[i]) == HexDigitValue(s[i])
  {
    seq(|s|, i requires 0 <= i < |s| => UpperChar(s[i]))
  }

  /** `rgbToHex`: `'#'` followed by each channel in base 16, padded to two digits, upper-cased. */
  function RgbToHex(r: nat, g: nat, b: nat): (h: string)
    ensures r < 256 && g < 256 && b < 256 ==> h == HexForm(r, g, b)
  {
    var pr, pg, pb := PadStart(ToBase16(r), 2, '0'), PadStart(ToBase16(g), 2, '0'), PadStart(ToBase16(b), 2, '0');
    ToUpperConcat(pr + pg, pb);
    ToUpperConcat(pr, pg);
    if r < 256 && g < 256 && b < 256 then
      PaddedByte(r);
      PaddedByte(g);
      PaddedByte(b);
      "#" + ToUpper(pr + pg + pb)
    else
      "#" + ToUpper(pr + pg + pb)
  }

  /** The two upper-case hex digits of a byte. */
  function HexByte(v: Byte): (s: string)
    ensures |s| == 2 && IsUpperHexDigit(s[0]) && IsUpperHexDigit(s[1])
  {
    [UpperDigit(v / 16), UpperDigit(v % 16)]
  }

  /** The `#RRGGBB` form of three bytes: `#`, then two upper-case hex digits per channel. */
  function HexForm(r: Byte, g: Byte, b: Byte): string {
    "#" + HexByte(r) + HexByte(g) + HexByte(b)
  }

  /** `#RRGGBB` is seven characters, and its digit pairs are the three channels in order. */
  lemma HexFormSlices(r: Byte, g: Byte, b: Byte)
    ensures var h := HexForm(r, g, b);
      |h| == 7 && h[0] == '#' && h[..1] == "#" && h[1..3] == HexByte(r) && h[3..5] == HexByte(g) && h[5..7] == HexByte(b)
  {
  }

  /** A byte has one base-16 digit below 16 and two from 16 on. */
  lemma Base16OfByte(v: Byte)
    ensures ToBase16(v) == if v < 16 then [LowerDigit(v)] else [LowerDigit(v / 16), LowerDigit(v % 16)]
  {
    if v >= 16 {
      assert ToBase16(v / 16) == [LowerDigit(v / 16)];
    }
  }

  lemma PaddedByte(v: Byte)
    ensures ToUpper(PadStart(ToBase16(v), 2, '0')) == HexByte(v)
  {
    Base16OfByte(v);
    assert PadStart(ToBase16(v), 2, '0') == [LowerDigit(v / 16), LowerDigit(v % 16)];
    assert UpperChar(LowerDigit(v / 16)) == UpperDigit(v / 16);
    assert UpperChar(LowerDigit(v % 16)) == UpperDigit(v % 16);
  }

  lemma ToUpperConcat(a: string, b: string)
    ensures ToUpper(a + b) == ToUpper(a) + ToUpper(b)
  {
  }

  /** For channels 0..255 the result is `#RRGGBB`: each channel as exactly two upper-case hex digits. */
  lemma RgbToHexFormat(r: Byte, g: Byte, b: Byte)
    ensures |RgbToHex(r, g, b)| == 7 && RgbToHex(r, g, b)[0] == '#'
    ensures forall i | 1 <= i < 7 :: IsUpperHexDigit(RgbToHex(r, g, b)[i])
  {
    HexFormSlices(r, g, b);
    var h := HexForm(r, g, b);
    forall i | 1 <= i < 7
      ensures IsUpperHexDigit(h[i])
    {
      if i < 3 {
        assert h[i] == h[1..3][i - 1];
      } else if i < 5 {
        assert h[i] == h[3..5][i - 3];
      } else {
        assert h[i] == h[5..7][i - 5];
      }
    }
  }

  /** The value of a hex digit of either case. */
  function HexDigitValue(c: char): (d: int)
    requires IsUpperHexDigit(c) || IsLowerHexDigit(c)
    ensures 0 <= d < 16
  {
    if '0' <= c <= '9' then c as int - '0' as int
    else if 'A' <= c <= 'F' then c as int - 'A' as int + 10
    else c as int - 'a' as int + 10
  }

  /** `parseInt(s, 16)` of a two-digit hex string. */
  function ParseHexByte(s: string): (v: Byte)
    requires |s| == 2 && IsUpperHexDigit(s[0]) && IsUpperHexDigit(s[1])
  {
    16 * HexDigitValue(s[0]) + HexDigitValue(s[1])
  }

  /** Reading digits 1-2, 3-4 and 5-6 of `rgbToHex(r, g, b)` as hex gives back `r`, `g` and `b`. */
  lemma RgbToHexRoundTrip(r: Byte, g: Byte, b: Byte)
    ensures |RgbToHex(r, g, b)| == 7
    ensures ParseHexByte(RgbToHex(r, g, b)[1..3]) == r
    ensures ParseHexByte(RgbToHex(r, g, b)[3..5]) == g
    ensures ParseHexByte(RgbToHex(r, g, b)[5..7]) == b
  {
    HexFormSlices(r, g, b);
    ParseOfHexByte(r);
    ParseOfHexByte(g);
    ParseOfHexByte(b);
  }

  /** Reading the two digits of a byte as hex gives the byte back. */
  lemma ParseOfHexByte(v: Byte)
    ensures ParseHexByte(HexByte(v)) == v
  {
    var s := HexByte(v);
    assert HexDigitValue(s[0]) == v / 16 && HexDigitValue(s[1]) == v % 16;
  }

  /** Every upper-case two-digit hex string is the rendering of the byte it denotes. */
  lemma HexByteOfParse(s: string)
    requires |s| == 2 && IsUpperHexDigit(s[0]) && IsUpperHexDigit(s[1])
    ensures HexByte(ParseHexByte(s)) == s
  {
    var v := ParseHexByte(s);
    DivModUnique(v, 16, HexDigitValue(s[0]), HexDigitValue(s[1]));
  }

  // ---------------------------------------------------------------------------------------
  // hex and bgrHex of a ColorInfo

  /** `#RRGGBB` to `#BBGGRR` and back: the first and last digit pairs change places. */
  function SwapRedBlue(hex: string): (s: string)
    requires |hex| == 7
    ensures |s| == 7
  {
    hex[..1] + hex[5..7] + hex[3..5] + hex[1..3]
  }

  /** The BGR form of a colour is its RGB form with the red and blue digit pairs exchanged. */
  lemma BgrHexIsSwappedHex(r: Byte, g: Byte, b: Byte)
    ensures |RgbToHex(r, g, b)| == 7
    ensures SwapRedBlue(RgbToHex(r, g, b)) == RgbToHex(b, g, r)
  {
    HexFormSlices(r, g, b);
  }

  /** Reversing the channel order twice restores the original string. */
  lemma SwapRedBlueInvolution(hex: string)
    requires |hex| == 7
    ensures SwapRedBlue(SwapRedBlue(hex)) == hex
  {
    var s := SwapRedBlue(hex);
    assert s[..1] == hex[..1] && s[5..7] == hex[1..3] && s[3..5] == hex[3..5] && s[1..3] == hex[5..7];
    assert hex == hex[..1] + hex[1..3] + hex[3..5] + hex[5..7];
  }

  /** A colour's `hex` is `#RRGGBB` and its `bgrHex` is `#BBGGRR`, both derived from its channels. */
  predicate Consistent(c: ColorInfo) {
    c.hex == HexForm(c.r, c.g, c.b) && c.bgrHex == HexForm(c.b, c.g, c.r)
  }

  // ---------------------------------------------------------------------------------------
  // getPixelColor

  /** What `canvasRef` refers to: the raster drawn on it and its rendered (CSS) size. */
  datatype CanvasElement = CanvasElement(image: Raster, clientWidth: nat, clientHeight: nat)

  /** `Math.max(0, Math.min(v, size - 1))`. */
  function Clamp(v: int, size: nat): (c: int)
    ensures size > 0 ==> 0 <= c < size
    ensures size == 0 ==> c == 0
    ensures 0 <= v < size ==> c == v
  {
    Max(0, Min(v, size - 1))
  }

  /** Clamping is idempotent. */
  lemma ClampIdempotent(v: int, size: nat)
    ensures Clamp(Clamp(v, size), size) == Clamp(v, size)
  {
  }

  /** An out-of-range coordinate saturates to the nearest in-range one. */
  lemma ClampIsNearest(v: int, size: nat, u: int)
    requires 0 <= u < size
    ensures v < 0 ==> Clamp(v, size) == 0
    ensures v >= size ==> Clamp(v, size) == size - 1
    ensures (if Clamp(v, size) <= v then v - Clamp(v, size) else Clamp(v, size) - v) <= (if u <= v then v - u else u - v)
  {
  }

  /** The byte at `i`, or `0` when the buffer has none there (the source's `?? 0`). */
  function ByteOrZero(data: seq<Byte>, i: int): Byte {
    if 0 <= i < |data| then data[i] else 0
  }

  /**
   * `getPixelColor`: with no canvas, nothing; otherwise the pixel at the clamped coordinates,
   * read as a 1×1 image-data block, alpha ignored, with both hex forms.
   */
  function GetPixelColor(canvas: Option<CanvasElement>, imgX: int, imgY: int): (c: Option<ColorInfo>)
    ensures c.None? <==> canvas.None?
    ensures c.Some? ==>
      var img := canvas.value.image;
      var p := PixelAt(img, c.value.x, c.value.y);
      && c.value.x == Clamp(imgX, img.width) && c.value.y == Clamp(imgY, img.height)
      && c.value.r == p.r && c.value.g == p.g && c.value.b == p.b
      && c.value.hex == RgbToHex(c.value.r, c.value.g, c.value.b)
      && c.value.bgrHex == RgbToHex(c.value.b, c.value.g, c.value.r)
      && Consistent(c.value)
  {
    match canvas
    case None => None
    case Some(cv) =>
      var x := Max(0, Min(imgX, cv.image.width - 1));
      var y := Max(0, Min(imgY, cv.image.height - 1));
      var pixel := ImageData(cv.image, x, y, 1, 1);
      var r := ByteOrZero(pixel, 0);
      var g := ByteOrZero(pixel, 1);
      var b := ByteOrZero(pixel, 2);
      ImageDataAt(cv.image, x, y, 1, 1, 0, 0, 0);
      ImageDataAt(cv.image, x, y, 1, 1, 0, 0, 1);
      ImageDataAt(cv.image, x, y, 1, 1, 0, 0, 2);
      Some(Colour(x, y, r, g, b))
  }

  /** The colour record of a pixel at `(x, y)`, with its `#RRGGBB` and `#BBGGRR` forms. */
  function Colour(x: int, y: int, r: Byte, g: Byte, b: Byte): (c: ColorInfo)
    ensures c.x == x && c.y == y && c.r == r && c.g == g && c.b == b
    ensures c.hex == RgbToHex(r, g, b) && c.bgrHex == RgbToHex(b, g, r) && Consistent(c)
  {
    ColorInfo(x, y, r, g, b, RgbToHex(r, g, b), RgbToHex(b, g, r))
  }

  /** Sampling inside the raster reads that very pixel; outside it reads the nearest edge pixel. */
  lemma GetPixelColorInBounds(cv: CanvasElement, imgX: int, imgY: int)
    requires cv.image.width > 0 && cv.image.height > 0
    ensures var c := GetPixelColor(Some(cv), imgX, imgY).value;
      && InBounds(cv.image, c.x, c.y)
      && (InBounds(cv.image, imgX, imgY) ==> c.x == imgX && c.y == imgY)
      && c.r == cv.image.rows[c.y][c.x].r && c.g == cv.image.rows[c.y][c.x].g && c.b == cv.image.rows[c.y][c.x].b
  {
  }

  /** The record `getPixelColor` builds as written: a JavaScript object with no `bgrHex` property. */
  datatype PickedObject = PickedObject(x: int, y: int, r: Byte, g: Byte, b: Byte, hex: string, bgrHex: Option<string>)

  /** `getPixelColor` exactly as written: the same fields, but `bgrHex` is left out of the object. */
  function GetPixelColorAsWritten(canvas: Option<CanvasElement>, imgX: int, imgY: int): (c: Option<PickedObject>)
    ensures c.None? <==> canvas.None?
    ensures c.Some? ==> c.value.bgrHex.None?
  {
    match GetPixelColor(canvas, imgX, imgY)
    case None => None
    case Some(k) => Some(PickedObject(k.x, k.y, k.r, k.g, k.b, k.hex, None))
  }

  // ---------------------------------------------------------------------------------------
  // cssToImageCoords / imageToCssCoords

  datatype CssPoint = CssPoint(x: real, y: real)

  /** Whether the canvas has a non-zero size both as a raster and as rendered. */
  predicate Sized(cv: CanvasElement) {
    cv.image.width > 0 && cv.image.height > 0 && cv.clientWidth > 0 && cv.clientHeight > 0
  }

  /** `cssToImageCoords`: each offset scaled by raster size over rendered size, on its own axis, then floored. */
  function CssToImageCoords(canvas: Option<CanvasElement>, offsetX: real, offsetY: real): (p: Point)
    requires canvas.Some? ==> canvas.value.clientWidth > 0 && canvas.value.clientHeight > 0
    ensures canvas.None? ==> p == Point(0, 0)
    ensures canvas.Some? ==>
      var sx := canvas.value.image.width as real / canvas.value.clientWidth as real;
      var sy := canvas.value.image.height as real / canvas.value.clientHeight as real;
      && p.x as real <= offsetX * sx < p.x as real + 1.0
      && p.y as real <= offsetY * sy < p.y as real + 1.0
  {
    match canvas
    case None => Point(0, 0)
    case Some(cv) =>
      var scaleX := cv.image.width as real / cv.clientWidth as real;
      var scaleY := cv.image.height as real / cv.clientHeight as real;
      Point((offsetX * scaleX).Floor, (offsetY * scaleY).Floor)
  }

  /** `imageToCssCoords`: each pixel coordinate scaled by rendered size over raster size, not floored. */
  function ImageToCssCoords(canvas: Option<CanvasElement>, imgX: int, imgY: int): (p: CssPoint)
    requires canvas.Some? ==> canvas.value.image.width > 0 && canvas.value.image.height > 0
    ensures canvas.None? ==> p == CssPoint(0.0, 0.0)
    ensures canvas.Some? && canvas.value.clientWidth > 0 ==>
      p.x * (canvas.value.image.width as real / canvas.value.clientWidth as real) == imgX as real
    ensures canvas.Some? && canvas.value.clientHeight > 0 ==>
      p.y * (canvas.value.image.height as real / canvas.value.clientHeight as real) == imgY as real
  {
    match canvas
    case None => CssPoint(0.0, 0.0)
    case Some(cv) =>
      var scaleX := cv.clientWidth as real / cv.image.width as real;
      var scaleY := cv.clientHeight as real / cv.image.height as real;
      ReciprocalScale(cv.clientWidth as real, cv.image.width as real, imgX as real);
      ReciprocalScale(cv.clientHeight as real, cv.image.height as real, imgY as real);
      CssPoint(imgX as real * scaleX, imgY as real * scaleY)
  }

  lemma ReciprocalScale(a: real, b: real, v: real)
    requires b > 0.0
    ensures a > 0.0 ==> v * (a / b) * (b / a) == v
  {
    if a > 0.0 {
      assert (a / b) * (b / a) == 1.0;
      assert v * (a / b) * (b / a) == v * ((a / b) * (b / a));
    }
  }

  /** In exact arithmetic, mapping an image pixel to CSS and back gives the same pixel. */
  lemma ImageToCssRoundTrip(cv: CanvasElement, imgX: int, imgY: int)
    requires Sized(cv)
    ensures var q := ImageToCssCoords(Some(cv), imgX, imgY);
      CssToImageCoords(Some(cv), q.x, q.y) == Point(imgX, imgY)
  {
  }

  /** The other way round is not a round trip: flooring drops the fraction of a pixel. */
  lemma CssToImageLosesFraction(cv: CanvasElement)
    requires cv.image.width == 1 && cv.image.height == 1 && cv.clientWidth == 2 && cv.clientHeight == 2
    ensures var p := CssToImageCoords(Some(cv), 1.0, 1.0);
      ImageToCssCoords(Some(cv), p.x, p.y) == CssPoint(0.0, 0.0)
  {
    var p := CssToImageCoords(Some(cv), 1.0, 1.0);
    assert 1.0 * (1 as real / 2 as real) == 0.5;
    assert p == Point(0, 0);
  }

  /** Going CSS to image to CSS lands at most one pixel's CSS width to the left of (or on) the offset. */
  lemma CssToImageToCssWithinOnePixel(cv: CanvasElement, offsetX: real, offsetY: real)
    requires Sized(cv)
    ensures var p := CssToImageCoords(Some(cv), offsetX, offsetY);
      var q := ImageToCssCoords(Some(cv), p.x, p.y);
      var pxW := cv.clientWidth as real / cv.image.width as real;
      var pxH := cv.clientHeight as real / cv.image.height as real;
      && q.x <= offsetX < q.x + pxW
      && q.y <= offsetY < q.y + pxH
  {
    var p := CssToImageCoords(Some(cv), offsetX, offsetY);
    var q := ImageToCssCoords(Some(cv), p.x, p.y);
    ScaleBack(p.x as real, offsetX, cv.image.width as real, cv.clientWidth as real);
    ScaleBack(p.y as real, offsetY, cv.image.height as real, cv.clientHeight as real);
  }

  lemma ScaleBack(p: real, o: real, w: real, cw: real)
    requires w > 0.0 && cw > 0.0
    requires p <= o * (w / cw) < p + 1.0
    ensures p * (cw / w) <= o < p * (cw / w) + cw / w
  {
    var s := w / cw;
    var t := cw / w;
    assert s * t == 1.0;
    assert p * t <= o * s * t;
    assert o * s * t < (p + 1.0) * t;
    assert o * s * t == o;
  }

  // ---------------------------------------------------------------------------------------
  // colour slots and cursor

  const SlotCount: nat := 10

  /** The point `resetCursorToCenter` moves to: `(floor(width/2), floor(height/2))`. */
  function Center(img: Raster): (p: Point)
    ensures 2 * p.x <= img.width < 2 * p.x + 2 && 2 * p.y <= img.height < 2 * p.y + 2
    ensures img.width > 0 && img.height > 0 ==> InBounds(img, p.x, p.y)
  {
    Point(img.width / 2, img.height / 2)
  }

  /** The picker's own state: the ten colour slots, the cursor and the crosshair flag. */
  class ColorPicker {
    /** What `canvasRef` currently refers to; set by its owner, only read here. */
    var canvas: Option<CanvasElement>
    const savedColors: array<Option<ColorInfo>>
    var showCrosshair: bool
    var cursorPos: Point

    ghost predicate Valid()
      reads this
    {
      savedColors.Length == SlotCount
    }

    constructor (canvas: Option<CanvasElement>)
      ensures Valid() && fresh(savedColors)
      ensures this.canvas == canvas && savedColors[..] == seq(SlotCount, _ => None)
      ensures cursorPos == Point(0, 0) && !showCrosshair
    {
      this.canvas := canvas;
      savedColors := new Option<ColorInfo>[SlotCount](_ => None);
      showCrosshair := false;
      cursorPos := Point(0, 0);
    }

    /** `saveColorToSlot`: stores the colour under the cursor in one slot, if a colour could be read. */
    method SaveColorToSlot(slotIndex: nat)
      requires Valid() && slotIndex < SlotCount
      modifies savedColors
      ensures Valid()
      ensures var c := GetPixelColor(canvas, cursorPos.x, cursorPos.y);
        savedColors[..] == if c.Some? then old(savedColors[..])[slotIndex := c] else old(savedColors[..])
    {
      var color := GetPixelColor(canvas, cursorPos.x, cursorPos.y);
      if color.Some? {
        savedColors[slotIndex] := color;
      }
    }

    /** `saveSpecificColorToSlot`: stores a copy of the given colour in one slot. */
    method SaveSpecificColorToSlot(color: ColorInfo, slotIndex: nat)
      requires Valid() && slotIndex < SlotCount
      modifies savedColors
      ensures Valid()
      ensures savedColors[..] == old(savedColors[..])[slotIndex := Some(color)]
    {
      savedColors[slotIndex] := Some(color);
    }

    /** `resetCursorToCenter`: with a canvas, the cursor moves to its centre pixel and the crosshair is shown. */
    method ResetCursorToCenter()
      modifies this`cursorPos, this`showCrosshair
      ensures canvas.None? ==> cursorPos == old(cursorPos) && showCrosshair == old(showCrosshair)
      ensures canvas.Some? ==> cursorPos == Center(canvas.value.image) && showCrosshair
    {
      match canvas
      case None =>
      case Some(cv) =>
        cursorPos := Point(cv.image.width / 2, cv.image.height / 2);
        showCrosshair := true;
    }
  }
}
