/**
 * The drawing surface the core reads from: a decoded raster of RGBA pixels, and the
 * `getImageData(x, y, w, h).data` read of the Canvas 2D API, which returns the bytes of a
 * rectangle row by row, four bytes (R, G, B, A) per pixel, with transparent black for any
 * pixel of the rectangle that lies outside the raster.
 */
module Canvas {
  import opened Arith

  /** One 8-bit channel value, as stored in an image-data buffer. */
  type Byte = v: int | 0 <= v < 256

  datatype Pixel = Pixel(r: Byte, g: Byte, b: Byte, a: Byte)

  const TransparentBlack: Pixel := Pixel(0, 0, 0, 0)

  /** `rows[y][x]` is the pixel in column `x` of row `y`. */
  datatype Grid = Grid(width: nat, height: nat, rows: seq<seq<Pixel>>)

  predicate IsRaster(g: Grid) {
    |g.rows| == g.height && forall y | 0 <= y < |g.rows| :: |g.rows[y]| == g.width
  }

  /** A `width × height` grid of pixels; the canvas's `width` and `height` are its dimensions. */
  type Raster = g: Grid | IsRaster(g) witness Grid(0, 0, [])

  predicate InBounds(img: Raster, x: int, y: int) {
    0 <= x < img.width && 0 <= y < img.height
  }

  /** The pixel at `(x, y)`; outside the raster the canvas reads transparent black. */
  function PixelAt(img: Raster, x: int, y: int): Pixel {
    if InBounds(img, x, y) then img.rows[y][x] else TransparentBlack
  }

  /** Channel `k` of a pixel in buffer order: 0 red, 1 green, 2 blue, 3 alpha. */
  function ChannelOf(p: Pixel, k: int): Byte
    requires 0 <= k < 4
  {
    if k == 0 then p.r else if k == 1 then p.g else if k == 2 then p.b else p.a
  }

  /** `getImageData(x, y, w, h).data`: `4*w*h` bytes, pixel `(x+lx, y+ly)` at offset `(ly*w + lx)*4`. */
  function ImageData(img: Raster, x: int, y: int, w: nat, h: nat): (data: seq<Byte>)
    ensures |data| == 4 * w * h
  {
    seq(4 * w * h, i requires 0 <= i < 4 * w * h =>
      ChannelOf(PixelAt(img, x + (i / 4) % w, y + (i / 4) / w), i % 4))
  }

  /** The byte at the row-major offset of `(lx, ly)` in a `w × h` read is the matching channel of that pixel. */
  lemma ImageDataAt(img: Raster, x: int, y: int, w: nat, h: nat, lx: int, ly: int, k: int)
    requires 0 <= lx < w && 0 <= ly < h && 0 <= k < 4
    ensures 0 <= (ly * w + lx) * 4 + k < |ImageData(img, x, y, w, h)|
    ensures ImageData(img, x, y, w, h)[(ly * w + lx) * 4 + k] == ChannelOf(PixelAt(img, x + lx, y + ly), k)
  {
    var p := ly * w + lx;
    var i := p * 4 + k;
    RowMajorBound(ly, lx, w, h);
    assert 4 * w * h == (w * h) * 4;
    DivModUnique(i, 4, p, k);
    DivModUnique(p, w, ly, lx);
  }
}
