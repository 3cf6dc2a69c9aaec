/**
 * The magnifier: a 25 × 25 neighbourhood of the cursor, read from the source canvas in one
 * clamped block, drawn as 6 × 6 cells on a 150 × 150 canvas, followed by grid lines and a
 * two-outline highlight of the centre cell. The drawing is modelled as the sequence of
 * commands issued to the magnifier's 2D context.
 */
module Magnifier {
  import opened Wrappers
  import opened Arith
  import opened Canvas
  import opened Types
  import opened ColorPicker

  const MagnifierPixels: nat := 25
  const MagnifierScale: nat := 6
  /** `Math.floor(size / 2)`: the centre cell's index. */
  const Half: nat := MagnifierPixels / 2
  const CanvasSize: nat := MagnifierPixels * MagnifierScale

  datatype Rgb = Rgb(r: Byte, g: Byte, b: Byte)

  const Black: Rgb := Rgb(0, 0, 0)

  datatype Outline = White | Red

  /** The calls made on the magnifier's context; each grid line is one `beginPath/moveTo/lineTo/stroke`. */
  datatype DrawCommand =
    | ClearRect(x: int, y: int, w: int, h: int)
    | FillRect(x: int, y: int, w: int, h: int, color: Rgb)
    | StrokeLine(fromX: int, fromY: int, toX: int, toY: int)
    | StrokeRect(x: int, y: int, w: int, h: int, outline: Outline)

  /** The block `[x, endX) × [y, endY)` read from the source canvas. */
  datatype SourceRect = SourceRect(x: int, y: int, endX: int, endY: int) {
    function W(): int { endX - x }
    function H(): int { endY - y }
  }

  /** The cursor's 25 × 25 window, cut down to the raster. */
  function SourceRectOf(img: Raster, cx: int, cy: int): (s: SourceRect)
    ensures 0 <= s.x && s.endX <= img.width && 0 <= s.y && s.endY <= img.height
  {
    SourceRect(Max(0, cx - Half), Max(0, cy - Half),
               Min(img.width, cx - Half + MagnifierPixels), Min(img.height, cy - Half + MagnifierPixels))
  }

  /** A pixel is in the block exactly when it is both in the cursor's window and in the raster. */
  lemma SourceRectIsWindowInRaster(img: Raster, cx: int, cy: int, u: int, v: int)
    ensures var s := SourceRectOf(img, cx, cy);
      (s.x <= u < s.endX && s.y <= v < s.endY) <==>
      (cx - Half <= u < cx - Half + MagnifierPixels && cy - Half <= v < cy - Half + MagnifierPixels && InBounds(img, u, v))
  {
  }

  /** The batch read: image data for the block, or nothing when the block is empty. */
  function BatchRead(img: Raster, cx: int, cy: int): (data: Option<seq<Byte>>)
    ensures var s := SourceRectOf(img, cx, cy);
      data.Some? <==> s.W() > 0 && s.H() > 0
  {
    var s := SourceRectOf(img, cx, cy);
    if s.W() > 0 && s.H() > 0 then Some(ImageData(img, s.x, s.y, s.W(), s.H())) else None
  }

  /** The block is empty exactly when the cursor's window misses the raster altogether. */
  lemma BatchReadEmpty(img: Raster, cx: int, cy: int)
    ensures BatchRead(img, cx, cy).None? <==>
      !(exists u, v | cx - Half <= u < cx - Half + MagnifierPixels && cy - Half <= v < cy - Half + MagnifierPixels :: InBounds(img, u, v))
  {
    var s := SourceRectOf(img, cx, cy);
    if s.W() > 0 && s.H() > 0 {
      assert InBounds(img, s.x, s.y);
    }
  }

  /** The local coordinates and buffer offset the source computes for cell `(dx, dy)`. */
  function LocalX(img: Raster, cx: int, dx: int): int {
    Max(0, Min(cx - Half + dx, img.width - 1)) - Max(0, cx - Half)
  }

  function LocalY(img: Raster, cy: int, dy: int): int {
    Max(0, Min(cy - Half + dy, img.height - 1)) - Max(0, cy - Half)
  }

  function BufferIndex(img: Raster, cx: int, cy: int, dx: int, dy: int): int {
    (LocalY(img, cy, dy) * SourceRectOf(img, cx, cy).W() + LocalX(img, cx, dx)) * 4
  }

  /** Cell `(dx, dy)`'s colour as the source computes it, `?? 0` fallbacks included. */
  function CellColor(img: Raster, cx: int, cy: int, data: Option<seq<Byte>>, dx: int, dy: int): Rgb {
    match data
    case None => Black
    case Some(d) =>
      var idx := BufferIndex(img, cx, cy, dx, dy);
      Rgb(ByteOrZero(d, idx), ByteOrZero(d, idx + 1), ByteOrZero(d, idx + 2))
  }

  /**
   * Whenever the block was read, every cell's clamped pixel lies inside the block, so its
   * offset and the two bytes after it are inside the buffer.
   */
  lemma LocalIndexInBuffer(img: Raster, cx: int, cy: int, dx: int, dy: int)
    requires 0 <= dx < MagnifierPixels && 0 <= dy < MagnifierPixels
    requires BatchRead(img, cx, cy).Some?
    ensures var s := SourceRectOf(img, cx, cy);
      && 0 <= LocalX(img, cx, dx) < s.W() && 0 <= LocalY(img, cy, dy) < s.H()
      && 0 <= BufferIndex(img, cx, cy, dx, dy)
      && BufferIndex(img, cx, cy, dx, dy) + 2 < |BatchRead(img, cx, cy).value|
  {
    var s := SourceRectOf(img, cx, cy);
    var w, h := s.W(), s.H();
    var lx, ly := LocalX(img, cx, dx), LocalY(img, cy, dy);
    ClampedInBlock(cx, dx, img.width);
    ClampedInBlock(cy, dy, img.height);
    ImageDataAt(img, s.x, s.y, w, h, lx, ly, 0);
    ImageDataAt(img, s.x, s.y, w, h, lx, ly, 2);
  }

  /** On one axis: the clamped position of window offset `d` lies inside the clipped window. */
  lemma ClampedInBlock(c: int, d: int, size: int)
    requires 0 <= d < MagnifierPixels
    requires Max(0, c - Half) < Min(size, c - Half + MagnifierPixels)
    ensures Max(0, c - Half) <= Max(0, Min(c - Half + d, size - 1)) < Min(size, c - Half + MagnifierPixels)
  {
  }

  /**
   * Each cell shows the source pixel at the clamped coordinates of its unclamped position, the
   * same pixel `getPixelColor` reads there, or black when nothing was read.
   */
  lemma CellColorIsClampedPixel(cv: CanvasElement, cx: int, cy: int, dx: int, dy: int)
    requires 0 <= dx < MagnifierPixels && 0 <= dy < MagnifierPixels
    ensures var img := cv.image;
      var c := CellColor(img, cx, cy, BatchRead(img, cx, cy), dx, dy);
      var p := PixelAt(img, Clamp(cx - Half + dx, img.width), Clamp(cy - Half + dy, img.height));
      var k := GetPixelColor(Some(cv), cx - Half + dx, cy - Half + dy).value;
      && (BatchRead(img, cx, cy).Some? ==> c == Rgb(p.r, p.g, p.b) && c == Rgb(k.r, k.g, k.b))
      && (BatchRead(img, cx, cy).None? ==> c == Black)
  {
    var img := cv.image;
    if BatchRead(img, cx, cy).Some? {
      var s := SourceRectOf(img, cx, cy);
      LocalIndexInBuffer(img, cx, cy, dx, dy);
      var lx, ly := LocalX(img, cx, dx), LocalY(img, cy, dy);
      ImageDataAt(img, s.x, s.y, s.W(), s.H(), lx, ly, 0);
      ImageDataAt(img, s.x, s.y, s.W(), s.H(), lx, ly, 1);
      ImageDataAt(img, s.x, s.y, s.W(), s.H(), lx, ly, 2);
    }
  }

  // ---------------------------------------------------------------------------------------
  // The command sequence

  function CellFill(img: Raster, cx: int, cy: int, dx: int, dy: int): DrawCommand {
    FillRect(dx * MagnifierScale, dy * MagnifierScale, MagnifierScale, MagnifierScale,
             CellColor(img, cx, cy, BatchRead(img, cx, cy), dx, dy))
  }

  /** The 625 fills, row by row (`dy` outer, `dx` inner). */
  function Fills(img: Raster, cx: int, cy: int): (fs: seq<DrawCommand>)
    ensures |fs| == MagnifierPixels * MagnifierPixels
  {
    seq(MagnifierPixels * MagnifierPixels, k requires 0 <= k < MagnifierPixels * MagnifierPixels =>
      CellFill(img, cx, cy, k % MagnifierPixels, k / MagnifierPixels))
  }

  /** For `i` in 1..24: a vertical line at `i*6`, then a horizontal one. */
  function GridLines(): (ls: seq<DrawCommand>)
    ensures |ls| == 2 * (MagnifierPixels - 1)
  {
    seq(2 * (MagnifierPixels - 1), k requires 0 <= k < 2 * (MagnifierPixels - 1) =>
      var at := (k / 2 + 1) * MagnifierScale;
      if k % 2 == 0 then StrokeLine(at, 0, at, CanvasSize) else StrokeLine(0, at, CanvasSize, at))
  }

  /** The white outline inset by one, then the red outline on the centre cell's boundary. */
  function Highlights(): seq<DrawCommand> {
    [ StrokeRect(Half * MagnifierScale + 1, Half * MagnifierScale + 1, MagnifierScale - 2, MagnifierScale - 2, White),
      StrokeRect(Half * MagnifierScale, Half * MagnifierScale, MagnifierScale, MagnifierScale, Red) ]
  }

  /** Everything `drawMagnifier` issues, in order, for a cursor over a raster. */
  function MagnifierCommands(img: Raster, cx: int, cy: int): seq<DrawCommand> {
    [ClearRect(0, 0, CanvasSize, CanvasSize)] + Fills(img, cx, cy) + GridLines() + Highlights()
  }

  /**
   * `drawMagnifier`: nothing without both canvases; otherwise one clamped batch read, the cells
   * filled row by row, the grid lines, and the centre highlight.
   */
  method DrawMagnifier(magnifierPresent: bool, source: Option<Raster>, cursor: Point) returns (cmds: seq<DrawCommand>)
    ensures cmds == if magnifierPresent && source.Some? then MagnifierCommands(source.value, cursor.x, cursor.y) else []
  {
    if !magnifierPresent || source.None? {
      return [];
    }
    var img := source.value;
    var size := MagnifierPixels;
    var scale := MagnifierScale;
    var half := size / 2;
    var cx := cursor.x;
    var cy := cursor.y;

    var srcX := Max(0, cx - half);
    var srcY := Max(0, cy - half);
    var srcEndX := Min(img.width, cx - half + size);
    var srcEndY := Min(img.height, cy - half + size);
    var srcW := srcEndX - srcX;
    var srcH := srcEndY - srcY;

    var imageData: Option<seq<Byte>> := if srcW > 0 && srcH > 0 then Some(ImageData(img, srcX, srcY, srcW, srcH)) else None;
    assert imageData == BatchRead(img, cx, cy);

    cmds := [ClearRect(0, 0, size * scale, size * scale)];
    var fills := DrawCells(img, cx, cy, imageData);
    var lines := DrawGrid();
    cmds := cmds + fills + lines;
    cmds := cmds + [StrokeRect(half * scale + 1, half * scale + 1, scale - 2, scale - 2, White),
                    StrokeRect(half * scale, half * scale, scale, scale, Red)];
  }

  /** The nested `dy`/`dx` loops of `drawMagnifier`: one fill per cell, row by row. */
  method DrawCells(img: Raster, cx: int, cy: int, imageData: Option<seq<Byte>>) returns (cmds: seq<DrawCommand>)
    requires imageData == BatchRead(img, cx, cy)
    ensures cmds == Fills(img, cx, cy)
  {
    var size := MagnifierPixels;
    var scale := MagnifierScale;
    ghost var fills := Fills(img, cx, cy);
    cmds := [];
    for dy := 0 to size
      invariant cmds == fills[..dy * size]
    {
      for dx := 0 to size
        invariant cmds == fills[..dy * size + dx]
      {
        var rgb := ReadCell(img, cx, cy, imageData, dx, dy);
        FillAt(img, cx, cy, dx, dy);
        cmds := cmds + [FillRect(dx * scale, dy * scale, scale, scale, rgb)];
      }
    }
    assert fills[..size * size] == fills;
  }

  /** The grid loop of `drawMagnifier`: for `i` in 1..24 a vertical then a horizontal line. */
  method DrawGrid() returns (cmds: seq<DrawCommand>)
    ensures cmds == GridLines()
  {
    var size := MagnifierPixels;
    var scale := MagnifierScale;
    cmds := [];
    for i := 1 to size
      invariant cmds == GridLines()[..2 * (i - 1)]
    {
      assert GridLines()[..2 * i] == GridLines()[..2 * (i - 1)] + [GridLines()[2 * (i - 1)], GridLines()[2 * (i - 1) + 1]];
      GridLineAt(i);
      cmds := cmds + [StrokeLine(i * scale, 0, i * scale, size * scale), StrokeLine(0, i * scale, size * scale, i * scale)];
    }
    assert GridLines()[..2 * (size - 1)] == GridLines();
  }

  /** One cell of `drawMagnifier`'s inner loop: clamp, locate in the block, read three bytes. */
  method ReadCell(img: Raster, cx: int, cy: int, imageData: Option<seq<Byte>>, dx: int, dy: int) returns (rgb: Rgb)
    ensures rgb == CellColor(img, cx, cy, imageData, dx, dy)
  {
    var half := MagnifierPixels / 2;
    var srcX := Max(0, cx - half);
    var srcY := Max(0, cy - half);
    var srcW := Min(img.width, cx - half + MagnifierPixels) - srcX;
    var sx := cx - half + dx;
    var sy := cy - half + dy;
    var clampedX := Max(0, Min(sx, img.width - 1));
    var clampedY := Max(0, Min(sy, img.height - 1));

    var r, g, b := 0, 0, 0;
    if imageData.Some? {
      var localX := clampedX - srcX;
      var localY := clampedY - srcY;
      var idx := (localY * srcW + localX) * 4;
      assert idx == BufferIndex(img, cx, cy, dx, dy);
      r := ByteOrZero(imageData.value, idx);
      g := ByteOrZero(imageData.value, idx + 1);
      b := ByteOrZero(imageData.value, idx + 2);
    }
    rgb := Rgb(r, g, b);
  }

  /** Fill `dy * 25 + dx` is cell `(dx, dy)`'s. */
  lemma FillAt(img: Raster, cx: int, cy: int, dx: int, dy: int)
    requires 0 <= dx < MagnifierPixels && 0 <= dy < MagnifierPixels
    ensures dy * MagnifierPixels + dx < |Fills(img, cx, cy)|
    ensures Fills(img, cx, cy)[dy * MagnifierPixels + dx] == CellFill(img, cx, cy, dx, dy)
    ensures Fills(img, cx, cy)[..dy * MagnifierPixels + dx + 1] ==
      Fills(img, cx, cy)[..dy * MagnifierPixels + dx] + [CellFill(img, cx, cy, dx, dy)]
  {
    DivModUnique(dy * MagnifierPixels + dx, MagnifierPixels, dy, dx);
    RowMajorBound(dy, dx, MagnifierPixels, MagnifierPixels);
  }

  /** Grid entries `2(i-1)` and `2(i-1)+1` are the vertical and horizontal lines at `i*6`. */
  lemma GridLineAt(i: int)
    requires 1 <= i < MagnifierPixels
    ensures GridLines()[2 * (i - 1)] == StrokeLine(i * MagnifierScale, 0, i * MagnifierScale, CanvasSize)
    ensures GridLines()[2 * (i - 1) + 1] == StrokeLine(0, i * MagnifierScale, CanvasSize, i * MagnifierScale)
  {
    DivModUnique(2 * (i - 1), 2, i - 1, 0);
    DivModUnique(2 * (i - 1) + 1, 2, i - 1, 1);
  }

  // ---------------------------------------------------------------------------------------
  // What the command sequence draws

  /** One clear, 625 fills, 48 grid lines and two outlines, with the clear first and the red outline last. */
  lemma MagnifierLayout(img: Raster, cx: int, cy: int)
    ensures var cmds := MagnifierCommands(img, cx, cy);
      && |cmds| == 1 + MagnifierPixels * MagnifierPixels + 2 * (MagnifierPixels - 1) + 2
      && cmds[0] == ClearRect(0, 0, 150, 150)
      && cmds[|cmds| - 2] == StrokeRect(73, 73, 4, 4, White)
      && cmds[|cmds| - 1] == StrokeRect(72, 72, 6, 6, Red)
  {
  }

  /** Command `1 + dy*25 + dx` fills cell `(dx, dy)`'s 6 × 6 square with its clamped source pixel. */
  lemma CellCommand(cv: CanvasElement, cx: int, cy: int, dx: int, dy: int)
    requires 0 <= dx < MagnifierPixels && 0 <= dy < MagnifierPixels
    ensures var img := cv.image;
      var cmds := MagnifierCommands(img, cx, cy);
      var p := PixelAt(img, Clamp(cx - Half + dx, img.width), Clamp(cy - Half + dy, img.height));
      && 1 + dy * MagnifierPixels + dx < |cmds|
      && cmds[1 + dy * MagnifierPixels + dx] ==
         FillRect(dx * MagnifierScale, dy * MagnifierScale, MagnifierScale, MagnifierScale,
                  if BatchRead(img, cx, cy).Some? then Rgb(p.r, p.g, p.b) else Black)
  {
    var img := cv.image;
    FillAt(img, cx, cy, dx, dy);
    CellColorIsClampedPixel(cv, cx, cy, dx, dy);
    var cmds := MagnifierCommands(img, cx, cy);
    assert cmds[1 + dy * MagnifierPixels + dx] == Fills(img, cx, cy)[dy * MagnifierPixels + dx];
  }

  /** Commands `624 + 2i` and `625 + 2i` are the vertical and horizontal grid lines at `6i`, spanning the canvas. */
  lemma GridCommand(img: Raster, cx: int, cy: int, i: int)
    requires 1 <= i < MagnifierPixels
    ensures var cmds := MagnifierCommands(img, cx, cy);
      && 625 + 2 * i < |cmds|
      && cmds[624 + 2 * i] == StrokeLine(6 * i, 0, 6 * i, 150)
      && cmds[625 + 2 * i] == StrokeLine(0, 6 * i, 150, 6 * i)
  {
    GridLineAt(i);
    var cmds := MagnifierCommands(img, cx, cy);
    assert cmds[624 + 2 * i] == GridLines()[2 * (i - 1)];
    assert cmds[625 + 2 * i] == GridLines()[2 * (i - 1) + 1];
  }

  predicate Covers(c: DrawCommand, px: int, py: int) {
    c.FillRect? && c.x <= px < c.x + c.w && c.y <= py < c.y + c.h
  }

  /** The fills tile the 150 × 150 canvas: each canvas pixel is covered by the fill of cell `(px/6, py/6)` and no other. */
  lemma FillsTile(img: Raster, cx: int, cy: int, k: int, px: int, py: int)
    requires 0 <= k < MagnifierPixels * MagnifierPixels
    requires 0 <= px < CanvasSize && 0 <= py < CanvasSize
    ensures Covers(Fills(img, cx, cy)[k], px, py) <==> k == (py / MagnifierScale) * MagnifierPixels + px / MagnifierScale
  {
    var dx, dy := k % MagnifierPixels, k / MagnifierPixels;
    var f := Fills(img, cx, cy)[k];
    assert f.x == dx * 6 && f.y == dy * 6 && f.w == 6 && f.h == 6;
    AxisCover(dx, px);
    AxisCover(dy, py);
    var qx, qy := px / MagnifierScale, py / MagnifierScale;
    assert 0 <= qx < MagnifierPixels by { DivBound(px); }
    assert 0 <= qy < MagnifierPixels by { DivBound(py); }
    if k == qy * MagnifierPixels + qx {
      DivModUnique(k, MagnifierPixels, qy, qx);
    }
  }

  /** On one axis: `[6d, 6d + 6)` holds `p` exactly when `p / 6 == d`. */
  lemma AxisCover(d: int, p: int)
    requires 0 <= p
    ensures (d * 6 <= p < d * 6 + 6) <==> p / 6 == d
  {
    if d * 6 <= p < d * 6 + 6 {
      DivModUnique(p, 6, d, p - d * 6);
    }
  }

  lemma DivBound(p: int)
    requires 0 <= p < CanvasSize
    ensures 0 <= p / MagnifierScale < MagnifierPixels
  {
  }
}
