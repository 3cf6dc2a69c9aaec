/**
 * Region selection: a drag in image space is tracked by start/update/end, normalised into a
 * rectangle and committed only when both sides exceed three pixels; a committed region is
 * sampled on a fixed 5 × 2 grid, row by row.
 */
module RegionSelection {
  import opened Wrappers
  import opened Arith
  import opened Types
  import opened ColorPicker

  /** A side must be strictly longer than this for a region to be committed. */
  const MinSide: int := 3
  const Cols: nat := 5
  const Rows: nat := 2

  predicate Committable(reg: Region) {
    Normalised(reg) && reg.x2 - reg.x1 > MinSide && reg.y2 - reg.y1 > MinSide
  }

  function Abs(v: int): nat {
    if v < 0 then -v else v
  }

  /** The region `endSelection` commits for a drag from `start` to `end`, if any. */
  function SelectionOutcome(start: Point, end: Point): (r: Option<Region>)
    ensures r.Some? <==> Abs(end.x - start.x) > MinSide && Abs(end.y - start.y) > MinSide
    ensures r.Some? ==> r.value == Span(start, end) && Committable(r.value)
  {
    var reg := Span(start, end);
    if reg.x2 - reg.x1 > MinSide && reg.y2 - reg.y1 > MinSide then Some(reg) else None
  }

  /** A 3-pixel drag commits nothing; a 4-pixel one commits its rectangle. */
  lemma ThresholdExamples()
    ensures SelectionOutcome(Point(10, 10), Point(13, 13)) == None
    ensures SelectionOutcome(Point(10, 10), Point(14, 14)) == Some(Region(10, 10, 14, 14))
    ensures SelectionOutcome(Point(14, 14), Point(10, 10)) == Some(Region(10, 10, 14, 14))
  {
  }

  // ---------------------------------------------------------------------------------------
  // The auto-pick grid

  /** `Math.round`: the nearest integer, halves rounded up. */
  function JsRound(v: real): (n: int)
    ensures n as real - 0.5 <= v < n as real + 0.5
  {
    (v + 0.5).Floor
  }

  /** Column `col`'s x: `round(x1 + (col + 0.5) * w / 5)`, computed on integers. */
  function GridX(reg: Region, col: int): int {
    reg.x1 + ((2 * col + 1) * (reg.x2 - reg.x1) + 5) / 10
  }

  /** Row `row`'s y: `round(y1 + (row + 0.5) * h / 2)`, computed on integers. */
  function GridY(reg: Region, row: int): int {
    reg.y1 + ((2 * row + 1) * (reg.y2 - reg.y1) + 2) / 4
  }

  lemma FloorOfQuotient(n: int, d: int)
    requires d > 0
    ensures (n as real / d as real).Floor == n / d
  {
    var q, r := n / d, n % d;
    assert n == q * d + r;
    assert n as real / d as real == q as real + r as real / d as real;
    assert 0.0 <= r as real / d as real < 1.0;
  }

  /** The integer grid formulas are exactly the source's rounding of the real-valued positions. */
  lemma GridIsRounded(reg: Region, col: int, row: int)
    ensures GridX(reg, col) == JsRound(reg.x1 as real + (col as real + 0.5) * (reg.x2 - reg.x1) as real / 5.0)
    ensures GridY(reg, row) == JsRound(reg.y1 as real + (row as real + 0.5) * (reg.y2 - reg.y1) as real / 2.0)
  {
    var nx := 10 * reg.x1 + (2 * col + 1) * (reg.x2 - reg.x1) + 5;
    assert reg.x1 as real + (col as real + 0.5) * (reg.x2 - reg.x1) as real / 5.0 + 0.5 == nx as real / 10.0;
    FloorOfQuotient(nx, 10);
    DivModUnique(nx, 10, reg.x1 + ((2 * col + 1) * (reg.x2 - reg.x1) + 5) / 10, ((2 * col + 1) * (reg.x2 - reg.x1) + 5) % 10);
    var ny := 4 * reg.y1 + (2 * row + 1) * (reg.y2 - reg.y1) + 2;
    assert reg.y1 as real + (row as real + 0.5) * (reg.y2 - reg.y1) as real / 2.0 + 0.5 == ny as real / 4.0;
    FloorOfQuotient(ny, 4);
    DivModUnique(ny, 4, reg.y1 + ((2 * row + 1) * (reg.y2 - reg.y1) + 2) / 4, ((2 * row + 1) * (reg.y2 - reg.y1) + 2) % 4);
  }

  /** The ten sample points in generation order: row 0 columns 0..4, then row 1 columns 0..4. */
  function SamplePoints(reg: Region): (pts: seq<Point>)
    ensures |pts| == Cols * Rows
  {
    seq(Cols * Rows, i requires 0 <= i < Cols * Rows => Point(GridX(reg, i % Cols), GridY(reg, i / Cols)))
  }

  /** Point `row * 5 + col` is the grid point of that row and column. */
  lemma SamplePointAt(reg: Region, row: int, col: int)
    requires 0 <= row < Rows && 0 <= col < Cols
    ensures row * Cols + col < |SamplePoints(reg)|
    ensures SamplePoints(reg)[row * Cols + col] == Point(GridX(reg, col), GridY(reg, row))
  {
    DivModUnique(row * Cols + col, Cols, row, col);
  }

  /** Every sample point lies inside the (normalised) region. */
  lemma SamplePointsInside(reg: Region)
    requires Normalised(reg)
    ensures forall i | 0 <= i < |SamplePoints(reg)| :: Contains(reg, SamplePoints(reg)[i])
  {
    forall i | 0 <= i < |SamplePoints(reg)| ensures Contains(reg, SamplePoints(reg)[i]) {
      var col, row := i % Cols, i / Cols;
      GridXInside(reg, col);
      GridYInside(reg, row);
    }
  }

  lemma GridXInside(reg: Region, col: int)
    requires Normalised(reg) && 0 <= col < Cols
    ensures reg.x1 <= GridX(reg, col) <= reg.x2
  {
    var w := reg.x2 - reg.x1;
    var n := (2 * col + 1) * w + 5;
    assert 0 <= (2 * col + 1) * w <= 9 * w by { MulMonotone(2 * col + 1, 9, w); }
    assert n < 10 * (w + 1);
    DivBelow(n, 10, w + 1);
  }

  lemma GridYInside(reg: Region, row: int)
    requires Normalised(reg) && 0 <= row < Rows
    ensures reg.y1 <= GridY(reg, row) <= reg.y2
  {
    var h := reg.y2 - reg.y1;
    var n := (2 * row + 1) * h + 2;
    assert 0 <= (2 * row + 1) * h <= 3 * h by { MulMonotone(2 * row + 1, 3, h); }
    assert n < 4 * (h + 1);
    DivBelow(n, 4, h + 1);
  }

  lemma DivBelow(n: int, d: int, k: int)
    requires d > 0 && 0 <= n < d * k
    ensures 0 <= n / d < k
  {
    var q := n / d;
    assert n == q * d + n % d;
    if q >= k {
      MulMonotone(k, q, d);
    }
  }

  /** The grid of region (0,0)-(100,20). */
  lemma SamplePointsExample()
    ensures SamplePoints(Region(0, 0, 100, 20)) ==
      [Point(10, 5), Point(30, 5), Point(50, 5), Point(70, 5), Point(90, 5),
       Point(10, 15), Point(30, 15), Point(50, 15), Point(70, 15), Point(90, 15)]
  {
  }

  /** The colours pushed for a sequence of points: the sampler's result at each, where it gave one. */
  function Collect(sample: (int, int) -> Option<ColorInfo>, pts: seq<Point>): (cs: seq<ColorInfo>)
    ensures |cs| <= |pts|
    ensures (forall i | 0 <= i < |pts| :: sample(pts[i].x, pts[i].y).Some?) ==>
      |cs| == |pts| && forall i | 0 <= i < |pts| :: Some(cs[i]) == sample(pts[i].x, pts[i].y)
    decreases |pts|
  {
    if |pts| == 0 then []
    else
      var last := pts[|pts| - 1];
      var before := Collect(sample, pts[..|pts| - 1]);
      match sample(last.x, last.y)
      case Some(c) => before + [c]
      case None => before
  }

  /** Every collected colour is what the sampler returned at one of the points; nothing is invented. */
  lemma {:induction false} CollectFromSamples(sample: (int, int) -> Option<ColorInfo>, pts: seq<Point>)
    ensures forall j | 0 <= j < |Collect(sample, pts)| ::
      exists i | 0 <= i < |pts| :: sample(pts[i].x, pts[i].y) == Some(Collect(sample, pts)[j])
    decreases |pts|
  {
    if |pts| > 0 {
      var init := pts[..|pts| - 1];
      CollectFromSamples(sample, init);
      var cs := Collect(sample, pts);
      var last := pts[|pts| - 1];
      assert cs == Collect(sample, init) + (if sample(last.x, last.y).Some? then [sample(last.x, last.y).value] else []);
      forall j | 0 <= j < |cs| ensures exists i | 0 <= i < |pts| :: sample(pts[i].x, pts[i].y) == Some(cs[j]) {
        if j < |Collect(sample, init)| {
          assert cs[j] == Collect(sample, init)[j];
          var i :| 0 <= i < |init| && sample(init[i].x, init[i].y) == Some(Collect(sample, init)[j]);
          assert pts[i] == init[i];
        } else {
          assert sample(pts[|pts| - 1].x, pts[|pts| - 1].y) == Some(cs[j]);
        }
      }
      assert forall j | 0 <= j < |cs| :: exists i | 0 <= i < |pts| :: sample(pts[i].x, pts[i].y) == Some(cs[j]);
    } else {
      assert Collect(sample, pts) == [];
    }
  }

  /** One more point adds its colour, if the sampler gives one, at the end. */
  lemma CollectStep(sample: (int, int) -> Option<ColorInfo>, pts: seq<Point>, k: nat)
    requires k < |pts|
    ensures Collect(sample, pts[..k + 1]) ==
      Collect(sample, pts[..k]) + (if sample(pts[k].x, pts[k].y).Some? then [sample(pts[k].x, pts[k].y).value] else [])
  {
    assert pts[..k + 1][..k] == pts[..k];
  }

  /** `autoPickColors`' result for a region. */
  function AutoPicked(reg: Region, sample: (int, int) -> Option<ColorInfo>): seq<ColorInfo> {
    Collect(sample, SamplePoints(reg))
  }

  /** At most ten colours; exactly the ten grid samples, in row-major order, when the sampler never fails. */
  lemma AutoPickedCount(reg: Region, sample: (int, int) -> Option<ColorInfo>)
    ensures |AutoPicked(reg, sample)| <= Cols * Rows
    ensures (forall x: int, y: int :: sample(x, y).Some?) ==>
      |AutoPicked(reg, sample)| == Cols * Rows &&
      forall row, col | 0 <= row < Rows && 0 <= col < Cols ::
        Some(AutoPicked(reg, sample)[row * Cols + col]) == sample(GridX(reg, col), GridY(reg, row))
  {
    if forall x: int, y: int :: sample(x, y).Some? {
      forall row, col | 0 <= row < Rows && 0 <= col < Cols
        ensures Some(AutoPicked(reg, sample)[row * Cols + col]) == sample(GridX(reg, col), GridY(reg, row))
      {
        SamplePointAt(reg, row, col);
      }
    }
  }

  /**
   * Sampling through `getPixelColor` on a canvas never fails, so a committed region yields all ten
   * colours, each read at its grid point clamped to the raster and carrying both hex forms.
   */
  lemma AutoPickedFromCanvas(reg: Region, cv: CanvasElement, row: int, col: int)
    requires 0 <= row < Rows && 0 <= col < Cols
    ensures var cs := AutoPicked(reg, (x: int, y: int) => GetPixelColor(Some(cv), x, y));
      && |cs| == Cols * Rows
      && cs[row * Cols + col].x == Clamp(GridX(reg, col), cv.image.width)
      && cs[row * Cols + col].y == Clamp(GridY(reg, row), cv.image.height)
      && Consistent(cs[row * Cols + col])
  {
    var sample := (x: int, y: int) => GetPixelColor(Some(cv), x, y);
    assert forall x: int, y: int :: sample(x, y).Some?;
    AutoPickedCount(reg, sample);
    var k := GetPixelColor(Some(cv), GridX(reg, col), GridY(reg, row));
    assert Some(AutoPicked(reg, sample)[row * Cols + col]) == k;
  }

  // ---------------------------------------------------------------------------------------
  // The selector's state

  class RegionSelector {
    /** The `getPixelColor` the selector was created with. */
    const sample: (int, int) -> Option<ColorInfo>
    var region: Option<Region>
    var isSelecting: bool
    var selectionStart: Point
    var selectionCurrent: Point
    var autoPickEnabled: bool
    var autoPickedColors: seq<ColorInfo>

    /** A committed region is normalised and larger than the threshold; without one there are no colours. */
    ghost predicate Valid()
      reads this
    {
      && (region.Some? ==> Committable(region.value))
      && (region.None? ==> autoPickedColors == [])
      && |autoPickedColors| <= Cols * Rows
    }

    constructor (sample: (int, int) -> Option<ColorInfo>)
      ensures Valid() && this.sample == sample
      ensures region == None && !isSelecting && autoPickEnabled && autoPickedColors == []
      ensures selectionStart == Point(0, 0) && selectionCurrent == Point(0, 0)
    {
      this.sample := sample;
      region := None;
      isSelecting := false;
      selectionStart := Point(0, 0);
      selectionCurrent := Point(0, 0);
      autoPickEnabled := true;
      autoPickedColors := [];
    }

    /** `startSelection`: begins a drag at `(imgX, imgY)`, dropping any committed region and its colours. */
    method StartSelection(imgX: int, imgY: int)
      requires Valid()
      modifies this
      ensures Valid()
      ensures isSelecting && selectionStart == Point(imgX, imgY) && selectionCurrent == Point(imgX, imgY)
      ensures region == None && autoPickedColors == [] && autoPickEnabled == old(autoPickEnabled)
    {
      isSelecting := true;
      selectionStart := Point(imgX, imgY);
      selectionCurrent := Point(imgX, imgY);
      region := None;
      autoPickedColors := [];
    }

    /** `updateSelection`: moves the live end point, and only while a drag is in progress. */
    method UpdateSelection(imgX: int, imgY: int)
      modifies this`selectionCurrent
      ensures selectionCurrent == if isSelecting then Point(imgX, imgY) else old(selectionCurrent)
    {
      if !isSelecting {
        return;
      }
      selectionCurrent := Point(imgX, imgY);
    }

    /** `previewRegion`: while selecting, the rectangle spanned by the anchor and the live end point. */
    function PreviewRegion(): (r: Option<Region>)
      reads this
      ensures r.Some? <==> isSelecting
      ensures r.Some? ==> r.value == Span(selectionStart, selectionCurrent)
      ensures r.Some? ==> Normalised(r.value) && Contains(r.value, selectionStart) && Contains(r.value, selectionCurrent)
    {
      if !isSelecting then None else Some(Span(selectionStart, selectionCurrent))
    }

    /**
     * `endSelection`: a no-op unless selecting; otherwise the drag ends and the region spanned by
     * the anchor and `(imgX, imgY)` is committed when both sides exceed the threshold (sampled at
     * once when auto-pick is on), else region and colours are cleared.
     */
    method EndSelection(imgX: int, imgY: int)
      requires Valid()
      modifies this
      ensures Valid()
      ensures !old(isSelecting) ==>
        region == old(region) && !isSelecting && autoPickedColors == old(autoPickedColors)
        && selectionStart == old(selectionStart) && selectionCurrent == old(selectionCurrent)
      ensures old(isSelecting) ==>
        && !isSelecting
        && region == SelectionOutcome(selectionStart, Point(imgX, imgY))
        && autoPickedColors == (
          if region.None? then []
          else if autoPickEnabled then AutoPicked(region.value, sample)
          else old(autoPickedColors))
      ensures selectionStart == old(selectionStart) && selectionCurrent == old(selectionCurrent)
      ensures autoPickEnabled == old(autoPickEnabled)
    {
      if !isSelecting {
        return;
      }
      isSelecting := false;

      var x1 := Min(selectionStart.x, imgX);
      var y1 := Min(selectionStart.y, imgY);
      var x2 := Max(selectionStart.x, imgX);
      var y2 := Max(selectionStart.y, imgY);

      if x2 - x1 > MinSide && y2 - y1 > MinSide {
        region := Some(Region(x1, y1, x2, y2));
        if autoPickEnabled {
          AutoPickColors();
        }
      } else {
        region := None;
        autoPickedColors := [];
      }
    }

    /** `autoPickColors`: with a region, the colours sampled at its ten grid points, in row-major order. */
    method AutoPickColors()
      requires Valid()
      modifies this`autoPickedColors
      ensures Valid()
      ensures autoPickedColors == if region.Some? then AutoPicked(region.value, sample) else old(autoPickedColors)
    {
      if region.None? {
        return;
      }
      var reg := region.value;
      ghost var pts := SamplePoints(reg);
      var colors: seq<ColorInfo> := [];
      for row := 0 to Rows
        invariant colors == Collect(sample, pts[..row * Cols])
      {
        colors := PickRow(reg, row, colors);
      }
      assert pts[..Rows * Cols] == pts;
      AutoPickedCount(reg, sample);
      autoPickedColors := colors;
    }

    /** The inner loop of `autoPickColors`: the samples of one row, appended in column order. */
    method PickRow(reg: Region, row: int, colors: seq<ColorInfo>) returns (picked: seq<ColorInfo>)
      requires 0 <= row < Rows && colors == Collect(sample, SamplePoints(reg)[..row * Cols])
      ensures picked == Collect(sample, SamplePoints(reg)[..(row + 1) * Cols])
    {
      ghost var pts := SamplePoints(reg);
      picked := colors;
      for col := 0 to Cols
        invariant picked == Collect(sample, pts[..row * Cols + col])
      {
        var px := GridX(reg, col);
        var py := GridY(reg, row);
        SamplePointAt(reg, row, col);
        CollectStep(sample, pts, row * Cols + col);
        var color := sample(px, py);
        if color.Some? {
          picked := picked + [color.value];
        }
      }
    }

    /** `clearRegion`: back to idle, with no region and no colours. */
    method ClearRegion()
      modifies this`region, this`isSelecting, this`autoPickedColors
      ensures Valid()
      ensures region == None && !isSelecting && autoPickedColors == []
    {
      region := None;
      isSelecting := false;
      autoPickedColors := [];
    }
  }
}
