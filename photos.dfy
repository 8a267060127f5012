/** The arithmetic of the photo processing service: the integer quality score computed
    from an image's metadata and statistics, and the grid on which a collage places its
    images. The image operations themselves are not modelled; the values they would read
    are inputs. */
module PhotoProcessing {
  import opened Common

  // ---------------------------------------------------------------- quality score

  /** What `metadata()` and `stats()` report about an image: its dimensions, its file size
      in bytes and the mean of its first channel. */
  datatype Analysis = Analysis(width: int, height: int, size: int, firstChannelMean: int)

  const FiveMegabytes: int := 5 * 1024 * 1024

  predicate LowResolution(a: Analysis) { a.width < 800 || a.height < 600 }
  predicate Oversized(a: Analysis) { a.size > FiveMegabytes }
  predicate Dark(a: Analysis) { a.firstChannelMean < 50 }

  /** The sum of the penalties an analysed image incurs. */
  function Penalty(a: Analysis): (p: nat)
    ensures p <= 45
    ensures p == 0 <==> !LowResolution(a) && !Oversized(a) && !Dark(a)
  {
    (if LowResolution(a) then 20 else 0) + (if Oversized(a) then 15 else 0) + (if Dark(a) then 10 else 0)
  }

  /** `calculateQualityScore`: `None` stands for an analysis that threw. */
  method QualityScore(analysis: Option<Analysis>) returns (score: int)
    ensures 0 <= score <= 100
    ensures analysis.None? ==> score == 50
    ensures analysis.Some? ==> score == 100 - Penalty(analysis.value)
  {
    match analysis
    case None =>
      score := 50;
    case Some(a) =>
      score := 100;
      if a.width < 800 || a.height < 600 {
        score := score - 20;
      }
      if a.size > 5 * 1024 * 1024 {
        score := score - 15;
      }
      if a.firstChannelMean < 50 {
        score := score - 10;
      }
      score := if score > 100 then 100 else if score < 0 then 0 else score;
  }

  /** An analysed image scores between 55 and 100, so the clamp never bites and the
      fallback score of a failed analysis is one no analysed image receives; the score
      tells exactly which penalties applied. */
  lemma PenaltiesMeaning(a: Analysis, b: Analysis)
    ensures 55 <= 100 - Penalty(a) <= 100
    ensures 100 - Penalty(a) != 50
    ensures Penalty(a) == Penalty(b) <==>
              LowResolution(a) == LowResolution(b) && Oversized(a) == Oversized(b) && Dark(a) == Dark(b)
  {
  }

  // ---------------------------------------------------------------- collage grid

  /** The `options` of `createCollage`; an absent option takes its default. */
  datatype CollageOptions = CollageOptions(width: Option<int>, height: Option<int>, columns: Option<int>, margin: Option<int>)

  function OrDefault(o: Option<int>, d: int): int {
    match o
    case Some(v) => v
    case None => d
  }

  /** The canvas, its grid and the size of each cell. */
  datatype Grid = Grid(width: int, height: int, columns: int, margin: int, rows: int, cellWidth: int, cellHeight: int)

  /** `Math.ceil(count / columns)` for a positive column count. */
  function CeilDiv(count: nat, columns: int): (r: nat)
    requires columns > 0
    ensures r == 0 <==> count == 0
    ensures count <= r * columns
    ensures count > 0 ==> (r - 1) * columns < count
  {
    (count + columns - 1) / columns
  }

  /** The grid for `count` images: `None` when the column count is not positive. The cell
      height of an empty grid divides by zero rows; no image is placed in it, and it is
      written as 0. */
  function GridFor(count: nat, o: CollageOptions): (g: Option<Grid>)
    ensures g.Some? <==> OrDefault(o.columns, 2) > 0
    ensures g.Some? ==> var d := g.value;
      && d.width == OrDefault(o.width, 1200) && d.height == OrDefault(o.height, 800)
      && d.columns == OrDefault(o.columns, 2) && d.margin == OrDefault(o.margin, 10)
      && count <= d.rows * d.columns
      && (count > 0 ==> (d.rows - 1) * d.columns < count)
      && d.cellWidth * d.columns <= d.width - d.margin * (d.columns + 1) < (d.cellWidth + 1) * d.columns
      && (count > 0 ==> d.cellHeight * d.rows <= d.height - d.margin * (d.rows + 1) < (d.cellHeight + 1) * d.rows)
  {
    var width := OrDefault(o.width, 1200);
    var height := OrDefault(o.height, 800);
    var columns := OrDefault(o.columns, 2);
    var margin := OrDefault(o.margin, 10);
    if columns <= 0 then None
    else
      var rows := CeilDiv(count, columns);
      var cellWidth := (width - margin * (columns + 1)) / columns;
      var cellHeight := if rows == 0 then 0 else (height - margin * (rows + 1)) / rows;
      Some(Grid(width, height, columns, margin, rows, cellWidth, cellHeight))
  }

  /** The canvas can be created only with positive dimensions. */
  predicate CanvasOk(o: CollageOptions) {
    OrDefault(o.width, 1200) > 0 && OrDefault(o.height, 800) > 0
  }

  /** Images can be resized only to positive dimensions. */
  predicate CellsOk(g: Grid) {
    g.cellWidth > 0 && g.cellHeight > 0
  }

  /** One entry of `composite`: the index of the image and its offsets. */
  datatype Placement = Placement(image: nat, left: int, top: int)

  /** Where image `i` goes: row `i / columns`, column `i % columns`. */
  function Slot(g: Grid, i: nat): Placement
    requires g.columns > 0
  {
    var row := i / g.columns;
    var col := i % g.columns;
    Placement(i, g.margin + col * (g.cellWidth + g.margin), g.margin + row * (g.cellHeight + g.margin))
  }

  /** `createCollage` for `count` images: `None` when it throws. */
  method CreateCollage(count: nat, o: CollageOptions) returns (r: Option<seq<Placement>>)
    ensures r.None? <==> !CanvasOk(o) || (count > 0 && (GridFor(count, o).None? || !CellsOk(GridFor(count, o).value)))
    ensures r.Some? ==> |r.value| == count
    ensures r.Some? && count > 0 ==> forall i :: 0 <= i < count ==> r.value[i] == Slot(GridFor(count, o).value, i)
  {
    var width := OrDefault(o.width, 1200);
    var height := OrDefault(o.height, 800);
    if width <= 0 || height <= 0 {
      return None;
    }
    if count == 0 {
      return Some([]);
    }
    var grid := GridFor(count, o);
    match grid
    case None =>
      r := None;
    case Some(g) =>
      if g.cellWidth <= 0 || g.cellHeight <= 0 {
        return None;
      }
      var composite: seq<Placement> := [];
      var i := 0;
      while i < count
        invariant i <= count
        invariant |composite| == i
        invariant forall k :: 0 <= k < i ==> composite[k] == Slot(g, k)
      {
        var row := i / g.columns;
        var col := i % g.columns;
        var left := g.margin + col * (g.cellWidth + g.margin);
        var top := g.margin + row * (g.cellHeight + g.margin);
        composite := composite + [Placement(i, left, top)];
        i := i + 1;
      }
      r := Some(composite);
  }

  /** With a non-negative margin, every cell of a placed image lies on the canvas, at least
      one margin away from each edge. */
  lemma SlotInsideCanvas(count: nat, o: CollageOptions, i: nat)
    requires GridFor(count, o).Some? && CellsOk(GridFor(count, o).value)
    requires GridFor(count, o).value.margin >= 0
    requires i < count
    ensures var g := GridFor(count, o).value; var p := Slot(g, i);
      && g.margin <= p.left && p.left + g.cellWidth + g.margin <= g.width
      && g.margin <= p.top && p.top + g.cellHeight + g.margin <= g.height
  {
    var g := GridFor(count, o).value;
    var row, col := i / g.columns, i % g.columns;
    if row >= g.rows {
      ScaleMonotone(g.rows, row, g.columns);
      assert false;
    }
    AxisFits(col, g.columns, g.cellWidth, g.margin, g.width);
    AxisFits(row, g.rows, g.cellHeight, g.margin, g.height);
  }

  /** Along one axis: the `k`-th of `n` cells, each followed by a margin, ends within an
      extent that holds the `n` cells and `n + 1` margins. */
  lemma AxisFits(k: nat, n: nat, cell: int, margin: int, extent: int)
    requires k < n && cell > 0 && margin >= 0
    requires cell * n <= extent - margin * (n + 1)
    ensures margin <= margin + k * (cell + margin)
    ensures margin + k * (cell + margin) + cell + margin <= extent
  {
    ScaleMonotone(0, k, cell + margin);
    ScaleMonotone(k + 1, n, cell + margin);
    assert (k + 1) * (cell + margin) == k * (cell + margin) + cell + margin;
    assert n * (cell + margin) == cell * n + margin * n;
  }

  /** With a non-negative margin, the cells of two different images do not overlap: they
      are side by side in the same row, or one row lies above the other. */
  lemma SlotsDisjoint(g: Grid, i: nat, j: nat)
    requires g.columns > 0 && CellsOk(g) && g.margin >= 0
    requires i != j
    ensures var p, q := Slot(g, i), Slot(g, j);
      || p.left + g.cellWidth + g.margin <= q.left || q.left + g.cellWidth + g.margin <= p.left
      || p.top + g.cellHeight + g.margin <= q.top || q.top + g.cellHeight + g.margin <= p.top
  {
    var ri, ci := i / g.columns, i % g.columns;
    var rj, cj := j / g.columns, j % g.columns;
    assert i == ri * g.columns + ci && j == rj * g.columns + cj;
    if ri == rj {
      assert ci != cj;
      if ci < cj {
        ScaleMonotone(ci + 1, cj, g.cellWidth + g.margin);
      } else {
        ScaleMonotone(cj + 1, ci, g.cellWidth + g.margin);
      }
    } else if ri < rj {
      ScaleMonotone(ri + 1, rj, g.cellHeight + g.margin);
    } else {
      ScaleMonotone(rj + 1, ri, g.cellHeight + g.margin);
    }
  }
}
