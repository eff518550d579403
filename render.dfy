/** The renderer's driver: the square image is cut into `rcc x rcc` square
    tiles of `cell_size` pixels a side, and each tile's pixels are shaded
    and written into the frame. The tiles are rendered one after another
    here; the colour of a pixel is a parameter. */
module Render {
  import opened Common
  import opened Utils
  import opened Frames

  /** `(cells as f32).sqrt().round() as usize` over exact reals: the `n`
      whose distance from the square root of `cells` is at most one half,
      found by counting up from `n`. */
  function RoundSqrtFrom(cells: nat, n: nat): (r: nat)
    requires n == 0 || (n - 1) * (n - 1) + (n - 1) < cells
    ensures r >= n
    ensures (r == 0 && cells == 0) || (r * r - r < cells <= r * r + r)
    decreases cells - n
  {
    if cells <= n * n + n then n
    else RoundSqrtFrom(cells, n + 1)
  }

  /** The number of tiles along each side: the square root of `cells`
      rounded to the nearest integer. */
  function RoundSqrt(cells: nat): (r: nat)
    ensures (r == 0 && cells == 0) || (r * r - r < cells <= r * r + r)
  {
    RoundSqrtFrom(cells, 0)
  }

  /** `n*n - n` grows with `n`. */
  lemma {:induction false} SquareMinusGrows(a: nat, b: nat)
    requires a <= b
    ensures a * a - a <= b * b - b
    decreases b - a
  {
    if a < b {
      SquareMinusGrows(a, b - 1);
      assert (b - 1) * (b - 1) == b * b - 2 * b + 1;
    }
  }

  /** There is one rounded square root: `r*r - r < c <= r*r + r` pins `r`
      down. */
  lemma RoundSqrtUnique(cells: nat, r: nat, s: nat)
    requires r * r - r < cells <= r * r + r
    requires s * s - s < cells <= s * s + s
    ensures r == s
  {
    if r < s {
      assert (r + 1) * (r + 1) - (r + 1) == r * r + r;
      SquareMinusGrows(r + 1, s);
      assert false;
    } else if s < r {
      assert (s + 1) * (s + 1) - (s + 1) == s * s + s;
      SquareMinusGrows(s + 1, r);
      assert false;
    }
  }

  /** When `cells` is a perfect square the tile count is its exact root. */
  lemma RoundSqrtOfSquare(n: nat)
    ensures RoundSqrt(n * n) == n
  {
    var r := RoundSqrt(n * n);
    if n > 0 {
      RoundSqrtUnique(n * n, r, n);
    }
  }

  /** `cell_size = RESOLUTION / row_column_count`; a zero tile count (no
      cells at all) divides by zero. */
  function CellSize(resolution: nat, cells: nat): (r: Outcome<nat>)
    ensures RoundSqrt(cells) == 0 <==> r == Panicked(DivideByZero)
    ensures r.Ok? ==> (r.value * RoundSqrt(cells) <= resolution < (r.value + 1) * RoundSqrt(cells))
  {
    var rcc := RoundSqrt(cells);
    if rcc == 0 then Panicked(DivideByZero) else Ok(resolution / rcc)
  }

  /** Pixel (px, py) lies in tile (xc, yc) of side `cs`. */
  predicate InTile(px: nat, py: nat, xc: nat, yc: nat, cs: nat)
  {
    xc * cs <= px < (xc + 1) * cs && yc * cs <= py < (yc + 1) * cs
  }

  /** The tile of a coordinate is its quotient by the tile size. */
  lemma TileOf(p: nat, c: nat, cs: nat)
    requires cs > 0
    requires c * cs <= p < (c + 1) * cs
    ensures c == p / cs
  {
    var q := p / cs;
    if q < c {
      MulMonotone(q + 1, c, cs);
      assert false;
    } else if c < q {
      MulMonotone(c + 1, q, cs);
      assert false;
    }
  }

  /** Distinct tiles share no pixel. */
  lemma TilesDisjoint(px: nat, py: nat, xc1: nat, yc1: nat, xc2: nat, yc2: nat, cs: nat)
    requires InTile(px, py, xc1, yc1, cs) && InTile(px, py, xc2, yc2, cs)
    ensures xc1 == xc2 && yc1 == yc2
  {
    TileOf(px, xc1, cs);
    TileOf(px, xc2, cs);
    TileOf(py, yc1, cs);
    TileOf(py, yc2, cs);
  }

  /** The `rcc x rcc` tiles cover exactly the square `[0, rcc*cs)^2`: a
      pixel is in some tile of the grid exactly when both coordinates are
      below `rcc*cs`. */
  lemma TilesCover(px: nat, py: nat, rcc: nat, cs: nat)
    requires cs > 0
    ensures (px < rcc * cs && py < rcc * cs) <==>
            (exists xc: nat, yc: nat :: xc < rcc && yc < rcc && InTile(px, py, xc, yc, cs))
  {
    if px < rcc * cs && py < rcc * cs {
      var xc, yc := px / cs, py / cs;
      assert InTile(px, py, xc, yc, cs);
      if rcc <= xc {
        MulMonotone(rcc, xc, cs);
      }
      if rcc <= yc {
        MulMonotone(rcc, yc, cs);
      }
    }
    if exists xc: nat, yc: nat :: xc < rcc && yc < rcc && InTile(px, py, xc, yc, cs) {
      var xc: nat, yc: nat :| xc < rcc && yc < rcc && InTile(px, py, xc, yc, cs);
      MulMonotone(xc + 1, rcc, cs);
      MulMonotone(yc + 1, rcc, cs);
    }
  }

  /** The colour written for an illumination sample: its colour scaled by
      its intensity clamped to [0, 1]. */
  function Shaded(ill: Illumination): (c: Color)
    ensures 0.0 <= ill.intensity <= 1.0 ==> c == Scale(ill.color, ill.intensity)
    ensures ill.intensity <= 0.0 ==> c == Black
    ensures 1.0 <= ill.intensity ==> c == ill.color
  {
    Scale(ill.color, Clamp(ill.intensity, 0.0, 1.0))
  }

  /** The pixels of a rectangle in the order `ray_trace_cell` visits them:
      column by column from `minX`, each column from `minY` down. */
  function Visits(minX: nat, minY: nat, maxX: nat, maxY: nat): seq<(nat, nat)>
    decreases maxX
  {
    if maxX <= minX then []
    else Visits(minX, minY, maxX - 1, maxY) + seq(if maxY < minY then 0 else maxY - minY, i => (maxX - 1, minY + i))
  }

  /** Every pixel of the rectangle is visited, nothing outside it is, and
      no pixel is visited twice. */
  lemma {:induction false} VisitsExactlyOnce(minX: nat, minY: nat, maxX: nat, maxY: nat)
    ensures forall p: (nat, nat) :: p in Visits(minX, minY, maxX, maxY) <==> minX <= p.0 < maxX && minY <= p.1 < maxY
    ensures forall i, j :: 0 <= i < j < |Visits(minX, minY, maxX, maxY)| ==>
      Visits(minX, minY, maxX, maxY)[i] != Visits(minX, minY, maxX, maxY)[j]
    decreases maxX
  {
    if minX < maxX {
      VisitsExactlyOnce(minX, minY, maxX - 1, maxY);
      var prev := Visits(minX, minY, maxX - 1, maxY);
      var col := seq(if maxY < minY then 0 else maxY - minY, i => (maxX - 1, minY + i));
      var all := Visits(minX, minY, maxX, maxY);
      assert all == prev + col;
      forall p | p in all
        ensures minX <= p.0 < maxX && minY <= p.1 < maxY
      {
        if p in col {
          var i :| 0 <= i < |col| && col[i] == p;
        }
      }
      forall p: (nat, nat) | minX <= p.0 < maxX && minY <= p.1 < maxY
        ensures p in all
      {
        if p.0 == maxX - 1 {
          assert col[p.1 - minY] == p;
        } else {
          assert p in prev;
        }
      }
      forall i, j | 0 <= i < j < |all|
        ensures all[i] != all[j]
      {
        if j >= |prev| && i < |prev| {
          assert all[i] in prev;
        }
      }
    }
  }

  /** The inner loop of `ray_trace_cell`: pixels (x, minY) to
      (x, maxY - 1) are set to their shaded colours, and no other pixel
      changes. */
  method TraceColumn(frame: Frame, x: nat, minY: nat, maxY: nat, render: (nat, nat) -> Illumination)
    returns (ghost visited: seq<(nat, nat)>)
    requires frame.Valid()
    requires x < frame.width && maxY <= frame.height
    modifies frame.buffer
    ensures visited == seq(if maxY < minY then 0 else maxY - minY, i => (x, minY + i))
    ensures forall py: nat {:trigger frame.Get(x, py)} :: minY <= py < maxY ==>
      frame.Get(x, py) == Ok(Shaded(render(x, py)))
    ensures forall px: nat, py: nat {:trigger frame.Get(px, py)} ::
      px < frame.width && py < frame.height && !(px == x && minY <= py < maxY) ==>
      frame.Get(px, py) == old(frame.Get(px, py))
  {
    IndicesInBuffer(frame.width, frame.height);
    visited := [];
    var y := minY;
    while y < maxY
      invariant minY <= y && (y == minY || y <= maxY)
      invariant visited == seq(y - minY, i => (x, minY + i))
      invariant forall py: nat {:trigger frame.Get(x, py)} :: minY <= py < y ==>
        frame.Get(x, py) == Ok(Shaded(render(x, py)))
      invariant forall px: nat, py: nat {:trigger frame.Get(px, py)} ::
        px < frame.width && py < frame.height && !(px == x && minY <= py < y) ==>
        frame.Get(px, py) == old(frame.Get(px, py))
    {
      var ill := render(x, y);
      frame.Set(x, y, Scale(ill.color, Clamp(ill.intensity, 0.0, 1.0)));
      visited := visited + [(x, y)];
      y := y + 1;
    }
    assert y - minY == (if maxY < minY then 0 else maxY - minY);
  }

  /** `ray_trace_cell`: every pixel of [minX, maxX) x [minY, maxY) is set to
      the shaded colour `render` gives it, and no other pixel changes. */
  method RayTraceCell(frame: Frame, minX: nat, minY: nat, maxX: nat, maxY: nat, render: (nat, nat) -> Illumination)
    returns (ghost visited: seq<(nat, nat)>)
    requires frame.Valid()
    requires maxX <= frame.width && maxY <= frame.height
    modifies frame.buffer
    ensures visited == Visits(minX, minY, maxX, maxY)
    ensures forall px: nat, py: nat {:trigger frame.Get(px, py)} :: minX <= px < maxX && minY <= py < maxY ==>
      frame.Get(px, py) == Ok(Shaded(render(px, py)))
    ensures forall px: nat, py: nat {:trigger frame.Get(px, py)} ::
      px < frame.width && py < frame.height && !(minX <= px < maxX && minY <= py < maxY) ==>
      frame.Get(px, py) == old(frame.Get(px, py))
  {
    IndicesInBuffer(frame.width, frame.height);
    visited := [];
    var x := minX;
    while x < maxX
      invariant minX <= x && (x == minX || x <= maxX)
      invariant visited == Visits(minX, minY, x, maxY)
      invariant forall px: nat, py: nat {:trigger frame.Get(px, py)} :: minX <= px < x && minY <= py < maxY ==>
        frame.Get(px, py) == Ok(Shaded(render(px, py)))
      invariant forall px: nat, py: nat {:trigger frame.Get(px, py)} ::
        px < frame.width && py < frame.height && !(minX <= px < x && minY <= py < maxY) ==>
        frame.Get(px, py) == old(frame.Get(px, py))
    {
      var column := TraceColumn(frame, x, minY, maxY, render);
      assert Visits(minX, minY, x + 1, maxY) == visited + column;
      visited := visited + column;
      x := x + 1;
    }
    assert maxX < minX ==> Visits(minX, minY, maxX, maxY) == [];
  }

  /** When `cells` is a perfect square `n * n` and `n` divides the
      resolution, the tiles cover the whole image, so `ray_trace` shades
      every pixel. */
  lemma FullCoverage(resolution: nat, n: nat)
    requires n > 0 && resolution % n == 0
    ensures CellSize(resolution, n * n).Ok?
    ensures RoundSqrt(n * n) * CellSize(resolution, n * n).value == resolution
  {
    RoundSqrtOfSquare(n);
  }

  /** The colour `ray_trace` leaves at pixel (px, py): the shaded colour
      inside the `side x side` square the tiles cover, black elsewhere. */
  function Final(px: nat, py: nat, side: nat, render: (nat, nat) -> Illumination): Color
  {
    if px < side && py < side then Shaded(render(px, py)) else Black
  }

  /** The tiles of one column of tiles, `[x0, x1) x [0, rcc * cs)`, traced
      top to bottom (the inner loop of `ray_trace`): its pixels get their
      shaded colours, every other pixel keeps its colour, and `rcc` tiles
      are counted. */
  method TraceTileColumn(frame: Frame, x0: nat, x1: nat, cs: nat, rcc: nat, render: (nat, nat) -> Illumination)
    returns (tiles: nat)
    requires frame.Valid()
    requires x1 <= frame.width && rcc * cs <= frame.height
    modifies frame.buffer
    ensures tiles == rcc
    ensures forall px: nat, py: nat {:trigger frame.Get(px, py)} :: px < frame.width && py < frame.height ==>
      frame.Get(px, py) == if x0 <= px < x1 && py < rcc * cs then Ok(Shaded(render(px, py))) else old(frame.Get(px, py))
  {
    tiles := 0;
    var y0 := 0;
    while tiles < rcc
      invariant tiles <= rcc && y0 == tiles * cs
      invariant forall px: nat, py: nat {:trigger frame.Get(px, py)} :: px < frame.width && py < frame.height ==>
        frame.Get(px, py) == if x0 <= px < x1 && py < y0 then Ok(Shaded(render(px, py))) else old(frame.Get(px, py))
    {
      var y1 := (tiles + 1) * cs;
      assert y1 == y0 + cs;
      MulMonotone(tiles + 1, rcc, cs);
      var _ := RayTraceCell(frame, x0, y0, x1, y1, render);
      tiles := tiles + 1;
      y0 := y1;
    }
  }

  /** The two tile loops of `ray_trace` on a black frame: `rcc x rcc`
      tiles of side `cs` traced column of tiles by column of tiles. The
      square they cover gets its shaded colours, the rest stays black, and
      `rcc * rcc` tiles are counted. */
  method TraceTiles(frame: Frame, rcc: nat, cs: nat, render: (nat, nat) -> Illumination)
    returns (tiles: nat)
    requires frame.Valid() && frame.width == frame.height && rcc * cs <= frame.width
    requires forall px: nat, py: nat {:trigger frame.Get(px, py)} :: px < frame.width && py < frame.height ==>
      frame.Get(px, py) == Ok(Black)
    modifies frame.buffer
    ensures tiles == rcc * rcc
    ensures forall px: nat, py: nat {:trigger frame.Get(px, py)} :: px < frame.width && py < frame.height ==>
      frame.Get(px, py) == Ok(Final(px, py, rcc * cs, render))
  {
    var side := rcc * cs;
    tiles := 0;
    var xc, x0 := 0, 0;
    while xc < rcc
      invariant xc <= rcc && x0 == xc * cs
      invariant tiles == xc * rcc
      invariant forall px: nat, py: nat {:trigger frame.Get(px, py)} :: px < frame.width && py < frame.height ==>
        frame.Get(px, py) == Ok(if px < x0 && py < side then Shaded(render(px, py)) else Black)
    {
      assert (xc + 1) * cs == x0 + cs;
      MulMonotone(xc + 1, rcc, cs);
      var column := TraceTileColumn(frame, x0, x0 + cs, cs, rcc, render);
      tiles := tiles + column;
      assert xc * rcc + rcc == (xc + 1) * rcc;
      xc, x0 := xc + 1, x0 + cs;
    }
    assert x0 == side;
  }

  /** `ray_trace` with `RESOLUTION` and `CELLS` as parameters: a black
      `resolution x resolution` frame, then `ray_trace_cell` on each of the
      `rcc x rcc` tiles, counting the tiles done. A zero tile count divides
      by zero. Pixels past `rcc * cell_size` in either direction are not
      covered by any tile and stay black. */
  method RayTrace(resolution: nat, cells: nat, render: (nat, nat) -> Illumination)
    returns (r: Outcome<Frame>, cellsDone: nat)
    ensures r.Panicked? <==> RoundSqrt(cells) == 0
    ensures r.Panicked? ==> r.fault == DivideByZero
    ensures r.Ok? ==> fresh(r.value) && fresh(r.value.buffer) && r.value.Valid()
    ensures r.Ok? ==> r.value.width == resolution && r.value.height == resolution
    ensures r.Ok? ==> cellsDone == RoundSqrt(cells) * RoundSqrt(cells)
    ensures r.Ok? ==> forall px: nat, py: nat {:trigger r.value.Get(px, py)} :: px < resolution && py < resolution ==>
      r.value.Get(px, py) == Ok(Final(px, py, RoundSqrt(cells) * CellSize(resolution, cells).value, render))
  {
    var frame := new Frame(resolution, resolution);
    IndicesInBuffer(resolution, resolution);
    cellsDone := 0;
    var rcc := RoundSqrt(cells);
    if rcc == 0 {
      return Panicked(DivideByZero), cellsDone;
    }
    var cs := resolution / rcc;
    assert cs == CellSize(resolution, cells).value;
    cellsDone := TraceTiles(frame, rcc, cs, render);
    return Ok(frame), cellsDone;
  }
}
