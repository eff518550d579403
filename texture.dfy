/** Textures: a colour as a function of a (u, v) surface coordinate. The
    checkerboard alternates two colours cell by cell; the solid texture
    returns its one colour everywhere. */
module Textures {
  import opened Common

  const U32Max: nat := 0xFFFF_FFFF

  /** Rust's `x as u32` for a float: truncation toward zero, saturating at
      0 below and at `u32::MAX` above. */
  function CellIndex(x: real): (n: nat)
    ensures n <= U32Max
    ensures 0.0 <= x < U32Max as real ==> n as real <= x < n as real + 1.0
    ensures x < 1.0 ==> n == 0
    ensures U32Max as real <= x ==> n == U32Max
  {
    if x < 0.0 then 0
    else if x >= U32Max as real then U32Max
    else x.Floor
  }

  /** The cell index of coordinate `x` on a board of `cols` columns. */
  function Cell(x: real, cols: nat): nat
  {
    CellIndex(x * cols as real)
  }

  /** `TextureCheckered`. `rows` is stored but never read. */
  datatype Checkered = Checkered(rows: nat, cols: nat, color1: Color, color2: Color)

  /** `TextureCheckered::new`: an 8 x 8 grid of white and black. */
  function NewCheckered(): (t: Checkered)
    ensures t.rows == 8 && t.cols == 8
    ensures t.color1 == White && t.color2 == Black
  {
    Checkered(8, 8, White, Black)
  }

  /** `TextureCheckered::from_colors`: an 8 x 8 grid of the two colours,
      in the order given. */
  function FromColors(color1: Color, color2: Color): (t: Checkered)
    ensures t.rows == 8 && t.cols == 8
    ensures t.color1 == color1 && t.color2 == color2
  {
    Checkered(8, 8, color1, color2)
  }

  /** `color_at`: both coordinates are scaled by `cols` and truncated to a
      cell index; equal parities give `color1`, different ones `color2`. */
  function CheckeredColorAt(t: Checkered, u: real, v: real): (c: Color)
    ensures c == t.color1 || c == t.color2
    ensures t.color1 != t.color2 ==>
      (c == t.color1 <==> (Cell(u, t.cols) + Cell(v, t.cols)) % 2 == 0)
  {
    var scaledU := Cell(u, t.cols);
    var uIsBase := scaledU % 2 == 0;
    var scaledV := Cell(v, t.cols);
    var vIsBase := scaledV % 2 == 0;
    if uIsBase == vIsBase then t.color1 else t.color2
  }

  /** Both axes are scaled by `cols`, so swapping u and v changes nothing. */
  lemma CheckeredSymmetric(t: Checkered, u: real, v: real)
    ensures CheckeredColorAt(t, u, v) == CheckeredColorAt(t, v, u)
  {
  }

  /** The number of rows has no effect on the colour: boards that agree
      on `cols` and on both colours agree everywhere. */
  lemma CheckeredIgnoresRows(s: Checkered, t: Checkered, u: real, v: real)
    requires s.cols == t.cols && s.color1 == t.color1 && s.color2 == t.color2
    ensures CheckeredColorAt(s, u, v) == CheckeredColorAt(t, u, v)
  {
  }

  /** Stepping one cell along u (the cell index grows by one) swaps the
      two colours; by symmetry the same holds along v. */
  lemma CheckeredNeighbourFlips(t: Checkered, u: real, u': real, v: real)
    requires Cell(u', t.cols) == Cell(u, t.cols) + 1
    ensures CheckeredColorAt(t, u', v) == if CheckeredColorAt(t, u, v) == t.color1 then t.color2 else t.color1
  {
  }

  /** The sample points of the texture's unit test on the default 8 x 8
      board: (0.01, 0.01) and (0.4, 0.4) are white, (0.4, 0.01) and
      (0.01, 0.4) are black. The test itself expects grey (0.5, 0.5, 0.5)
      at the last two, a colour this board does not contain. */
  lemma CheckeredTestPoints()
    ensures CheckeredColorAt(NewCheckered(), 0.01, 0.01) == White
    ensures CheckeredColorAt(NewCheckered(), 0.4, 0.4) == White
    ensures CheckeredColorAt(NewCheckered(), 0.4, 0.01) == Black
    ensures CheckeredColorAt(NewCheckered(), 0.01, 0.4) == Black
  {
    assert Cell(0.01, 8) == 0;
    assert Cell(0.4, 8) == 3;
  }

  /** The texture variants: a constant colour (`Texture::Solid`,
      `TextureSolid`, `TextureBlank`) or a checkerboard. */
  datatype Texture = Solid(color: Color) | Checkerboard(board: Checkered)

  function ColorAt(tex: Texture, u: real, v: real): (c: Color)
    ensures tex.Solid? ==> c == tex.color
    ensures tex.Checkerboard? ==> c == tex.board.color1 || c == tex.board.color2
  {
    match tex
    case Solid(color) => color
    case Checkerboard(board) => CheckeredColorAt(board, u, v)
  }
}
