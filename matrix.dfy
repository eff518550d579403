/** 4x4 matrices stored as 16 entries in column-major order: entry
    (row, col) lives at `row + col * 4`. Entries are reals. */
module Matrices {

  const Size: nat := 4
  const BufferSize: nat := 16

  /** `Matrix::index_for`: column-major, so the slot of an entry of the
      4x4 grid is below 16 and gives back its row as the remainder and its
      column as the quotient by 4. */
  function IndexFor(row: nat, col: nat): (i: nat)
    ensures row < Size && col < Size ==> i < BufferSize && i % Size == row && i / Size == col
  {
    row + col * Size
  }

  /** `index_for` maps the 4x4 grid one-to-one onto 0..16: every entry has
      a slot, no two entries share one, and every slot belongs to an entry. */
  lemma IndexForBijective()
    ensures forall r, c :: 0 <= r < Size && 0 <= c < Size ==> IndexFor(r, c) < BufferSize
    ensures forall r1, c1, r2, c2 ::
      (0 <= r1 < Size && 0 <= c1 < Size && 0 <= r2 < Size && 0 <= c2 < Size &&
       IndexFor(r1, c1) == IndexFor(r2, c2)) ==> r1 == r2 && c1 == c2
    ensures forall i :: 0 <= i < BufferSize ==> i % Size < Size && i / Size < Size && IndexFor(i % Size, i / Size) == i
  {
  }

  /** Entry (row, col) of a 16-entry buffer. */
  function Entry(s: seq<real>, row: nat, col: nat): real
    requires |s| == BufferSize && row < Size && col < Size
  {
    s[IndexFor(row, col)]
  }

  /** The all-zero matrix, `Matrix::new()`. */
  function Zero(): (z: seq<real>)
    ensures |z| == BufferSize
  {
    seq(BufferSize, _ => 0.0)
  }

  /** The `IDENTITY` constant, in storage order. */
  function IdentityEntries(): (s: seq<real>)
    ensures |s| == BufferSize
    ensures forall r, c :: 0 <= r < Size && 0 <= c < Size ==> Entry(s, r, c) == if r == c then 1.0 else 0.0
  {
    [1.0, 0.0, 0.0, 0.0,
     0.0, 1.0, 0.0, 0.0,
     0.0, 0.0, 1.0, 0.0,
     0.0, 0.0, 0.0, 1.0]
  }

  /** The transpose of a matrix: entry (r, c) of the result is entry (c, r). */
  function Transposed(s: seq<real>): (t: seq<real>)
    requires |s| == BufferSize
    ensures |t| == BufferSize
    ensures forall r, c :: 0 <= r < Size && 0 <= c < Size ==> Entry(t, r, c) == Entry(s, c, r)
  {
    seq(BufferSize, i requires 0 <= i < BufferSize => s[IndexFor(i / Size, i % Size)])
  }

  /** Two matrices with the same entry at every (row, col) are equal. */
  lemma SameEntries(a: seq<real>, b: seq<real>)
    requires |a| == BufferSize && |b| == BufferSize
    requires forall r, c :: 0 <= r < Size && 0 <= c < Size ==> Entry(a, r, c) == Entry(b, r, c)
    ensures a == b
  {
    forall i | 0 <= i < BufferSize
      ensures a[i] == b[i]
    {
      assert i == IndexFor(i % Size, i / Size);
      assert Entry(a, i % Size, i / Size) == Entry(b, i % Size, i / Size);
    }
  }

  /** Transposing twice gives the original matrix back. */
  lemma TransposedTwice(s: seq<real>)
    requires |s| == BufferSize
    ensures Transposed(Transposed(s)) == s
  {
    var t := Transposed(Transposed(s));
    forall i | 0 <= i < BufferSize
      ensures t[i] == s[i]
    {
      assert i == IndexFor(i % Size, i / Size);
      assert Entry(t, i % Size, i / Size) == Entry(s, i % Size, i / Size);
    }
  }

  /** Transposition leaves the diagonal where it is. */
  lemma TransposedDiagonal(s: seq<real>, k: nat)
    requires |s| == BufferSize && k < Size
    ensures Entry(Transposed(s), k, k) == Entry(s, k, k)
  {
  }

  /** Entrywise sum. */
  function Sum(a: seq<real>, b: seq<real>): (s: seq<real>)
    requires |a| == BufferSize && |b| == BufferSize
    ensures |s| == BufferSize
  {
    seq(BufferSize, i requires 0 <= i < BufferSize => a[i] + b[i])
  }

  /** Entrywise difference. */
  function Difference(a: seq<real>, b: seq<real>): (s: seq<real>)
    requires |a| == BufferSize && |b| == BufferSize
    ensures |s| == BufferSize
  {
    seq(BufferSize, i requires 0 <= i < BufferSize => a[i] - b[i])
  }

  /** Every entry multiplied by one scalar. */
  function Scaled(a: seq<real>, k: real): (s: seq<real>)
    requires |a| == BufferSize
    ensures |s| == BufferSize
  {
    seq(BufferSize, i requires 0 <= i < BufferSize => a[i] * k)
  }

  /** Scaling by one changes nothing. */
  lemma ScaledOne(a: seq<real>)
    requires |a| == BufferSize
    ensures Scaled(a, 1.0) == a
  {
  }

  /** Scaling distributes over the entrywise sum. */
  lemma ScaledSum(a: seq<real>, b: seq<real>, k: real)
    requires |a| == BufferSize && |b| == BufferSize
    ensures Scaled(Sum(a, b), k) == Sum(Scaled(a, k), Scaled(b, k))
  {
    forall i | 0 <= i < BufferSize
      ensures Scaled(Sum(a, b), k)[i] == Sum(Scaled(a, k), Scaled(b, k))[i]
    {
      assert (a[i] + b[i]) * k == a[i] * k + b[i] * k;
    }
  }

  /** Subtracting undoes adding, entry by entry. */
  lemma SumDifference(a: seq<real>, b: seq<real>)
    requires |a| == BufferSize && |b| == BufferSize
    ensures Difference(Sum(a, b), b) == a
  {
  }

  /** The first `k` terms of the dot product of row `row` of `a` with
      column `col` of `b`, accumulated from n = 0 upwards. */
  function Dot(a: seq<real>, b: seq<real>, row: nat, col: nat, k: nat): real
    requires |a| == BufferSize && |b| == BufferSize && row < Size && col < Size && k <= Size
  {
    if k == 0 then 0.0
    else Dot(a, b, row, col, k - 1) + Entry(a, row, k - 1) * Entry(b, k - 1, col)
  }

  /** The matrix product: entry (r, c) is the sum over n of a(r, n) * b(n, c). */
  function Product(a: seq<real>, b: seq<real>): (p: seq<real>)
    requires |a| == BufferSize && |b| == BufferSize
    ensures |p| == BufferSize
  {
    seq(BufferSize, i requires 0 <= i < BufferSize => Dot(a, b, i % Size, i / Size, Size))
  }

  /** Entry (r, c) of the product is the sum over n of a(r, n) * b(n, c). */
  lemma ProductEntry(a: seq<real>, b: seq<real>, r: nat, c: nat)
    requires |a| == BufferSize && |b| == BufferSize && r < Size && c < Size
    ensures Entry(Product(a, b), r, c)
         == Entry(a, r, 0) * Entry(b, 0, c) + Entry(a, r, 1) * Entry(b, 1, c)
          + Entry(a, r, 2) * Entry(b, 2, c) + Entry(a, r, 3) * Entry(b, 3, c)
  {
    var i := IndexFor(r, c);
    assert i % Size == r && i / Size == c;
    assert Dot(a, b, r, c, 1) == Entry(a, r, 0) * Entry(b, 0, c);
    assert Dot(a, b, r, c, 2) == Dot(a, b, r, c, 1) + Entry(a, r, 1) * Entry(b, 1, c);
    assert Dot(a, b, r, c, 3) == Dot(a, b, r, c, 2) + Entry(a, r, 2) * Entry(b, 2, c);
  }

  /** The identity is a left unit of the product. */
  lemma ProductIdentityLeft(b: seq<real>)
    requires |b| == BufferSize
    ensures Product(IdentityEntries(), b) == b
  {
    var p := Product(IdentityEntries(), b);
    forall i | 0 <= i < BufferSize
      ensures p[i] == b[i]
    {
      assert i == IndexFor(i % Size, i / Size);
      ProductEntry(IdentityEntries(), b, i % Size, i / Size);
    }
  }

  /** The identity is a right unit of the product. */
  lemma ProductIdentityRight(a: seq<real>)
    requires |a| == BufferSize
    ensures Product(a, IdentityEntries()) == a
  {
    var p := Product(a, IdentityEntries());
    forall i | 0 <= i < BufferSize
      ensures p[i] == a[i]
    {
      assert i == IndexFor(i % Size, i / Size);
      ProductEntry(a, IdentityEntries(), i % Size, i / Size);
    }
  }

  /** One entry of a product, written out over storage positions. */
  lemma ProductAt(a: seq<real>, b: seq<real>, r: nat, c: nat, v: real)
    requires |a| == BufferSize && |b| == BufferSize && r < Size && c < Size
    requires v == a[r] * b[Size * c] + a[r + Size] * b[Size * c + 1]
                + a[r + 2 * Size] * b[Size * c + 2] + a[r + 3 * Size] * b[Size * c + 3]
    ensures Product(a, b)[r + Size * c] == v
  {
    ProductEntry(a, b, r, c);
  }

  /** A sequence of `BufferSize` entries is the display of its entries. */
  lemma Listed(s: seq<real>)
    requires |s| == BufferSize
    ensures s == [s[0], s[1], s[2], s[3], s[4], s[5], s[6], s[7],
                  s[8], s[9], s[10], s[11], s[12], s[13], s[14], s[15]]
  {
  }

  /** The product asserted by `test_mul`: the literal arrays are storage
      order, so each literal row is a column of the matrix. */
  lemma TestMul()
    ensures Product([5.0, 2.0, 8.0, 3.0,
                     7.0, 3.0, 10.0, 3.0,
                     9.0, 3.0, 2.0, 4.0,
                     10.0, 8.0, 3.0, 8.0],
                    [3.0, 12.0, 9.0, 3.0,
                     10.0, 1.0, 10.0, 12.0,
                     12.0, 4.0, 12.0, 4.0,
                     18.0, 9.0, 2.0, 10.0])
         == [210.0, 93.0, 171.0, 105.0,
             267.0, 149.0, 146.0, 169.0,
             236.0, 104.0, 172.0, 128.0,
             271.0, 149.0, 268.0, 169.0]
  {
    var a := [5.0, 2.0, 8.0, 3.0, 7.0, 3.0, 10.0, 3.0, 9.0, 3.0, 2.0, 4.0, 10.0, 8.0, 3.0, 8.0];
    var b := [3.0, 12.0, 9.0, 3.0, 10.0, 1.0, 10.0, 12.0, 12.0, 4.0, 12.0, 4.0, 18.0, 9.0, 2.0, 10.0];
    Listed(Product(a, b));
    ProductAt(a, b, 0, 0, 210.0);
    ProductAt(a, b, 1, 0, 93.0);
    ProductAt(a, b, 2, 0, 171.0);
    ProductAt(a, b, 3, 0, 105.0);
    ProductAt(a, b, 0, 1, 267.0);
    ProductAt(a, b, 1, 1, 149.0);
    ProductAt(a, b, 2, 1, 146.0);
    ProductAt(a, b, 3, 1, 169.0);
    ProductAt(a, b, 0, 2, 236.0);
    ProductAt(a, b, 1, 2, 104.0);
    ProductAt(a, b, 2, 2, 172.0);
    ProductAt(a, b, 3, 2, 128.0);
    ProductAt(a, b, 0, 3, 271.0);
    ProductAt(a, b, 1, 3, 149.0);
    ProductAt(a, b, 2, 3, 268.0);
    ProductAt(a, b, 3, 3, 169.0);
  }

  class Matrix {
    /** `contents`, column-major. */
    const contents: array<real>

    ghost predicate Valid()
      reads this
    {
      contents.Length == BufferSize
    }

    /** `Matrix::new`: the all-zero matrix. */
    constructor ()
      ensures Valid() && fresh(contents)
      ensures contents[..] == Zero()
    {
      contents := new real[BufferSize](_ => 0.0);
    }

    /** `Matrix::identity`: a copy of `IDENTITY`. */
    constructor Identity()
      ensures Valid() && fresh(contents)
      ensures contents[..] == IdentityEntries()
    {
      var a := new real[BufferSize](_ => 0.0);
      a[0], a[5], a[10], a[15] := 1.0, 1.0, 1.0, 1.0;
      contents := a;
    }

    /** `Matrix::get`. The source indexes the 16-entry array, so any
        (row, col) whose slot is below 16 is accepted: inside the 4x4 grid
        it reads entry (row, col); a row past 3 runs on into a later
        column, reading the entry whose slot `index_for` computes. */
    function Get(row: nat, col: nat): (r: real)
      reads this, contents
      requires Valid() && IndexFor(row, col) < BufferSize
      ensures row < Size && col < Size ==> r == Entry(contents[..], row, col)
      ensures r == Entry(contents[..], IndexFor(row, col) % Size, IndexFor(row, col) / Size)
    {
      contents[IndexFor(row, col)]
    }

    /** `Matrix::set`: overwrites one slot and nothing else. */
    method Set(row: nat, col: nat, val: real)
      requires Valid() && IndexFor(row, col) < BufferSize
      modifies contents
      ensures Get(row, col) == val
      ensures contents[..] == old(contents[..])[IndexFor(row, col) := val]
    {
      contents[IndexFor(row, col)] := val;
    }

    /** `Matrix::transpose`, in place: swaps (r, c) with (c, r) below the
        diagonal, row by row. */
    method Transpose()
      requires Valid()
      modifies contents
      ensures contents[..] == Transposed(old(contents[..]))
    {
      ghost var s := contents[..];
      for r := 0 to Size
        invariant forall x, y {:trigger contents[IndexFor(x, y)]} :: 0 <= x < Size && 0 <= y < Size ==>
          contents[IndexFor(x, y)] == if Swapped(x, y, r, 0) then s[IndexFor(y, x)] else s[IndexFor(x, y)]
      {
        for c := 0 to r
          invariant forall x, y {:trigger contents[IndexFor(x, y)]} :: 0 <= x < Size && 0 <= y < Size ==>
            contents[IndexFor(x, y)] == if Swapped(x, y, r, c) then s[IndexFor(y, x)] else s[IndexFor(x, y)]
        {
          var temp := Get(r, c);
          Set(r, c, Get(c, r));
          Set(c, r, temp);
        }
      }
      SameEntries(contents[..], Transposed(s));
    }

    /** Whether entry (x, y) has been swapped once the outer loop is at row
        `r` and the inner loop at column `c`. */
    static ghost predicate Swapped(x: nat, y: nat, r: nat, c: nat)
    {
      (x != y && x < r && y < r) || (x == r && y < c) || (y == r && x < c)
    }

    /** `Matrix::transposition`: a transposed copy; `this` is left as is. */
    method Transposition() returns (m: Matrix)
      requires Valid()
      ensures fresh(m.contents) && m.Valid()
      ensures m.contents[..] == Transposed(contents[..])
    {
      m := Copy();
      m.Transpose();
    }

    /** `self.clone()`. */
    method Copy() returns (m: Matrix)
      requires Valid()
      ensures fresh(m.contents) && m.Valid()
      ensures m.contents[..] == contents[..]
    {
      m := new Matrix();
      forall i | 0 <= i < BufferSize {
        m.contents[i] := contents[i];
      }
    }

    /** `&a + &b`: a fresh matrix holding the entrywise sum. */
    method Add(other: Matrix) returns (m: Matrix)
      requires Valid() && other.Valid()
      ensures fresh(m.contents) && m.Valid()
      ensures m.contents[..] == Sum(contents[..], other.contents[..])
    {
      m := new Matrix();
      for i := 0 to BufferSize
        invariant forall j :: 0 <= j < BufferSize ==>
          m.contents[j] == if j < i then contents[j] + other.contents[j] else 0.0
      {
        m.contents[i] := contents[i] + other.contents[i];
      }
    }

    /** `&a - &b`: a fresh matrix holding the entrywise difference. */
    method Sub(other: Matrix) returns (m: Matrix)
      requires Valid() && other.Valid()
      ensures fresh(m.contents) && m.Valid()
      ensures m.contents[..] == Difference(contents[..], other.contents[..])
    {
      m := new Matrix();
      for i := 0 to BufferSize
        invariant forall j :: 0 <= j < BufferSize ==>
          m.contents[j] == if j < i then contents[j] - other.contents[j] else 0.0
      {
        m.contents[i] := contents[i] - other.contents[i];
      }
    }

    /** `&a * k` for a scalar `k`. */
    method MulScalar(k: real) returns (m: Matrix)
      requires Valid()
      ensures fresh(m.contents) && m.Valid()
      ensures m.contents[..] == Scaled(contents[..], k)
    {
      m := new Matrix();
      for i := 0 to BufferSize
        invariant forall j :: 0 <= j < BufferSize ==>
          m.contents[j] == if j < i then contents[j] * k else 0.0
      {
        m.contents[i] := contents[i] * k;
      }
      assert forall j :: 0 <= j < BufferSize ==> m.contents[..][j] == Scaled(contents[..], k)[j];
    }

    /** `&a * &b`: the triple loop with a running accumulator per entry. */
    method Mul(other: Matrix) returns (m: Matrix)
      requires Valid() && other.Valid()
      ensures fresh(m.contents) && m.Valid()
      ensures m.contents[..] == Product(contents[..], other.contents[..])
    {
      ghost var a, b := contents[..], other.contents[..];
      m := new Matrix();
      for r := 0 to Size
        invariant forall i :: 0 <= i < BufferSize ==>
          m.contents[i] == if i % Size < r then Dot(a, b, i % Size, i / Size, Size) else 0.0
      {
        for c := 0 to Size
          invariant forall i :: 0 <= i < BufferSize ==>
            m.contents[i] == if i % Size < r || (i % Size == r && i / Size < c)
                             then Dot(a, b, i % Size, i / Size, Size) else 0.0
        {
          var val := 0.0;
          for n := 0 to Size
            invariant val == Dot(a, b, r, c, n)
          {
            val := val + Get(r, n) * other.Get(n, c);
          }
          m.Set(r, c, val);
        }
      }
    }
  }
}
