/** The frame buffer: a flat, row-major buffer of colours with one cell
    per pixel. `width` plays the part of `RESOLUTION_X`. */
module Frames {
  import opened Common

  /** `Frame::index`: the flat position of pixel (x, y). Row-major: a
      pixel of row y whose column is inside the row lies in that row's
      band of `width` cells. */
  function Index(x: nat, y: nat, width: nat): (i: nat)
    ensures x < width ==> y * width <= i < y * width + width
  {
    x + y * width
  }

  /** `Frame::pos_from_index`: the pixel stored at flat position `i`. */
  function PosFromIndex(i: nat, width: nat): (p: (nat, nat))
    requires width > 0
    ensures p.0 < width
    ensures Index(p.0, p.1, width) == i
  {
    (i % width, i / width)
  }

  /** Products of naturals grow with their second factor. */
  lemma MulMonotone(a: nat, b: nat, w: nat)
    requires a <= b
    ensures a * w <= b * w
  {
  }

  /** Distinct pixels of a row shorter than `width` have distinct indices. */
  lemma IndexInjective(x1: nat, y1: nat, x2: nat, y2: nat, width: nat)
    requires x1 < width && x2 < width
    requires Index(x1, y1, width) == Index(x2, y2, width)
    ensures x1 == x2 && y1 == y2
  {
    if y1 < y2 {
      MulMonotone(y1 + 1, y2, width);
      assert false;
    } else if y2 < y1 {
      MulMonotone(y2 + 1, y1, width);
      assert false;
    }
  }

  /** `pos_from_index` undoes `index` on every pixel with `x < width`. */
  lemma PosFromIndexOfIndex(x: nat, y: nat, width: nat)
    requires x < width
    ensures PosFromIndex(Index(x, y, width), width) == (x, y)
  {
    var p := PosFromIndex(Index(x, y, width), width);
    IndexInjective(p.0, p.1, x, y, width);
  }

  /** A pixel inside a `width` x `height` image has an index inside a
      buffer of `width * height` cells. */
  lemma IndexInBuffer(x: nat, y: nat, width: nat, height: nat)
    requires x < width && y < height
    ensures Index(x, y, width) < width * height
  {
    MulMonotone(y + 1, height, width);
  }

  /** Every pixel of a `width` x `height` image has an index inside a
      buffer of `width * height` cells. */
  lemma IndicesInBuffer(width: nat, height: nat)
    ensures forall x: nat, y: nat :: x < width && y < height ==> Index(x, y, width) < width * height
  {
    forall x: nat, y: nat | x < width && y < height
      ensures Index(x, y, width) < width * height
    {
      IndexInBuffer(x, y, width, height);
    }
  }

  class Frame {
    /** RESOLUTION_X, the length of one row. */
    const width: nat
    /** RESOLUTION_Y, the number of rows. */
    const height: nat
    /** One cell per pixel, row-major. */
    const buffer: array<Color>

    ghost predicate Valid()
      reads this
    {
      buffer.Length == width * height
    }

    /** `Frame::new`: every cell of a `width * height` buffer is black. */
    constructor (width: nat, height: nat)
      ensures Valid() && fresh(buffer)
      ensures this.width == width && this.height == height
      ensures buffer.Length == width * height
      ensures forall i :: 0 <= i < buffer.Length ==> buffer[i] == Black
    {
      this.width := width;
      this.height := height;
      buffer := new Color[width * height](_ => Black);
    }

    /** `Frame::get`: the colour of pixel (x, y), or a panic when its
        index is past the end of the buffer. */
    function Get(x: nat, y: nat): (r: Outcome<Color>)
      reads this, buffer
      ensures r.Ok? <==> Index(x, y, width) < buffer.Length
    {
      if Index(x, y, width) < buffer.Length then Ok(buffer[Index(x, y, width)]) else Panicked(IndexOutOfBounds)
    }

    /** `Frame::set`: overwrites the one cell of pixel (x, y); the source
        panics when its index is past the end of the buffer. */
    method Set(x: nat, y: nat, c: Color)
      requires Index(x, y, width) < buffer.Length
      modifies buffer
      ensures Get(x, y) == Ok(c)
      ensures forall i :: 0 <= i < buffer.Length && i != Index(x, y, width) ==> buffer[i] == old(buffer[i])
      ensures forall x': nat, y': nat {:trigger Get(x', y')} ::
        x < width && x' < width && (x', y') != (x, y) ==> Get(x', y') == old(Get(x', y'))
    {
      buffer[Index(x, y, width)] := c;
      forall x': nat, y': nat | x < width && x' < width && (x', y') != (x, y)
        ensures Index(x', y', width) != Index(x, y, width)
      {
        if Index(x', y', width) == Index(x, y, width) {
          IndexInjective(x', y', x, y, width);
        }
      }
    }
  }
}
