/** Values shared by every part of the renderer: colours, illumination
    samples, and the Option / Outcome wrappers used for the source's
    `Option` values and for its panics. */
module Common {

  datatype Option<T> = None | Some(value: T)

  /** Why a Rust `panic!` fired: a slice index past the end, an `unwrap`
      of `None`, an unsigned subtraction below zero, or an integer division
      by zero. */
  datatype Fault = IndexOutOfBounds | UnwrapNone | SubtractOverflow | DivideByZero

  /** The result of code that either returns a value or panics. */
  datatype Outcome<T> = Ok(value: T) | Panicked(fault: Fault) {
    predicate IsFailure() {
      Panicked?
    }

    function PropagateFailure<U>(): Outcome<U>
      requires Panicked?
    {
      Panicked(fault)
    }

    function Extract(): T
      requires Ok?
    {
      value
    }
  }

  /** An RGB colour; the channels are unclamped reals. */
  datatype Color = Color(r: real, g: real, b: real)

  const Black := Color(0.0, 0.0, 0.0)
  const White := Color(1.0, 1.0, 1.0)

  /** A colour scaled channel by channel (`Color * f32`). */
  function Scale(c: Color, s: real): (r: Color)
    ensures s == 1.0 ==> r == c
    ensures s == 0.0 ==> r == Black
  {
    Color(c.r * s, c.g * s, c.b * s)
  }

  /** A light sample: a colour and a separate scalar intensity. */
  datatype Illumination = Illumination(color: Color, intensity: real)

  /** Zero colour, zero intensity. */
  const Background := Illumination(Black, 0.0)

  datatype Vec3 = Vec3(x: real, y: real, z: real)
}
