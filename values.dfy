/** The Python values that flow through the connector, and the errors its
    operations raise. */
module Values {

  datatype Option<T> = None | Some(value: T)

  /** A computation that either returns a value or raises one of the errors below. */
  datatype Result<T> = Ok(value: T) | Err(error: Error)

  /** A Python float, kept as its IEEE 754 binary64 bit pattern. The model never
      computes with it: every conversion to or from a float is a parameter
      (see `Floats`). */
  datatype Float = Float(bits: bv64)

  /** What a record field can hold: a `str`, an `int`, a `float` or `None`. */
  datatype Value = Str(s: string) | Int(i: int) | Num(f: Float) | Null

  /** The target types that appear in the cast tables: Python's `int` and `float`. */
  datatype PyType = IntType | FloatType

  /** `isinstance(v, t)`. */
  predicate HasType(v: Value, t: PyType)
  {
    match t
    case IntType => v.Int?
    case FloatType => v.Num?
  }

  datatype Error =
    | CastError(value: Value, target: PyType)        // `int(v)` or `float(v)` raised
    | DateFormatError(value: Value, format: string)  // `pendulum.from_format(v, format)` raised
    | MissingConfig(key: string)                     // `None + ":"` raised on a missing setting

  /** Python's own float conversions, which the model takes as given:
      `parse` is `float(s)` on a string, `fromInt` is `float(i)` (it raises
      OverflowError on huge integers), `toInt` is `int(f)` (it truncates toward
      zero and raises on NaN and the infinities). `None` stands for "raised". */
  datatype Floats = Floats(
    parse: string -> Option<Float>,
    fromInt: int -> Option<Float>,
    toInt: Float -> Option<int>)
}
