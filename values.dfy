/** The values a pandas table cell hands to the report generators, and the
    two ways the generators turn such a value into something else: Python's
    `str()` and Python's `int()` on a number. */
module Values {
  import opened Text

  datatype Option<+T> = None | Some(value: T)

  datatype Result<+T> = Ok(value: T) | Err(error: string)

  /** A cell value. `Float` carries the exact real the float stands for and
      the text Python's `str()` prints for it (its shortest round-trip
      decimal, which this model does not compute). `NaN` is pandas' missing
      value; in Python it is a float too. */
  datatype Value = Str(s: string) | Int(i: int) | Float(x: real, shown: string) | NaN

  /** `isinstance(v, (int, float))` */
  predicate IsNumber(v: Value) {
    v.Int? || v.Float? || v.NaN?
  }

  /** Python's `int(x)` on a real: truncation toward zero (not Dafny's floor). */
  function TruncReal(x: real): (r: int)
    ensures 0.0 <= x ==> r as real <= x < r as real + 1.0
    ensures x < 0.0 ==> r as real - 1.0 < x <= r as real
  {
    if x >= 0.0 then x.Floor else -((-x).Floor)
  }

  /** Python's `int(v)` on a number; `int(nan)` raises ValueError. */
  function IntOf(v: Value): (r: Result<int>)
    requires IsNumber(v)
    ensures r.Err? <==> v.NaN?
    ensures v.Int? ==> r == Ok(v.i)
  {
    match v
    case Int(i) => Ok(i)
    case Float(x, _) => Ok(TruncReal(x))
    case NaN => Err("cannot convert float NaN to integer")
  }

  /** Python's `str(v)`. */
  function StrOf(v: Value): string {
    match v
    case Str(s) => s
    case Int(i) => DecimalString(i)
    case Float(_, shown) => shown
    case NaN => "nan"
  }
}
