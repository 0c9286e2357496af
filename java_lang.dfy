/**
 * Java values and arithmetic the rest of the model needs: 32- and 64-bit
 * integers with Java's wrap-around and truncating division, object
 * references, the exceptions the core throws or classifies, and the outcome
 * of a call that either returns a value or throws.
 */
module JavaLang {

  const TWO_32: int := 0x1_0000_0000
  const TWO_31: int := 0x8000_0000

  /** Java `int`. */
  newtype int32 = x: int | -0x8000_0000 <= x < 0x8000_0000

  /** Java `long`. */
  newtype int64 = x: int | -0x8000_0000_0000_0000 <= x < 0x8000_0000_0000_0000

  /** The Java `int` that an exact integer result wraps to (two's complement). */
  function Wrap32(x: int): (r: int32)
    ensures (r as int - x) % TWO_32 == 0
    ensures -TWO_31 <= x < TWO_31 ==> r as int == x
  {
    var m := x % TWO_32;
    if m >= TWO_31 then (m - TWO_32) as int32 else m as int32
  }

  /** Java's `/` on integers: the quotient truncated toward zero. */
  function JavaDiv(a: int, b: int): int
    requires b != 0
  {
    if a >= 0 && b > 0 then a / b
    else if a < 0 && b < 0 then (-a) / (-b)
    else if a < 0 then -((-a) / b)
    else -(a / (-b))
  }

  datatype Option<+T> = None | Some(value: T)

  /** The exceptions the modelled code throws, rethrows or classifies. */
  datatype Throwable =
    | NullPointerException
    | ClassCastException
    | IllegalArgumentException
    | IllegalStateException
    | SQLException(message: string)
    | SQLTransientConnectionException(message: string)

  /** A Java call either returns a value or throws. */
  datatype Outcome<+T> = Returned(value: T) | Threw(cause: Throwable)

  /** A Java object reference, with the hash `System.identityHashCode` gives it. */
  datatype ObjRef = ObjRef(id: nat, identityHash: int32)

  /** A Java value passed as a reflective argument or returned by a call. */
  datatype Value =
    | Null
    | Obj(ref: ObjRef)
    | ClassValue(name: string)
    | Bool(b: bool)
    | Int(i: int)
    | Str(s: string)
}
