/**
 * The dynamically typed Python values that the validators, the converters
 * and `AppException.throw` accept and inspect with `isinstance`.
 */
module Values {

  /**
   * A Python object, as far as the modelled code can tell objects apart.
   * Floats are finite and exact (no rounding, NaN or infinity). Every other
   * type is `OtherValue`, named by its type, and stands for an object that
   * `decimal.Decimal` rejects (a dict, a set, a tuple that is not a
   * `(sign, digits, exponent)` triple). `Decimal` instances and such
   * triples have no constructor here.
   */
  datatype Value =
    | NoneValue
    | BoolValue(b: bool)
    | IntValue(i: int)
    | FloatValue(f: real)
    | ComplexValue(re: real, im: real)
    | StrValue(s: string)
    | OtherValue(typeName: string)
  {
    /**
     * `isinstance(v, numbers.Integral)`: true for `int` and for `bool`,
     * which is a subclass of `int` in Python.
     */
    predicate IsIntegral()
    {
      IntValue? || BoolValue?
    }

    /** The integer an integral value stands for (`True` is 1, `False` is 0). */
    function AsInt(): int
      requires IsIntegral()
    {
      match this
      case IntValue(i) => i
      case BoolValue(b) => if b then 1 else 0
    }
  }
}
