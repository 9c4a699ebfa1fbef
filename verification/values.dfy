/**
 Python values as the request handlers see them after reading the JSON body.
 */
module Values {

  /** A value that may be absent, or an operation that may raise. */
  datatype Option<+T> = None | Some(value: T)

  /**
   A Python float as `float()` produced it. A finite value is the exact value
   of that binary64 double, after the rounding `float()` already did: "0.1"
   is the double nearest one tenth, and "1e-400" underflows to zero. Only
   such values occur as inputs. The two infinities and NaN are kept because
   `float()` accepts "inf" and "nan" and they behave differently under the
   handlers' tests.
   */
  datatype Double = Finite(value: real) | Infinity(negative: bool) | NaN {

    /** Python truthiness: only zero (of either sign) is falsy. */
    predicate Truthy() {
      !(Finite? && value == 0.0)
    }

    /** `x <= 0`: false for NaN, true only for the negative infinity among the infinities. */
    predicate AtMostZero() {
      match this
      case Finite(v) => v <= 0.0
      case Infinity(negative) => negative
      case NaN => false
    }

    /** `x > 0`. */
    predicate Positive() {
      match this
      case Finite(v) => v > 0.0
      case Infinity(negative) => !negative
      case NaN => false
    }
  }

  /** The truthiness of an optional string read from a JSON body: absent and empty are falsy. */
  predicate Present(s: Option<string>) {
    s.Some? && |s.value| > 0
  }
}
