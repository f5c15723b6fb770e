/** Numeric inputs as the engine receives them: a missing value, a NaN, or a number. */
module Readings {

  /** `None`, a floating-point NaN, or a real number. */
  datatype Reading = Absent | NaN | Number(value: real)

  /** `d` is present exactly when `c` is, and is at least as large. */
  predicate Raised(c: Reading, d: Reading) {
    c.Number? == d.Number? && (c.Number? ==> c.value <= d.value)
  }

  /** `d` is present exactly when `c` is, and is at most as large. */
  predicate Lowered(c: Reading, d: Reading) {
    c.Number? == d.Number? && (c.Number? ==> d.value <= c.value)
  }
}
