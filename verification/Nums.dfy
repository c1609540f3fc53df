/** Floating-point values as the model sees them: exact reals, and the missing value. */
module Nums {
  datatype Num = NaN | R(val: real)
}
