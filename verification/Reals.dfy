/** Least and greatest of two real numbers, which stand for float64 values. */
module Reals {

  function MinReal(a: real, b: real): real { if a < b then a else b }

  function MaxReal(a: real, b: real): real { if a < b then b else a }
}
