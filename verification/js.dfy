/** Values of the JavaScript runtime that the modelled code receives. */
module Js {

  /** `undefined` (or a missing property) versus a present value. */
  datatype Option<+T> = None | Some(value: T)

  /**
   * The result of `Number(x)`: a finite real or NaN. A request body or a
   * database column that does not hold a number becomes NaN.
   */
  datatype Num = Real(x: real) | NaN
}
