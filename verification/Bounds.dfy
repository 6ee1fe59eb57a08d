/** The smaller and the larger of two numbers, as Python's min and max of two arguments. */
module Bounds {

  function Min(x: real, y: real): real {
    if y < x then y else x
  }

  function Max(x: real, y: real): real {
    if y > x then y else x
  }
}
