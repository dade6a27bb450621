/** The arithmetic library the calculation entities delegate to. Its source is
    not part of this model; each operation is taken to be the exact real-number
    operation it is named after. */
module Operation {

  function Addition(a: real, b: real): real {
    a + b
  }

  function Subtraction(a: real, b: real): real {
    a - b
  }

  function Multiplication(a: real, b: real): real {
    a * b
  }

  /** Division is undefined for a zero divisor; callers guard it. */
  function Division(a: real, b: real): real
    requires b != 0.0
  {
    a / b
  }
}
