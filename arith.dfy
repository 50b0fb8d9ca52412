/** Go's integer division, which truncates toward zero, and the decimal digits `strconv.Itoa` writes. */
module GoArith {

  /** `a / b` on Go integers (and on `int(float)` of a quotient): rounds toward zero. */
  function TruncDiv(a: int, b: int): (q: int)
    requires b > 0
    ensures a >= 0 ==> 0 <= a - b * q < b
    ensures a < 0 ==> -b < a - b * q <= 0
  {
    if a >= 0 then a / b else -((-a) / b)
  }

  /** A byte of a Go string. */
  type Byte = b: int | 0 <= b < 256

  /** A decimal digit, as `rand.Intn(10)` or a clock reading modulo 10 yields it. */
  type Digit = d: int | 0 <= d <= 9

  function DigitChar(d: Digit): char {
    ['0', '1', '2', '3', '4', '5', '6', '7', '8', '9'][d]
  }

  predicate IsDigitChar(c: char) {
    '0' <= c <= '9'
  }

  function CharValue(c: char): int {
    c as int - '0' as int
  }

  /** The decimal digit of each draw, which `strconv.Itoa` renders as one character. */
  lemma DigitCharValue(d: Digit)
    ensures IsDigitChar(DigitChar(d)) && CharValue(DigitChar(d)) == d
  {
  }
}
