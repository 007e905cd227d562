/** Sixteen-bit unsigned arithmetic as performed by `unsigned int` on the MSP430,
    where `int` is 16 bits wide. Every operation wraps modulo 2^16. */
module Uint16 {

  const MODULUS: int := 0x1_0000
  const MAX: int := 0xFFFF

  /** The values of an MSP430 `unsigned int`; also the values of the timer register TA0R. */
  type U16 = x: int | 0 <= x < 0x1_0000

  /** `a - b` on unsigned ints: the true difference, lifted by 2^16 when it is negative. */
  function Sub(a: U16, b: U16): (r: U16)
    ensures a >= b ==> r == a - b
    ensures a < b ==> r == a - b + MODULUS
  {
    (a - b) % MODULUS
  }

  /** `a + b` on unsigned ints: the true sum, lowered by 2^16 when it does not fit. */
  function Add(a: U16, b: U16): (r: U16)
    ensures a + b <= MAX ==> r == a + b
    ensures a + b > MAX ==> r == a + b - MODULUS
  {
    (a + b) % MODULUS
  }

  /** The value stored back by `x--`: zero wraps to 0xFFFF. */
  function Dec(x: U16): (r: U16)
    ensures x == 0 ==> r == MAX
    ensures x > 0 ==> r == x - 1
  {
    Sub(x, 1)
  }

  /** Adding back what `Sub` took away recovers the minuend. */
  lemma SubAddInverse(a: U16, b: U16)
    ensures Add(b, Sub(a, b)) == a
  {
  }
}
