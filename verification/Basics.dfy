/**
 What several modules share: optional values, division and white space as C
 has them, and a law of multiplication.
 */
module Basics {

  datatype Option<+T> = None | Some(value: T)

  /** C division: it truncates towards zero. */
  function Quotient(a: int, b: int): int
    requires b > 0
  {
    if a >= 0 then a / b else -((-a) / b)
  }

  /** isspace */
  predicate IsSpace(c: char) {
    c == ' ' || c == '\t' || c == '\n' || c == '\U{0B}' || c == '\U{0C}' || c == '\r'
  }

  lemma {:induction false} MulMono(x: int, y: int, d: int)
    requires x <= y && 0 <= d
    ensures x * d <= y * d
  {
    assert (y - x) * d >= 0;
  }
}
