/** The comparison operators of a HAVING predicate. */
module Comparisons {

  datatype Comparison = EQ | NE | LE | LT | GE | GT

  predicate Satisfies(op: Comparison, a: int, c: int) {
    match op
    case EQ => a == c
    case NE => a != c
    case LE => a <= c
    case LT => a < c
    case GE => a >= c
    case GT => a > c
  }
}
