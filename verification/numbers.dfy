/** Numbers as the arithmetic evaluators produce them.

    JavaScript numbers are IEEE doubles; this model keeps exact rationals (`real`)
    and only the two non-finite outcomes the evaluators can reach:
    - `NaN`, what `parseInt("")` yields when a factor has no digits;
    - `NonFinite`, the quotient of an unguarded division by zero. Which IEEE
      value that would be (an infinity or NaN) and how it combines further is
      not tracked: it is absorbing.
 */
module Numbers {

  datatype Num = Real(r: real) | NaN | NonFinite

  /** The four binary operators of the evaluators' grammars. */
  datatype Op = Plus | Minus | Times | Over {

    /** The character that denotes the operator in the input text. */
    function Symbol(): char {
      match this
      case Plus => '+'
      case Minus => '-'
      case Times => '*'
      case Over => '/'
    }
  }

  /** `x op y` on two evaluator numbers. NaN absorbs everything (as in IEEE);
      otherwise a non-finite operand, or a zero divisor, gives `NonFinite`. */
  function Apply(op: Op, x: Num, y: Num): (z: Num)
    ensures x.NaN? || y.NaN? ==> z.NaN?
    ensures z.Real? <==> x.Real? && y.Real? && !(op == Over && y.r == 0.0)
    ensures z.NonFinite? ==> x.NonFinite? || y.NonFinite? || (op == Over && y == Real(0.0))
  {
    if x.NaN? || y.NaN? then NaN
    else if x.NonFinite? || y.NonFinite? then NonFinite
    else match op
      case Plus => Real(x.r + y.r)
      case Minus => Real(x.r - y.r)
      case Times => Real(x.r * y.r)
      case Over => if y.r == 0.0 then NonFinite else Real(x.r / y.r)
  }
}
