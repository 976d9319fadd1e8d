/** Concrete evaluations by the `+ - * /` evaluator: the expected values of its
    unit tests (ArithmeticParser/test/main.ts), then its edge cases. Each is
    proved by writing the expression as a syntax tree, checking that the tree
    prints as the text, and applying the round trip `Arithmetic.ParseShow`. */
module ArithmeticExamples {
  import opened Numbers
  import opened Scanner
  import opened Syntax
  import opened Arithmetic

  /** Parsing the bare text of a tree yields the tree's value. */
  lemma ParseOfShow(e: Sum)
    ensures Parse(Show(e)) == SumValue(e)
  {
    assert Show(e) + "" == Show(e);
    ParseShow(e, "");
  }

  /** A test's expected value follows from a tree that prints as the test's
      text and has the expected value. */
  lemma Evaluates(e: Sum, text: string, v: Num)
    requires Show(e) == text && SumValue(e) == v
    ensures Parse(text) == v
  {
    ParseOfShow(e);
  }

  /** "0+1+2+3" = 6: left to right addition */
  lemma AddChain()
    ensures Parse("0+1+2+3") == Real(6.0)
  {
    var e := Sum(Sum(Lone(Single(Plain("0"))), Add, Single(Plain("1"))), Add, Single(Plain("2")));
    assert Show(e) == "0+1+2" && SumValue(e) == Real(3.0);
    Evaluates(Sum(e, Add, Single(Plain("3"))), "0+1+2+3", Real(6.0));
  }

  /** "3-2-1-0" = 0: subtraction associates to the left */
  lemma SubChain()
    ensures Parse("3-2-1-0") == Real(0.0)
  {
    var e := Sum(Sum(Lone(Single(Plain("3"))), Sub, Single(Plain("2"))), Sub, Single(Plain("1")));
    assert Show(e) == "3-2-1" && SumValue(e) == Real(0.0);
    Evaluates(Sum(e, Sub, Single(Plain("0"))), "3-2-1-0", Real(0.0));
  }

  /** "1+3-5" = -1 */
  lemma AddSub()
    ensures Parse("1+3-5") == Real(-1.0)
  {
    Evaluates(Sum(Sum(Lone(Single(Plain("1"))), Add, Single(Plain("3"))), Sub, Single(Plain("5"))), "1+3-5", Real(-1.0));
  }

  /** "1-3-0" = -2 */
  lemma SubSub()
    ensures Parse("1-3-0") == Real(-2.0)
  {
    Evaluates(Sum(Sum(Lone(Single(Plain("1"))), Sub, Single(Plain("3"))), Sub, Single(Plain("0"))), "1-3-0", Real(-2.0));
  }

  /** "2*4*8" = 64 */
  lemma MulChain()
    ensures Parse("2*4*8") == Real(64.0)
  {
    Evaluates(Lone(Product(Product(Single(Plain("2")), Mul, Plain("4")), Mul, Plain("8"))), "2*4*8", Real(64.0));
  }

  /** "1+2*3" = 7: `*` binds tighter than `+` */
  lemma MulBeforeAdd()
    ensures Parse("1+2*3") == Real(7.0)
  {
    Evaluates(Sum(Lone(Single(Plain("1"))), Add, Product(Single(Plain("2")), Mul, Plain("3"))), "1+2*3", Real(7.0));
  }

  /** "2*4/8" = 1 */
  lemma MulDiv()
    ensures Parse("2*4/8") == Real(1.0)
  {
    Evaluates(Lone(Product(Product(Single(Plain("2")), Mul, Plain("4")), Div, Plain("8"))), "2*4/8", Real(1.0));
  }

  /** "2-4/8" = 1.5: `/` binds tighter than `-`; the quotient is exact */
  lemma DivBeforeSub()
    ensures Parse("2-4/8") == Real(1.5)
  {
    Evaluates(Sum(Lone(Single(Plain("2"))), Sub, Product(Single(Plain("4")), Div, Plain("8"))), "2-4/8", Real(1.5));
  }

  /** The same, when the tree's text is followed by input that cannot
      continue an expression. */
  lemma EvaluatesBefore(e: Sum, rest: string, text: string, v: Num)
    requires Show(e) + rest == text && SumValue(e) == v
    requires AtNoAddOp(rest, 0) && AtNoMulOp(rest, 0) && Detached(LastOfSum(e), false, rest, 0)
    ensures Parse(text) == v
  {
    ParseShow(e, rest);
  }

  lemma NestedValue()
    ensures SumValue(NestedTree()) == Real(-4.0)
  {
    var inner := Paren(Sum(Lone(Single(Plain("6"))), Sub, Single(Plain("8"))));
    assert AtomValue(inner) == Real(-2.0);
  }

  /** "2*(4/(6-8))" = -4: parentheses override precedence. */
  lemma Nested()
    ensures Parse("2*(4/(6-8))") == Real(-4.0)
  {
    NestedText();
    NestedValue();
    Evaluates(NestedTree(), "2*(4/(6-8))", Real(-4.0));
  }

  /** "1/0" divides by zero unguarded: the result is not a finite number. */
  lemma UnguardedDivision()
    ensures Parse("1/0") == NonFinite
  {
    Evaluates(Lone(Product(Single(Plain("1")), Div, Plain("0"))), "1/0", NonFinite);
  }

  /** "1+2 *3" = 3: a space ends the expression, and the rest is ignored. */
  lemma SpaceEndsInput()
    ensures Parse("1+2 *3") == Real(3.0)
  {
    EvaluatesBefore(Sum(Lone(Single(Plain("1"))), Add, Single(Plain("2"))), " *3", "1+2 *3", Real(3.0));
  }

  /** "1)+2" = 1: an unmatched `)` ends the expression. */
  lemma UnmatchedParen()
    ensures Parse("1)+2") == Real(1.0)
  {
    EvaluatesBefore(Lone(Single(Plain("1"))), ")+2", "1)+2", Real(1.0));
  }

  /** "(1)2" = 1: `factor` stops after `)`, and a digit cannot continue a
      term or an expression. */
  lemma GroupThenDigit()
    ensures Parse("(1)2") == Real(1.0)
  {
    var e := Lone(Single(Paren(Lone(Single(Plain("1"))))));
    assert Show(e) == "(1)";
    EvaluatesBefore(e, "2", "(1)2", Real(1.0));
  }

  /** "(1+2" = 3: the missing `)` is tolerated. */
  lemma MissingParen()
    ensures Parse("(1+2") == Real(3.0)
  {
    var e := Sum(Lone(Single(Plain("1"))), Add, Single(Plain("2")));
    assert Show(e) == "1+2";
    assert "(" + Show(e) == "(1+2";
    assert SumValue(e) == Real(3.0);
    UnclosedGroup(e);
  }

  /** "-1" is NaN: there is no unary minus, so the first factor has no digits. */
  lemma LeadingMinus()
    ensures Parse("-1").NaN?
  {
    NoOperandIsNaN("-1");
  }
}
