/** Concrete evaluations by the space-skipping, division-guarded evaluator.
    As for the unguarded version, each is proved by writing the expression as
    a syntax tree, checking that the tree prints as the text (each atom with
    its own spaces around it), and applying `RecursiveDescent.ParseShow`. */
module RecursiveDescentExamples {
  import opened Numbers
  import opened Scanner
  import opened Syntax
  import opened RecursiveDescent

  /** An answer follows from a tree that prints as the text and has that
      answer. */
  lemma Answers(e: Sum, text: string, a: Answer)
    requires ShowSum(e, true) == text && SumAnswer(e) == a
    ensures Parse(text) == a
  {
    assert ShowSum(e, true) + "" == ShowSum(e, true);
    ParseShow(e, "");
  }

  /** The same, when the tree's text is followed by input that cannot
      continue an expression. */
  lemma AnswersBefore(e: Sum, rest: string, text: string, a: Answer)
    requires ShowSum(e, true) + rest == text && SumAnswer(e) == a
    requires var j := SpacesEnd(rest, 0);
             && AtNoAddOp(rest, j) && AtNoMulOp(rest, j)
             && (j == 0 ==> Detached(LastOfSum(e), true, rest, 0))
    ensures Parse(text) == a
  {
    ParseShow(e, rest);
  }

  /** "1+2*3" = 7, as in the unguarded version. */
  lemma MulBeforeAdd()
    ensures Parse("1+2*3") == Value(Real(7.0))
  {
    assert Spaces(0) == "";
    Answers(Sum(Lone(Single(Plain("1"))), Add, Product(Single(Plain("2")), Mul, Plain("3"))), "1+2*3", Value(Real(7.0)));
  }

  /** The tree of " 1 + 2 * 3 ", one space around every number. */
  function SpacedTree(): Sum {
    Sum(Lone(Single(Lit("1", 1, 1))), Add, Product(Single(Lit("2", 1, 1)), Mul, Lit("3", 1, 1)))
  }

  lemma SpacedText()
    ensures ShowSum(SpacedTree(), true) == " 1 + 2 * 3 "
  {
    assert Spaces(1) == " ";
    assert ShowAtom(Lit("2", 1, 1), true) == " 2 ";
  }

  /** " 1 + 2 * 3 " = 7: spaces around the factors are skipped. */
  lemma SpacedOut()
    ensures Parse(" 1 + 2 * 3 ") == Value(Real(7.0))
  {
    SpacedText();
    Answers(SpacedTree(), " 1 + 2 * 3 ", Value(Real(7.0)));
  }

  /** "1 + 2" = 3: spaces on one side of a number only. */
  lemma SpacedSum()
    ensures Parse("1 + 2") == Value(Real(3.0))
  {
    assert Spaces(0) == "" && Spaces(1) == " ";
    Answers(Sum(Lone(Single(Lit("1", 0, 1))), Add, Single(Lit("2", 1, 0))), "1 + 2", Value(Real(3.0)));
  }

  /** "1+2 " = 3: trailing spaces are skipped. */
  lemma TrailingSpace()
    ensures Parse("1+2 ") == Value(Real(3.0))
  {
    var e := Sum(Lone(Single(Plain("1"))), Add, Single(Plain("2")));
    assert Spaces(0) == "";
    assert ShowSum(e, true) + " " == "1+2 ";
    AnswersBefore(e, " ", "1+2 ", Value(Real(3.0)));
  }

  /** "(1 + 2) * 3" = 9: spaces inside and after a parenthesised sum. */
  lemma SpacedGroup()
    ensures Parse("(1 + 2) * 3") == Value(Real(9.0))
  {
    var inner := Sum(Lone(Single(Lit("1", 0, 1))), Add, Single(Lit("2", 1, 0)));
    assert Spaces(0) == "" && Spaces(1) == " ";
    var e := Lone(Product(Single(Group(inner, 0, 1)), Mul, Lit("3", 1, 0)));
    assert ShowSum(inner, true) == "1 + 2";
    assert ShowAtom(Group(inner, 0, 1), true) == "(1 + 2) ";
    assert ShowSum(e, true) == "(1 + 2) * 3";
    assert SumAnswer(inner) == Value(Real(3.0));
    assert SumAnswer(e) == Value(Real(9.0));
    Answers(e, "(1 + 2) * 3", Value(Real(9.0)));
  }

  /** "1 2" = 1: a space ends the number, and the digit after it cannot
      continue the expression. */
  lemma SpaceThenDigit()
    ensures Parse("1 2") == Value(Real(1.0))
  {
    var e := Lone(Single(Plain("1")));
    assert Spaces(0) == "";
    assert ShowSum(e, true) + " 2" == "1 2";
    assert SpacesEnd(" 2", 0) == 1;
    AnswersBefore(e, " 2", "1 2", Value(Real(1.0)));
  }

  lemma NestedAnswer()
    ensures SumAnswer(NestedTree()) == Value(Real(-4.0))
  {
    var inner := Paren(Sum(Lone(Single(Plain("6"))), Sub, Single(Plain("8"))));
    assert AtomAnswer(inner) == Value(Real(-2.0));
  }

  /** "2*(4/(6-8))" = -4: a negative divisor passes the guard. */
  lemma Nested()
    ensures Parse("2*(4/(6-8))") == Value(Real(-4.0))
  {
    NestedText();
    NestedAnswer();
    Answers(NestedTree(), "2*(4/(6-8))", Value(Real(-4.0)));
  }

  /** "1/0" throws `ZeroDivisionError`. */
  lemma DivideByZero()
    ensures Parse("1/0") == ZeroDivisionError
  {
    assert Spaces(0) == "";
    Answers(Lone(Product(Single(Plain("1")), Div, Plain("0"))), "1/0", ZeroDivisionError);
  }

  /** "1/(2-2)" throws too: the guard tests the divisor's value, not its text. */
  lemma DivideByZeroGroup()
    ensures Parse("1/(2-2)") == ZeroDivisionError
  {
    var divisor := Paren(Sum(Lone(Single(Plain("2"))), Sub, Single(Plain("2"))));
    assert Spaces(0) == "";
    assert ShowAtom(divisor, true) == "(2-2)";
    Answers(Lone(Product(Single(Plain("1")), Div, divisor)), "1/(2-2)", ZeroDivisionError);
  }

  /** "2/3*(4-4)" = 0: only a divisor is guarded, and here the zero is a
      multiplier. */
  lemma ZeroMultiplier()
    ensures Parse("2/3*(4-4)") == Value(Real(0.0))
  {
    var zero := Paren(Sum(Lone(Single(Plain("4"))), Sub, Single(Plain("4"))));
    var e := Lone(Product(Product(Single(Plain("2")), Div, Plain("3")), Mul, zero));
    assert Spaces(0) == "";
    assert ShowAtom(zero, true) == "(4-4)";
    assert ShowSum(e, true) == "2/3*(4-4)";
    assert AtomAnswer(zero) == Value(Real(0.0));
    assert SumAnswer(e) == Value(Real(0.0));
    Answers(e, "2/3*(4-4)", Value(Real(0.0)));
  }

  /** "(1 + 2" = 3: the missing `)` is tolerated here too. */
  lemma MissingParen()
    ensures Parse("(1 + 2") == Value(Real(3.0))
  {
    var e := Sum(Lone(Single(Lit("1", 0, 1))), Add, Single(Lit("2", 1, 0)));
    assert Spaces(0) == "" && Spaces(1) == " ";
    assert ShowSum(e, true) == "1 + 2" by {
      assert ShowAtom(Lit("1", 0, 1), true) == "1 ";
      assert ShowAtom(Lit("2", 1, 0), true) == " 2";
    }
    assert "(" + ShowSum(e, true) == "(1 + 2";
    assert SumAnswer(e) == Value(Real(3.0));
    UnclosedGroup(e);
  }

  /** "-1" is NaN: there is no unary minus. */
  lemma LeadingMinus()
    ensures Parse("-1") == Value(NaN)
  {
    assert SpacesEnd("-1", 0) == 0;
    NoOperandIsNaN("-1");
  }
}
