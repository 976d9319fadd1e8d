/** The evaluator of `+ - * /` with parentheses and no whitespace handling
    (ArithmeticParser/src/main.ts, the version the unit tests exercise).

    `expr`, `term` and `factor` are mutually recursive over one cursor; each
    `while (true)` loop becomes a tail-recursive `...Loop` function. The whole
    group terminates on the measure (characters left, grammar level): every
    loop iteration and every recursion into `expr` from `factor` first consumes
    a character. Division is unguarded: a zero divisor yields `NonFinite`. */
module Arithmetic {
  import opened Numbers
  import opened Scanner
  import opened Syntax

  /** A sum: one term, then any number of further terms each introduced by
      a plus or minus sign. The result is non-finite only when the text holds
      a division somewhere. */
  function Expr(text: string, pos: nat): (r: Reading)
    requires pos <= |text|
    ensures pos <= r.pos <= |text|
    ensures AtNoAddOp(text, r.pos) && AtNoMulOp(text, r.pos)
    ensures r.value.NonFinite? ==> '/' in text
    decreases |text| - pos, 2
  {
    var first := Term(text, pos);
    ExprLoop(text, first.value, first.pos)
  }

  function ExprLoop(text: string, x: Num, pos: nat): (r: Reading)
    requires pos <= |text|
    ensures pos <= r.pos <= |text|
    ensures AtNoAddOp(text, r.pos)
    ensures r.pos == pos || AtNoMulOp(text, r.pos)
    ensures r.value.NonFinite? ==> x.NonFinite? || '/' in text
    decreases |text| - pos, 1
  {
    if At(text, pos, '+') then
      var next := Term(text, pos + 1);
      ExprLoop(text, Apply(Plus, x, next.value), next.pos)
    else if At(text, pos, '-') then
      var next := Term(text, pos + 1);
      ExprLoop(text, Apply(Minus, x, next.value), next.pos)
    else
      Reading(x, pos)
  }

  /** A product: one factor, then any number of further factors each
      introduced by a times or division sign. */
  function Term(text: string, pos: nat): (r: Reading)
    requires pos <= |text|
    ensures pos <= r.pos <= |text|
    ensures AtNoMulOp(text, r.pos)
    ensures r.value.NonFinite? ==> '/' in text
    decreases |text| - pos, 1
  {
    var first := Factor(text, pos);
    TermLoop(text, first.value, first.pos)
  }

  function TermLoop(text: string, x: Num, pos: nat): (r: Reading)
    requires pos <= |text|
    ensures pos <= r.pos <= |text|
    ensures AtNoMulOp(text, r.pos)
    ensures r.value.NonFinite? ==> x.NonFinite? || '/' in text
    decreases |text| - pos, 0
  {
    if At(text, pos, '*') then
      var next := Factor(text, pos + 1);
      TermLoop(text, Apply(Times, x, next.value), next.pos)
    else if At(text, pos, '/') then
      var next := Factor(text, pos + 1);
      TermLoop(text, Apply(Over, x, next.value), next.pos)
    else
      Reading(x, pos)
  }

  /** A factor: a parenthesised sum, whose closing parenthesis may be
      missing, or else a run of digits. */
  function Factor(text: string, pos: nat): (r: Reading)
    requires pos <= |text|
    ensures pos <= r.pos <= |text|
    ensures r.value.NonFinite? ==> '/' in text
    decreases |text| - pos, 0
  {
    if At(text, pos, '(') then
      var inner := Expr(text, pos + 1);
      if At(text, inner.pos, ')') then Reading(inner.value, inner.pos + 1) else inner
    else
      Number(text, pos)
  }

  /** `Main.parse`: the value of `expr` from the start; trailing input is
      ignored. Without a division sign in the text, the result is finite or NaN. */
  function Parse(text: string): (v: Num)
    ensures v.NonFinite? ==> '/' in text
  {
    Expr(text, 0).value
  }

  /** One more `op term` read by the loop of `expr` after `l`. */
  lemma ExprLoopStep(l: Sum, op: AddOp, r: Product, text: string, i: nat, k: nat, end: nat)
    requires i <= k < |text| && text[k] == op.Op().Symbol() && end <= |text|
    requires Expr(text, i) == ExprLoop(text, SumValue(l), k)
    requires Term(text, k + 1) == Reading(ProductValue(r), end)
    ensures Expr(text, i) == ExprLoop(text, SumValue(Sum(l, op, r)), end)
  {
  }

  /** One more `op factor` read by the loop of `term` after `l`. */
  lemma TermLoopStep(l: Product, op: MulOp, r: Atom, text: string, i: nat, k: nat, end: nat)
    requires i <= k < |text| && text[k] == op.Op().Symbol() && end <= |text|
    requires Term(text, i) == TermLoop(text, ProductValue(l), k)
    requires Factor(text, k + 1) == Reading(AtomValue(r), end)
    ensures Term(text, i) == TermLoop(text, ProductValue(Product(l, op, r)), end)
  {
  }

  /** `expr` reads the text of `e` as `e` and leaves its loop right after it,
      whichever sum operator follows. */
  lemma {:induction false} ExprReadsSum(e: Sum, text: string, i: nat)
    requires SumAt(e, false, text, i)
    requires var j := i + SumLen(e, false);
             AtNoMulOp(text, j) && Detached(LastOfSum(e), false, text, j)
    ensures Expr(text, i) == ExprLoop(text, SumValue(e), i + SumLen(e, false))
    decreases e, 2
  {
    if e.Lone? {
      TermReadsProduct(e.p, text, i);
    } else {
      ExprReadsStep(e.l, e.aop, e.r, text, i);
    }
  }

  /** The inductive step of `ExprReadsSum`: `l op r` is `l`, then one more
      turn of the loop of `expr`. */
  lemma {:induction false} ExprReadsStep(l: Sum, op: AddOp, r: Product, text: string, i: nat)
    requires SumAt(Sum(l, op, r), false, text, i)
    requires var j := i + SumLen(Sum(l, op, r), false);
             AtNoMulOp(text, j) && Detached(LastOfProduct(r), false, text, j)
    ensures Expr(text, i) == ExprLoop(text, SumValue(Sum(l, op, r)), i + SumLen(Sum(l, op, r), false))
    decreases Sum(l, op, r), 1
  {
    var k := i + SumLen(l, false);
    SumAtParts(l, op, r, false, text, i);
    TermReadsProduct(r, text, k + 1);
    ExprReadsSum(l, text, i);
    ExprLoopStep(l, op, r, text, i, k, k + 1 + ProductLen(r, false));
  }

  /** `term` reads the text of `p` as `p`, stopping right after it. */
  lemma {:induction false} TermReadsProduct(p: Product, text: string, i: nat)
    requires ProductAt(p, false, text, i)
    requires var j := i + ProductLen(p, false);
             AtNoMulOp(text, j) && Detached(LastOfProduct(p), false, text, j)
    ensures Term(text, i) == Reading(ProductValue(p), i + ProductLen(p, false))
    decreases p, 4
  {
    TermLoopReadsProduct(p, text, i);
  }

  /** `term` reads the text of `p` and leaves its loop right after it,
      whichever product operator follows. */
  lemma {:induction false} TermLoopReadsProduct(p: Product, text: string, i: nat)
    requires ProductAt(p, false, text, i) && Detached(LastOfProduct(p), false, text, i + ProductLen(p, false))
    ensures Term(text, i) == TermLoop(text, ProductValue(p), i + ProductLen(p, false))
    decreases p, 3
  {
    match p
    case Single(a) =>
      FactorReadsAtom(a, text, i);
    case Product(l, op, r) =>
      var k := i + ProductLen(l, false);
      ProductAtParts(l, op, r, false, text, i);
      FactorReadsAtom(r, text, k + 1);
      TermLoopReadsProduct(l, text, i);
      TermLoopStep(l, op, r, text, i, k, i + ProductLen(p, false));
  }

  /** `factor` reads the text of `a` as `a`, stopping right after it. */
  lemma {:induction false} FactorReadsAtom(a: Atom, text: string, i: nat)
    requires AtomAt(a, false, text, i) && Detached(a, false, text, i + AtomLen(a, false))
    ensures Factor(text, i) == Reading(AtomValue(a), i + AtomLen(a, false))
    decreases a, 0
  {
    match a
    case Lit(ds, _, _) =>
      assert text[i] == ds[0];
      NumberReadsNumeral(ds, text, i);
    case Group(e, _, _) =>
      ExprReadsSum(e, text, i + 1);
  }

  /** Round trip: parsing the text of any tree, followed by anything that cannot
      continue an expression, yields the tree's value and stops right after it.
      So `* /` bind tighter than `+ -`, all four associate to the left, and the
      trailing input is ignored. The rest cannot continue the expression when
      it opens with no operator and, after a final numeral, with no digit. */
  lemma ParseShow(e: Sum, rest: string)
    requires AtNoAddOp(rest, 0) && AtNoMulOp(rest, 0)
    requires Detached(LastOfSum(e), false, rest, 0)
    ensures Expr(Show(e) + rest, 0) == Reading(SumValue(e), |Show(e)|)
    ensures Parse(Show(e) + rest) == SumValue(e)
  {
    var text := Show(e) + rest;
    var n := |Show(e)|;
    assert text[0..n] == Show(e);
    ShowSumAt(e, false, text, 0);
    ShowSumLen(e, false);
    if 0 < |rest| {
      assert text[n] == rest[0];
    }
    ExprReadsSum(e, text, 0);
  }

  /** Parsing the text of a tree whose closing parenthesis never comes: the
      missing `)` is tolerated and the inner expression's value returned. */
  lemma UnclosedGroup(e: Sum)
    ensures Parse("(" + Show(e)) == SumValue(e)
  {
    var text := "(" + Show(e);
    assert text[1..1 + |Show(e)|] == Show(e);
    ShowSumAt(e, false, text, 1);
    ShowSumLen(e, false);
    ExprReadsSum(e, text, 1);
    var k := 1 + SumLen(e, false);
    assert Factor(text, 0) == Reading(SumValue(e), k);
    assert Term(text, 0) == Reading(SumValue(e), k);
  }

  /** Once NaN, the loop of `term` stays NaN: NaN absorbs `*` and `/`. */
  lemma {:induction false} TermLoopKeepsNaN(text: string, pos: nat)
    requires pos <= |text|
    ensures TermLoop(text, NaN, pos).value.NaN?
    decreases |text| - pos
  {
    if At(text, pos, '*') || At(text, pos, '/') {
      TermLoopKeepsNaN(text, Factor(text, pos + 1).pos);
    }
  }

  /** Once NaN, the loop of `expr` stays NaN: NaN absorbs `+` and `-`. */
  lemma {:induction false} ExprLoopKeepsNaN(text: string, pos: nat)
    requires pos <= |text|
    ensures ExprLoop(text, NaN, pos).value.NaN?
    decreases |text| - pos
  {
    if At(text, pos, '+') || At(text, pos, '-') {
      ExprLoopKeepsNaN(text, Term(text, pos + 1).pos);
    }
  }

  /** Input that does not open with a digit or `(` (empty, a space, a letter,
      or a sign, since unary `+`/`-` is not implemented) makes the first factor
      the empty number, and the whole expression NaN. */
  lemma NoOperandIsNaN(text: string)
    requires !DigitAt(text, 0) && !At(text, 0, '(')
    ensures Parse(text).NaN?
  {
    assert Factor(text, 0) == Reading(NaN, 0);
    TermLoopKeepsNaN(text, 0);
    ExprLoopKeepsNaN(text, Term(text, 0).pos);
  }
}
