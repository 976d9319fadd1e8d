/** The last evaluator version (ArithmeticParser/recursive_descent/src/main.ts):
    the `+ - * /` grammar with parentheses, plus two changes.
    - `factor` skips spaces before and after itself.
    - A `/` whose right factor is 0 throws `ZeroDivisionError`. The exception
      unwinds every caller, so each reader returns either its value and stop
      position or the exception.
    The measure of the mutual recursion is the one of `Arithmetic`. */
module RecursiveDescent {
  import opened Numbers
  import opened Scanner
  import opened Syntax

  /** A reader's outcome: the value read and where it stopped, or the thrown
      `ZeroDivisionError`. */
  datatype Outcome = Read(value: Num, pos: nat) | ZeroDivision

  /** What `Main.parse` produces: a number, or the exception it throws. */
  datatype Answer = Value(n: Num) | ZeroDivisionError

  /** `spaces`: the position after the run of spaces at `pos`. */
  function SpacesEnd(text: string, pos: nat): (e: nat)
    requires pos <= |text|
    ensures pos <= e <= |text| && !At(text, e, ' ')
    decreases |text| - pos
  {
    if At(text, pos, ' ') then SpacesEnd(text, pos + 1) else pos
  }

  /** `spaces` skips exactly the run of spaces at the cursor. */
  lemma {:induction false} SpacesEndSkipsSpaces(text: string, pos: nat)
    requires pos <= |text|
    ensures SpacesAt(text, pos, SpacesEnd(text, pos) - pos)
    decreases |text| - pos
  {
    if At(text, pos, ' ') {
      SpacesEndSkipsSpaces(text, pos + 1);
    }
  }

  /** A sum: one term, then further terms each after a plus or minus sign. */
  function Expr(text: string, pos: nat): (r: Outcome)
    requires pos <= |text|
    ensures r.Read? ==> pos <= r.pos <= |text| && !r.value.NonFinite?
    ensures r.Read? ==> AtNoAddOp(text, r.pos) && AtNoMulOp(text, r.pos) && !At(text, r.pos, ' ')
    decreases |text| - pos, 2
  {
    match Term(text, pos)
    case ZeroDivision => ZeroDivision
    case Read(x, p) => ExprLoop(text, x, p)
  }

  function ExprLoop(text: string, x: Num, pos: nat): (r: Outcome)
    requires pos <= |text| && !x.NonFinite?
    ensures r.Read? ==> pos <= r.pos <= |text| && !r.value.NonFinite?
    ensures r.Read? ==> AtNoAddOp(text, r.pos)
    ensures r.Read? && r.pos != pos ==> AtNoMulOp(text, r.pos) && !At(text, r.pos, ' ')
    decreases |text| - pos, 1
  {
    if At(text, pos, '+') then
      match Term(text, pos + 1)
      case ZeroDivision => ZeroDivision
      case Read(y, p) => ExprLoop(text, Apply(Plus, x, y), p)
    else if At(text, pos, '-') then
      match Term(text, pos + 1)
      case ZeroDivision => ZeroDivision
      case Read(y, p) => ExprLoop(text, Apply(Minus, x, y), p)
    else
      Read(x, pos)
  }

  /** A product: one factor, then further factors each after a times or
      division sign; every divisor passes the zero guard first. */
  function Term(text: string, pos: nat): (r: Outcome)
    requires pos <= |text|
    ensures r.Read? ==> pos <= r.pos <= |text| && !r.value.NonFinite?
    ensures r.Read? ==> AtNoMulOp(text, r.pos) && !At(text, r.pos, ' ')
    decreases |text| - pos, 1
  {
    match Factor(text, pos)
    case ZeroDivision => ZeroDivision
    case Read(x, p) => TermLoop(text, x, p)
  }

  function TermLoop(text: string, x: Num, pos: nat): (r: Outcome)
    requires pos <= |text| && !x.NonFinite?
    ensures r.Read? ==> pos <= r.pos <= |text| && !r.value.NonFinite?
    ensures r.Read? ==> AtNoMulOp(text, r.pos)
    ensures r.Read? && r.pos != pos ==> !At(text, r.pos, ' ')
    decreases |text| - pos, 0
  {
    if At(text, pos, '*') then
      match Factor(text, pos + 1)
      case ZeroDivision => ZeroDivision
      case Read(y, p) => TermLoop(text, Apply(Times, x, y), p)
    else if At(text, pos, '/') then
      match Factor(text, pos + 1)
      case ZeroDivision => ZeroDivision
      case Read(f, p) => if f == Real(0.0) then ZeroDivision else TermLoop(text, Apply(Over, x, f), p)
    else
      Read(x, pos)
  }

  /** A factor: a parenthesised sum, whose closing parenthesis may be
      missing, or else a run of digits; either one between runs of spaces. */
  function Factor(text: string, pos: nat): (r: Outcome)
    requires pos <= |text|
    ensures r.Read? ==> pos <= r.pos <= |text| && !r.value.NonFinite? && !At(text, r.pos, ' ')
    decreases |text| - pos, 0
  {
    var start := SpacesEnd(text, pos);
    if At(text, start, '(') then
      match Expr(text, start + 1)
      case ZeroDivision => ZeroDivision
      case Read(x, p) =>
        var q := if At(text, p, ')') then p + 1 else p;
        Read(x, SpacesEnd(text, q))
    else
      var n := Number(text, start);
      Read(n.value, SpacesEnd(text, n.pos))
  }

  /** `Main.parse`: the value of `expr` from the start, or the exception;
      trailing input is ignored. The guard means it never yields the outcome
      `NonFinite` of an unguarded division. */
  function Parse(text: string): (a: Answer)
    ensures a.Value? ==> !a.n.NonFinite?
  {
    match Expr(text, 0)
    case ZeroDivision => ZeroDivisionError
    case Read(v, _) => Value(v)
  }

  /** `x op y` as this version computes it: an exception in either operand
      propagates, and a zero divisor throws. */
  function Guard(op: Op, x: Answer, y: Answer): (z: Answer)
    requires x.Value? ==> !x.n.NonFinite?
    requires y.Value? ==> !y.n.NonFinite?
    ensures z.Value? ==> !z.n.NonFinite?
    ensures z.ZeroDivisionError? <==>
              x.ZeroDivisionError? || y.ZeroDivisionError? || (op == Over && y.n == Real(0.0))
  {
    if x.ZeroDivisionError? || y.ZeroDivisionError? then ZeroDivisionError
    else if op == Over && y.n == Real(0.0) then ZeroDivisionError
    else Value(Apply(op, x.n, y.n))
  }

  /** Reference meaning of a syntax tree in this version. */
  function SumAnswer(e: Sum): (a: Answer)
    ensures a.Value? ==> !a.n.NonFinite?
    decreases e
  {
    match e
    case Lone(p) => ProductAnswer(p)
    case Sum(l, op, r) => Guard(op.Op(), SumAnswer(l), ProductAnswer(r))
  }

  function ProductAnswer(p: Product): (a: Answer)
    ensures a.Value? ==> !a.n.NonFinite?
    decreases p
  {
    match p
    case Single(a) => AtomAnswer(a)
    case Product(l, op, r) => Guard(op.Op(), ProductAnswer(l), AtomAnswer(r))
  }

  function AtomAnswer(a: Atom): (r: Answer)
    ensures r.Value? ==> !r.n.NonFinite?
    decreases a
  {
    match a
    case Lit(ds, _, _) => Value(Real(DecimalValue(ds) as real))
    case Group(e, _, _) => SumAnswer(e)
  }

  /** The outcome of a reader that produced `g` and stopped at `pos`. */
  function Stopped(g: Answer, pos: nat): Outcome {
    if g.Value? then Read(g.n, pos) else ZeroDivision
  }

  /** The outcome of `expr` once its first terms produced `g` and the cursor
      reached `pos`: its loop goes on, or the exception propagates. */
  function ExprAfter(text: string, g: Answer, pos: nat): Outcome
    requires pos <= |text| && (g.Value? ==> !g.n.NonFinite?)
  {
    if g.Value? then ExprLoop(text, g.n, pos) else ZeroDivision
  }

  function TermAfter(text: string, g: Answer, pos: nat): Outcome
    requires pos <= |text| && (g.Value? ==> !g.n.NonFinite?)
  {
    if g.Value? then TermLoop(text, g.n, pos) else ZeroDivision
  }

  /** The guard changes nothing but the zero divisors: on every tree, this
      version throws exactly where the unguarded reference meaning is not
      finite, and otherwise yields that same value. */
  lemma {:induction false} SumAnswerAgrees(e: Sum)
    ensures SumAnswer(e).ZeroDivisionError? <==> SumValue(e).NonFinite?
    ensures SumAnswer(e).Value? ==> SumAnswer(e).n == SumValue(e)
    ensures !SumValue(e).NaN?
    decreases e
  {
    match e
    case Lone(p) =>
      ProductAnswerAgrees(p);
    case Sum(l, _, r) =>
      SumAnswerAgrees(l);
      ProductAnswerAgrees(r);
  }

  lemma {:induction false} ProductAnswerAgrees(p: Product)
    ensures ProductAnswer(p).ZeroDivisionError? <==> ProductValue(p).NonFinite?
    ensures ProductAnswer(p).Value? ==> ProductAnswer(p).n == ProductValue(p)
    ensures !ProductValue(p).NaN?
    decreases p
  {
    match p
    case Single(a) =>
      AtomAnswerAgrees(a);
    case Product(l, _, r) =>
      ProductAnswerAgrees(l);
      AtomAnswerAgrees(r);
  }

  lemma {:induction false} AtomAnswerAgrees(a: Atom)
    ensures AtomAnswer(a).ZeroDivisionError? <==> AtomValue(a).NonFinite?
    ensures AtomAnswer(a).Value? ==> AtomAnswer(a).n == AtomValue(a)
    ensures !AtomValue(a).NaN?
    decreases a
  {
    match a
    case Lit(_, _, _) =>
    case Group(e, _, _) =>
      SumAnswerAgrees(e);
  }

  /** `spaces` stops after exactly the `k` spaces written at `i` when no
      further space follows. */
  lemma {:induction false} SpacesEndAt(text: string, i: nat, k: nat)
    requires SpacesAt(text, i, k) && !At(text, i + k, ' ')
    ensures SpacesEnd(text, i) == i + k
    decreases k
  {
    if k > 0 {
      SpacesEndAt(text, i + 1, k - 1);
    }
  }

  /** One more `op term` read by the loop of `expr` after `l`. */
  lemma ExprLoopStep(l: Sum, op: AddOp, r: Product, text: string, i: nat, k: nat, end: nat)
    requires i <= k < |text| && text[k] == op.Op().Symbol() && end <= |text|
    requires Expr(text, i) == ExprAfter(text, SumAnswer(l), k)
    requires Term(text, k + 1) == Stopped(ProductAnswer(r), end)
    ensures Expr(text, i) == ExprAfter(text, SumAnswer(Sum(l, op, r)), end)
  {
  }

  /** One more `op factor` read by the loop of `term` after `l`, with the
      guard on a divisor. */
  lemma TermLoopStep(l: Product, op: MulOp, r: Atom, text: string, i: nat, k: nat, end: nat)
    requires i <= k < |text| && text[k] == op.Op().Symbol() && end <= |text|
    requires Term(text, i) == TermAfter(text, ProductAnswer(l), k)
    requires Factor(text, k + 1) == Stopped(AtomAnswer(r), end)
    ensures Term(text, i) == TermAfter(text, ProductAnswer(Product(l, op, r)), end)
  {
  }

  /** `expr` reads the spaced text of `e` as `e`: it throws if `e` does, and
      otherwise leaves its loop right after the text, whichever sum operator
      follows. */
  lemma {:induction false} ExprReadsSum(e: Sum, text: string, i: nat)
    requires SumAt(e, true, text, i)
    requires var j := i + SumLen(e, true);
             AtNoMulOp(text, j) && Detached(LastOfSum(e), true, text, j) && !At(text, j, ' ')
    ensures Expr(text, i) == ExprAfter(text, SumAnswer(e), i + SumLen(e, true))
    decreases e, 2
  {
    if e.Lone? {
      TermReadsProduct(e.p, text, i);
    } else {
      ExprReadsStep(e.l, e.aop, e.r, text, i);
    }
  }

  /** The inductive step of `ExprReadsSum`. */
  lemma {:induction false} ExprReadsStep(l: Sum, op: AddOp, r: Product, text: string, i: nat)
    requires SumAt(Sum(l, op, r), true, text, i)
    requires var j := i + SumLen(Sum(l, op, r), true);
             AtNoMulOp(text, j) && Detached(LastOfProduct(r), true, text, j) && !At(text, j, ' ')
    ensures Expr(text, i) == ExprAfter(text, SumAnswer(Sum(l, op, r)), i + SumLen(Sum(l, op, r), true))
    decreases Sum(l, op, r), 1
  {
    var k := i + SumLen(l, true);
    SumAtParts(l, op, r, true, text, i);
    TermReadsProduct(r, text, k + 1);
    ExprReadsSum(l, text, i);
    ExprLoopStep(l, op, r, text, i, k, k + 1 + ProductLen(r, true));
  }

  /** `term` reads the spaced text of `p` as `p`, stopping right after it. */
  lemma {:induction false} TermReadsProduct(p: Product, text: string, i: nat)
    requires ProductAt(p, true, text, i)
    requires var j := i + ProductLen(p, true);
             AtNoMulOp(text, j) && Detached(LastOfProduct(p), true, text, j) && !At(text, j, ' ')
    ensures Term(text, i) == Stopped(ProductAnswer(p), i + ProductLen(p, true))
    decreases p, 4
  {
    TermLoopReadsProduct(p, text, i);
  }

  /** `term` reads the spaced text of `p` and leaves its loop right after it,
      whichever product operator follows. */
  lemma {:induction false} TermLoopReadsProduct(p: Product, text: string, i: nat)
    requires ProductAt(p, true, text, i)
    requires var j := i + ProductLen(p, true);
             Detached(LastOfProduct(p), true, text, j) && !At(text, j, ' ')
    ensures Term(text, i) == TermAfter(text, ProductAnswer(p), i + ProductLen(p, true))
    decreases p, 3
  {
    if p.Single? {
      FactorReadsAtom(p.a, text, i);
    } else {
      TermReadsStep(p.l, p.mop, p.r, text, i);
    }
  }

  /** The inductive step of `TermLoopReadsProduct`. */
  lemma {:induction false} TermReadsStep(l: Product, op: MulOp, r: Atom, text: string, i: nat)
    requires ProductAt(Product(l, op, r), true, text, i)
    requires var j := i + ProductLen(Product(l, op, r), true);
             Detached(r, true, text, j) && !At(text, j, ' ')
    ensures Term(text, i) == TermAfter(text, ProductAnswer(Product(l, op, r)), i + ProductLen(Product(l, op, r), true))
    decreases Product(l, op, r), 2
  {
    var k := i + ProductLen(l, true);
    ProductAtParts(l, op, r, true, text, i);
    FactorReadsAtom(r, text, k + 1);
    TermLoopReadsProduct(l, text, i);
    TermLoopStep(l, op, r, text, i, k, k + 1 + AtomLen(r, true));
  }

  /** `factor` reads the text of `a`, its spaces included, as `a`, stopping
      right after it. */
  lemma {:induction false} FactorReadsAtom(a: Atom, text: string, i: nat)
    requires AtomAt(a, true, text, i)
    requires var j := i + AtomLen(a, true);
             Detached(a, true, text, j) && !At(text, j, ' ')
    ensures Factor(text, i) == Stopped(AtomAnswer(a), i + AtomLen(a, true))
    decreases a, 1
  {
    if a.Lit? {
      FactorReadsNumeral(a.ds, a.pre, a.post, text, i);
    } else {
      FactorReadsGroup(a.e, a.pre, a.post, text, i);
    }
  }

  /** `factor` reads a numeral between `b` spaces and `c` spaces. */
  lemma FactorReadsNumeral(ds: Numeral, b: nat, c: nat, text: string, i: nat)
    requires AtomAt(Lit(ds, b, c), true, text, i)
    requires var j := i + b + |ds| + c;
             Detached(Lit(ds, b, c), true, text, j) && !At(text, j, ' ')
    ensures Factor(text, i) == Read(Real(DecimalValue(ds) as real), i + b + |ds| + c)
  {
    var k := i + b + |ds|;
    assert text[i + b] == ds[0];
    SpacesEndAt(text, i, b);
    assert NoDigitAt(text, k) by {
      if c > 0 {
        assert text[k] == ' ';
      }
    }
    NumberReadsNumeral(ds, text, i + b);
    SpacesEndAt(text, k, c);
  }

  /** `factor` reads a parenthesised sum between `b` spaces and `c` spaces. */
  lemma {:induction false} FactorReadsGroup(e: Sum, b: nat, c: nat, text: string, i: nat)
    requires AtomAt(Group(e, b, c), true, text, i)
    requires !At(text, i + AtomLen(Group(e, b, c), true), ' ')
    ensures Factor(text, i) == Stopped(SumAnswer(e), i + AtomLen(Group(e, b, c), true))
    decreases Group(e, b, c), 0
  {
    var k := i + b + 1 + SumLen(e, true);
    SpacesEndAt(text, i, b);
    ExprReadsSum(e, text, i + b + 1);
    SpacesEndAt(text, k + 1, c);
  }

  /** Spaces after the last atom change nothing in the meaning of a tree. */
  lemma TrailAnswer(e: Sum, k: nat)
    ensures SumAnswer(TrailSum(e, k)) == SumAnswer(e)
  {
    var p := if e.Lone? then e.p else e.r;
    assert AtomAnswer(TrailAtom(LastOfProduct(p), k)) == AtomAnswer(LastOfProduct(p));
    assert ProductAnswer(TrailProduct(p, k)) == ProductAnswer(p);
  }

  /** `k` spaces written at `i` are the text `Spaces(k)`. */
  lemma {:induction false} SpacesAtSpaces(text: string, i: nat, k: nat)
    requires SpacesAt(text, i, k)
    ensures text[i..i + k] == Spaces(k)
    decreases k
  {
    if k > 0 {
      SpacesAtSpaces(text, i + 1, k - 1);
      assert text[i..i + k] == [text[i]] + text[i + 1..i + k];
    }
  }

  /** Round trip: parsing the text of any tree, with any spaces before and
      after each of its atoms, followed by anything that cannot continue an
      expression once its leading spaces are skipped, yields the tree's
      meaning: its value, or the exception when it divides by zero. If no
      space separates the two, the tree's last atom must not run on into the
      rest (a numeral followed by a digit). */
  lemma ParseShow(e: Sum, rest: string)
    requires var j := SpacesEnd(rest, 0);
             && AtNoAddOp(rest, j) && AtNoMulOp(rest, j)
             && (j == 0 ==> Detached(LastOfSum(e), true, rest, 0))
    ensures Parse(ShowSum(e, true) + rest) == SumAnswer(e)
  {
    var j := SpacesEnd(rest, 0);
    if j == 0 {
      ParseShowTight(e, rest);
    } else {
      SpacesEndSkipsSpaces(rest, 0);
      SpacesAtSpaces(rest, 0, j);
      ShowTrailSum(e, j);
      TrailAnswer(e, j);
      assert ShowSum(TrailSum(e, j), true) + rest[j..] == ShowSum(e, true) + rest by {
        assert rest == rest[0..j] + rest[j..];
      }
      ParseShowTight(TrailSum(e, j), rest[j..]);
    }
  }

  /** `ParseShow` when the rest starts right after the last atom. */
  lemma ParseShowTight(e: Sum, rest: string)
    requires AtNoAddOp(rest, 0) && AtNoMulOp(rest, 0) && !At(rest, 0, ' ')
    requires Detached(LastOfSum(e), true, rest, 0)
    ensures Parse(ShowSum(e, true) + rest) == SumAnswer(e)
  {
    var shown := ShowSum(e, true);
    var text := shown + rest;
    var n := |shown|;
    assert text[0..n] == shown;
    ShowSumAt(e, true, text, 0);
    ShowSumLen(e, true);
    if 0 < |rest| {
      assert text[n] == rest[0];
    }
    ExprReadsSum(e, text, 0);
  }

  /** Parsing the spaced text of a tree whose closing parenthesis never
      comes: the missing `)` is tolerated and the inner meaning returned. */
  lemma UnclosedGroup(e: Sum)
    ensures Parse("(" + ShowSum(e, true)) == SumAnswer(e)
  {
    var text := "(" + ShowSum(e, true);
    assert text[1..1 + |ShowSum(e, true)|] == ShowSum(e, true);
    ShowSumAt(e, true, text, 1);
    ShowSumLen(e, true);
    ExprReadsSum(e, text, 1);
    var k := 1 + SumLen(e, true);
    assert Factor(text, 0) == Stopped(SumAnswer(e), k);
    assert Term(text, 0) == Stopped(SumAnswer(e), k);
  }

  /** Once NaN, the loop of `term` stays NaN unless a later divisor throws:
      NaN absorbs `*` and `/`, but not the guard. */
  lemma {:induction false} TermLoopKeepsNaN(text: string, pos: nat)
    requires pos <= |text|
    ensures TermLoop(text, NaN, pos) == ZeroDivision || TermLoop(text, NaN, pos).value.NaN?
    decreases |text| - pos
  {
    if At(text, pos, '*') || At(text, pos, '/') {
      match Factor(text, pos + 1)
      case ZeroDivision =>
      case Read(_, p) => TermLoopKeepsNaN(text, p);
    }
  }

  /** Once NaN, the loop of `expr` stays NaN unless a later term throws. */
  lemma {:induction false} ExprLoopKeepsNaN(text: string, pos: nat)
    requires pos <= |text|
    ensures ExprLoop(text, NaN, pos) == ZeroDivision || ExprLoop(text, NaN, pos).value.NaN?
    decreases |text| - pos
  {
    if At(text, pos, '+') || At(text, pos, '-') {
      match Term(text, pos + 1)
      case ZeroDivision =>
      case Read(_, p) => ExprLoopKeepsNaN(text, p);
    }
  }

  /** Input whose first non-space character is neither a digit nor `(` (it
      is empty, blank, a letter, or a sign, since the unary `+`/`-` of the
      grammar comment is not implemented) makes the first factor the empty
      number: the answer is NaN, or the exception of a later zero divisor. */
  lemma NoOperandIsNaN(text: string)
    requires !DigitAt(text, SpacesEnd(text, 0)) && !At(text, SpacesEnd(text, 0), '(')
    ensures Parse(text) == ZeroDivisionError || Parse(text) == Value(NaN)
  {
    var start := SpacesEnd(text, 0);
    assert Factor(text, 0) == Read(NaN, SpacesEnd(text, start));
    TermLoopKeepsNaN(text, SpacesEnd(text, start));
    match Term(text, 0)
    case ZeroDivision =>
    case Read(_, p) => ExprLoopKeepsNaN(text, p);
  }
}
