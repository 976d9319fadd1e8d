/** The first evaluator (ArithmeticParser/main.ts): numbers joined by `+`.

    `expr` reads a number, then adds one more number after each `+`, and
    stops at the first character that is not `+`. There is no subtraction,
    no product, no parenthesis and no space: any of them simply ends the
    expression. */
module Addition {
  import opened Numbers
  import opened Scanner

  /** NaN, or a whole number that is not negative. */
  predicate Natural(v: Num) {
    v.NaN? || (v.Real? && v.r >= 0.0 && v.r.Floor as real == v.r)
  }

  /** A sum: one number, then one more number after each plus sign. */
  function Expr(text: string, pos: nat): (r: Reading)
    requires pos <= |text|
    ensures pos <= r.pos <= |text|
    ensures !DigitAt(text, r.pos) && !At(text, r.pos, '+')
    ensures Natural(r.value)
    ensures !DigitAt(text, pos) ==> r.value.NaN?
  {
    var first := Number(text, pos);
    ExprLoop(text, first.value, first.pos)
  }

  /** The loop of `expr`, with `x` the sum so far: it goes on while the
      cursor is at a plus sign. */
  function ExprLoop(text: string, x: Num, pos: nat): (r: Reading)
    requires pos <= |text|
    ensures pos <= r.pos <= |text| && !At(text, r.pos, '+')
    ensures r.pos != pos ==> !DigitAt(text, r.pos)
    ensures Natural(x) ==> Natural(r.value)
    ensures x.NaN? ==> r.value.NaN?
    decreases |text| - pos
  {
    if At(text, pos, '+') then
      var next := Number(text, pos + 1);
      NaturalPlus(x, next.value);
      ExprLoop(text, Apply(Plus, x, next.value), next.pos)
    else
      Reading(x, pos)
  }

  /** Adding two natural numbers gives a natural number; NaN stays NaN. */
  lemma NaturalPlus(x: Num, y: Num)
    requires Natural(y)
    ensures Natural(x) ==> Natural(Apply(Plus, x, y))
  {
    if Natural(x) && x.Real? && y.Real? {
      var m, n := x.r.Floor, y.r.Floor;
      assert x.r + y.r == (m + n) as real;
    }
  }

  /** The value `Main.test` logs for its argument: `expr` from the start,
      with the trailing input ignored. */
  function Evaluate(text: string): (v: Num)
    ensures Natural(v) && !v.NonFinite?
    ensures !DigitAt(text, 0) ==> v.NaN?
  {
    Expr(text, 0).value
  }

  /** Numerals joined by `+`, nested to the left as `expr` reads them. */
  datatype Chain = First(n: Numeral) | Then(init: Chain, n: Numeral)

  /** The text of a chain. */
  function Join(c: Chain): string {
    match c
    case First(n) => n
    case Then(init, n) => Join(init) + "+" + n
  }

  /** The sum of the decimal values of a chain's numerals. */
  function Total(c: Chain): nat {
    match c
    case First(n) => DecimalValue(n)
    case Then(init, n) => Total(init) + DecimalValue(n)
  }

  /** The same sum, computed as `expr` computes it: one number addition per
      `+`, left to right. */
  function ChainValue(c: Chain): Num {
    match c
    case First(n) => Real(DecimalValue(n) as real)
    case Then(init, n) => Apply(Plus, ChainValue(init), Real(DecimalValue(n) as real))
  }

  /** The two sums agree: adding numbers one `+` at a time never meets NaN
      or a non-finite value, and yields the sum of the numerals' values. */
  lemma {:induction false} ChainValueIsTotal(c: Chain)
    ensures ChainValue(c) == Real(Total(c) as real)
  {
    match c
    case First(_) =>
    case Then(init, _) => ChainValueIsTotal(init);
  }

  /** One more `+ number` read by the loop of `expr`. */
  lemma ExprLoopStep(text: string, i: nat, k: nat, x: Num, y: Num, end: nat)
    requires i <= k < |text| && text[k] == '+' && end <= |text|
    requires Expr(text, i) == ExprLoop(text, x, k)
    requires Number(text, k + 1) == Reading(y, end)
    ensures Expr(text, i) == ExprLoop(text, Apply(Plus, x, y), end)
  {
  }

  /** The length of the text of a chain, computed without building it. */
  function JoinLen(c: Chain): nat {
    match c
    case First(n) => |n|
    case Then(init, n) => JoinLen(init) + 1 + |n|
  }

  /** The text of `c` is written in `text` at position `i`, stated position
      by position rather than by concatenation. */
  predicate JoinAt(c: Chain, text: string, i: nat) {
    match c
    case First(n) => WrittenAt(n, text, i)
    case Then(init, n) =>
      var k := i + JoinLen(init);
      && JoinAt(init, text, i)
      && k < |text| && text[k] == '+'
      && WrittenAt(n, text, k + 1)
  }

  lemma {:induction false} JoinLength(c: Chain)
    ensures |Join(c)| == JoinLen(c)
  {
    match c
    case First(_) =>
    case Then(init, _) => JoinLength(init);
  }

  /** Where the text of a chain occurs, the chain is written there position
      by position. */
  lemma {:induction false} OccursJoin(c: Chain, text: string, i: nat)
    requires Occurs(Join(c), text, i)
    ensures JoinAt(c, text, i)
  {
    match c
    case First(n) =>
      OccursWritten(n, text, i);
    case Then(init, n) =>
      OccursInfix(Join(init), '+', n, text, i);
      JoinLength(init);
      OccursJoin(init, text, i);
      OccursWritten(n, text, i + |Join(init)| + 1);
  }

  /** `expr` reads a chain written at `i` as its sum and leaves its loop
      right after it, whatever non-digit follows. */
  lemma {:induction false} ExprReadsJoin(c: Chain, text: string, i: nat)
    requires JoinAt(c, text, i) && NoDigitAt(text, i + JoinLen(c))
    ensures Expr(text, i) == ExprLoop(text, ChainValue(c), i + JoinLen(c))
    decreases c, 1
  {
    match c
    case First(n) =>
      ExprReadsFirst(n, text, i);
    case Then(init, n) =>
      var k := i + JoinLen(init);
      NumberReadsNumeral(n, text, k + 1);
      ExprReadsStep(init, Real(DecimalValue(n) as real), |n|, text, i);
  }

  /** The base case of `ExprReadsJoin`: a lone numeral. */
  lemma ExprReadsFirst(n: Numeral, text: string, i: nat)
    requires WrittenAt(n, text, i) && NoDigitAt(text, i + |n|)
    ensures Expr(text, i) == ExprLoop(text, Real(DecimalValue(n) as real), i + |n|)
  {
    NumberReadsNumeral(n, text, i);
  }

  /** The inductive step of `ExprReadsJoin`: the chain `init`, then one more
      turn of the loop, which reads `y` from the `len` characters after `+`. */
  lemma {:induction false} ExprReadsStep(init: Chain, y: Num, len: nat, text: string, i: nat)
    requires var k := i + JoinLen(init);
             && JoinAt(init, text, i) && k < |text| && text[k] == '+'
             && Number(text, k + 1) == Reading(y, k + 1 + len)
    ensures Expr(text, i) == ExprLoop(text, Apply(Plus, ChainValue(init), y), i + JoinLen(init) + 1 + len)
    decreases init, 2
  {
    var k := i + JoinLen(init);
    ExprReadsJoin(init, text, i);
    ExprLoopStep(text, i, k, ChainValue(init), y, k + 1 + len);
  }

  /** Round trip: evaluating the text of a chain, followed by anything but a
      digit or `+`, yields its sum; `expr` stops right after it. */
  lemma EvaluateJoin(c: Chain, rest: string)
    requires var text := Join(c) + rest;
             !DigitAt(text, |Join(c)|) && !At(text, |Join(c)|, '+')
    ensures Expr(Join(c) + rest, 0) == Reading(Real(Total(c) as real), |Join(c)|)
    ensures Evaluate(Join(c) + rest) == Real(Total(c) as real)
  {
    var text := Join(c) + rest;
    assert JoinAt(c, text, 0) by {
      assert text[0..|Join(c)|] == Join(c);
      OccursJoin(c, text, 0);
    }
    JoinLength(c);
    ExprReadsJoin(c, text, 0);
    ChainValueIsTotal(c);
  }

  /** Round trip with numbers: two naturals written in decimal and joined by
      `+` evaluate to their sum. */
  lemma EvaluateDigits(m: nat, n: nat)
    ensures Evaluate(Digits(m) + "+" + Digits(n)) == Real((m + n) as real)
  {
    var c := Then(First(Digits(m)), Digits(n));
    assert Join(c) + "" == Digits(m) + "+" + Digits(n);
    DecimalValueOfDigits(m);
    DecimalValueOfDigits(n);
    EvaluateJoin(c, "");
  }

  /** Once NaN, the loop of `expr` stays NaN: NaN absorbs `+`. */
  lemma {:induction false} ExprLoopKeepsNaN(text: string, pos: nat)
    requires pos <= |text|
    ensures ExprLoop(text, NaN, pos).value.NaN?
    decreases |text| - pos
  {
    if At(text, pos, '+') {
      ExprLoopKeepsNaN(text, Number(text, pos + 1).pos);
    }
  }

  /** A `+` with no digits after it adds the NaN of the empty number, after
      which the loop of `expr` stays NaN. */
  lemma PlusWithoutNumber(text: string, x: Num, k: nat)
    requires k < |text| && text[k] == '+' && !DigitAt(text, k + 1)
    ensures ExprLoop(text, x, k).value.NaN?
  {
    assert Number(text, k + 1) == Reading(NaN, k + 1);
    ExprLoopKeepsNaN(text, k + 1);
  }

  /** So a chain followed by a dangling `+` evaluates to NaN. */
  lemma TrailingPlus(c: Chain, rest: string)
    requires !DigitAt(rest, 0)
    ensures Evaluate(Join(c) + "+" + rest).NaN?
  {
    var text := Join(c) + "+" + rest;
    var k := |Join(c)|;
    assert JoinAt(c, text, 0) && text[k] == '+' && !DigitAt(text, k + 1) by {
      assert text[0..k] == Join(c);
      OccursJoin(c, text, 0);
      if k + 1 < |text| {
        assert text[k + 1] == rest[0];
      }
    }
    JoinLength(c);
    ExprReadsJoin(c, text, 0);
    PlusWithoutNumber(text, ChainValue(c), k);
  }

  /** "12+3+5" = 20, the expression `Main.test` is called with. */
  lemma LoggedExample()
    ensures Evaluate("12+3+5") == Real(20.0)
  {
    var c := Then(Then(First("12"), "3"), "5");
    assert Join(c) + "" == "12+3+5";
    EvaluateJoin(c, "");
  }

  /** "1-2" = 1: `-` is not an operator here, so it ends the expression. */
  lemma MinusEnds()
    ensures Evaluate("1-2") == Real(1.0)
  {
    var c := First("1");
    assert Join(c) + "-2" == "1-2";
    EvaluateJoin(c, "-2");
  }

  /** "1+" is NaN. */
  lemma DanglingPlus()
    ensures Evaluate("1+").NaN?
  {
    var c := First("1");
    assert Join(c) + "+" + "" == "1+";
    TrailingPlus(c, "");
  }
}
