/** Abstract syntax of the arithmetic grammar, used as the reference against
    which the evaluators are proved:

      sum     = sum ("+" | "-") product | product
      product = product ("*" | "/") atom | atom
      atom    = "(" sum ")" | number

    The trees are left-nested, so the shape of a tree IS the left-associative,
    precedence-respecting reading of its text.

    Every atom also records how many spaces are written before and after it.
    The space-skipping evaluator reads spaces only there, at the two ends of a
    factor, so these counts describe every way of spacing an expression that
    it accepts. The other evaluators read no spaces, and their printer
    ignores the counts. */
module Syntax {
  import opened Numbers
  import opened Scanner

  datatype AddOp = Add | Sub {
    function Op(): Op {
      if Add? then Plus else Minus
    }
  }

  datatype MulOp = Mul | Div {
    function Op(): Op {
      if Mul? then Times else Over
    }
  }

  datatype Sum = Lone(p: Product) | Sum(l: Sum, aop: AddOp, r: Product)
  datatype Product = Single(a: Atom) | Product(l: Product, mop: MulOp, r: Atom)
  datatype Atom =
    | Lit(ds: Numeral, pre: nat, post: nat)
    | Group(e: Sum, pre: nat, post: nat)

  /** A numeral with no spaces around it. */
  function Plain(ds: Numeral): Atom {
    Lit(ds, 0, 0)
  }

  /** A parenthesised sum with no spaces around it. */
  function Paren(e: Sum): Atom {
    Group(e, 0, 0)
  }

  function Spaces(k: nat): (sp: string)
    ensures |sp| == k && forall i :: 0 <= i < k ==> sp[i] == ' '
  {
    if k == 0 then "" else [' '] + Spaces(k - 1)
  }

  /** Reference meaning of a syntax tree: exact arithmetic, with a zero
      divisor giving `NonFinite`. Spaces mean nothing. */
  function SumValue(e: Sum): Num
    decreases e
  {
    match e
    case Lone(p) => ProductValue(p)
    case Sum(l, op, r) => Apply(op.Op(), SumValue(l), ProductValue(r))
  }

  function ProductValue(p: Product): Num
    decreases p
  {
    match p
    case Single(a) => AtomValue(a)
    case Product(l, op, r) => Apply(op.Op(), ProductValue(l), AtomValue(r))
  }

  function AtomValue(a: Atom): Num
    decreases a
  {
    match a
    case Lit(ds, _, _) => Real(DecimalValue(ds) as real)
    case Group(e, _, _) => SumValue(e)
  }

  /** The spaces printed before and after an atom: its own counts when the
      text is `spaced`, none otherwise. */
  function Before(a: Atom, spaced: bool): nat {
    if spaced then a.pre else 0
  }

  function After(a: Atom, spaced: bool): nat {
    if spaced then a.post else 0
  }

  /** The text of a tree; with `spaced`, every atom between its spaces. */
  function ShowSum(e: Sum, spaced: bool): string
    decreases e, 0
  {
    match e
    case Lone(p) => ShowProduct(p, spaced)
    case Sum(l, op, r) => ShowSum(l, spaced) + [op.Op().Symbol()] + ShowProduct(r, spaced)
  }

  function ShowProduct(p: Product, spaced: bool): string
    decreases p, 0
  {
    match p
    case Single(a) => ShowAtom(a, spaced)
    case Product(l, op, r) => ShowProduct(l, spaced) + [op.Op().Symbol()] + ShowAtom(r, spaced)
  }

  function ShowAtom(a: Atom, spaced: bool): string
    decreases a, 1
  {
    Spaces(Before(a, spaced)) + ShowCore(a, spaced) + Spaces(After(a, spaced))
  }

  /** The text of an atom without its surrounding spaces. */
  function ShowCore(a: Atom, spaced: bool): string
    decreases a, 0
  {
    match a
    case Lit(ds, _, _) => ds
    case Group(e, _, _) => "(" + ShowSum(e, spaced) + ")"
  }

  /** The text of a tree with no spaces at all. */
  function Show(e: Sum): string {
    ShowSum(e, false)
  }

  /** The length of the text of a tree, computed without building it. */
  function SumLen(e: Sum, spaced: bool): nat
    decreases e
  {
    match e
    case Lone(p) => ProductLen(p, spaced)
    case Sum(l, _, r) => SumLen(l, spaced) + 1 + ProductLen(r, spaced)
  }

  function ProductLen(p: Product, spaced: bool): nat
    decreases p
  {
    match p
    case Single(a) => AtomLen(a, spaced)
    case Product(l, _, r) => ProductLen(l, spaced) + 1 + AtomLen(r, spaced)
  }

  function AtomLen(a: Atom, spaced: bool): nat
    decreases a
  {
    match a
    case Lit(ds, _, _) => Before(a, spaced) + |ds| + After(a, spaced)
    case Group(e, _, _) => Before(a, spaced) + 1 + SumLen(e, spaced) + 1 + After(a, spaced)
  }

  /** The last atom of a product, and of a sum, at the top level. */
  function LastOfProduct(p: Product): Atom {
    if p.Single? then p.a else p.r
  }

  function LastOfSum(e: Sum): Atom {
    LastOfProduct(if e.Lone? then e.p else e.r)
  }

  /** What follows atom `a` at `j` cannot extend it: the atom ends with `)`
      or with spaces, or no digit comes next. */
  predicate Detached(a: Atom, spaced: bool, text: string, j: nat) {
    a.Group? || After(a, spaced) > 0 || NoDigitAt(text, j)
  }

  /** The same tree with `k` more spaces after its last atom. */
  function TrailSum(e: Sum, k: nat): Sum {
    match e
    case Lone(p) => Lone(TrailProduct(p, k))
    case Sum(l, op, r) => Sum(l, op, TrailProduct(r, k))
  }

  function TrailProduct(p: Product, k: nat): Product {
    match p
    case Single(a) => Single(TrailAtom(a, k))
    case Product(l, op, r) => Product(l, op, TrailAtom(r, k))
  }

  function TrailAtom(a: Atom, k: nat): Atom {
    a.(post := a.post + k)
  }

  /** `k` spaces are written in `text` at position `i`. */
  predicate SpacesAt(text: string, i: nat, k: nat)
    decreases k
  {
    i + k <= |text| && (k == 0 || (text[i] == ' ' && SpacesAt(text, i + 1, k - 1)))
  }

  /** The text of `e` is written in `text` at position `i`, stated position by
      position rather than by concatenation. */
  predicate SumAt(e: Sum, spaced: bool, text: string, i: nat)
    decreases e
  {
    && i + SumLen(e, spaced) <= |text|
    && match e
    case Lone(p) => ProductAt(p, spaced, text, i)
    case Sum(l, op, r) =>
      var k := i + SumLen(l, spaced);
      && SumAt(l, spaced, text, i)
      && k < |text| && text[k] == op.Op().Symbol()
      && ProductAt(r, spaced, text, k + 1)
  }

  predicate ProductAt(p: Product, spaced: bool, text: string, i: nat)
    decreases p
  {
    && i + ProductLen(p, spaced) <= |text|
    && match p
    case Single(a) => AtomAt(a, spaced, text, i)
    case Product(l, op, r) =>
      var k := i + ProductLen(l, spaced);
      && ProductAt(l, spaced, text, i)
      && k < |text| && text[k] == op.Op().Symbol()
      && AtomAt(r, spaced, text, k + 1)
  }

  predicate AtomAt(a: Atom, spaced: bool, text: string, i: nat)
    decreases a
  {
    var b := Before(a, spaced);
    && i + AtomLen(a, spaced) <= |text|
    && SpacesAt(text, i, b)
    && SpacesAt(text, i + AtomLen(a, spaced) - After(a, spaced), After(a, spaced))
    && match a
       case Lit(ds, _, _) => WrittenAt(ds, text, i + b)
       case Group(e, _, _) =>
         var k := i + b + 1 + SumLen(e, spaced);
         && i + b < |text| && text[i + b] == '('
         && SumAt(e, spaced, text, i + b + 1)
         && k < |text| && text[k] == ')'
  }

  /** The cursor is not at `+` or `-`, so `expr` cannot continue there. */
  predicate AtNoAddOp(text: string, pos: nat) {
    !At(text, pos, '+') && !At(text, pos, '-')
  }

  /** The cursor is not at `*` or `/`, so `term` cannot continue there. */
  predicate AtNoMulOp(text: string, pos: nat) {
    !At(text, pos, '*') && !At(text, pos, '/')
  }

  /** Where `l op r` is written, `l`, the operator and `r` are written in turn. */
  lemma SumAtParts(l: Sum, op: AddOp, r: Product, spaced: bool, text: string, i: nat)
    requires SumAt(Sum(l, op, r), spaced, text, i)
    ensures var k := i + SumLen(l, spaced);
            && SumAt(l, spaced, text, i)
            && k < |text| && text[k] == op.Op().Symbol() && (text[k] == '+' || text[k] == '-')
            && ProductAt(r, spaced, text, k + 1)
            && k + 1 + ProductLen(r, spaced) == i + SumLen(Sum(l, op, r), spaced)
  {
  }

  lemma ProductAtParts(l: Product, op: MulOp, r: Atom, spaced: bool, text: string, i: nat)
    requires ProductAt(Product(l, op, r), spaced, text, i)
    ensures var k := i + ProductLen(l, spaced);
            && ProductAt(l, spaced, text, i)
            && k < |text| && text[k] == op.Op().Symbol() && (text[k] == '*' || text[k] == '/')
            && AtomAt(r, spaced, text, k + 1)
            && k + 1 + AtomLen(r, spaced) == i + ProductLen(Product(l, op, r), spaced)
  {
  }

  lemma {:induction false} OccursSpaces(k: nat, text: string, i: nat)
    requires Occurs(Spaces(k), text, i)
    ensures SpacesAt(text, i, k)
    decreases k
  {
    if k > 0 {
      assert text[i] == text[i..i + k][0];
      assert Spaces(k) == [' '] + Spaces(k - 1);
      OccursSplit([' '], Spaces(k - 1), text, i);
      OccursSpaces(k - 1, text, i + 1);
    }
  }

  lemma {:induction false} SpacesAdd(m: nat, k: nat)
    ensures Spaces(m + k) == Spaces(m) + Spaces(k)
    decreases m
  {
    if m > 0 {
      SpacesAdd(m - 1, k);
    }
  }

  lemma {:induction false} ShowSumLen(e: Sum, spaced: bool)
    ensures |ShowSum(e, spaced)| == SumLen(e, spaced)
    decreases e
  {
    match e
    case Lone(p) => ShowProductLen(p, spaced);
    case Sum(l, _, r) => ShowSumLen(l, spaced); ShowProductLen(r, spaced);
  }

  lemma {:induction false} ShowProductLen(p: Product, spaced: bool)
    ensures |ShowProduct(p, spaced)| == ProductLen(p, spaced)
    decreases p
  {
    match p
    case Single(a) => ShowAtomLen(a, spaced);
    case Product(l, _, r) => ShowProductLen(l, spaced); ShowAtomLen(r, spaced);
  }

  lemma {:induction false} ShowAtomLen(a: Atom, spaced: bool)
    ensures |ShowAtom(a, spaced)| == AtomLen(a, spaced)
    decreases a
  {
    match a
    case Lit(_, _, _) =>
    case Group(e, _, _) => ShowSumLen(e, spaced);
  }

  /** Printing a tree with `k` more spaces after its last atom appends `k`
      spaces to its text. */
  lemma ShowTrailSum(e: Sum, k: nat)
    ensures ShowSum(TrailSum(e, k), true) == ShowSum(e, true) + Spaces(k)
  {
    var p := if e.Lone? then e.p else e.r;
    var a := LastOfProduct(p);
    SpacesAdd(a.post, k);
    assert ShowAtom(TrailAtom(a, k), true) == ShowAtom(a, true) + Spaces(k);
    if p.Product? {
      assert ShowProduct(TrailProduct(p, k), true) == ShowProduct(p, true) + Spaces(k);
    }
  }

  lemma OccursPadded(b: nat, core: string, c: nat, text: string, i: nat)
    requires Occurs(Spaces(b) + core + Spaces(c), text, i)
    ensures SpacesAt(text, i, b) && Occurs(core, text, i + b)
    ensures SpacesAt(text, i + b + |core|, c)
  {
    OccursSplit(Spaces(b) + core, Spaces(c), text, i);
    OccursSplit(Spaces(b), core, text, i);
    OccursSpaces(b, text, i);
    OccursSpaces(c, text, i + b + |core|);
  }

  /** Where the text of a tree occurs, the tree is written there position by
      position. */
  lemma {:induction false} ShowSumAt(e: Sum, spaced: bool, text: string, i: nat)
    requires Occurs(ShowSum(e, spaced), text, i)
    ensures SumAt(e, spaced, text, i)
    decreases e, 2
  {
    match e
    case Lone(p) =>
      ShowProductAt(p, spaced, text, i);
    case Sum(l, op, r) =>
      OccursInfix(ShowSum(l, spaced), op.Op().Symbol(), ShowProduct(r, spaced), text, i);
      ShowSumLen(l, spaced);
      ShowSumStep(l, op, r, spaced, text, i);
  }

  /** The inductive step of `ShowSumAt`, once the text is cut at the operator. */
  lemma {:induction false} ShowSumStep(l: Sum, op: AddOp, r: Product, spaced: bool, text: string, i: nat)
    requires var k := i + SumLen(l, spaced);
             && Occurs(ShowSum(l, spaced), text, i)
             && k < |text| && text[k] == op.Op().Symbol()
             && Occurs(ShowProduct(r, spaced), text, k + 1)
    ensures SumAt(Sum(l, op, r), spaced, text, i)
    decreases Sum(l, op, r), 1
  {
    var k := i + SumLen(l, spaced);
    ShowSumAt(l, spaced, text, i);
    ShowProductAt(r, spaced, text, k + 1);
    ShowProductLen(r, spaced);
  }

  lemma {:induction false} ShowProductAt(p: Product, spaced: bool, text: string, i: nat)
    requires Occurs(ShowProduct(p, spaced), text, i)
    ensures ProductAt(p, spaced, text, i)
    decreases p, 2
  {
    match p
    case Single(a) =>
      ShowAtomAt(a, spaced, text, i);
    case Product(l, op, r) =>
      OccursInfix(ShowProduct(l, spaced), op.Op().Symbol(), ShowAtom(r, spaced), text, i);
      ShowProductLen(l, spaced);
      ShowProductStep(l, op, r, spaced, text, i);
  }

  /** The inductive step of `ShowProductAt`, once the text is cut at the
      operator. */
  lemma {:induction false} ShowProductStep(l: Product, op: MulOp, r: Atom, spaced: bool, text: string, i: nat)
    requires var k := i + ProductLen(l, spaced);
             && Occurs(ShowProduct(l, spaced), text, i)
             && k < |text| && text[k] == op.Op().Symbol()
             && Occurs(ShowAtom(r, spaced), text, k + 1)
    ensures ProductAt(Product(l, op, r), spaced, text, i)
    decreases Product(l, op, r), 1
  {
    var k := i + ProductLen(l, spaced);
    ShowProductAt(l, spaced, text, i);
    ShowAtomAt(r, spaced, text, k + 1);
    ShowAtomLen(r, spaced);
  }

  lemma {:induction false} ShowAtomAt(a: Atom, spaced: bool, text: string, i: nat)
    requires Occurs(ShowAtom(a, spaced), text, i)
    ensures AtomAt(a, spaced, text, i)
    decreases a, 0
  {
    var b := Before(a, spaced);
    OccursPadded(b, ShowCore(a, spaced), After(a, spaced), text, i);
    ShowAtomLen(a, spaced);
    match a
    case Lit(ds, _, _) =>
      OccursWritten(ds, text, i + b);
    case Group(e, _, _) =>
      ShowGroupAt(e, spaced, text, i + b);
  }

  lemma {:induction false} ShowGroupAt(e: Sum, spaced: bool, text: string, j: nat)
    requires Occurs("(" + ShowSum(e, spaced) + ")", text, j)
    ensures j < |text| && text[j] == '('
    ensures SumAt(e, spaced, text, j + 1)
    ensures j + 1 + SumLen(e, spaced) < |text| && text[j + 1 + SumLen(e, spaced)] == ')'
    decreases e, 3
  {
    OccursSplit("(" + ShowSum(e, spaced), ")", text, j);
    OccursSplit("(", ShowSum(e, spaced), text, j);
    ShowSumLen(e, spaced);
    ShowSumAt(e, spaced, text, j + 1);
  }

  /** The tree of "2*(4/(6-8))", shared by the examples of both evaluators. */
  function NestedTree(): Sum {
    var inner := Paren(Sum(Lone(Single(Plain("6"))), Sub, Single(Plain("8"))));
    Lone(Product(Single(Plain("2")), Mul, Paren(Lone(Product(Single(Plain("4")), Div, inner)))))
  }

  lemma NestedText()
    ensures ShowSum(NestedTree(), false) == "2*(4/(6-8))"
    ensures ShowSum(NestedTree(), true) == "2*(4/(6-8))"
  {
    var inner := Paren(Sum(Lone(Single(Plain("6"))), Sub, Single(Plain("8"))));
    assert Spaces(0) == "";
    assert ShowAtom(inner, false) == "(6-8)";
    assert ShowAtom(inner, true) == "(6-8)";
  }
}
