/** The parser-combinator kernel (ArithmeticParser/parser_combinator/src/main.ts).

    A parser there is a closure over a mutable `Source`; here it is a value of
    the datatype `Parser`, and `Run` is the interpreter that the closures
    `satisfy`, `sequence` and `many` stand for. A parser stops in one of three
    ways: it returns a value and the cursor, it throws `Error("Not satisfy")`
    (with the cursor wherever it was left, since nothing rolls it back), or,
    for `many`, it may never stop. The last case is modelled with fuel: every
    turn of a `many` loop spends one unit, and a run that spends all its fuel
    reports `OutOfFuel`. A parser diverges exactly when it reports
    `OutOfFuel` for every amount of fuel. */
module Combinators {
  import opened Numbers
  import Scanner

  /** What `peek` returns: the source character under the cursor, or
      `undefined` once the cursor is at or past the end. */
  datatype Peeked = Char(c: char) | Past

  /** What a parser returns: a string, or the `undefined` that `satisfy`
      returns when it accepts the end of the input. */
  datatype Value = Str(s: string) | Undefined

  /** How a run ends. `Fail` is the thrown `Error("Not satisfy")`, with the
      position the cursor was left at. */
  datatype Reply = Ok(value: Value, pos: nat) | Fail(pos: nat) | OutOfFuel

  datatype Parser =
    | Satisfy(f: Peeked -> bool)
    | Sequence(ps: seq<Parser>)
    | Many(p: Parser)

  /** `peek`: the character under the cursor, or `Past` at or past the end. */
  function Peek(text: string, pos: nat): (x: Peeked)
    ensures x.Char? <==> pos < |text|
    ensures x.Char? ==> x.c == text[pos]
  {
    if pos < |text| then Char(text[pos]) else Past
  }

  /** The value `satisfy` returns for what it peeked: the character itself
      (a one-character string), or `undefined`. */
  function Returned(x: Peeked): (v: Value)
    ensures v.Str? <==> x.Char?
  {
    match x
    case Char(c) => Str([c])
    case Past => Undefined
  }

  /** `result += v`: JavaScript string concatenation renders `undefined` as
      the word "undefined". */
  function Render(v: Value): (s: string)
    ensures v.Str? ==> s == v.s
    ensures v.Undefined? ==> s == "undefined"
  {
    match v
    case Str(s) => s
    case Undefined => "undefined"
  }

  /** `parseInt` applied to what `peek` returned. Past the end the argument is
      `undefined`, whose string form "undefined" has no leading digits. For
      one character: a decimal digit reads as its value; anything else
      (a blank is stripped first, leaving nothing) reads as NaN. */
  function ParseIntOf(x: Peeked): (v: Num)
    ensures !v.NonFinite?
    ensures v.Real? <==> x.Char? && Scanner.IsDigit(x.c)
    ensures v.Real? ==> 0.0 <= v.r < 10.0 && v.r.Floor as real == v.r
    ensures v.Real? ==> Scanner.Digits(v.r.Floor) == [x.c]
  {
    if x.Char? && Scanner.IsDigit(x.c) then
      Scanner.DigitIsRendering(x.c);
      Real(Scanner.DigitValue(x.c) as real)
    else NaN
  }

  /** `isDigit`: the peeked value parses to an integer. */
  function IsDigit(x: Peeked): (b: bool)
    ensures b <==> x.Char? && Scanner.IsDigit(x.c)
  {
    ParseIntOf(x).Real?
  }

  /** `isLetter`: the peeked value parses to NaN. Anything that is not a digit
      counts, including the end of the input. */
  function IsLetter(x: Peeked): (b: bool)
    ensures b <==> !IsDigit(x)
    ensures x.Past? ==> b
  {
    ParseIntOf(x).NaN?
  }

  /** `anyChar`: a predicate that is always true, even past the end. */
  const AnyChar: Parser := Satisfy(x => true)
  const Letter: Parser := Satisfy(IsLetter)
  const Digit: Parser := Satisfy(IsDigit)

  /** `char(ch)`: the peeked value is strictly equal to `ch`. `undefined`
      equals no string, and a peeked character, a one-character string,
      equals `ch` only when `ch` is that same single character. */
  function CharIs(ch: string): (p: Parser)
    ensures p.Satisfy?
    ensures forall x: Peeked :: p.f(x) <==> |ch| == 1 && x == Char(ch[0])
  {
    Satisfy((x: Peeked) => x.Char? && [x.c] == ch)
  }

  /** The interpreter. The cursor never moves back; `satisfy` moves it by
      exactly one when it accepts and not at all when it throws; and `many`
      never throws. */
  function Run(p: Parser, text: string, pos: nat, fuel: nat): (r: Reply)
    ensures r.Ok? ==> r.pos >= pos
    ensures r.Fail? ==> r.pos >= pos
    ensures p.Satisfy? ==> (r.Ok? ==> r.pos == pos + 1) && (r.Fail? ==> r.pos == pos)
    ensures p.Satisfy? ==> (r.Ok? <==> p.f(Peek(text, pos))) && !r.OutOfFuel?
    ensures p.Satisfy? && r.Ok? ==> r.value == Returned(Peek(text, pos))
    ensures !p.Satisfy? && r.Ok? ==> r.value.Str?
    ensures p.Many? ==> !r.Fail?
    decreases fuel, p, 1, 0
  {
    match p
    case Satisfy(f) =>
      var ch := Peek(text, pos);
      if !f(ch) then Fail(pos) else Ok(Returned(ch), pos + 1)
    case Sequence(ps) =>
      RunSequence(ps, 0, text, pos, "", fuel)
    case Many(q) =>
      RunMany(q, text, pos, "", fuel)
  }

  /** The `for` loop of `sequence` from its `i`-th parser on, with `acc` the
      result so far. The first parser that throws ends it with that throw. */
  function RunSequence(ps: seq<Parser>, i: nat, text: string, pos: nat, acc: string, fuel: nat): (r: Reply)
    requires i <= |ps|
    ensures r.Ok? ==> r.pos >= pos && r.value.Str?
    ensures r.Fail? ==> r.pos >= pos
    decreases fuel, Sequence(ps), 0, |ps| - i
  {
    if i == |ps| then Ok(Str(acc), pos)
    else
      match Run(ps[i], text, pos, fuel)
      case Ok(v, q) => RunSequence(ps, i + 1, text, q, acc + Render(v), fuel)
      case Fail(q) => Fail(q)
      case OutOfFuel => OutOfFuel
  }

  /** The `while (true)` loop of `many(q)`, with `acc` the result so far: the
      first throw of `q` is caught and ends the loop, returning `acc` with the
      cursor where `q` left it. Each turn spends one unit of fuel. */
  function RunMany(q: Parser, text: string, pos: nat, acc: string, fuel: nat): (r: Reply)
    ensures r.Ok? ==> r.pos >= pos && r.value.Str?
    ensures !r.Fail?
    decreases fuel, Many(q), 0, 0
  {
    if fuel == 0 then OutOfFuel
    else
      match Run(q, text, pos, fuel - 1)
      case Ok(v, p) => RunMany(q, text, p, acc + Render(v), fuel - 1)
      case Fail(p) => Ok(Str(acc), p)
      case OutOfFuel => OutOfFuel
  }

  /** A run that stops within some fuel stops, with the same reply, within
      any larger fuel: fuel only cuts off runs that would go on. */
  lemma {:induction false} RunFuel(p: Parser, text: string, pos: nat, fuel: nat, more: nat)
    requires fuel <= more && !Run(p, text, pos, fuel).OutOfFuel?
    ensures Run(p, text, pos, more) == Run(p, text, pos, fuel)
    decreases fuel, p, 1, 0
  {
    match p
    case Satisfy(_) =>
    case Sequence(ps) =>
      RunSequenceFuel(ps, 0, text, pos, "", fuel, more);
    case Many(q) =>
      RunManyFuel(q, text, pos, "", fuel, more);
  }

  lemma {:induction false} RunSequenceFuel(ps: seq<Parser>, i: nat, text: string, pos: nat, acc: string, fuel: nat, more: nat)
    requires i <= |ps| && fuel <= more && !RunSequence(ps, i, text, pos, acc, fuel).OutOfFuel?
    ensures RunSequence(ps, i, text, pos, acc, more) == RunSequence(ps, i, text, pos, acc, fuel)
    decreases fuel, Sequence(ps), 0, |ps| - i
  {
    if i < |ps| {
      RunFuel(ps[i], text, pos, fuel, more);
      match Run(ps[i], text, pos, fuel)
      case Ok(v, q) =>
        RunSequenceFuel(ps, i + 1, text, q, acc + Render(v), fuel, more);
      case Fail(_) =>
    }
  }

  lemma {:induction false} RunManyFuel(q: Parser, text: string, pos: nat, acc: string, fuel: nat, more: nat)
    requires fuel <= more && !RunMany(q, text, pos, acc, fuel).OutOfFuel?
    ensures RunMany(q, text, pos, acc, more) == RunMany(q, text, pos, acc, fuel)
    decreases fuel, Many(q), 0, 0
  {
    RunFuel(q, text, pos, fuel - 1, more - 1);
    match Run(q, text, pos, fuel - 1)
    case Ok(v, p) =>
      RunManyFuel(q, text, p, acc + Render(v), fuel - 1, more - 1);
    case Fail(_) =>
  }

  /** A parser that never throws (such as `anyChar`, or any `many`) makes
      `many` loop forever: no amount of fuel is enough. */
  lemma {:induction false} ManyOfNeverFailing(q: Parser, text: string, pos: nat, acc: string, fuel: nat)
    requires forall t: string, n: nat, f: nat :: !Run(q, t, n, f).Fail?
    ensures RunMany(q, text, pos, acc, fuel) == OutOfFuel
    decreases fuel
  {
    if fuel > 0 {
      match Run(q, text, pos, fuel - 1)
      case Ok(v, p) => ManyOfNeverFailing(q, text, p, acc + Render(v), fuel - 1);
      case OutOfFuel =>
    }
  }

  /** `many(anyChar)` never returns, whatever the input: once the input is
      used up, `anyChar` keeps accepting `undefined`. */
  lemma ManyAnyCharDiverges(text: string, pos: nat, fuel: nat)
    ensures Run(Many(AnyChar), text, pos, fuel) == OutOfFuel
  {
    ManyOfNeverFailing(AnyChar, text, pos, "", fuel);
  }

  /** `many(many(p))` never returns either: the inner `many` never throws. */
  lemma ManyManyDiverges(p: Parser, text: string, pos: nat, fuel: nat)
    ensures Run(Many(Many(p)), text, pos, fuel) == OutOfFuel
  {
    ManyOfNeverFailing(Many(p), text, pos, "", fuel);
  }

  /** `many(letter)` never returns when no digit comes at or after the
      cursor: `letter` accepts every other character and then `undefined`,
      and the cursor moves further and further past the end. */
  lemma {:induction false} ManyLetterDiverges(text: string, pos: nat, acc: string, fuel: nat)
    requires forall j :: pos <= j < |text| ==> !Scanner.IsDigit(text[j])
    ensures RunMany(Letter, text, pos, acc, fuel) == OutOfFuel
    decreases fuel
  {
    if fuel > 0 {
      var x := Peek(text, pos);
      assert Run(Letter, text, pos, fuel - 1) == Ok(Returned(x), pos + 1);
      ManyLetterDiverges(text, pos + 1, acc + Render(Returned(x)), fuel - 1);
    }
  }

  /** Conversely, with a digit at `j`, `many(letter)` returns once its fuel
      covers the turns up to there: it stops at a digit, at the latest the
      one at `j`. */
  lemma {:induction false} ManyLetterStops(text: string, pos: nat, j: nat, acc: string, fuel: nat)
    requires pos <= j && Scanner.DigitAt(text, j) && fuel > j - pos
    ensures RunMany(Letter, text, pos, acc, fuel).Ok?
    ensures Scanner.DigitAt(text, RunMany(Letter, text, pos, acc, fuel).pos)
    decreases j - pos
  {
    var x := Peek(text, pos);
    if IsLetter(x) {
      assert Run(Letter, text, pos, fuel - 1) == Ok(Returned(x), pos + 1);
      ManyLetterStops(text, pos + 1, j, acc + Render(Returned(x)), fuel - 1);
    } else {
      assert Run(Letter, text, pos, fuel - 1) == Fail(pos);
    }
  }

  /** `digit` reads one digit, and throws without moving anywhere else. */
  lemma DigitReads(text: string, pos: nat, fuel: nat)
    ensures Run(Digit, text, pos, fuel) ==
              if Scanner.DigitAt(text, pos) then Ok(Str([text[pos]]), pos + 1) else Fail(pos)
  {
  }

  /** `anyChar` returns what `peek` gives and advances by one, on any input:
      past the end it returns `undefined` and still moves. */
  lemma AnyCharReads(text: string, pos: nat, fuel: nat)
    ensures Run(AnyChar, text, pos, fuel) == Ok(Returned(Peek(text, pos)), pos + 1)
    ensures pos >= |text| ==> Run(AnyChar, text, pos, fuel).value.Undefined?
  {
  }

  /** `n` copies of `anyChar`, the parsers of `sequence(anyChar, ...)`. */
  function AnyChars(n: nat): (ps: seq<Parser>)
    ensures |ps| == n && forall k :: 0 <= k < n ==> ps[k] == AnyChar
  {
    seq(n, k => AnyChar)
  }

  /** From its `i`-th `anyChar` on, the `sequence` loop appends the next
      `n - i` characters of the text, one `peek` and `next` per turn. */
  lemma {:induction false} AnyCharsLoop(n: nat, i: nat, text: string, pos: nat, acc: string, fuel: nat)
    requires i <= n && pos + (n - i) <= |text|
    ensures RunSequence(AnyChars(n), i, text, pos, acc, fuel) ==
              Ok(Str(acc + text[pos..pos + (n - i)]), pos + (n - i))
    decreases n - i
  {
    if i < n {
      AnyCharReads(text, pos, fuel);
      assert Render(Returned(Peek(text, pos))) == [text[pos]];
      AnyCharsLoop(n, i + 1, text, pos + 1, acc + [text[pos]], fuel);
      assert acc + [text[pos]] + text[pos + 1..pos + (n - i)] == acc + text[pos..pos + (n - i)];
    }
  }

  /** `peek` and `next` walk the text: `sequence` of `n` `anyChar`s reads back
      exactly the `n` characters from the cursor on, while they lie inside
      the text, and leaves the cursor right after them. */
  lemma AnyCharsReadText(text: string, pos: nat, n: nat, fuel: nat)
    requires pos + n <= |text|
    ensures Run(Sequence(AnyChars(n)), text, pos, fuel) == Ok(Str(text[pos..pos + n]), pos + n)
  {
    AnyCharsLoop(n, 0, text, pos, "", fuel);
    assert "" + text[pos..pos + n] == text[pos..pos + n];
  }

  /** `letter` throws in place at a digit; it returns any other character,
      and `undefined` at or past the end, advancing by one. */
  lemma LetterReads(text: string, pos: nat, fuel: nat)
    ensures Run(Letter, text, pos, fuel) ==
              if Scanner.DigitAt(text, pos) then Fail(pos) else Ok(Returned(Peek(text, pos)), pos + 1)
  {
  }

  /** `result += peek()`: appending what `satisfy` returned adds the
      character under the cursor inside the text, and the word "undefined"
      past its end. */
  lemma RenderReturned(text: string, pos: nat)
    ensures Render(Returned(Peek(text, pos))) ==
              if pos < |text| then text[pos..pos + 1] else "undefined"
  {
  }

  /** `many(digit)` from `pos` returns exactly the token that the evaluators'
      `number` builds there, and stops where `number` stops, once the fuel
      covers one turn per digit plus the final throw. */
  lemma {:induction false} ManyDigitReadsToken(text: string, pos: nat, acc: string, fuel: nat)
    requires pos <= |text| && fuel > Scanner.DigitsEnd(text, pos) - pos
    ensures RunMany(Digit, text, pos, acc, fuel) ==
              Ok(Str(acc + Scanner.Token(text, pos)), Scanner.DigitsEnd(text, pos))
    decreases |text| - pos
  {
    DigitReads(text, pos, fuel - 1);
    if Scanner.DigitAt(text, pos) {
      ManyDigitReadsToken(text, pos + 1, acc + [text[pos]], fuel - 1);
      assert acc + [text[pos]] + Scanner.Token(text, pos + 1) == acc + Scanner.Token(text, pos);
    }
  }

  /** So `many(digit)` returns the longest run of digits at the cursor. */
  lemma ManyDigitLongestRun(text: string, pos: nat, fuel: nat)
    requires pos <= |text| && fuel > Scanner.DigitsEnd(text, pos) - pos
    ensures var e := Scanner.DigitsEnd(text, pos);
            Run(Many(Digit), text, pos, fuel) == Ok(Str(text[pos..e]), e)
  {
    ManyDigitReadsToken(text, pos, "", fuel);
    Scanner.TokenIsRun(text, pos);
    assert "" + Scanner.Token(text, pos) == Scanner.Token(text, pos);
  }

  /** `Prefix(a, r)`: the reply `r` with `a` written before its value. */
  function Prefix(a: string, r: Reply): Reply {
    if r.Ok? then Ok(Str(a + Render(r.value)), r.pos) else r
  }

  /** The loop of `sequence` only appends to its accumulator. */
  lemma {:induction false} RunSequenceAcc(ps: seq<Parser>, i: nat, text: string, pos: nat, acc: string, fuel: nat)
    requires i <= |ps|
    ensures RunSequence(ps, i, text, pos, acc, fuel) == Prefix(acc, RunSequence(ps, i, text, pos, "", fuel))
    decreases |ps| - i
  {
    if i == |ps| {
      assert acc + "" == acc;
    } else {
      match Run(ps[i], text, pos, fuel)
      case Ok(v, q) =>
        RunSequenceAcc(ps, i + 1, text, q, acc + Render(v), fuel);
        RunSequenceAcc(ps, i + 1, text, q, "" + Render(v), fuel);
        assert "" + Render(v) == Render(v);
        var rest := RunSequence(ps, i + 1, text, q, "", fuel);
        if rest.Ok? {
          assert acc + Render(v) + Render(rest.value) == acc + (Render(v) + Render(rest.value));
        }
      case Fail(_) =>
      case OutOfFuel =>
    }
  }

  /** `sequence(p, ps...)`: `p` runs first; if it returns, the rest runs from
      where it stopped and its result is appended to `p`'s; if it throws, the
      whole sequence throws there, with no rollback of the cursor. */
  lemma SequenceCons(p: Parser, ps: seq<Parser>, text: string, pos: nat, fuel: nat)
    ensures Run(Sequence([p] + ps), text, pos, fuel) ==
              match Run(p, text, pos, fuel)
              case Ok(v, q) => Prefix(Render(v), Run(Sequence(ps), text, q, fuel))
              case Fail(q) => Fail(q)
              case OutOfFuel => OutOfFuel
  {
    var all := [p] + ps;
    match Run(p, text, pos, fuel)
    case Ok(v, q) =>
      RunSequenceShift(p, ps, 1, text, q, "" + Render(v), fuel);
      RunSequenceAcc(ps, 0, text, q, "" + Render(v), fuel);
      assert "" + Render(v) == Render(v);
    case Fail(_) =>
    case OutOfFuel =>
  }

  /** Running `[p] + ps` from index `i >= 1` is running `ps` from `i - 1`. */
  lemma {:induction false} RunSequenceShift(p: Parser, ps: seq<Parser>, i: nat, text: string, pos: nat, acc: string, fuel: nat)
    requires 1 <= i <= |ps| + 1
    ensures RunSequence([p] + ps, i, text, pos, acc, fuel) == RunSequence(ps, i - 1, text, pos, acc, fuel)
    decreases |ps| + 1 - i
  {
    if i <= |ps| {
      assert ([p] + ps)[i] == ps[i - 1];
      match Run(ps[i - 1], text, pos, fuel)
      case Ok(v, q) => RunSequenceShift(p, ps, i + 1, text, q, acc + Render(v), fuel);
      case Fail(_) =>
      case OutOfFuel =>
    }
  }

  /** `sequence()` with no parsers returns "" and does not move. */
  lemma SequenceEmpty(text: string, pos: nat, fuel: nat)
    ensures Run(Sequence([]), text, pos, fuel) == Ok(Str(""), pos)
  {
  }

  /** The loop of `many` only appends to its accumulator. */
  lemma {:induction false} RunManyAcc(q: Parser, text: string, pos: nat, acc: string, fuel: nat)
    ensures RunMany(q, text, pos, acc, fuel) == Prefix(acc, RunMany(q, text, pos, "", fuel))
    decreases fuel
  {
    if fuel > 0 {
      match Run(q, text, pos, fuel - 1)
      case Ok(v, p) =>
        RunManyAcc(q, text, p, acc + Render(v), fuel - 1);
        RunManyAcc(q, text, p, "" + Render(v), fuel - 1);
        assert "" + Render(v) == Render(v);
        var rest := RunMany(q, text, p, "", fuel - 1);
        if rest.Ok? {
          assert acc + Render(v) + Render(rest.value) == acc + (Render(v) + Render(rest.value));
        }
      case Fail(_) =>
        assert acc + "" == acc;
      case OutOfFuel =>
    }
  }

  /** `many(q)`: `q` runs first; if it returns, `many(q)` goes on from where
      it stopped and its result is appended to `q`'s; if it throws, `many(q)`
      returns "" with the cursor where the throw left it. */
  lemma ManyUnfold(q: Parser, text: string, pos: nat, fuel: nat)
    requires fuel > 0
    ensures Run(Many(q), text, pos, fuel) ==
              match Run(q, text, pos, fuel - 1)
              case Ok(v, p) => Prefix(Render(v), Run(Many(q), text, p, fuel - 1))
              case Fail(p) => Ok(Str(""), p)
              case OutOfFuel => OutOfFuel
  {
    match Run(q, text, pos, fuel - 1)
    case Ok(v, p) =>
      RunManyAcc(q, text, p, "" + Render(v), fuel - 1);
      assert "" + Render(v) == Render(v);
    case Fail(_) =>
    case OutOfFuel =>
  }

  /** `many(satisfy(f))` stops when `f` rejects the end of input (as `digit`
      and `char(c)` do): every accepted character moves the cursor one place
      towards the end, where `f` throws. One turn per remaining character,
      plus the final throw, is always enough fuel. */
  lemma {:induction false} ManySatisfyStops(f: Peeked -> bool, text: string, pos: nat, acc: string)
    requires pos <= |text| && !f(Past)
    ensures RunMany(Satisfy(f), text, pos, acc, |text| - pos + 1).Ok?
    decreases |text| - pos
  {
    var q := Satisfy(f);
    if Run(q, text, pos, |text| - pos).Ok? {
      assert Peek(text, pos) != Past;
      ManySatisfyStops(f, text, pos + 1, acc + Render(Returned(Peek(text, pos))));
    }
  }

  /** `char(ch)` accepts exactly a character equal to `ch`, which must be a
      one-character string, and never the end of input. */
  lemma CharAccepts(ch: string, text: string, pos: nat, fuel: nat)
    ensures Run(CharIs(ch), text, pos, fuel).Ok? <==> pos < |text| && ch == [text[pos]]
  {
  }
}
