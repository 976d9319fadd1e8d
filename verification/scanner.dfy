/** The cursor shared by the three recursive-descent evaluators, and their
    `number` reader. The three source versions declare identical copies of
    `Source`, `isDigit` and `number` (the oldest one also logs each digit).

    A `Source` holds the input text and a read position, and only the
    position ever changes; the model therefore threads the text and the
    position as two separate arguments, and every reader returns the
    position where it stopped. */
module Scanner {
  import opened Numbers

  /** The character under the cursor is `c`. Past the end `peek` yields
      nothing, which equals no character. */
  predicate At(text: string, pos: nat, c: char) {
    pos < |text| && text[pos] == c
  }

  /** The regular expression `^\d+$` on one character: an ASCII decimal digit. */
  predicate IsDigit(c: char) {
    '0' <= c <= '9'
  }

  /** `isDigit(source.peek())`; `null` is not a digit. */
  predicate DigitAt(text: string, pos: nat) {
    pos < |text| && IsDigit(text[pos])
  }

  predicate AllDigits(s: string) {
    forall i :: 0 <= i < |s| ==> IsDigit(s[i])
  }

  /** A non-empty string of decimal digits, as written in the input. */
  type Numeral = ds: string | ds != [] && AllDigits(ds) witness "0"

  function DigitValue(c: char): nat
    requires IsDigit(c)
  {
    (c as int - '0' as int) as nat
  }

  /** The decimal value of a digit string, read left to right. */
  function DecimalValue(ds: string): nat
    requires AllDigits(ds)
  {
    if ds == [] then 0
    else 10 * DecimalValue(ds[..|ds| - 1]) + DigitValue(ds[|ds| - 1])
  }

  /** The decimal rendering of a natural number, with no leading zeros. */
  function Digits(n: nat): (ds: string)
    ensures |ds| >= 1 && AllDigits(ds)
  {
    if n < 10 then ['0' + n as char]
    else Digits(n / 10) + ['0' + (n % 10) as char]
  }

  /** The digit characters are exactly the renderings of the numbers below
      ten, each the rendering of its own value. */
  lemma DigitIsRendering(c: char)
    ensures IsDigit(c) <==> exists n: nat :: n < 10 && Digits(n) == [c]
    ensures IsDigit(c) ==> Digits(DigitValue(c)) == [c]
  {
    if IsDigit(c) {
      assert Digits(DigitValue(c)) == [c];
    }
  }

  /** `parseInt` on the token `number` builds: NaN for the empty token,
      otherwise the decimal value of its digits. */
  function ParseInt(token: string): (v: Num)
    requires AllDigits(token)
    ensures v.NaN? <==> token == []
    ensures v.Real? ==> v.r == DecimalValue(token) as real && v.r >= 0.0
  {
    if token == [] then NaN else Real(DecimalValue(token) as real)
  }

  /** A reader's result: the value read and the position where it stopped. */
  datatype Reading = Reading(value: Num, pos: nat)

  /** The loop of `number` that advances while a digit is under the cursor:
      where the run of digits that starts at `pos` ends. */
  function DigitsEnd(text: string, pos: nat): (e: nat)
    requires pos <= |text|
    ensures pos <= e <= |text| && !DigitAt(text, e)
    decreases |text| - pos
  {
    if DigitAt(text, pos) then DigitsEnd(text, pos + 1) else pos
  }

  /** The `token` that the loop of `number` builds, one digit at a time (for
      a digit character `parseInt(char)` renders back as that character). */
  function Token(text: string, pos: nat): (t: string)
    requires pos <= |text|
    ensures AllDigits(t)
    decreases |text| - pos
  {
    if DigitAt(text, pos) then [text[pos]] + Token(text, pos + 1) else []
  }

  /** The token is exactly the run of digits the cursor skips. */
  lemma {:induction false} TokenIsRun(text: string, pos: nat)
    requires pos <= |text|
    ensures Token(text, pos) == text[pos..DigitsEnd(text, pos)]
    decreases |text| - pos
  {
    if DigitAt(text, pos) {
      TokenIsRun(text, pos + 1);
      assert text[pos..DigitsEnd(text, pos)] == [text[pos]] + text[pos + 1..DigitsEnd(text, pos)];
    }
  }

  /** `number`: the digits at the cursor become the token, which `parseInt`
      turns into the value; the cursor stops after them. */
  function Number(text: string, pos: nat): (r: Reading)
    requires pos <= |text|
    ensures r.pos == DigitsEnd(text, pos)
    ensures r.value.NaN? <==> r.pos == pos
    ensures !r.value.NonFinite?
    ensures r.value.Real? ==> r.value.r >= 0.0 && r.value.r.Floor as real == r.value.r
  {
    TokenIsRun(text, pos);
    Reading(ParseInt(Token(text, pos)), DigitsEnd(text, pos))
  }

  lemma {:induction false} DecimalValueOfDigits(n: nat)
    ensures DecimalValue(Digits(n)) == n
    decreases n
  {
    if n >= 10 {
      var ds := Digits(n);
      assert ds[..|ds| - 1] == Digits(n / 10);
      DecimalValueOfDigits(n / 10);
    }
  }

  /** `w` occurs in `text` at position `i`. */
  predicate Occurs(w: string, text: string, i: nat) {
    i + |w| <= |text| && text[i..i + |w|] == w
  }

  lemma OccursSplit(a: string, b: string, text: string, i: nat)
    requires Occurs(a + b, text, i)
    ensures Occurs(a, text, i) && Occurs(b, text, i + |a|)
  {
    assert text[i..i + |a|] == (a + b)[..|a|];
    assert text[i + |a|..i + |a| + |b|] == (a + b)[|a|..];
  }

  /** Where `a c b` occurs, `a`, the character `c` and `b` occur in turn. */
  lemma OccursInfix(a: string, c: char, b: string, text: string, i: nat)
    requires Occurs(a + [c] + b, text, i)
    ensures Occurs(a, text, i) && i + |a| < |text| && text[i + |a|] == c
    ensures Occurs(b, text, i + |a| + 1)
  {
    OccursSplit(a + [c], b, text, i);
    OccursSplit(a, [c], text, i);
  }

  /** `w` is written in `text` from position `i`, character by character. */
  predicate WrittenAt(w: string, text: string, i: nat) {
    i + |w| <= |text| && forall m :: 0 <= m < |w| ==> text[i + m] == w[m]
  }

  lemma OccursWritten(w: string, text: string, i: nat)
    requires Occurs(w, text, i)
    ensures WrittenAt(w, text, i)
  {
    forall m | 0 <= m < |w|
      ensures text[i + m] == w[m]
    {
      assert text[i..i + |w|][m] == w[m];
    }
  }

  /** The text ends, or does not continue with a digit, at position `j`. */
  predicate NoDigitAt(text: string, j: nat) {
    !DigitAt(text, j)
  }

  /** The run of digits at `pos` ends at `end` when every character before
      `end` is a digit and the one at `end` is not. */
  lemma {:induction false} DigitsEndAt(text: string, pos: nat, end: nat)
    requires pos <= end <= |text| && NoDigitAt(text, end)
    requires forall j :: pos <= j < end ==> DigitAt(text, j)
    ensures DigitsEnd(text, pos) == end
    decreases end - pos
  {
    if pos < end {
      DigitsEndAt(text, pos + 1, end);
    }
  }

  /** `number` reads a numeral back as its decimal value when the text after
      it does not continue with a digit. */
  lemma NumberReadsNumeral(ds: Numeral, text: string, i: nat)
    requires WrittenAt(ds, text, i) && NoDigitAt(text, i + |ds|)
    ensures Number(text, i) == Reading(Real(DecimalValue(ds) as real), i + |ds|)
  {
    var end := i + |ds|;
    forall j | i <= j < end
      ensures DigitAt(text, j)
    {
      assert text[j] == ds[j - i];
    }
    DigitsEndAt(text, i, end);
    TokenIsRun(text, i);
    assert text[i..end] == ds;
  }

  /** Round trip: `number` reads back exactly the rendering of `n` when the
      text after it does not continue with a digit. */
  lemma NumberReadsDigits(n: nat, text: string, i: nat)
    requires WrittenAt(Digits(n), text, i) && NoDigitAt(text, i + |Digits(n)|)
    ensures Number(text, i) == Reading(Real(n as real), i + |Digits(n)|)
  {
    NumberReadsNumeral(Digits(n), text, i);
    DecimalValueOfDigits(n);
  }
}
