# Arithmetic parsers: a Dafny model

This project models the small TypeScript parsing experiments of the
`ArithmeticParser` repository and proves what they compute.

- **A parser-combinator kernel** (`ArithmeticParser/parser_combinator/src/main.ts`).
  It has a `Source` cursor and the primitive `satisfy`. The combinators are
  `sequence` and `many`. The derived matchers are `anyChar`, `letter`,
  `digit` and `char`.
- **Three recursive-descent evaluators**, each a later version of the last:
  - `ArithmeticParser/main.ts` reads numbers joined by `+`.
  - `ArithmeticParser/src/main.ts` adds `- * /` and parentheses. The unit
    tests run against this version.
  - `ArithmeticParser/recursive_descent/src/main.ts` adds two things.
    `factor` skips spaces, and a zero divisor throws `ZeroDivisionError`.

The mutable cursor becomes a value. Every reader takes the text and a
position, and returns what it read together with the position where it
stopped. Numbers are exact rationals (`real`) plus two special values:
- `NaN` is `parseInt("")`, which a factor with no digits yields.
- `NonFinite` is the result of an unguarded division by zero.

A combinator parser is a value of the datatype `Combinators.Parser`, which
`Combinators.Run` interprets. A thrown `Error("Not satisfy")` becomes
`Fail(pos)`. It keeps the position where the cursor was left, since nothing
rolls the cursor back. A `many` loop spends one unit of fuel per turn. A
parser that reports `OutOfFuel` for every amount of fuel is one that never
returns, given strings of unbounded length (see Left out).

Modules:
- `Numbers` holds the number domain and the four operators.
- `Scanner` holds the cursor predicates, `number`, and facts about where a
  word is written in a text.
- `Syntax` holds left-nested syntax trees, their reference value and their
  printed text.
- `Addition`, `Arithmetic` and `RecursiveDescent` hold the three evaluators.
- `ArithmeticExamples` and `RecursiveDescentExamples` hold concrete
  evaluations.
- `Combinators` and `CombinatorsExamples` hold the combinator kernel.

The evaluators are proved against the syntax trees by round-trip theorems.
Printing any tree and parsing the text gives the tree's value, and the parse
stops right after that text. For the last version the text may carry any
number of spaces before and after each atom, and after the whole
expression. It follows that `* /` bind tighter than `+ -`, that all four
operators associate to the left, and that trailing input is ignored. The
whole `expr`/`term`/`factor` group terminates on the measure (characters
left, grammar level).

Two facts of the code that a reader might not expect:
- `term` in the last version tests only the right factor of `/` against
  zero, so "2/3*(4-4)" evaluates to 0
  (`RecursiveDescentExamples.ZeroMultiplier`).
- The grammar comment at `ArithmeticParser/recursive_descent/src/main.ts:89`
  names a unary `+`/`-`, which `factor` does not implement. The model follows
  the code, so "-1" is NaN (`RecursiveDescentExamples.LeadingMinus`).

## Model

| member | source | states |
|---|---|---|
| Numbers.Apply | ArithmeticParser/src/main.ts:44-75 | NaN in either operand gives NaN. The result is a finite number exactly when both operands are finite and it is not a division by zero. A non-finite result comes only from a non-finite operand or a zero divisor. |
| Scanner.DigitsEnd | ArithmeticParser/recursive_descent/src/main.ts:30-33 | The digit loop stops inside the text, at a position that holds no digit. |
| Scanner.DigitsEndAt | ArithmeticParser/recursive_descent/src/main.ts:30-33 | The digit loop stops at the end of the maximal digit run: the first non-digit after a run of digits. |
| Scanner.TokenIsRun | ArithmeticParser/recursive_descent/src/main.ts:28-33 | The token built one `parseInt(char)` at a time is exactly the run of text the cursor skips. |
| Scanner.Number | ArithmeticParser/recursive_descent/src/main.ts:27-35 | `number` stops at the end of the digit run. It yields NaN exactly when it consumed nothing, and otherwise a non-negative whole number, never a non-finite value. |
| Scanner.DigitIsRendering | ArithmeticParser/recursive_descent/src/main.ts:132-134 | `isDigit` holds of exactly the ten characters that render the numbers 0 to 9, and each such character renders its own value. |
| Scanner.DecimalValueOfDigits | ArithmeticParser/src/main.ts:27-35 | Reading back the decimal rendering of a natural gives that natural. |
| Scanner.NumberReadsNumeral | ArithmeticParser/src/main.ts:27-35 | A numeral written at the cursor and followed by a non-digit is read as its decimal value, and the cursor stops right after it. |
| Scanner.NumberReadsDigits | ArithmeticParser/main.ts:27-36 | Round trip: `number` reads the rendering of any natural `n` back as `n`. |
| Addition.Expr | ArithmeticParser/main.ts:38-45 | `expr` stays within the text and stops at a position holding neither a digit nor `+`. Its value is NaN or a non-negative whole number, and NaN when no digit opens it. |
| Addition.ExprLoop | ArithmeticParser/main.ts:40-43 | The `+` loop stops within the text, never at a `+`, and not at a digit once it has moved. Starting from NaN it ends NaN; starting from a whole number it ends NaN or a whole number. |
| Addition.Evaluate | ArithmeticParser/main.ts:52-58 | The printed value is NaN or a non-negative whole number, never non-finite. It is NaN when the input does not open with a digit. |
| Addition.ChainValueIsTotal | ArithmeticParser/main.ts:38-45 | Adding the numerals one `+` at a time, left to right, gives the exact sum of their values. |
| Addition.ExprReadsJoin | ArithmeticParser/main.ts:38-45 | `expr` reads a chain of numerals joined by `+` as their sum, leaving its loop right after the chain. |
| Addition.EvaluateJoin | ArithmeticParser/main.ts:38-58 | Round trip: any `+` chain followed by anything but a digit or `+` evaluates to its total. `expr` stops right after it, and the rest of the input is ignored. |
| Addition.EvaluateDigits | ArithmeticParser/main.ts:27-45 | Two naturals written in decimal and joined by `+` evaluate to their sum. |
| Addition.ExprLoopKeepsNaN | ArithmeticParser/main.ts:40-43 | Once the sum is NaN it stays NaN. |
| Addition.PlusWithoutNumber | ArithmeticParser/main.ts:40-42 | A `+` followed by no digit adds the empty number's NaN. |
| Addition.TrailingPlus | ArithmeticParser/main.ts:38-45 | A chain followed by a dangling `+` evaluates to NaN. |
| Addition.LoggedExample | ArithmeticParser/main.ts:61 | "12+3+5" evaluates to 20. |
| Addition.MinusEnds | ArithmeticParser/main.ts:40 | "1-2" evaluates to 1, because `-` ends the expression. |
| Addition.DanglingPlus | ArithmeticParser/main.ts:40-42 | "1+" evaluates to NaN. |
| Arithmetic.Expr | ArithmeticParser/src/main.ts:40-56 | `expr` stays within the text and stops where no operator of either level follows. Its value is non-finite only if the text holds a `/`. |
| Arithmetic.ExprLoop | ArithmeticParser/src/main.ts:42-54 | The `+ -` loop stops within the text and never at `+` or `-`. Once it has moved, it never stops at `*` or `/` either. It makes a finite sum non-finite only if the text holds a `/`. |
| Arithmetic.Term | ArithmeticParser/src/main.ts:64-80 | `term` stays within the text and stops where no `*` or `/` follows. Its value is non-finite only if the text holds a `/`. |
| Arithmetic.TermLoop | ArithmeticParser/src/main.ts:66-78 | The `* /` loop stops within the text and never at `*` or `/`. It makes a finite product non-finite only if the text holds a `/`. |
| Arithmetic.Factor | ArithmeticParser/src/main.ts:89-99 | `factor` never moves the cursor back or past the end, and its value is non-finite only if the text holds a `/`. |
| Arithmetic.Parse | ArithmeticParser/src/main.ts:126-129 | In exact arithmetic, `Main.parse` returns a non-finite value only for a text that contains a `/`; overflow to `Infinity` is listed under Left out. |
| Arithmetic.ExprReadsSum | ArithmeticParser/src/main.ts:40-56 | `expr` reads the text of any tree as the tree's value and leaves its loop right after it, when no `*` or `/` follows and, after a final numeral, no digit. A final `)` ends the tree whatever follows. |
| Arithmetic.TermLoopReadsProduct | ArithmeticParser/src/main.ts:64-80 | `term` reads the text of any product as its value and leaves its loop right after it, when no digit runs on from a final numeral; after a final `)` anything may follow. |
| Arithmetic.FactorReadsAtom | ArithmeticParser/src/main.ts:89-99 | `factor` reads a numeral or a parenthesised tree as its value and stops right after it. A numeral must not be followed by a digit; a group ends at its `)` whatever follows. |
| Arithmetic.ParseShow | ArithmeticParser/src/main.ts:40-129 | Round trip: parsing the text of any tree gives the tree's value, with precedence and left associativity. The parse stops right after the tree. Trailing input is ignored when it opens with no operator and does not run a digit on from a final numeral; after a final `)` it may open with a digit. |
| Arithmetic.UnclosedGroup | ArithmeticParser/src/main.ts:89-97 | A group whose `)` never comes is tolerated and yields the inner value. |
| Arithmetic.TermLoopKeepsNaN | ArithmeticParser/src/main.ts:66-78 | NaN absorbs every later `*` and `/`. |
| Arithmetic.ExprLoopKeepsNaN | ArithmeticParser/src/main.ts:42-54 | NaN absorbs every later `+` and `-`. |
| Arithmetic.NoOperandIsNaN | ArithmeticParser/src/main.ts:89-98 | Input that opens with neither a digit nor `(` evaluates to NaN. |
| ArithmeticExamples.ParseOfShow | ArithmeticParser/src/main.ts:126-129 | Parsing the bare text of any tree gives its value. |
| ArithmeticExamples.AddChain | ArithmeticParser/test/main.ts:7-8 | "0+1+2+3" = 6. |
| ArithmeticExamples.SubChain | ArithmeticParser/test/main.ts:11-12 | "3-2-1-0" = 0. |
| ArithmeticExamples.AddSub | ArithmeticParser/test/main.ts:15-16 | "1+3-5" = -1. |
| ArithmeticExamples.SubSub | ArithmeticParser/test/main.ts:19-20 | "1-3-0" = -2. |
| ArithmeticExamples.MulChain | ArithmeticParser/test/main.ts:23-24 | "2*4*8" = 64. |
| ArithmeticExamples.MulBeforeAdd | ArithmeticParser/test/main.ts:27-28 | "1+2*3" = 7. |
| ArithmeticExamples.MulDiv | ArithmeticParser/test/main.ts:31-32 | "2*4/8" = 1. |
| ArithmeticExamples.DivBeforeSub | ArithmeticParser/test/main.ts:35-36 | "2-4/8" = 1.5, exactly. |
| ArithmeticExamples.Nested | ArithmeticParser/src/main.ts:89-97 | "2*(4/(6-8))" = -4. |
| ArithmeticExamples.UnguardedDivision | ArithmeticParser/src/main.ts:72-75 | "1/0" is not a finite number, and nothing is thrown. |
| ArithmeticExamples.SpaceEndsInput | ArithmeticParser/src/main.ts:43-54 | "1+2 *3" = 3, because a space ends the expression. |
| ArithmeticExamples.UnmatchedParen | ArithmeticParser/src/main.ts:43-54 | "1)+2" = 1, because an unmatched `)` ends the expression. |
| ArithmeticExamples.MissingParen | ArithmeticParser/src/main.ts:93-95 | "(1+2" = 3. |
| ArithmeticExamples.LeadingMinus | ArithmeticParser/src/main.ts:89-98 | "-1" is NaN. |
| ArithmeticExamples.GroupThenDigit | ArithmeticParser/src/main.ts:89-99 | "(1)2" = 1: a digit right after a closing `)` is left unread. |
| RecursiveDescent.SpacesEnd | ArithmeticParser/recursive_descent/src/main.ts:114-118 | `spaces` stays within the text and stops at a non-space. |
| RecursiveDescent.SpacesEndSkipsSpaces | ArithmeticParser/recursive_descent/src/main.ts:114-118 | Everything `spaces` skips is a space. |
| RecursiveDescent.SpacesEndAt | ArithmeticParser/recursive_descent/src/main.ts:114-118 | `spaces` stops after exactly the run of spaces written at the cursor. |
| RecursiveDescent.Expr | ArithmeticParser/recursive_descent/src/main.ts:41-57 | `expr` either throws or stays within the text with a value that is never non-finite. It stops at no operator and no space. |
| RecursiveDescent.ExprLoop | ArithmeticParser/recursive_descent/src/main.ts:43-55 | The `+ -` loop keeps values finite or NaN and never stops at `+` or `-`. |
| RecursiveDescent.Term | ArithmeticParser/recursive_descent/src/main.ts:65-85 | `term` either throws or yields a value that is not non-finite, stopping at no `*`, `/` or space. |
| RecursiveDescent.TermLoop | ArithmeticParser/recursive_descent/src/main.ts:67-83 | The `* /` loop, with the divisor guard, never yields a non-finite value and never stops at `*` or `/`. |
| RecursiveDescent.Factor | ArithmeticParser/recursive_descent/src/main.ts:95-109 | `factor` either throws or yields a value that is not non-finite, and stops after the trailing spaces. |
| RecursiveDescent.Parse | ArithmeticParser/recursive_descent/src/main.ts:145-148 | `Main.parse` never returns `NonFinite`, the outcome of an unguarded division by zero: it returns a finite number or NaN, or throws. |
| RecursiveDescent.Guard | ArithmeticParser/recursive_descent/src/main.ts:68-80 | An operation throws exactly when an operand threw or the divisor is zero. |
| RecursiveDescent.SumAnswerAgrees | ArithmeticParser/recursive_descent/src/main.ts:73-79 | The guard only replaces division by zero. On every tree this version throws exactly where the unguarded value is not finite, and otherwise gives that same value. |
| RecursiveDescent.ExprReadsSum | ArithmeticParser/recursive_descent/src/main.ts:41-57 | `expr` reads the text of any tree, with any spaces before and after each atom, as the tree's answer and leaves its loop right after it. |
| RecursiveDescent.TermLoopReadsProduct | ArithmeticParser/recursive_descent/src/main.ts:65-85 | `term` reads the text of any product, with any spaces before and after each atom, as its answer, the exception included. |
| RecursiveDescent.FactorReadsAtom | ArithmeticParser/recursive_descent/src/main.ts:95-109 | `factor` reads an atom with any spaces before and after it as its answer, and stops after the trailing spaces. |
| RecursiveDescent.FactorReadsNumeral | ArithmeticParser/recursive_descent/src/main.ts:104-107 | `factor` reads a numeral with any spaces before and after it as its decimal value. |
| RecursiveDescent.FactorReadsGroup | ArithmeticParser/recursive_descent/src/main.ts:97-103 | `factor` reads a parenthesised tree with any spaces before and after it, and inside, as the tree's answer. |
| RecursiveDescent.ParseShow | ArithmeticParser/recursive_descent/src/main.ts:41-148 | Round trip: parsing a tree's text, with any spaces before and after each atom and any trailing spaces, gives the tree's answer: its value, or the exception when a divisor is zero. The rest of the input is ignored when, after its spaces, it cannot continue the expression. |
| RecursiveDescent.UnclosedGroup | ArithmeticParser/recursive_descent/src/main.ts:98-103 | A group whose `)` never comes is tolerated and yields the inner answer. |
| RecursiveDescent.TermLoopKeepsNaN | ArithmeticParser/recursive_descent/src/main.ts:67-83 | NaN absorbs later `*` and `/`, unless a later divisor throws. |
| RecursiveDescent.ExprLoopKeepsNaN | ArithmeticParser/recursive_descent/src/main.ts:43-55 | NaN absorbs later `+` and `-`, unless a later term throws. |
| RecursiveDescent.NoOperandIsNaN | ArithmeticParser/recursive_descent/src/main.ts:89-109 | Input whose first non-space is neither a digit nor `(` gives NaN or the exception. |
| RecursiveDescentExamples.MulBeforeAdd | ArithmeticParser/recursive_descent/src/main.ts:41-85 | "1+2*3" = 7. |
| RecursiveDescentExamples.SpacedOut | ArithmeticParser/recursive_descent/src/main.ts:95-118 | " 1 + 2 * 3 " = 7. |
| RecursiveDescentExamples.SpacedSum | ArithmeticParser/recursive_descent/src/main.ts:95-118 | "1 + 2" = 3. |
| RecursiveDescentExamples.TrailingSpace | ArithmeticParser/recursive_descent/src/main.ts:106-118 | "1+2 " = 3. |
| RecursiveDescentExamples.SpacedGroup | ArithmeticParser/recursive_descent/src/main.ts:95-118 | "(1 + 2) * 3" = 9. |
| RecursiveDescentExamples.SpaceThenDigit | ArithmeticParser/recursive_descent/src/main.ts:95-118 | "1 2" = 1, because after the spaces a digit cannot continue the expression. |
| RecursiveDescentExamples.MissingParen | ArithmeticParser/recursive_descent/src/main.ts:98-103 | "(1 + 2" = 3. |
| RecursiveDescentExamples.Nested | ArithmeticParser/recursive_descent/src/main.ts:95-103 | "2*(4/(6-8))" = -4. |
| RecursiveDescentExamples.DivideByZero | ArithmeticParser/recursive_descent/src/main.ts:73-79 | "1/0" throws `ZeroDivisionError`. |
| RecursiveDescentExamples.DivideByZeroGroup | ArithmeticParser/recursive_descent/src/main.ts:73-79 | "1/(2-2)" throws `ZeroDivisionError`. |
| RecursiveDescentExamples.ZeroMultiplier | ArithmeticParser/recursive_descent/src/main.ts:68-79 | "2/3*(4-4)" = 0, because only a divisor is guarded. |
| RecursiveDescentExamples.LeadingMinus | ArithmeticParser/recursive_descent/src/main.ts:89-109 | "-1" is NaN. |
| Combinators.RenderReturned | ArithmeticParser/parser_combinator/src/main.ts:9-25 | `result += ` what `satisfy` returned adds the character under the cursor inside the text, and the word "undefined" at or past its end. |
| Combinators.AnyCharsReadText | ArithmeticParser/parser_combinator/src/main.ts:90-96 | `peek` and `next` walk the text: a `sequence` of `n` `anyChar`s reads back exactly the `n` characters from the cursor on, when they lie inside the text, and leaves the cursor right after them. |
| Combinators.ParseIntOf | ArithmeticParser/parser_combinator/src/main.ts:43-48 | `parseInt` of the peeked value is an integer exactly for a decimal digit, and then the digit's value, from 0 to 9, whose decimal rendering is that character. Otherwise, including `undefined`, it is NaN, never infinite. |
| Combinators.IsDigit | ArithmeticParser/parser_combinator/src/main.ts:43-45 | `isDigit` holds exactly of the characters '0' to '9', and not of the end of input. |
| Combinators.IsLetter | ArithmeticParser/parser_combinator/src/main.ts:46-48 | `isLetter` is exactly the complement of `isDigit`, so it holds of the end of input. |
| Combinators.Run | ArithmeticParser/parser_combinator/src/main.ts:7-41 | The cursor never moves back. `satisfy(f)` returns exactly when `f` holds of what `peek` returned. Then it returns that and advances by one; otherwise it throws without moving. `many` never throws. |
| Combinators.RunSequence | ArithmeticParser/parser_combinator/src/main.ts:19-27 | The `sequence` loop never moves back and returns a string. |
| Combinators.RunMany | ArithmeticParser/parser_combinator/src/main.ts:29-41 | The `many` loop never throws and never moves back. |
| Combinators.RunFuel | ArithmeticParser/parser_combinator/src/main.ts:29-41 | A run that stops within some fuel gives the same reply with any more fuel. |
| Combinators.RunSequenceAcc | ArithmeticParser/parser_combinator/src/main.ts:21-25 | The `sequence` loop only appends to its result. |
| Combinators.SequenceCons | ArithmeticParser/parser_combinator/src/main.ts:19-27 | `sequence(p, ps...)` runs `p`, then runs the rest from where `p` stopped, and concatenates the two results. A throw of `p` ends it at that position, with no rollback. |
| Combinators.SequenceEmpty | ArithmeticParser/parser_combinator/src/main.ts:19-27 | `sequence()` returns "" without moving. |
| Combinators.RunManyAcc | ArithmeticParser/parser_combinator/src/main.ts:31-39 | The `many` loop only appends to its result. |
| Combinators.ManyUnfold | ArithmeticParser/parser_combinator/src/main.ts:29-41 | `many(q)` runs `q`. On return it continues from there and prepends `q`'s result. On a throw it returns "" at the position where the throw left the cursor. |
| Combinators.ManyOfNeverFailing | ArithmeticParser/parser_combinator/src/main.ts:33-38 | With unbounded strings, `many` over a parser that never throws never returns. |
| Combinators.ManyAnyCharDiverges | ArithmeticParser/parser_combinator/src/main.ts:50 | With unbounded strings, `many(anyChar)` never returns, on any input. |
| Combinators.ManyManyDiverges | ArithmeticParser/parser_combinator/src/main.ts:29-41 | With unbounded strings, `many(many(p))` never returns. |
| Combinators.ManyLetterDiverges | ArithmeticParser/parser_combinator/src/main.ts:46-51 | With unbounded strings, `many(letter)` never returns when no digit comes at or after the cursor, because `letter` accepts every other character and then `undefined`. |
| Combinators.ManyLetterStops | ArithmeticParser/parser_combinator/src/main.ts:29-51 | Conversely, with a digit somewhere after the cursor, `many(letter)` returns, stopping at a digit. |
| Combinators.ManySatisfyStops | ArithmeticParser/parser_combinator/src/main.ts:29-41 | `many(satisfy(f))` returns when `f` rejects the end of input, as for `digit` and `char`, given one turn per remaining character plus one. |
| Combinators.AnyCharReads | ArithmeticParser/parser_combinator/src/main.ts:50 | `anyChar` returns what `peek` gave and advances by one on any input, returning `undefined` past the end. |
| Combinators.LetterReads | ArithmeticParser/parser_combinator/src/main.ts:51 | `letter` throws in place at a digit and otherwise returns what `peek` gave, `undefined` included, and advances by one. |
| Combinators.DigitReads | ArithmeticParser/parser_combinator/src/main.ts:52 | `digit` returns the digit at the cursor and advances by one, or throws in place. |
| Combinators.ManyDigitReadsToken | ArithmeticParser/parser_combinator/src/main.ts:29-52 | `many(digit)` returns the same token that the evaluators' `number` builds, and stops where `number` stops. |
| Combinators.ManyDigitLongestRun | ArithmeticParser/parser_combinator/src/main.ts:29-52 | `many(digit)` returns the longest run of digits at the cursor and stops right after it. |
| Combinators.CharIs | ArithmeticParser/parser_combinator/src/main.ts:54-56 | `char(ch)` is a `satisfy` whose predicate holds of exactly one peeked value, the character of a one-character `ch`, and of nothing for any other `ch`. |
| Combinators.CharAccepts | ArithmeticParser/parser_combinator/src/main.ts:54-56 | `char(ch)` accepts exactly a character equal to `ch`, and never the end of input. |
| CombinatorsExamples.SequenceThrowsAtB | ArithmeticParser/parser_combinator/src/main.ts:69-70 | `sequence(letter, digit, digit)` on "abcd" throws at position 1. |
| CombinatorsExamples.SequenceThrowsAtStart | ArithmeticParser/parser_combinator/src/main.ts:71 | It throws at position 0 on "123". |
| CombinatorsExamples.ReadsLetterDigitDigit | ArithmeticParser/parser_combinator/src/main.ts:69 | On any input starting "a23" it returns "a23" at position 3. |
| CombinatorsExamples.SequenceReadsAll | ArithmeticParser/parser_combinator/src/main.ts:72 | It returns "a23" on "a23". |
| CombinatorsExamples.SequenceLeavesRest | ArithmeticParser/parser_combinator/src/main.ts:73 | It returns "a23" on "a2345" at position 3, without requiring the end of input. |
| CombinatorsExamples.ManyDigitNone | ArithmeticParser/parser_combinator/src/main.ts:74-75 | `many(digit)` returns "" at position 0 on "abc123". |
| CombinatorsExamples.ManyDigitThree | ArithmeticParser/parser_combinator/src/main.ts:76 | `many(digit)` returns "123" at position 3 on "123abc". |
| CombinatorsExamples.LetterPastEnd | ArithmeticParser/parser_combinator/src/main.ts:19-27 | `sequence(letter, letter)` on "a" returns "aundefined": the second `letter` accepts the end of input. |
| CombinatorsExamples.ManyNoRollback | ArithmeticParser/parser_combinator/src/main.ts:29-41 | `many(sequence(letter, digit))` on "a1b" returns "a1". The cursor stays after the "b" that the throwing turn consumed. |
| CombinatorsExamples.CharReads | ArithmeticParser/parser_combinator/src/main.ts:54-56 | `char("+")` reads "+", while a two-character argument matches nothing. |

## Left out

- Console output is not modelled:
  - `console.log` of each digit inside the first evaluator's `number` (ArithmeticParser/main.ts:31).
  - The line `Main.test` prints (ArithmeticParser/main.ts:52-58). `Addition.Evaluate` is the value it prints. `Main.parse` there returns nothing.
  - The printing of `Parsers.parseTest`. The runs of `Parsers.main` appear as lemmas in `CombinatorsExamples`.
- The mocha/chai test runner of ArithmeticParser/test/main.ts is not modelled. Its cases appear as lemmas in `ArithmeticExamples`.
- IEEE-754 doubles are not modelled. Arithmetic is exact, which is the case for every expected value of the tests. Not modelled:
  - rounding;
  - `-0`;
  - the loss of precision of `parseInt` on very long digit runs;
  - which IEEE value an unguarded division by zero gives, and how it combines afterwards (`NonFinite` is absorbing);
  - overflow: a numeral, or a sum or product, beyond the double range gives `Infinity` in the code (for a numeral, about 309 or more digits), while the model keeps its exact value. So `Arithmetic.Parse` gives a non-finite value only with a `/`, and `RecursiveDescent.Parse` and `Addition.Evaluate` never give one, only in the model.
- The `ZeroDivisionError` class is not modelled as a class. Its prototype plumbing is JavaScript runtime detail, and the exception is an `Answer` variant.
- The text of the `"Not satisfy"` message is not modelled: a throw is `Fail`.
- `satisfy` takes an arbitrary JavaScript function and calls it with `f.call`. Here the predicate is a total function from what `peek` returned to a boolean. A predicate that throws or has side effects is not modelled.
- A never-ending `many` loop is represented by fuel. Divergence is stated as `OutOfFuel` for every fuel, and the reply of a run that stops does not depend on the fuel (`Combinators.RunFuel`).
- Strings are unbounded, and `Fail` stands only for `Error("Not satisfy")`. In JavaScript a string has a maximum length, and `result +=` past it throws a `RangeError`. The empty `catch` of `many` swallows that error too, so a `many` loop the model shows to diverge in fact returns a maximal string, or the process runs out of memory first. `Combinators.ManyOfNeverFailing`, `ManyAnyCharDiverges`, `ManyManyDiverges` and `ManyLetterDiverges` hold only under this idealization.
- Strings are sequences of `char`. UTF-16 surrogate pairs, which `charAt` and indexing split, are not modelled.
- The commented-out `divisionFactor` in ArithmeticParser/src/main.ts:106-111 and ArithmeticParser/recursive_descent/src/main.ts:125-130 is not modelled, because it is not code.
- Arithmetic.Factor: its contract states only the bounds of the stop position and that its value is non-finite only for a text holding a `/`. What it reads is stated by `Arithmetic.FactorReadsAtom` for every well-formed atom.
- Arithmetic.Parse: the rule that a non-finite value needs a `/` in the text holds only in the exact model. In the code, a numeral, or a sum or product, beyond the double range gives `Infinity` without any `/`.
- RecursiveDescent.Parse: the model never yields a non-finite value, but the code yields `Infinity` for a numeral, or a sum or product, beyond the double range (see the IEEE-754 item above).
- Addition.Evaluate: likewise, a whole number here can be `Infinity` in the code when a numeral or the sum exceeds the double range.
