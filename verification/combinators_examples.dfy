/** The runs that the kernel's `Parsers.main` performs, with the replies it
    logs, and a few more that show the no-rollback and `undefined` corners. */
module CombinatorsExamples {
  import Scanner
  import opened Combinators

  /** `sequence(letter, digit, digit)` */
  const LetterDigitDigit: Parser := Sequence([Letter, Digit, Digit])

  /** "abcd": `letter` reads "a", then `digit` throws at "b", position 1. */
  lemma SequenceThrowsAtB(fuel: nat)
    ensures Run(LetterDigitDigit, "abcd", 0, fuel) == Fail(1)
  {
    SequenceCons(Letter, [Digit, Digit], "abcd", 0, fuel);
    assert [Letter] + [Digit, Digit] == [Letter, Digit, Digit];
  }

  /** "123": `letter` throws at once. */
  lemma SequenceThrowsAtStart(fuel: nat)
    ensures Run(LetterDigitDigit, "123", 0, fuel) == Fail(0)
  {
    SequenceCons(Letter, [Digit, Digit], "123", 0, fuel);
    assert [Letter] + [Digit, Digit] == [Letter, Digit, Digit];
  }

  /** "a23" is read whole. */
  lemma SequenceReadsAll(fuel: nat)
    ensures Run(LetterDigitDigit, "a23", 0, fuel) == Ok(Str("a23"), 3)
  {
    ReadsLetterDigitDigit("a23", fuel);
  }

  /** "a2345": the sequence stops after its three parsers; "45" is left. */
  lemma SequenceLeavesRest(fuel: nat)
    ensures Run(LetterDigitDigit, "a2345", 0, fuel) == Ok(Str("a23"), 3)
  {
    ReadsLetterDigitDigit("a2345", fuel);
  }

  /** Any input that starts with "a23" is read up to there. */
  lemma ReadsLetterDigitDigit(text: string, fuel: nat)
    requires |text| >= 3 && text[..3] == "a23"
    ensures Run(LetterDigitDigit, text, 0, fuel) == Ok(Str("a23"), 3)
  {
    var ps := [Letter, Digit, Digit];
    assert text[0] == 'a' && text[1] == '2' && text[2] == '3' by {
      assert text[..3][0] == text[0] && text[..3][1] == text[1] && text[..3][2] == text[2];
    }
    assert RunSequence(ps, 2, text, 2, "a2", fuel) == Ok(Str("a23"), 3) by {
      assert Run(Digit, text, 2, fuel) == Ok(Str("3"), 3);
      assert "a2" + "3" == "a23";
    }
    assert RunSequence(ps, 1, text, 1, "a", fuel) == Ok(Str("a23"), 3) by {
      assert Run(Digit, text, 1, fuel) == Ok(Str("2"), 2);
      assert "a" + "2" == "a2";
    }
    assert Run(Letter, text, 0, fuel) == Ok(Str("a"), 1);
    assert "" + "a" == "a";
  }

  /** `many(digit)` on "abc123" reads nothing and stays at 0. */
  lemma ManyDigitNone(fuel: nat)
    requires fuel >= 1
    ensures Run(Many(Digit), "abc123", 0, fuel) == Ok(Str(""), 0)
  {
    assert Scanner.DigitsEnd("abc123", 0) == 0;
    ManyDigitLongestRun("abc123", 0, fuel);
  }

  /** `many(digit)` on "123abc" reads "123", given one turn per digit and
      one for the final throw. */
  lemma ManyDigitThree(fuel: nat)
    requires fuel >= 4
    ensures Run(Many(Digit), "123abc", 0, fuel) == Ok(Str("123"), 3)
  {
    assert Scanner.DigitsEnd("123abc", 3) == 3;
    assert Scanner.DigitsEnd("123abc", 0) == 3;
    ManyDigitLongestRun("123abc", 0, fuel);
    assert "123abc"[0..3] == "123";
  }

  /** `sequence(letter, letter)` on "a": the second `letter` accepts the end
      of the input, and concatenation spells its `undefined` out. */
  lemma LetterPastEnd(fuel: nat)
    ensures Run(Sequence([Letter, Letter]), "a", 0, fuel) == Ok(Str("aundefined"), 2)
  {
    var ps := [Letter, Letter];
    assert RunSequence(ps, 1, "a", 1, "a", fuel) == Ok(Str("aundefined"), 2) by {
      assert Run(Letter, "a", 1, fuel) == Ok(Undefined, 2);
      assert "a" + "undefined" == "aundefined";
    }
    assert Run(Letter, "a", 0, fuel) == Ok(Str("a"), 1);
    assert "" + "a" == "a";
  }

  /** `many(sequence(letter, digit))` on "a1b": the second turn reads "b",
      then throws; `many` returns "a1" but the cursor stays after "b". */
  lemma ManyNoRollback(fuel: nat)
    requires fuel >= 2
    ensures Run(Many(Sequence([Letter, Digit])), "a1b", 0, fuel) == Ok(Str("a1"), 3)
  {
    var ps := [Letter, Digit];
    var p := Sequence(ps);
    assert Run(p, "a1b", 0, fuel - 1) == Ok(Str("a1"), 2) by {
      assert RunSequence(ps, 1, "a1b", 1, "a", fuel - 1) == Ok(Str("a1"), 2) by {
        assert Run(Digit, "a1b", 1, fuel - 1) == Ok(Str("1"), 2);
        assert "a" + "1" == "a1";
      }
      assert Run(Letter, "a1b", 0, fuel - 1) == Ok(Str("a"), 1);
      assert "" + "a" == "a";
    }
    assert Run(p, "a1b", 2, fuel - 2) == Fail(3) by {
      assert Run(Letter, "a1b", 2, fuel - 2) == Ok(Str("b"), 3);
      assert Run(Digit, "a1b", 3, fuel - 2) == Fail(3);
      assert RunSequence(ps, 1, "a1b", 3, "" + "b", fuel - 2) == Fail(3);
    }
    assert RunMany(p, "a1b", 2, "a1", fuel - 1) == Ok(Str("a1"), 3);
    assert "" + "a1" == "a1";
  }

  /** `char("+")` reads a plus sign; a longer string equals no character. */
  lemma CharReads(fuel: nat)
    ensures Run(CharIs("+"), "+1", 0, fuel) == Ok(Str("+"), 1)
    ensures Run(CharIs("+1"), "+1", 0, fuel) == Fail(0)
  {
  }
}
