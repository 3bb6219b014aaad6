/** Worked examples of the appeal-form validators: names as people type
    them, and phone numbers in the shapes the pattern allows and refuses. */
module AppealExamples {
  import opened Wrappers
  import opened Text
  import opened Pattern
  import opened Appeal

  // ---------------------------------------------------------------------
  // Names
  // ---------------------------------------------------------------------

  /** A word with no whitespace is left alone by stripping. */
  lemma BareWord(s: string)
    requires s != [] && NoSpace(s)
    ensures Strip(s) == s
  {
    StripPadded([], s, []);
    assert [] + s + [] == s;
  }

  lemma IvanovName()
    ensures IsName("Иванов")
  {
  }

  /** Surrounding blanks are dropped and the bare surname is kept. */
  lemma PaddedSurnameExample()
    ensures ValidateLastName("  Иванов ") == Ok("Иванов")
  {
    IvanovName();
    assert AllSpace("  ") && AllSpace(" ");
    PaddedNameAccepted("  ", "Иванов", " ");
    assert "  " + "Иванов" + " " == "  Иванов ";
  }

  lemma LowerInitialExample()
    ensures ValidateLastName("иванов") == Err(BadLastName)
  {
    assert NoSpace("иванов");
    BareWord("иванов");
  }

  lemma LatinExample()
    ensures ValidateFirstName("Ivan") == Err(BadFirstName)
  {
    assert NoSpace("Ivan");
    BareWord("Ivan");
    NonCyrillicRejected("Ivan", 0);
  }

  lemma CapitalsExample()
    ensures ValidateLastName("ИВАНОВ") == Err(BadLastName)
  {
    assert NoSpace("ИВАНОВ");
    BareWord("ИВАНОВ");
    CapitalAfterFirstRejected("ИВАНОВ", 1);
  }

  /** Blanks alone count as an empty field, not a malformed one. */
  lemma BlankNameExample()
    ensures ValidateFirstName("   ") == Err(EmptyFirstName)
    ensures ValidateLastName("") == Err(EmptyLastName)
  {
    assert AllSpace("   ");
  }

  // ---------------------------------------------------------------------
  // Phone numbers
  // ---------------------------------------------------------------------

  /** The phone pattern element by element. */
  const Spelled: seq<Element> := [CountryPrefix, Separator, OpenParen, AreaLead, Digit, Digit, CloseParen,
    Separator, Digit, Digit, Digit, Separator, Digit, Digit, Separator, Digit, Digit]

  lemma PatternSpelled()
    ensures PhonePattern == Spelled
  {
    assert Digits(2) == [Digit, Digit];
    assert Digits(3) == [Digit, Digit, Digit];
  }

  lemma Concat4(a: string, b: string, c: string, d: string)
    ensures Concat([a, b, c, d]) == a + b + c + d
  {
    ConcatCons(d, []);
    assert [d] == [d] + [];
    ConcatCons(c, [d]);
    assert [c, d] == [c] + [d];
    ConcatCons(b, [c, d]);
    assert [b, c, d] == [b] + [c, d];
    ConcatCons(a, [b, c, d]);
    assert [a, b, c, d] == [a] + [b, c, d];
  }

  /** Seventeen pieces, taken four at a time, concatenate as the groups'
      texts do. */
  lemma ConcatGroups(g1: seq<string>, g2: seq<string>, g3: seq<string>, g4: seq<string>, last: string)
    requires |g1| == |g2| == |g3| == |g4| == 4
    ensures Concat(g1 + g2 + g3 + g4 + [last]) == Concat(g1) + (Concat(g2) + (Concat(g3) + (Concat(g4) + last)))
  {
    ConcatCons(last, []);
    assert [last] == [last] + [];
    ConcatAppend(g4, [last]);
    ConcatAppend(g3, g4 + [last]);
    ConcatAppend(g2, g3 + (g4 + [last]));
    ConcatAppend(g1, g2 + (g3 + (g4 + [last])));
    assert g1 + g2 + g3 + g4 + [last] == g1 + (g2 + (g3 + (g4 + [last])));
  }

  /** The text of pieces that fit the pattern ends in a digit. */
  lemma SpelledEnd(pieces: seq<string>)
    requires FitsAll(Spelled, pieces)
    ensures var s := Concat(pieces); s != [] && IsAsciiDigit(s[|s| - 1])
  {
    var last := pieces[16];
    assert pieces == pieces[..16] + [last];
    ConcatAppend(pieces[..16], [last]);
    ConcatCons(last, []);
    assert [last] == [last] + [];
    assert Fits(Digit, last);
  }

  /** It starts with the country prefix, with a hyphen, or with the
      optional parenthesis and the area code. */
  lemma SpelledStart(pieces: seq<string>)
    requires FitsAll(Spelled, pieces)
    requires pieces[0] != [] || pieces[1] == [] || pieces[1] == "-"
    ensures var s := Concat(pieces); s != [] && !IsSpace(s[0])
  {
    assert pieces == [pieces[0]] + pieces[1..];
    ConcatCons(pieces[0], pieces[1..]);
    if pieces[0] == [] && pieces[1] == "-" {
      assert pieces[1..] == [pieces[1]] + pieces[2..];
      ConcatCons(pieces[1], pieces[2..]);
    } else if pieces[0] == [] {
      assert pieces[1..] == [pieces[1]] + pieces[2..];
      ConcatCons(pieces[1], pieces[2..]);
      assert pieces[2..] == [pieces[2]] + pieces[3..];
      ConcatCons(pieces[2], pieces[3..]);
      assert pieces[3..] == [pieces[3]] + pieces[4..];
      ConcatCons(pieces[3], pieces[4..]);
      assert Fits(AreaLead, pieces[3]) && Fits(OpenParen, pieces[2]);
    } else {
      assert Fits(CountryPrefix, pieces[0]);
    }
  }

  /** Such a text is left alone by stripping and accepted as it is, unless
      it starts with a whitespace separator, which stripping removes. */
  lemma SpelledAccepted(pieces: seq<string>)
    requires FitsAll(Spelled, pieces)
    requires pieces[0] != [] || pieces[1] == [] || pieces[1] == "-"
    ensures ValidatePhone(Concat(pieces)) == Ok(Concat(pieces))
  {
    var s := Concat(pieces);
    SpelledEnd(pieces);
    SpelledStart(pieces);
    PatternSpelled();
    StripPadded([], s, []);
    assert [] + s + [] == s;
  }

  // "+7 (912) 345-67-89"

  lemma FormattedPieces()
    ensures FitsAll(Spelled, ["+7", " ", "(", "9", "1", "2", ")", " ", "3", "4", "5", "-", "6", "7", "-", "8", "9"])
  {
  }

  lemma FormattedChunks()
    ensures Concat(["+7", " ", "(", "9"]) == "+7 (9"
    ensures Concat(["1", "2", ")", " "]) == "12) "
    ensures Concat(["3", "4", "5", "-"]) == "345-"
    ensures Concat(["6", "7", "-", "8"]) == "67-8"
  {
    Concat4("+7", " ", "(", "9");
    Concat4("1", "2", ")", " ");
    Concat4("3", "4", "5", "-");
    Concat4("6", "7", "-", "8");
  }

  lemma FormattedJoin()
    ensures "+7 (9" + ("12) " + ("345-" + ("67-8" + "9"))) == "+7 (912) 345-67-89"
  {
  }

  lemma FormattedText()
    ensures Concat(["+7", " ", "(", "9", "1", "2", ")", " ", "3", "4", "5", "-", "6", "7", "-", "8", "9"]) == "+7 (912) 345-67-89"
  {
    FormattedChunks();
    FormattedJoin();
    ConcatGroups(["+7", " ", "(", "9"], ["1", "2", ")", " "], ["3", "4", "5", "-"], ["6", "7", "-", "8"], "9");
    assert ["+7", " ", "(", "9"] + ["1", "2", ")", " "] + ["3", "4", "5", "-"] + ["6", "7", "-", "8"] + ["9"]
        == ["+7", " ", "(", "9", "1", "2", ")", " ", "3", "4", "5", "-", "6", "7", "-", "8", "9"];
  }

  lemma FormattedExample()
    ensures ValidatePhone("+7 (912) 345-67-89") == Ok("+7 (912) 345-67-89")
  {
    FormattedPieces();
    FormattedText();
    SpelledAccepted(["+7", " ", "(", "9", "1", "2", ")", " ", "3", "4", "5", "-", "6", "7", "-", "8", "9"]);
  }

  // "89123456789": the prefix 8 and eleven bare digits.

  lemma PlainPieces()
    ensures FitsAll(Spelled, ["8", "", "", "9", "1", "2", "", "", "3", "4", "5", "", "6", "7", "", "8", "9"])
  {
  }

  lemma PlainChunks()
    ensures Concat(["8", "", "", "9"]) == "89"
    ensures Concat(["1", "2", "", ""]) == "12"
    ensures Concat(["3", "4", "5", ""]) == "345"
    ensures Concat(["6", "7", "", "8"]) == "678"
  {
    Concat4("8", "", "", "9");
    Concat4("1", "2", "", "");
    Concat4("3", "4", "5", "");
    Concat4("6", "7", "", "8");
  }

  lemma PlainJoin()
    ensures "89" + ("12" + ("345" + ("678" + "9"))) == "89123456789"
  {
  }

  lemma PlainText()
    ensures Concat(["8", "", "", "9", "1", "2", "", "", "3", "4", "5", "", "6", "7", "", "8", "9"]) == "89123456789"
  {
    PlainChunks();
    PlainJoin();
    ConcatGroups(["8", "", "", "9"], ["1", "2", "", ""], ["3", "4", "5", ""], ["6", "7", "", "8"], "9");
    assert ["8", "", "", "9"] + ["1", "2", "", ""] + ["3", "4", "5", ""] + ["6", "7", "", "8"] + ["9"]
        == ["8", "", "", "9", "1", "2", "", "", "3", "4", "5", "", "6", "7", "", "8", "9"];
  }

  lemma PlainExample()
    ensures ValidatePhone("89123456789") == Ok("89123456789")
  {
    PlainPieces();
    PlainText();
    SpelledAccepted(["8", "", "", "9", "1", "2", "", "", "3", "4", "5", "", "6", "7", "", "8", "9"]);
  }

  // "(912 345-67-89": the two parentheses are optional independently, so
  // an unclosed one is accepted.

  lemma UnclosedPieces()
    ensures FitsAll(Spelled, ["", "", "(", "9", "1", "2", "", " ", "3", "4", "5", "-", "6", "7", "-", "8", "9"])
  {
  }

  lemma UnclosedChunks()
    ensures Concat(["", "", "(", "9"]) == "(9"
    ensures Concat(["1", "2", "", " "]) == "12 "
    ensures Concat(["3", "4", "5", "-"]) == "345-"
    ensures Concat(["6", "7", "-", "8"]) == "67-8"
  {
    Concat4("", "", "(", "9");
    Concat4("1", "2", "", " ");
    Concat4("3", "4", "5", "-");
    Concat4("6", "7", "-", "8");
  }

  lemma UnclosedJoin()
    ensures "(9" + ("12 " + ("345-" + ("67-8" + "9"))) == "(912 345-67-89"
  {
  }

  lemma UnclosedText()
    ensures Concat(["", "", "(", "9", "1", "2", "", " ", "3", "4", "5", "-", "6", "7", "-", "8", "9"]) == "(912 345-67-89"
  {
    UnclosedChunks();
    UnclosedJoin();
    ConcatGroups(["", "", "(", "9"], ["1", "2", "", " "], ["3", "4", "5", "-"], ["6", "7", "-", "8"], "9");
    assert ["", "", "(", "9"] + ["1", "2", "", " "] + ["3", "4", "5", "-"] + ["6", "7", "-", "8"] + ["9"]
        == ["", "", "(", "9", "1", "2", "", " ", "3", "4", "5", "-", "6", "7", "-", "8", "9"];
  }

  lemma UnclosedExample()
    ensures ValidatePhone("(912 345-67-89") == Ok("(912 345-67-89")
  {
    UnclosedPieces();
    UnclosedText();
    SpelledAccepted(["", "", "(", "9", "1", "2", "", " ", "3", "4", "5", "-", "6", "7", "-", "8", "9"]);
  }

  // Refusals.

  lemma {:induction false} DigitsOfDigits(s: string)
    requires AllDigits(s)
    ensures DigitsOf(s) == s
  {
    if s != [] {
      assert [s[0]] + s[1..] == s;
      DigitsOfDigits(s[1..]);
    }
  }

  /** A run of digits only is left alone by stripping and holds just those
      digits. */
  lemma BareDigits(s: string)
    requires s != [] && AllDigits(s)
    ensures Strip(s) == s && DigitsOf(Strip(s)) == s
  {
    BareWord(s);
    DigitsOfDigits(s);
  }

  lemma ShortRejected(s: string)
    requires 0 < |s| < 10 && AllDigits(s)
    ensures ValidatePhone(s) == Err(BadPhone)
  {
    BareDigits(s);
    PhoneDigitsRejected(s);
  }

  lemma AreaCodeRejected(s: string)
    requires |s| == 10 && AllDigits(s) && !IsAreaLead(s[0])
    ensures ValidatePhone(s) == Err(BadPhone)
  {
    BareDigits(s);
    PhoneDigitsRejected(s);
  }

  /** Too few digits. */
  lemma ShortExample()
    ensures ValidatePhone("12345") == Err(BadPhone)
  {
    assert AllDigits("12345");
    ShortRejected("12345");
  }

  /** Ten digits, but the area code starts with a 3. */
  lemma AreaCodeExample()
    ensures ValidatePhone("3123456789") == Err(BadPhone)
  {
    assert AllDigits("3123456789");
    AreaCodeRejected("3123456789");
  }

  /** Blanks alone are an empty field. */
  lemma BlankPhoneExample()
    ensures ValidatePhone(" ") == Err(EmptyPhone)
  {
    assert AllSpace(" ");
  }
}
