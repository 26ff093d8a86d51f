/**
 * `extractUserInfo` on concrete messages: one per fact, and the message whose
 * phrase matches only case-insensitively, on which the source throws.
 */
module UserInfoExamples {
  import opened Wrappers
  import opened Strings
  import opened UserInfo

  lemma NameMessagePiece(message: string)
    requires message == "my name is Alex"
    ensures Contains(message, NamePhrase)
    ensures NamePiece(message) == Some(" Alex")
  {
    assert OccursAt(message, NamePhrase, 0);
    assert IndexOf(message, NamePhrase) == Some(0);
    SplitStep(message, NamePhrase, 0);
    assert message[10..] == " Alex";
    assert IndexOf(" Alex", NamePhrase) == None;
    assert Split(" Alex", NamePhrase) == [" Alex"];
  }

  lemma NameTrim()
    ensures Trim(" Alex") == "Alex"
  {
    assert LeadingSpaces("Alex") == 0;
    assert LeadingSpaces(" Alex") == 1;
    assert TrailingSpaces("Alex") == 0;
  }

  lemma NameWord()
    ensures FirstWord(Trim(" Alex")) == "Alex"
  {
    NameTrim();
    ContainsChar("Alex", ' ');
    SplitHead("Alex", " ");
  }

  /** "my name is Alex" stores the name Alex. */
  lemma NameExample(message: string)
    requires message == "my name is Alex"
    ensures ExtractUserInfo(message).Success?
    ensures Name in ExtractUserInfo(message).value
    ensures ExtractUserInfo(message).value[Name] == Given("Alex")
  {
    NameMessagePiece(message);
    NameWord();
    NameIsFirstWord(message);
  }

  /** "My Name is X" passes the case-insensitive guard, but the case-sensitive split finds no piece: the source throws. */
  lemma CaseMismatchThrows(message: string)
    requires message == "My Name is X"
    ensures ExtractUserInfo(message) == Failure(MissingPiece(Name))
  {
    var lower := ToLower(message);
    assert lower == "my name is x";
    assert OccursAt(lower, NamePhrase, 0);
    AbsentChar(message, NamePhrase, 'n');
  }

  lemma AgeMessageHasPhrases(message: string)
    requires message == "I am 30 years old"
    ensures Contains(ToLower(message), AgePhrase) && Contains(ToLower(message), YearsPhrase)
  {
    LowerOccurs(message, "I am", 0);
    assert ToLower("I am") == AgePhrase;
    LowerOccurs(message, YearsPhrase, 8);
    assert ToLower(YearsPhrase) == YearsPhrase;
  }

  lemma AgeMessageDigits(message: string)
    requires message == "I am 30 years old"
    ensures FirstDigitRun(message) == Some("30")
  {
    assert !IsDigit(message[0]) && !IsDigit(message[1]) && !IsDigit(message[2]) && !IsDigit(message[3]) && !IsDigit(message[4]);
    assert IsDigit(message[5]);
    assert FirstDigitAt(message).value == 5;
    var rest := message[5..];
    assert IsDigit(rest[0]) && IsDigit(rest[1]) && !IsDigit(rest[2]);
    assert DigitRunLength(rest) == 2;
    assert message[5..7] == "30";
  }

  /** "I am 30 years old" stores the age 30. */
  lemma AgeExample(message: string)
    requires message == "I am 30 years old"
    ensures ExtractUserInfo(message).Success?
    ensures Age in ExtractUserInfo(message).value
    ensures ExtractUserInfo(message).value[Age] == Given("30")
  {
    assert 'n' !in ToLower(message);
    AbsentChar(ToLower(message), NamePhrase, 'n');
    AgeMessageHasPhrases(message);
    AgeMessageDigits(message);
    AgeIsFirstDigitRun(message);
  }

  lemma LocationMessagePiece(message: string)
    requires message == "I live in Tokyo."
    ensures OccursAt(ToLower(message), LivePhrase, 0)
    ensures LocationPiece(message) == Some(" Tokyo.")
  {
    LowerOccurs(message, "I live in", 0);
    assert ToLower("I live in") == LivePhrase;
    var lower := ToLower(message);
    assert PhraseFrom(lower, 0) == Some(0);
    assert PhraseFrom(lower, 9) == None;
    assert message[9..16] == " Tokyo.";
  }

  lemma LocationCut()
    ensures PrefixBefore(Trim(" Tokyo."), Terminators) == "Tokyo"
  {
    LocationTrim();
    LocationStop();
  }

  lemma LocationTrim()
    ensures Trim(" Tokyo.") == "Tokyo."
  {
    assert LeadingSpaces("Tokyo.") == 0;
    assert LeadingSpaces(" Tokyo.") == 1;
    assert TrailingSpaces("Tokyo.") == 0;
  }

  lemma LocationStop()
    ensures PrefixBefore("Tokyo.", Terminators) == "Tokyo"
  {
    var r := PrefixBefore("Tokyo.", Terminators);
    assert "Tokyo."[5] in Terminators;
    assert |r| == 5;
  }

  /** "I live in Tokyo." stores the location Tokyo, without the full stop. */
  lemma LocationExample(message: string)
    requires message == "I live in Tokyo."
    ensures ExtractUserInfo(message).Success?
    ensures Location in ExtractUserInfo(message).value
    ensures ExtractUserInfo(message).value[Location] == Given("Tokyo")
  {
    assert 'm' !in ToLower(message);
    AbsentChar(ToLower(message), NamePhrase, 'm');
    LocationMessagePiece(message);
    LocationCut();
    LocationIsTrimmedPiece(message);
  }
}
