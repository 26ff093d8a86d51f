/**
 * Best-effort extraction of a sender's name, age and location from one
 * message (`extractUserInfo`). The guards test the lower-cased message; the
 * name is then cut out of the message as written, case-sensitively, which
 * throws when only the lower-cased text holds the phrase.
 */
module UserInfo {
  import opened Wrappers
  import opened Strings

  datatype FactKey = Name | Age | Location

  /** A stored fact: a string, or `undefined` (an age whose guard held on a message without digits). */
  datatype FactValue = Undefined | Given(text: string)

  type Facts = map<FactKey, FactValue>

  /** The TypeError raised by calling `.trim()` on a split piece that does not exist. */
  datatype ExtractError = MissingPiece(key: FactKey)

  const NamePhrase := "my name is"
  const AgePhrase := "i am"
  const YearsPhrase := "years old"
  const LivePhrase := "i live in"
  const FromPhrase := "i am from"
  /** Both location phrases are nine characters long. */
  const PhraseLength := 9
  const Terminators := {'.', ',', '!', '?'}

  /** `\d` without the unicode flag: an ASCII digit. */
  predicate IsDigit(c: char) {
    '0' <= c <= '9'
  }

  function DigitRunLength(s: string): (n: nat)
    ensures n <= |s|
    ensures forall i :: 0 <= i < n ==> IsDigit(s[i])
    ensures n < |s| ==> !IsDigit(s[n])
  {
    if s != [] && IsDigit(s[0]) then 1 + DigitRunLength(s[1..]) else 0
  }

  /** Index of the first digit of `s`, if any. */
  function FirstDigitAt(s: string): (r: Option<nat>)
    ensures r.Some? ==> r.value < |s| && IsDigit(s[r.value])
    ensures r.Some? ==> forall i :: 0 <= i < r.value ==> !IsDigit(s[i])
    ensures r.None? ==> forall i :: 0 <= i < |s| ==> !IsDigit(s[i])
  {
    if s == [] then None
    else if IsDigit(s[0]) then Some(0)
    else match FirstDigitAt(s[1..])
      case None => None
      case Some(i) => Some(i + 1)
  }

  /** `message.match(/\d+/)?.[0]`: the leftmost, longest run of digits. */
  function FirstDigitRun(s: string): (r: Option<string>)
    ensures r.None? <==> forall i :: 0 <= i < |s| ==> !IsDigit(s[i])
    ensures r.Some? ==> r.value != [] && forall i :: 0 <= i < |r.value| ==> IsDigit(r.value[i])
    ensures r.Some? ==> var i := FirstDigitAt(s).value;
      && i + |r.value| <= |s|
      && r.value == s[i..i + |r.value|]
      && (i + |r.value| < |s| ==> !IsDigit(s[i + |r.value|]))
  {
    match FirstDigitAt(s)
    case None => None
    case Some(i) =>
      var n := DigitRunLength(s[i..]);
      assert s[i..][..n] == s[i..i + n];
      Some(s[i..i + n])
  }

  /** `message.split('my name is')[1]`: the text between the first and second case-sensitive occurrence. */
  function NamePiece(message: string): (r: Option<string>)
    ensures r.None? <==> !Contains(message, NamePhrase)
  {
    var parts := Split(message, NamePhrase);
    SplitHead(message, NamePhrase);
    if |parts| < 2 then None else Some(parts[1])
  }

  /**
   * Where the name piece lies: it starts right after the first "my name is",
   * holds no other, and runs up to the next one or to the end of the message.
   */
  lemma NamePieceBetween(message: string)
    requires Contains(message, NamePhrase)
    ensures var start := IndexOf(message, NamePhrase).value + |NamePhrase|;
      var piece := NamePiece(message).value;
      && start <= |message|
      && IsPrefix(piece, message[start..])
      && !Contains(piece, NamePhrase)
      && (start + |piece| == |message| || OccursAt(message, NamePhrase, start + |piece|))
  {
    SecondPiece(message, NamePhrase);
  }

  /** `s.split(' ')[0]`: the text before the first space. */
  function FirstWord(s: string): (r: string)
    ensures IsPrefix(r, s) && ' ' !in r
    ensures |r| < |s| ==> s[|r|] == ' '
  {
    SplitHead(s, " ");
    ContainsChar(Split(s, " ")[0], ' ');
    Split(s, " ")[0]
  }

  /** A location phrase, matched case-insensitively, starts at `j`. */
  predicate PhraseAt(lower: string, j: nat) {
    OccursAt(lower, LivePhrase, j) || OccursAt(lower, FromPhrase, j)
  }

  /** The first match of `/(?:i live in|i am from)/i` at or after `from`, found in the lower-cased text. */
  function PhraseFrom(lower: string, from: nat): (r: Option<nat>)
    decreases |lower| + 1 - from
    ensures r.Some? ==> from <= r.value && r.value + PhraseLength <= |lower| && PhraseAt(lower, r.value)
    ensures r.Some? ==> forall j :: from <= j < r.value ==> !PhraseAt(lower, j)
    ensures r.None? ==> forall j: nat :: from <= j ==> !OccursAt(lower, LivePhrase, j) && !OccursAt(lower, FromPhrase, j)
  {
    if from + PhraseLength > |lower| then None
    else if PhraseAt(lower, from) then Some(from)
    else PhraseFrom(lower, from + 1)
  }

  /**
   * `message.split(/(?:i live in|i am from)/i)[1]`: the text between the first
   * and the second match of either phrase.
   */
  function LocationPiece(message: string): (r: Option<string>)
    ensures r.None? <==> !Contains(ToLower(message), LivePhrase) && !Contains(ToLower(message), FromPhrase)
  {
    PieceAfterPhrase(message, ToLower(message))
  }

  /** The piece of `message` between the first and second phrase match found in `lower`, its lower-cased form. */
  function PieceAfterPhrase(message: string, lower: string): (r: Option<string>)
    requires |lower| == |message|
    ensures r.None? <==> PhraseFrom(lower, 0).None?
  {
    match PhraseFrom(lower, 0)
    case None => None
    case Some(i) =>
      var start := i + PhraseLength;
      var end := match PhraseFrom(lower, start) case None => |message| case Some(j) => j;
      Some(message[start..end])
  }

  /**
   * Where the location piece lies: it starts right after the first match of
   * either phrase, holds no further match, and runs up to the next match or to
   * the end of the message.
   */
  lemma LocationPieceBetween(message: string)
    requires Contains(ToLower(message), LivePhrase) || Contains(ToLower(message), FromPhrase)
    ensures LocationPiece(message).Some?
    ensures LocationPiece(message) == PieceAfterPhrase(message, ToLower(message))
    ensures var lower := ToLower(message);
      var start := PhraseFrom(lower, 0).value + PhraseLength;
      var piece := PieceAfterPhrase(message, lower).value;
      && start <= |message|
      && IsPrefix(piece, message[start..])
      && (forall j :: start <= j < start + |piece| ==> !PhraseAt(lower, j))
      && (start + |piece| == |message| || PhraseAt(lower, start + |piece|))
  {
    PieceBetweenPhrases(message, ToLower(message));
  }

  /** The piece found in any lower-cased form of the message lies between two phrase matches. */
  lemma PieceBetweenPhrases(message: string, lower: string)
    requires |lower| == |message| && PhraseFrom(lower, 0).Some?
    ensures var start := PhraseFrom(lower, 0).value + PhraseLength;
      var piece := PieceAfterPhrase(message, lower).value;
      && start <= |message|
      && IsPrefix(piece, message[start..])
      && (forall j :: start <= j < start + |piece| ==> !PhraseAt(lower, j))
      && (start + |piece| == |message| || PhraseAt(lower, start + |piece|))
  {
    var start := PhraseFrom(lower, 0).value + PhraseLength;
    var piece := PieceAfterPhrase(message, lower).value;
    match PhraseFrom(lower, start)
    case None =>
      assert piece == message[start..];
      forall j | start <= j < start + |piece|
        ensures !PhraseAt(lower, j)
      {
        assert !OccursAt(lower, LivePhrase, j) && !OccursAt(lower, FromPhrase, j);
      }
    case Some(e) =>
      assert piece == message[start..e];
      assert PhraseAt(lower, start + |piece|);
  }

  /**
   * `extractUserInfo(message)`: a key is present exactly when its guard holds on
   * the lower-cased message; a guard that holds without the piece it cuts
   * from raises the TypeError.
   */
  function ExtractUserInfo(message: string): (r: Result<Facts, ExtractError>)
    ensures r.Failure? <==> Contains(ToLower(message), NamePhrase) && !Contains(message, NamePhrase)
    ensures r.Failure? ==> r.error == MissingPiece(Name)
  {
    var lower := ToLower(message);
    var hasName := Contains(lower, NamePhrase);
    var hasAge := Contains(lower, AgePhrase) && Contains(lower, YearsPhrase);
    var hasLocation := Contains(lower, LivePhrase) || Contains(lower, FromPhrase);
    if hasName && NamePiece(message).None? then Failure(MissingPiece(Name))
    else if hasLocation && LocationPiece(message).None? then Failure(MissingPiece(Location))
    else
      var name: Facts :=
        if hasName then map[Name := Given(FirstWord(Trim(NamePiece(message).value)))] else map[];
      var age: Facts :=
        if hasAge then map[Age := match FirstDigitRun(message) case None => Undefined case Some(d) => Given(d)]
        else map[];
      var location: Facts :=
        if hasLocation then map[Location := Given(PrefixBefore(Trim(LocationPiece(message).value), Terminators))]
        else map[];
      Success(name + age + location)
  }

  /** A fact is stored exactly when its guard holds on the lower-cased message. */
  lemma ExtractedKeys(message: string)
    requires ExtractUserInfo(message).Success?
    ensures Name in ExtractUserInfo(message).value <==> Contains(ToLower(message), NamePhrase)
    ensures Age in ExtractUserInfo(message).value
      <==> Contains(ToLower(message), AgePhrase) && Contains(ToLower(message), YearsPhrase)
    ensures Location in ExtractUserInfo(message).value
      <==> Contains(ToLower(message), LivePhrase) || Contains(ToLower(message), FromPhrase)
  {
    var info := ExtractUserInfo(message).value;
    assert Name in info <==> Contains(ToLower(message), NamePhrase);
    assert Age in info <==> Contains(ToLower(message), AgePhrase) && Contains(ToLower(message), YearsPhrase);
  }

  /**
   * The name is the first space-delimited word of the trimmed text after the
   * first exact "my name is", so it holds no space.
   */
  lemma NameIsFirstWord(message: string)
    requires Contains(message, NamePhrase)
    ensures ExtractUserInfo(message).Success?
    ensures Name in ExtractUserInfo(message).value
    ensures ExtractUserInfo(message).value[Name] == Given(FirstWord(Trim(NamePiece(message).value)))
    ensures ' ' !in ExtractUserInfo(message).value[Name].text
  {
    LowerOccurs(message, NamePhrase, IndexOf(message, NamePhrase).value);
    assert ToLower(NamePhrase) == NamePhrase;
    ExtractedKeys(message);
  }

  /**
   * The age is the first run of digits anywhere in the message, or `undefined`
   * exactly when the message has no digit.
   */
  lemma AgeIsFirstDigitRun(message: string)
    requires ExtractUserInfo(message).Success?
    requires Contains(ToLower(message), AgePhrase) && Contains(ToLower(message), YearsPhrase)
    ensures Age in ExtractUserInfo(message).value
    ensures ExtractUserInfo(message).value[Age]
      == if FirstDigitRun(message).Some? then Given(FirstDigitRun(message).value) else Undefined
    ensures ExtractUserInfo(message).value[Age] == Undefined <==> forall i :: 0 <= i < |message| ==> !IsDigit(message[i])
  {
    ExtractedKeys(message);
  }

  /**
   * The location is the trimmed text after the first location phrase, cut at
   * the first terminator, so it holds no terminator.
   */
  lemma LocationIsTrimmedPiece(message: string)
    requires ExtractUserInfo(message).Success?
    requires Contains(ToLower(message), LivePhrase) || Contains(ToLower(message), FromPhrase)
    ensures Location in ExtractUserInfo(message).value
    ensures ExtractUserInfo(message).value[Location]
      == Given(PrefixBefore(Trim(LocationPiece(message).value), Terminators))
    ensures forall c :: c in ExtractUserInfo(message).value[Location].text ==> c !in Terminators
  {
    ExtractedKeys(message);
  }
}
