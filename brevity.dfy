/**
 * What happens to a generated answer before it is sent: the brevity rule
 * (more than fifteen space-separated pieces keeps only the first sentence)
 * and the random substitution of a filler reply.
 */
module Brevity {
  import opened Wrappers
  import opened Strings

  const MaxWords := 15
  const SentenceBreak := ". "
  /** The two filler replies. */
  const Silence := "..."
  const Scoff := "Tch."

  /** `text.split(' ').length`: the number of pieces between single spaces. */
  function WordCount(text: string): (n: nat)
    ensures n >= 1
  {
    |Split(text, " ")|
  }

  /** A text is over the limit exactly when it holds at least fifteen space characters. */
  lemma WordCountIsSpacesPlusOne(text: string)
    ensures WordCount(text) == CountChar(text, ' ') + 1
    ensures WordCount(text) > MaxWords <==> CountChar(text, ' ') >= MaxWords
  {
    SplitCharCount(text, ' ');
  }

  /**
   * The brevity rule: a text of at most fifteen pieces is kept; a longer one is
   * cut before its first ". " and ends in a full stop.
   */
  function Brief(text: string): (r: string)
    ensures WordCount(text) <= MaxWords ==> r == text
    ensures WordCount(text) > MaxWords ==> EndsWith(r, ".") && !Contains(r, SentenceBreak)
    ensures WordCount(text) > MaxWords ==> IsPrefix(r, text) || r == text + "."
    ensures WordCount(text) > MaxWords && !Contains(text, SentenceBreak) ==> r == text || r == text + "."
    ensures WordCount(text) > MaxWords && Contains(text, SentenceBreak) ==>
      IndexOf(text, SentenceBreak).value == |r| - 1 || IndexOf(text, SentenceBreak).value == |r|
    ensures WordCount(text) > MaxWords ==>
      var cut := if Contains(text, SentenceBreak) then IndexOf(text, SentenceBreak).value else |text|;
      r == if EndsWith(text[..cut], ".") then text[..cut] else text[..cut] + "."
  {
    if WordCount(text) > MaxWords then
      var first := Split(text, SentenceBreak)[0];
      FirstSentence(text);
      assert first == text[..|first|];
      if EndsWith(first, ".") then first else first + "."
    else text
  }

  /** The text before the first ". ": a prefix holding no break, which ends where the first break starts. */
  lemma FirstSentence(text: string)
    ensures var first := Split(text, SentenceBreak)[0];
      && IsPrefix(first, text)
      && !Contains(first, SentenceBreak)
      && !Contains(first + ".", SentenceBreak)
      && (!Contains(text, SentenceBreak) ==> first == text)
      && (Contains(text, SentenceBreak) ==> IndexOf(text, SentenceBreak) == Some(|first|))
      && (Contains(text, SentenceBreak) ==> IsPrefix(first + ".", text))
  {
    SplitHead(text, SentenceBreak);
    FullStopKeepsSentence(Split(text, SentenceBreak)[0]);
    if Contains(text, SentenceBreak) {
      SentenceBreakFollows(text, Split(text, SentenceBreak)[0]);
    }
  }

  /** Where a break follows a first sentence without one, that break is the first. */
  lemma SentenceBreakFollows(text: string, first: string)
    requires IsPrefix(first, text) && OccursAt(text, SentenceBreak, |first|)
    requires !Contains(first + ".", SentenceBreak)
    ensures IndexOf(text, SentenceBreak) == Some(|first|)
    ensures IsPrefix(first + ".", text)
  {
    var n := |first|;
    assert text[n] == text[n..n + 2][0] == '.';
    assert text[..n + 1] == first + ".";
    FirstOccurrence(text, SentenceBreak, n);
  }

  /** Appending a full stop to a text without ". " creates none. */
  lemma FullStopKeepsSentence(first: string)
    requires !Contains(first, SentenceBreak)
    ensures !Contains(first + ".", SentenceBreak)
  {
    var t := first + ".";
    forall j: nat | j + 2 <= |t|
      ensures !OccursAt(t, SentenceBreak, j)
    {
      if j + 2 <= |first| {
        assert first[j..j + 2] == t[j..j + 2];
        assert !OccursAt(first, SentenceBreak, j);
      } else {
        assert t[j..j + 2][1] == '.';
      }
    }
  }

  /** An occurrence with none before it is the first one. */
  lemma FirstOccurrence(s: string, p: string, i: nat)
    requires p != []
    requires OccursAt(s, p, i) && !Contains(s[..i + |p| - 1], p)
    ensures IndexOf(s, p) == Some(i)
  {
    PrefixOccurrences(s, p, i + |p| - 1);
    IndexOfFromFirst(s, p, 0);
    var k := IndexOf(s, p).value;
    if k < i {
      assert s[..i + |p| - 1][k..k + |p|] == s[k..k + |p|];
      assert OccursAt(s[..i + |p| - 1], p, k);
    }
  }

  /** Applying the rule to its own output changes nothing. */
  lemma BriefIdempotent(text: string)
    ensures Brief(Brief(text)) == Brief(text)
  {
    var r := Brief(text);
    if WordCount(text) > MaxWords && WordCount(r) > MaxWords {
      SplitHead(r, SentenceBreak);
    }
  }

  /**
   * `getAIResponse` once the service has answered: `generated` is the service's
   * text after the clean-up of instruction echoes, None when the call, its status
   * or its body failed. `roll` is the random draw in [0, 1).
   */
  function AiResponse(message: string, generated: Option<string>, roll: real): (r: Option<string>)
    ensures generated.None? ==> r.None?
    ensures generated.Some? ==> r.Some?
    ensures generated.Some? ==> r.value == Brief(generated.value) || r.value == Silence || r.value == Scoff
    ensures generated.Some? && r.value != Brief(generated.value) ==> roll < 0.25 && !AsksForCodeOrHelp(message)
    ensures generated.Some? && !AsksForCodeOrHelp(message) && roll < 0.15 ==> r.value == Silence
    ensures generated.Some? && !AsksForCodeOrHelp(message) && 0.15 <= roll < 0.25 ==> r.value == Scoff
  {
    match generated
    case None => None
    case Some(text) =>
      var answer := Brief(text);
      if roll < 0.15 && !AsksForCodeOrHelp(message) then Some(Silence)
      else if roll < 0.25 && !AsksForCodeOrHelp(message) then Some(Scoff)
      else Some(answer)
  }

  /** The message mentions code or help, case-insensitively. */
  predicate AsksForCodeOrHelp(message: string)
    ensures Contains(message, "code") || Contains(message, "help") ==> AsksForCodeOrHelp(message)
  {
    LowerMentions(message, "code");
    LowerMentions(message, "help");
    Contains(ToLower(message), "code") || Contains(ToLower(message), "help")
  }

  /** A lower-case word found in a message is found, case-insensitively, in its lower-cased form. */
  lemma LowerMentions(message: string, word: string)
    requires ToLower(word) == word
    ensures Contains(message, word) ==> Contains(ToLower(message), word)
  {
    if Contains(message, word) {
      var i := IndexOf(message, word).value;
      LowerOccurs(message, word, i);
    }
  }

  /** The text the handler sends for a response: an absent or empty response becomes the silence filler. */
  function ReplyText(response: Option<string>): (r: string)
    ensures r != ""
    ensures response.None? || response.value == "" ==> r == Silence
    ensures response.Some? && response.value != "" ==> r == response.value
  {
    if response.None? || response.value == "" then Silence else response.value
  }

  /** A generated answer to a message about code or help is never replaced by a filler. */
  lemma CodeOrHelpAnswered(message: string, text: string, roll: real)
    requires AsksForCodeOrHelp(message) && text != ""
    ensures ReplyText(AiResponse(message, Some(text), roll)) == Brief(text)
  {
    if WordCount(text) > MaxWords {
      assert EndsWith(Brief(text), ".");
    }
  }
}
