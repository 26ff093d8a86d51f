/**
 * `handleChatbotResponse`: when the chatbot is on for a chat and a message
 * mentions the bot or replies to it, the sender's conversation memory is
 * updated and an answer is produced.
 */
module Response {
  import opened Wrappers
  import opened Strings
  import opened Identity
  import opened UserInfo
  import opened Brevity
  import Command

  /** The kind of message that arrived, with the context fields the handler reads. */
  datatype Envelope =
    | ExtendedText(mentionedJid: seq<string>, quotedParticipant: Option<string>)
    | Conversation
    | OtherKind

  /** The bot is mentioned: listed among the mentioned ids, or, in a plain conversation, its `@number` occurs in the text. */
  predicate Mentioned(env: Envelope, userMessage: string, botNumber: string)
    ensures env.OtherKind? ==> !Mentioned(env, userMessage, botNumber)
  {
    match env
    case ExtendedText(jids, _) => botNumber in jids
    case Conversation => Contains(userMessage, MentionToken(botNumber))
    case OtherKind => false
  }

  /** The message quotes one of the bot's own messages; only an extended text message can. */
  predicate RepliedTo(env: Envelope, botNumber: string)
    ensures RepliedTo(env, botNumber) ==> env.ExtendedText? && env.quotedParticipant.Some?
  {
    env.ExtendedText? && env.quotedParticipant == Some(botNumber)
  }

  /** The handler goes past its gate: the chatbot is on for the chat and the bot is mentioned or replied to. */
  predicate Triggered(chatbot: map<string, bool>, chatId: string, env: Envelope, userMessage: string, userId: string)
    ensures Triggered(chatbot, chatId, env, userMessage, userId) ==> Command.Enabled(chatbot, chatId)
    ensures env.OtherKind? ==> !Triggered(chatbot, chatId, env, userMessage, userId)
  {
    var botNumber := BotNumber(userId);
    Command.Enabled(chatbot, chatId) && (Mentioned(env, userMessage, botNumber) || RepliedTo(env, botNumber))
  }

  /** The text passed on: with every `@number` of the bot removed and then trimmed when the bot was mentioned. */
  function Cleaned(env: Envelope, userMessage: string, botNumber: string): (r: string)
    ensures !Mentioned(env, userMessage, botNumber) ==> r == userMessage
    ensures Mentioned(env, userMessage, botNumber) ==> |r| <= |userMessage|
    ensures Mentioned(env, userMessage, botNumber) ==> r == Trim(Join(Split(userMessage, MentionToken(botNumber)), ""))
    ensures Mentioned(env, userMessage, botNumber) && !Contains(userMessage, MentionToken(botNumber)) ==> r == Trim(userMessage)
  {
    if Mentioned(env, userMessage, botNumber) then
      var token := MentionToken(botNumber);
      RemoveAllIsSplitJoin(userMessage, token);
      RemoveAllAbsent(userMessage, token);
      Trim(RemoveAll(userMessage, token))
    else userMessage
  }

  /** The random skip: a draw below 0.1 drops the message unless its raw text mentions code or help. */
  predicate Ignored(userMessage: string, roll: real)
    ensures Ignored(userMessage, roll) ==> roll < 0.1
    ensures Contains(userMessage, "code") || Contains(userMessage, "help") ==> !Ignored(userMessage, roll)
  {
    roll < 0.1 && !AsksForCodeOrHelp(userMessage)
  }

  /** How many messages a sender's history keeps. */
  const MaxHistory := 20

  /** Pushing a message onto a history, then dropping the oldest when over the cap. */
  function Remember(history: seq<string>, message: string): (r: seq<string>)
    ensures |history| < MaxHistory ==> r == history + [message]
    ensures |history| >= MaxHistory ==> r == history[1..] + [message]
  {
    var pushed := history + [message];
    if |pushed| > MaxHistory then pushed[1..] else pushed
  }

  /** The last `n` elements of `s`, or all of them when there are fewer. */
  function LastN(s: seq<string>, n: nat): (r: seq<string>)
    ensures |r| == if |s| < n then |s| else n
    ensures forall k :: 0 <= k < |r| ==> r[k] == s[|s| - |r| + k]
  {
    if |s| <= n then s else s[|s| - n..]
  }

  /** A history that holds the last 20 messages still does after one more arrives. */
  lemma RememberLast(arrived: seq<string>, message: string)
    ensures Remember(LastN(arrived, MaxHistory), message) == LastN(arrived + [message], MaxHistory)
  {
    var all := arrived + [message];
    if |arrived| >= MaxHistory {
      assert LastN(arrived, MaxHistory)[1..] + [message] == all[|all| - MaxHistory..];
    }
  }

  /**
   * The history built from an empty one by the messages `ms`, one after another:
   * the pure counterpart of `ChatMemory.Append`, whose invariant `Valid` keeps
   * each history equal to `LastN` of the messages that arrived.
   */
  function Replay(ms: seq<string>): (r: seq<string>)
    ensures |r| <= MaxHistory
  {
    if ms == [] then [] else Remember(Replay(ms[..|ms| - 1]), ms[|ms| - 1])
  }

  /** A history holds exactly the last min(20, n) of the n messages pushed onto it, oldest first. */
  lemma {:induction false} ReplayIsLast(ms: seq<string>)
    ensures Replay(ms) == LastN(ms, MaxHistory)
  {
    if ms != [] {
      var init, m := ms[..|ms| - 1], ms[|ms| - 1];
      assert ms == init + [m];
      calc {
        Replay(ms);
        Remember(Replay(init), m);
        { ReplayIsLast(init); }
        Remember(LastN(init, MaxHistory), m);
        { RememberLast(init, m); }
        LastN(init + [m], MaxHistory);
      }
    }
  }

  /**
   * After 21 messages the history holds the second to the twenty-first, in order,
   * both when replayed and as `Valid` states it for a sender of the memory.
   */
  lemma TwentyOneMessages(ms: seq<string>)
    requires |ms| == MaxHistory + 1
    ensures LastN(ms, MaxHistory) == ms[1..]
    ensures Replay(ms) == ms[1..]
  {
    ReplayIsLast(ms);
  }

  /** The facts stored after learning `info`: `{...stored, ...info}`, the newer value winning. */
  function MergeFacts(stored: Facts, info: Facts): (r: Facts)
    ensures r.Keys == stored.Keys + info.Keys
    ensures forall k :: k in info ==> r[k] == info[k]
    ensures forall k :: k in stored && k !in info ==> r[k] == stored[k]
  {
    stored + info
  }

  /** Learning nothing leaves the stored facts as they were; learning the same facts twice is learning them once. */
  lemma MergeFactsNeutralIdempotent(stored: Facts, info: Facts)
    ensures MergeFacts(stored, map[]) == stored
    ensures MergeFacts(MergeFacts(stored, info), info) == MergeFacts(stored, info)
  {
    assert MergeFacts(stored, map[]).Keys == stored.Keys;
    var once := MergeFacts(stored, info);
    assert MergeFacts(once, info).Keys == once.Keys;
  }

  /**
   * An age phrase without digits stores `undefined` for the age, so it erases
   * an age learned earlier.
   */
  lemma AgeWithoutDigitsErases(stored: Facts, message: string)
    requires ExtractUserInfo(message).Success?
    requires Contains(ToLower(message), AgePhrase) && Contains(ToLower(message), YearsPhrase)
    requires FirstDigitAt(message).None?
    ensures MergeFacts(stored, ExtractUserInfo(message).value)[Age] == Undefined
  {
    AgeIsFirstDigitRun(message);
  }

  /** A second update of the same key overrides the first. */
  lemma UpdateTwice<K, V>(m: map<K, V>, k: K, a: V, b: V)
    ensures m[k := a][k := b] == m[k := b]
  {
  }

  /** The history of a sender in the memory, empty when the sender is new. */
  function HistoryOf(messages: map<string, seq<string>>, sender: string): (h: seq<string>)
    ensures sender in messages ==> h == messages[sender]
    ensures sender !in messages ==> h == []
  {
    if sender in messages then messages[sender] else []
  }

  /** The facts about a sender in the memory, none when the sender is new. */
  function FactsOf(userInfo: map<string, Facts>, sender: string): (f: Facts)
    ensures sender in userInfo ==> f == userInfo[sender]
    ensures sender !in userInfo ==> f == map[]
  {
    if sender in userInfo then userInfo[sender] else map[]
  }

  /**
   * The process-wide conversation memory: per sender, the last messages and
   * the facts learned. `arrived` records every message appended for a sender,
   * so that the history can be stated as the tail of it.
   */
  class ChatMemory {
    var messages: map<string, seq<string>>
    var userInfo: map<string, Facts>
    ghost var arrived: map<string, seq<string>>

    ghost predicate Valid()
      reads this
    {
      && messages.Keys == userInfo.Keys == arrived.Keys
      && forall k :: k in messages ==> messages[k] == LastN(arrived[k], MaxHistory)
    }

    constructor ()
      ensures Valid()
      ensures messages == map[] && userInfo == map[] && arrived == map[]
    {
      messages := map[];
      userInfo := map[];
      arrived := map[];
    }

    /** A sender seen for the first time gets an empty history and no facts. */
    method Initialize(sender: string)
      requires Valid()
      modifies this
      ensures Valid()
      ensures messages == old(messages)[sender := HistoryOf(old(messages), sender)]
      ensures userInfo == old(userInfo)[sender := FactsOf(old(userInfo), sender)]
      ensures arrived == old(arrived)[sender := HistoryOf(old(arrived), sender)]
    {
      if sender !in messages {
        messages := messages[sender := []];
        userInfo := userInfo[sender := map[]];
        arrived := arrived[sender := []];
      }
    }

    /** Merge newly learned facts into a known sender's facts. */
    method RecordFacts(sender: string, info: Facts)
      requires Valid() && sender in userInfo
      modifies this
      ensures Valid()
      ensures messages == old(messages) && arrived == old(arrived)
      ensures userInfo == old(userInfo)[sender := MergeFacts(old(userInfo)[sender], info)]
    {
      userInfo := userInfo[sender := MergeFacts(userInfo[sender], info)];
    }

    /** Append a message to a known sender's history, dropping the oldest beyond 20. */
    method Append(sender: string, message: string)
      requires Valid() && sender in messages
      modifies this
      ensures Valid()
      ensures messages == old(messages)[sender := Remember(old(messages)[sender], message)]
      ensures userInfo == old(userInfo)
      ensures arrived == old(arrived)[sender := old(arrived)[sender] + [message]]
    {
      var history := messages[sender];
      history := history + [message];
      if |history| > MaxHistory {
        history := history[1..];
      }
      RememberLast(arrived[sender], message);
      messages := messages[sender := history];
      arrived := arrived[sender := arrived[sender] + [message]];
    }

    /**
     * The part of the handler after the gate: a sender seen for the first time
     * gets an empty history and no facts; then the facts in `cleaned` are
     * merged in and `cleaned` is appended to the history. Extraction can throw
     * (a Failure), and then only the first step has happened.
     */
    method Learn(senderId: string, cleaned: string) returns (ok: bool)
      requires Valid()
      modifies this
      ensures Valid()
      ensures ok <==> ExtractUserInfo(cleaned).Success?
      ensures !ok ==>
        && messages == old(messages)[senderId := HistoryOf(old(messages), senderId)]
        && userInfo == old(userInfo)[senderId := FactsOf(old(userInfo), senderId)]
        && arrived == old(arrived)[senderId := HistoryOf(old(arrived), senderId)]
      ensures ok ==>
        && messages == old(messages)[senderId := Remember(HistoryOf(old(messages), senderId), cleaned)]
        && userInfo == old(userInfo)[senderId := MergeFacts(FactsOf(old(userInfo), senderId), ExtractUserInfo(cleaned).value)]
        && arrived == old(arrived)[senderId := HistoryOf(old(arrived), senderId) + [cleaned]]
    {
      ghost var m0, u0, a0 := messages, userInfo, arrived;
      ghost var h0, f0, g0 := HistoryOf(m0, senderId), FactsOf(u0, senderId), HistoryOf(a0, senderId);
      Initialize(senderId);
      var extracted := ExtractUserInfo(cleaned);
      if extracted.Failure? {
        return false;
      }
      var info := extracted.value;
      ghost var u1 := userInfo;
      assert u1 == u0[senderId := f0];
      if |info| > 0 {
        RecordFacts(senderId, info);
        assert userInfo == u1[senderId := MergeFacts(f0, info)];
        UpdateTwice(u0, senderId, f0, MergeFacts(f0, info));
      } else {
        assert info == map[];
        MergeFactsNeutralIdempotent(f0, info);
      }
      ghost var m1, a1 := messages, arrived;
      assert m1 == m0[senderId := h0];
      assert a1 == a0[senderId := g0];
      Append(senderId, cleaned);
      assert messages == m1[senderId := Remember(h0, cleaned)];
      UpdateTwice(m0, senderId, h0, Remember(h0, cleaned));
      UpdateTwice(a0, senderId, g0, g0 + [cleaned]);
      return true;
    }

    /**
     * `handleChatbotResponse` for the settings' `chatbot` map, the message
     * envelope, its text and its sender; `userId` is the transport's id for the
     * bot. The random draws and the service's cleaned answer are inputs. The
     * result is the text sent back, None when nothing is sent.
     */
    method HandleResponse(chatbot: map<string, bool>, chatId: string, env: Envelope, userMessage: string,
                          senderId: string, userId: string, ignoreRoll: real, generated: Option<string>,
                          fillerRoll: real)
      returns (reply: Option<string>)
      requires Valid()
      modifies this
      ensures Valid()
      ensures !Triggered(chatbot, chatId, env, userMessage, userId) ==>
        reply.None? && messages == old(messages) && userInfo == old(userInfo) && arrived == old(arrived)
      ensures Triggered(chatbot, chatId, env, userMessage, userId) ==>
        var cleaned := Cleaned(env, userMessage, BotNumber(userId));
        if ExtractUserInfo(cleaned).Failure? then
          && reply == Some(Scoff)
          && messages == old(messages)[senderId := HistoryOf(old(messages), senderId)]
          && userInfo == old(userInfo)[senderId := FactsOf(old(userInfo), senderId)]
          && arrived == old(arrived)[senderId := HistoryOf(old(arrived), senderId)]
        else
          && messages == old(messages)[senderId := Remember(HistoryOf(old(messages), senderId), cleaned)]
          && userInfo == old(userInfo)[senderId := MergeFacts(FactsOf(old(userInfo), senderId), ExtractUserInfo(cleaned).value)]
          && arrived == old(arrived)[senderId := HistoryOf(old(arrived), senderId) + [cleaned]]
          && reply == if Ignored(userMessage, ignoreRoll) then None
                      else Some(ReplyText(AiResponse(cleaned, generated, fillerRoll)))
    {
      var triggered, cleaned := Gate(chatbot, chatId, env, userMessage, userId);
      if !triggered {
        return None;
      }
      var ok := Learn(senderId, cleaned);
      if !ok {
        return Some(Scoff);
      }
      if ignoreRoll < 0.1 && !AsksForCodeOrHelp(userMessage) {
        return None;
      }
      var response := AiResponse(cleaned, generated, fillerRoll);
      reply := Some(ReplyText(response));
    }
  }

  /**
   * The gate of `handleChatbotResponse`: whether it goes on, and the text it
   * goes on with.
   */
  method Gate(chatbot: map<string, bool>, chatId: string, env: Envelope, userMessage: string, userId: string)
    returns (triggered: bool, cleaned: string)
    ensures triggered <==> Triggered(chatbot, chatId, env, userMessage, userId)
    ensures triggered ==> cleaned == Cleaned(env, userMessage, BotNumber(userId))
  {
    if !(chatId in chatbot && chatbot[chatId]) {
      return false, userMessage;
    }
    var botNumber := BotNumber(userId);
    var isBotMentioned := false;
    var isReplyToBot := false;
    match env {
      case ExtendedText(jids, quoted) =>
        isBotMentioned := botNumber in jids;
        isReplyToBot := quoted == Some(botNumber);
      case Conversation =>
        isBotMentioned := Contains(userMessage, MentionToken(botNumber));
      case OtherKind =>
    }
    if !isBotMentioned && !isReplyToBot {
      return false, userMessage;
    }
    cleaned := userMessage;
    if isBotMentioned {
      cleaned := Trim(RemoveAll(cleaned, MentionToken(botNumber)));
    }
    triggered := true;
  }

  /** After any number of handled messages, every sender's history holds at most 20 messages. */
  lemma HistoryBounded(memory: ChatMemory, sender: string)
    requires memory.Valid() && sender in memory.messages
    ensures |memory.messages[sender]| <= MaxHistory
  {
  }
}
