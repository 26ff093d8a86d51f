/**
 * Identities the chatbot derives from the transport: the bot's own user id,
 * the token that mentions it in a plain conversation message, and group chats.
 */
module Identity {
  import opened Strings

  const UserSuffix := "@s.whatsapp.net"
  const GroupSuffix := "@g.us"

  /**
   * The bot's number: the transport-assigned user id up to its first ':',
   * followed by the user-address suffix.
   */
  function BotNumber(userId: string): (r: string)
    ensures EndsWith(r, UserSuffix)
    ensures IsPrefix(r[..|r| - |UserSuffix|], userId)
    ensures ':' !in r[..|r| - |UserSuffix|]
    ensures ':' in userId ==> userId[|r| - |UserSuffix|] == ':'
    ensures ':' !in userId ==> r == userId + UserSuffix
  {
    var number := Split(userId, ":")[0];
    SplitHead(userId, ":");
    ContainsChar(number, ':');
    ContainsChar(userId, ':');
    assert (number + UserSuffix)[..|number|] == number;
    number + UserSuffix
  }

  /** `'@' + botNumber.split('@')[0]`: the text a user types to mention the bot. */
  function MentionToken(botNumber: string): (r: string)
    ensures |r| >= 1 && r[0] == '@' && '@' !in r[1..]
    ensures IsPrefix(r[1..], botNumber)
    ensures '@' in botNumber ==> botNumber[|r| - 1] == '@'
    ensures '@' !in botNumber ==> r == "@" + botNumber
  {
    var head := Split(botNumber, "@")[0];
    SplitHead(botNumber, "@");
    ContainsChar(head, '@');
    ContainsChar(botNumber, '@');
    assert (['@'] + head)[1..] == head;
    "@" + head
  }

  /** When the user id holds no '@' before its first ':', the mention token is '@' followed by that number. */
  lemma MentionOfBot(userId: string)
    requires '@' !in Split(userId, ":")[0]
    ensures MentionToken(BotNumber(userId)) == "@" + Split(userId, ":")[0]
  {
    var n := Split(userId, ":")[0];
    var b := BotNumber(userId);
    assert b == n + UserSuffix;
    var f := Split(b, "@")[0];
    SplitHead(b, "@");
    ContainsChar(f, '@');
    ContainsChar(b, '@');
    assert b[|n|] == '@';
    assert f == b[..|n|] == n;
  }

  /** A chat id names a group chat when it ends in the group suffix. */
  predicate IsGroup(chatId: string)
    ensures IsGroup(chatId) ==> !EndsWith(chatId, UserSuffix)
  {
    GroupIdIsNoUserId(chatId);
    EndsWith(chatId, GroupSuffix)
  }

  /** The two suffixes end in different characters, so no id carries both. */
  lemma GroupIdIsNoUserId(chatId: string)
    ensures EndsWith(chatId, GroupSuffix) ==> !EndsWith(chatId, UserSuffix)
  {
    if EndsWith(chatId, GroupSuffix) {
      var n := |chatId|;
      assert chatId[n - 1] == chatId[n - |GroupSuffix|..][|GroupSuffix| - 1] == 's';
      if |UserSuffix| <= n {
        assert chatId[n - |UserSuffix|..][|UserSuffix| - 1] == 's' != UserSuffix[|UserSuffix| - 1];
      }
    }
  }
}
