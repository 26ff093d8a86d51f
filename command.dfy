/**
 * The `.chatbot` command: `on` and `off` switch the chatbot for one chat in the
 * settings document, for the bot's owner or a group admin; anything else gets
 * a fixed reply.
 */
module Command {
  import opened Wrappers
  import opened Strings
  import opened Identity

  const HelpText := "*Commands*\n\n*.chatbot on*\n*.chatbot off*"
  const AlreadyHere := "*Already here*"
  const Here := "*Here*"
  const AlreadyGone := "*Already gone*"
  const Gone := "*Gone*"
  const Refusal := "No."
  const Unknown := "*...*"

  /**
   * The settings document: `groups` is carried through untouched; `chatbot`
   * maps a chat id to its flag.
   */
  datatype UserGroupData = UserGroupData(groups: seq<string>, chatbot: map<string, bool>)

  /** Loading the document; a file that cannot be read or parsed (None) yields the empty document. */
  function LoadUserGroupData(file: Option<UserGroupData>): (d: UserGroupData)
    ensures file.None? ==> d.groups == [] && d.chatbot == map[]
    ensures file.Some? ==> d == file.value
  {
    match file
    case None => UserGroupData([], map[])
    case Some(data) => data
  }

  /** `data.chatbot[chatId]` is truthy. */
  predicate Enabled(chatbot: map<string, bool>, chatId: string)
    ensures chatId !in chatbot ==> !Enabled(chatbot, chatId)
  {
    chatId in chatbot && chatbot[chatId]
  }

  /** A string field of the message; None stands for `undefined`. */
  predicate Truthy(s: Option<string>)
    ensures s.None? ==> !Truthy(s)
    ensures Truthy(s) ==> |s.value| > 0
  {
    s.Some? && s.value != ""
  }

  /** The message's author fields, tried in this order to name the sender. */
  datatype Author = Author(keyParticipant: Option<string>, participant: Option<string>,
                           pushName: Option<string>, remoteJid: Option<string>)

  /** `a || b || c || d`: the first truthy field, else the last one as it is. */
  function SenderId(m: Author): (r: Option<string>)
    ensures r == m.keyParticipant || r == m.participant || r == m.pushName || r == m.remoteJid
    ensures Truthy(r) <==> Truthy(m.keyParticipant) || Truthy(m.participant) || Truthy(m.pushName) || Truthy(m.remoteJid)
    ensures Truthy(m.keyParticipant) ==> r == m.keyParticipant
    ensures !Truthy(m.keyParticipant) && Truthy(m.participant) ==> r == m.participant
    ensures !Truthy(m.keyParticipant) && !Truthy(m.participant) && Truthy(m.pushName) ==> r == m.pushName
    ensures !Truthy(m.keyParticipant) && !Truthy(m.participant) && !Truthy(m.pushName) ==> r == m.remoteJid
  {
    if Truthy(m.keyParticipant) then m.keyParticipant
    else if Truthy(m.participant) then m.participant
    else if Truthy(m.pushName) then m.pushName
    else m.remoteJid
  }

  /** A group member as the transport's group metadata lists it. */
  datatype Participant = Participant(id: string, admin: Option<string>)

  predicate IsAdminEntry(p: Participant, sender: string) {
    p.id == sender && (p.admin == Some("admin") || p.admin == Some("superadmin"))
  }

  /** `participants.some(p => p.id === senderId && (p.admin === 'admin' || p.admin === 'superadmin'))` */
  function AnyAdmin(participants: seq<Participant>, sender: string): (b: bool)
    ensures b <==> exists k :: 0 <= k < |participants| && IsAdminEntry(participants[k], sender)
  {
    if participants == [] then false
    else IsAdminEntry(participants[0], sender) || AnyAdmin(participants[1..], sender)
  }

  /** The sender is the bot's own account. */
  predicate IsOwner(sender: Option<string>, userId: string)
    ensures IsOwner(sender, userId) ==> sender.Some? && EndsWith(sender.value, UserSuffix)
  {
    sender == Some(BotNumber(userId))
  }

  /**
   * The sender is an admin of the chat: the chat is a group and its metadata
   * (None when fetching it failed) lists the sender as admin or superadmin.
   */
  predicate IsAdmin(chatId: string, sender: Option<string>, metadata: Option<seq<Participant>>)
    ensures IsAdmin(chatId, sender, metadata) <==>
      && IsGroup(chatId) && metadata.Some? && sender.Some?
      && exists k :: 0 <= k < |metadata.value| && IsAdminEntry(metadata.value[k], sender.value)
  {
    IsGroup(chatId) && metadata.Some? && sender.Some? && AnyAdmin(metadata.value, sender.value)
  }

  /** The caller may switch the chatbot: the bot's own account, or an admin of the group. */
  predicate Privileged(chatId: string, sender: Option<string>, userId: string, metadata: Option<seq<Participant>>)
    ensures Privileged(chatId, sender, userId, metadata) ==> sender.Some?
    ensures !IsGroup(chatId) ==> (Privileged(chatId, sender, userId, metadata) <==> IsOwner(sender, userId))
  {
    IsOwner(sender, userId) || IsAdmin(chatId, sender, metadata)
  }

  /** What a command does: the reply, the chatbot map afterwards, and whether the document is saved. */
  datatype Outcome = Outcome(reply: string, chatbot: map<string, bool>, saved: bool)

  /** The command's effect, stated over the caller's privilege. */
  function Decide(chatbot: map<string, bool>, chatId: string, privileged: bool, arg: Option<string>): (o: Outcome)
    ensures o.saved ==> privileged && Truthy(arg)
    ensures forall k :: k != chatId ==> (k in o.chatbot <==> k in chatbot)
    ensures forall k :: k != chatId && k in chatbot ==> o.chatbot[k] == chatbot[k]
  {
    if !Truthy(arg) then Outcome(HelpText, chatbot, false)
    else if !privileged then Outcome(Refusal, chatbot, false)
    else if arg.value == "on" then
      if Enabled(chatbot, chatId) then Outcome(AlreadyHere, chatbot, false)
      else Outcome(Here, chatbot[chatId := true], true)
    else if arg.value == "off" then
      if !Enabled(chatbot, chatId) then Outcome(AlreadyGone, chatbot, false)
      else Outcome(Gone, chatbot - {chatId}, true)
    else Outcome(Unknown, chatbot, false)
  }

  /** The settings document as one command invocation loads it and changes it in place. */
  class GroupData {
    var groups: seq<string>
    var chatbot: map<string, bool>

    constructor Load(file: Option<UserGroupData>)
      ensures groups == LoadUserGroupData(file).groups
      ensures chatbot == LoadUserGroupData(file).chatbot
    {
      var data := LoadUserGroupData(file);
      groups := data.groups;
      chatbot := data.chatbot;
    }

    /** Switch the chatbot on for `chatId` unless it already is. */
    method SwitchOn(chatId: string) returns (reply: string, saved: bool)
      modifies this
      ensures groups == old(groups)
      ensures Outcome(reply, chatbot, saved) == Decide(old(chatbot), chatId, true, Some("on"))
    {
      if chatId in chatbot && chatbot[chatId] {
        return AlreadyHere, false;
      }
      chatbot := chatbot[chatId := true];
      return Here, true;
    }

    /** Switch the chatbot off for `chatId` unless it already is. */
    method SwitchOff(chatId: string) returns (reply: string, saved: bool)
      modifies this
      ensures groups == old(groups)
      ensures Outcome(reply, chatbot, saved) == Decide(old(chatbot), chatId, true, Some("off"))
    {
      if !(chatId in chatbot && chatbot[chatId]) {
        return AlreadyGone, false;
      }
      chatbot := chatbot - {chatId};
      return Gone, true;
    }

    /**
     * `handleChatbotCommand`: `userId` is the transport's id for the bot,
     * `metadata` the group's participants (None when fetching them failed).
     * `saved` says whether the document is written back.
     */
    method HandleCommand(chatId: string, author: Author, userId: string, arg: Option<string>,
                         metadata: Option<seq<Participant>>)
      returns (reply: string, saved: bool)
      modifies this
      ensures groups == old(groups)
      ensures Outcome(reply, chatbot, saved)
        == Decide(old(chatbot), chatId, Privileged(chatId, SenderId(author), userId, metadata), arg)
    {
      if !Truthy(arg) {
        return HelpText, false;
      }
      var botNumber := BotNumber(userId);
      var senderId := SenderId(author);
      var isOwner := senderId == Some(botNumber);
      if isOwner {
        if arg.value == "on" {
          reply, saved := SwitchOn(chatId);
          return;
        }
        if arg.value == "off" {
          reply, saved := SwitchOff(chatId);
          return;
        }
      }
      var isAdmin := false;
      if EndsWith(chatId, GroupSuffix) && metadata.Some? && senderId.Some? {
        isAdmin := AnyAdmin(metadata.value, senderId.value);
      }
      if !isAdmin && !isOwner {
        return Refusal, false;
      }
      if arg.value == "on" {
        reply, saved := SwitchOn(chatId);
        return;
      }
      if arg.value == "off" {
        reply, saved := SwitchOff(chatId);
        return;
      }
      return Unknown, false;
    }
  }

  /** Without an argument the help text is sent and nothing changes. */
  lemma NoArgumentGetsHelp(chatbot: map<string, bool>, chatId: string, privileged: bool, arg: Option<string>)
    requires !Truthy(arg)
    ensures Decide(chatbot, chatId, privileged, arg) == Outcome(HelpText, chatbot, false)
  {
  }

  /** A caller who is neither owner nor group admin is refused and nothing changes. */
  lemma UnprivilegedRefused(chatbot: map<string, bool>, chatId: string, arg: Option<string>)
    requires Truthy(arg)
    ensures Decide(chatbot, chatId, false, arg) == Outcome(Refusal, chatbot, false)
  {
  }

  /** The owner is privileged whatever the group metadata says. */
  lemma OwnerPrivileged(chatId: string, userId: string, metadata: Option<seq<Participant>>)
    ensures Privileged(chatId, Some(BotNumber(userId)), userId, metadata)
  {
  }

  /** Anyone else is privileged exactly when the chat is a group that lists them as admin or superadmin. */
  lemma NonOwnerPrivilege(chatId: string, sender: Option<string>, userId: string, metadata: Option<seq<Participant>>)
    requires !IsOwner(sender, userId)
    ensures Privileged(chatId, sender, userId, metadata) <==>
      && EndsWith(chatId, GroupSuffix) && metadata.Some? && sender.Some?
      && exists k :: 0 <= k < |metadata.value| && metadata.value[k].id == sender.value
                     && metadata.value[k].admin in {Some("admin"), Some("superadmin")}
  {
  }

  /**
   * `on` leaves the chat enabled; it replies "Here" and saves exactly when the
   * chat was not enabled, and no other chat's entry changes.
   */
  lemma OnEnables(chatbot: map<string, bool>, chatId: string)
    ensures var o := Decide(chatbot, chatId, true, Some("on"));
      && Enabled(o.chatbot, chatId)
      && (o.saved <==> !Enabled(chatbot, chatId))
      && o.reply == (if Enabled(chatbot, chatId) then AlreadyHere else Here)
      && (Enabled(chatbot, chatId) ==> o.chatbot == chatbot)
      && o.chatbot.Keys == chatbot.Keys + {chatId}
      && forall k :: k in chatbot && k != chatId ==> o.chatbot[k] == chatbot[k]
  {
  }

  /**
   * `off` leaves the chat not enabled; when it was enabled exactly its entry is
   * deleted, the reply is "Gone" and the document is saved.
   */
  lemma OffDisables(chatbot: map<string, bool>, chatId: string)
    ensures var o := Decide(chatbot, chatId, true, Some("off"));
      && !Enabled(o.chatbot, chatId)
      && (o.saved <==> Enabled(chatbot, chatId))
      && o.reply == (if Enabled(chatbot, chatId) then Gone else AlreadyGone)
      && (Enabled(chatbot, chatId) ==> o.chatbot.Keys == chatbot.Keys - {chatId})
      && (!Enabled(chatbot, chatId) ==> o.chatbot == chatbot)
      && forall k :: k in chatbot && k != chatId ==> k in o.chatbot && o.chatbot[k] == chatbot[k]
  {
  }

  /** A second `on` finds the chat enabled: "Already here", nothing saved, nothing changed. */
  lemma OnIdempotent(chatbot: map<string, bool>, chatId: string)
    ensures var first := Decide(chatbot, chatId, true, Some("on"));
      Decide(first.chatbot, chatId, true, Some("on")) == Outcome(AlreadyHere, first.chatbot, false)
  {
  }

  /** A second `off` finds the chat disabled: "Already gone", nothing saved, nothing changed. */
  lemma OffIdempotent(chatbot: map<string, bool>, chatId: string)
    ensures var first := Decide(chatbot, chatId, true, Some("off"));
      Decide(first.chatbot, chatId, true, Some("off")) == Outcome(AlreadyGone, first.chatbot, false)
  {
  }

  /** Any other argument from a privileged caller gets the placeholder reply and changes nothing. */
  lemma OtherArgumentPlaceholder(chatbot: map<string, bool>, chatId: string, arg: Option<string>)
    requires Truthy(arg) && arg.value != "on" && arg.value != "off"
    ensures Decide(chatbot, chatId, true, arg) == Outcome(Unknown, chatbot, false)
  {
  }

  /** The document is saved exactly when the chatbot map changes. */
  lemma SavedIffChanged(chatbot: map<string, bool>, chatId: string, privileged: bool, arg: Option<string>)
    ensures Decide(chatbot, chatId, privileged, arg).saved <==> Decide(chatbot, chatId, privileged, arg).chatbot != chatbot
  {
    var o := Decide(chatbot, chatId, privileged, arg);
    if o.saved && arg.value == "on" {
      assert o.chatbot[chatId] != (chatId in chatbot && chatbot[chatId]);
    } else if o.saved {
      assert chatId !in o.chatbot;
    }
  }
}
