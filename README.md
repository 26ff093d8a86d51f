# Chatbot command of Knightbot-MD, modelled in Dafny

This project models `commands/chatbot.js`, the chatbot feature of a WhatsApp bot:

- **The `.chatbot` command.** The bot's owner or a group admin switches the chatbot on or off for one chat. The per-chat flags live in a settings document, `userGroupData.json`.
- **The response handler.** When the chatbot is on for a chat, it answers messages that mention the bot or reply to it. For each sender it keeps the last 20 messages and the facts it learned (name, age, location). Its answer is the character-voiced text returned by a generation service, kept brief.

Modules:

- `Wrappers`: `Option` and `Result`.
- `Strings`: the JavaScript string operations the code relies on, with their laws.
  - `trim`, `toLowerCase`, `includes`, `indexOf`, `split`, `join`, `endsWith`.
  - A global replace of a literal pattern.
- `Identity`: the bot's own id and its `@number` mention token, both built from the transport's user id.
- `UserInfo`: `extractUserInfo`, the extraction of name, age and location from a message.
- `Brevity`: the final steps of `getAIResponse`.
  - The fifteen-word rule.
  - The random fillers `...` and `Tch.`.
  - The text the handler sends.
- `Command`: `handleChatbotCommand`.
  - The class `GroupData` is the loaded settings document, which the command changes in place.
  - `Decide` states the command's effect as a function; the lemmas about it state the command's properties.
- `Response`: `handleChatbotResponse`.
  - The class `ChatMemory` is the process-wide conversation memory.
  - A ghost record of every appended message lets its invariant say that a history is the last twenty messages of that record.
- `UserInfoExamples`: extraction on concrete messages, including the one on which the source throws.

Behaviour that the source leaves to its environment is passed in as inputs:

- the random draws;
- the group metadata, which is None when fetching it failed;
- the generation service's text after its clean-up, which is None when the call failed;
- the transport's user id.

## Model

| member | source | states |
|---|---|---|
| `Strings.Trim` | commands/chatbot.js:54 | the result is the input with its leading and trailing JavaScript white space removed, and it neither starts nor ends with white space |
| `Strings.TrimIdempotent` | commands/chatbot.js:54 | trimming twice is trimming once |
| `Strings.ToLower` | commands/chatbot.js:53 | lower-casing keeps the length and lower-cases each character |
| `Strings.LowerOccurs` | commands/chatbot.js:53 | an occurrence of a phrase in the message is an occurrence of its lower-cased form in the lower-cased message |
| `Strings.Contains` | commands/chatbot.js:53 | `includes` holds exactly when the pattern occurs at some position |
| `Strings.IndexOfFrom` | commands/chatbot.js:54 | the position found is an occurrence of the pattern at or after the starting position |
| `Strings.IndexOfFromFirst` | commands/chatbot.js:54 | no position between the start and the one found holds an occurrence; None means no occurrence at or after the start |
| `Strings.ContainsChar` | commands/chatbot.js:54 | a one-character pattern is included exactly when the character is in the text |
| `Strings.EndsWith` | commands/chatbot.js:392 | `endsWith` holds exactly when the text is some string followed by the suffix |
| `Strings.PrefixBefore` | commands/chatbot.js:64 | `split(/[.,!?]/)[0]`: the longest prefix holding no terminator, followed by a terminator or by the end of the text |
| `Strings.Split` | commands/chatbot.js:54 | `split` by a non-empty string always gives at least one piece |
| `Strings.SplitHead` | commands/chatbot.js:54 | the first piece of a split is a prefix without the separator; the text splits into one piece exactly when the separator does not occur; otherwise the separator follows the first piece |
| `Strings.SecondPiece` | commands/chatbot.js:54 | when the separator occurs, the second piece starts right after its first occurrence, holds no separator, and runs up to the next occurrence or to the end |
| `Strings.SplitPiecesFree` | commands/chatbot.js:391 | no piece of a split contains the separator |
| `Strings.Join` | commands/chatbot.js:391 | a join of at least one piece starts with the first piece |
| `Strings.JoinSplit` | commands/chatbot.js:391 | joining the pieces of a split with the same separator gives back the text |
| `Strings.SplitCharCount` | commands/chatbot.js:390 | splitting at a character gives one piece more than the character's occurrences |
| `Strings.RemoveAll` | commands/chatbot.js:218 | removal never lengthens the text and keeps only characters of the text |
| `Strings.RemoveAllNone` | commands/chatbot.js:218 | a text with no occurrence of the pattern at any position is left as it is |
| `Strings.RemoveAllUpTo` | commands/chatbot.js:218 | everything before the first occurrence is kept, the occurrence is dropped and removal goes on after it |
| `Strings.RemoveAllIsSplitJoin` | commands/chatbot.js:218 | removing every non-overlapping occurrence from left to right equals joining the split pieces with nothing |
| `Strings.RemoveAllAbsent` | commands/chatbot.js:218 | a text without the pattern is left unchanged |
| `Identity.BotNumber` | commands/chatbot.js:82 | the bot's id ends in `@s.whatsapp.net`; its number part is the user id up to the first `:` and holds no `:`; without a `:` the id is the user id plus the suffix |
| `Identity.MentionToken` | commands/chatbot.js:210 | the token is `@` followed by a prefix of the bot id that holds no `@`; that prefix ends just before the bot id's first `@`, and it is the whole bot id when the id holds none |
| `Identity.MentionOfBot` | commands/chatbot.js:210 | for a user id whose number holds no `@`, the mention token is `@` followed by that number |
| `Identity.IsGroup` | commands/chatbot.js:127 | a chat id ending in `@g.us` never ends in `@s.whatsapp.net`, so a group id is no user id |
| `UserInfo.FirstDigitRun` | commands/chatbot.js:59 | `match(/\d+/)?.[0]`: the leftmost maximal run of digits, None when there is no digit |
| `UserInfo.NamePiece` | commands/chatbot.js:54 | `split('my name is')[1]` is None exactly when the exact phrase does not occur |
| `UserInfo.NamePieceBetween` | commands/chatbot.js:54 | when the exact phrase occurs, the name piece starts right after its first occurrence, holds no other, and runs up to the second occurrence or to the end of the message |
| `UserInfo.FirstWord` | commands/chatbot.js:54 | the first space-delimited word is a prefix holding no space |
| `UserInfo.PhraseFrom` | commands/chatbot.js:64 | the first position at or after the start where either location phrase begins in the lower-cased text, with none before it; None when there is none |
| `UserInfo.LocationPiece` | commands/chatbot.js:64 | the case-insensitive split's second piece is None exactly when neither location phrase occurs case-insensitively |
| `UserInfo.PieceAfterPhrase` | commands/chatbot.js:64 | the piece is None exactly when no phrase match is found in the lower-cased text |
| `UserInfo.LocationPieceBetween` | commands/chatbot.js:64 | when a location phrase matches case-insensitively, there is a piece; it starts right after the first match, holds no further match, and runs up to the next match or to the end of the message |
| `UserInfo.ExtractUserInfo` | commands/chatbot.js:49-68 | extraction throws exactly when "my name is" matches only case-insensitively, and the error is the missing name piece |
| `UserInfo.ExtractedKeys` | commands/chatbot.js:53-65 | on success, each of name, age and location is present exactly when its case-insensitive guard holds |
| `UserInfo.NameIsFirstWord` | commands/chatbot.js:53-55 | when the exact phrase occurs, extraction succeeds and the name is the first word of the trimmed name piece (the text after the first occurrence, up to the next occurrence or the end), holding no space |
| `UserInfo.AgeIsFirstDigitRun` | commands/chatbot.js:58-60 | the age is the first run of digits anywhere in the message, and `undefined` exactly when the message holds no digit |
| `UserInfo.LocationIsTrimmedPiece` | commands/chatbot.js:63-65 | the location is the trimmed location piece (the text after the first phrase match, up to the next match or the end), cut at its first terminator, so it holds no terminator |
| `UserInfoExamples.NameExample` | commands/chatbot.js:53-55 | "my name is Alex" gives the name Alex |
| `UserInfoExamples.CaseMismatchThrows` | commands/chatbot.js:53-54 | "My Name is X" passes the guard but throws |
| `UserInfoExamples.AgeExample` | commands/chatbot.js:58-60 | "I am 30 years old" gives the age 30 |
| `UserInfoExamples.LocationExample` | commands/chatbot.js:63-65 | "I live in Tokyo." gives the location Tokyo |
| `Brevity.WordCount` | commands/chatbot.js:390 | `split(' ').length` is at least one |
| `Brevity.WordCountIsSpacesPlusOne` | commands/chatbot.js:390 | the word count is the number of spaces plus one, so a text is cut exactly when it holds at least fifteen spaces |
| `Brevity.Brief` | commands/chatbot.js:389-393 | a text of at most fifteen words is kept; a longer one is cut where its first ". " starts (or kept whole when there is none), and a full stop is added exactly when the cut text does not already end in one; the result then ends in a full stop and has no ". " |
| `Brevity.FirstSentence` | commands/chatbot.js:391 | the first sentence is a prefix without ". ", the whole text when there is no break, and ends where the first break starts |
| `Brevity.BriefIdempotent` | commands/chatbot.js:389-393 | applying the rule to its own output changes nothing |
| `Brevity.AiResponse` | commands/chatbot.js:395-407 | a failed call gives None; otherwise the result is the brief text, or "..." below 0.15, or "Tch." below 0.25, and the fillers are used only when the message mentions neither code nor help |
| `Brevity.AsksForCodeOrHelp` | commands/chatbot.js:397 | a message containing "code" or "help" as written is detected by the case-insensitive test |
| `Brevity.ReplyText` | commands/chatbot.js:266-279 | an absent or empty response is sent as "...", any other response as it is, so the sent text is never empty |
| `Brevity.CodeOrHelpAnswered` | commands/chatbot.js:395-403 | a message about code or help gets the brief text of a non-empty generated answer whatever the draw |
| `Command.LoadUserGroupData` | commands/chatbot.js:14-21 | an unreadable document loads as no groups and no chatbot flags |
| `Command.Enabled` | commands/chatbot.js:187 | a chat with no entry in the chatbot map is off, as the `undefined` lookup is falsy |
| `Command.Truthy` | commands/chatbot.js:71 | an absent string is falsy, and a truthy string is non-empty |
| `Command.SenderId` | commands/chatbot.js:85 | the sender is the first truthy field in the order key participant, participant, push name, else the remote jid as it is; it is truthy exactly when one of the four is |
| `Command.AnyAdmin` | commands/chatbot.js:130 | the sender is listed as admin or superadmin exactly when some participant entry says so |
| `Command.IsOwner` | commands/chatbot.js:86 | an owner sender is a user id ending in `@s.whatsapp.net` |
| `Command.IsAdmin` | commands/chatbot.js:126-134 | admin exactly when the chat is a group, its metadata was fetched and some participant entry lists the sender as admin or superadmin |
| `Command.Privileged` | commands/chatbot.js:136 | a privileged caller has a sender id; outside a group only the owner is privileged |
| `Command.Decide` | commands/chatbot.js:71-182 | the document is saved only for a privileged caller with an argument, and no chat other than the command's own changes its entry |
| `Command.GroupData.Load` | commands/chatbot.js:79 | the object holds the loaded document |
| `Command.GroupData.SwitchOn` | commands/chatbot.js:144-159 | the `on` branch, as `Decide` states it for a privileged caller |
| `Command.GroupData.SwitchOff` | commands/chatbot.js:161-176 | the `off` branch, as `Decide` states it for a privileged caller |
| `Command.GroupData.HandleCommand` | commands/chatbot.js:70-183 | the reply, the new chatbot map and the save are those of `Decide` for the caller's privilege (owner, or admin of the group), and the groups list is unchanged |
| `Command.NoArgumentGetsHelp` | commands/chatbot.js:71-77 | no argument gives the help text and changes nothing |
| `Command.UnprivilegedRefused` | commands/chatbot.js:136-142 | a caller who is neither owner nor admin gets "No." and nothing changes |
| `Command.OwnerPrivileged` | commands/chatbot.js:82-89 | the bot's own account is privileged whatever the group metadata |
| `Command.NonOwnerPrivilege` | commands/chatbot.js:125-136 | anyone else is privileged exactly when the chat is a group whose fetched metadata lists them as admin or superadmin |
| `Command.OnEnables` | commands/chatbot.js:144-159 | `on` leaves the chat enabled, replies "Here" and saves exactly when it was not enabled, and keeps every other entry |
| `Command.OffDisables` | commands/chatbot.js:161-176 | `off` leaves the chat disabled and deletes exactly its entry when it was enabled, replying "Gone" and saving; otherwise "Already gone" and no change |
| `Command.OnIdempotent` | commands/chatbot.js:144-150 | a second `on` replies "Already here" and changes nothing |
| `Command.OffIdempotent` | commands/chatbot.js:161-167 | a second `off` replies "Already gone" and changes nothing |
| `Command.OtherArgumentPlaceholder` | commands/chatbot.js:178-182 | any other argument from a privileged caller gets "\*...\*" and changes nothing |
| `Command.SavedIffChanged` | commands/chatbot.js:144-176 | the document is written exactly when the chatbot map changes |
| `Response.Mentioned` | commands/chatbot.js:198-211 | a message that is neither extended text nor a non-empty conversation never mentions the bot |
| `Response.RepliedTo` | commands/chatbot.js:206 | only an extended text message quoting a participant can be a reply to the bot |
| `Response.Triggered` | commands/chatbot.js:187-213 | the handler goes on only when the chatbot is on for the chat, and never for a message of another kind |
| `Response.Ignored` | commands/chatbot.js:245-247 | a message is skipped only on a draw below 0.1, and never when it contains "code" or "help" |
| `Response.Gate` | commands/chatbot.js:186-219 | the handler goes on exactly when the chatbot is on for the chat and the bot is mentioned or replied to, and it goes on with the cleaned text |
| `Response.Cleaned` | commands/chatbot.js:215-219 | an unmentioned message is kept; a mentioned one has every mention token removed and is then trimmed, and it is no longer than the message |
| `Response.Remember` | commands/chatbot.js:237-242 | a message is pushed; a full history of twenty drops its oldest |
| `Response.LastN` | commands/chatbot.js:236 | the last n messages, in order, or all when there are fewer |
| `Response.RememberLast` | commands/chatbot.js:236-242 | pushing onto the last twenty messages gives the last twenty messages after the push |
| `Response.Replay` | commands/chatbot.js:236-242 | a history never holds more than twenty messages |
| `Response.ReplayIsLast` | commands/chatbot.js:236-242 | a history holds exactly the last min(20, n) of the n messages pushed onto it, oldest first |
| `Response.TwentyOneMessages` | commands/chatbot.js:236-242 | after 21 messages the history holds the 2nd to the 21st, in order, both as replayed and as the last twenty that a valid memory keeps |
| `Response.MergeFacts` | commands/chatbot.js:228-234 | the merged facts hold every key of both; a newly learned fact wins and the others are kept |
| `Response.MergeFactsNeutralIdempotent` | commands/chatbot.js:229-233 | learning nothing keeps the stored facts; learning the same facts twice is learning them once |
| `Response.AgeWithoutDigitsErases` | commands/chatbot.js:58-59 | when extraction does not throw, an age phrase without digits stores `undefined`, overwriting an earlier age |
| `Response.HistoryBounded` | commands/chatbot.js:236-242 | in a valid memory every history holds at most twenty messages |
| `Response.ChatMemory.constructor` | commands/chatbot.js:8-11 | the memory starts empty |
| `Response.ChatMemory.Initialize` | commands/chatbot.js:221-225 | a new sender gets an empty history and no facts; a known one is untouched |
| `Response.ChatMemory.RecordFacts` | commands/chatbot.js:228-234 | the sender's facts become the merge of the stored and the learned ones |
| `Response.ChatMemory.Append` | commands/chatbot.js:236-242 | the sender's history becomes `Remember` of the old one, and the invariant that it is the last twenty messages is kept |
| `Response.ChatMemory.Learn` | commands/chatbot.js:221-242 | when extraction throws, only the lazy initialisation happens, including in the record of arrived messages; otherwise the facts are merged and the message is appended to the history and to that record |
| `Response.ChatMemory.HandleResponse` | commands/chatbot.js:185-287 | without the gate nothing changes and nothing is sent; when extraction throws the reply is "Tch." and the history is not appended; otherwise the memory is updated and the reply is none on the ignore draw, else the sent text of the generated answer |

## Left out

- Reading and writing `userGroupData.json` is not modelled. A read or parse failure is an absent file, which loads as the empty document. A write is the `saved` flag. A failed write is not modelled, since the source only logs it.
- `handleChatbotResponse` loads the settings itself. The model takes the loaded `chatbot` map as a parameter, and an unreadable file corresponds to an empty map.
- A JSON value other than a boolean in the chatbot map is not modelled. The source only ever writes `true`; the model does not model JavaScript truthiness of other values.
- These are outside the model: the typing indicator, the random delays, message sending, logging and the group-metadata call. A failed metadata fetch is the None input.
- `getAIResponse` is not modelled up to the service call. That covers the prompt, the HTTP call and its status and body checks, and the chain of regular-expression clean-ups. The model takes their outcome as an input: None when the call failed, otherwise the cleaned text.
- Both `Math.random` draws are inputs.
- Brevity.AiResponse: the draws are exact `real` numbers compared with the decimal thresholds 0.1, 0.15 and 0.25, not IEEE doubles compared with double literals. This agrees with the double comparison for every double draw except the double nearest 0.15, which lies just below 0.15: there the model answers "..." where the source answers "Tch.".
- `toLowerCase` and the case-insensitive location split are modelled for ASCII letters only. Full lower-casing maps only two non-ASCII characters to ASCII letters: U+0130 to `i` followed by U+0307, and U+212A to `k`. No guard phrase contains `k` or ends in `i`, so ASCII lowering decides every guard here as full lowering does. The location split's `/i` flag without the `u` flag matches only ASCII case variants, so it cannot throw either.
- The mention token is used as a regular expression. The model treats it as a literal text, so regular-expression metacharacters in a user id are not modelled.
- An exception from message sending inside the handler's `try`, which the source answers with "Tch.", is not modelled. Only the extraction failure is.
- Concurrent handlers are not modelled. They interleave at each `await` and share the memory and the settings file without locking.
- Process lifetime is not modelled: the memory is never cleared.
- A message whose `conversation` field is empty counts as neither kind. The `Envelope` type captures this as `OtherKind`.
- The source comment beside the conversation memory mentions five messages. The code keeps twenty, and the model follows the code.
