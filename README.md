# stiletto-MD core, modelled in Dafny

stiletto-MD is a WhatsApp bot. This project models the parts of it that hold logic:

- the **command router** (`handleCommand`): it strips the prefix, splits and lower-cases the command, resolves the one-step aliases (`pp`, `bio`), dispatches through the fixed reply table, applies the owner check on `shutdown`, and runs the two resource hooks afterwards;
- the **connection supervisor** (`setupEventHandlers`): the reconnect counter, the exponential backoff, 401 handling and the process exit, and the filter that routes `messages.upsert` events to the router;
- the **anti-spam violation ledger** (`antiSpamCheck`): the three spam signatures, the per-offender strike record with its sliding 24-hour expiry, and the escalation from warning to restriction to removal;
- the **group tools**: the `.warn` registry, the kick-all loop, the anti-media condition and the welcome text;
- the **education plugins**: the Bible verse index, reference parsing and lookup, and the offline wiki;
- the **emoji conversion** and the argument gate of `.take`;
- the **download validators** for git clone, Spotify and TikTok;
- the **encryption framing** `hex(iv ‖ tag ‖ salt ‖ ciphertext)`, with AES-256-GCM and HKDF-SHA256 as abstract functions.

## Modelling conventions

- Every transport request is an element of an effect trace, `seq<Effect>` (module `Transport`). This covers `sendMessage`, deletes, `groupParticipantsUpdate`, sleeps, `setTimeout`, `process.exit` and "caught and logged".
- Every awaited socket call inside a `try` block may be rejected. Which call of an invocation is rejected is a parameter (`Fault`, or a boolean where there is only one call). Calls inside a `catch` block, and the usage and validation replies sent before any `try`, are taken to succeed; see "## Left out".
- The clock (`now`), random bytes (`code`, `entropy`) and SHA-256 digests (`digest`, `hash`, `integrity`) are parameters.
- Text is `seq<char>`, a sequence of Unicode scalar values. `Text` gives `trim`, `split`, `join`, `includes` and `replace` the meaning JavaScript gives them. `toLowerCase` is modelled on ASCII letters. `slice` and `.length` count characters, where JavaScript counts UTF-16 code units. The two agree on text whose characters all lie in the Basic Multilingual Plane; see "## Left out".
- State the source mutates in place is a Dafny `class`:
  - `EventHandler.Supervisor` holds the reconnect counter and the pending timers.
  - `AntiSpam.ViolationLedger` holds `VIOLATION_RECORDS`.
  - `GroupManagement.WarningRegistry` holds `warningRegistry`.
- Loops become methods proved against a specification function:
  - `GroupManagement.KickAll` is the kick-all loop.
  - `Education.BuildCache`, with `WriteBook` and `WriteChapter`, is the nested `forEach` that fills `BIBLE_CACHE`.
- Two handlers are written twice. `CommandHandler.DispatchCommand` and `AntiSpam.Enforce` are the handlers' awaited steps written statement by statement, as the source writes them. `Dispatch`/`Handled` and `Strike` are the same behaviour as functions. The lemmas need the function form, because a lemma cannot call a method. Each method's postcondition proves it equal to its function.

Where the bot's documentation and its code differ, the model follows the code:

- The router never checks that the text starts with the prefix. It drops `prefix.length` characters whatever they are.
- The event loop never calls `antiSpamCheck`.
- An offender's record is kept after removal.
- A fourth strike or later has no sanction, and the report's first line is the text `undefined`.
- A 401 close only logs; it does not exit.

## Model

| member | source | states |
|---|---|---|
| CommandHandler.Parse | handlers/commandHandler.js:23-27 | The command and args, joined by single spaces, give back the text with `prefix.length` characters dropped and trimmed; no token holds a space; the command is the lower-cased head |
| CommandHandler.PrefixNeverChecked | handlers/commandHandler.js:26 | Any two texts that differ only in their first `prefix.length` characters parse the same, so the prefix itself is never checked |
| CommandHandler.Resolve | handlers/commandHandler.js:28-30 | Alias resolution is one step: an alias maps to its entry in the alias table (`pp` to `profilepic`, `bio` to `autobio`), a different and known command that is not itself an alias; any other word is left unchanged |
| CommandHandler.LookupIff | handlers/commandHandler.js:35-234 | A word selects a `switch` case exactly when some case label equals it, and the case found carries that label |
| CommandHandler.FindMatchesLabel | handlers/commandHandler.js:35-234 | The case search from position i finds a case only with the word as its label, and finds none exactly when no later label equals the word |
| CommandHandler.FindsEveryLabel | handlers/commandHandler.js:35-234 | Every case label is found by the search from any position up to its own |
| CommandHandler.React | handlers/commandHandler.js:51-233 | The command exits exactly for `restart`, or for `shutdown` when the chat id contains the owner; it delegates exactly for `vv`; an unknown word gets the unknown-command reply |
| CommandHandler.Dispatch | handlers/commandHandler.js:35-238 | A dispatch throws exactly when its reply is rejected, and makes between one and three requests |
| CommandHandler.Handled | handlers/commandHandler.js:21-238 | `handleCommand` throws exactly when the message has no content or the reply is rejected |
| CommandHandler.DispatchCommand | handlers/commandHandler.js:35-238 | The `switch` and the hooks issue exactly the trace and the throw that `Dispatch` specifies |
| CommandHandler.HandleCommand | handlers/commandHandler.js:21-238 | The parse, the alias and the dispatch issue exactly the trace and the throw that `Handled` specifies |
| CommandHandler.UnknownCommandReply | handlers/commandHandler.js:232-238 | An unknown command gets one reply, "Unknown command.", followed by the two hooks |
| CommandHandler.ShutdownRefusedToStrangers | handlers/commandHandler.js:51-57 | `shutdown` from a chat id not containing the owner gets the permission-denied reply and never exits |
| CommandHandler.ShutdownByOwnerExits | handlers/commandHandler.js:52-54 | `shutdown` from the owner's chat sends one reply and exits with code 0, and no hook runs |
| CommandHandler.RestartExitsForAnyone | handlers/commandHandler.js:218-221 | `restart` replies and exits with code 0 for anyone |
| CommandHandler.FixedCommandsSendOneReply | handlers/commandHandler.js:35-230 | Every other known command except `vv` sends exactly its fixed reply to the chat and nothing else that is a send or an exit |
| CommandHandler.DispatchDependsOnlyOnResolvedCommand | handlers/commandHandler.js:26-35 | Two messages to the same chat with the same resolved command are handled identically, whatever their args |
| CommandHandler.AliasDispatchesLikeCanonical | handlers/commandHandler.js:9-30 | A message naming an alias is handled exactly like one naming its canonical command |
| CommandHandler.HooksRunOnceUnlessExit | handlers/commandHandler.js:237-238 | `adjustConcurrency` runs exactly when the dispatch neither threw nor exited, and then the two hooks run once each, after the reply |
| EventHandler.Backoff | handlers/eventHandler.js:14-16 | The delay is at least 5000 ms and doubles with each attempt |
| EventHandler.BackoffSchedule | handlers/eventHandler.js:7-16 | Attempts 0 to 4 wait 5000, 10000, 20000, 40000 and 80000 ms |
| EventHandler.UpdateStep | handlers/eventHandler.js:39-65 | A 401 close changes nothing. Otherwise a close schedules the backoff for the counter before its increment exactly while fewer than 5 attempts were made, and exits with 1 exactly after that. Open resets the counter. Open and any other update request nothing. The counter stays within 5 |
| EventHandler.CounterBounded | handlers/eventHandler.js:44-64 | From any counter within 5, no sequence of updates takes it past 5 |
| EventHandler.ClosesScheduleBackoffs | handlers/eventHandler.js:45-53 | k consecutive closes from counter a, with a + k ≤ 5, schedule the delays for a, a+1, …, a+k-1 and leave the counter at a + k |
| EventHandler.SixthCloseExits | handlers/eventHandler.js:45-57 | From a fresh start, six closes schedule 5, 10, 20, 40 and 80 seconds and then exit with code 1 |
| EventHandler.RunAppend | handlers/eventHandler.js:39-65 | Until the process exits, handling two runs of updates in turn is the same as handling them joined |
| EventHandler.Upsert | handlers/eventHandler.js:26-36 | Only a `notify` event whose first message has content and is not from the bot reaches `handleCommand`; an error it throws becomes one caught-and-logged entry; an empty `notify` batch is caught too |
| EventHandler.UnroutedDispatchesNothing | handlers/eventHandler.js:28-30 | A filtered-out event dispatches nothing |
| EventHandler.RejectedReplyIsCaught | handlers/eventHandler.js:32-35 | When the router's reply is rejected, the error is caught and logged and goes no further |
| EventHandler.Supervisor.OnConnectionUpdate | handlers/eventHandler.js:39-65 | The counter and the trace advance as `UpdateStep` says; a timer is pending for each scheduled reconnect; the process has exited exactly when `UpdateStep` exits |
| EventHandler.Supervisor.FireReconnect | handlers/eventHandler.js:49-53 | A due timer runs the reconnect callback, and a rejection of it is caught and logged; the counter is unchanged |
| EventHandler.Supervisor.OnMessagesUpsert | handlers/eventHandler.js:26-36 | A message event appends the trace `Upsert` specifies and leaves the counter alone |
| AntiSpam.FullDigestNeverListed | plugins/antiSpam.js:17-20 | No 64-character hex digest equals either truncated `SPAM_HASHES` entry |
| AntiSpam.SpamCaseBlind | plugins/antiSpam.js:11-13 | The `i` flag: for every text and digest, a text is spam exactly when its lower-cased form is |
| AntiSpam.UrlSignatureExample | plugins/antiSpam.js:11 | The capitalised link `WWW.spam.io` matches the URL signature |
| AntiSpam.PhishingSignatureExample | plugins/antiSpam.js:12 | The text `Login \t Portal`, with mixed white space and capitals between the two words, matches the phishing signature |
| AntiSpam.CryptoSignatureExample | plugins/antiSpam.js:13 | "nft claim" matches the crypto signature |
| AntiSpam.SpamText | plugins/antiSpam.js:27 | A message without content is scanned as the empty text |
| AntiSpam.Bump | plugins/antiSpam.js:38-45 | The offender's count rises by exactly one and its expiry becomes now plus 24 h; no other record changes and no record disappears |
| AntiSpam.Expired | plugins/antiSpam.js:43 | Exactly the records whose expiry has not passed remain, unchanged |
| AntiSpam.Escalation | plugins/antiSpam.js:50-73 | Every strike first deletes the message and last sends the report. Strike 1 adds no group action, strike 2 restricts the offender, strike 3 removes them, and strike 4 or later adds none and reports "undefined" |
| AntiSpam.NextCountsDown | plugins/antiSpam.js:72 | The report's "Next" field counts the strikes remaining below 3, then reads "Terminal" |
| AntiSpam.FailedDeleteSkipsSanctions | plugins/antiSpam.js:48-78 | A rejected delete skips every sanction and the report, and is logged |
| AntiSpam.ExpiryStartsOver | plugins/antiSpam.js:39-45 | After its record expires, an offender's next violation is strike 1 again |
| AntiSpam.RemovalKeepsRecord | plugins/antiSpam.js:54-66 | The record survives the third strike's removal, so a further violation is strike 4 |
| AntiSpam.Enforce | plugins/antiSpam.js:48-78 | The delete, the sanction and the report are awaited in turn and issue exactly the trace `Strike` specifies: a rejected call ends the strike with a logged error |
| AntiSpam.ExpiredWhenCurrent | plugins/antiSpam.js:43 | Once every timer due by `now` has fired, expiring at `now` removes nothing more |
| AntiSpam.ViolationLedger.Expire | plugins/antiSpam.js:43 | The due expiry timers drop exactly the expired records, after which no record's expiry has passed |
| AntiSpam.ViolationLedger.Check | plugins/antiSpam.js:25-79 | Called, as the event loop guarantees, after every expiry timer due by `now` has fired. A message that matches no signature leaves the ledger unchanged and requests nothing. A spam message bumps the offender (the participant, else the chat) on the unexpired records before any request, so an offender whose record has expired starts again at strike 1; it then strikes with the new count. No record's expiry has passed afterwards |
| GroupManagement.NonAdmins | plugins/groupManagement.js:23 | Exactly the participants without an admin flag are kept |
| GroupManagement.NonAdminsAppend | plugins/groupManagement.js:23 | The filter works piece by piece over concatenation, so it keeps the participants' order and duplicates |
| GroupManagement.Successes | plugins/groupManagement.js:24-35 | The purge count never exceeds the number of targets |
| GroupManagement.KickCallsTargets | plugins/groupManagement.js:26-35 | The loop requests removal of every target in list order, and pauses once per successful removal |
| GroupManagement.KickAll | plugins/groupManagement.js:16-55 | Without metadata only the failure reply is sent. Otherwise each non-admin is removed in turn, the reported count is the number of successful removals, and a rejected report falls to the failure reply |
| GroupManagement.PurgeBounded | plugins/groupManagement.js:24-44 | The reported count is at most the number of non-admins, and equals it when no removal is rejected |
| GroupManagement.KickAllSparesAdmins | plugins/groupManagement.js:23-32 | Removal is requested for exactly the non-admins, in order, and never for an admin |
| GroupManagement.Warned | plugins/groupManagement.js:117-122 | The warned user's count rises by exactly one and its timestamp becomes now; every other entry is unchanged and none is dropped |
| GroupManagement.WarnEscalation | plugins/groupManagement.js:125-142 | Below 3 warnings only the judgement reply is sent; at 3 or more the user is removed first; removal is only ever of the warned user |
| GroupManagement.WarningsNeverDecrease | plugins/groupManagement.js:117-122 | No warning count ever decreases and no entry is ever dropped |
| GroupManagement.WarningRegistry.ProcessWarn | plugins/groupManagement.js:114-150 | The registry becomes `Warned` for the participant, else the chat, and the requests are those of the new count |
| GroupManagement.AntiMedia | plugins/groupManagement.js:153-174 | Only an image or video message is deleted, followed by the decoy notice; anything else requests nothing; errors are swallowed without a log |
| GroupManagement.WelcomeText | plugins/groupManagement.js:89 | The welcome is never empty: the args joined by spaces, or the default when that join is empty |
| GroupManagement.WelcomeDefaultOnlyWhenBlank | plugins/groupManagement.js:89 | The default is used for no args or one empty arg; two or more args always give their join |
| Education.VerseKey | plugins/education.js:16 | A verse key holds no upper-case letter |
| Education.ChapterEntries | plugins/education.js:15-18 | Verse v of chapter c is written under the key for chapter c+1, verse v+1, in order |
| Education.InsertContents | plugins/education.js:17 | The cache holds exactly the written keys, each with a text written under it |
| Education.LastWriteWins | plugins/education.js:17 | A key keeps the text of its last write |
| Education.VerseWritten | plugins/education.js:12-20 | Every verse of every book is written under its key |
| Education.VerseIndexed | plugins/education.js:12-20 | Every verse's key is in the cache, holding a text written under that key |
| Education.BuildCache | plugins/education.js:12-21 | The nested loops produce exactly the map of all writes in book, chapter and verse order |
| Education.RunEnd | plugins/education.js:58 | A greedy run stops at the first character outside its class |
| Education.MatchFrom | plugins/education.js:58 | The reference found is the leftmost match of the pattern, or none when no position matches |
| Education.MatchShape | plugins/education.js:58-61 | Every match has a non-empty book ending in a word character, and a chapter and a verse made of digits |
| Education.ReferenceExample | plugins/education.js:58-61 | "john 3:16" parses as book "john", chapter 3, verse 16 |
| Education.CatchReply | plugins/education.js:72-76 | An error message containing "0x" is shown verbatim; any other becomes the generic failure text |
| Education.BibleLookup | plugins/education.js:53-70 | Empty text is a syntax error; text without a reference is a pattern error; a reference is looked up by its lower-cased key, and a missing or empty verse is not found |
| Education.LookupNamesKey | plugins/education.js:61-70 | A verse is found exactly when the cache holds non-empty text under the key; the reply shows the key and the verse, and the miss names the key |
| Education.BibleErrorsEchoed | plugins/education.js:56-76 | Every error of the lookup reaches the user word for word |
| Education.EmptyReferenceIsSyntaxError | plugins/education.js:53-76 | `.bible` with no reference, or a message without text, gets only the syntax reply |
| Education.WikiLookup | plugins/education.js:82-93 | An empty query is a syntax error, a topic outside the archive is not found, and a known topic gets its summary |
| Education.Replies | plugins/education.js:72-77 | A handler answers only in its own chat. A thrown error is shown verbatim when it contains "0x", otherwise as the generic text. A reply is sent as it is, and a rejected reply is followed by one more message from the catch block |
| Education.ProcessBible | plugins/education.js:51-78 | `processBible` sends only to the message's chat, and exactly one message unless its reply is rejected |
| Education.ProcessWiki | plugins/education.js:80-101 | `processWiki` sends only to the message's chat, exactly one message unless its reply is rejected, and a message without text gets the syntax error |
| Education.WikiQueryNormalised | plugins/education.js:82 | The query is the text after the first `prefix + "wiki"`, trimmed and then lower-cased: it has no white space at either end and no upper-case letter |
| Education.WikiFindsTopic | plugins/education.js:82-93 | A query whose trimmed, lower-cased form is an archived topic gets that topic's summary, whatever its spacing and letter case |
| Education.WikiQueryExample | plugins/education.js:82-87 | `.wiki  Blockchain ` asks for the archived `blockchain` topic |
| Education.WikiMissShowsTwelve | plugins/education.js:88-99 | A miss is shown verbatim. It shows the whole query when it has at most 12 characters, and otherwise exactly its first 12 |
| ConversationTools.Segment | plugins/conversationTools.js:24-28 | A character without a glyph is kept as it is, and every character yields at least one |
| ConversationTools.ConvertAppend | plugins/conversationTools.js:28 | Conversion works character by character: converting s + t gives the conversion of s followed by that of t |
| ConversationTools.UnmappedUnchanged | plugins/conversationTools.js:28 | Text without mapped characters is unchanged |
| ConversationTools.CaseBlind | plugins/conversationTools.js:24-28 | Upper and lower case of a letter map to the same glyph |
| ConversationTools.ConvertLength | plugins/conversationTools.js:28 | Conversion never shortens the text |
| ConversationTools.EmojiReplies | plugins/conversationTools.js:16-38 | Empty input gets only the error reply; otherwise the converted text is sent, followed by the failure reply when that send is rejected |
| ConversationTools.ProcessEmoji | plugins/conversationTools.js:12-39 | `processEmoji` sends only to the message's chat, exactly one message unless its reply is rejected, and a message without text gets the empty-input error |
| ConversationTools.EmojiConvertsArgument | plugins/conversationTools.js:14-33 | The text after the first `prefix + "emoji"`, trimmed, is what gets converted and shown |
| ConversationTools.ProcessTake | plugins/conversationTools.js:75-84 | `.take` goes ahead exactly when the message has at least three space-separated words, taking the second and third as start and duration; otherwise it replies with its usage. Neither parameter holds a space, and a message without text always gets the usage |
| ConversationTools.JoinCountsSeparators | plugins/conversationTools.js:77 | Joining n pieces free of the separator puts exactly n-1 separators in the text |
| ConversationTools.TakeNeedsTwoSpaces | plugins/conversationTools.js:77-84 | `.take` replies with its usage exactly when the text has fewer than two spaces, that is fewer than two parameters, or has no text |
| DownloadManager.ValidateGitClone | plugins/downloadManager.js:14-23 | The clone proceeds, with the first argument, exactly when that argument is a GitHub HTTPS URL with an owner and a repository; otherwise only the error reply is sent |
| DownloadManager.ValidateSpotify | plugins/downloadManager.js:48-57 | The download proceeds exactly when the first argument contains `spotify:track:` followed by a word character, anywhere in it |
| DownloadManager.ValidateTikTok | plugins/downloadManager.js:79-88 | The download proceeds exactly when the first argument contains `tiktok.com` |
| DownloadManager.MissingArgumentRejected | plugins/downloadManager.js:16-83 | Without an argument all three handlers reject |
| DownloadManager.OnlyFirstArgument | plugins/downloadManager.js:16-81 | The validators look only at the first argument |
| DownloadManager.GitHubExamples | plugins/downloadManager.js:18 | An `https://github.com/a/b` URL passes; the `http` one does not |
| DownloadManager.SpotifyUnanchored | plugins/downloadManager.js:52 | The track URI may appear anywhere, but needs at least one character after the tag |
| Encryption.HexEncode | core/encryption.js:18 | Hex encoding doubles the length |
| Encryption.HexRoundTrip | core/encryption.js:18 | Decoding the hex encoding gives back the bytes |
| Encryption.FrameSlices | core/encryption.js:18-37 | Slicing the frame at 16, 32 and 64 gives back the iv, the tag, the salt and the ciphertext |
| Encryption.Encrypt | core/encryption.js:10-18 | With a 32-byte key, as AES-256-GCM needs, the output is 2 × (64 + ciphertext length) hex digits |
| Encryption.RoundTrip | core/encryption.js:10-42 | With an authenticated cipher that opens what it sealed, decrypting the encryption with the same pin gives back the data |
| Encryption.AuthenticationFailureThrows | core/encryption.js:39-46 | When the tag does not authenticate, decryption throws |

## Left out

- Logging (`logMessage`, `console.error`) is left out. The only trace of it is the caught-and-logged entry.
- Socket setup, pairing, YAML configuration loading and the recursive `startBot` are library glue. The reconnect callback is an opaque step whose failure is a parameter.
- The resource hooks `adjustConcurrency` and `autoCleanup` read memory usage and shell out. The model only records that they run.
- SHA-256, AES-256-GCM, HKDF-SHA256 and random bytes are foreign calls. They are parameters or abstract functions; digests are passed in.
- The `g` flag on the spam patterns makes `.test` stateful through `lastIndex`. Each test is modelled as a fresh search from the start of the text.
- A plain-object lookup on a prototype key (such as the word `constructor` in the alias table or the wiki dataset) is not modelled. Those tables hold only their listed keys here.
- `toLowerCase` is modelled on ASCII letters only. Non-ASCII case mappings are out of scope.
- The plugins outside this core are out of scope: media, voice, system commands, AI/NLP, fun commands, profile, status and deletion. So are `processNews`, `processScrop` and `processOnlyAdmin`.
- `processWelcome` hashes the text, writes and shreds a temporary file, and previews it. The model keeps only the welcome text it decides on (`WelcomeText`).
- The kick-all report includes the duration, a hash of the chat id and a floating-point storage figure. These are left out; the report carries the purge count.
- `processTake` past its argument gate downloads media and runs ffmpeg, an external process. The model stops at `ProcessTake`'s gate.
- The download handlers past validation run `git`, `spotdl` and `yt-dlp`, which are external processes. The model stops at the validators.
- The Bible, wiki, emoji and take handlers read `message.message.conversation` before their `try`. An absent `message.message` throws there, and that escapes the handler. The model takes the conversation as optional text and treats the absent case as empty text.
- `encrypt` and `decrypt` convert between strings and UTF-8 bytes. The model works on bytes throughout.
- Sends made inside a `catch` block are assumed to succeed.
- EventHandler.Supervisor: its handlers require that the process has not exited. Events after `process.exit` are not modelled.
- The missing or wrong imports are not modelled: `processVV` comes from the wrong file, `config` is not imported in the education and conversation plugins, and `readFileSync` is missing in the download plugin. The prefix and the plugin calls are modelled as the code evidently means them.
- CommandHandler.Parse: `prefix.length` is counted in characters (Unicode scalar values), while `slice` in the source counts UTF-16 code units. The model agrees with the source when every character of the prefix and of the text it drops lies in the Basic Multilingual Plane. With an emoji or another supplementary character there, the source cuts between two surrogates and the model does not. For example, with the prefix `.` and the text `😀ping`, the source's command is a lone surrogate followed by `ping`, which is unknown, while the model's command is `ping`.
- Education.WikiMissShowsTwelve: the not-found error shows the first 12 characters of the query, counted as Unicode scalar values. The source's `slice(0, 12)` counts 12 UTF-16 code units, so for a query with supplementary characters, such as emoji, the source shows fewer of them (or half of one) than the model does. The two agree on queries made of Basic Multilingual Plane characters. `Education.WikiNotFound` has the same limit.
- `split("")` in `processEmoji` splits into UTF-16 code units. A supplementary character is split into two surrogates that the map leaves unchanged and `join` puts back together. So the converted text is the same, but "one segment per character" in the model means one per scalar value.
- `encrypt`'s catch-and-rethrow path is not modelled. On byte input with a 32-byte key and a 16-byte iv, nothing in it can fail; `decrypt`'s failure path is modelled (`Thrown`).
- Each event handler call is modelled as one atomic step. In the source, an `await` lets another event run in the middle of a handler. For example, a `connection.update` can schedule a reconnect between `restart`'s reply and its `process.exit(0)`. The model cannot produce such interleavings.
- ConversationTools.EmojiReplies, ConversationTools.ProcessEmoji, ConversationTools.ProcessTake, DownloadManager.ValidateGitClone, DownloadManager.ValidateSpotify, DownloadManager.ValidateTikTok: the empty-input, usage and validation replies (plugins/conversationTools.js lines 17-20 and 80-83, plugins/downloadManager.js lines 19-22, 53-56 and 84-87) are sent outside any `try`. If such a send is rejected, the handler's promise rejects. The model takes these sends to succeed and has no rejected-handler outcome for them. The trace of requests is the same either way.
