/**
 * The command router of handlers/commandHandler.js: it cuts the prefix off the message text,
 * splits it into a command and arguments, resolves one alias, answers through a fixed table of
 * replies (only `shutdown` checks the owner) and then runs the two maintenance hooks.
 */
module CommandHandler {
  import opened Text
  import opened Transport

  /** `commandAliases`: each alias names a canonical command. */
  const Aliases: map<string, string> := map["pp" := "profilepic", "bio" := "autobio"]

  /** The case labels of the switch in `handleCommand`, in source order. */
  datatype Command =
      Ping | Alive | Menu | OwnerMenu | Shutdown | Broadcast | AutoBio | KickAll | OnlyAdmin
    | Welcome | Goodbye | AntiLink | AntiBot | GroupName | GroupDesc | Revoke | HideTag | AutoMute
    | AutoUnmute | Warn | Sticker | ViewOnce | ProfilePic | ToImage | Emoji | SquareCrop
    | Translate | TextToSpeech | GitClone | Spotify | TikTok | Insta | Facebook | Gpt | Dalle
    | Gemini | Jokes | Trivia | Quote | Insult | Dare | Truth | Calc | Screenshot | Upload | Fancy
    | Bible | Wiki | News | TempMail | Del | Restart | Reboot | TinyUrl

  /** The label a command is matched by. */
  function Name(c: Command): string {
    match c
    case Ping => "ping"
    case Alive => "alive"
    case Menu => "menu"
    case OwnerMenu => "ownermenu"
    case Shutdown => "shutdown"
    case Broadcast => "broadcast"
    case AutoBio => "autobio"
    case KickAll => "kickall"
    case OnlyAdmin => "onlyadmin"
    case Welcome => "welcome"
    case Goodbye => "goodbye"
    case AntiLink => "antilink"
    case AntiBot => "antibot"
    case GroupName => "gname"
    case GroupDesc => "gdesc"
    case Revoke => "revoke"
    case HideTag => "hidetag"
    case AutoMute => "automute"
    case AutoUnmute => "autounmute"
    case Warn => "warn"
    case Sticker => "sticker"
    case ViewOnce => "vv"
    case ProfilePic => "profilepic"
    case ToImage => "toimg"
    case Emoji => "emoji"
    case SquareCrop => "scrop"
    case Translate => "trt"
    case TextToSpeech => "tts"
    case GitClone => "gitclone"
    case Spotify => "spotify"
    case TikTok => "tiktok"
    case Insta => "insta"
    case Facebook => "fb"
    case Gpt => "gpt"
    case Dalle => "dalle"
    case Gemini => "gemini"
    case Jokes => "jokes"
    case Trivia => "trivia"
    case Quote => "quote"
    case Insult => "insult"
    case Dare => "dare"
    case Truth => "truth"
    case Calc => "calc"
    case Screenshot => "ssweb"
    case Upload => "upload"
    case Fancy => "fancy"
    case Bible => "bible"
    case Wiki => "wiki"
    case News => "news"
    case TempMail => "tempmail"
    case Del => "del"
    case Restart => "restart"
    case Reboot => "reboot"
    case TinyUrl => "tinyurl"
  }

  /** The number of case labels of the switch. */
  const CaseCount: nat := 54

  /** The case label the switch tries in position `i`. */
  function At(i: nat): Command
    requires i < CaseCount
  {
    match i
    case 0 => Ping
    case 1 => Alive
    case 2 => Menu
    case 3 => OwnerMenu
    case 4 => Shutdown
    case 5 => Broadcast
    case 6 => AutoBio
    case 7 => KickAll
    case 8 => OnlyAdmin
    case 9 => Welcome
    case 10 => Goodbye
    case 11 => AntiLink
    case 12 => AntiBot
    case 13 => GroupName
    case 14 => GroupDesc
    case 15 => Revoke
    case 16 => HideTag
    case 17 => AutoMute
    case 18 => AutoUnmute
    case 19 => Warn
    case 20 => Sticker
    case 21 => ViewOnce
    case 22 => ProfilePic
    case 23 => ToImage
    case 24 => Emoji
    case 25 => SquareCrop
    case 26 => Translate
    case 27 => TextToSpeech
    case 28 => GitClone
    case 29 => Spotify
    case 30 => TikTok
    case 31 => Insta
    case 32 => Facebook
    case 33 => Gpt
    case 34 => Dalle
    case 35 => Gemini
    case 36 => Jokes
    case 37 => Trivia
    case 38 => Quote
    case 39 => Insult
    case 40 => Dare
    case 41 => Truth
    case 42 => Calc
    case 43 => Screenshot
    case 44 => Upload
    case 45 => Fancy
    case 46 => Bible
    case 47 => Wiki
    case 48 => News
    case 49 => TempMail
    case 50 => Del
    case 51 => Restart
    case 52 => Reboot
    case 53 => TinyUrl
  }

  /** The position of a command's label in the switch. */
  function Position(c: Command): (i: nat)
    ensures i < CaseCount && At(i) == c
  {
    match c
    case Ping => 0
    case Alive => 1
    case Menu => 2
    case OwnerMenu => 3
    case Shutdown => 4
    case Broadcast => 5
    case AutoBio => 6
    case KickAll => 7
    case OnlyAdmin => 8
    case Welcome => 9
    case Goodbye => 10
    case AntiLink => 11
    case AntiBot => 12
    case GroupName => 13
    case GroupDesc => 14
    case Revoke => 15
    case HideTag => 16
    case AutoMute => 17
    case AutoUnmute => 18
    case Warn => 19
    case Sticker => 20
    case ViewOnce => 21
    case ProfilePic => 22
    case ToImage => 23
    case Emoji => 24
    case SquareCrop => 25
    case Translate => 26
    case TextToSpeech => 27
    case GitClone => 28
    case Spotify => 29
    case TikTok => 30
    case Insta => 31
    case Facebook => 32
    case Gpt => 33
    case Dalle => 34
    case Gemini => 35
    case Jokes => 36
    case Trivia => 37
    case Quote => 38
    case Insult => 39
    case Dare => 40
    case Truth => 41
    case Calc => 42
    case Screenshot => 43
    case Upload => 44
    case Fancy => 45
    case Bible => 46
    case Wiki => 47
    case News => 48
    case TempMail => 49
    case Del => 50
    case Restart => 51
    case Reboot => 52
    case TinyUrl => 53
  }

  /** The first label from position `i` on that is `word`, as the switch tries them. */
  function FindFrom(i: nat, word: string): Option<Command>
    requires i <= CaseCount
    decreases CaseCount - i
  {
    if i == CaseCount then None
    else if Name(At(i)) == word then Some(At(i))
    else FindFrom(i + 1, word)
  }

  /** The `case` a command word selects, or `None` for the `default` branch. */
  function Lookup(word: string): Option<Command> {
    FindFrom(0, word)
  }

  /** The case found for a word carries that word as its label; no case is found only when no label is the word. */
  lemma {:induction false} FindMatchesLabel(i: nat, word: string)
    requires i <= CaseCount
    ensures FindFrom(i, word).Some? ==> Name(FindFrom(i, word).value) == word
    ensures FindFrom(i, word).None? <==> forall j :: i <= j < CaseCount ==> Name(At(j)) != word
    decreases CaseCount - i
  {
    if i < CaseCount && Name(At(i)) != word {
      FindMatchesLabel(i + 1, word);
      var later := forall j :: i + 1 <= j < CaseCount ==> Name(At(j)) != word;
      assert FindFrom(i, word) == FindFrom(i + 1, word);
      assert later <==> forall j :: i <= j < CaseCount ==> Name(At(j)) != word;
    }
  }

  /** Every label from position `i` on is found. */
  lemma {:induction false} FindsEveryLabel(i: nat, c: Command)
    requires i <= Position(c)
    ensures FindFrom(i, Name(c)).Some?
    decreases Position(c) - i
  {
    if Name(At(i)) != Name(c) {
      FindsEveryLabel(i + 1, c);
    }
  }

  /** A word is looked up exactly when it is the label of some command. */
  lemma LookupIff(word: string)
    ensures Lookup(word).Some? <==> exists c :: Name(c) == word
    ensures Lookup(word).Some? ==> Name(Lookup(word).value) == word
  {
    FindMatchesLabel(0, word);
    if c :| Name(c) == word {
      FindsEveryLabel(0, c);
    }
  }

  /** The one message a command answers with when it neither checks the owner, exits nor delegates. */
  function FixedReply(c: Command): string
    requires c !in {Shutdown, Restart, ViewOnce}
  {
    match c
    case Ping => "Pong. No frills."
    case Alive => "Status: Operational. No exceptions."
    case Menu => "Full menu loaded. Choose wisely."
    case OwnerMenu => "Owner Menu: .shutdown, .broadcast, .autobio, .exec, .eval, etc."
    case Broadcast => "Broadcasting message. This is not a charity service."
    case AutoBio => "Owner bio updated. No emotions."
    case KickAll => "All non-admin members removed. Group now secure."
    case OnlyAdmin => "Group set to admin-only. No exceptions."
    case Welcome => "Welcome message set. Cold and calculated."
    case Goodbye => "Goodbye message set. No sentimental attachments."
    case AntiLink => "Antilink activated. Unwanted links will vanish."
    case AntiBot => "Antibot engaged. Automated spammers will be eliminated."
    case GroupName => "Group name updated. Precision achieved."
    case GroupDesc => "Group description updated. No fluff."
    case Revoke => "Invite link revoked. Security enforced."
    case HideTag => "Hidetag message sent. Invisible as intended."
    case AutoMute => "Group muted. Silence is golden."
    case AutoUnmute => "Group unmuted. Order restored."
    case Warn => "[SYSTEM] WARNING: Your behavior is unacceptable. Cease all activity immediately or prepare to be removed."
    case Sticker => "Converting image to sticker. Stand by."
    case ProfilePic => "Fetching profile picture. One moment."
    case ToImage => "Converting sticker to image. Processing."
    case Emoji => "Converting text to emoji art. Minimalism in action."
    case SquareCrop => "Cropping image. Precision editing."
    case Translate => "Translating text. Language is secondary."
    case TextToSpeech => "Converting text to speech. Robotic clarity."
    case GitClone => "Cloning repository. No time for pleasantries."
    case Spotify => "Downloading from Spotify. Efficiency is key."
    case TikTok => "Downloading TikTok video. Data extracted."
    case Insta => "Downloading Instagram content. Task complete."
    case Facebook => "Downloading Facebook media. Proceeding."
    case Gpt => "Generating AI response. No fluff."
    case Dalle => "Creating AI-generated image. Art meets precision."
    case Gemini => "Invoking Gemini mode. Dual precision active."
    case Jokes => "Here's a joke: [Insert cold, deadpan joke]."
    case Trivia => "Trivia: [Insert trivia question]."
    case Quote => "Quote: [Insert unembellished, factual quote]."
    case Insult => "[SYSTEM] Insult: Your argument is as coherent as a broken circuit."
    case Dare => "Dare: Prove your worth. No excuses."
    case Truth => "Truth: Face reality. No sugarcoating."
    case Calc => "Calculation complete. The result is precise."
    case Screenshot => "Capturing screenshot. Image stored."
    case Upload => "Uploading file. Data transfer initiated."
    case Fancy => "Applying fancy text effects. Minimalistic and cold."
    case Bible => "Retrieving Bible verses. Scripture delivered without sentiment."
    case Wiki => "Fetching Wikipedia summary. Facts, nothing more."
    case News => "Latest news: [Insert headline]. Unbiased and factual."
    case TempMail => "Generating temporary email. Efficiency ensured."
    case Del => "Deleting message. Operation complete."
    case Reboot => "Rebooting system. No time for delays."
    case TinyUrl => "Shortening URL. Result: [Generated short URL]."
  }

  const ShutdownText: string := "Shutdown initiated. Exiting."
  const DeniedText: string := "Permission denied. You are not the owner."
  const RestartText: string := "Restarting bot. Stand by."
  const UnknownText: string := "Unknown command."

  /** The first word of the command text as typed, its lower-cased form, and the remaining words. */
  datatype Parsed = Parsed(head: string, command: string, args: seq<string>)

  /**
   * Drops the first `|prefix|` characters whatever they are, trims, splits at every single space
   * and lower-cases the first piece.
   */
  function Parse(text: string, prefix: string): (p: Parsed)
    ensures Join([p.head] + p.args, " ") == Trim(Drop(text, |prefix|))
    ensures ' ' !in p.head && forall k :: 0 <= k < |p.args| ==> ' ' !in p.args[k]
    ensures p.command == Lower(p.head)
  {
    var words := Split(Trim(Drop(text, |prefix|)), ' ');
    assert words == [words[0]] + words[1..];
    Parsed(words[0], Lower(words[0]), words[1..])
  }

  /** The prefix is never checked: whatever the first `|prefix|` characters are, the parse is the same. */
  lemma PrefixNeverChecked(a: string, b: string, rest: string, prefix: string)
    requires |a| == |b| == |prefix|
    ensures Parse(a + rest, prefix) == Parse(b + rest, prefix)
  {
    assert Drop(a + rest, |prefix|) == rest;
    assert Drop(b + rest, |prefix|) == rest;
  }

  /** One alias step: an alias becomes its canonical command, a known one, which is never itself an alias. */
  function Resolve(word: string): (r: string)
    ensures r !in Aliases
    ensures word in Aliases ==> r != word && Lookup(r).Some?
    ensures word in Aliases ==> r == Aliases[word]
    ensures word !in Aliases ==> r == word
  {
    if word in Aliases then
      assert Aliases[word] == Name(ProfilePic) || Aliases[word] == Name(AutoBio);
      FindsEveryLabel(0, ProfilePic);
      FindsEveryLabel(0, AutoBio);
      Aliases[word]
    else word
  }

  /** What the switch does for a resolved command word. */
  datatype Reaction = Reply(text: string) | ReplyThenExit(text: string) | DelegateToPlugin

  /** The switch of `handleCommand`: `chat` is the chat id, `owner` the configured owner. */
  function React(word: string, chat: string, owner: string): (r: Reaction)
    ensures r.ReplyThenExit? <==> Lookup(word) == Some(Restart) || (Lookup(word) == Some(Shutdown) && Contains(chat, owner))
    ensures r.DelegateToPlugin? <==> Lookup(word) == Some(ViewOnce)
    ensures Lookup(word).None? ==> r == Reply(UnknownText)
  {
    var c := Lookup(word);
    if c.None? then Reply(UnknownText)
    else if c.value == Shutdown then
      if Contains(chat, owner) then ReplyThenExit(ShutdownText) else Reply(DeniedText)
    else if c.value == Restart then ReplyThenExit(RestartText)
    else if c.value == ViewOnce then DelegateToPlugin
    else Reply(FixedReply(c.value))
  }

  /** `message.message.conversation || ""`. */
  function CommandText(msg: Message): string {
    if msg.payload.Some? && msg.payload.value.conversation.Some? then msg.payload.value.conversation.value else ""
  }

  /** The resolved command word of a message. */
  function CommandOf(msg: Message, cfg: Config): string {
    Resolve(Parse(CommandText(msg), cfg.prefix).command)
  }

  /** The transport calls and process requests of one `handleCommand`, and whether it threw. */
  datatype Handling = Handling(effects: seq<Effect>, threw: bool)

  /** The one awaited call the switch makes. */
  function FirstCall(r: Reaction, chat: string): Effect {
    match r
    case Reply(t) => Send(chat, t)
    case ReplyThenExit(t) => Send(chat, t)
    case DelegateToPlugin => Delegate("vv")
  }

  /**
   * The dispatch of a resolved command word in chat `chat`: the one awaited call, then
   * `process.exit(0)` or the two hooks. `replyFails` says that the awaited call is rejected,
   * which throws past everything after it.
   */
  function Dispatch(word: string, chat: string, owner: string, replyFails: bool): (h: Handling)
    ensures h.threw == replyFails
    ensures 1 <= |h.effects| <= 3
  {
    var r := React(word, chat, owner);
    var first := FirstCall(r, chat);
    if replyFails then Handling([first], true)
    else if r.ReplyThenExit? then Handling([first, Exit(0)], false)
    else Handling([first, RunHook(AdjustConcurrency), RunHook(AutoCleanup)], false)
  }

  /** `handleCommand(sock, message)`: a message without a payload throws before anything is sent. */
  function Handled(msg: Message, cfg: Config, replyFails: bool): (h: Handling)
    ensures h.threw <==> msg.payload.None? || replyFails
  {
    if msg.payload.None? then Handling([], true)
    else Dispatch(CommandOf(msg, cfg), msg.key.remoteJid, cfg.owner, replyFails)
  }

  /** The switch and what follows it, as the source runs them, step by step. */
  method DispatchCommand(command: string, chat: string, owner: string, replyFails: bool)
    returns (effects: seq<Effect>, threw: bool)
    ensures Handling(effects, threw) == Dispatch(command, chat, owner, replyFails)
  {
    var first: Effect;
    var exits := false;
    var c := Lookup(command);
    if c.None? {
      first := Send(chat, UnknownText);
    } else if c.value == Shutdown {
      if Contains(chat, owner) {
        first, exits := Send(chat, ShutdownText), true;
      } else {
        first := Send(chat, DeniedText);
      }
    } else if c.value == Restart {
      first, exits := Send(chat, RestartText), true;
    } else if c.value == ViewOnce {
      first := Delegate("vv");
    } else {
      first := Send(chat, FixedReply(c.value));
    }
    effects, threw := [first], false;
    if replyFails {
      threw := true;
    } else if exits {
      effects := effects + [Exit(0)];
    } else {
      effects := effects + [RunHook(AdjustConcurrency), RunHook(AutoCleanup)];
    }
  }

  /** The router as the source runs it: parse, resolve one alias, dispatch. */
  method HandleCommand(msg: Message, cfg: Config, replyFails: bool) returns (effects: seq<Effect>, threw: bool)
    ensures Handling(effects, threw) == Handled(msg, cfg, replyFails)
  {
    if msg.payload.None? {
      return [], true;
    }
    var parsed := Parse(CommandText(msg), cfg.prefix);
    var command := parsed.command;
    if command in Aliases {
      command := Aliases[command];
    }
    effects, threw := DispatchCommand(command, msg.key.remoteJid, cfg.owner, replyFails);
  }

  /** A word that is not a case label gets exactly one reply, "Unknown command.", then the hooks. */
  lemma UnknownCommandReply(word: string, chat: string, owner: string)
    requires Lookup(word).None?
    ensures Dispatch(word, chat, owner, false).effects
            == [Send(chat, UnknownText), RunHook(AdjustConcurrency), RunHook(AutoCleanup)]
  {
  }

  /** `shutdown` from a chat whose id does not contain the owner is refused and does not exit. */
  lemma ShutdownRefusedToStrangers(word: string, chat: string, owner: string, replyFails: bool)
    requires Lookup(word) == Some(Shutdown) && !Contains(chat, owner)
    ensures Dispatch(word, chat, owner, replyFails).effects[0] == Send(chat, DeniedText)
    ensures forall e :: e in Dispatch(word, chat, owner, replyFails).effects ==> !e.Exit?
  {
  }

  /** `shutdown` from a chat whose id contains the owner sends one reply and exits with code 0. */
  lemma ShutdownByOwnerExits(word: string, chat: string, owner: string)
    requires Lookup(word) == Some(Shutdown) && Contains(chat, owner)
    ensures Dispatch(word, chat, owner, false).effects == [Send(chat, ShutdownText), Exit(0)]
  {
  }

  /** `restart` exits with code 0 whoever sends it. */
  lemma RestartExitsForAnyone(word: string, chat: string, owner: string)
    requires Lookup(word) == Some(Restart)
    ensures Dispatch(word, chat, owner, false).effects == [Send(chat, RestartText), Exit(0)]
  {
  }

  /**
   * Everything after the command word is ignored: two messages to the same chat whose command
   * words resolve to the same name are handled identically.
   */
  lemma DispatchDependsOnlyOnResolvedCommand(m1: Message, m2: Message, cfg: Config, replyFails: bool)
    requires m1.payload.Some? && m2.payload.Some? && m1.key.remoteJid == m2.key.remoteJid
    requires CommandOf(m1, cfg) == CommandOf(m2, cfg)
    ensures Handled(m1, cfg, replyFails) == Handled(m2, cfg, replyFails)
  {
  }

  /** An alias and its canonical name (`pp` and `profilepic`, `bio` and `autobio`) dispatch identically. */
  lemma AliasDispatchesLikeCanonical(alias: string, m1: Message, m2: Message, cfg: Config, replyFails: bool)
    requires alias in Aliases
    requires m1.payload.Some? && m2.payload.Some? && m1.key.remoteJid == m2.key.remoteJid
    requires Parse(CommandText(m1), cfg.prefix).command == alias
    requires Parse(CommandText(m2), cfg.prefix).command == Aliases[alias]
    ensures Handled(m1, cfg, replyFails) == Handled(m2, cfg, replyFails)
  {
    DispatchDependsOnlyOnResolvedCommand(m1, m2, cfg, replyFails);
  }

  /** Every case other than `shutdown`, `restart` and `vv` sends exactly its fixed reply, once, and never exits. */
  lemma FixedCommandsSendOneReply(word: string, chat: string, owner: string, replyFails: bool)
    requires Lookup(word).Some? && Lookup(word).value !in {Shutdown, Restart, ViewOnce}
    ensures var effects := Dispatch(word, chat, owner, replyFails).effects;
            && effects[0] == Send(chat, FixedReply(Lookup(word).value))
            && forall k :: 0 < k < |effects| ==> !effects[k].Send? && !effects[k].Exit?
  {
  }

  /** The two hooks run, once each and in order, exactly when the dispatch neither exits nor throws. */
  lemma HooksRunOnceUnlessExit(word: string, chat: string, owner: string, replyFails: bool)
    ensures var h := Dispatch(word, chat, owner, replyFails);
            (RunHook(AdjustConcurrency) in h.effects) <==> !h.threw && Exit(0) !in h.effects
    ensures var h := Dispatch(word, chat, owner, replyFails);
            !h.threw && Exit(0) !in h.effects ==> h.effects[1..] == [RunHook(AdjustConcurrency), RunHook(AutoCleanup)]
  {
  }
}
