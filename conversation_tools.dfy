/**
 * The two modelled commands of plugins/conversationTools.js: `.emoji`, which replaces six
 * characters by glyphs, case-blind, and copies every other one; and the argument-count gate in
 * front of `.take`'s audio extraction.
 */
module ConversationTools {
  import opened Text
  import opened Transport

  const EmojiEmpty: string := "[0xEMOJI_ERR] Input void. Minimum entropy: 6 chars"
  const EmojiFail: string := "[0xEMOJI_FAIL] Glyph corruption detected. Consult unicode protocol 12.7"
  const TakeUsage: string := "[0xEXTRACT_ERR] Syntax: .take [start_sec] [duration]"

  /** `emojiMap`, looked up by the lower-cased character; `None` where the map has no entry. */
  function Glyph(c: char): Option<string> {
    var k := LowerChar(c);
    if k == 'a' then Some("\U{1F170}\U{FE0F}")
    else if k == 'b' then Some("\U{1F171}\U{FE0F}")
    else if k == 'c' then Some("\U{00A9}\U{FE0F}")
    else if k == '!' then Some("\U{2757}")
    else if k == '?' then Some("\U{2753}")
    else if k == '*' then Some("*\U{FE0F}\U{20E3}")
    else None
  }

  /** `emojiMap[c.toLowerCase()] || c`: one output segment for one input character. */
  function Segment(c: char): (r: string)
    ensures Glyph(c).None? ==> r == [c]
    ensures |r| >= 1
  {
    if Glyph(c).Some? then Glyph(c).value else [c]
  }

  /** `text.split("").map(...).join("")`. */
  function Convert(s: string): string
    decreases |s|
  {
    if |s| == 0 then "" else Segment(s[0]) + Convert(s[1..])
  }

  /** Conversion is per character: converting a concatenation converts each part. */
  lemma {:induction false} ConvertAppend(s: string, t: string)
    ensures Convert(s + t) == Convert(s) + Convert(t)
    decreases |s|
  {
    if |s| == 0 {
      assert s + t == t;
    } else {
      assert (s + t)[1..] == s[1..] + t;
      ConvertAppend(s[1..], t);
    }
  }

  /** A text with no mapped character comes out unchanged. */
  lemma {:induction false} UnmappedUnchanged(s: string)
    requires forall k :: 0 <= k < |s| ==> Glyph(s[k]).None?
    ensures Convert(s) == s
    decreases |s|
  {
    if |s| > 0 {
      UnmappedUnchanged(s[1..]);
    }
  }

  /** The map is case-blind: an upper-case letter gets the glyph of its lower-case form. */
  lemma CaseBlind(c: char)
    ensures Glyph(c) == Glyph(LowerChar(c))
    ensures Glyph('A') == Glyph('a') && Glyph('B') == Glyph('b') && Glyph('C') == Glyph('c')
  {
  }

  /** The conversion is never shorter than its input. */
  lemma {:induction false} ConvertLength(s: string)
    ensures |Convert(s)| >= |s|
    decreases |s|
  {
    if |s| > 0 {
      ConvertLength(s[1..]);
    }
  }

  /**
   * `processEmoji` once the argument `text` is cut from the message: an empty argument gets the
   * one error reply; otherwise the art is sent with `hash`, the text's hash prefix, and a rejected
   * reply gets the failure text.
   */
  function EmojiReplies(chat: string, text: string, hash: string, sendFails: bool): (effects: seq<Effect>)
    ensures |effects| == if sendFails && text != "" then 2 else 1
    ensures forall e :: e in effects ==> e.Send? && e.chat == chat
    ensures text == "" ==> effects == [Send(chat, EmojiEmpty)]
    ensures text != "" ==> effects[0] == Send(chat, "[0xEMOJI_ART] " + Convert(text) + "\nHash: " + hash)
    ensures text != "" && sendFails ==> effects[1] == Send(chat, EmojiFail)
  {
    if text == "" then [Send(chat, EmojiEmpty)]
    else
      var art := Send(chat, "[0xEMOJI_ART] " + Convert(text) + "\nHash: " + hash);
      if sendFails then [art, Send(chat, EmojiFail)] else [art]
  }

  /** `processEmoji` on a message to `chat` with text `conversation`. */
  function ProcessEmoji(chat: string, conversation: Option<string>, prefix: string, hash: string, sendFails: bool): (r: seq<Effect>)
    ensures forall e :: e in r ==> e.Send? && e.chat == chat
    ensures conversation.None? ==> r == [Send(chat, EmojiEmpty)]
    ensures !sendFails ==> |r| == 1
  {
    EmojiReplies(chat, ArgumentText(conversation, prefix, "emoji"), hash, sendFails)
  }

  /** The text after `prefix + "emoji"`, trimmed, is what gets converted. */
  lemma EmojiConvertsArgument(chat: string, conversation: string, prefix: string, hash: string, sendFails: bool)
    requires ArgumentText(Some(conversation), prefix, "emoji") != ""
    ensures var text := Trim(ReplaceFirst(conversation, prefix + "emoji", ""));
            ProcessEmoji(chat, Some(conversation), prefix, hash, sendFails)[0]
            == Send(chat, "[0xEMOJI_ART] " + Convert(text) + "\nHash: " + hash)
  {
    var text := ArgumentText(Some(conversation), prefix, "emoji");
    var r := EmojiReplies(chat, text, hash, sendFails);
    assert ProcessEmoji(chat, Some(conversation), prefix, hash, sendFails) == r;
    assert r[0] == Send(chat, "[0xEMOJI_ART] " + Convert(text) + "\nHash: " + hash);
  }

  /** `conversation?.split(" ").slice(1) || []`: the words after the first single space. */
  function TakeParams(conversation: Option<string>): seq<string> {
    if conversation.None? then [] else Split(conversation.value, ' ')[1..]
  }

  /** What `processTake` does after its gate: reply with the usage, or extract with these two parameters. */
  datatype TakeGate = Usage(reply: Effect) | Extract(start: string, duration: string)

  function ProcessTake(chat: string, conversation: Option<string>): (r: TakeGate)
    ensures r.Usage? ==> r.reply == Send(chat, TakeUsage)
    ensures conversation.None? ==> r.Usage?
    ensures conversation.Some? && |Split(conversation.value, ' ')| >= 3 ==> r.Extract?
    ensures r.Extract? ==>
              && conversation.Some?
              && var words := Split(conversation.value, ' ');
              && |words| >= 3 && r.start == words[1] && r.duration == words[2]
              && ' ' !in r.start && ' ' !in r.duration
  {
    var params := TakeParams(conversation);
    if |params| < 2 then Usage(Send(chat, TakeUsage)) else Extract(params[0], params[1])
  }

  /** Joining pieces without the separator puts exactly one separator between neighbours. */
  lemma {:induction false} JoinCountsSeparators(parts: seq<string>, sep: char)
    requires |parts| >= 1
    requires forall k :: 0 <= k < |parts| ==> sep !in parts[k]
    ensures multiset(Join(parts, [sep]))[sep] == |parts| - 1
    decreases |parts|
  {
    if |parts| == 1 {
      assert multiset(parts[0])[sep] == 0;
    } else {
      JoinCountsSeparators(parts[1..], sep);
      assert Join(parts, [sep]) == parts[0] + [sep] + Join(parts[1..], [sep]);
      assert multiset(parts[0])[sep] == 0;
    }
  }

  /** `.take` goes ahead exactly when the message text has at least two single spaces. */
  lemma TakeNeedsTwoSpaces(chat: string, text: string)
    ensures ProcessTake(chat, Some(text)).Usage? <==> multiset(text)[' '] < 2
    ensures ProcessTake(chat, None) == Usage(Send(chat, TakeUsage))
  {
    JoinCountsSeparators(Split(text, ' '), ' ');
  }
}
