/**
 * The chat-transport session as the bot's handlers see it: the shape of an incoming message,
 * the configuration, and the requests a handler makes of the socket, recorded as an effect trace.
 *
 * A transport call is awaited and may be rejected (missing permission, network). Which call of an
 * invocation is rejected is a parameter, `Fault`; a rejected call is still issued (it is in the
 * trace) and the calls after it in the same `try` block are not.
 */
module Transport {
  import opened Text

  /** `message.key`. */
  datatype MessageKey = MessageKey(remoteJid: string, participant: Option<string>, id: string, fromMe: bool)

  /** The fields of `message.message` that the bot reads. */
  datatype Payload = Payload(
    conversation: Option<string>,
    extendedText: Option<string>,
    hasImage: bool,
    hasVideo: bool)

  /** An incoming message; `payload` is `None` when `message.message` is absent. */
  datatype Message = Message(key: MessageKey, payload: Option<Payload>)

  /** The values the core reads from config.yaml. */
  datatype Config = Config(prefix: string, owner: string)

  datatype GroupAction = Restrict | Remove

  /** The resource-manager maintenance hooks run after a dispatch. */
  datatype Hook = AdjustConcurrency | AutoCleanup

  /** One request made of the socket or the process, in the order it is made. */
  datatype Effect =
    | Send(chat: string, text: string)                                      // sendMessage(chat, {text})
    | Delete(chat: string, id: string, participant: Option<string>)         // sendMessage(chat, {delete})
    | SendDeleting(chat: string, text: string, id: string, participant: Option<string>)
    | GroupUpdate(chat: string, who: string, action: GroupAction)           // groupParticipantsUpdate
    | PurgeReport(chat: string, purged: nat)                                // the kick-all summary message
    | Sleep(ms: nat)
    | Delegate(command: string)                                             // control passed to a plugin
    | RunHook(hook: Hook)
    | ScheduleReconnect(delay: nat)                                         // setTimeout(reconnect, delay)
    | Reconnect                                                             // the reconnect callback runs
    | Exit(code: int)                                                       // process.exit(code)
    | Caught(site: string)                                                  // an error caught and logged

  /** Which awaited transport call of one invocation is rejected, if any. */
  datatype Fault = NoFault | FailsAt(call: nat)

  /** The calls of `calls` that are issued: all of them, or those up to and including the rejected one. */
  function Issued(calls: seq<Effect>, fault: Fault): (r: seq<Effect>)
    ensures r <= calls
    ensures Rejects(calls, fault) ==> |r| == fault.call + 1
    ensures !Rejects(calls, fault) ==> r == calls
  {
    if Rejects(calls, fault) then calls[..fault.call + 1] else calls
  }

  /** One of `calls` is rejected. */
  predicate Rejects(calls: seq<Effect>, fault: Fault) {
    fault.FailsAt? && fault.call < |calls|
  }

  /** A JavaScript string is truthy when it is present and not empty. */
  predicate Truthy(s: Option<string>) {
    s.Some? && s.value != ""
  }

  /** The text after a plugin's command: `conversation?.replace(prefix + name, "").trim() || ""`. */
  function ArgumentText(conversation: Option<string>, prefix: string, name: string): string {
    if conversation.None? then "" else Trim(ReplaceFirst(conversation.value, prefix + name, ""))
  }

  /** `participant || remoteJid`: the identity a group message is attributed to. */
  function Author(key: MessageKey): string {
    if Truthy(key.participant) then key.participant.value else key.remoteJid
  }
}
