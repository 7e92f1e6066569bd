/**
 * The group-moderation pieces of plugins/groupManagement.js: the `.warn` registry with its
 * removal at the third warning, the kick-all loop over non-admin participants, the media
 * auto-delete condition and the default welcome text.
 *
 * Clock readings, random hex codes and the ISO time stamp are parameters.
 */
module GroupManagement {
  import opened Text
  import opened Transport

  // ----- processKickAll -----

  /** A group participant as `groupMetadata` lists it; `admin` is "admin", "superadmin" or absent. */
  datatype Participant = Participant(id: string, admin: Option<string>)

  /** `participants.filter(p => !p.admin)`. */
  function NonAdmins(ps: seq<Participant>): (r: seq<Participant>)
    ensures |r| <= |ps|
    ensures forall p :: p in r <==> p in ps && !Truthy(p.admin)
  {
    if |ps| == 0 then []
    else if Truthy(ps[0].admin) then NonAdmins(ps[1..])
    else [ps[0]] + NonAdmins(ps[1..])
  }

  /** The filter keeps order and duplicates: it works piece by piece. */
  lemma {:induction false} NonAdminsAppend(a: seq<Participant>, b: seq<Participant>)
    ensures NonAdmins(a + b) == NonAdmins(a) + NonAdmins(b)
    decreases |a|
  {
    if |a| == 0 {
      assert a + b == b;
    } else {
      assert (a + b)[1..] == a[1..] + b;
      NonAdminsAppend(a[1..], b);
    }
  }

  function Ids(ps: seq<Participant>): (r: seq<string>)
    ensures |r| == |ps| && forall k :: 0 <= k < |ps| ==> r[k] == ps[k].id
  {
    if |ps| == 0 then [] else [ps[0].id] + Ids(ps[1..])
  }

  /** The pause after each successful removal. */
  const RateLimitMs: nat := 250

  /** The loop's requests for `targets`: a removal each, and the pause after each one not rejected. */
  function KickCalls(chat: string, targets: seq<Participant>, rejected: set<string>): seq<Effect> {
    if |targets| == 0 then []
    else
      [GroupUpdate(chat, targets[0].id, Remove)]
      + (if targets[0].id in rejected then [] else [Sleep(RateLimitMs)])
      + KickCalls(chat, targets[1..], rejected)
  }

  /** The number of removals of `targets` that are not rejected. */
  function Successes(targets: seq<Participant>, rejected: set<string>): (n: nat)
    ensures n <= |targets|
  {
    if |targets| == 0 then 0
    else (if targets[0].id in rejected then 0 else 1) + Successes(targets[1..], rejected)
  }

  /** The participants named by the removal requests of `effects`, in order. */
  function Removed(effects: seq<Effect>): seq<string> {
    if |effects| == 0 then []
    else if effects[0].GroupUpdate? && effects[0].action == Remove then [effects[0].who] + Removed(effects[1..])
    else Removed(effects[1..])
  }

  /** The number of pauses in `effects`. */
  function Pauses(effects: seq<Effect>): nat {
    if |effects| == 0 then 0
    else (if effects[0].Sleep? then 1 else 0) + Pauses(effects[1..])
  }

  lemma {:induction false} RemovedAppend(a: seq<Effect>, b: seq<Effect>)
    ensures Removed(a + b) == Removed(a) + Removed(b)
    ensures Pauses(a + b) == Pauses(a) + Pauses(b)
    decreases |a|
  {
    if |a| > 0 {
      assert (a + b)[1..] == a[1..] + b;
      RemovedAppend(a[1..], b);
    } else {
      assert a + b == b;
    }
  }

  /** The loop asks to remove exactly the given targets, in list order, and pauses once per success. */
  lemma {:induction false} KickCallsTargets(chat: string, targets: seq<Participant>, rejected: set<string>)
    ensures Removed(KickCalls(chat, targets, rejected)) == Ids(targets)
    ensures Pauses(KickCalls(chat, targets, rejected)) == Successes(targets, rejected)
    decreases |targets|
  {
    if |targets| > 0 {
      var head := [GroupUpdate(chat, targets[0].id, Remove)]
                  + (if targets[0].id in rejected then [] else [Sleep(RateLimitMs)]);
      KickCallsTargets(chat, targets[1..], rejected);
      RemovedAppend(head, KickCalls(chat, targets[1..], rejected));
      RemovedAppend([GroupUpdate(chat, targets[0].id, Remove)],
                    if targets[0].id in rejected then [] else [Sleep(RateLimitMs)]);
      assert Ids(targets) == [targets[0].id] + Ids(targets[1..]);
    }
  }

  /** The failure reply, with the random two-byte code in hex. */
  function PurgeFailText(code: string): string {
    "[0xPURGE_FAIL] Error 0x" + code + "\nSystem remains uncompromised"
  }

  /**
   * `processKickAll`: `metadata` is the participant list, or `None` when `groupMetadata` is
   * rejected; removals of the ids in `rejected` are rejected and skipped; `reportFails` says
   * that the summary message is rejected. Returns the requests and the purge count.
   */
  method KickAll(chat: string, metadata: Option<seq<Participant>>, rejected: set<string>, reportFails: bool, code: string)
    returns (effects: seq<Effect>, purged: nat)
    ensures metadata.None? ==> effects == [Send(chat, PurgeFailText(code))] && purged == 0
    ensures metadata.Some? ==>
              var targets := NonAdmins(metadata.value);
              && purged == Successes(targets, rejected)
              && effects == KickCalls(chat, targets, rejected) + [PurgeReport(chat, purged)]
                            + (if reportFails then [Send(chat, PurgeFailText(code))] else [])
  {
    if metadata.None? {
      return [Send(chat, PurgeFailText(code))], 0;
    }
    var nonAdmins := NonAdmins(metadata.value);
    purged := 0;
    effects := [];
    var i := 0;
    while i < |nonAdmins|
      invariant 0 <= i <= |nonAdmins|
      invariant purged == Successes(nonAdmins[..i], rejected)
      invariant effects == KickCalls(chat, nonAdmins[..i], rejected)
    {
      var participant := nonAdmins[i];
      effects := effects + [GroupUpdate(chat, participant.id, Remove)];
      if participant.id !in rejected {
        purged := purged + 1;
        effects := effects + [Sleep(RateLimitMs)];
      }
      SnocKick(chat, nonAdmins[..i], participant, rejected);
      assert nonAdmins[..i + 1] == nonAdmins[..i] + [participant];
      i := i + 1;
    }
    assert nonAdmins[..i] == nonAdmins;
    effects := effects + [PurgeReport(chat, purged)];
    if reportFails {
      effects := effects + [Send(chat, PurgeFailText(code))];
    }
  }

  /** One more target extends the calls and the count by that target's own. */
  lemma {:induction false} SnocKick(chat: string, done: seq<Participant>, p: Participant, rejected: set<string>)
    ensures KickCalls(chat, done + [p], rejected)
            == KickCalls(chat, done, rejected) + [GroupUpdate(chat, p.id, Remove)]
               + (if p.id in rejected then [] else [Sleep(RateLimitMs)])
    ensures Successes(done + [p], rejected) == Successes(done, rejected) + (if p.id in rejected then 0 else 1)
    decreases |done|
  {
    if |done| > 0 {
      assert (done + [p])[1..] == done[1..] + [p];
      SnocKick(chat, done[1..], p, rejected);
    } else {
      assert done + [p] == [p];
    }
  }

  /** The purge count is at most the number of non-admins, and falls short of it by the rejected removals only. */
  lemma PurgeBounded(ps: seq<Participant>, rejected: set<string>)
    ensures Successes(NonAdmins(ps), rejected) <= |NonAdmins(ps)|
    ensures (forall p :: p in ps ==> p.id !in rejected) ==> Successes(NonAdmins(ps), rejected) == |NonAdmins(ps)|
  {
    if forall p :: p in ps ==> p.id !in rejected {
      AllSucceed(NonAdmins(ps), rejected);
    }
  }

  lemma {:induction false} AllSucceed(targets: seq<Participant>, rejected: set<string>)
    requires forall p :: p in targets ==> p.id !in rejected
    ensures Successes(targets, rejected) == |targets|
    decreases |targets|
  {
    if |targets| > 0 {
      assert targets[0] in targets;
      assert forall p :: p in targets[1..] ==> p in targets;
      AllSucceed(targets[1..], rejected);
    }
  }

  /** No admin is ever asked to be removed, and every non-admin is, in list order. */
  lemma KickAllSparesAdmins(chat: string, ps: seq<Participant>, rejected: set<string>)
    ensures Removed(KickCalls(chat, NonAdmins(ps), rejected)) == Ids(NonAdmins(ps))
    ensures forall p :: p in NonAdmins(ps) ==> !Truthy(p.admin)
  {
    KickCallsTargets(chat, NonAdmins(ps), rejected);
  }

  // ----- processWarn -----

  /** A registry entry: the number of warnings and the time of the last one. */
  datatype Warning = Warning(count: nat, lastWarning: int)

  const TerminateText: string := "[0xTERMINATE] Entity purged"
  const JudgeFailText: string := "[0xJUDGE_FAIL] Judicial subsystem offline\nManual intervention required"

  /** The escalation line for warning number `count`. */
  function WarnAction(count: nat): string {
    if count >= 3 then TerminateText
    else "[0xWARNING_" + Decimal(count) + "] " + Decimal(3 - count) + " strikes remain"
  }

  /** The verdict message: the user part of the id, the random code, the action and the time stamp. */
  function Judgement(user: string, code: string, count: nat, stamp: string): string {
    "[0xADMIN_JUDGEMENT] " + Split(user, '@')[0] + "\nViolation code: 0x" + code + "\n"
    + WarnAction(count) + "\nTimestamp: " + stamp
  }

  /** The entry after one more warning of `user` at time `now`. */
  function Warned(entries: map<string, Warning>, user: string, now: int): (r: map<string, Warning>)
    ensures user in r && r[user].lastWarning == now
    ensures r[user].count == (if user in entries then entries[user].count else 0) + 1
    ensures r.Keys == entries.Keys + {user}
    ensures forall o :: o in entries && o != user ==> r[o] == entries[o]
  {
    var before := if user in entries then entries[user].count else 0;
    entries[user := Warning(before + 1, now)]
  }

  /** The awaited calls of a warning that brings `user` to `count`. */
  function WarnCalls(chat: string, user: string, count: nat, code: string, stamp: string): seq<Effect> {
    (if count >= 3 then [GroupUpdate(chat, user, Remove)] else []) + [Send(chat, Judgement(user, code, count, stamp))]
  }

  /** The calls issued under `fault`, and the failure reply if one was rejected. */
  function WarnEffects(chat: string, user: string, count: nat, code: string, stamp: string, fault: Fault): seq<Effect> {
    var calls := WarnCalls(chat, user, count, code, stamp);
    Issued(calls, fault) + (if Rejects(calls, fault) then [Send(chat, JudgeFailText)] else [])
  }

  /** Below three warnings nobody is removed and the reply counts the strikes left; from three on, the user is removed. */
  lemma WarnEscalation(chat: string, user: string, count: nat, code: string, stamp: string)
    requires count >= 1
    ensures count < 3 ==> WarnEffects(chat, user, count, code, stamp, NoFault) == [Send(chat, Judgement(user, code, count, stamp))]
    ensures count >= 3 ==> WarnEffects(chat, user, count, code, stamp, NoFault)[0] == GroupUpdate(chat, user, Remove)
    ensures forall e :: e in WarnEffects(chat, user, count, code, stamp, NoFault) && e.GroupUpdate? ==> count >= 3 && e.who == user
  {
  }

  /** Warnings only accumulate: no count ever goes down and no entry disappears. */
  lemma WarningsNeverDecrease(entries: map<string, Warning>, user: string, now: int)
    ensures forall o :: o in entries ==> o in Warned(entries, user, now) && Warned(entries, user, now)[o].count >= entries[o].count
  {
  }

  /** `warningRegistry`. */
  class WarningRegistry {
    var entries: map<string, Warning>

    constructor ()
      ensures entries == map[]
    {
      entries := map[];
    }

    /**
     * `processWarn` at time `now`, with random code `code` and time stamp `stamp`: the registry
     * is updated first, then the removal (from the third warning on) and the verdict are sent.
     */
    method ProcessWarn(msg: Message, now: int, code: string, stamp: string, fault: Fault) returns (effects: seq<Effect>)
      modifies this
      ensures entries == Warned(old(entries), Author(msg.key), now)
      ensures effects == WarnEffects(msg.key.remoteJid, Author(msg.key), entries[Author(msg.key)].count, code, stamp, fault)
    {
      var chat := msg.key.remoteJid;
      var user := Author(msg.key);
      var count := if user in entries then entries[user].count else 0;
      count := count + 1;
      entries := entries[user := Warning(count, now)];
      effects := [];
      if count >= 3 {
        effects := effects + [GroupUpdate(chat, user, Remove)];
        if fault == FailsAt(0) {
          return effects + [Send(chat, JudgeFailText)];
        }
      }
      effects := effects + [Send(chat, Judgement(user, code, count, stamp))];
      if fault == FailsAt(|effects| - 1) {
        effects := effects + [Send(chat, JudgeFailText)];
      }
    }
  }

  // ----- antiMedia and processWelcome -----

  const DecoyDeleteText: string := "[SYSTEM] Message deleted for violating protocol █████"

  /** `antiMedia`: an image or video is deleted and a decoy notice sent; errors are swallowed without a log. */
  function AntiMedia(msg: Message, fault: Fault): (effects: seq<Effect>)
    ensures (msg.payload.None? || !(msg.payload.value.hasImage || msg.payload.value.hasVideo)) ==> effects == []
    ensures msg.payload.Some? && (msg.payload.value.hasImage || msg.payload.value.hasVideo) && fault == NoFault ==>
              effects == [Delete(msg.key.remoteJid, msg.key.id, msg.key.participant),
                          SendDeleting(msg.key.remoteJid, DecoyDeleteText, msg.key.id, msg.key.participant)]
    ensures forall e :: e in effects ==> !e.Caught?
  {
    if msg.payload.None? then []   // message.message.imageMessage throws, and the catch is empty
    else if msg.payload.value.hasImage || msg.payload.value.hasVideo then
      Issued([Delete(msg.key.remoteJid, msg.key.id, msg.key.participant),
              SendDeleting(msg.key.remoteJid, DecoyDeleteText, msg.key.id, msg.key.participant)], fault)
    else []
  }

  lemma {:induction false} JoinLength(parts: seq<string>)
    requires |parts| >= 1
    ensures |Join(parts, " ")| >= |parts| - 1
    decreases |parts|
  {
    if |parts| >= 2 {
      JoinLength(parts[1..]);
    }
  }

  const DefaultWelcome: string := "[0xENTRY_DETECTED] New entity scanned"

  /** `args.join(" ") || default`: the welcome text is never empty. */
  function WelcomeText(args: seq<string>): (r: string)
    ensures r != ""
    ensures Join(args, " ") != "" ==> r == Join(args, " ")
    ensures Join(args, " ") == "" ==> r == DefaultWelcome
  {
    var joined := Join(args, " ");
    if joined != "" then joined else DefaultWelcome
  }

  /**
   * Only no argument, or one empty argument, falls back to the default; two or more arguments,
   * even empty ones, are joined by spaces and used as they are.
   */
  lemma WelcomeDefaultOnlyWhenBlank(args: seq<string>)
    ensures (|args| == 0 || (|args| == 1 && args[0] == "")) ==> WelcomeText(args) == DefaultWelcome
    ensures |args| >= 2 ==> WelcomeText(args) == Join(args, " ") && |WelcomeText(args)| >= |args| - 1
  {
    if |args| >= 2 {
      JoinLength(args);
    }
  }
}
