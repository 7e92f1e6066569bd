/**
 * The three-strike anti-spam check of plugins/antiSpam.js: signature matching on the message
 * text, a ledger of violations per offender with a sliding 24-hour expiry, and an escalating
 * sequence of transport requests (delete, restrict, remove, report).
 *
 * The SHA-256 digest of the text is a parameter. The expiry timer is an explicit expiry time,
 * and the timers that fire by time `now` are the `Expire(now)` step.
 */
module AntiSpam {
  import opened Text
  import opened Transport

  /** `VIOLATION_TTL`: 24 hours in milliseconds. */
  const ViolationTtl: nat := 86_400_000

  /** A ledger entry: the strike count and the time its expiry timer fires. */
  datatype Violation = Violation(count: nat, expiry: int)

  /** `SPAM_HASHES`: two truncated placeholders, 14 characters each. */
  const SpamHashes: set<string> := {"a3f4de7d1e2...", "b8c2d5f1a9e..."}

  const WarnText: string := "[0xSPAM_WARN] Violation 1/3: Message incinerated"
  const MuteText: string := "[0xSPAM_MUTE] 24h comms ban enacted"
  const TermText: string := "[0xSPAM_TERM] Entity purged from network"
  /** A template literal renders an unassigned `sanction` as this. */
  const UnsetText: string := "undefined"
  const SpamSite: string := "antiSpamCheck"

  // ----- the signatures, on text the `i` flag has made case-blind -----

  /** `\w` holds at position `p` (and never outside the string). */
  predicate WordAt(s: string, p: int) {
    0 <= p < |s| && IsWordChar(s[p])
  }

  /** `\b` holds at position `p`: a word character on exactly one side. */
  predicate Boundary(s: string, p: int) {
    WordAt(s, p - 1) != WordAt(s, p)
  }

  /** Every character of `s[j..m]` is white space (`\s`). */
  predicate Spaces(s: string, j: int, m: int)
    requires 0 <= j <= m <= |s|
  {
    forall t :: j <= t < m ==> IsSpace(s[t])
  }

  /** No character of `s[j..m]` is white space (`\S`). */
  predicate NonSpaces(s: string, j: int, m: int)
    requires 0 <= j <= m <= |s|
  {
    forall t :: j <= t < m ==> !IsSpace(s[t])
  }

  const UrlLeads: seq<string> := ["http://", "https://", "www.", "bit.ly", "t.co"]
  const PhishingWords: seq<string> := ["banking", "password", "login", "verify"]
  const CryptoWords: seq<string> := ["bitcoin", "eth", "nft", "airdrop"]
  const CryptoActions: seq<string> := ["free", "claim"]

  /** `\b(?:https?:\/\/|www\.|bit\.ly|t\.co)\S+\b` matches `s[i..k]` through lead `a`. */
  predicate UrlAt(s: string, i: int, a: string, k: int) {
    && 0 <= i && i + |a| < k <= |s|
    && Boundary(s, i) && OccursAt(s, a, i)
    && NonSpaces(s, i + |a|, k) && Boundary(s, k)
  }

  predicate UrlMatch(s: string) {
    exists i, k, a | 0 <= i < k <= |s| && a in UrlLeads :: UrlAt(s, i, a, k)
  }

  /** `(?:banking|password|login|verify)\s+portal` matches at `i`, with `portal` at `m`. */
  predicate PhishingAt(s: string, i: int, w: string, m: int) {
    && 0 <= i && i + |w| < m && m + 6 <= |s|
    && OccursAt(s, w, i) && Spaces(s, i + |w|, m) && OccursAt(s, "portal", m)
  }

  predicate PhishingMatch(s: string) {
    exists i, m, w | 0 <= i < m <= |s| && w in PhishingWords :: PhishingAt(s, i, w, m)
  }

  /** `\b(?:bitcoin|eth|nft|airdrop)\s+(free|claim)\b` matches at `i`, with the action `v` at `m`. */
  predicate CryptoAt(s: string, i: int, w: string, m: int, v: string) {
    && 0 <= i && i + |w| < m && m + |v| <= |s|
    && Boundary(s, i) && OccursAt(s, w, i) && Spaces(s, i + |w|, m)
    && OccursAt(s, v, m) && Boundary(s, m + |v|)
  }

  predicate CryptoMatch(s: string) {
    exists i, m, w, v | 0 <= i < m <= |s| && w in CryptoWords && v in CryptoActions :: CryptoAt(s, i, w, m, v)
  }

  /** Phase 1: any pattern matches (case-blind), or the digest is a listed one. */
  predicate IsSpam(text: string, digest: string) {
    var s := Lower(text);
    UrlMatch(s) || PhishingMatch(s) || CryptoMatch(s) || digest in SpamHashes
  }

  /** A hex SHA-256 digest has 64 characters, so it is never one of the truncated placeholders. */
  lemma FullDigestNeverListed(digest: string)
    requires |digest| == 64
    ensures digest !in SpamHashes
  {
    assert forall h :: h in SpamHashes ==> |h| == 14;
  }

  /** The signatures are case-blind: a text is spam exactly when its lower-cased form is. */
  lemma SpamCaseBlind(text: string, digest: string)
    ensures IsSpam(text, digest) == IsSpam(Lower(text), digest)
  {
    LowerIdempotent(text);
  }

  /** A `www.` link written in capitals is a URL signature. */
  lemma UrlSignatureExample()
    ensures IsSpam("WWW.spam.io", "")
  {
    var s := Lower("WWW.spam.io");
    assert s == "www.spam.io" by {
      forall t | 0 <= t < |s|
        ensures s[t] == "www.spam.io"[t]
      {
        assert s[t] == LowerChar("WWW.spam.io"[t]);
      }
    }
    assert OccursAt(s, "www.", 0);
    assert Boundary(s, 0) by { assert WordAt(s, 0); }
    assert Boundary(s, 11) by { assert WordAt(s, 10); }
    assert NonSpaces(s, 4, 11) by { assert s[4..11] == "spam.io"; }
    assert UrlAt(s, 0, "www.", 11);
    assert "www." in UrlLeads;
  }

  /** A keyword and `portal` separated by white space of any length are a phishing signature. */
  lemma PhishingSignatureExample()
    ensures IsSpam("Login \t Portal", "")
  {
    var s := Lower("Login \t Portal");
    assert s == "login \t portal";
    assert OccursAt(s, "login", 0) && OccursAt(s, "portal", 8);
    assert PhishingAt(s, 0, "login", 8);
  }

  /** A coin word followed by an action word is a crypto signature. */
  lemma CryptoSignatureExample()
    ensures IsSpam("nft claim", "")
  {
    var s := Lower("nft claim");
    assert s == "nft claim";
    assert OccursAt(s, "nft", 0) && OccursAt(s, "claim", 4);
    assert CryptoAt(s, 0, "nft", 4, "claim");
  }

  // ----- the ledger and the strike -----

  /** `(conversation || extendedTextMessage?.text) ?? ""`. */
  function SpamText(msg: Message): (text: string)
    ensures msg.payload.None? ==> text == ""
  {
    if msg.payload.None? then ""
    else if Truthy(msg.payload.value.conversation) then msg.payload.value.conversation.value
    else if msg.payload.value.extendedText.Some? then msg.payload.value.extendedText.value
    else ""
  }

  /** The strike count an offender already has: 0 without a record. */
  function CountOf(records: map<string, Violation>, offender: string): nat {
    if offender in records then records[offender].count else 0
  }

  /** Phase 2: one more strike for `offender`, and its expiry moved to a full TTL from `now`. */
  function Bump(records: map<string, Violation>, offender: string, now: int): (r: map<string, Violation>)
    ensures offender in r && r[offender] == Violation(CountOf(records, offender) + 1, now + ViolationTtl)
    ensures r.Keys == records.Keys + {offender}
    ensures forall o :: o in records && o != offender ==> r[o] == records[o]
  {
    records[offender := Violation(CountOf(records, offender) + 1, now + ViolationTtl)]
  }

  /** The timers that have fired by `now` have deleted their records. */
  function Expired(records: map<string, Violation>, now: int): (r: map<string, Violation>)
    ensures forall o :: o in r <==> o in records && records[o].expiry > now
    ensures forall o :: o in r ==> r[o] == records[o]
  {
    map o | o in records && records[o].expiry > now :: records[o]
  }

  /** The sanction line for strike `count`. */
  function Sanction(count: nat): string {
    if count == 1 then WarnText
    else if count == 2 then MuteText
    else if count == 3 then TermText
    else UnsetText
  }

  /** The "Next" field: the strikes left before removal, or "Terminal". */
  function NextField(count: nat): string {
    if count < 3 then Decimal(3 - count) + " strikes remain" else "Terminal"
  }

  /** The consequence broadcast after the sanction. */
  function Report(count: nat, digest: string): string {
    Sanction(count) + "\nHash: " + Take(digest, 12) + "...\nNext: " + NextField(count)
  }

  /** The group action strike `count` applies, if any. */
  function GroupAction(chat: string, offender: string, count: nat): (r: seq<Effect>)
    ensures |r| <= 1
  {
    if count == 2 then [GroupUpdate(chat, offender, Restrict)]
    else if count == 3 then [GroupUpdate(chat, offender, Remove)]
    else []
  }

  /** Phase 3: the awaited calls of strike `count`, in order, when none is rejected. */
  function StrikeCalls(chat: string, id: string, offender: string, count: nat, digest: string): seq<Effect> {
    [Delete(chat, id, None)] + GroupAction(chat, offender, count) + [Send(chat, Report(count, digest))]
  }

  /** The calls issued under `fault`, then the logged error if one was rejected. */
  function Strike(chat: string, id: string, offender: string, count: nat, digest: string, fault: Fault): seq<Effect> {
    var calls := StrikeCalls(chat, id, offender, count, digest);
    Issued(calls, fault) + (if Rejects(calls, fault) then [Caught(SpamSite)] else [])
  }

  /** Every strike asks first to delete the message; strikes 1, 2 and 3 add nothing, `restrict` and `remove`. */
  lemma Escalation(chat: string, id: string, offender: string, count: nat, digest: string)
    requires count >= 1
    ensures var calls := StrikeCalls(chat, id, offender, count, digest);
            && calls[0] == Delete(chat, id, None)
            && calls[|calls| - 1] == Send(chat, Report(count, digest))
            && (count == 1 ==> |calls| == 2)
            && (count == 2 ==> calls[1] == GroupUpdate(chat, offender, Restrict))
            && (count == 3 ==> calls[1] == GroupUpdate(chat, offender, Remove))
            && (count >= 4 ==> |calls| == 2 && Sanction(count) == UnsetText)
  {
  }

  /** The remaining-strikes field counts down 2, 1, then "Terminal" from strike 3 on. */
  lemma NextCountsDown()
    ensures NextField(1) == "2 strikes remain" && NextField(2) == "1 strikes remain"
    ensures forall c: nat :: c >= 3 ==> NextField(c) == "Terminal"
  {
    assert Decimal(2) == "2" && Decimal(1) == "1";
  }

  /** A rejected delete ends the strike: no sanction and no report, only the logged error. */
  lemma FailedDeleteSkipsSanctions(chat: string, id: string, offender: string, count: nat, digest: string)
    ensures Strike(chat, id, offender, count, digest, FailsAt(0)) == [Delete(chat, id, None), Caught(SpamSite)]
  {
  }

  /** When every timer due by `now` has fired, expiring at `now` removes nothing more. */
  lemma ExpiredWhenCurrent(records: map<string, Violation>, now: int)
    requires forall o :: o in records ==> records[o].expiry > now
    ensures Expired(records, now) == records
  {
  }

  /** Once a record has expired, the next violation of that offender is strike 1 again. */
  lemma ExpiryStartsOver(records: map<string, Violation>, offender: string, now: int, later: int)
    requires offender in records && records[offender].expiry <= now
    ensures Bump(Expired(records, now), offender, later)[offender].count == 1
  {
  }

  /** The ledger never deletes a record on a strike, not even when the offender is removed. */
  lemma RemovalKeepsRecord(records: map<string, Violation>, offender: string, now: int)
    requires CountOf(records, offender) == 2
    ensures Bump(records, offender, now)[offender].count == 3
    ensures offender in Bump(records, offender, now)
    ensures Bump(Bump(records, offender, now), offender, now)[offender].count == 4
  {
  }

  /** Phase 3 of `antiSpamCheck`: delete, sanction and report, each awaited in turn; a rejection is logged. */
  method Enforce(chat: string, id: string, offender: string, count: nat, digest: string, fault: Fault)
    returns (effects: seq<Effect>)
    requires count >= 1
    ensures effects == Strike(chat, id, offender, count, digest, fault)
  {
    effects := [Delete(chat, id, None)];
    if fault == FailsAt(0) {
      effects := effects + [Caught(SpamSite)];
      return;
    }
    var sanction: string;
    if count == 1 {
      sanction := WarnText;
    } else if count == 2 {
      sanction := MuteText;
      effects := effects + [GroupUpdate(chat, offender, Restrict)];
    } else if count == 3 {
      sanction := TermText;
      effects := effects + [GroupUpdate(chat, offender, Remove)];
    } else {
      sanction := UnsetText;
    }
    if fault == FailsAt(1) && |effects| == 2 {
      effects := effects + [Caught(SpamSite)];
      return;
    }
    var next := if count < 3 then Decimal(3 - count) + " strikes remain" else "Terminal";
    effects := effects + [Send(chat, sanction + "\nHash: " + Take(digest, 12) + "...\nNext: " + next)];
    if fault == FailsAt(|effects| - 1) {
      effects := effects + [Caught(SpamSite)];
    }
  }

  /** `VIOLATION_RECORDS`. */
  class ViolationLedger {
    var records: map<string, Violation>

    constructor ()
      ensures records == map[]
    {
      records := map[];
    }

    /** Every record's timer is still pending at `now`: the timers due by then have fired. */
    predicate Current(now: int)
      reads this
    {
      forall o :: o in records ==> records[o].expiry > now
    }

    /** The expiry timers that fire by time `now`. */
    method Expire(now: int)
      modifies this
      ensures records == Expired(old(records), now)
      ensures Current(now)
    {
      records := map o | o in records && records[o].expiry > now :: records[o];
    }

    /**
     * `antiSpamCheck(sock, message)` at time `now`, `digest` being the text's SHA-256 in hex:
     * the ledger is updated before the first transport call, and a rejected call is logged. The
     * event loop has run every expiry timer due by `now`, so no expired record is left to bump.
     */
    method Check(msg: Message, now: int, digest: string, fault: Fault) returns (effects: seq<Effect>)
      requires Current(now)
      modifies this
      ensures Current(now)
      ensures !IsSpam(SpamText(msg), digest) ==> records == old(records) && effects == []
      ensures IsSpam(SpamText(msg), digest) ==>
                var offender := Author(msg.key);
                && records == Bump(old(records), offender, now)
                && records == Bump(Expired(old(records), now), offender, now)
                && effects == Strike(msg.key.remoteJid, msg.key.id, offender, records[offender].count, digest, fault)
    {
      var chat := msg.key.remoteJid;
      var text := SpamText(msg);
      if !IsSpam(text, digest) {
        return [];
      }
      var offender := Author(msg.key);
      var count := if offender in records then records[offender].count else 0;
      count := count + 1;
      records := records[offender := Violation(count, now + ViolationTtl)];

      ExpiredWhenCurrent(old(records), now);
      effects := Enforce(chat, msg.key.id, offender, count, digest, fault);
    }
  }
}
