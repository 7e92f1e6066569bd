/**
 * The event supervisor of handlers/eventHandler.js: a module-level reconnect counter driving an
 * exponential backoff on `connection.update`, and the filter in front of `handleCommand` on
 * `messages.upsert`. The reconnect callback is opaque: that it runs is recorded, and whether it
 * rejects is a parameter.
 */
module EventHandler {
  import opened Text
  import opened Transport
  import CommandHandler

  const MaxReconnectAttempts: nat := 5
  const InitialBackoff: nat := 5000

  /** The site name under which the two caught errors are logged. */
  const UpsertSite: string := "messages.upsert"
  const ReconnectSite: string := "reconnect"

  function Pow2(n: nat): (r: nat)
    ensures r >= 1
  {
    if n == 0 then 1 else 2 * Pow2(n - 1)
  }

  /** `calculateBackoff(attempt)`: 5000 ms doubled once per earlier attempt. */
  function Backoff(attempt: nat): (delay: nat)
    ensures delay >= InitialBackoff
    ensures attempt > 0 ==> delay == 2 * Backoff(attempt - 1)
  {
    InitialBackoff * Pow2(attempt)
  }

  /** The five delays the counter can select are 5, 10, 20, 40 and 80 seconds. */
  lemma BackoffSchedule()
    ensures Backoff(0) == 5000 && Backoff(1) == 10000 && Backoff(2) == 20000
    ensures Backoff(3) == 40000 && Backoff(4) == 80000
  {
  }

  /** The part of a `connection.update` event the handler reads. */
  datatype Update =
    | Close(statusCode: Option<int>)   // connection === "close", with lastDisconnect?.error?.output?.statusCode
    | Open
    | OtherUpdate

  /** A close reconnects unless its status code is 401 (logged out). */
  predicate ShouldReconnect(statusCode: Option<int>) {
    statusCode != Some(401)
  }

  /** The counter after one update and the requests it makes. */
  datatype Step = Step(attempts: nat, effects: seq<Effect>)

  /** What the `connection.update` handler does with counter `attempts`. */
  function UpdateStep(attempts: nat, u: Update): (s: Step)
    ensures |s.effects| <= 1
    ensures !u.Close? ==> s.effects == []
    ensures attempts <= MaxReconnectAttempts ==> s.attempts <= MaxReconnectAttempts
    // a 401 close: nothing scheduled, no exit, counter kept
    ensures u == Close(Some(401)) ==> s == Step(attempts, [])
    // the delay uses the counter before the increment
    ensures (s.effects == [ScheduleReconnect(Backoff(attempts))])
              <==> (u.Close? && ShouldReconnect(u.statusCode) && attempts < MaxReconnectAttempts)
    ensures (s.effects == [Exit(1)]) <==> (u.Close? && ShouldReconnect(u.statusCode) && attempts >= MaxReconnectAttempts)
    ensures s.attempts == if u.Open? then 0 else if s.effects == [ScheduleReconnect(Backoff(attempts))] then attempts + 1 else attempts
  {
    match u
    case Close(code) =>
      if !ShouldReconnect(code) then Step(attempts, [])
      else if attempts < MaxReconnectAttempts then Step(attempts + 1, [ScheduleReconnect(Backoff(attempts))])
      else Step(attempts, [Exit(1)])
    case Open => Step(0, [])
    case OtherUpdate => Step(attempts, [])
  }

  /** A sequence of updates from counter `attempts`; the process ends at the first exit. */
  function RunUpdates(attempts: nat, us: seq<Update>): Step
    decreases |us|
  {
    if |us| == 0 then Step(attempts, [])
    else
      var s := UpdateStep(attempts, us[0]);
      if Exit(1) in s.effects then s
      else
        var rest := RunUpdates(s.attempts, us[1..]);
        Step(rest.attempts, s.effects + rest.effects)
  }

  /** From any counter within the limit, the counter stays within the limit whatever the updates. */
  lemma {:induction false} CounterBounded(attempts: nat, us: seq<Update>)
    requires attempts <= MaxReconnectAttempts
    ensures RunUpdates(attempts, us).attempts <= MaxReconnectAttempts
    decreases |us|
  {
    if |us| > 0 {
      var s := UpdateStep(attempts, us[0]);
      if Exit(1) !in s.effects {
        CounterBounded(s.attempts, us[1..]);
      }
    }
  }

  /** `n` consecutive closes without a status code. */
  function Closes(n: nat): (us: seq<Update>)
    ensures |us| == n && forall i :: 0 <= i < n ==> us[i] == Close(None)
  {
    seq(n, _ => Close(None))
  }

  /** `k` consecutive closes from counter `a` schedule the backoffs of `a`, `a + 1`, ... and count them. */
  lemma {:induction false} ClosesScheduleBackoffs(a: nat, k: nat)
    requires a + k <= MaxReconnectAttempts
    ensures RunUpdates(a, Closes(k)).attempts == a + k
    ensures RunUpdates(a, Closes(k)).effects == seq(k, i requires 0 <= i => ScheduleReconnect(Backoff(a + i)))
    decreases k
  {
    if k > 0 {
      assert Closes(k)[1..] == Closes(k - 1);
      ClosesScheduleBackoffs(a + 1, k - 1);
    }
  }

  /** From a fresh counter, five closes schedule 5, 10, 20, 40 and 80 seconds, and the sixth close exits with code 1. */
  lemma SixthCloseExits()
    ensures RunUpdates(0, Closes(6)).effects
            == [ScheduleReconnect(5000), ScheduleReconnect(10000), ScheduleReconnect(20000),
                ScheduleReconnect(40000), ScheduleReconnect(80000), Exit(1)]
  {
    ClosesScheduleBackoffs(0, 5);
    assert Closes(6) == Closes(5) + [Close(None)];
    RunAppend(0, Closes(5), [Close(None)]);
    BackoffSchedule();
  }

  /** Running `us + vs` is running `us`, then `vs` from where `us` left the counter, unless `us` exited. */
  lemma {:induction false} RunAppend(a: nat, us: seq<Update>, vs: seq<Update>)
    requires Exit(1) !in RunUpdates(a, us).effects
    ensures RunUpdates(a, us + vs)
            == Step(RunUpdates(RunUpdates(a, us).attempts, vs).attempts,
                    RunUpdates(a, us).effects + RunUpdates(RunUpdates(a, us).attempts, vs).effects)
    decreases |us|
  {
    if |us| > 0 {
      assert (us + vs)[0] == us[0];
      assert (us + vs)[1..] == us[1..] + vs;
      var s := UpdateStep(a, us[0]);
      assert Exit(1) !in s.effects;
      var rest := RunUpdates(s.attempts, us[1..]);
      assert RunUpdates(a, us) == Step(rest.attempts, s.effects + rest.effects);
      RunAppend(s.attempts, us[1..], vs);
      assert RunUpdates(a, us + vs)
             == Step(RunUpdates(rest.attempts, vs).attempts, s.effects + (rest.effects + RunUpdates(rest.attempts, vs).effects));
    } else {
      assert us + vs == vs;
      assert RunUpdates(a, us).effects + RunUpdates(a, vs).effects == RunUpdates(a, vs).effects;
    }
  }

  /** The messages of one `messages.upsert` event that `handleCommand` sees: the first one, when it is a notification with content from someone else. */
  predicate Routed(messages: seq<Message>, kind: string) {
    kind == "notify" && |messages| > 0 && messages[0].payload.Some? && !messages[0].key.fromMe
  }

  /** What the `messages.upsert` listener does: filter, dispatch the first message, and catch whatever is thrown. */
  function Upsert(messages: seq<Message>, kind: string, cfg: Config, replyFails: bool): (effects: seq<Effect>)
    ensures kind == "notify" && |messages| == 0 ==> effects == [Caught(UpsertSite)]
    ensures !Routed(messages, kind) && !(kind == "notify" && |messages| == 0) ==> effects == []
    ensures Routed(messages, kind) ==>
              var h := CommandHandler.Handled(messages[0], cfg, replyFails);
              effects == h.effects + (if h.threw then [Caught(UpsertSite)] else [])
  {
    if kind != "notify" then []
    else if |messages| == 0 then [Caught(UpsertSite)]   // messages[0].message throws
    else if messages[0].payload.None? || messages[0].key.fromMe then []
    else
      var h := CommandHandler.Handled(messages[0], cfg, replyFails);
      h.effects + (if h.threw then [Caught(UpsertSite)] else [])
  }

  /** Nothing that is not routed reaches the router: no reply, no plugin, no exit, no hook. */
  lemma UnroutedDispatchesNothing(messages: seq<Message>, kind: string, cfg: Config, replyFails: bool)
    requires !Routed(messages, kind)
    ensures forall e :: e in Upsert(messages, kind, cfg, replyFails) ==> e.Caught?
  {
  }

  /** A routed message whose reply is rejected ends in a caught error, never in an exit or the hooks. */
  lemma RejectedReplyIsCaught(messages: seq<Message>, kind: string, cfg: Config)
    requires Routed(messages, kind)
    ensures var effects := Upsert(messages, kind, cfg, true);
            |effects| == 2 && effects[1] == Caught(UpsertSite)
  {
  }

  /**
   * The supervisor's state: the module-level counter, the reconnect callbacks scheduled and not
   * yet run, everything requested so far, and whether the process has exited.
   */
  class Supervisor {
    var attempts: nat
    var pending: nat
    var trace: seq<Effect>
    var exited: bool
    const cfg: Config

    /** The counter never exceeds the attempt limit. */
    predicate Valid()
      reads this
    {
      attempts <= MaxReconnectAttempts
    }

    /** `setupEventHandlers(sock, reconnect)` with `reconnectAttempts` at its initial 0. */
    constructor (cfg: Config)
      ensures Valid() && attempts == 0 && pending == 0 && trace == [] && !exited && this.cfg == cfg
    {
      attempts, pending, trace, exited := 0, 0, [], false;
      this.cfg := cfg;
    }

    /** The `connection.update` listener. */
    method OnConnectionUpdate(u: Update)
      requires Valid() && !exited
      modifies this
      ensures Valid()
      ensures attempts == UpdateStep(old(attempts), u).attempts
      ensures trace == old(trace) + UpdateStep(old(attempts), u).effects
      ensures pending == old(pending) + (if attempts == old(attempts) + 1 then 1 else 0)
      ensures exited <==> Exit(1) in UpdateStep(old(attempts), u).effects
    {
      if u.Close? {
        if ShouldReconnect(u.statusCode) {
          if attempts < MaxReconnectAttempts {
            var delay := Backoff(attempts);
            attempts := attempts + 1;
            trace := trace + [ScheduleReconnect(delay)];
            pending := pending + 1;
          } else {
            trace := trace + [Exit(1)];
            exited := true;
          }
        }
      } else if u.Open? {
        attempts := 0;
      }
    }

    /**
     * A scheduled timer fires: the opaque `reconnect()` runs, and its rejection is caught and logged.
     * `pending` only counts timers; the delay each was scheduled with stays in `trace`, as its
     * `ScheduleReconnect(Backoff(n))` entry.
     */
    method FireReconnect(callbackFails: bool)
      requires !exited && pending > 0
      modifies this
      ensures pending == old(pending) - 1
      ensures trace == old(trace) + [Reconnect] + (if callbackFails then [Caught(ReconnectSite)] else [])
      ensures unchanged(`attempts) && unchanged(`exited)
    {
      pending := pending - 1;
      trace := trace + [Reconnect];
      if callbackFails {
        trace := trace + [Caught(ReconnectSite)];
      }
    }

    /** The `messages.upsert` listener: it never throws; an exit in the router ends the process. */
    method OnMessagesUpsert(messages: seq<Message>, kind: string, replyFails: bool)
      requires !exited
      modifies this
      ensures trace == old(trace) + Upsert(messages, kind, cfg, replyFails)
      ensures exited <==> Exit(0) in Upsert(messages, kind, cfg, replyFails)
      ensures unchanged(`attempts) && unchanged(`pending)
    {
      if kind != "notify" {
        return;
      }
      if |messages| == 0 {
        trace := trace + [Caught(UpsertSite)];
        return;
      }
      var message := messages[0];
      if message.payload.None? || message.key.fromMe {
        return;
      }
      assert Routed(messages, kind);
      var effects, threw := CommandHandler.HandleCommand(message, cfg, replyFails);
      if threw {
        effects := effects + [Caught(UpsertSite)];
      }
      assert effects == Upsert(messages, kind, cfg, replyFails);
      trace := trace + effects;
      exited := Exit(0) in effects;
    }
  }
}
