/** Outbound mail: suppression, the one door every message goes through, digests and immediate alerts,
    as functions of the tables (backend/src/services/email-suppression.ts, email-delivery.ts). */
module Mail {
  import opened Options
  import opened Text

  /** What the environment decides: case folding and the digest behind `hashAddress`, how the provider
      answers the n-th message handed to it, and the time at which it does. */
  datatype Env = Env(lower: string -> string, digest: string -> string, provider: nat -> Answer, clock: nat -> int)

  /** The provider answers, with a message id or with an empty one, or the call throws. */
  datatype Answer = Answered(id: string) | Throws

  datatype Reason = Unsubscribed | BouncedHard | Complained | OperatorBlock

  datatype Suppression = Suppression(reason: Reason, source: string)

  type Suppressions = map<string, Suppression>

  datatype Severity = Low | Medium | High | Critical

  /** `email_status`: a digest waits for `pending` rows; `queued` ones go out at once. */
  datatype Status = Pending | Queued | Sent | DryRun | Skipped | Failed

  datatype Subscription = Subscription(email: string, jurisdiction: int, enabled: bool, digestOnly: bool,
                                       verified: bool)

  datatype Notification = Notification(subscription: int, flag: int, severity: Severity, status: Status,
                                       sentAt: Option<int>)

  datatype ReplyKind = Received | Upheld | Declined

  /** What a message is about, which its subject line says. */
  datatype Subject =
    | Digest(subscription: int, covers: set<int>)
    | Alert(notification: int)
    | DisputeReply(kind: ReplyKind, reference: string)

  /** A message handed to the provider, and its answer. */
  datatype Handed = Handed(to: string, subject: Subject, answer: Answer)

  datatype State = State(suppressions: Suppressions, subscriptions: map<int, Subscription>,
                         notifications: map<int, Notification>, configured: bool, handed: seq<Handed>)

  datatype Outcome = Delivered(providerId: string) | DryRunOutcome | NoProviderId | SuppressedOutcome | Threw

  // ---- suppression ---------------------------------------------------------------------

  function NormalizeAddress(env: Env, address: string): string { env.lower(Trim(address)) }

  function HashAddress(env: Env, address: string): string { env.digest(NormalizeAddress(env, address)) }

  function FindSuppression(env: Env, table: Suppressions, address: string): Option<Suppression> {
    var hash := HashAddress(env, address);
    if hash in table then Some(table[hash]) else None
  }

  /** `suppress`: refuses an empty address, and otherwise inserts under the hash of the normalised
      address unless a row is already there. */
  function Suppress(env: Env, table: Suppressions, address: string, reason: Reason, source: string)
    : Option<Suppressions>
  {
    var normalised := NormalizeAddress(env, address);
    if normalised == "" then None
    else
      var hash := HashAddress(env, normalised);
      Some(if hash in table then table else table[hash := Suppression(reason, source)])
  }

  function Lift(env: Env, table: Suppressions, address: string): Suppressions { table - {HashAddress(env, address)} }

  // ---- sending ---------------------------------------------------------------------------

  predicate Accepted(answer: Answer) { answer.Answered? && answer.id != "" }

  function OutcomeOf(answer: Answer): Outcome {
    match answer
    case Throws => Threw
    case Answered(id) => if id == "" then NoProviderId else Delivered(id)
  }

  /** `sendEmail`: suppression first, then the provider if there is one. A look-up that fails on the way
      to the provider throws. */
  function SendEmail(env: Env, st: State, to: string, subject: Subject, broken: bool): (State, Outcome) {
    if broken then (st, Threw)
    else if FindSuppression(env, st.suppressions, to).Some? then (st, SuppressedOutcome)
    else if !st.configured then (st, DryRunOutcome)
    else
      var answer := env.provider(|st.handed|);
      (st.(handed := st.handed + [Handed(to, subject, answer)]), OutcomeOf(answer))
  }

  /** `statusFor`. */
  function StatusFor(outcome: Outcome): Status
    requires !outcome.Threw?
  {
    match outcome
    case Delivered(_) => Sent
    case DryRunOutcome => DryRun
    case SuppressedOutcome => Skipped
    case NoProviderId => Failed
  }

  /** Writes a send's status onto rows; only a real delivery gets a timestamp. */
  function Record(env: Env, st: State, ids: set<int>, status: Status): State {
    st.(notifications := map n | n in st.notifications ::
      if n in ids then st.notifications[n].(status := status,
                                            sentAt := if status == Sent then Some(env.clock(|st.handed|)) else None)
      else st.notifications[n])
  }

  // ---- digests -----------------------------------------------------------------------------

  /** A subscription's pending notifications of the given severities. */
  function Due(st: State, subscription: int, severities: set<Severity>): set<int> {
    set n | n in st.notifications && st.notifications[n].subscription == subscription &&
            st.notifications[n].status == Pending && st.notifications[n].severity in severities
  }

  datatype Tally = Tally(sent: nat, failed: nat, dryRun: nat) {
    function Total(): nat { sent + failed + dryRun }
  }

  /** One subscription's turn: the tables afterwards and how it went, if a message was due. A broken turn is
      one in which a query before the provider fails. */
  function DigestTurn(env: Env, st: State, subscription: int, severities: set<Severity>, broken: bool)
    : (State, Option<Outcome>)
  {
    var due := Due(st, subscription, severities);
    if broken then (st, Some(Threw))
    else if due == {} || subscription !in st.subscriptions then (st, None)
    else
      var (after, outcome) :=
        SendEmail(env, st, st.subscriptions[subscription].email, Digest(subscription, due), false);
      if outcome.Threw? then (after, Some(outcome))
      else (Record(env, after, due, StatusFor(outcome)), Some(outcome))
  }

  function Count(tally: Tally, outcome: Option<Outcome>): Tally {
    if outcome.None? then tally
    else if outcome.value.Threw? then tally.(failed := tally.failed + 1)
    else
      var status := StatusFor(outcome.value);
      if status == Sent then tally.(sent := tally.sent + 1)
      else if status == DryRun then tally.(dryRun := tally.dryRun + 1)
      else tally.(failed := tally.failed + 1)
  }

  /** `sendDigest` over the first `n` of the given subscriptions; `broken` holds the turns that break. */
  function DigestRun(env: Env, st: State, ids: seq<int>, severities: set<Severity>, broken: set<nat>, n: nat)
    : (State, Tally)
    requires n <= |ids|
  {
    if n == 0 then (st, Tally(0, 0, 0))
    else
      var (before, tally) := DigestRun(env, st, ids, severities, broken, n - 1);
      var (after, outcome) := DigestTurn(env, before, ids[n - 1], severities, n - 1 in broken);
      (after, Count(tally, outcome))
  }

  /** Subscriptions a scheduled run picks: enabled, verified, with something pending. */
  function PendingSubscriptions(st: State, severities: set<Severity>): set<int> {
    set s | s in st.subscriptions && st.subscriptions[s].enabled && st.subscriptions[s].verified &&
            Due(st, s, severities) != {}
  }

  // ---- new notifications -----------------------------------------------------------------------

  predicate IsImmediate(severity: Severity) { severity == Critical || severity == High }

  /** The status `processAnomalyEvent` gives a new row. */
  function InitialStatus(sub: Subscription, severity: Severity): Status {
    if !sub.enabled then Skipped
    else if sub.digestOnly && !IsImmediate(severity) then Pending
    else if IsImmediate(severity) then Queued
    else Pending
  }

  predicate Notified(st: State, subscription: int, flag: int) {
    exists n :: n in st.notifications && st.notifications[n].subscription == subscription &&
                st.notifications[n].flag == flag
  }

  /** One insert of `processAnomalyEvent`, for a subscription as it was when the event read it: ignored when
      the subscription has been notified of the flag. */
  function Notify(st: State, id: int, subscription: int, seen: Subscription, flag: int, severity: Severity): State {
    if id in st.notifications || subscription !in st.subscriptions || Notified(st, subscription, flag) then st
    else
      var status := InitialStatus(seen, severity);
      st.(notifications := st.notifications[id := Notification(subscription, flag, severity, status, None)])
  }

  // ---- immediate alerts ------------------------------------------------------------------------

  /** One notification's alert: a throw marks the row failed and leaves its timestamp alone. */
  function AlertTurn(env: Env, st: State, n: int, broken: bool): State {
    if n !in st.notifications || st.notifications[n].subscription !in st.subscriptions then st
    else
      var to := st.subscriptions[st.notifications[n].subscription].email;
      var (after, outcome) := SendEmail(env, st, to, Alert(n), broken);
      if outcome.Threw? then
        after.(notifications := after.notifications[n := after.notifications[n].(status := Failed)])
      else Record(env, after, {n}, StatusFor(outcome))
  }

  /** `sendImmediateAlerts` over the first `k` of the rows it selected. */
  function AlertRun(env: Env, st: State, ids: seq<int>, broken: set<nat>, k: nat): State
    requires k <= |ids|
  {
    if k == 0 then st else AlertTurn(env, AlertRun(env, st, ids, broken, k - 1), ids[k - 1], k - 1 in broken)
  }

  // ---- subscriptions ------------------------------------------------------------------------------

  predicate Subscribed(st: State, email: string, jurisdiction: int) {
    exists s :: s in st.subscriptions && st.subscriptions[s].email == email &&
                st.subscriptions[s].jurisdiction == jurisdiction
  }

  /** A new subscription, one an address and jurisdiction, not yet verified. Its address never changes. */
  function Subscribe(st: State, id: int, email: string, jurisdiction: int, enabled: bool, digestOnly: bool): State {
    if id in st.subscriptions || Subscribed(st, email, jurisdiction) then st
    else st.(subscriptions := st.subscriptions[id := Subscription(email, jurisdiction, enabled, digestOnly, false)])
  }

  function Verify(st: State, id: int): State {
    if id !in st.subscriptions then st
    else st.(subscriptions := st.subscriptions[id := st.subscriptions[id].(verified := true)])
  }

  /** A change of preferences; unsubscribing is the one that turns `enabled` off. */
  function Prefer(st: State, id: int, enabled: bool, digestOnly: bool): State {
    if id !in st.subscriptions then st
    else
      var sub := st.subscriptions[id].(enabled := enabled, digestOnly := digestOnly);
      st.(subscriptions := st.subscriptions[id := sub])
  }

  // ---- runs -------------------------------------------------------------------------------------

  datatype Op =
    | SuppressOp(address: string, reason: Reason, source: string)
    | LiftOp(address: string)
    | DigestOp(ids: seq<int>, severities: set<Severity>, broken: set<nat>)
    | AlertOp(ids: seq<int>, broken: set<nat>)
    | ReplyOp(to: string, kind: ReplyKind, reference: string, fails: bool)
    | NotifyOp(id: int, subscription: int, seen: Subscription, flag: int, severity: Severity)
    | ConfigureOp(configured: bool)
    | SubscribeOp(id: int, email: string, jurisdiction: int, enabled: bool, digestOnly: bool)
    | VerifyOp(subscription: int)
    | PreferOp(subscription: int, enabled: bool, digestOnly: bool)

  function Step(env: Env, st: State, op: Op): State {
    match op
    case SuppressOp(address, reason, source) =>
      var table := Suppress(env, st.suppressions, address, reason, source);
      if table.None? then st else st.(suppressions := table.value)
    case LiftOp(address) => st.(suppressions := Lift(env, st.suppressions, address))
    case DigestOp(ids, severities, broken) => DigestRun(env, st, ids, severities, broken, |ids|).0
    case AlertOp(ids, broken) => AlertRun(env, st, ids, broken, |ids|)
    case ReplyOp(to, kind, reference, fails) => SendEmail(env, st, to, DisputeReply(kind, reference), fails).0
    case NotifyOp(id, subscription, seen, flag, severity) => Notify(st, id, subscription, seen, flag, severity)
    case ConfigureOp(configured) => st.(configured := configured)
    case SubscribeOp(id, email, jurisdiction, enabled, digestOnly) =>
      Subscribe(st, id, email, jurisdiction, enabled, digestOnly)
    case VerifyOp(subscription) => Verify(st, subscription)
    case PreferOp(subscription, enabled, digestOnly) => Prefer(st, subscription, enabled, digestOnly)
  }

  function RunOps(env: Env, st: State, ops: seq<Op>): State {
    if ops == [] then st else Step(env, RunOps(env, st, ops[..|ops| - 1]), ops[|ops| - 1])
  }
}
