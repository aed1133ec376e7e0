/** Disputes, the audit log they write, and the ledger of replies owed to whoever filed them
    (backend/src/services/disputes.ts, dispute-notifications.ts). Each transaction is one step over the
    tables; limiters, the publication wall, clocks and the provider are inputs. */
module Disputes {
  import opened Options
  import opened Text
  import EmailAddress
  import Mail

  /** `received`, `upheld`, `declined`: a dispute's status, and the kind of reply that announces it. */
  type Kind = Mail.ReplyKind

  /** The mail environment, and the scan that keeps motives out of the log. */
  datatype Setup = Setup(env: Mail.Env, statesMotive: string -> bool)

  datatype Dispute = Dispute(reference: string, targetTable: string, targetId: string, contested: string,
                             account: string, contact: string, status: Kind, createdAt: int, reviewer: Option<string>,
                             reviewReason: Option<string>)

  /** A row of the audit log: a dispute's status change, or a correction to some other table. */
  datatype Correction =
    | StatusChange(dispute: int, before: Option<Kind>, after: Kind, reason: string, actor: Option<string>)
    | Elsewhere(table: string, target: string)

  datatype NoteState = Queued | Sent | DryRun | Suppressed | NoChannel | Failed

  datatype Note = Note(state: NoteState, addressHash: Option<string>, eventId: Option<nat>, sentAt: Option<int>)

  datatype Event = Event(eventType: string, subject: int)

  /** `record_disputes`, `record_corrections`, `dispute_notifications` and `events`. */
  datatype Desk = Desk(disputes: map<int, Dispute>, log: seq<Correction>, ledger: map<(int, Kind), Note>,
                       events: seq<Event>)

  // ---- submission --------------------------------------------------------------------------

  const HOUR_MS := 3_600_000
  const GLOBAL_PER_HOUR := 30
  const PER_TARGET_OPEN := 5
  const CONTESTED_LIMIT := 300
  const ACCOUNT_LIMIT := 4000
  const CONTACT_LIMIT := 200

  /** What a submission brings, and what its surroundings answer: the two in-memory limiters, the
      publication wall, a fresh reference, the application's clock and the database's. */
  datatype Submission = Submission(targetTable: string, targetId: string, contested: string, account: string,
                                   contact: string, hourlyAllowed: bool, dailyAllowed: bool, targetIsPublic: bool,
                                   reference: string, now: int, createdAt: int)

  datatype Answer = Receipt(reference: string, status: Kind, receivedAt: int) | Rejected(statusCode: int)

  predicate IsDisputable(table: string) {
    table == "meetings" || table == "agenda_items" || table == "meeting_documents" || table == "anomaly_flags"
  }

  /** `requireField`: trimmed, not empty, not too long. */
  function Field(value: string, limit: nat): Option<string> {
    var trimmed := Trim(value);
    if trimmed == "" || |trimmed| > limit then None else Some(trimmed)
  }

  /** The refusals that come before the transaction, in the order they are made. */
  function Precheck(sub: Submission): Option<int> {
    if !IsDisputable(sub.targetTable) then Some(400)
    else if Field(sub.contested, CONTESTED_LIMIT).None? then Some(400)
    else if Field(sub.account, ACCOUNT_LIMIT).None? then Some(400)
    else if Field(sub.contact, CONTACT_LIMIT).None? then Some(400)
    else if !sub.hourlyAllowed then Some(429)
    else if !sub.dailyAllowed then Some(429)
    else if !sub.targetIsPublic then Some(404)
    else None
  }

  function Recent(disputes: map<int, Dispute>, since: int): set<int> {
    set d | d in disputes && disputes[d].createdAt >= since
  }

  /** The undecided disputes of one target. */
  function OpenOn(disputes: map<int, Dispute>, table: string, target: string): set<int> {
    set d | d in disputes && disputes[d].targetTable == table && disputes[d].targetId == target &&
            disputes[d].status == Mail.Received
  }

  predicate ReferenceTaken(disputes: map<int, Dispute>, reference: string) {
    exists d :: d in disputes && disputes[d].reference == reference
  }

  /** A character of Crockford's alphabet: no I, L, O or U. */
  predicate IsReferenceChar(c: char) {
    IsDigit(c) || (IsUpperLetter(c) && c != 'I' && c != 'L' && c != 'O' && c != 'U')
  }

  /** What `generateReference` yields: `CW-` and eight characters. */
  predicate IsReference(s: string) {
    |s| == 11 && s[..3] == "CW-" && forall k :: 3 <= k < 11 ==> IsReferenceChar(s[k])
  }

  function ReceivedReason(reference: string): string {
    "Dispute " + reference + " received" + " through the public" + " dispute route."
  }

  /** The row a submission inserts. */
  function Filed(sub: Submission): Dispute {
    Dispute(sub.reference, sub.targetTable, sub.targetId, Trim(sub.contested), Trim(sub.account), Trim(sub.contact),
            Mail.Received, sub.createdAt, None, None)
  }

  // ---- the ledger ----------------------------------------------------------------------------

  function Address(setup: Setup, contact: string): Option<string> { EmailAddress.Parse(setup.env.lower, contact) }

  function EventType(kind: Kind): string {
    match kind
    case Received => "dispute.received"
    case Upheld => "dispute.upheld"
    case Declined => "dispute.declined"
  }

  /** `queueDisputeNotification`: one row per dispute and kind, queued with its event when the contact is
      an address, and settled without one when it is not. */
  function Queue(setup: Setup, desk: Desk, id: int, contact: string, kind: Kind): Desk {
    if (id, kind) in desk.ledger then desk
    else
      var address := Address(setup, contact);
      if address.None? then desk.(ledger := desk.ledger[(id, kind) := Note(NoChannel, None, None, None)])
      else
        var note := Note(Queued, Some(Mail.HashAddress(setup.env, address.value)), Some(|desk.events|), None);
        desk.(ledger := desk.ledger[(id, kind) := note], events := desk.events + [Event(EventType(kind), id)])
  }

  /** The insert and its log row, under the next free id. */
  function FileDispute(desk: Desk, sub: Submission): Desk {
    var id := |desk.disputes|;
    desk.(disputes := desk.disputes[id := Filed(sub)],
          log := desk.log + [StatusChange(id, None, Mail.Received, ReceivedReason(sub.reference), None)])
  }

  /** `submitDispute`. */
  function Submit(setup: Setup, desk: Desk, sub: Submission): (Desk, Answer) {
    if Precheck(sub).Some? then (desk, Rejected(Precheck(sub).value))
    else if |Recent(desk.disputes, sub.now - HOUR_MS)| >= GLOBAL_PER_HOUR then (desk, Rejected(429))
    else if |OpenOn(desk.disputes, sub.targetTable, sub.targetId)| >= PER_TARGET_OPEN then (desk, Rejected(429))
    else if ReferenceTaken(desk.disputes, sub.reference) then (desk, Rejected(500))
    else if setup.statesMotive(ReceivedReason(sub.reference)) then (desk, Rejected(400))
    else
      (Queue(setup, FileDispute(desk, sub), |desk.disputes|, Trim(sub.contact), Mail.Received),
       Receipt(sub.reference, Mail.Received, sub.createdAt))
  }

  // ---- decision --------------------------------------------------------------------------------

  function Decision(uphold: bool): Kind { if uphold then Mail.Upheld else Mail.Declined }

  /** The log row and the update of one decision. */
  function RecordDecision(desk: Desk, id: int, decision: Kind, reason: string, actor: Option<string>): Desk
    requires id in desk.disputes
  {
    desk.(log := desk.log + [StatusChange(id, Some(Mail.Received), decision, reason, actor)],
          disputes := desk.disputes[id := desk.disputes[id].(status := decision, reviewer := actor,
                                                             reviewReason := Some(reason))])
  }

  /** `decideDispute`; the answer is a status code. */
  function Decide(setup: Setup, desk: Desk, id: int, uphold: bool, reason: string, actor: Option<string>): (Desk, int) {
    if Trim(reason) == "" then (desk, 400)
    else if id !in desk.disputes then (desk, 404)
    else if desk.disputes[id].status != Mail.Received then (desk, 409)
    else if setup.statesMotive(reason) then (desk, 400)
    else
      (Queue(setup, RecordDecision(desk, id, Decision(uphold), reason, actor), id, desk.disputes[id].contact,
             Decision(uphold)), 200)
  }

  // ---- delivery ----------------------------------------------------------------------------------

  datatype Delivery = DeliverySent | DeliverySkipped | DeliveryFailed | DeliveryRaised

  /** `parseKind`: the second segment of an event type. */
  function ParseKind(eventType: string): Option<Kind> {
    var parts := Split(eventType, '.');
    if |parts| < 2 then None
    else if parts[1] == "received" then Some(Mail.Received)
    else if parts[1] == "upheld" then Some(Mail.Upheld)
    else if parts[1] == "declined" then Some(Mail.Declined)
    else None
  }

  /** The terminal write, guarded on `queued`; only a real delivery gets a timestamp. */
  function Settle(desk: Desk, key: (int, Kind), state: NoteState, at: int): Desk {
    if key in desk.ledger && desk.ledger[key].state == Queued then
      var sentAt := if state == Sent then Some(at) else None;
      desk.(ledger := desk.ledger[key := desk.ledger[key].(state := state, sentAt := sentAt)])
    else desk
  }

  function Settled(outcome: Mail.Outcome): NoteState
    requires !outcome.Threw?
  {
    match outcome
    case Delivered(_) => Sent
    case DryRunOutcome => DryRun
    case SuppressedOutcome => Suppressed
    case NoProviderId => Failed
  }

  function DeliveryOf(outcome: Mail.Outcome): Delivery {
    match outcome
    case Delivered(_) => DeliverySent
    case DryRunOutcome => DeliverySkipped
    case SuppressedOutcome => DeliverySkipped
    case NoProviderId => DeliveryFailed
    case Threw => DeliveryRaised
  }

  /** `DisputeMailer.deliver`; `broken` says that a look-up fails before the provider is reached. */
  function Deliver(setup: Setup, desk: Desk, mail: Mail.State, eventType: string, subject: Option<int>, broken: bool)
    : (Desk, Mail.State, Delivery)
  {
    var kind := ParseKind(eventType);
    if kind.None? then (desk, mail, DeliveryFailed)
    else if subject.None? then (desk, mail, DeliveryFailed)
    else if broken then (desk, mail, DeliveryRaised)
    else if subject.value !in desk.disputes then (desk, mail, DeliverySkipped)
    else
      var key, dispute := (subject.value, kind.value), desk.disputes[subject.value];
      if key !in desk.ledger then (desk, mail, DeliverySkipped)
      else if desk.ledger[key].state != Queued then (desk, mail, DeliverySkipped)
      else
        var address := Address(setup, dispute.contact);
        if address.None? then (Settle(desk, key, NoChannel, 0), mail, DeliverySkipped)
        else
          var (after, outcome) :=
            Mail.SendEmail(setup.env, mail, address.value, Mail.DisputeReply(kind.value, dispute.reference), false);
          if outcome.Threw? then (desk, after, DeliveryRaised)
          else (Settle(desk, key, Settled(outcome), setup.env.clock(|after.handed|)), after, DeliveryOf(outcome))
  }

  // ---- runs -----------------------------------------------------------------------------------------

  datatype World = World(desk: Desk, mail: Mail.State)

  datatype Op =
    | SubmitOp(sub: Submission)
    | DecideOp(id: int, uphold: bool, reason: string, actor: Option<string>)
    | DeliverOp(eventType: string, subject: Option<int>, broken: bool)
    | CorrectElsewhere(table: string, target: string)
    | MailOp(op: Mail.Op)

  /** One step. Dispute replies are sent by `deliver` alone, so a mail step is never one. */
  function Step(setup: Setup, w: World, op: Op): World {
    match op
    case SubmitOp(sub) => w.(desk := Submit(setup, w.desk, sub).0)
    case DecideOp(id, uphold, reason, actor) => w.(desk := Decide(setup, w.desk, id, uphold, reason, actor).0)
    case DeliverOp(eventType, subject, broken) =>
      var (desk, mail, _) := Deliver(setup, w.desk, w.mail, eventType, subject, broken);
      World(desk, mail)
    case CorrectElsewhere(table, target) => w.(desk := w.desk.(log := w.desk.log + [Elsewhere(table, target)]))
    case MailOp(op) => if op.ReplyOp? then w else w.(mail := Mail.Step(setup.env, w.mail, op))
  }

  function Run(setup: Setup, w: World, ops: seq<Op>): World {
    if ops == [] then w else Step(setup, Run(setup, w, ops[..|ops| - 1]), ops[|ops| - 1])
  }

  const EMPTY_DESK := Desk(map[], [], map[], [])
}
