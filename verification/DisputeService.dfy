/** Disputes as the source writes them: the routes' two transactions over the tables, and the mailer that
    delivers what they queue (backend/src/services/disputes.ts, dispute-notifications.ts). */
module DisputeService {
  import opened Disputes
  import opened Options
  import Mail
  import MailService
  import Text

  class DisputeTables {
    const setup: Setup
    var disputes: map<int, Dispute>
    var log: seq<Correction>
    var ledger: map<(int, Kind), Note>
    var events: seq<Event>

    function Tables(): Desk
      reads this
    {
      Desk(disputes, log, ledger, events)
    }

    constructor (setup: Setup)
      ensures this.setup == setup && Tables() == EMPTY_DESK
    {
      this.setup := setup;
      disputes, log, ledger, events := map[], [], map[], [];
    }

    /** `appendCorrectionRow` for a dispute's status: refused when the reason states a motive. */
    method AppendStatusRow(id: int, before: Option<Kind>, after: Kind, reason: string, actor: Option<string>)
      returns (ok: bool)
      modifies this`log
      ensures ok <==> !setup.statesMotive(reason)
      ensures log == if ok then old(log) + [StatusChange(id, before, after, reason, actor)] else old(log)
    {
      ok := !setup.statesMotive(reason);
      if ok {
        log := log + [StatusChange(id, before, after, reason, actor)];
      }
    }

    /** `queueDisputeNotification`. */
    method QueueNotification(id: int, contact: string, kind: Kind)
      modifies this`ledger, this`events
      ensures Tables() == Queue(setup, old(Tables()), id, contact, kind)
    {
      if (id, kind) in ledger {
        return;
      }
      var address := Address(setup, contact);
      if address.None? {
        ledger := ledger[(id, kind) := Note(NoChannel, None, None, None)];
        return;
      }
      ledger := ledger[(id, kind) := Note(Queued, Some(Mail.HashAddress(setup.env, address.value)), None, None)];
      var emitted := |events|;
      events := events + [Event(EventType(kind), id)];
      ledger := ledger[(id, kind) := ledger[(id, kind)].(eventId := Some(emitted))];
    }

    /** `submitDispute`: a refusal inside the transaction rolls back what it had written. */
    method SubmitDispute(sub: Submission) returns (answer: Answer)
      modifies this
      ensures (Tables(), answer) == Submit(setup, old(Tables()), sub)
    {
      if !IsDisputable(sub.targetTable) {
        return Rejected(400);
      }
      var contested := Field(sub.contested, CONTESTED_LIMIT);
      if contested.None? {
        return Rejected(400);
      }
      var account := Field(sub.account, ACCOUNT_LIMIT);
      if account.None? {
        return Rejected(400);
      }
      var contact := Field(sub.contact, CONTACT_LIMIT);
      if contact.None? {
        return Rejected(400);
      }
      if !sub.hourlyAllowed || !sub.dailyAllowed {
        return Rejected(429);
      }
      if !sub.targetIsPublic {
        return Rejected(404);
      }
      answer := SubmitTransaction(sub, contested.value, account.value, contact.value);
    }

    /** The transaction of `submitDispute`. */
    method SubmitTransaction(sub: Submission, contested: string, account: string, contact: string)
      returns (answer: Answer)
      requires Precheck(sub).None?
      requires contested == Text.Trim(sub.contested) && account == Text.Trim(sub.account) &&
               contact == Text.Trim(sub.contact)
      modifies this
      ensures (Tables(), answer) == Submit(setup, old(Tables()), sub)
    {
      hide Precheck, Text.Trim, Address;
      var recentCount := |Recent(disputes, sub.now - HOUR_MS)|;
      if recentCount >= GLOBAL_PER_HOUR {
        return Rejected(429);
      }
      var openCount := |OpenOn(disputes, sub.targetTable, sub.targetId)|;
      if openCount >= PER_TARGET_OPEN {
        return Rejected(429);
      }
      if ReferenceTaken(disputes, sub.reference) {
        return Rejected(500);
      }
      var id, before := |disputes|, disputes;
      disputes := disputes[id := Dispute(sub.reference, sub.targetTable, sub.targetId, contested, account, contact,
                                         Mail.Received, sub.createdAt, None, None)];
      var appended := AppendStatusRow(id, None, Mail.Received, ReceivedReason(sub.reference), None);
      if !appended {
        disputes := before;
        return Rejected(400);
      }
      QueueNotification(id, contact, Mail.Received);
      return Receipt(sub.reference, Mail.Received, sub.createdAt);
    }

    /** `decideDispute`; the answer is a status code. */
    method DecideDispute(id: int, uphold: bool, reason: string, actor: Option<string>) returns (status: int)
      modifies this
      ensures (Tables(), status) == Decide(setup, old(Tables()), id, uphold, reason, actor)
    {
      if Text.Trim(reason) == "" {
        return 400;
      }
      if id !in disputes {
        return 404;
      }
      var current, decision := disputes[id], Decision(uphold);
      if current.status != Mail.Received {
        return 409;
      }
      var appended := AppendStatusRow(id, Some(Mail.Received), decision, reason, actor);
      if !appended {
        return 400;
      }
      disputes := disputes[id := current.(status := decision, reviewer := actor, reviewReason := Some(reason))];
      QueueNotification(id, current.contact, decision);
      return 200;
    }
  }

  class DisputeMailer {
    const desk: DisputeTables
    const mailer: MailService.EmailDeliveryService

    constructor (desk: DisputeTables, mailer: MailService.EmailDeliveryService)
      ensures this.desk == desk && this.mailer == mailer
    {
      this.desk, this.mailer := desk, mailer;
    }

    /** `settle`: the terminal write, guarded on `queued`. */
    method SettleRow(key: (int, Kind), state: NoteState, at: int)
      modifies desk`ledger
      ensures desk.Tables() == Settle(old(desk.Tables()), key, state, at)
    {
      if key in desk.ledger && desk.ledger[key].state == Queued {
        var sentAt := if state == Sent then Some(at) else None;
        desk.ledger := desk.ledger[key := desk.ledger[key].(state := state, sentAt := sentAt)];
      }
    }

    /** `DisputeMailer.deliver`: the row is settled only after the provider has answered. */
    method DeliverEvent(eventType: string, subject: Option<int>, broken: bool) returns (result: Delivery)
      requires desk.setup.env == mailer.env
      modifies desk`ledger, mailer`handed
      ensures (desk.Tables(), mailer.Tables(), result) ==
              Deliver(desk.setup, old(desk.Tables()), old(mailer.Tables()), eventType, subject, broken)
    {
      var kind := ParseKind(eventType);
      if kind.None? || subject.None? {
        return DeliveryFailed;
      }
      if broken {
        return DeliveryRaised;
      }
      if subject.value !in desk.disputes {
        return DeliverySkipped;
      }
      var dispute, key := desk.disputes[subject.value], (subject.value, kind.value);
      if key !in desk.ledger || desk.ledger[key].state != Queued {
        return DeliverySkipped;
      }
      var address := Address(desk.setup, dispute.contact);
      if address.None? {
        SettleRow(key, NoChannel, 0);
        return DeliverySkipped;
      }
      var outcome := mailer.SendTransactional(address.value, kind.value, dispute.reference, false);
      if outcome.Threw? {
        return DeliveryRaised;
      }
      var at := mailer.env.clock(|mailer.handed|);
      match outcome {
        case Delivered(_) =>
          SettleRow(key, Sent, at);
          return DeliverySent;
        case DryRunOutcome =>
          SettleRow(key, DryRun, at);
          return DeliverySkipped;
        case SuppressedOutcome =>
          SettleRow(key, Suppressed, at);
          return DeliverySkipped;
        case NoProviderId =>
          SettleRow(key, Failed, at);
          return DeliveryFailed;
      }
    }
  }
}
