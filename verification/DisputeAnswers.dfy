/** What each of the three operations on disputes answers and leaves behind, for every input, in terms of the
    columns and the messages handed over (backend/src/services/disputes.ts, dispute-notifications.ts). */
module DisputeAnswers {
  import opened Disputes
  import opened DisputeLaws
  import opened Options
  import opened Text
  import EmailAddress
  import Mail

  // ---- submissions ------------------------------------------------------------------------

  /** One of the four tables, and fields of the right length once trimmed. */
  ghost predicate WellFormed(sub: Submission) {
    && sub.targetTable in {"meetings", "agenda_items", "meeting_documents", "anomaly_flags"}
    && 1 <= |Trim(sub.contested)| <= 300 && 1 <= |Trim(sub.account)| <= 4000 && 1 <= |Trim(sub.contact)| <= 200
  }

  /** Fewer than thirty in the past hour, and fewer than five undecided on the target. */
  ghost predicate HasRoom(desk: Desk, sub: Submission) {
    && |set d | d in desk.disputes && desk.disputes[d].createdAt >= sub.now - 3_600_000| < 30
    && |set d | d in desk.disputes && desk.disputes[d].targetTable == sub.targetTable &&
                desk.disputes[d].targetId == sub.targetId && desk.disputes[d].status == Mail.Received| < 5
  }

  ghost predicate ReferenceFree(desk: Desk, sub: Submission) {
    forall d :: d in desk.disputes ==> desk.disputes[d].reference != sub.reference
  }

  function Acknowledgement(sub: Submission): string {
    "Dispute " + sub.reference + " received" + " through the public" + " dispute route."
  }

  /** When a submission is accepted, and what the first thing wrong with it answers. */
  lemma SubmissionAnswers(setup: Setup, desk: Desk, sub: Submission)
    ensures var (after, answer) := Submit(setup, desk, sub);
            && (answer.Receipt? <==>
                  && WellFormed(sub) && sub.hourlyAllowed && sub.dailyAllowed && sub.targetIsPublic
                  && HasRoom(desk, sub) && ReferenceFree(desk, sub) && !setup.statesMotive(Acknowledgement(sub)))
            && (answer.Rejected? ==>
                  after == desk &&
                  answer.statusCode == (if !WellFormed(sub) then 400
                                        else if !sub.hourlyAllowed || !sub.dailyAllowed then 429
                                        else if !sub.targetIsPublic then 404
                                        else if !HasRoom(desk, sub) then 429
                                        else if !ReferenceFree(desk, sub) then 500
                                        else 400))
  {
    PrecheckAnswers(sub);
    RoomIs(desk, sub);
    hide Precheck, WellFormed, HasRoom, Trim, Queue, Recent, OpenOn;
  }

  lemma PrecheckAnswers(sub: Submission)
    ensures Precheck(sub) == (if !WellFormed(sub) then Some(400)
                              else if !sub.hourlyAllowed || !sub.dailyAllowed then Some(429)
                              else if !sub.targetIsPublic then Some(404)
                              else None)
  {
    hide Trim;
  }

  lemma RoomIs(desk: Desk, sub: Submission)
    ensures HasRoom(desk, sub) <==>
              |Recent(desk.disputes, sub.now - HOUR_MS)| < GLOBAL_PER_HOUR &&
              |OpenOn(desk.disputes, sub.targetTable, sub.targetId)| < PER_TARGET_OPEN
  {
    assert Recent(desk.disputes, sub.now - HOUR_MS) ==
           set d | d in desk.disputes && desk.disputes[d].createdAt >= sub.now - 3_600_000;
    assert OpenOn(desk.disputes, sub.targetTable, sub.targetId) ==
           set d | d in desk.disputes && desk.disputes[d].targetTable == sub.targetTable &&
                   desk.disputes[d].targetId == sub.targetId && desk.disputes[d].status == Mail.Received;
  }

  // ---- what is owed ------------------------------------------------------------------------

  /** The event type that announces a kind. */
  ghost predicate Announces(eventType: string, k: Kind) {
    || (k == Mail.Received && eventType == "dispute.received")
    || (k == Mail.Upheld && eventType == "dispute.upheld")
    || (k == Mail.Declined && eventType == "dispute.declined")
  }

  /** Between two desks a reply to dispute `d` has been queued, with the event that announces it, or, its
      contact being no address, put on file as one nobody can send. No other row or event is new. */
  ghost predicate Owes(setup: Setup, desk: Desk, after: Desk, d: int, k: Kind, contact: string) {
    var address := EmailAddress.Parse(setup.env.lower, contact);
    && (forall key :: key in after.ledger <==> key in desk.ledger || key == (d, k))
    && (forall key :: key in desk.ledger && key != (d, k) ==> after.ledger[key] == desk.ledger[key])
    && (address.None? ==> after.ledger[(d, k)] == Note(NoChannel, None, None, None) && after.events == desk.events)
    && (address.Some? ==>
          && after.ledger[(d, k)].state == Queued && after.ledger[(d, k)].sentAt == None
          && after.ledger[(d, k)].addressHash == Some(setup.env.digest(setup.env.lower(Trim(address.value))))
          && after.ledger[(d, k)].eventId == Some(|desk.events|)
          && |after.events| == |desk.events| + 1 && after.events[..|desk.events|] == desk.events
          && after.events[|desk.events|].subject == d && Announces(after.events[|desk.events|].eventType, k))
  }

  lemma QueueOwes(setup: Setup, desk: Desk, before: Desk, d: int, contact: string, k: Kind)
    requires (d, k) !in desk.ledger && before.ledger == desk.ledger && before.events == desk.events
    ensures Owes(setup, desk, Queue(setup, before, d, contact, k), d, k, contact)
  {
    hide EmailAddress.Parse, Trim;
  }

  lemma FilingIs(desk: Desk, sub: Submission)
    ensures var filed := FileDispute(desk, sub);
            && filed.disputes == desk.disputes[|desk.disputes| := Filed(sub)]
            && filed.log ==
               desk.log + [StatusChange(|desk.disputes|, None, Mail.Received, Acknowledgement(sub), None)]
            && filed.ledger == desk.ledger && filed.events == desk.events
  {
    hide Trim;
  }

  lemma ReceiptSays(setup: Setup, desk: Desk, sub: Submission)
    requires Submit(setup, desk, sub).1.Receipt?
    ensures var answer := Submit(setup, desk, sub).1;
            answer.reference == sub.reference && answer.status == Mail.Received && answer.receivedAt == sub.createdAt
  {
    hide Trim, Queue, Precheck, Recent, OpenOn;
  }

  /** A receipt: the new dispute column by column, its row in the log, and the acknowledgement owed. */
  lemma ReceiptFiles(setup: Setup, desk: Desk, sub: Submission)
    requires DeskSound(setup, desk) && Submit(setup, desk, sub).1.Receipt?
    ensures var (after, answer) := Submit(setup, desk, sub);
            var d := |desk.disputes|;
            && answer.reference == sub.reference && answer.status == Mail.Received && answer.receivedAt == sub.createdAt
            && d !in desk.disputes && after.disputes.Keys == desk.disputes.Keys + {d}
            && (forall e :: e in desk.disputes ==> after.disputes[e] == desk.disputes[e])
            && IsFiledAs(sub, after.disputes[d])
            && after.log == desk.log + [StatusChange(d, None, Mail.Received, Acknowledgement(sub), None)]
            && Owes(setup, desk, after, d, Mail.Received, Trim(sub.contact))
  {
    hide Trim, Queue, Submit, DeskSound, Owes, IsFiledAs, Filed, FileDispute, Acknowledgement;
    ReceiptSays(setup, desk, sub);
    NothingThereYet(setup, desk);
    ReceiptQueues(setup, desk, sub);
    FiledAs(sub);
    FilingIs(desk, sub);
    QueueOwes(setup, desk, FileDispute(desk, sub), |desk.disputes|, Trim(sub.contact), Mail.Received);
  }

  lemma NothingThereYet(setup: Setup, desk: Desk)
    requires DeskSound(setup, desk)
    ensures |desk.disputes| !in desk.disputes && (|desk.disputes|, Mail.Received) !in desk.ledger
  {
    hide LedgerHonest, LogReplays;
    NextIdFree(desk);
  }

  lemma ReceiptQueues(setup: Setup, desk: Desk, sub: Submission)
    requires Submit(setup, desk, sub).1.Receipt?
    ensures var after, filed := Submit(setup, desk, sub).0, FileDispute(desk, sub);
            && after == Queue(setup, filed, |desk.disputes|, Trim(sub.contact), Mail.Received)
            && after.disputes == filed.disputes && after.log == filed.log
  {
    hide Trim, Queue, Submit, FileDispute;
    SubmitShape(setup, desk, sub);
  }

  /** The dispute holds what the submission brought, trimmed, and is undecided. */
  ghost predicate IsFiledAs(sub: Submission, dispute: Dispute) {
    && dispute.reference == sub.reference && dispute.createdAt == sub.createdAt
    && dispute.targetTable == sub.targetTable && dispute.targetId == sub.targetId
    && dispute.contested == Trim(sub.contested) && dispute.account == Trim(sub.account)
    && dispute.contact == Trim(sub.contact)
    && dispute.status == Mail.Received && dispute.reviewer == None && dispute.reviewReason == None
  }

  lemma FiledAs(sub: Submission)
    ensures IsFiledAs(sub, Filed(sub))
  {
    hide Trim;
  }

  lemma SoundParts(setup: Setup, desk: Desk)
    requires DeskSound(setup, desk)
    ensures Numbered(desk) && LedgerKinds(desk)
  {
  }

  // ---- decisions ------------------------------------------------------------------------------

  /** What a decision answers, and what it leaves: the dispute's verdict, one row in the log, and the outcome
      owed to its filer. */
  lemma DecisionAnswers(setup: Setup, desk: Desk, id: int, uphold: bool, reason: string, actor: Option<string>)
    requires DeskSound(setup, desk)
    ensures var (after, status) := Decide(setup, desk, id, uphold, reason, actor);
            && status == (if Trim(reason) == "" then 400
                          else if id !in desk.disputes then 404
                          else if desk.disputes[id].status != Mail.Received then 409
                          else if setup.statesMotive(reason) then 400
                          else 200)
            && (status != 200 ==> after == desk)
            && (status == 200 ==>
                  var verdict := if uphold then Mail.Upheld else Mail.Declined;
                  && after.disputes.Keys == desk.disputes.Keys
                  && (forall e :: e in desk.disputes && e != id ==> after.disputes[e] == desk.disputes[e])
                  && after.disputes[id] ==
                     desk.disputes[id].(status := verdict, reviewer := actor, reviewReason := Some(reason))
                  && after.log == desk.log + [StatusChange(id, Some(Mail.Received), verdict, reason, actor)]
                  && Owes(setup, desk, after, id, verdict, desk.disputes[id].contact))
  {
    hide Trim, Queue, DeskSound, Owes;
    SoundParts(setup, desk);
    var verdict := if uphold then Mail.Upheld else Mail.Declined;
    if Decide(setup, desk, id, uphold, reason, actor).1 == 200 {
      var decided := RecordDecision(desk, id, verdict, reason, actor);
      QueueOwes(setup, desk, decided, id, desk.disputes[id].contact, verdict);
      QueueFrame(setup, decided, id, desk.disputes[id].contact, verdict);
    }
  }

  // ---- deliveries --------------------------------------------------------------------------------

  /** What delivering the reply of kind `k` to dispute `d` comes to: nothing is handed over for a suppressed
      address or without a provider, and otherwise one message is, about that kind and under that reference;
      the row says which, and stays queued when the provider throws. */
  ghost predicate Delivers(setup: Setup, desk: Desk, mail: Mail.State, d: int, k: Kind, to: string, later: Desk,
                           after: Mail.State, result: Delivery)
    requires d in desk.disputes && (d, k) in desk.ledger && (d, k) in later.ledger
  {
    var row, reference := later.ledger[(d, k)], desk.disputes[d].reference;
    && row.addressHash == desk.ledger[(d, k)].addressHash && row.eventId == desk.ledger[(d, k)].eventId &&
    if setup.env.digest(setup.env.lower(Trim(to))) in mail.suppressions then
      after == mail && row.state == Suppressed && row.sentAt == None && result == DeliverySkipped
    else if !mail.configured then
      after == mail && row.state == DryRun && row.sentAt == None && result == DeliverySkipped
    else
      var answer := setup.env.provider(|mail.handed|);
      && after == mail.(handed := mail.handed + [Mail.Handed(to, Mail.DisputeReply(k, reference), answer)])
      && (answer == Mail.Throws ==> row == desk.ledger[(d, k)] && result == DeliveryRaised)
      && (answer == Mail.Answered("") ==> row.state == Failed && row.sentAt == None && result == DeliveryFailed)
      && (answer.Answered? && answer.id != "" ==>
            row.state == Sent && row.sentAt == Some(setup.env.clock(|mail.handed| + 1)) && result == DeliverySent)
  }

  /** A queued reply is delivered: in every sound state its own event, whatever else has happened since, comes
      to exactly what `Delivers` says, at the address parsed from the dispute's contact, and changes no other
      row. */
  lemma DeliveryHappens(setup: Setup, desk: Desk, mail: Mail.State, d: int, k: Kind, eventType: string)
    requires DeskSound(setup, desk) && (d, k) in desk.ledger && desk.ledger[(d, k)].state == Queued
    requires Announces(eventType, k)
    ensures var (later, after, result) := Deliver(setup, desk, mail, eventType, Some(d), false);
            && d in desk.disputes && later.ledger.Keys == desk.ledger.Keys
            && EmailAddress.Parse(setup.env.lower, desk.disputes[d].contact).Some?
            && Delivers(setup, desk, mail, d, k, EmailAddress.Parse(setup.env.lower, desk.disputes[d].contact).value,
                        later, after, result)
            && (forall key :: key in desk.ledger && key != (d, k) ==> later.ledger[key] == desk.ledger[key])
            && later == desk.(ledger := later.ledger)
  {
    hide ParseKind, EmailAddress.Parse, DeskSound, Delivers, Settle, Mail.SendEmail, Announces, Settled, DeliveryOf;
    QueuedHasAddress(setup, desk, d, k);
    QueuedIsUnsent(setup, desk, d, k);
    AnnouncedKind(eventType, k);
    var to := EmailAddress.Parse(setup.env.lower, desk.disputes[d].contact).value;
    SettledRow(setup, desk, mail, d, k, to);
  }

  lemma QueuedIsUnsent(setup: Setup, desk: Desk, d: int, k: Kind)
    requires DeskSound(setup, desk) && (d, k) in desk.ledger && desk.ledger[(d, k)].state == Queued
    ensures d in desk.disputes && desk.ledger[(d, k)].sentAt == None
  {
    QueuedHasAddress(setup, desk, d, k);
    assert RowHonest(setup, desk, d, k);
  }

  /** Sending to the address and settling the row with what came of it is what `Delivers` says. */
  lemma SettledRow(setup: Setup, desk: Desk, mail: Mail.State, d: int, k: Kind, to: string)
    requires d in desk.disputes && (d, k) in desk.ledger && desk.ledger[(d, k)].state == Queued
    requires desk.ledger[(d, k)].sentAt == None
    ensures var (after, outcome) := Mail.SendEmail(setup.env, mail, to,
                                                   Mail.DisputeReply(k, desk.disputes[d].reference), false);
            var later := if outcome.Threw? then desk
                         else Settle(desk, (d, k), Settled(outcome), setup.env.clock(|after.handed|));
            var result := if outcome.Threw? then DeliveryRaised else DeliveryOf(outcome);
            && later.ledger.Keys == desk.ledger.Keys && later == desk.(ledger := later.ledger)
            && (forall key :: key in desk.ledger && key != (d, k) ==> later.ledger[key] == desk.ledger[key])
            && Delivers(setup, desk, mail, d, k, to, later, after, result)
  {
    hide Trim;
  }

  lemma AnnouncedKind(eventType: string, k: Kind)
    requires Announces(eventType, k)
    ensures ParseKind(eventType) == Some(k)
  {
    hide ParseKind;
    if k == Mail.Received {
      ReceivedKind();
    } else if k == Mail.Upheld {
      UpheldKind();
    } else {
      DeclinedKind();
    }
  }

  lemma ReceivedKind()
    ensures ParseKind("dispute.received") == Some(Mail.Received)
  {
    hide Split;
    SegmentOf("received");
    assert "dispute" + (['.'] + "received") == "dispute.received";
  }

  lemma UpheldKind()
    ensures ParseKind("dispute.upheld") == Some(Mail.Upheld)
  {
    hide Split;
    SegmentOf("upheld");
    assert "dispute" + (['.'] + "upheld") == "dispute.upheld";
    assert |"upheld"| != |"received"|;
  }

  lemma DeclinedKind()
    ensures ParseKind("dispute.declined") == Some(Mail.Declined)
  {
    hide Split;
    SegmentOf("declined");
    assert "dispute" + (['.'] + "declined") == "dispute.declined";
    assert "declined"[0] != "received"[0] && |"declined"| != |"upheld"|;
  }

  lemma SegmentOf(segment: string)
    requires '.' !in segment
    ensures Split("dispute" + (['.'] + segment), '.') == ["dispute", segment]
  {
    hide Split;
    SplitGlued("dispute", '.', segment);
    SplitWithout("dispute", '.');
    SplitWithout(segment, '.');
    assert "dispute" + ['.'] + segment == "dispute" + (['.'] + segment);
  }

  /** The second segment of an event type. */
  function Segment(eventType: string): Option<string> {
    var parts := Split(eventType, '.');
    if |parts| < 2 then None else Some(parts[1])
  }

  /** Every other delivery changes nothing: it fails for a type or a payload that names no reply, raises when
      a look-up fails, and is skipped when there is no such dispute or row, or the row is settled. */
  lemma DeliveryDeclines(setup: Setup, desk: Desk, mail: Mail.State, eventType: string, subject: Option<int>,
                         broken: bool)
    ensures var outcome, second := Deliver(setup, desk, mail, eventType, subject, broken), Segment(eventType);
            if second.None? || second.value !in {"received", "upheld", "declined"} || subject.None? then
              outcome == (desk, mail, DeliveryFailed)
            else if broken then outcome == (desk, mail, DeliveryRaised)
            else
              var k := if second.value == "received" then Mail.Received
                       else if second.value == "upheld" then Mail.Upheld else Mail.Declined;
              var key := (subject.value, k);
              subject.value !in desk.disputes || key !in desk.ledger || desk.ledger[key].state != Queued ==>
                outcome == (desk, mail, DeliverySkipped)
  {
    hide Split, EmailAddress.Parse, Mail.SendEmail;
  }

  // ---- from the form to the mailbox --------------------------------------------------------------

  /** Filing a dispute with an address on it and delivering the event that leaves is what it takes for the
      filer to be sent the acknowledgement. */
  lemma ReceiptIsAcknowledged(setup: Setup, desk: Desk, mail: Mail.State, sub: Submission)
    requires DeskSound(setup, desk) && Submit(setup, desk, sub).1.Receipt?
    requires EmailAddress.Parse(setup.env.lower, Trim(sub.contact)).Some?
    ensures var filed, d := Submit(setup, desk, sub).0, |desk.disputes|;
            && |filed.events| == |desk.events| + 1
            && (var event := filed.events[|desk.events|];
                var (later, after, result) := Deliver(setup, filed, mail, event.eventType, Some(event.subject), false);
                && d in filed.disputes && (d, Mail.Received) in filed.ledger && (d, Mail.Received) in later.ledger
                && Delivers(setup, filed, mail, d, Mail.Received,
                            EmailAddress.Parse(setup.env.lower, Trim(sub.contact)).value, later, after, result))
  {
    hide Submit, Deliver, DeskSound, Trim, EmailAddress.Parse, Delivers, Announces;
    var filed, d := Submit(setup, desk, sub).0, |desk.disputes|;
    ReceiptFiles(setup, desk, sub);
    SubmitSound(setup, desk, sub);
    DeliveryHappens(setup, filed, mail, d, Mail.Received, filed.events[|desk.events|].eventType);
  }

  /** And so for the outcome, once it is decided. */
  lemma DecisionIsAnnounced(setup: Setup, desk: Desk, mail: Mail.State, id: int, uphold: bool, reason: string,
                            actor: Option<string>)
    requires DeskSound(setup, desk) && Decide(setup, desk, id, uphold, reason, actor).1 == 200
    requires id in desk.disputes && EmailAddress.Parse(setup.env.lower, desk.disputes[id].contact).Some?
    ensures var decided, verdict := Decide(setup, desk, id, uphold, reason, actor).0,
                                    if uphold then Mail.Upheld else Mail.Declined;
            && |decided.events| == |desk.events| + 1
            && (var event, to := decided.events[|desk.events|],
                                 EmailAddress.Parse(setup.env.lower, desk.disputes[id].contact).value;
                var (later, after, result) := Deliver(setup, decided, mail, event.eventType, Some(event.subject),
                                                      false);
                && id in decided.disputes && (id, verdict) in decided.ledger && (id, verdict) in later.ledger
                && Delivers(setup, decided, mail, id, verdict, to, later, after, result))
  {
    hide Decide, Deliver, DeskSound, Trim, EmailAddress.Parse, Delivers, Announces;
    var decided := Decide(setup, desk, id, uphold, reason, actor).0;
    var verdict := if uphold then Mail.Upheld else Mail.Declined;
    DecisionAnswers(setup, desk, id, uphold, reason, actor);
    DecideSound(setup, desk, id, uphold, reason, actor);
    DeliveryHappens(setup, decided, mail, id, verdict, decided.events[|desk.events|].eventType);
  }
}
