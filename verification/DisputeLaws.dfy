/** What holds over every run of submit, decide and deliver: the audit log replays to the table, the
    ledger owes exactly the replies it should, and nobody is written to twice. */
module DisputeLaws {
  import opened Disputes
  import opened Options
  import opened Sequences
  import Text
  import Mail

  // ---- the tables ------------------------------------------------------------------------

  /** Disputes are numbered in the order they were filed, and no two share a reference. */
  ghost predicate Numbered(desk: Desk) {
    && (forall d :: d in desk.disputes <==> 0 <= d < |desk.disputes|)
    && (forall d, e :: d in desk.disputes && e in desk.disputes &&
                       desk.disputes[d].reference == desk.disputes[e].reference
          ==> d == e)
  }

  /** A dispute's ledger kinds are exactly {received} while undecided, and {received, its decision} after. */
  ghost predicate LedgerKinds(desk: Desk) {
    forall d, k :: (d, k) in desk.ledger <==>
      d in desk.disputes && (k == Mail.Received || k == desk.disputes[d].status)
  }

  /** A ledger row against its dispute's contact: a contact that is no address gives a row that was never
      queued, with neither event nor hash; any other gives a row with its event and its hash, and a
      timestamp exactly when it was sent. */
  ghost predicate RowHonest(setup: Setup, desk: Desk, d: int, k: Kind)
    requires d in desk.disputes && (d, k) in desk.ledger
  {
    var note, address := desk.ledger[(d, k)], Address(setup, desk.disputes[d].contact);
    if address.None? then note == Note(NoChannel, None, None, None)
    else
      && note.state != NoChannel
      && note.addressHash == Some(Mail.HashAddress(setup.env, address.value))
      && note.eventId.Some? && note.eventId.value < |desk.events|
      && desk.events[note.eventId.value] == Event(EventType(k), d)
      && (note.sentAt.Some? <==> note.state == Sent)
  }

  ghost predicate LedgerHonest(setup: Setup, desk: Desk) {
    forall d, k :: d in desk.disputes && (d, k) in desk.ledger ==> RowHonest(setup, desk, d, k)
  }

  // ---- the log ---------------------------------------------------------------------------

  /** The statuses the log leaves behind. */
  function Replay(log: seq<Correction>): map<int, Kind> {
    if log == [] then map[]
    else
      var before, row := Replay(log[..|log| - 1]), log[|log| - 1];
      if row.StatusChange? then before[row.dispute := row.after] else before
  }

  /** Every status change states the status the log had left before it. */
  predicate Chained(log: seq<Correction>) {
    log == [] ||
    (var before, row := log[..|log| - 1], log[|log| - 1];
     Chained(before) && (row.StatusChange? ==> row.before == StatusAfter(before, row.dispute)))
  }

  /** The status the log leaves a dispute with. */
  function StatusAfter(log: seq<Correction>, d: int): Option<Kind> {
    if d in Replay(log) then Some(Replay(log)[d]) else None
  }

  function Filing(d: int): Correction -> bool {
    (row: Correction) => row.StatusChange? && row.dispute == d && row.before == None && row.after == Mail.Received
  }

  function Deciding(d: int): Correction -> bool {
    (row: Correction) => row.StatusChange? && row.dispute == d && row.before == Some(Mail.Received) &&
      row.after != Mail.Received
  }

  function About(d: int): Correction -> bool { (row: Correction) => row.StatusChange? && row.dispute == d }

  /** The log replays to the table, and holds for each dispute one filing, at most one decision, and
      nothing else. */
  ghost predicate LogReplays(log: seq<Correction>, disputes: map<int, Dispute>) {
    && Replay(log).Keys == disputes.Keys
    && (forall d :: d in disputes ==> Replay(log)[d] == disputes[d].status)
    && Chained(log)
    && (forall d :: CountIf(log, Filing(d)) == (if d in disputes then 1 else 0))
    && (forall d :: CountIf(log, Deciding(d)) ==
                    (if d in disputes && disputes[d].status != Mail.Received then 1 else 0))
    && (forall d :: CountIf(log, About(d)) == CountIf(log, Filing(d)) + CountIf(log, Deciding(d)))
  }

  ghost predicate DeskSound(setup: Setup, desk: Desk) {
    Numbered(desk) && LedgerKinds(desk) && LedgerHonest(setup, desk) && LogReplays(desk.log, desk.disputes)
  }

  lemma EmptyDeskSound(setup: Setup)
    ensures DeskSound(setup, EMPTY_DESK)
  {
  }

  lemma LogStep(log: seq<Correction>, row: Correction)
    ensures Replay(log + [row]) == (if row.StatusChange? then Replay(log)[row.dispute := row.after] else Replay(log))
    ensures forall d :: CountIf(log + [row], Filing(d)) == CountIf(log, Filing(d)) + (if Filing(d)(row) then 1 else 0)
    ensures forall d :: CountIf(log + [row], Deciding(d)) ==
                        CountIf(log, Deciding(d)) + (if Deciding(d)(row) then 1 else 0)
    ensures forall d :: CountIf(log + [row], About(d)) == CountIf(log, About(d)) + (if About(d)(row) then 1 else 0)
  {
    assert (log + [row])[..|log|] == log;
  }

  lemma ChainStep(log: seq<Correction>, row: Correction)
    requires Chained(log)
    requires row.StatusChange? ==> row.before == StatusAfter(log, row.dispute)
    ensures Chained(log + [row])
  {
    assert (log + [row])[..|log|] == log;
  }

  lemma FilingKeepsLog(desk: Desk, sub: Submission)
    requires LogReplays(desk.log, desk.disputes) && |desk.disputes| !in desk.disputes
    ensures var filed := FileDispute(desk, sub);
            LogReplays(filed.log, filed.disputes)
  {
    hide ReceivedReason, Text.Trim, CountIf, Replay;
    var row := StatusChange(|desk.disputes|, None, Mail.Received, ReceivedReason(sub.reference), None);
    LogStep(desk.log, row);
    ChainStep(desk.log, row);
  }

  lemma DecidingKeepsLog(desk: Desk, id: int, decision: Kind, reason: string, actor: Option<string>)
    requires LogReplays(desk.log, desk.disputes) && id in desk.disputes && desk.disputes[id].status == Mail.Received
    requires decision != Mail.Received
    ensures var decided := RecordDecision(desk, id, decision, reason, actor);
            LogReplays(decided.log, decided.disputes)
  {
    var row := StatusChange(id, Some(Mail.Received), decision, reason, actor);
    LogStep(desk.log, row);
    ChainStep(desk.log, row);
  }

  /** Queueing touches only its own ledger row and the event it adds. */
  lemma QueueRow(setup: Setup, desk: Desk, id: int, contact: string, kind: Kind)
    requires id in desk.disputes && desk.disputes[id].contact == contact && (id, kind) !in desk.ledger
    requires LedgerHonest(setup, desk)
    ensures LedgerHonest(setup, Queue(setup, desk, id, contact, kind))
  {
    var after := Queue(setup, desk, id, contact, kind);
    forall d, k | d in after.disputes && (d, k) in after.ledger ensures RowHonest(setup, after, d, k) {
      if (d, k) != (id, kind) {
        assert RowHonest(setup, desk, d, k);
      }
    }
  }

  lemma QueueFrame(setup: Setup, desk: Desk, id: int, contact: string, kind: Kind)
    ensures var after := Queue(setup, desk, id, contact, kind);
            && after.disputes == desk.disputes && after.log == desk.log && desk.events <= after.events
            && after.ledger.Keys == desk.ledger.Keys + {(id, kind)}
            && (forall key :: key in desk.ledger ==> after.ledger[key] == desk.ledger[key])
            && ((id, kind) !in desk.ledger ==> after.ledger[(id, kind)].state != Sent)
  {
  }

  /** Rows stay honest when their disputes keep their contacts. */
  lemma ContactsKeepHonest(setup: Setup, desk: Desk, after: Desk)
    requires LedgerHonest(setup, desk) && after.ledger == desk.ledger && after.events == desk.events
    requires forall d :: d in desk.disputes ==>
               d in after.disputes && after.disputes[d].contact == desk.disputes[d].contact
    requires forall d, k :: (d, k) in desk.ledger ==> d in desk.disputes
    ensures LedgerHonest(setup, after)
  {
    forall d, k | d in after.disputes && (d, k) in after.ledger ensures RowHonest(setup, after, d, k) {
      assert RowHonest(setup, desk, d, k);
    }
  }

  lemma FilingNumbered(desk: Desk, sub: Submission)
    requires Numbered(desk) && !ReferenceTaken(desk.disputes, sub.reference)
    ensures Numbered(FileDispute(desk, sub))
  {
    hide Text.Trim, ReceivedReason;
    var after := FileDispute(desk, sub);
    assert |desk.disputes| !in desk.disputes;
    assert |after.disputes| == |desk.disputes| + 1;
  }

  predicate Accepts(setup: Setup, desk: Desk, sub: Submission) { Submit(setup, desk, sub).1.Receipt? }

  lemma FilingHonest(setup: Setup, desk: Desk, sub: Submission)
    requires LedgerKinds(desk) && LedgerHonest(setup, desk) && |desk.disputes| !in desk.disputes
    ensures LedgerHonest(setup, Queue(setup, FileDispute(desk, sub), |desk.disputes|, Text.Trim(sub.contact),
                                      Mail.Received))
  {
    ContactsKeepHonest(setup, desk, FileDispute(desk, sub));
    QueueRow(setup, FileDispute(desk, sub), |desk.disputes|, Text.Trim(sub.contact), Mail.Received);
  }

  lemma FilingSound(setup: Setup, desk: Desk, sub: Submission)
    requires Numbered(desk) && LedgerKinds(desk) && !ReferenceTaken(desk.disputes, sub.reference)
    ensures var after := Queue(setup, FileDispute(desk, sub), |desk.disputes|, Text.Trim(sub.contact), Mail.Received);
            Numbered(after) && LedgerKinds(after)
  {
    FilingNumbered(desk, sub);
    NextIdFree(desk);
    QueueFrame(setup, FileDispute(desk, sub), |desk.disputes|, Text.Trim(sub.contact), Mail.Received);
  }

  lemma NextIdFree(desk: Desk)
    requires Numbered(desk)
    ensures |desk.disputes| !in desk.disputes
  {
  }

  /** A submission changes nothing, or files one dispute and queues its acknowledgement. */
  lemma SubmitShape(setup: Setup, desk: Desk, sub: Submission)
    ensures var after := Submit(setup, desk, sub).0;
            if Accepts(setup, desk, sub) then
              !ReferenceTaken(desk.disputes, sub.reference) &&
              after == Queue(setup, FileDispute(desk, sub), |desk.disputes|, Text.Trim(sub.contact), Mail.Received) &&
              after.log == FileDispute(desk, sub).log && after.disputes == FileDispute(desk, sub).disputes
            else after == desk
  {
    hide Text.Trim, Address, Precheck, Recent, OpenOn, ReceivedReason;
  }

  lemma SubmitSound(setup: Setup, desk: Desk, sub: Submission)
    requires DeskSound(setup, desk)
    ensures DeskSound(setup, Submit(setup, desk, sub).0)
  {
    SubmitShape(setup, desk, sub);
    if Accepts(setup, desk, sub) {
      NextIdFree(desk);
      FilingKeepsLog(desk, sub);
      FilingSound(setup, desk, sub);
      FilingHonest(setup, desk, sub);
    }
  }

  predicate Rules(setup: Setup, desk: Desk, id: int, uphold: bool, reason: string, actor: Option<string>) {
    Decide(setup, desk, id, uphold, reason, actor).1 == 200
  }

  lemma RulingHonest(setup: Setup, desk: Desk, id: int, decision: Kind, reason: string, actor: Option<string>)
    requires LedgerKinds(desk) && LedgerHonest(setup, desk) && id in desk.disputes && (id, decision) !in desk.ledger
    ensures LedgerHonest(setup, Queue(setup, RecordDecision(desk, id, decision, reason, actor), id,
                                      desk.disputes[id].contact, decision))
  {
    var decided := RecordDecision(desk, id, decision, reason, actor);
    ContactsKeepHonest(setup, desk, decided);
    QueueRow(setup, decided, id, desk.disputes[id].contact, decision);
  }

  lemma RulingKinds(setup: Setup, desk: Desk, id: int, decision: Kind, reason: string, actor: Option<string>)
    requires Numbered(desk) && LedgerKinds(desk) && id in desk.disputes && desk.disputes[id].status == Mail.Received
    ensures var after := Queue(setup, RecordDecision(desk, id, decision, reason, actor), id,
                               desk.disputes[id].contact, decision);
            Numbered(after) && LedgerKinds(after)
  {
    hide Queue;
    var decided := RecordDecision(desk, id, decision, reason, actor);
    QueueFrame(setup, decided, id, desk.disputes[id].contact, decision);
    assert decided.disputes.Keys == desk.disputes.Keys;
    assert |decided.disputes| == |decided.disputes.Keys| == |desk.disputes|;
  }

  lemma DecideSound(setup: Setup, desk: Desk, id: int, uphold: bool, reason: string, actor: Option<string>)
    requires DeskSound(setup, desk)
    ensures DeskSound(setup, Decide(setup, desk, id, uphold, reason, actor).0)
  {
    hide Text.Trim, Address, Queue, LedgerHonest, Numbered, LogReplays;
    if Rules(setup, desk, id, uphold, reason, actor) {
      var decision := Decision(uphold);
      RulingHonest(setup, desk, id, decision, reason, actor);
      RulingKinds(setup, desk, id, decision, reason, actor);
      DecidingKeepsLog(desk, id, decision, reason, actor);
      QueueFrame(setup, RecordDecision(desk, id, decision, reason, actor), id, desk.disputes[id].contact, decision);
    }
  }

  lemma SettleSound(setup: Setup, desk: Desk, key: (int, Kind), state: NoteState, at: int)
    requires DeskSound(setup, desk) && state != Queued && state != NoChannel
    ensures DeskSound(setup, Settle(desk, key, state, at))
  {
    hide Address, LogReplays;
    var after := Settle(desk, key, state, at);
    forall d, k | d in after.disputes && (d, k) in after.ledger ensures RowHonest(setup, after, d, k) {
      assert RowHonest(setup, desk, d, k);
    }
  }

  /** In a reachable state a queued row's contact is an address: `deliver` never takes its branch for one
      that is not. */
  lemma QueuedHasAddress(setup: Setup, desk: Desk, d: int, k: Kind)
    requires DeskSound(setup, desk) && (d, k) in desk.ledger && desk.ledger[(d, k)].state == Queued
    ensures d in desk.disputes && Address(setup, desk.disputes[d].contact).Some?
  {
    assert RowHonest(setup, desk, d, k);
  }

  lemma DeliverSound(setup: Setup, desk: Desk, mail: Mail.State, eventType: string, subject: Option<int>, broken: bool)
    requires DeskSound(setup, desk)
    ensures DeskSound(setup, Deliver(setup, desk, mail, eventType, subject, broken).0)
  {
    hide Address, Mail.SendEmail, DeskSound, Settle;
    var kind := ParseKind(eventType);
    if kind.Some? && subject.Some? && subject.value in desk.disputes && (subject.value, kind.value) in desk.ledger &&
       desk.ledger[(subject.value, kind.value)].state == Queued {
      QueuedHasAddress(setup, desk, subject.value, kind.value);
      var dispute := desk.disputes[subject.value];
      var (after, outcome) := Mail.SendEmail(setup.env, mail, Address(setup, dispute.contact).value,
                                             Mail.DisputeReply(kind.value, dispute.reference), false);
      if !outcome.Threw? {
        SettleSound(setup, desk, (subject.value, kind.value), Settled(outcome), setup.env.clock(|after.handed|));
      }
    }
  }

  lemma ElsewhereSound(setup: Setup, desk: Desk, table: string, target: string)
    requires DeskSound(setup, desk)
    ensures DeskSound(setup, desk.(log := desk.log + [Elsewhere(table, target)]))
  {
    LogStep(desk.log, Elsewhere(table, target));
    ChainStep(desk.log, Elsewhere(table, target));
    ContactsKeepHonest(setup, desk, desk.(log := desk.log + [Elsewhere(table, target)]));
  }

  lemma StepSound(setup: Setup, w: World, op: Op)
    requires DeskSound(setup, w.desk)
    ensures DeskSound(setup, Step(setup, w, op).desk)
  {
    hide Submit, Decide, Deliver, Mail.Step;
    match op
    case SubmitOp(sub) => SubmitSound(setup, w.desk, sub);
    case DecideOp(id, uphold, reason, actor) => DecideSound(setup, w.desk, id, uphold, reason, actor);
    case DeliverOp(eventType, subject, broken) => DeliverSound(setup, w.desk, w.mail, eventType, subject, broken);
    case CorrectElsewhere(table, target) => ElsewhereSound(setup, w.desk, table, target);
    case MailOp(_) =>
  }

  /** In every reachable state the log replays to the table, with one filing and at most one decision per
      dispute; the ledger's kinds are exactly {received} or {received, the decision}; and every ledger row
      has its event, or is `no_notification_channel` without one and without a hash. */
  lemma {:induction false} RunSound(setup: Setup, w: World, ops: seq<Op>)
    requires DeskSound(setup, w.desk)
    ensures DeskSound(setup, Run(setup, w, ops).desk)
  {
    if ops == [] {
    } else {
      RunSound(setup, w, ops[..|ops| - 1]);
      StepSound(setup, Run(setup, w, ops[..|ops| - 1]), ops[|ops| - 1]);
    }
  }

  // ---- what only moves forward --------------------------------------------------------------

  /** From one state to a later one: the log is extended, decisions stand, and a ledger row that has left
      `queued` stays as it is. */
  ghost predicate Forward(desk: Desk, later: Desk) {
    && desk.log <= later.log && desk.events <= later.events
    && (forall d :: d in desk.disputes ==>
          d in later.disputes && later.disputes[d].reference == desk.disputes[d].reference &&
          (desk.disputes[d].status != Mail.Received ==> later.disputes[d].status == desk.disputes[d].status))
    && (forall key :: key in desk.ledger ==>
          key in later.ledger && (desk.ledger[key].state != Queued ==> later.ledger[key] == desk.ledger[key]))
  }

  lemma SubmitForward(setup: Setup, desk: Desk, sub: Submission)
    requires Numbered(desk)
    ensures Forward(desk, Submit(setup, desk, sub).0)
  {
    hide Text.Trim, Address, Queue, Submit;
    SubmitShape(setup, desk, sub);
    if Accepts(setup, desk, sub) {
      QueueFrame(setup, FileDispute(desk, sub), |desk.disputes|, Text.Trim(sub.contact), Mail.Received);
    }
  }

  lemma DecideForward(setup: Setup, desk: Desk, id: int, uphold: bool, reason: string, actor: Option<string>)
    ensures Forward(desk, Decide(setup, desk, id, uphold, reason, actor).0)
  {
    hide Text.Trim, Address, Queue;
    if Rules(setup, desk, id, uphold, reason, actor) {
      QueueFrame(setup, RecordDecision(desk, id, Decision(uphold), reason, actor), id, desk.disputes[id].contact,
                 Decision(uphold));
    }
  }

  lemma DeliverForward(setup: Setup, desk: Desk, mail: Mail.State, eventType: string, subject: Option<int>,
                       broken: bool)
    ensures Forward(desk, Deliver(setup, desk, mail, eventType, subject, broken).0)
  {
    hide Address, Mail.SendEmail;
  }

  lemma StepForward(setup: Setup, w: World, op: Op)
    requires Numbered(w.desk)
    ensures Forward(w.desk, Step(setup, w, op).desk)
  {
    match op
    case SubmitOp(sub) => SubmitForward(setup, w.desk, sub);
    case DecideOp(id, uphold, reason, actor) => DecideForward(setup, w.desk, id, uphold, reason, actor);
    case DeliverOp(eventType, subject, broken) => DeliverForward(setup, w.desk, w.mail, eventType, subject, broken);
    case CorrectElsewhere(_, _) =>
    case MailOp(_) =>
  }

  /** Over every run: the log is an extension of every earlier log, a decided dispute keeps its decision,
      and a ledger row leaves `queued` at most once and never returns. */
  lemma {:induction false} RunForward(setup: Setup, w: World, ops: seq<Op>)
    requires DeskSound(setup, w.desk)
    ensures Forward(w.desk, Run(setup, w, ops).desk)
  {
    if ops == [] {
    } else {
      var before := Run(setup, w, ops[..|ops| - 1]);
      RunForward(setup, w, ops[..|ops| - 1]);
      RunSound(setup, w, ops[..|ops| - 1]);
      StepForward(setup, before, ops[|ops| - 1]);
      ForwardTransitive(w.desk, before.desk, Step(setup, before, ops[|ops| - 1]).desk);
    }
  }

  lemma ForwardTransitive(a: Desk, b: Desk, c: Desk)
    requires Forward(a, b) && Forward(b, c)
    ensures Forward(a, c)
  {
  }

  // ---- what an answer means ------------------------------------------------------------------

  /** A receipt names the one dispute just filed, received at the time it says; a rejection has changed
      nothing. No dispute already there is touched either way. */
  lemma ReceiptMeans(setup: Setup, desk: Desk, sub: Submission)
    requires Numbered(desk)
    ensures var (after, answer) := Submit(setup, desk, sub);
            && (answer.Rejected? ==> after == desk)
            && (forall d :: d in desk.disputes ==> d in after.disputes && after.disputes[d] == desk.disputes[d])
            && (answer.Receipt? ==>
                  && (forall d :: d in after.disputes && d !in desk.disputes <==>
                        d in after.disputes && after.disputes[d].reference == answer.reference)
                  && |desk.disputes| in after.disputes
                  && after.disputes[|desk.disputes|].reference == answer.reference
                  && after.disputes[|desk.disputes|].createdAt == answer.receivedAt
                  && after.disputes[|desk.disputes|].status == answer.status == Mail.Received)
  {
    hide Precheck, Text.Trim, Address, Queue;
    SubmitShape(setup, desk, sub);
    NextIdFree(desk);
  }

  /** A decision goes through exactly when the dispute is there, undecided, and the reason is neither blank
      nor motive-stating; it then changes that dispute's status and review, and no other dispute. Otherwise
      nothing changes. */
  lemma RulingMeans(setup: Setup, desk: Desk, id: int, uphold: bool, reason: string, actor: Option<string>)
    ensures var (after, status) := Decide(setup, desk, id, uphold, reason, actor);
            && (status == 200 <==>
                  Text.Trim(reason) != "" && !setup.statesMotive(reason) && id in desk.disputes &&
                  desk.disputes[id].status == Mail.Received)
            && (status != 200 ==> after == desk)
            && (status == 200 ==>
                  && (forall d :: d in desk.disputes && d != id ==>
                        d in after.disputes && after.disputes[d] == desk.disputes[d])
                  && id in after.disputes
                  && after.disputes[id].status == (if uphold then Mail.Upheld else Mail.Declined)
                  && after.disputes[id].reviewReason == Some(reason) && after.disputes[id].reviewer == actor
                  && after.disputes[id].contact == desk.disputes[id].contact)
  {
    hide Text.Trim, Address;
  }

  /** `deliver` answers `sent` exactly when it moves a queued row to `sent`, and `raised` only with the row
      still queued, so that the event can be tried again. It touches no other row, dispute or log entry. */
  lemma DeliveryMeans(setup: Setup, desk: Desk, mail: Mail.State, eventType: string, subject: Option<int>, broken: bool)
    ensures var (later, _, result) := Deliver(setup, desk, mail, eventType, subject, broken);
            && later.disputes == desk.disputes && later.log == desk.log && later.events == desk.events
            && later.ledger.Keys == desk.ledger.Keys
            && (result.DeliverySent? <==>
                  exists key :: key in desk.ledger && desk.ledger[key].state == Queued &&
                                later.ledger[key].state == Sent)
            && (result.DeliveryRaised? ==> later == desk)
            && (forall key :: key in desk.ledger && later.ledger[key] != desk.ledger[key] ==>
                  subject == Some(key.0) && ParseKind(eventType) == Some(key.1) && desk.ledger[key].state == Queued)
  {
    hide Address;
    var kind := ParseKind(eventType);
    if kind.Some? && subject.Some? && subject.value in desk.disputes && (subject.value, kind.value) in desk.ledger {
      var key := (subject.value, kind.value);
      assert Deliver(setup, desk, mail, eventType, subject, broken).2.DeliverySent? ==>
        desk.ledger[key].state == Queued &&
        Deliver(setup, desk, mail, eventType, subject, broken).0.ledger[key].state == Sent;
    }
  }
}
