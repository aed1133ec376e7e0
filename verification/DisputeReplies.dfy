/** Who is written to, over every run of submit, decide and deliver: each reply is accepted at most once,
    goes to the address the dispute was filed with, and never to a suppressed one. */
module DisputeReplies {
  import opened Disputes
  import opened DisputeLaws
  import opened Options
  import opened Sequences
  import Text
  import Mail
  import MailLaws

  /** A provider-accepted reply of this kind under this reference. */
  function AcceptedReply(kind: Kind, reference: string): Mail.Handed -> bool {
    (h: Mail.Handed) => h.subject == Mail.DisputeReply(kind, reference) && Mail.Accepted(h.answer)
  }

  function AcceptedReplies(mail: Mail.State, kind: Kind, reference: string): nat {
    CountIf(mail.handed, AcceptedReply(kind, reference))
  }

  /** A ledger row has one accepted reply if it is `sent`, and none otherwise. */
  ghost predicate RowsMatch(desk: Desk, mail: Mail.State) {
    forall d, k :: d in desk.disputes && (d, k) in desk.ledger ==>
      AcceptedReplies(mail, k, desk.disputes[d].reference) == (if desk.ledger[(d, k)].state == Sent then 1 else 0)
  }

  ghost predicate HasRow(desk: Desk, kind: Kind, reference: string) {
    exists d :: d in desk.disputes && desk.disputes[d].reference == reference && (d, kind) in desk.ledger
  }

  /** No reply is accepted that has no ledger row. */
  ghost predicate NoStray(desk: Desk, mail: Mail.State) {
    forall k, reference :: AcceptedReplies(mail, k, reference) > 0 ==> HasRow(desk, k, reference)
  }

  ghost predicate RepliesMatch(w: World) { RowsMatch(w.desk, w.mail) && NoStray(w.desk, w.mail) }

  /** Mail other than dispute replies leaves the count of replies alone. */
  ghost predicate NoNewReplies(mail: Mail.State, after: Mail.State) {
    forall k, reference :: AcceptedReplies(after, k, reference) == AcceptedReplies(mail, k, reference)
  }

  /** Messages were only added, none of them a dispute reply. */
  ghost predicate NoReplyAdded(mail: Mail.State, after: Mail.State) {
    mail.handed <= after.handed &&
    forall n :: |mail.handed| <= n < |after.handed| ==> !after.handed[n].subject.DisputeReply?
  }

  lemma {:induction false} DigestAddsNoReply(env: Mail.Env, mail: Mail.State, ids: seq<int>,
                                             severities: set<Mail.Severity>, broken: set<nat>, n: nat)
    requires n <= |ids|
    ensures NoReplyAdded(mail, Mail.DigestRun(env, mail, ids, severities, broken, n).0)
  {
    if n == 0 {
    } else {
      DigestAddsNoReply(env, mail, ids, severities, broken, n - 1);
    }
  }

  lemma {:induction false} AlertsAddNoReply(env: Mail.Env, mail: Mail.State, ids: seq<int>, broken: set<nat>, k: nat)
    requires k <= |ids|
    ensures NoReplyAdded(mail, Mail.AlertRun(env, mail, ids, broken, k))
  {
    if k == 0 {
    } else {
      AlertsAddNoReply(env, mail, ids, broken, k - 1);
    }
  }

  lemma MailStepAddsNoReply(env: Mail.Env, mail: Mail.State, op: Mail.Op)
    requires !op.ReplyOp?
    ensures NoReplyAdded(mail, Mail.Step(env, mail, op))
  {
    hide Mail.DigestRun, Mail.AlertRun;
    match op
    case DigestOp(ids, severities, broken) => DigestAddsNoReply(env, mail, ids, severities, broken, |ids|);
    case AlertOp(ids, broken) => AlertsAddNoReply(env, mail, ids, broken, |ids|);
    case SuppressOp(_, _, _) =>
    case LiftOp(_) =>
    case NotifyOp(_, _, _, _, _) =>
    case ConfigureOp(_) =>
    case SubscribeOp(_, _, _, _, _) =>
    case VerifyOp(_) =>
    case PreferOp(_, _, _) =>
  }

  /** Mail other than dispute replies leaves the count of replies alone. */
  lemma OtherMailKeepsCounts(mail: Mail.State, after: Mail.State)
    requires NoReplyAdded(mail, after)
    ensures NoNewReplies(mail, after)
  {
    var added := after.handed[|mail.handed|..];
    assert after.handed == mail.handed + added;
    forall k, reference ensures AcceptedReplies(after, k, reference) == AcceptedReplies(mail, k, reference) {
      hide CountIf;
      CountIfConcat(mail.handed, added, AcceptedReply(k, reference));
      CountIfNone(added, AcceptedReply(k, reference));
    }
  }

  lemma ReplyCounted(env: Mail.Env, mail: Mail.State, to: string, kind: Kind, reference: string)
    ensures var (after, outcome) := Mail.SendEmail(env, mail, to, Mail.DisputeReply(kind, reference), false);
            forall k, r :: AcceptedReplies(after, k, r) ==
              AcceptedReplies(mail, k, r) + (if outcome.Delivered? && k == kind && r == reference then 1 else 0)
  {
    var (after, outcome) := Mail.SendEmail(env, mail, to, Mail.DisputeReply(kind, reference), false);
    forall k, r ensures AcceptedReplies(after, k, r) ==
      AcceptedReplies(mail, k, r) + (if outcome.Delivered? && k == kind && r == reference then 1 else 0)
    {
      if after.handed != mail.handed {
        CountIfAppend(mail.handed, after.handed[|mail.handed|], AcceptedReply(k, r));
      }
    }
  }

  // ---- one row more, or one row settled ----------------------------------------------------------

  /** `after` is `desk` with one more ledger row, not yet sent. */
  ghost predicate RowAdded(desk: Desk, after: Desk, key: (int, Kind)) {
    && Forward(desk, after)
    && after.ledger.Keys == desk.ledger.Keys + {key} && key !in desk.ledger && after.ledger[key].state != Sent
    && (forall row :: row in desk.ledger ==> after.ledger[row] == desk.ledger[row])
  }

  lemma AddedRowMatches(desk: Desk, after: Desk, mail: Mail.State, key: (int, Kind))
    requires RowsMatch(desk, mail) && NoStray(desk, mail) && RowAdded(desk, after, key)
    requires key.0 in after.disputes && !HasRow(desk, key.1, after.disputes[key.0].reference)
    requires forall d, k :: (d, k) in desk.ledger ==> d in desk.disputes
    ensures RowsMatch(after, mail) && NoStray(after, mail)
  {
    forall k, reference | AcceptedReplies(mail, k, reference) > 0 ensures HasRow(after, k, reference) {
      var d :| d in desk.disputes && desk.disputes[d].reference == reference && (d, k) in desk.ledger;
      assert d in after.disputes && after.disputes[d].reference == reference && (d, k) in after.ledger;
    }
  }

  lemma SubmitReplies(setup: Setup, desk: Desk, mail: Mail.State, sub: Submission)
    requires Numbered(desk) && LedgerKinds(desk) && RowsMatch(desk, mail) && NoStray(desk, mail)
    ensures var after := Submit(setup, desk, sub).0;
            RowsMatch(after, mail) && NoStray(after, mail)
  {
    hide Text.Trim, Address, Queue, Submit;
    SubmitShape(setup, desk, sub);
    if Accepts(setup, desk, sub) {
      var after, key := Submit(setup, desk, sub).0, (|desk.disputes|, Mail.Received);
      NextIdFree(desk);
      SubmitForward(setup, desk, sub);
      QueueFrame(setup, FileDispute(desk, sub), |desk.disputes|, Text.Trim(sub.contact), Mail.Received);
      assert RowAdded(desk, after, key);
      AddedRowMatches(desk, after, mail, key);
    }
  }

  lemma DecideReplies(setup: Setup, desk: Desk, mail: Mail.State, id: int, uphold: bool, reason: string,
                      actor: Option<string>)
    requires Numbered(desk) && LedgerKinds(desk) && RowsMatch(desk, mail) && NoStray(desk, mail)
    ensures var after := Decide(setup, desk, id, uphold, reason, actor).0;
            RowsMatch(after, mail) && NoStray(after, mail)
  {
    hide Text.Trim, Address, Queue;
    if Rules(setup, desk, id, uphold, reason, actor) {
      var after, key := Decide(setup, desk, id, uphold, reason, actor).0, (id, Decision(uphold));
      DecideForward(setup, desk, id, uphold, reason, actor);
      QueueFrame(setup, RecordDecision(desk, id, Decision(uphold), reason, actor), id, desk.disputes[id].contact,
                 Decision(uphold));
      assert RowAdded(desk, after, key);
      AddedRowMatches(desk, after, mail, key);
    }
  }

  lemma SettleReplies(desk: Desk, mail: Mail.State, after: Mail.State, key: (int, Kind), state: NoteState, at: int)
    requires Numbered(desk) && RowsMatch(desk, mail) && NoStray(desk, mail)
    requires key in desk.ledger && desk.ledger[key].state == Queued && key.0 in desk.disputes
    requires forall k, r :: AcceptedReplies(after, k, r) == AcceptedReplies(mail, k, r) +
               (if state == Sent && k == key.1 && r == desk.disputes[key.0].reference then 1 else 0)
    ensures RowsMatch(Settle(desk, key, state, at), after) && NoStray(Settle(desk, key, state, at), after)
  {
    var settled := Settle(desk, key, state, at);
    forall d, k | d in settled.disputes && (d, k) in settled.ledger
      ensures AcceptedReplies(after, k, settled.disputes[d].reference) ==
              (if settled.ledger[(d, k)].state == Sent then 1 else 0)
    {
      assert (d, k) in desk.ledger;
      if k == key.1 && desk.disputes[d].reference == desk.disputes[key.0].reference {
        assert d == key.0 && (d, k) == key;
      }
    }
    forall k, reference | AcceptedReplies(after, k, reference) > 0 ensures HasRow(settled, k, reference) {
      if AcceptedReplies(mail, k, reference) == 0 {
        var d := key.0;
        assert (d, k) == key && desk.disputes[d].reference == reference;
        assert HasRow(desk, k, reference);
      } else {
        assert HasRow(desk, k, reference);
      }
      var d :| d in desk.disputes && desk.disputes[d].reference == reference && (d, k) in desk.ledger;
      assert (d, k) in settled.ledger;
    }
  }

  /** `deliver` sends nothing, or sends the queued reply of one row and settles it unless the provider threw. */
  lemma DeliverShape(setup: Setup, desk: Desk, mail: Mail.State, eventType: string, subject: Option<int>, broken: bool)
    requires LedgerHonest(setup, desk) && LedgerKinds(desk)
    ensures var (later, after, _) := Deliver(setup, desk, mail, eventType, subject, broken);
            (later == desk && after == mail) ||
            (exists d, k, to :: d in desk.disputes && (d, k) in desk.ledger && desk.ledger[(d, k)].state == Queued &&
               Address(setup, desk.disputes[d].contact) == Some(to) &&
               IsSending(setup, desk, mail, d, k, to, later, after))
  {
    hide Address, Mail.SendEmail;
    var kind := ParseKind(eventType);
    if kind.Some? && subject.Some? && !broken && subject.value in desk.disputes &&
       (subject.value, kind.value) in desk.ledger && desk.ledger[(subject.value, kind.value)].state == Queued {
      var d, k := subject.value, kind.value;
      assert RowHonest(setup, desk, d, k);
      var to := Address(setup, desk.disputes[d].contact).value;
      var (later, after, _) := Deliver(setup, desk, mail, eventType, subject, broken);
      assert IsSending(setup, desk, mail, d, k, to, later, after);
    }
  }

  ghost predicate IsSending(setup: Setup, desk: Desk, mail: Mail.State, d: int, k: Kind, to: string,
                            later: Desk, after: Mail.State)
    requires d in desk.disputes
  {
    var (sent, outcome) := Mail.SendEmail(setup.env, mail, to, Mail.DisputeReply(k, desk.disputes[d].reference), false);
    && after == sent
    && later == (if outcome.Threw? then desk
                 else Settle(desk, (d, k), Settled(outcome), setup.env.clock(|sent.handed|)))
  }

  lemma DeliverReplies(setup: Setup, desk: Desk, mail: Mail.State, eventType: string, subject: Option<int>,
                       broken: bool)
    requires Numbered(desk) && LedgerKinds(desk) && LedgerHonest(setup, desk) && RowsMatch(desk, mail) &&
             NoStray(desk, mail)
    ensures var (later, after, _) := Deliver(setup, desk, mail, eventType, subject, broken);
            RowsMatch(later, after) && NoStray(later, after)
  {
    DeliverShape(setup, desk, mail, eventType, subject, broken);
    var (later, after, _) := Deliver(setup, desk, mail, eventType, subject, broken);
    if later != desk || after != mail {
      var d, k, to :| d in desk.disputes && (d, k) in desk.ledger && desk.ledger[(d, k)].state == Queued &&
        Address(setup, desk.disputes[d].contact) == Some(to) && IsSending(setup, desk, mail, d, k, to, later, after);
      SendingReplies(setup, desk, mail, d, k, to, later, after);
    }
  }

  lemma SendingReplies(setup: Setup, desk: Desk, mail: Mail.State, d: int, k: Kind, to: string, later: Desk,
                       after: Mail.State)
    requires Numbered(desk) && RowsMatch(desk, mail) && NoStray(desk, mail)
    requires d in desk.disputes && (d, k) in desk.ledger && desk.ledger[(d, k)].state == Queued
    requires IsSending(setup, desk, mail, d, k, to, later, after)
    ensures RowsMatch(later, after) && NoStray(later, after)
  {
    var reference := desk.disputes[d].reference;
    var outcome := Mail.SendEmail(setup.env, mail, to, Mail.DisputeReply(k, reference), false).1;
    ReplyCounted(setup.env, mail, to, k, reference);
    if outcome.Threw? {
      SameCounts(desk, mail, after);
    } else {
      SettleReplies(desk, mail, after, (d, k), Settled(outcome), setup.env.clock(|after.handed|));
    }
  }

  lemma SameCounts(desk: Desk, mail: Mail.State, after: Mail.State)
    requires RowsMatch(desk, mail) && NoStray(desk, mail) && NoNewReplies(mail, after)
    ensures RowsMatch(desk, after) && NoStray(desk, after)
  {
  }

  lemma StepReplies(setup: Setup, w: World, op: Op)
    requires DeskSound(setup, w.desk) && RepliesMatch(w)
    ensures RepliesMatch(Step(setup, w, op))
  {
    match op
    case SubmitOp(sub) => SubmitReplies(setup, w.desk, w.mail, sub);
    case DecideOp(id, uphold, reason, actor) => DecideReplies(setup, w.desk, w.mail, id, uphold, reason, actor);
    case DeliverOp(eventType, subject, broken) =>
      DeliverReplies(setup, w.desk, w.mail, eventType, subject, broken);
    case CorrectElsewhere(_, _) =>
    case MailOp(mailOp) =>
      if !mailOp.ReplyOp? {
        MailStepAddsNoReply(setup.env, w.mail, mailOp);
        OtherMailKeepsCounts(w.mail, Mail.Step(setup.env, w.mail, mailOp));
        SameCounts(w.desk, w.mail, Mail.Step(setup.env, w.mail, mailOp));
      }
  }

  lemma {:induction false} RunReplies(setup: Setup, w: World, ops: seq<Op>)
    requires DeskSound(setup, w.desk) && RepliesMatch(w)
    ensures RepliesMatch(Run(setup, w, ops))
  {
    if ops == [] {
    } else {
      RunReplies(setup, w, ops[..|ops| - 1]);
      RunSound(setup, w, ops[..|ops| - 1]);
      StepReplies(setup, Run(setup, w, ops[..|ops| - 1]), ops[|ops| - 1]);
    }
  }

  lemma RowOfReference(desk: Desk, d: int, k: Kind)
    requires Numbered(desk) && d in desk.disputes && HasRow(desk, k, desk.disputes[d].reference)
    ensures (d, k) in desk.ledger
  {
  }

  /** A reply of a dispute is accepted once if its ledger row is there and says `sent`, and never otherwise. */
  lemma CountOfRow(w: World, d: int, k: Kind)
    requires Numbered(w.desk) && RepliesMatch(w) && d in w.desk.disputes
    ensures AcceptedReplies(w.mail, k, w.desk.disputes[d].reference) ==
            (if (d, k) in w.desk.ledger && w.desk.ledger[(d, k)].state == Sent then 1 else 0)
  {
    if HasRow(w.desk, k, w.desk.disputes[d].reference) {
      RowOfReference(w.desk, d, k);
    }
  }

  lemma CountOfDispute(w: World, d: int)
    requires Numbered(w.desk) && LedgerKinds(w.desk) && RepliesMatch(w) && d in w.desk.disputes
    ensures RepliesOf(w.mail, w.desk.disputes[d].reference) <=
            (if w.desk.disputes[d].status == Mail.Received then 1 else 2)
  {
    CountOfRow(w, d, Mail.Received);
    CountOfRow(w, d, Mail.Upheld);
    CountOfRow(w, d, Mail.Declined);
  }

  function RepliesOf(mail: Mail.State, reference: string): nat {
    AcceptedReplies(mail, Mail.Received, reference) + AcceptedReplies(mail, Mail.Upheld, reference) +
    AcceptedReplies(mail, Mail.Declined, reference)
  }

  /** Over every run that starts with no dispute and no message: a reply of a dispute is accepted by the
      provider at most once, exactly when its ledger row says `sent`; a dispute has at most two, its
      acknowledgement and one outcome; and no reply is accepted that has no row. */
  lemma AtMostOneReply(setup: Setup, mail: Mail.State, ops: seq<Op>)
    requires mail.handed == []
    ensures var w := Run(setup, World(EMPTY_DESK, mail), ops);
            && (forall d, k :: d in w.desk.disputes ==>
                  AcceptedReplies(w.mail, k, w.desk.disputes[d].reference) ==
                  (if (d, k) in w.desk.ledger && w.desk.ledger[(d, k)].state == Sent then 1 else 0))
            && (forall d :: d in w.desk.disputes ==>
                  RepliesOf(w.mail, w.desk.disputes[d].reference) <=
                  (if w.desk.disputes[d].status == Mail.Received then 1 else 2))
            && (forall k, reference :: AcceptedReplies(w.mail, k, reference) > 0 ==> HasRow(w.desk, k, reference))
  {
    var start, w := World(EMPTY_DESK, mail), Run(setup, World(EMPTY_DESK, mail), ops);
    EmptyDeskSound(setup);
    RunReplies(setup, start, ops);
    RunSound(setup, start, ops);
    forall d | d in w.desk.disputes
      ensures RepliesOf(w.mail, w.desk.disputes[d].reference) <=
              (if w.desk.disputes[d].status == Mail.Received then 1 else 2)
    {
      CountOfDispute(w, d);
    }
    forall d, k | d in w.desk.disputes
      ensures AcceptedReplies(w.mail, k, w.desk.disputes[d].reference) ==
              (if (d, k) in w.desk.ledger && w.desk.ledger[(d, k)].state == Sent then 1 else 0)
    {
      CountOfRow(w, d, k);
    }
  }

  // ---- where replies go ------------------------------------------------------------------------------

  /** Every reply was handed over for the address its dispute was filed with. */
  ghost predicate Addressed(setup: Setup, desk: Desk, mail: Mail.State) {
    forall n :: 0 <= n < |mail.handed| && mail.handed[n].subject.DisputeReply? ==>
      IsFiledWith(setup, desk, mail.handed[n].subject.reference, mail.handed[n].to)
  }

  ghost predicate IsFiledWith(setup: Setup, desk: Desk, reference: string, to: string) {
    exists d :: d in desk.disputes && desk.disputes[d].reference == reference &&
      Address(setup, desk.disputes[d].contact) == Some(to)
  }

  ghost predicate KeepsContacts(desk: Desk, later: Desk) {
    forall d :: d in desk.disputes ==>
      d in later.disputes && later.disputes[d].reference == desk.disputes[d].reference &&
      later.disputes[d].contact == desk.disputes[d].contact
  }

  lemma ContactsKeepAddressed(setup: Setup, desk: Desk, later: Desk, mail: Mail.State)
    requires Addressed(setup, desk, mail) && KeepsContacts(desk, later)
    ensures Addressed(setup, later, mail)
  {
    forall n | 0 <= n < |mail.handed| && mail.handed[n].subject.DisputeReply?
      ensures IsFiledWith(setup, later, mail.handed[n].subject.reference, mail.handed[n].to)
    {
      var d :| d in desk.disputes && desk.disputes[d].reference == mail.handed[n].subject.reference &&
               Address(setup, desk.disputes[d].contact) == Some(mail.handed[n].to);
      assert d in later.disputes && later.disputes[d].contact == desk.disputes[d].contact;
    }
  }

  lemma DeliverAddressed(setup: Setup, desk: Desk, mail: Mail.State, eventType: string, subject: Option<int>,
                         broken: bool)
    requires LedgerHonest(setup, desk) && LedgerKinds(desk) && Addressed(setup, desk, mail)
    ensures var (later, after, _) := Deliver(setup, desk, mail, eventType, subject, broken);
            Addressed(setup, later, after)
  {
    DeliverShape(setup, desk, mail, eventType, subject, broken);
    var (later, after, _) := Deliver(setup, desk, mail, eventType, subject, broken);
    if later != desk || after != mail {
      var d, k, to :| d in desk.disputes && (d, k) in desk.ledger && desk.ledger[(d, k)].state == Queued &&
        Address(setup, desk.disputes[d].contact) == Some(to) && IsSending(setup, desk, mail, d, k, to, later, after);
      SendingAddressed(setup, desk, mail, d, k, to, later, after);
    }
  }

  lemma SendingAddressed(setup: Setup, desk: Desk, mail: Mail.State, d: int, k: Kind, to: string, later: Desk,
                         after: Mail.State)
    requires Addressed(setup, desk, mail) && d in desk.disputes && Address(setup, desk.disputes[d].contact) == Some(to)
    requires IsSending(setup, desk, mail, d, k, to, later, after)
    ensures Addressed(setup, later, after)
  {
    assert IsFiledWith(setup, desk, desk.disputes[d].reference, to);
    assert Addressed(setup, desk, after);
    assert later.disputes == desk.disputes;
    ContactsKeepAddressed(setup, desk, later, after);
  }

  lemma StepAddressed(setup: Setup, w: World, op: Op)
    requires DeskSound(setup, w.desk) && Addressed(setup, w.desk, w.mail)
    ensures Addressed(setup, Step(setup, w, op).desk, Step(setup, w, op).mail)
  {
    match op
    case SubmitOp(sub) =>
      SubmitKeepsContacts(setup, w.desk, sub);
      ContactsKeepAddressed(setup, w.desk, Submit(setup, w.desk, sub).0, w.mail);
    case DecideOp(id, uphold, reason, actor) =>
      DecideKeepsContacts(setup, w.desk, id, uphold, reason, actor);
      ContactsKeepAddressed(setup, w.desk, Decide(setup, w.desk, id, uphold, reason, actor).0, w.mail);
    case DeliverOp(eventType, subject, broken) => DeliverAddressed(setup, w.desk, w.mail, eventType, subject, broken);
    case CorrectElsewhere(_, _) => ContactsKeepAddressed(setup, w.desk, Step(setup, w, op).desk, w.mail);
    case MailOp(mailOp) =>
      if !mailOp.ReplyOp? {
        MailAddressed(setup, w.desk, w.mail, mailOp);
      }
  }

  lemma SubmitKeepsContacts(setup: Setup, desk: Desk, sub: Submission)
    requires Numbered(desk)
    ensures KeepsContacts(desk, Submit(setup, desk, sub).0)
  {
    SubmitShape(setup, desk, sub);
    NextIdFree(desk);
  }

  lemma DecideKeepsContacts(setup: Setup, desk: Desk, id: int, uphold: bool, reason: string, actor: Option<string>)
    ensures KeepsContacts(desk, Decide(setup, desk, id, uphold, reason, actor).0)
  {
    hide Text.Trim, Address;
  }

  lemma MailAddressed(setup: Setup, desk: Desk, mail: Mail.State, op: Mail.Op)
    requires Addressed(setup, desk, mail) && !op.ReplyOp?
    ensures Addressed(setup, desk, Mail.Step(setup.env, mail, op))
  {
    MailStepAddsNoReply(setup.env, mail, op);
    hide Mail.Step, IsFiledWith;
    var after := Mail.Step(setup.env, mail, op);
    assert forall n :: 0 <= n < |mail.handed| ==> after.handed[n] == mail.handed[n];
  }

  /** Over every run that starts with no dispute and no message, a reply only ever goes to the address its
      dispute was filed with. */
  lemma {:induction false} RepliesGoToFiler(setup: Setup, mail: Mail.State, ops: seq<Op>)
    requires mail.handed == []
    ensures var w := Run(setup, World(EMPTY_DESK, mail), ops);
            Addressed(setup, w.desk, w.mail)
  {
    if ops == [] {
    } else {
      var start := World(EMPTY_DESK, mail);
      EmptyDeskSound(setup);
      RepliesGoToFiler(setup, mail, ops[..|ops| - 1]);
      RunSound(setup, start, ops[..|ops| - 1]);
      StepAddressed(setup, Run(setup, start, ops[..|ops| - 1]), ops[|ops| - 1]);
    }
  }

  // ---- suppression, end to end ----------------------------------------------------------------------

  ghost predicate NeverLifts(env: Mail.Env, ops: seq<Op>, normal: string) {
    forall k :: 0 <= k < |ops| && ops[k].MailOp? && ops[k].op.LiftOp? ==>
      Mail.HashAddress(env, ops[k].op.address) != env.digest(normal)
  }

  lemma StepKeepsQuiet(setup: Setup, w: World, op: Op, from: nat, normal: string, s: Mail.Suppression)
    requires MailLaws.Quiet(setup.env, w.mail, from, normal, s)
    requires NeverLifts(setup.env, [op], normal)
    ensures MailLaws.Quiet(setup.env, Step(setup, w, op).mail, from, normal, s)
  {
    match op
    case SubmitOp(_) =>
    case DecideOp(_, _, _, _) =>
    case DeliverOp(eventType, subject, broken) =>
      var kind := ParseKind(eventType);
      if kind.Some? && subject.Some? && subject.value in w.desk.disputes {
        var dispute := w.desk.disputes[subject.value];
        if Address(setup, dispute.contact).Some? {
          MailLaws.SendKeepsQuiet(setup.env, w.mail, Address(setup, dispute.contact).value,
                                  Mail.DisputeReply(kind.value, dispute.reference), false, from, normal, s);
        }
      }
    case CorrectElsewhere(_, _) =>
    case MailOp(mailOp) =>
      assert [op][0].MailOp?;
      if !mailOp.ReplyOp? {
        MailLaws.StepKeepsQuiet(setup.env, w.mail, mailOp, from, normal, s);
      }
  }

  lemma {:induction false} RunKeepsQuiet(setup: Setup, w: World, ops: seq<Op>, from: nat, normal: string,
                                         s: Mail.Suppression)
    requires MailLaws.Quiet(setup.env, w.mail, from, normal, s) && NeverLifts(setup.env, ops, normal)
    ensures MailLaws.Quiet(setup.env, Run(setup, w, ops).mail, from, normal, s)
  {
    if ops == [] {
    } else {
      RunKeepsQuiet(setup, w, ops[..|ops| - 1], from, normal, s);
      StepKeepsQuiet(setup, Run(setup, w, ops[..|ops| - 1]), ops[|ops| - 1], from, normal, s);
    }
  }

  /** Once an address is suppressed, and until it is lifted, no run of submissions, decisions, deliveries,
      digests and alerts hands the provider any spelling of it, and the reason on file stays the first. */
  lemma SuppressedFilerHearsNothing(setup: Setup, w: World, address: string, reason: Mail.Reason, source: string,
                                    ops: seq<Op>)
    requires MailLaws.Folding(setup.env) && Mail.NormalizeAddress(setup.env, address) != ""
    requires NeverLifts(setup.env, ops, Mail.NormalizeAddress(setup.env, address))
    ensures var later := Run(setup, Step(setup, w, MailOp(Mail.SuppressOp(address, reason, source))), ops);
            && MailLaws.NothingSince(setup.env, later.mail, |w.mail.handed|, Mail.NormalizeAddress(setup.env, address))
            && Mail.FindSuppression(setup.env, later.mail.suppressions, address) ==
               (if Mail.FindSuppression(setup.env, w.mail.suppressions, address).Some?
                then Mail.FindSuppression(setup.env, w.mail.suppressions, address)
                else Some(Mail.Suppression(reason, source)))
  {
    var normal := Mail.NormalizeAddress(setup.env, address);
    MailLaws.NormalizeIdempotent(setup.env, address);
    var suppressed := Step(setup, w, MailOp(Mail.SuppressOp(address, reason, source)));
    RunKeepsQuiet(setup, suppressed, ops, |w.mail.handed|, normal,
                  suppressed.mail.suppressions[setup.env.digest(normal)]);
  }
}
