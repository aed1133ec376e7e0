/** What the notification rows record over every run of the mail senders: a row claims a delivery only if
    the provider accepted one, and nobody is told of the same finding twice
    (backend/src/services/email-delivery.ts). */
module DeliveryLaws {
  import opened Mail

  // ---- the delivery record ------------------------------------------------------------------

  /** The subject of a message covers a notification. */
  predicate Covers(subject: Subject, n: int) {
    match subject
    case Digest(_, covers) => n in covers
    case Alert(m) => m == n
    case DisputeReply(_, _) => false
  }

  /** Still to be sent: by a digest, or by the alert it was inserted for. */
  predicate Awaiting(status: Status) { status == Pending || status == Queued }

  predicate Claims(row: Notification) { row.status == Sent || row.sentAt.Some? }

  /** The provider accepted a message to the row's own subscriber that covers it. */
  ghost predicate Delivery(st: State, n: int, k: nat)
    requires n in st.notifications
  {
    && k < |st.handed| && Accepted(st.handed[k].answer) && Covers(st.handed[k].subject, n)
    && st.notifications[n].subscription in st.subscriptions
    && st.handed[k].to == st.subscriptions[st.notifications[n].subscription].email
    && (st.handed[k].subject.Digest? ==> st.handed[k].subject.subscription == st.notifications[n].subscription)
  }

  ghost predicate HasDelivery(st: State, n: int)
    requires n in st.notifications
  {
    exists k: nat :: Delivery(st, n, k)
  }

  /** A row is `sent`, or timestamped, only if such a delivery exists. */
  ghost predicate HonestRows(st: State) {
    forall n :: n in st.notifications && Claims(st.notifications[n]) ==> HasDelivery(st, n)
  }

  /** What an accepted message covered is never awaiting again. */
  ghost predicate CoveredDone(st: State) {
    forall k, n :: 0 <= k < |st.handed| && Accepted(st.handed[k].answer) && Covers(st.handed[k].subject, n)
      ==> n in st.notifications && !Awaiting(st.notifications[n].status)
  }

  /** No accepted digest covers a notification that an earlier accepted message covered. */
  ghost predicate DigestsDisjoint(st: State) {
    forall j, k, n :: 0 <= j < k < |st.handed| && st.handed[k].subject.Digest? &&
                      Accepted(st.handed[j].answer) && Accepted(st.handed[k].answer) && Covers(st.handed[j].subject, n)
      ==> !Covers(st.handed[k].subject, n)
  }

  ghost predicate Sound(st: State) { HonestRows(st) && CoveredDone(st) && DigestsDisjoint(st) }

  /** No notification is covered by two accepted messages of any kind. */
  ghost predicate ToldOnce(st: State) {
    forall j, k, n :: 0 <= j < k < |st.handed| && Accepted(st.handed[j].answer) && Accepted(st.handed[k].answer) &&
                      Covers(st.handed[j].subject, n)
      ==> !Covers(st.handed[k].subject, n)
  }

  // ---- one message ------------------------------------------------------------------------------

  /** The rows a message covers are its recipient's own. */
  ghost predicate Addressed(st: State, to: string, subject: Subject) {
    forall n :: Covers(subject, n) ==>
      && n in st.notifications && st.notifications[n].subscription in st.subscriptions
      && to == st.subscriptions[st.notifications[n].subscription].email
      && (subject.Digest? ==> subject.subscription == st.notifications[n].subscription)
  }

  ghost predicate HandsOver(st: State, after: State, to: string, subject: Subject) {
    |after.handed| == |st.handed| + 1 && st.handed <= after.handed &&
    after.handed[|st.handed|].to == to && after.handed[|st.handed|].subject == subject
  }

  ghost predicate AcceptedNow(st: State, after: State) {
    |after.handed| > |st.handed| && Accepted(after.handed[|st.handed|].answer)
  }

  /** Only covered rows change, none becomes awaiting, and every row keeps its subscription and finding. */
  ghost predicate RowsKept(st: State, after: State, subject: Subject) {
    && after.subscriptions == st.subscriptions && after.notifications.Keys == st.notifications.Keys
    && (forall n :: n in st.notifications ==>
          after.notifications[n].subscription == st.notifications[n].subscription &&
          after.notifications[n].flag == st.notifications[n].flag &&
          (!Covers(subject, n) || Awaiting(after.notifications[n].status) ==>
             after.notifications[n] == st.notifications[n]))
  }

  /** What trying to send one message does: it may be handed over, its rows say `sent` if it was accepted,
      and otherwise no row claims more than it did. */
  ghost predicate IsTurn(st: State, after: State, to: string, subject: Subject) {
    && Addressed(st, to, subject) && RowsKept(st, after, subject)
    && (after.handed == st.handed || HandsOver(st, after, to, subject))
    && (forall n :: n in st.notifications && Covers(subject, n) ==>
          if AcceptedNow(st, after) then after.notifications[n].status == Sent
          else Claims(after.notifications[n]) ==> Claims(st.notifications[n]))
  }

  lemma SendIs(env: Env, st: State, to: string, subject: Subject, broken: bool)
    ensures var (after, outcome) := SendEmail(env, st, to, subject, broken);
            && after == st.(handed := after.handed)
            && (after.handed == st.handed || HandsOver(st, after, to, subject))
            && (outcome.Delivered? <==> AcceptedNow(st, after))
  {
    hide FindSuppression;
  }

  lemma RecordIsTurn(env: Env, st: State, sent: State, to: string, subject: Subject, ids: set<int>, outcome: Outcome)
    requires Addressed(st, to, subject) && (forall n :: n in ids <==> Covers(subject, n)) && !outcome.Threw?
    requires sent == st.(handed := sent.handed) && (outcome.Delivered? <==> AcceptedNow(st, sent))
    requires sent.handed == st.handed || HandsOver(st, sent, to, subject)
    ensures IsTurn(st, Record(env, sent, ids, StatusFor(outcome)), to, subject)
  {
  }

  lemma DigestTurnIs(env: Env, st: State, subscription: int, severities: set<Severity>, broken: bool)
    ensures var after := DigestTurn(env, st, subscription, severities, broken).0;
            var due := Due(st, subscription, severities);
            after == st ||
            (subscription in st.subscriptions &&
             IsTurn(st, after, st.subscriptions[subscription].email, Digest(subscription, due)))
  {
    var due := Due(st, subscription, severities);
    if subscription in st.subscriptions && due != {} && !broken {
      var to, subject := st.subscriptions[subscription].email, Digest(subscription, due);
      var (sent, outcome) := SendEmail(env, st, to, subject, false);
      SendIs(env, st, to, subject, false);
      hide SendEmail;
      if !outcome.Threw? {
        RecordIsTurn(env, st, sent, to, subject, due, outcome);
      }
    }
  }

  lemma AlertTurnIs(env: Env, st: State, n: int, broken: bool)
    ensures var after := AlertTurn(env, st, n, broken);
            after == st ||
            (n in st.notifications && st.notifications[n].subscription in st.subscriptions &&
             IsTurn(st, after, st.subscriptions[st.notifications[n].subscription].email, Alert(n)))
  {
    if n in st.notifications && st.notifications[n].subscription in st.subscriptions {
      var to := st.subscriptions[st.notifications[n].subscription].email;
      var (sent, outcome) := SendEmail(env, st, to, Alert(n), broken);
      SendIs(env, st, to, Alert(n), broken);
      hide SendEmail;
      if !outcome.Threw? {
        RecordIsTurn(env, st, sent, to, Alert(n), {n}, outcome);
      }
    }
  }

  // ---- what one message keeps ---------------------------------------------------------------------

  /** Subscriptions stay, with their addresses. */
  ghost predicate AddressesKept(st: State, after: State) {
    forall s :: s in st.subscriptions ==>
      s in after.subscriptions && after.subscriptions[s].email == st.subscriptions[s].email
  }

  lemma DeliveryPersists(st: State, after: State, n: int, k: nat)
    requires n in st.notifications && Delivery(st, n, k)
    requires st.handed <= after.handed && AddressesKept(st, after)
    requires n in after.notifications && after.notifications[n].subscription == st.notifications[n].subscription
    ensures HasDelivery(after, n)
  {
    assert after.handed[k] == st.handed[k];
    assert Delivery(after, n, k);
  }

  lemma TurnHonest(st: State, after: State, to: string, subject: Subject)
    requires HonestRows(st) && IsTurn(st, after, to, subject)
    ensures HonestRows(after)
  {
    forall n | n in after.notifications && Claims(after.notifications[n]) ensures HasDelivery(after, n) {
      if Covers(subject, n) && AcceptedNow(st, after) {
        assert Delivery(after, n, |st.handed|);
      } else {
        assert HasDelivery(st, n);
        var k: nat :| Delivery(st, n, k);
        DeliveryPersists(st, after, n, k);
      }
    }
  }

  lemma TurnCovered(st: State, after: State, to: string, subject: Subject)
    requires CoveredDone(st) && IsTurn(st, after, to, subject)
    ensures CoveredDone(after)
  {
    forall k, n | 0 <= k < |after.handed| && Accepted(after.handed[k].answer) && Covers(after.handed[k].subject, n)
      ensures n in after.notifications && !Awaiting(after.notifications[n].status)
    {
      if k < |st.handed| {
        assert after.handed[k] == st.handed[k];
        assert n in st.notifications && !Awaiting(st.notifications[n].status);
      } else {
        assert AcceptedNow(st, after) && Covers(subject, n);
      }
    }
  }

  /** A message that covers only awaiting rows covers nothing an earlier accepted message did. */
  ghost predicate OnlyAwaiting(st: State, subject: Subject) {
    forall n :: Covers(subject, n) ==> n in st.notifications && Awaiting(st.notifications[n].status)
  }

  lemma TurnDisjoint(st: State, after: State, to: string, subject: Subject)
    requires CoveredDone(st) && DigestsDisjoint(st) && IsTurn(st, after, to, subject)
    requires subject.Digest? ==> OnlyAwaiting(st, subject)
    ensures DigestsDisjoint(after)
  {
    forall j, k, n | 0 <= j < k < |after.handed| && after.handed[k].subject.Digest? &&
                     Accepted(after.handed[j].answer) && Accepted(after.handed[k].answer) &&
                     Covers(after.handed[j].subject, n)
      ensures !Covers(after.handed[k].subject, n)
    {
      assert after.handed[j] == st.handed[j];
      assert k < |st.handed| ==> after.handed[k] == st.handed[k];
    }
  }

  lemma TurnToldOnce(st: State, after: State, to: string, subject: Subject)
    requires CoveredDone(st) && ToldOnce(st) && IsTurn(st, after, to, subject) && OnlyAwaiting(st, subject)
    ensures ToldOnce(after)
  {
    forall j, k, n | 0 <= j < k < |after.handed| && Accepted(after.handed[j].answer) &&
                     Accepted(after.handed[k].answer) && Covers(after.handed[j].subject, n)
      ensures !Covers(after.handed[k].subject, n)
    {
      assert after.handed[j] == st.handed[j];
      assert k < |st.handed| ==> after.handed[k] == st.handed[k];
    }
  }

  lemma TurnSound(st: State, after: State, to: string, subject: Subject)
    requires Sound(st) && IsTurn(st, after, to, subject) && (subject.Digest? ==> OnlyAwaiting(st, subject))
    ensures Sound(after)
  {
    TurnHonest(st, after, to, subject);
    TurnCovered(st, after, to, subject);
    TurnDisjoint(st, after, to, subject);
  }

  // ---- runs ------------------------------------------------------------------------------------------

  lemma DigestTurnSound(env: Env, st: State, subscription: int, severities: set<Severity>, broken: bool)
    requires Sound(st)
    ensures var after := DigestTurn(env, st, subscription, severities, broken).0;
            Sound(after) && (ToldOnce(st) ==> ToldOnce(after))
  {
    var after := DigestTurn(env, st, subscription, severities, broken).0;
    DigestTurnIs(env, st, subscription, severities, broken);
    hide DigestTurn, IsTurn, HonestRows, CoveredDone, DigestsDisjoint, ToldOnce;
    if after != st {
      var to, subject := st.subscriptions[subscription].email, Digest(subscription, Due(st, subscription, severities));
      TurnSound(st, after, to, subject);
      if ToldOnce(st) {
        TurnToldOnce(st, after, to, subject);
      }
    }
  }

  lemma AlertTurnSound(env: Env, st: State, n: int, broken: bool)
    requires Sound(st)
    ensures var after := AlertTurn(env, st, n, broken);
            Sound(after) &&
            (ToldOnce(st) && n in st.notifications && Awaiting(st.notifications[n].status) ==> ToldOnce(after))
  {
    var after := AlertTurn(env, st, n, broken);
    AlertTurnIs(env, st, n, broken);
    hide AlertTurn, IsTurn, HonestRows, CoveredDone, DigestsDisjoint, ToldOnce;
    if after != st {
      var to := st.subscriptions[st.notifications[n].subscription].email;
      TurnSound(st, after, to, Alert(n));
      if ToldOnce(st) && Awaiting(st.notifications[n].status) {
        TurnToldOnce(st, after, to, Alert(n));
      }
    }
  }

  lemma {:induction false} DigestRunSound(env: Env, st: State, ids: seq<int>, severities: set<Severity>,
                                          broken: set<nat>, n: nat)
    requires n <= |ids| && Sound(st)
    ensures var after := DigestRun(env, st, ids, severities, broken, n).0;
            Sound(after) && (ToldOnce(st) ==> ToldOnce(after))
  {
    hide Sound, ToldOnce, DigestTurn;
    if n == 0 {
    } else {
      DigestRunSound(env, st, ids, severities, broken, n - 1);
      DigestTurnSound(env, DigestRun(env, st, ids, severities, broken, n - 1).0, ids[n - 1], severities,
                      n - 1 in broken);
    }
  }

  predicate Distinct(ids: seq<int>) { forall j, k :: 0 <= j < k < |ids| ==> ids[j] != ids[k] }

  lemma AlertTurnFrame(env: Env, st: State, n: int, broken: bool)
    ensures var after := AlertTurn(env, st, n, broken);
            && after.subscriptions == st.subscriptions && after.notifications.Keys == st.notifications.Keys
            && (forall m :: m in st.notifications && m != n ==> after.notifications[m] == st.notifications[m])
  {
    AlertTurnIs(env, st, n, broken);
  }

  /** Alerts leave every row alone that none of them has named yet. */
  lemma {:induction false} AlertRunFrame(env: Env, st: State, ids: seq<int>, broken: set<nat>, k: nat)
    requires k <= |ids|
    ensures var after := AlertRun(env, st, ids, broken, k);
            && after.subscriptions == st.subscriptions && after.notifications.Keys == st.notifications.Keys
            && (forall m :: m in st.notifications && m !in ids[..k] ==> after.notifications[m] == st.notifications[m])
  {
    hide AlertTurn;
    if k == 0 {
    } else {
      AlertRunFrame(env, st, ids, broken, k - 1);
      AlertTurnFrame(env, AlertRun(env, st, ids, broken, k - 1), ids[k - 1], k - 1 in broken);
      assert ids[..k] == ids[..k - 1] + [ids[k - 1]];
    }
  }

  /** Among distinct rows, each is as it was when its own alert's turn comes. */
  lemma RowAtItsTurn(env: Env, st: State, ids: seq<int>, broken: set<nat>, k: nat)
    requires k < |ids| && Distinct(ids) && ids[k] in st.notifications
    ensures ids[k] in AlertRun(env, st, ids, broken, k).notifications
    ensures AlertRun(env, st, ids, broken, k).notifications[ids[k]] == st.notifications[ids[k]]
  {
    hide AlertRun;
    AlertRunFrame(env, st, ids, broken, k);
    assert ids[k] !in ids[..k];
  }

  ghost predicate AllAwaiting(st: State, ids: seq<int>) {
    forall k :: 0 <= k < |ids| ==> ids[k] in st.notifications && Awaiting(st.notifications[ids[k]].status)
  }

  lemma {:induction false} AlertRunSound(env: Env, st: State, ids: seq<int>, broken: set<nat>, k: nat)
    requires k <= |ids| && Sound(st)
    ensures var after := AlertRun(env, st, ids, broken, k);
            Sound(after) && (ToldOnce(st) && Distinct(ids) && AllAwaiting(st, ids) ==> ToldOnce(after))
  {
    hide Sound, ToldOnce, AlertTurn;
    if k == 0 {
    } else {
      AlertRunSound(env, st, ids, broken, k - 1);
      AlertTurnSound(env, AlertRun(env, st, ids, broken, k - 1), ids[k - 1], k - 1 in broken);
      if Distinct(ids) && AllAwaiting(st, ids) {
        RowAtItsTurn(env, st, ids, broken, k - 1);
      }
    }
  }

  /** Steps that send nothing keep every row as it is, and add only rows that claim nothing. */
  ghost predicate SendsNothing(st: State, after: State) {
    && after.handed == st.handed && AddressesKept(st, after)
    && (forall n :: n in st.notifications ==> n in after.notifications && after.notifications[n] == st.notifications[n])
    && (forall n :: n in after.notifications && n !in st.notifications ==> !Claims(after.notifications[n]))
  }

  lemma NothingSentSound(st: State, after: State)
    requires Sound(st) && SendsNothing(st, after)
    ensures Sound(after) && (ToldOnce(st) ==> ToldOnce(after))
  {
    forall n | n in after.notifications && Claims(after.notifications[n]) ensures HasDelivery(after, n) {
      var k: nat :| Delivery(st, n, k);
      DeliveryPersists(st, after, n, k);
    }
  }

  lemma ReplySound(env: Env, st: State, to: string, kind: ReplyKind, reference: string, fails: bool)
    requires Sound(st)
    ensures var after := SendEmail(env, st, to, DisputeReply(kind, reference), fails).0;
            Sound(after) && (ToldOnce(st) ==> ToldOnce(after))
  {
    var after, subject := SendEmail(env, st, to, DisputeReply(kind, reference), fails).0, DisputeReply(kind, reference);
    SendIs(env, st, to, subject, fails);
    hide SendEmail, Sound, ToldOnce;
    assert IsTurn(st, after, to, subject);
    TurnSound(st, after, to, subject);
    if ToldOnce(st) {
      SoundCovers(st);
      TurnToldOnce(st, after, to, subject);
    }
  }

  lemma SoundCovers(st: State)
    requires Sound(st)
    ensures CoveredDone(st)
  {
  }

  /** Each alert call names distinct rows that are still awaiting when it is made. */
  ghost predicate AlertsAwaiting(env: Env, st: State, ops: seq<Op>) {
    ops == [] ||
    (var front, last := ops[..|ops| - 1], ops[|ops| - 1];
     AlertsAwaiting(env, st, front) &&
     (last.AlertOp? ==> Distinct(last.ids) && AllAwaiting(RunOps(env, st, front), last.ids)))
  }

  lemma StepSound(env: Env, st: State, op: Op)
    requires Sound(st)
    ensures Sound(Step(env, st, op))
    ensures ToldOnce(st) && (op.AlertOp? ==> Distinct(op.ids) && AllAwaiting(st, op.ids)) ==>
              ToldOnce(Step(env, st, op))
  {
    hide Sound, ToldOnce, DigestRun, AlertRun, SendEmail;
    match op
    case DigestOp(ids, severities, broken) => DigestRunSound(env, st, ids, severities, broken, |ids|);
    case AlertOp(ids, broken) => AlertRunSound(env, st, ids, broken, |ids|);
    case ReplyOp(to, kind, reference, fails) => ReplySound(env, st, to, kind, reference, fails);
    case SuppressOp(_, _, _) => NothingSentSound(st, Step(env, st, op));
    case LiftOp(_) => NothingSentSound(st, Step(env, st, op));
    case NotifyOp(_, _, _, _, _) => NothingSentSound(st, Step(env, st, op));
    case ConfigureOp(_) => NothingSentSound(st, Step(env, st, op));
    case SubscribeOp(_, _, _, _, _) => NothingSentSound(st, Step(env, st, op));
    case VerifyOp(_) => NothingSentSound(st, Step(env, st, op));
    case PreferOp(_, _, _) => NothingSentSound(st, Step(env, st, op));
  }

  /** Tables in which nothing has been sent. */
  ghost predicate NothingSent(st: State) {
    st.handed == [] && forall n :: n in st.notifications ==> !Claims(st.notifications[n])
  }

  /** Over every run from tables in which nothing has been sent, a row is `sent` or timestamped only if the
      provider accepted a message that covers it, addressed to its own subscriber; and no accepted digest
      covers a notification that an earlier accepted message covered. */
  lemma {:induction false} RunSound(env: Env, st: State, ops: seq<Op>)
    requires NothingSent(st)
    ensures Sound(RunOps(env, st, ops))
  {
    hide Step;
    if ops == [] {
    } else {
      RunSound(env, st, ops[..|ops| - 1]);
      StepSound(env, RunOps(env, st, ops[..|ops| - 1]), ops[|ops| - 1]);
    }
  }

  lemma {:induction false} RowsToldOnce(env: Env, st: State, ops: seq<Op>)
    requires NothingSent(st) && AlertsAwaiting(env, st, ops)
    ensures ToldOnce(RunOps(env, st, ops))
  {
    hide Step, Sound, ToldOnce;
    if ops == [] {
      NothingSentTold(st);
    } else {
      RowsToldOnce(env, st, ops[..|ops| - 1]);
      RunSound(env, st, ops[..|ops| - 1]);
      StepSound(env, RunOps(env, st, ops[..|ops| - 1]), ops[|ops| - 1]);
    }
  }

  // ---- findings ------------------------------------------------------------------------------------

  /** The unique index on (subscription, finding). */
  ghost predicate UniquePairs(st: State) {
    forall m, n :: m in st.notifications && n in st.notifications && m != n ==>
      st.notifications[m].subscription != st.notifications[n].subscription ||
      st.notifications[m].flag != st.notifications[n].flag
  }

  /** Rows keep their subscription and finding, and a new row's pair is new. */
  ghost predicate PairsKept(st: State, after: State) {
    && (forall n :: n in st.notifications ==>
          n in after.notifications && after.notifications[n].subscription == st.notifications[n].subscription &&
          after.notifications[n].flag == st.notifications[n].flag)
    && (UniquePairs(st) ==> UniquePairs(after))
  }

  lemma SameRowsKeepPairs(st: State, after: State)
    requires after.notifications.Keys == st.notifications.Keys
    requires forall n :: n in st.notifications ==>
               after.notifications[n].subscription == st.notifications[n].subscription &&
               after.notifications[n].flag == st.notifications[n].flag
    ensures PairsKept(st, after)
  {
  }

  lemma {:induction false} DigestRunKeepsPairs(env: Env, st: State, ids: seq<int>, severities: set<Severity>,
                                               broken: set<nat>, n: nat)
    requires n <= |ids|
    ensures PairsKept(st, DigestRun(env, st, ids, severities, broken, n).0)
  {
    hide DigestTurn;
    if n == 0 {
    } else {
      var before := DigestRun(env, st, ids, severities, broken, n - 1).0;
      DigestRunKeepsPairs(env, st, ids, severities, broken, n - 1);
      DigestTurnIs(env, before, ids[n - 1], severities, n - 1 in broken);
      SameRowsKeepPairs(before, DigestTurn(env, before, ids[n - 1], severities, n - 1 in broken).0);
      hide UniquePairs;
    }
  }

  lemma {:induction false} AlertRunKeepsPairs(env: Env, st: State, ids: seq<int>, broken: set<nat>, k: nat)
    requires k <= |ids|
    ensures PairsKept(st, AlertRun(env, st, ids, broken, k))
  {
    hide AlertTurn;
    if k == 0 {
    } else {
      var before := AlertRun(env, st, ids, broken, k - 1);
      AlertRunKeepsPairs(env, st, ids, broken, k - 1);
      AlertTurnIs(env, before, ids[k - 1], k - 1 in broken);
      SameRowsKeepPairs(before, AlertTurn(env, before, ids[k - 1], k - 1 in broken));
      hide UniquePairs;
    }
  }

  lemma StepKeepsPairs(env: Env, st: State, op: Op)
    ensures UniquePairs(st) ==> UniquePairs(Step(env, st, op))
  {
    hide DigestRun, AlertRun, SendEmail;
    match op
    case DigestOp(ids, severities, broken) => DigestRunKeepsPairs(env, st, ids, severities, broken, |ids|);
    case AlertOp(ids, broken) => AlertRunKeepsPairs(env, st, ids, broken, |ids|);
    case ReplyOp(to, kind, reference, fails) => SendIs(env, st, to, DisputeReply(kind, reference), fails);
    case SuppressOp(_, _, _) =>
    case LiftOp(_) =>
    case NotifyOp(_, _, _, _, _) =>
    case ConfigureOp(_) =>
    case SubscribeOp(_, _, _, _, _) =>
    case VerifyOp(_) =>
    case PreferOp(_, _, _) =>
  }

  lemma {:induction false} RunKeepsPairs(env: Env, st: State, ops: seq<Op>)
    requires UniquePairs(st)
    ensures UniquePairs(RunOps(env, st, ops))
  {
    hide Step, UniquePairs;
    if ops == [] {
    } else {
      RunKeepsPairs(env, st, ops[..|ops| - 1]);
      StepKeepsPairs(env, RunOps(env, st, ops[..|ops| - 1]), ops[|ops| - 1]);
    }
  }

  /** Message `k` is an accepted one that tells a subscription of a finding. */
  ghost predicate Tells(st: State, k: nat, subscription: int, flag: int) {
    k < |st.handed| && Accepted(st.handed[k].answer) &&
    exists n :: n in st.notifications && Covers(st.handed[k].subject, n) &&
                st.notifications[n].subscription == subscription && st.notifications[n].flag == flag
  }

  /** For any caller of the senders: if its alert calls each name distinct rows still awaiting their message,
      no two accepted messages, be they digests or alerts, tell one subscription of one finding. */
  lemma NobodyToldTwice(env: Env, st: State, ops: seq<Op>, j: nat, k: nat, subscription: int, flag: int)
    requires NothingSent(st) && UniquePairs(st) && AlertsAwaiting(env, st, ops)
    requires Tells(RunOps(env, st, ops), j, subscription, flag) && Tells(RunOps(env, st, ops), k, subscription, flag)
    ensures j == k
  {
    RowsToldOnce(env, st, ops);
    RunKeepsPairs(env, st, ops);
    hide RunOps;
    TellsOnce(RunOps(env, st, ops), j, k, subscription, flag);
  }

  lemma TellsOnce(st: State, j: nat, k: nat, subscription: int, flag: int)
    requires ToldOnce(st) && UniquePairs(st) && Tells(st, j, subscription, flag) && Tells(st, k, subscription, flag)
    ensures j == k
  {
    var m :| m in st.notifications && Covers(st.handed[j].subject, m) &&
             st.notifications[m].subscription == subscription && st.notifications[m].flag == flag;
    var n :| n in st.notifications && Covers(st.handed[k].subject, n) &&
             st.notifications[n].subscription == subscription && st.notifications[n].flag == flag;
    assert m == n;
  }

  lemma NothingSentTold(st: State)
    requires NothingSent(st)
    ensures ToldOnce(st)
  {
  }
}
