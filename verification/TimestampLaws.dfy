/** "Only a real delivery gets a timestamp": the notification rows' dates against their statuses
    (backend/src/services/email-delivery.ts). */
module TimestampLaws {
  import opened DeliveryLaws
  import opened Mail
  import opened Options

  predicate RowAgrees(row: Notification) { row.status == Sent <==> row.sentAt.Some? }

  /** A row has a timestamp exactly when it is `sent`. */
  ghost predicate TimestampsAgree(st: State) {
    forall n :: n in st.notifications ==> RowAgrees(st.notifications[n])
  }

  /** A digest turn keeps timestamps and statuses in step. */
  lemma DigestKeepsTimestamps(env: Env, st: State, subscription: int, severities: set<Severity>, broken: bool)
    requires TimestampsAgree(st)
    ensures TimestampsAgree(DigestTurn(env, st, subscription, severities, broken).0)
  {
    hide FindSuppression;
  }

  lemma {:induction false} DigestRunKeepsTimestamps(env: Env, st: State, ids: seq<int>, severities: set<Severity>,
                                                    broken: set<nat>, n: nat)
    requires n <= |ids| && TimestampsAgree(st)
    ensures TimestampsAgree(DigestRun(env, st, ids, severities, broken, n).0)
  {
    hide DigestTurn, TimestampsAgree;
    if n == 0 {
    } else {
      DigestRunKeepsTimestamps(env, st, ids, severities, broken, n - 1);
      DigestKeepsTimestamps(env, DigestRun(env, st, ids, severities, broken, n - 1).0, ids[n - 1], severities,
                            n - 1 in broken);
    }
  }

  /** One alert keeps them in step exactly unless it is sent again for a row already `sent` and throws: the
      row is then marked failed with its timestamp still on it. */
  lemma AlertKeepsTimestamps(env: Env, st: State, n: int, broken: bool)
    requires TimestampsAgree(st) && n in st.notifications && st.notifications[n].subscription in st.subscriptions
    ensures var to := st.subscriptions[st.notifications[n].subscription].email;
            TimestampsAgree(AlertTurn(env, st, n, broken)) <==>
              !(st.notifications[n].status == Sent && SendEmail(env, st, to, Alert(n), broken).1.Threw?)
  {
    hide FindSuppression;
    assert n in AlertTurn(env, st, n, broken).notifications;
  }

  /** The rows alerts will find, none of them already `sent`. */
  ghost predicate NoneSent(st: State, ids: seq<int>) {
    forall k :: 0 <= k < |ids| && ids[k] in st.notifications ==> st.notifications[ids[k]].status != Sent
  }

  lemma AlertTurnKeeps(env: Env, st: State, n: int, broken: bool)
    requires TimestampsAgree(st) && (n in st.notifications ==> st.notifications[n].status != Sent)
    ensures TimestampsAgree(AlertTurn(env, st, n, broken))
  {
    if n in st.notifications && st.notifications[n].subscription in st.subscriptions {
      hide AlertTurn, TimestampsAgree, SendEmail;
      AlertKeepsTimestamps(env, st, n, broken);
    }
  }

  lemma {:induction false} AlertRunKeeps(env: Env, st: State, ids: seq<int>, broken: set<nat>, k: nat)
    requires k <= |ids| && TimestampsAgree(st) && Distinct(ids) && NoneSent(st, ids)
    ensures TimestampsAgree(AlertRun(env, st, ids, broken, k))
  {
    hide AlertTurn, TimestampsAgree;
    if k == 0 {
    } else {
      var before, n := AlertRun(env, st, ids, broken, k - 1), ids[k - 1];
      AlertRunKeeps(env, st, ids, broken, k - 1);
      AlertRunFrame(env, st, ids, broken, k - 1);
      if n in st.notifications {
        RowAtItsTurn(env, st, ids, broken, k - 1);
      }
      AlertTurnKeeps(env, before, n, k - 1 in broken);
    }
  }

  /** The rows `getNotificationsWithContext` returns: they exist, with their subscriptions, each once. */
  ghost predicate Selected(st: State, ids: seq<int>) {
    Distinct(ids) &&
    forall k :: 0 <= k < |ids| ==>
      ids[k] in st.notifications && st.notifications[ids[k]].subscription in st.subscriptions
  }

  lemma {:induction false} AlertRunKeepsRow(env: Env, st: State, ids: seq<int>, broken: set<nat>, j: nat, k: nat,
                                            n: int)
    requires j <= k <= |ids| && n in st.notifications && n !in ids[j..k]
    ensures n in AlertRun(env, st, ids, broken, k).notifications && n in AlertRun(env, st, ids, broken, j).notifications
    ensures AlertRun(env, st, ids, broken, k).notifications[n] == AlertRun(env, st, ids, broken, j).notifications[n]
    decreases k
  {
    hide AlertTurn;
    AlertRunFrame(env, st, ids, broken, j);
    if j == k {
    } else {
      assert ids[j..k] == ids[j..k - 1] + [ids[k - 1]];
      AlertRunKeepsRow(env, st, ids, broken, j, k - 1, n);
      AlertTurnFrame(env, AlertRun(env, st, ids, broken, k - 1), ids[k - 1], k - 1 in broken);
    }
  }

  lemma BrokenAlertMisdates(env: Env, st: State, n: int)
    requires n in st.notifications && st.notifications[n].subscription in st.subscriptions
    requires st.notifications[n].sentAt.Some?
    ensures n in AlertTurn(env, st, n, true).notifications && !RowAgrees(AlertTurn(env, st, n, true).notifications[n])
  {
  }

  /** A `sent` row among those alerted is misdated if its look-up fails. */
  lemma SentRowMisdated(env: Env, st: State, ids: seq<int>, k: nat)
    requires TimestampsAgree(st) && Selected(st, ids) && k < |ids| && st.notifications[ids[k]].status == Sent
    ensures !TimestampsAgree(AlertRun(env, st, ids, {k}, |ids|))
  {
    hide AlertTurn;
    var n, before := ids[k], AlertRun(env, st, ids, {k}, k);
    RowAtItsTurn(env, st, ids, {k}, k);
    AlertRunFrame(env, st, ids, {k}, k);
    assert RowAgrees(st.notifications[n]);
    BrokenAlertMisdates(env, before, n);
    assert AlertRun(env, st, ids, {k}, k + 1) == AlertTurn(env, before, n, true);
    hide AlertRun, AlertTurn;
    assert n !in ids[k + 1..|ids|];
    AlertRunKeepsRow(env, st, ids, {k}, k + 1, |ids|, n);
  }

  /** Alerting a selection of rows keeps timestamps and statuses in step, whatever fails on the way, exactly
      when none of the rows is already `sent`. */
  lemma AlertsKeepTimestamps(env: Env, st: State, ids: seq<int>)
    requires TimestampsAgree(st) && Selected(st, ids)
    ensures (forall broken: set<nat> :: TimestampsAgree(AlertRun(env, st, ids, broken, |ids|))) <==> NoneSent(st, ids)
  {
    hide AlertRun, TimestampsAgree;
    if NoneSent(st, ids) {
      forall broken: set<nat> ensures TimestampsAgree(AlertRun(env, st, ids, broken, |ids|)) {
        AlertRunKeeps(env, st, ids, broken, |ids|);
      }
    } else {
      var k :| 0 <= k < |ids| && ids[k] in st.notifications && st.notifications[ids[k]].status == Sent;
      SentRowMisdated(env, st, ids, k);
      assert !TimestampsAgree(AlertRun(env, st, ids, {k}, |ids|));
    }
  }

  // ---- runs -----------------------------------------------------------------------------------------

  /** Each alert call names distinct rows that are not already `sent` when it is made. */
  ghost predicate AlertsFresh(env: Env, st: State, ops: seq<Op>) {
    ops == [] ||
    (var front, last := ops[..|ops| - 1], ops[|ops| - 1];
     AlertsFresh(env, st, front) &&
     (last.AlertOp? ==> Distinct(last.ids) && NoneSent(RunOps(env, st, front), last.ids)))
  }

  /** Rows awaiting their message are not `sent`, so alerting them is safe for timestamps too. */
  lemma {:induction false} AwaitingIsFresh(env: Env, st: State, ops: seq<Op>)
    requires AlertsAwaiting(env, st, ops)
    ensures AlertsFresh(env, st, ops)
  {
    hide RunOps;
    if ops == [] {
    } else {
      AwaitingIsFresh(env, st, ops[..|ops| - 1]);
    }
  }

  lemma StepKeepsTimestamps(env: Env, st: State, op: Op)
    requires TimestampsAgree(st) && (op.AlertOp? ==> Distinct(op.ids) && NoneSent(st, op.ids))
    ensures TimestampsAgree(Step(env, st, op))
  {
    hide DigestRun, AlertRun, SendEmail;
    match op
    case DigestOp(ids, severities, broken) => DigestRunKeepsTimestamps(env, st, ids, severities, broken, |ids|);
    case AlertOp(ids, broken) => AlertRunKeeps(env, st, ids, broken, |ids|);
    case ReplyOp(to, kind, reference, fails) => SendIs(env, st, to, DisputeReply(kind, reference), fails);
    case SuppressOp(_, _, _) =>
    case LiftOp(_) =>
    case NotifyOp(_, _, _, _, _) =>
    case ConfigureOp(_) =>
    case SubscribeOp(_, _, _, _, _) =>
    case VerifyOp(_) =>
    case PreferOp(_, _, _) =>
  }

  /** For any caller of the senders: over every run in which each alert call names distinct rows not already
      `sent`, a row has a timestamp exactly when its status is `sent`. */
  lemma {:induction false} TimestampsHold(env: Env, st: State, ops: seq<Op>)
    requires TimestampsAgree(st) && AlertsFresh(env, st, ops)
    ensures TimestampsAgree(RunOps(env, st, ops))
  {
    hide Step, TimestampsAgree;
    if ops == [] {
    } else {
      TimestampsHold(env, st, ops[..|ops| - 1]);
      StepKeepsTimestamps(env, RunOps(env, st, ops[..|ops| - 1]), ops[|ops| - 1]);
    }
  }

  /** The hypothesis is needed: a caller that names one queued row in two calls can have it delivered by the
      first and, when the second throws, left failed and dated. */
  lemma RepeatedAlertMisdates(env: Env, st: State)
    requires env.provider(0) == Answered("re_1")
    requires st == State(map[], map[1 := Subscription("a@b.co", 5, true, false, true)],
                         map[7 := Notification(1, 3, High, Queued, None)], true, [])
    ensures TimestampsAgree(st) && !TimestampsAgree(RunOps(env, st, [AlertOp([7], {}), AlertOp([7], {0})]))
  {
    var once := AlertTurn(env, st, 7, false);
    var first, second := AlertOp([7], {}), AlertOp([7], {0});
    AlertOfOne(env, st, 7, {});
    AlertOfOne(env, once, 7, {0});
    assert [first, second][..1] == [first] && [first][..0] == [];
    assert RunOps(env, st, []) == st;
    assert RunOps(env, st, [first]) == once;
    assert once.notifications[7].status == Sent && once.notifications[7].sentAt.Some?;
    BrokenAlertMisdates(env, once, 7);
  }

  lemma AlertOfOne(env: Env, st: State, n: int, broken: set<nat>)
    ensures Step(env, st, AlertOp([n], broken)) == AlertTurn(env, st, n, 0 in broken)
  {
    assert AlertRun(env, st, [n], broken, 0) == st;
  }
}
