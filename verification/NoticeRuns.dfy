/** The notification service and the digests at work together: events insert their rows and alert them while
    other events, digests and subscription changes go on between any two of their steps
    (backend/src/services/notification.ts, email-delivery.ts, digest-scheduler.ts). */
module NoticeRuns {
  import opened AnomalyNotices
  import opened DeliveryLaws
  import opened Mail
  import opened MailService
  import opened TimestampLaws

  /** The tables, and the ids each event has queued and not yet alerted: its `immediateNotificationIds`. */
  datatype Office = Office(mail: State, held: map<int, set<int>>)

  /** One step of an event, or of anything else that is not an alert: only events alert. */
  datatype Act =
    | InsertAct(event: int, id: int, subscriber: Subscriber, flag: Flag)
    | AlertAct(event: int, id: int, broken: bool)
    | MailAct(op: Op)

  function Held(o: Office, event: int): set<int> { if event in o.held then o.held[event] else {} }

  function ActStep(env: Env, o: Office, act: Act): Office {
    match act
    case InsertAct(event, id, subscriber, flag) =>
      var after := Step(env, o.mail, InsertOf(id, subscriber, flag));
      Office(after, o.held[event := Held(o, event) + if Queues(o.mail, after, id) then {id} else {}])
    case AlertAct(event, id, broken) =>
      if id !in Held(o, event) then o
      else Office(AlertTurn(env, o.mail, id, broken), o.held[event := Held(o, event) - {id}])
    case MailAct(op) => if op.AlertOp? then o else o.(mail := Step(env, o.mail, op))
  }

  function ActRun(env: Env, o: Office, acts: seq<Act>): Office {
    if acts == [] then o else ActStep(env, ActRun(env, o, acts[..|acts| - 1]), acts[|acts| - 1])
  }

  // ---- what the events hold -------------------------------------------------------------------

  /** Every held row is queued, and held by one event. */
  ghost predicate HeldQueued(o: Office) {
    && (forall event, n :: n in Held(o, event) ==>
          n in o.mail.notifications && o.mail.notifications[n].status == Queued)
    && (forall e, f, n :: n in Held(o, e) && n in Held(o, f) ==> e == f)
  }

  ghost predicate QueuedKept(st: State, after: State) {
    forall n :: n in st.notifications && st.notifications[n].status == Queued ==>
      n in after.notifications && after.notifications[n] == st.notifications[n]
  }

  lemma {:induction false} DigestKeepsQueued(env: Env, st: State, ids: seq<int>, severities: set<Severity>,
                                             broken: set<nat>, n: nat)
    requires n <= |ids|
    ensures QueuedKept(st, DigestRun(env, st, ids, severities, broken, n).0)
  {
    hide DigestTurn;
    if n == 0 {
    } else {
      DigestKeepsQueued(env, st, ids, severities, broken, n - 1);
      DigestTurnIs(env, DigestRun(env, st, ids, severities, broken, n - 1).0, ids[n - 1], severities, n - 1 in broken);
    }
  }

  lemma StepKeepsQueued(env: Env, st: State, op: Op)
    requires !op.AlertOp?
    ensures QueuedKept(st, Step(env, st, op))
  {
    hide DigestRun, AlertRun, SendEmail;
    match op
    case DigestOp(ids, severities, broken) => DigestKeepsQueued(env, st, ids, severities, broken, |ids|);
    case ReplyOp(to, kind, reference, fails) => SendIs(env, st, to, DisputeReply(kind, reference), fails);
    case SuppressOp(_, _, _) =>
    case LiftOp(_) =>
    case NotifyOp(_, _, _, _, _) =>
    case ConfigureOp(_) =>
    case SubscribeOp(_, _, _, _, _) =>
    case VerifyOp(_) =>
    case PreferOp(_, _, _) =>
  }

  lemma InsertKeepsHeld(o: Office, after: State, event: int, id: int)
    requires HeldQueued(o) && QueuedKept(o.mail, after)
    ensures HeldQueued(Office(after, o.held[event := Held(o, event) + if Queues(o.mail, after, id) then {id} else {}]))
  {
    var later := Office(after, o.held[event := Held(o, event) + if Queues(o.mail, after, id) then {id} else {}]);
    forall e, n | n in Held(later, e)
      ensures n in Held(o, e) || (e == event && n == id && Queues(o.mail, after, id))
    {
    }
  }

  lemma MailKeepsHeld(o: Office, after: State)
    requires HeldQueued(o) && QueuedKept(o.mail, after)
    ensures HeldQueued(o.(mail := after))
  {
    forall e ensures Held(o.(mail := after), e) == Held(o, e) {
    }
  }

  lemma AlertKeepsHeld(o: Office, after: State, event: int, id: int)
    requires HeldQueued(o) && id in Held(o, event) && after.notifications.Keys == o.mail.notifications.Keys
    requires forall m :: m in o.mail.notifications && m != id ==> after.notifications[m] == o.mail.notifications[m]
    ensures HeldQueued(Office(after, o.held[event := Held(o, event) - {id}]))
  {
    var later := Office(after, o.held[event := Held(o, event) - {id}]);
    forall e, n | n in Held(later, e) ensures n in Held(o, e) && n != id {
    }
  }

  // ---- what every step keeps ------------------------------------------------------------------

  ghost predicate MailSound(st: State) { Sound(st) && ToldOnce(st) && UniquePairs(st) && TimestampsAgree(st) }

  lemma OtherStepSound(env: Env, st: State, op: Op)
    requires MailSound(st) && !op.AlertOp?
    ensures MailSound(Step(env, st, op))
  {
    hide Sound, ToldOnce, UniquePairs, TimestampsAgree, Step;
    StepSound(env, st, op);
    StepKeepsPairs(env, st, op);
    StepKeepsTimestamps(env, st, op);
  }

  lemma AlertStepSound(env: Env, st: State, n: int, broken: bool)
    requires MailSound(st) && n in st.notifications && st.notifications[n].status == Queued
    ensures MailSound(AlertTurn(env, st, n, broken))
  {
    hide Sound, ToldOnce, UniquePairs, TimestampsAgree, AlertTurn, IsTurn;
    AlertTurnSound(env, st, n, broken);
    AlertTurnKeeps(env, st, n, broken);
    AlertTurnKeepsPairs(env, st, n, broken);
  }

  lemma AlertTurnKeepsPairs(env: Env, st: State, n: int, broken: bool)
    ensures UniquePairs(st) ==> UniquePairs(AlertTurn(env, st, n, broken))
  {
    AlertTurnIs(env, st, n, broken);
    hide AlertTurn, UniquePairs;
    SameRowsKeepPairs(st, AlertTurn(env, st, n, broken));
  }

  lemma ActStepSound(env: Env, o: Office, act: Act)
    requires MailSound(o.mail) && HeldQueued(o)
    ensures MailSound(ActStep(env, o, act).mail) && HeldQueued(ActStep(env, o, act))
  {
    hide MailSound, HeldQueued, QueuedKept, Step, AlertTurn, InsertOf, Queues;
    match act
    case InsertAct(event, id, subscriber, flag) =>
      var op := InsertOf(id, subscriber, flag);
      InsertIsNotify(id, subscriber, flag);
      OtherStepSound(env, o.mail, op);
      StepKeepsQueued(env, o.mail, op);
      InsertKeepsHeld(o, Step(env, o.mail, op), event, id);
    case AlertAct(event, id, broken) =>
      if id in Held(o, event) {
        HeldIsQueued(o, event, id);
        AlertStepSound(env, o.mail, id, broken);
        AlertTurnFrame(env, o.mail, id, broken);
        AlertKeepsHeld(o, AlertTurn(env, o.mail, id, broken), event, id);
      }
    case MailAct(op) =>
      if !op.AlertOp? {
        OtherStepSound(env, o.mail, op);
        StepKeepsQueued(env, o.mail, op);
        MailKeepsHeld(o, Step(env, o.mail, op));
      }
  }

  lemma InsertIsNotify(id: int, subscriber: Subscriber, flag: Flag)
    ensures InsertOf(id, subscriber, flag).NotifyOp?
  {
  }

  lemma HeldIsQueued(o: Office, event: int, n: int)
    requires HeldQueued(o) && n in Held(o, event)
    ensures n in o.mail.notifications && o.mail.notifications[n].status == Queued
  {
  }

  lemma {:induction false} ActRunSound(env: Env, st: State, acts: seq<Act>)
    requires NothingSent(st) && UniquePairs(st)
    ensures var o := ActRun(env, Office(st, map[]), acts);
            MailSound(o.mail) && HeldQueued(o)
  {
    hide ActStep, MailSound, HeldQueued, NothingSent, UniquePairs;
    if acts == [] {
      FreshOffice(env, st);
    } else {
      ActRunSound(env, st, acts[..|acts| - 1]);
      ActStepSound(env, ActRun(env, Office(st, map[]), acts[..|acts| - 1]), acts[|acts| - 1]);
    }
  }

  lemma FreshOffice(env: Env, st: State)
    requires NothingSent(st) && UniquePairs(st)
    ensures MailSound(st) && HeldQueued(Office(st, map[]))
  {
    RunSound(env, st, []);
    NothingSentTold(st);
  }

  // ---- the main results -----------------------------------------------------------------------------

  /** Whatever the events, digests, replies and subscription changes, and however their steps interleave, no
      two messages the provider accepted, be they digests or alerts, tell one subscription of one finding. */
  lemma NobodyEverToldTwice(env: Env, st: State, acts: seq<Act>, j: nat, k: nat, subscription: int, flag: int)
    requires NothingSent(st) && UniquePairs(st)
    requires var later := ActRun(env, Office(st, map[]), acts).mail;
             Tells(later, j, subscription, flag) && Tells(later, k, subscription, flag)
    ensures j == k
  {
    ActRunSound(env, st, acts);
    hide ActRun;
    TellsOnce(ActRun(env, Office(st, map[]), acts).mail, j, k, subscription, flag);
  }

  /** Over the same runs only a real delivery gets a timestamp: a row has one exactly when its status is
      `sent`, and then the provider accepted a message that covers it, addressed to its own subscriber. */
  lemma TimestampsAlwaysAgree(env: Env, st: State, acts: seq<Act>, n: int)
    requires NothingSent(st) && UniquePairs(st)
    requires n in ActRun(env, Office(st, map[]), acts).mail.notifications
    ensures var later := ActRun(env, Office(st, map[]), acts).mail;
            && (later.notifications[n].sentAt.Some? <==> later.notifications[n].status == Sent)
            && (later.notifications[n].status == Sent ==> HasDelivery(later, n))
  {
    ActRunSound(env, st, acts);
    hide ActRun;
    assert RowAgrees(ActRun(env, Office(st, map[]), acts).mail.notifications[n]);
  }

  // ---- an event by itself ---------------------------------------------------------------------

  /** The acts of an event's inserts. */
  function InsertActs(event: int, ops: seq<Op>): seq<Act>
    requires OnlyNotifies(ops)
  {
    seq(|ops|, k requires 0 <= k < |ops| =>
      InsertAct(event, ops[k].id, Subscriber(ops[k].subscription, ops[k].seen), Flag(ops[k].flag, ops[k].severity)))
  }

  /** The acts of its alerts. */
  function AlertActs(event: int, rows: seq<int>, broken: set<nat>, k: nat): seq<Act>
    requires k <= |rows|
  {
    if k == 0 then [] else AlertActs(event, rows, broken, k - 1) + [AlertAct(event, rows[k - 1], k - 1 in broken)]
  }

  lemma LastAct(env: Env, o: Office, acts: seq<Act>, act: Act)
    ensures ActRun(env, o, acts + [act]) == ActStep(env, ActRun(env, o, acts), act)
  {
    assert (acts + [act])[..|acts|] == acts;
  }

  lemma LastOp(env: Env, st: State, ops: seq<Op>)
    requires ops != []
    ensures RunOps(env, st, ops) == Step(env, RunOps(env, st, ops[..|ops| - 1]), ops[|ops| - 1])
  {
  }

  /** After the insert acts the tables are as after the inserts, and the event holds what they queued. */
  lemma {:induction false} InsertActsRun(env: Env, st: State, event: int, ops: seq<Op>)
    requires OnlyNotifies(ops)
    ensures var o := ActRun(env, Office(st, map[]), InsertActs(event, ops));
            && o.mail == RunOps(env, st, ops) && Held(o, event) == NewlyQueued(st, o.mail)
            && st.notifications.Keys <= o.mail.notifications.Keys
  {
    hide Step;
    if ops == [] {
      assert InsertActs(event, ops) == [];
    } else {
      var n := |ops| - 1;
      var front, op := ops[..n], ops[n];
      InsertActsRun(env, st, event, front);
      var acts := InsertActs(event, front);
      var act := InsertAct(event, op.id, Subscriber(op.subscription, op.seen), Flag(op.flag, op.severity));
      assert InsertActs(event, ops) == acts + [act];
      LastAct(env, Office(st, map[]), acts, act);
      LastOp(env, st, ops);
      hide ActRun, RunOps;
      InsertQueues(env, st, RunOps(env, st, front), op);
    }
  }

  lemma InsertQueues(env: Env, start: State, now: State, op: Op)
    requires op.NotifyOp? && start.notifications.Keys <= now.notifications.Keys
    ensures var after := Step(env, now, op);
            && start.notifications.Keys <= after.notifications.Keys
            && NewlyQueued(start, after) == NewlyQueued(start, now) + if Queues(now, after, op.id) then {op.id} else {}
  {
    hide InitialStatus, Notified;
  }

  lemma {:induction false} AlertActsRun(env: Env, o: Office, event: int, rows: seq<int>, broken: set<nat>, k: nat)
    requires k <= |rows| && Distinct(rows) && forall j :: 0 <= j < |rows| ==> rows[j] in Held(o, event)
    ensures var later := ActRun(env, o, AlertActs(event, rows, broken, k));
            && later.mail == AlertRun(env, o.mail, rows, broken, k)
            && (forall n :: n in Held(later, event) <==> n in Held(o, event) && n !in rows[..k])
  {
    hide AlertTurn, ActRun, AlertRun;
    if k == 0 {
      NothingAlerted(env, o, event, rows, broken);
    } else {
      AlertActsRun(env, o, event, rows, broken, k - 1);
      LastAct(env, o, AlertActs(event, rows, broken, k - 1), AlertAct(event, rows[k - 1], k - 1 in broken));
      AlertStep(env, o.mail, rows, broken, k);
      assert rows[..k] == rows[..k - 1] + [rows[k - 1]];
      assert rows[k - 1] !in rows[..k - 1];
    }
  }

  lemma NothingAlerted(env: Env, o: Office, event: int, rows: seq<int>, broken: set<nat>)
    ensures ActRun(env, o, AlertActs(event, rows, broken, 0)) == o && AlertRun(env, o.mail, rows, broken, 0) == o.mail
  {
  }

  lemma AlertStep(env: Env, st: State, rows: seq<int>, broken: set<nat>, k: nat)
    requires 0 < k <= |rows|
    ensures AlertRun(env, st, rows, broken, k) ==
            AlertTurn(env, AlertRun(env, st, rows, broken, k - 1), rows[k - 1], k - 1 in broken)
  {
  }

  lemma {:induction false} ActsConcat(env: Env, o: Office, acts: seq<Act>, more: seq<Act>)
    ensures ActRun(env, o, acts + more) == ActRun(env, ActRun(env, o, acts), more)
  {
    hide ActStep;
    if more == [] {
      assert acts + more == acts;
    } else {
      var n := |more| - 1;
      ActsConcat(env, o, acts, more[..n]);
      assert acts + more == (acts + more[..n]) + [more[n]];
      LastAct(env, o, acts + more[..n], more[n]);
    }
  }

  /** What `processAnomalyEvent` leaves is what a run of acts leaves: its inserts, then an alert for each row
      they queued, after which the event holds none. */
  lemma EventIsRun(env: Env, st: State, event: int, flags: seq<Flag>, subscribers: seq<Subscriber>,
                   newId: nat -> int, rows: seq<int>, broken: set<nat>)
    requires Enumerates(rows, NewlyQueued(st, RunOps(env, st, Inserts(flags, subscribers, newId, |flags|))))
    ensures OnlyNotifies(Inserts(flags, subscribers, newId, |flags|))
    ensures var inserts := Inserts(flags, subscribers, newId, |flags|);
            var acts := InsertActs(event, inserts) + AlertActs(event, rows, broken, |rows|);
            var o := ActRun(env, Office(st, map[]), acts);
            && o.mail == AlertRun(env, RunOps(env, st, inserts), rows, broken, |rows|)
            && Held(o, event) == {}
  {
    var inserts := Inserts(flags, subscribers, newId, |flags|);
    InsertsOnlyNotify(flags, subscribers, newId, |flags|);
    InsertActsRun(env, st, event, inserts);
    hide ActRun, RunOps, AlertRun;
    var o := ActRun(env, Office(st, map[]), InsertActs(event, inserts));
    forall j | 0 <= j < |rows| ensures rows[j] in Held(o, event) {
      assert rows[j] in rows;
    }
    AlertActsRun(env, o, event, rows, broken, |rows|);
    ActsConcat(env, Office(st, map[]), InsertActs(event, inserts), AlertActs(event, rows, broken, |rows|));
    assert rows[..|rows|] == rows;
    var later := ActRun(env, o, AlertActs(event, rows, broken, |rows|));
    forall n ensures n !in Held(later, event) {
      assert n in Held(o, event) ==> n in rows;
    }
  }

  lemma {:induction false} InsertsOnlyNotify(flags: seq<Flag>, subscribers: seq<Subscriber>, newId: nat -> int, f: nat)
    requires f <= |flags|
    ensures OnlyNotifies(Inserts(flags, subscribers, newId, f))
  {
    if f == 0 {
    } else {
      InsertsOnlyNotify(flags, subscribers, newId, f - 1);
      WithFlagOnlyNotifies(Inserts(flags, subscribers, newId, f - 1), flags[f - 1], subscribers, newId, |subscribers|);
    }
  }

  lemma {:induction false} WithFlagOnlyNotifies(ops: seq<Op>, flag: Flag, subscribers: seq<Subscriber>,
                                                newId: nat -> int, m: nat)
    requires m <= |subscribers| && OnlyNotifies(ops)
    ensures OnlyNotifies(WithFlag(ops, flag, subscribers, newId, m))
  {
    if m == 0 {
    } else {
      WithFlagOnlyNotifies(ops, flag, subscribers, newId, m - 1);
    }
  }

  lemma {:induction false} NotifiesAwait(env: Env, st: State, ops: seq<Op>)
    requires OnlyNotifies(ops)
    ensures AlertsAwaiting(env, st, ops)
  {
    if ops == [] {
    } else {
      NotifiesAwait(env, st, ops[..|ops| - 1]);
    }
  }

  /** The same as a run of calls: the inserts and one alert call, which names distinct rows still awaiting
      their message. So the service meets the condition the laws of any caller's runs put on alerts. */
  lemma EventIsSafeRun(env: Env, st: State, flags: seq<Flag>, subscribers: seq<Subscriber>, newId: nat -> int,
                       rows: seq<int>, broken: set<nat>)
    requires Enumerates(rows, NewlyQueued(st, RunOps(env, st, Inserts(flags, subscribers, newId, |flags|))))
    ensures var inserts := Inserts(flags, subscribers, newId, |flags|);
            var ops := inserts + [AlertOp(rows, broken)];
            && AlertsAwaiting(env, st, ops)
            && RunOps(env, st, ops) == AlertRun(env, RunOps(env, st, inserts), rows, broken, |rows|)
            && (TimestampsAgree(st) ==> TimestampsAgree(RunOps(env, st, ops)))
  {
    var inserts := Inserts(flags, subscribers, newId, |flags|);
    var ops, inserted := inserts + [AlertOp(rows, broken)], RunOps(env, st, inserts);
    hide RunOps, TimestampsAgree, AlertRun, AlertsAwaiting, Inserts;
    InsertsOnlyNotify(flags, subscribers, newId, |flags|);
    NotifiesAwait(env, st, inserts);
    NewlyQueuedAwait(st, inserted, rows);
    OneMoreAlert(env, st, inserts, rows, broken);
    AwaitingIsFresh(env, st, ops);
    if TimestampsAgree(st) {
      TimestampsHold(env, st, ops);
    }
  }

  lemma NewlyQueuedAwait(st: State, inserted: State, rows: seq<int>)
    requires Enumerates(rows, NewlyQueued(st, inserted))
    ensures Distinct(rows) && AllAwaiting(inserted, rows)
  {
    var queued := NewlyQueued(st, inserted);
    forall k | 0 <= k < |rows|
      ensures rows[k] in inserted.notifications && Awaiting(inserted.notifications[rows[k]].status)
    {
      var n := rows[k];
      assert n in rows;
      assert n in queued;
    }
  }

  lemma OneMoreAlert(env: Env, st: State, ops: seq<Op>, rows: seq<int>, broken: set<nat>)
    requires AlertsAwaiting(env, st, ops) && Distinct(rows) && AllAwaiting(RunOps(env, st, ops), rows)
    ensures AlertsAwaiting(env, st, ops + [AlertOp(rows, broken)])
    ensures RunOps(env, st, ops + [AlertOp(rows, broken)]) == AlertRun(env, RunOps(env, st, ops), rows, broken, |rows|)
  {
    var more := ops + [AlertOp(rows, broken)];
    assert more[..|more| - 1] == ops;
    LastOp(env, st, more);
    hide RunOps, AlertRun, AllAwaiting;
  }
}
