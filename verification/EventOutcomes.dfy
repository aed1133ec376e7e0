/** What one event does for each subscription and finding it concerns: the row it gets and what becomes of it
    (backend/src/services/notification.ts, email-delivery.ts). */
module EventOutcomes {
  import opened AnomalyNotices
  import opened DeliveryLaws
  import opened DigestLaws
  import opened Mail
  import opened MailService
  import opened Options
  import opened TimestampLaws
  import Text

  /** The row a subscription gets for a finding: skipped when it wants no mail, to go out at once when the
      finding is critical or high, and otherwise left for a digest. Asking for digests only changes nothing. */
  function NewRow(subscriber: Subscriber, flag: Flag): Notification {
    Notification(subscriber.id, flag.id, flag.severity,
                 if !subscriber.seen.enabled then Skipped
                 else if flag.severity in {Critical, High} then Queued
                 else Pending,
                 None)
  }

  /** Row `n` tells subscription `s` of finding `f`. */
  ghost predicate TellsOf(st: State, n: int, s: int, f: int) {
    n in st.notifications && st.notifications[n].subscription == s && st.notifications[n].flag == f
  }

  lemma NotifiedMeans(st: State, s: int, f: int)
    ensures Notified(st, s, f) <==> exists n :: TellsOf(st, n, s, f)
  {
    if Notified(st, s, f) {
      var n :| n in st.notifications && st.notifications[n].subscription == s && st.notifications[n].flag == f;
      assert TellsOf(st, n, s, f);
    }
  }

  /** One insert: a new row under a free id, unless the subscription has one for the finding already. */
  lemma InsertAddsRow(env: Env, st: State, id: int, subscriber: Subscriber, flag: Flag)
    requires id !in st.notifications && subscriber.id in st.subscriptions
    ensures (exists n :: TellsOf(st, n, subscriber.id, flag.id)) ==> Step(env, st, InsertOf(id, subscriber, flag)) == st
    ensures (forall n :: !TellsOf(st, n, subscriber.id, flag.id)) ==>
              Step(env, st, InsertOf(id, subscriber, flag)) ==
              st.(notifications := st.notifications[id := NewRow(subscriber, flag)])
  {
    NotifiedMeans(st, subscriber.id, flag.id);
    hide Notified, TellsOf;
  }

  // ---- every pair gets its row ------------------------------------------------------------------

  /** A row added since `st` tells the subscription of the finding. */
  ghost predicate Told(st: State, now: State, subscriber: Subscriber, flag: Flag) {
    exists n :: n in now.notifications && n !in st.notifications && now.notifications[n] == NewRow(subscriber, flag)
  }

  ghost predicate IsNew(newId: nat -> int, i: nat, n: int) { n == newId(i) }

  /** The inserts so far: no row of `st` has changed, and new rows are under the first `k` new ids. */
  ghost predicate Grown(st: State, now: State, newId: nat -> int, k: nat) {
    && now.subscriptions == st.subscriptions
    && (forall n :: n in st.notifications ==> n in now.notifications && now.notifications[n] == st.notifications[n])
    && (forall n :: n in now.notifications && n !in st.notifications ==> exists i: nat :: i < k && IsNew(newId, i, n))
  }

  /** Ids the database has not used, each new. */
  ghost predicate FreshIds(st: State, newId: nat -> int) {
    && (forall i: nat :: newId(i) !in st.notifications)
    && (forall i: nat, j: nat :: newId(i) == newId(j) ==> i == j)
  }

  /** Where a pair stands while the inserts go on: done, or still waiting for its own. */
  ghost predicate Stands(st: State, now: State, subscriber: Subscriber, flag: Flag, inserted: bool) {
    if inserted then Notified(st, subscriber.id, flag.id) || Told(st, now, subscriber, flag)
    else Notified(now, subscriber.id, flag.id) ==> Notified(st, subscriber.id, flag.id)
  }

  lemma InsertGrows(env: Env, st: State, now: State, newId: nat -> int, k: nat, other: Subscriber, g: Flag,
                    subscriber: Subscriber, flag: Flag, inserted: bool)
    requires FreshIds(st, newId) && Grown(st, now, newId, k) && other.id in st.subscriptions
    requires Stands(st, now, subscriber, flag, inserted)
    requires other.id == subscriber.id && g.id == flag.id ==> other == subscriber && g == flag
    ensures var after := Step(env, now, InsertOf(newId(k), other, g));
            && Grown(st, after, newId, k + 1)
            && Stands(st, after, subscriber, flag, inserted || (other == subscriber && g == flag))
  {
    var after := Step(env, now, InsertOf(newId(k), other, g));
    NewIdFree(st, now, newId, k);
    InsertAddsRow(env, now, newId(k), other, g);
    NotifiedMeans(now, other.id, g.id);
    hide Step, InsertOf, Notified, TellsOf;
    GrownMore(st, now, after, newId, k, other, g);
    StandsMore(st, now, after, newId(k), other, g, subscriber, flag, inserted);
  }

  lemma NewIdFree(st: State, now: State, newId: nat -> int, k: nat)
    requires FreshIds(st, newId) && Grown(st, now, newId, k)
    ensures newId(k) !in now.notifications && newId(k) !in st.notifications
  {
    var n: int := newId(k);
    assert n !in st.notifications;
    forall i: nat | i < k ensures !IsNew(newId, i, n) {
    }
  }

  lemma GrownMore(st: State, now: State, after: State, newId: nat -> int, k: nat, other: Subscriber, g: Flag)
    requires FreshIds(st, newId) && Grown(st, now, newId, k)
    requires after == now || after == now.(notifications := now.notifications[newId(k) := NewRow(other, g)])
    ensures Grown(st, after, newId, k + 1)
  {
    forall n | n in after.notifications && n !in st.notifications
      ensures exists i: nat :: i < k + 1 && IsNew(newId, i, n)
    {
      if n in now.notifications {
        var i: nat :| i < k && IsNew(newId, i, n);
      } else {
        assert IsNew(newId, k, n);
      }
    }
  }

  lemma StandsMore(st: State, now: State, after: State, id: int, other: Subscriber, g: Flag, subscriber: Subscriber,
                   flag: Flag, inserted: bool)
    requires Stands(st, now, subscriber, flag, inserted) && id !in now.notifications && id !in st.notifications
    requires other.id == subscriber.id && g.id == flag.id ==> other == subscriber && g == flag
    requires after == if Notified(now, other.id, g.id) then now
                      else now.(notifications := now.notifications[id := NewRow(other, g)])
    ensures Stands(st, after, subscriber, flag, inserted || (other == subscriber && g == flag))
  {
    if inserted {
      if n :| n in now.notifications && n !in st.notifications && now.notifications[n] == NewRow(subscriber, flag) {
        assert after.notifications[n] == NewRow(subscriber, flag);
      }
    } else if other == subscriber && g == flag {
      assert !Notified(now, other.id, g.id) ==> after.notifications[id] == NewRow(subscriber, flag);
    } else if n :| n in after.notifications && after.notifications[n].subscription == subscriber.id &&
                   after.notifications[n].flag == flag.id {
      assert n != id;
      assert Notified(now, subscriber.id, flag.id);
    }
  }

  lemma RunMore(env: Env, st: State, ops: seq<Op>, op: Op)
    ensures RunOps(env, st, ops + [op]) == Step(env, RunOps(env, st, ops), op)
  {
    assert (ops + [op])[..|ops|] == ops;
  }

  /** Subscriptions that exist, each once. */
  ghost predicate Listed(st: State, subscribers: seq<Subscriber>) {
    && (forall m :: 0 <= m < |subscribers| ==> subscribers[m].id in st.subscriptions)
    && (forall i, j :: 0 <= i < j < |subscribers| ==> subscribers[i].id != subscribers[j].id)
  }

  ghost predicate DistinctFlags(flags: seq<Flag>) {
    forall i, j :: 0 <= i < j < |flags| ==> flags[i].id != flags[j].id
  }

  /** One finding's inserts, one subscription after another. */
  lemma {:induction false} FlagTells(env: Env, st: State, ops: seq<Op>, g: Flag, subscribers: seq<Subscriber>,
                                     newId: nat -> int, m: nat, subscriber: Subscriber, flag: Flag, inserted: bool)
    requires m <= |subscribers| && FreshIds(st, newId) && Listed(st, subscribers) && subscriber in subscribers
    requires Grown(st, RunOps(env, st, ops), newId, |ops|)
    requires Stands(st, RunOps(env, st, ops), subscriber, flag, inserted) && (g.id == flag.id ==> g == flag)
    ensures var after := WithFlag(ops, g, subscribers, newId, m);
            && Grown(st, RunOps(env, st, after), newId, |after|)
            && Stands(st, RunOps(env, st, after), subscriber, flag,
                      inserted || (g == flag && subscriber in subscribers[..m]))
  {
    hide RunOps, Grown, Stands, FreshIds, InsertOf, Step;
    if m == 0 {
    } else {
      FlagTells(env, st, ops, g, subscribers, newId, m - 1, subscriber, flag, inserted);
      var before, other := WithFlag(ops, g, subscribers, newId, m - 1), subscribers[m - 1];
      RunMore(env, st, before, InsertOf(newId(|before|), other, g));
      SameSubscriber(st, subscribers, other, subscriber);
      InsertGrows(env, st, RunOps(env, st, before), newId, |before|, other, g, subscriber, flag,
                  inserted || (g == flag && subscriber in subscribers[..m - 1]));
      assert subscribers[..m] == subscribers[..m - 1] + [other];
    }
  }

  lemma SameSubscriber(st: State, subscribers: seq<Subscriber>, a: Subscriber, b: Subscriber)
    requires Listed(st, subscribers) && a in subscribers && b in subscribers
    ensures a.id == b.id ==> a == b
  {
    var i :| 0 <= i < |subscribers| && subscribers[i] == a;
    var j :| 0 <= j < |subscribers| && subscribers[j] == b;
    assert i < j ==> subscribers[i].id != subscribers[j].id;
    assert j < i ==> subscribers[j].id != subscribers[i].id;
  }

  lemma SameFlag(flags: seq<Flag>, a: Flag, b: Flag)
    requires DistinctFlags(flags) && a in flags && b in flags
    ensures a.id == b.id ==> a == b
  {
    var i :| 0 <= i < |flags| && flags[i] == a;
    var j :| 0 <= j < |flags| && flags[j] == b;
    assert i < j ==> flags[i].id != flags[j].id;
    assert j < i ==> flags[j].id != flags[i].id;
  }

  lemma NothingInserted(env: Env, st: State, newId: nat -> int, subscriber: Subscriber, flag: Flag)
    ensures Grown(st, RunOps(env, st, []), newId, 0) && Stands(st, RunOps(env, st, []), subscriber, flag, false)
  {
  }

  lemma {:induction false} FlagsTell(env: Env, st: State, flags: seq<Flag>, subscribers: seq<Subscriber>,
                                     newId: nat -> int, f: nat, subscriber: Subscriber, flag: Flag)
    requires f <= |flags| && FreshIds(st, newId) && Listed(st, subscribers) && DistinctFlags(flags)
    requires subscriber in subscribers && flag in flags
    ensures var ops := Inserts(flags, subscribers, newId, f);
            && Grown(st, RunOps(env, st, ops), newId, |ops|)
            && Stands(st, RunOps(env, st, ops), subscriber, flag, flag in flags[..f])
  {
    hide RunOps, Grown, Stands, FreshIds, Listed, DistinctFlags;
    if f == 0 {
      NothingInserted(env, st, newId, subscriber, flag);
    } else {
      FlagsTell(env, st, flags, subscribers, newId, f - 1, subscriber, flag);
      SameFlag(flags, flags[f - 1], flag);
      FlagTells(env, st, Inserts(flags, subscribers, newId, f - 1), flags[f - 1], subscribers, newId, |subscribers|,
                subscriber, flag, flag in flags[..f - 1]);
      assert subscribers[..|subscribers|] == subscribers;
      assert flags[..f] == flags[..f - 1] + [flags[f - 1]];
    }
  }

  /** After an event's inserts every subscription it concerns has a row for every finding: the one it had
      already, or a new one that says what is to be done. */
  lemma EveryPairIsTold(env: Env, st: State, flags: seq<Flag>, subscribers: seq<Subscriber>, newId: nat -> int,
                        subscriber: Subscriber, flag: Flag)
    requires FreshIds(st, newId) && Listed(st, subscribers) && DistinctFlags(flags)
    requires subscriber in subscribers && flag in flags
    ensures var inserted := RunOps(env, st, Inserts(flags, subscribers, newId, |flags|));
            && inserted.subscriptions == st.subscriptions
            && (forall n :: n in st.notifications ==>
                  n in inserted.notifications && inserted.notifications[n] == st.notifications[n])
            && (Told(st, inserted, subscriber, flag) || exists n :: TellsOf(st, n, subscriber.id, flag.id))
  {
    NotifiedMeans(st, subscriber.id, flag.id);
    FlagsTell(env, st, flags, subscribers, newId, |flags|, subscriber, flag);
    assert flags[..|flags|] == flags;
  }

  // ---- and every row its message --------------------------------------------------------------------

  /** What alerting a new row comes to, when its turn finds the tables as `now`: one message to the
      subscription's address, unless that is suppressed, there is no provider or a look-up fails. */
  ghost predicate AlertedAs(env: Env, now: State, email: string, n: int, broken: bool, was: Notification,
                            row: Notification, handed: seq<Handed>) {
    var listed := env.digest(env.lower(Text.Trim(email))) in now.suppressions;
    if broken then row == was.(status := Failed)
    else if listed then row == was.(status := Skipped)
    else if !now.configured then row == was.(status := DryRun)
    else
      var answer := env.provider(|now.handed|);
      && |now.handed| < |handed| && handed[|now.handed|] == Handed(email, Alert(n), answer)
      && row == (if answer.Answered? && answer.id != ""
                 then was.(status := Sent, sentAt := Some(env.clock(|now.handed| + 1))) else was.(status := Failed))
  }

  lemma AlertTurnTells(env: Env, now: State, n: int, broken: bool)
    requires n in now.notifications && now.notifications[n].subscription in now.subscriptions
    requires now.notifications[n].sentAt == None
    ensures var after := AlertTurn(env, now, n, broken);
            var email := now.subscriptions[now.notifications[n].subscription].email;
            n in after.notifications &&
            AlertedAs(env, now, email, n, broken, now.notifications[n], after.notifications[n], after.handed)
  {
    AlertTellsFate(env, now, n, broken);
    hide AlertTurn, Text.Trim;
  }

  lemma {:induction false} AlertRunHands(env: Env, st: State, rows: seq<int>, broken: set<nat>, j: nat, k: nat)
    requires j <= k <= |rows|
    ensures AlertRun(env, st, rows, broken, j).handed <= AlertRun(env, st, rows, broken, k).handed
    decreases k
  {
    hide AlertTurn;
    if j == k {
    } else {
      AlertRunHands(env, st, rows, broken, j, k - 1);
      AlertTurnHands(env, AlertRun(env, st, rows, broken, k - 1), rows[k - 1], k - 1 in broken);
    }
  }

  lemma AlertTurnHands(env: Env, st: State, n: int, broken: bool)
    ensures st.handed <= AlertTurn(env, st, n, broken).handed
  {
    hide FindSuppression;
  }

  /** The alerts that follow an event's inserts: each row that is to go out at once is alerted once, at its own
      turn and to its own subscription, and every other row stays as the inserts left it. */
  lemma QueuedAreAlerted(env: Env, inserted: State, rows: seq<int>, broken: set<nat>, n: int)
    requires Distinct(rows) && n in inserted.notifications
    requires inserted.notifications[n].subscription in inserted.subscriptions
    requires inserted.notifications[n].sentAt == None
    ensures var last, was := AlertRun(env, inserted, rows, broken, |rows|), inserted.notifications[n];
            var email := inserted.subscriptions[was.subscription].email;
            && n in last.notifications
            && (n !in rows ==> last.notifications[n] == was)
            && (forall k: nat :: k < |rows| && rows[k] == n ==>
                  AlertedAs(env, AlertRun(env, inserted, rows, broken, k), email, n, k in broken, was,
                            last.notifications[n], last.handed))
  {
    hide AlertTurn, AlertedAs, AlertRun;
    AlertRunFrame(env, inserted, rows, broken, |rows|);
    assert rows[..|rows|] == rows;
    forall k: nat | k < |rows| && rows[k] == n
      ensures AlertedAs(env, AlertRun(env, inserted, rows, broken, k),
                        inserted.subscriptions[inserted.notifications[n].subscription].email, n, k in broken,
                        inserted.notifications[n], AlertRun(env, inserted, rows, broken, |rows|).notifications[n],
                        AlertRun(env, inserted, rows, broken, |rows|).handed)
    {
      AlertedAtItsTurn(env, inserted, rows, broken, n, k);
    }
  }

  lemma AlertedAtItsTurn(env: Env, inserted: State, rows: seq<int>, broken: set<nat>, n: int, k: nat)
    requires Distinct(rows) && n in inserted.notifications && k < |rows| && rows[k] == n
    requires inserted.notifications[n].subscription in inserted.subscriptions
    requires inserted.notifications[n].sentAt == None
    ensures var last, was := AlertRun(env, inserted, rows, broken, |rows|), inserted.notifications[n];
            n in last.notifications &&
            AlertedAs(env, AlertRun(env, inserted, rows, broken, k), inserted.subscriptions[was.subscription].email, n,
                      k in broken, was, last.notifications[n], last.handed)
  {
    var now := AlertRun(env, inserted, rows, broken, k);
    assert AlertRun(env, inserted, rows, broken, k + 1) == AlertTurn(env, now, n, k in broken);
    hide AlertTurn, AlertRun, AlertedAs;
    AlertRunFrame(env, inserted, rows, broken, k);
    RowAtItsTurn(env, inserted, rows, broken, k);
    AlertTurnTells(env, now, n, k in broken);
    AlertRunKeepsRow(env, inserted, rows, broken, k + 1, |rows|, n);
    AlertRunHands(env, inserted, rows, broken, k + 1, |rows|);
    var next, last := AlertRun(env, inserted, rows, broken, k + 1), AlertRun(env, inserted, rows, broken, |rows|);
    AlertedStays(env, now, inserted.subscriptions[inserted.notifications[n].subscription].email, n, k in broken,
                 inserted.notifications[n], next.notifications[n], next.handed, last.handed);
  }

  lemma AlertedStays(env: Env, now: State, email: string, n: int, broken: bool, was: Notification, row: Notification,
                     handed: seq<Handed>, later: seq<Handed>)
    requires AlertedAs(env, now, email, n, broken, was, row, handed) && handed <= later
    ensures AlertedAs(env, now, email, n, broken, was, row, later)
  {
    hide Text.Trim;
  }

  lemma AlertedKeepsColumns(env: Env, now: State, email: string, n: int, broken: bool, was: Notification,
                            row: Notification, handed: seq<Handed>)
    requires AlertedAs(env, now, email, n, broken, was, row, handed)
    ensures row == was.(status := row.status, sentAt := row.sentAt)
  {
    hide Text.Trim;
  }

  /** The whole of `processAnomalyEvent`, for one subscription and one finding it had not been told of: there
      is a new row; one of a subscription that wants no mail is skipped, one of a medium or low finding waits
      for its digest, and one of a high or critical finding has been alerted. */
  lemma EventTells(env: Env, st: State, flags: seq<Flag>, subscribers: seq<Subscriber>, newId: nat -> int,
                   rows: seq<int>, broken: set<nat>, subscriber: Subscriber, flag: Flag) returns (n: int)
    requires FreshIds(st, newId) && Listed(st, subscribers) && DistinctFlags(flags)
    requires subscriber in subscribers && flag in flags
    requires forall m :: !TellsOf(st, m, subscriber.id, flag.id)
    requires Enumerates(rows, NewlyQueued(st, RunOps(env, st, Inserts(flags, subscribers, newId, |flags|))))
    ensures var inserted := RunOps(env, st, Inserts(flags, subscribers, newId, |flags|));
            var last := AlertRun(env, inserted, rows, broken, |rows|);
            && n !in st.notifications && n in last.notifications && subscriber.id in st.subscriptions
            && last.notifications[n].subscription == subscriber.id && last.notifications[n].flag == flag.id
            && last.notifications[n].severity == flag.severity
            && (!subscriber.seen.enabled ==> last.notifications[n].status == Skipped)
            && (subscriber.seen.enabled && flag.severity in {Medium, Low} ==> last.notifications[n].status == Pending)
            && (subscriber.seen.enabled && flag.severity in {High, Critical} ==>
                  exists k: nat :: k < |rows| && rows[k] == n &&
                    AlertedAs(env, AlertRun(env, inserted, rows, broken, k), st.subscriptions[subscriber.id].email, n,
                              k in broken, NewRow(subscriber, flag), last.notifications[n], last.handed))
  {
    hide AlertRun, AlertedAs, RunOps, Inserts, FreshIds, DistinctFlags;
    var inserted := RunOps(env, st, Inserts(flags, subscribers, newId, |flags|));
    EveryPairIsTold(env, st, flags, subscribers, newId, subscriber, flag);
    n :| n in inserted.notifications && n !in st.notifications && inserted.notifications[n] == NewRow(subscriber, flag);
    QueuedAreAlerted(env, inserted, rows, broken, n);
    assert n in NewlyQueued(st, inserted) <==> NewRow(subscriber, flag).status == Queued;
    assert n in rows <==> n in NewlyQueued(st, inserted);
    assert NewRow(subscriber, flag).status != Queued ==>
      AlertRun(env, inserted, rows, broken, |rows|).notifications[n] == NewRow(subscriber, flag);
    if NewRow(subscriber, flag).status == Queued {
      var k: nat :| k < |rows| && rows[k] == n;
      var last := AlertRun(env, inserted, rows, broken, |rows|);
      AlertedKeepsColumns(env, AlertRun(env, inserted, rows, broken, k), st.subscriptions[subscriber.id].email, n,
                          k in broken, NewRow(subscriber, flag), last.notifications[n], last.handed);
    }
  }

  // ---- in terms of what the event reads -----------------------------------------------------------------

  lemma ReadSubscribers(st: State, ids: seq<int>, s: int)
    requires (forall k :: 0 <= k < |ids| ==> ids[k] in st.subscriptions) && s in ids
    requires forall i, j :: 0 <= i < j < |ids| ==> ids[i] != ids[j]
    ensures Listed(st, SubscribersOf(st, ids)) && Subscriber(s, st.subscriptions[s]) in SubscribersOf(st, ids)
  {
    var k :| 0 <= k < |ids| && ids[k] == s;
    assert SubscribersOf(st, ids)[k] == Subscriber(s, st.subscriptions[s]);
  }

  lemma ReadFlags(flags: map<int, FlagRow>, ids: seq<int>, f: int)
    requires (forall k :: 0 <= k < |ids| ==> ids[k] in flags) && f in ids
    requires forall i, j :: 0 <= i < j < |ids| ==> ids[i] != ids[j]
    ensures DistinctFlags(FlagsOf(flags, ids)) && Flag(f, flags[f].severity) in FlagsOf(flags, ids)
  {
    var k :| 0 <= k < |ids| && ids[k] == f;
    assert FlagsOf(flags, ids)[k] == Flag(f, flags[f].severity);
  }

  /** `processAnomalyEvent` on the tables it finds: each verified subscription of the meeting's jurisdiction is
      told of each published finding of the named types it had not been told of, as its own settings and the
      finding's severity have it. */
  lemma EventReaches(env: Env, st: State, flags: map<int, FlagRow>, jurisdiction: int, meeting: int, types: set<string>,
                     subscriberIds: seq<int>, flagIds: seq<int>, newId: nat -> int, rows: seq<int>, broken: set<nat>,
                     s: int, f: int) returns (n: int)
    requires FreshIds(st, newId)
    requires Enumerates(subscriberIds, VerifiedIn(st, jurisdiction))
    requires Enumerates(flagIds, PublishedOf(flags, meeting, types))
    requires forall k :: 0 <= k < |subscriberIds| ==> subscriberIds[k] in st.subscriptions
    requires forall k :: 0 <= k < |flagIds| ==> flagIds[k] in flags
    requires var read := FlagsOf(flags, flagIds);
             var subscribers := SubscribersOf(st, subscriberIds);
             Enumerates(rows, NewlyQueued(st, RunOps(env, st, Inserts(read, subscribers, newId, |read|))))
    requires s in st.subscriptions && st.subscriptions[s].verified && st.subscriptions[s].jurisdiction == jurisdiction
    requires f in flags && flags[f].meeting == meeting && flags[f].flagType in types && flags[f].published
    requires forall m :: !TellsOf(st, m, s, f)
    ensures var read, subscribers := FlagsOf(flags, flagIds), SubscribersOf(st, subscriberIds);
            var inserted := RunOps(env, st, Inserts(read, subscribers, newId, |read|));
            var last := AlertRun(env, inserted, rows, broken, |rows|);
            && n !in st.notifications && n in last.notifications
            && last.notifications[n].subscription == s && last.notifications[n].flag == f
            && last.notifications[n].severity == flags[f].severity
            && (if !st.subscriptions[s].enabled then last.notifications[n].status == Skipped
                else if flags[f].severity in {Medium, Low} then last.notifications[n].status == Pending
                else
                  exists k: nat :: k < |rows| && rows[k] == n &&
                    AlertedAs(env, AlertRun(env, inserted, rows, broken, k), st.subscriptions[s].email, n, k in broken,
                              Notification(s, f, flags[f].severity, Queued, None), last.notifications[n], last.handed))
  {
    hide AlertRun, AlertedAs, RunOps, Inserts, FreshIds, DistinctFlags, Listed, NewlyQueued, FlagsOf, SubscribersOf;
    assert s in VerifiedIn(st, jurisdiction) && f in PublishedOf(flags, meeting, types);
    ReadSubscribers(st, subscriberIds, s);
    ReadFlags(flags, flagIds, f);
    var subscriber, flag := Subscriber(s, st.subscriptions[s]), Flag(f, flags[f].severity);
    n := EventTells(env, st, FlagsOf(flags, flagIds), SubscribersOf(st, subscriberIds), newId, rows, broken, subscriber,
                    flag);
    OneOfFour(flags[f].severity);
  }

  lemma OneOfFour(severity: Severity)
    ensures severity in {Medium, Low} <==> severity !in {High, Critical}
  {
  }
}
