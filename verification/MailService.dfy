/** The mail senders as the source writes them: a service over the tables and the provider, and the
    scheduler that drives it (backend/src/services/email-delivery.ts, digest-scheduler.ts). */
module MailService {
  import opened Mail
  import DigestLaws
  import opened Options
  import opened Sequences

  class EmailDeliveryService {
    const env: Env
    var suppressions: Suppressions
    var subscriptions: map<int, Subscription>
    var notifications: map<int, Notification>
    var configured: bool
    var handed: seq<Handed>

    function Tables(): State
      reads this
    {
      State(suppressions, subscriptions, notifications, configured, handed)
    }

    constructor (env: Env, start: State)
      ensures this.env == env && Tables() == start
    {
      this.env := env;
      suppressions, subscriptions, notifications := start.suppressions, start.subscriptions, start.notifications;
      configured, handed := start.configured, start.handed;
    }

    /** `suppress`; an empty address is a `TypeError`. */
    method SuppressAddress(address: string, reason: Reason, source: string) returns (ok: bool)
      modifies this`suppressions
      ensures Tables() == Step(env, old(Tables()), SuppressOp(address, reason, source))
      ensures ok <==> NormalizeAddress(env, address) != ""
    {
      var normalised := NormalizeAddress(env, address);
      if normalised == "" {
        return false;
      }
      var hash := HashAddress(env, normalised);
      if hash !in suppressions {
        suppressions := suppressions[hash := Suppression(reason, source)];
      }
      return true;
    }

    /** `lift`. */
    method LiftAddress(address: string) returns (removed: bool)
      modifies this`suppressions
      ensures Tables() == Step(env, old(Tables()), LiftOp(address))
      ensures removed <==> FindSuppression(env, old(suppressions), address).Some?
    {
      var hash := HashAddress(env, address);
      removed := hash in suppressions;
      suppressions := suppressions - {hash};
    }

    /** `sendEmail`, the one door to the provider; `broken` says that a look-up fails on the way to it. */
    method Send(to: string, subject: Subject, broken: bool) returns (outcome: Outcome)
      modifies this`handed
      ensures (Tables(), outcome) == SendEmail(env, old(Tables()), to, subject, broken)
    {
      if broken {
        return Threw;
      }
      if HashAddress(env, to) in suppressions {
        return SuppressedOutcome;
      }
      if !configured {
        return DryRunOutcome;
      }
      var answer := env.provider(|handed|);
      handed := handed + [Handed(to, subject, answer)];
      if answer.Throws? {
        return Threw;
      }
      if answer.id == "" {
        return NoProviderId;
      }
      return Delivered(answer.id);
    }

    /** `sendTransactional`. */
    method SendTransactional(to: string, kind: ReplyKind, reference: string, broken: bool) returns (outcome: Outcome)
      modifies this`handed
      ensures (Tables(), outcome) == SendEmail(env, old(Tables()), to, DisputeReply(kind, reference), broken)
    {
      outcome := Send(to, DisputeReply(kind, reference), broken);
    }

    /** The status update both list senders end a turn with. */
    method UpdateRows(ids: set<int>, status: Status)
      modifies this`notifications
      ensures Tables() == Record(env, old(Tables()), ids, status)
    {
      var sentAt := if status == Sent then Some(env.clock(|handed|)) else None;
      notifications := map n | n in notifications ::
        if n in ids then notifications[n].(status := status, sentAt := sentAt) else notifications[n];
    }

    /** One iteration of `sendDigest`. */
    method SendOneDigest(subscription: int, severities: set<Severity>, broken: bool) returns (outcome: Option<Outcome>)
      modifies this`handed, this`notifications
      ensures (Tables(), outcome) == DigestTurn(env, old(Tables()), subscription, severities, broken)
    {
      if broken {
        return Some(Threw);
      }
      var due := set n | n in notifications && notifications[n].subscription == subscription &&
                         notifications[n].status == Pending && notifications[n].severity in severities;
      assert due == Due(Tables(), subscription, severities);
      if due == {} || subscription !in subscriptions {
        return None;
      }
      var sent := Send(subscriptions[subscription].email, Digest(subscription, due), false);
      if sent.Threw? {
        return Some(sent);
      }
      UpdateRows(due, StatusFor(sent));
      return Some(sent);
    }

    /** `sendDigest`. */
    method SendDigest(ids: seq<int>, severities: set<Severity>, broken: set<nat>) returns (result: Tally)
      modifies this`handed, this`notifications
      ensures (Tables(), result) == DigestRun(env, old(Tables()), ids, severities, broken, |ids|)
    {
      var sent, failed, dryRun := 0, 0, 0;
      for k := 0 to |ids|
        invariant (Tables(), Tally(sent, failed, dryRun)) == DigestRun(env, old(Tables()), ids, severities, broken, k)
      {
        var outcome := SendOneDigest(ids[k], severities, k in broken);
        if outcome.Some? {
          if outcome.value.Threw? {
            failed := failed + 1;
          } else {
            var status := StatusFor(outcome.value);
            if status == Sent {
              sent := sent + 1;
            } else if status == DryRun {
              dryRun := dryRun + 1;
            } else {
              failed := failed + 1;
            }
          }
        }
      }
      result := Tally(sent, failed, dryRun);
    }

    /** One iteration of `sendImmediateAlerts`. */
    method SendOneAlert(n: int, broken: bool)
      modifies this`handed, this`notifications
      ensures Tables() == AlertTurn(env, old(Tables()), n, broken)
    {
      if n !in notifications || notifications[n].subscription !in subscriptions {
        return;
      }
      var outcome := Send(subscriptions[notifications[n].subscription].email, Alert(n), broken);
      if outcome.Threw? {
        notifications := notifications[n := notifications[n].(status := Failed)];
      } else {
        UpdateRows({n}, StatusFor(outcome));
      }
    }

    /** `sendImmediateAlerts`: the rows the query selects, each once, in whatever order it returns them. */
    method SendImmediateAlerts(wanted: set<int>, broken: set<nat>) returns (rows: seq<int>)
      modifies this`handed, this`notifications
      ensures Enumerates(rows, wanted * old(notifications).Keys)
      ensures Tables() == AlertRun(env, old(Tables()), rows, broken, |rows|)
    {
      rows := InSomeOrder(wanted * notifications.Keys);
      for k := 0 to |rows|
        invariant Tables() == AlertRun(env, old(Tables()), rows, broken, k)
      {
        SendOneAlert(rows[k], k in broken);
      }
    }
  }

  /** A listing of a set: every member once. */
  ghost predicate Enumerates(listed: seq<int>, s: set<int>) {
    && (forall x :: x in listed <==> x in s)
    && (forall j, k :: 0 <= j < k < |listed| ==> listed[j] != listed[k])
  }

  lemma EnumeratedAreIn(listed: seq<int>, s: set<int>)
    requires Enumerates(listed, s)
    ensures forall k :: 0 <= k < |listed| ==> listed[k] in s
  {
    forall k | 0 <= k < |listed| ensures listed[k] in s {
      var x := listed[k];
      assert x in listed;
    }
  }

  /** Rows in the order a query happens to return them. */
  method InSomeOrder(s: set<int>) returns (listed: seq<int>)
    ensures Enumerates(listed, s)
  {
    listed := [];
    var rest := s;
    while rest != {}
      invariant rest <= s && Enumerates(listed, s - rest)
      decreases rest
    {
      ghost var some := SomeMember(rest);
      assert some in rest;
      var x :| x in rest;
      listed, rest := listed + [x], rest - {x};
    }
  }

  class DigestScheduler {
    const service: EmailDeliveryService
    var lastDailyRun: Option<int>
    var lastWeeklyRun: Option<int>

    constructor (service: EmailDeliveryService)
      ensures this.service == service && lastDailyRun == None && lastWeeklyRun == None
    {
      this.service := service;
      lastDailyRun, lastWeeklyRun := None, None;
    }

    /** `getPendingSubscriptions`. */
    method GetPendingSubscriptions(severities: set<Severity>) returns (ids: seq<int>)
      ensures Enumerates(ids, PendingSubscriptions(service.Tables(), severities))
    {
      ids := InSomeOrder(PendingSubscriptions(service.Tables(), severities));
    }

    /** `runDailyDigest`: medium notifications of enabled, verified subscriptions. */
    method RunDailyDigest(now: int, broken: set<nat>) returns (result: Tally, ids: seq<int>)
      modifies this`lastDailyRun, service`handed, service`notifications
      ensures Enumerates(ids, PendingSubscriptions(old(service.Tables()), {Medium}))
      ensures (service.Tables(), result) == DigestRun(service.env, old(service.Tables()), ids, {Medium}, broken, |ids|)
      ensures lastDailyRun == Some(now)
    {
      ids := GetPendingSubscriptions({Medium});
      result := service.SendDigest(ids, {Medium}, broken);
      lastDailyRun := Some(now);
    }

    /** `runWeeklyDigest`: low notifications. */
    method RunWeeklyDigest(now: int, broken: set<nat>) returns (result: Tally, ids: seq<int>)
      modifies this`lastWeeklyRun, service`handed, service`notifications
      ensures Enumerates(ids, PendingSubscriptions(old(service.Tables()), {Low}))
      ensures (service.Tables(), result) == DigestRun(service.env, old(service.Tables()), ids, {Low}, broken, |ids|)
      ensures lastWeeklyRun == Some(now)
    {
      ids := GetPendingSubscriptions({Low});
      result := service.SendDigest(ids, {Low}, broken);
      lastWeeklyRun := Some(now);
    }
  }

  // ---- what a scheduled run reports -------------------------------------------------------

  lemma {:induction false} ListingSize(listed: seq<int>, s: set<int>)
    requires Enumerates(listed, s)
    ensures |listed| == |s|
  {
    if listed == [] {
      assert forall x :: x in s ==> x in listed;
      assert s == {};
    } else {
      var n := |listed| - 1;
      forall x ensures x in listed[..n] <==> x in s - {listed[n]} {
        assert listed == listed[..n] + [listed[n]];
      }
      ListingSize(listed[..n], s - {listed[n]});
    }
  }

  lemma {:induction false} FirstNumbers(s: set<nat>, n: nat)
    requires forall k: nat :: k in s <==> k < n
    ensures |s| == n
  {
    if n == 0 {
    } else {
      FirstNumbers(s - {n - 1}, n - 1);
    }
  }

  /** sent + failed + dryRun of a scheduled run is the number of subscriptions it was due to serve. */
  lemma ScheduledTotal(env: Env, st: State, ids: seq<int>, severities: set<Severity>, broken: set<nat>)
    requires Enumerates(ids, PendingSubscriptions(st, severities))
    ensures DigestRun(env, st, ids, severities, broken, |ids|).1.Total() == |PendingSubscriptions(st, severities)|
  {
    forall k | 0 <= k < |ids| ensures ids[k] in PendingSubscriptions(st, severities) {
      assert ids[k] in ids;
    }
    DigestLaws.DigestCounters(env, st, ids, severities, broken);
    hide DigestRun;
    FirstNumbers(DigestLaws.CountedTurns(env, st, ids, severities, broken, |ids|), |ids|);
    ListingSize(ids, PendingSubscriptions(st, severities));
  }
}
