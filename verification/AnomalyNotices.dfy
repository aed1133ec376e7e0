/** New findings: the rows they add and the alerts that follow (backend/src/services/notification.ts). */
module AnomalyNotices {
  import opened Mail
  import opened MailService
  import opened Options

  datatype Flag = Flag(id: int, severity: Severity)

  /** A row of `anomaly_flags`, as far as the event looks at it. */
  datatype FlagRow = FlagRow(meeting: int, flagType: string, severity: Severity, published: bool)

  /** A subscription and what the event read of it. */
  datatype Subscriber = Subscriber(id: int, seen: Subscription)

  // ---- what an event reads --------------------------------------------------------------------

  function VerifiedIn(st: State, jurisdiction: int): set<int> {
    set s | s in st.subscriptions && st.subscriptions[s].verified && st.subscriptions[s].jurisdiction == jurisdiction
  }

  function PublishedOf(flags: map<int, FlagRow>, meeting: int, types: set<string>): set<int> {
    set f | f in flags && flags[f].meeting == meeting && flags[f].flagType in types && flags[f].published
  }

  lemma VerifiedAre(st: State, jurisdiction: int)
    ensures VerifiedIn(st, jurisdiction) ==
            set s | s in st.subscriptions && st.subscriptions[s].verified &&
                    st.subscriptions[s].jurisdiction == jurisdiction
  {
  }

  lemma PublishedAre(flags: map<int, FlagRow>, meeting: int, types: set<string>)
    ensures PublishedOf(flags, meeting, types) ==
            set f | f in flags && flags[f].meeting == meeting && flags[f].flagType in types && flags[f].published
  {
  }

  function SubscribersOf(st: State, ids: seq<int>): seq<Subscriber>
    requires forall k :: 0 <= k < |ids| ==> ids[k] in st.subscriptions
  {
    seq(|ids|, k requires 0 <= k < |ids| => Subscriber(ids[k], st.subscriptions[ids[k]]))
  }

  function FlagsOf(flags: map<int, FlagRow>, ids: seq<int>): seq<Flag>
    requires forall k :: 0 <= k < |ids| ==> ids[k] in flags
  {
    seq(|ids|, k requires 0 <= k < |ids| => Flag(ids[k], flags[ids[k]].severity))
  }

  // ---- what it inserts --------------------------------------------------------------------------

  function InsertOf(id: int, subscriber: Subscriber, flag: Flag): Op {
    NotifyOp(id, subscriber.id, subscriber.seen, flag.id, flag.severity)
  }

  /** The first `m` subscriptions' inserts for one flag, after those in `ops`; the k-th insert of all takes
      the k-th new id. */
  function WithFlag(ops: seq<Op>, flag: Flag, subscribers: seq<Subscriber>, newId: nat -> int, m: nat): seq<Op>
    requires m <= |subscribers|
  {
    if m == 0 then ops
    else
      var before := WithFlag(ops, flag, subscribers, newId, m - 1);
      before + [InsertOf(newId(|before|), subscribers[m - 1], flag)]
  }

  /** The inserts of one event: every subscription of every flag. */
  function Inserts(flags: seq<Flag>, subscribers: seq<Subscriber>, newId: nat -> int, f: nat): seq<Op>
    requires f <= |flags|
  {
    if f == 0 then []
    else WithFlag(Inserts(flags, subscribers, newId, f - 1), flags[f - 1], subscribers, newId, |subscribers|)
  }

  /** The rows added, between two states, that are to go out at once. */
  function NewlyQueued(before: State, after: State): set<int> {
    set n | n in after.notifications && n !in before.notifications && after.notifications[n].status == Queued
  }

  ghost predicate OnlyNotifies(ops: seq<Op>) { forall k :: 0 <= k < |ops| ==> ops[k].NotifyOp? }

  /** The loop's state: the inserts so far have been made, and `ids` collects what they queued. */
  ghost predicate Inserted(env: Env, start: State, now: State, ops: seq<Op>, ids: set<int>) {
    OnlyNotifies(ops) && now == RunOps(env, start, ops) && start.notifications.Keys <= now.notifications.Keys &&
    ids == NewlyQueued(start, now)
  }

  /** Whether an insert added a row that is to go out at once. */
  predicate Queues(before: State, after: State, id: int) {
    id !in before.notifications && id in after.notifications && after.notifications[id].status == Queued
  }

  lemma InsertedMore(env: Env, start: State, now: State, ops: seq<Op>, ids: set<int>, op: Op)
    requires Inserted(env, start, now, ops, ids) && op.NotifyOp?
    ensures var after := Step(env, now, op);
            Inserted(env, start, after, ops + [op], if Queues(now, after, op.id) then ids + {op.id} else ids)
  {
    var after := Step(env, now, op);
    assert (ops + [op])[..|ops|] == ops;
    assert RunOps(env, start, ops + [op]) == after;
    hide RunOps, InitialStatus, Notified;
  }

  class NotificationService {
    const service: EmailDeliveryService
    var jurisdictions: map<int, int>
    var flagRows: map<int, FlagRow>

    constructor (service: EmailDeliveryService, jurisdictions: map<int, int>, flagRows: map<int, FlagRow>)
      ensures this.service == service && this.jurisdictions == jurisdictions && this.flagRows == flagRows
    {
      this.service, this.jurisdictions, this.flagRows := service, jurisdictions, flagRows;
    }

    /** One insert, ignored on conflict; answers whether the row is new and to go out at once. */
    method InsertNotification(id: int, subscriber: Subscriber, flag: Flag) returns (queued: bool)
      modifies service`notifications
      ensures service.Tables() == Step(service.env, old(service.Tables()), InsertOf(id, subscriber, flag))
      ensures queued <==> Queues(old(service.Tables()), service.Tables(), id)
    {
      queued := false;
      var subscription, sub := subscriber.id, subscriber.seen;
      var emailStatus := Pending;
      if !sub.enabled {
        emailStatus := Skipped;
      } else if sub.digestOnly && !IsImmediate(flag.severity) {
        emailStatus := Pending;
      } else if IsImmediate(flag.severity) {
        emailStatus := Queued;
      }
      if id !in service.notifications && subscription in service.subscriptions {
        if !Notified(service.Tables(), subscription, flag.id) {
          service.notifications :=
            service.notifications[id := Notification(subscription, flag.id, flag.severity, emailStatus, None)];
          queued := emailStatus == Queued;
        }
      }
    }

    /** The inserts of `processAnomalyEvent`: a row for each subscription and flag. */
    method InsertAll(flags: seq<Flag>, subscribers: seq<Subscriber>, newId: nat -> int) returns (ids: set<int>)
      modifies service`notifications
      ensures service.Tables() ==
              RunOps(service.env, old(service.Tables()), Inserts(flags, subscribers, newId, |flags|))
      ensures ids == NewlyQueued(old(service.Tables()), service.Tables())
    {
      ghost var start := service.Tables();
      ids := {};
      var count := 0;
      ghost var ops: seq<Op> := [];
      for f := 0 to |flags|
        invariant Inserted(service.env, start, service.Tables(), ops, ids)
        invariant ops == Inserts(flags, subscribers, newId, f) && count == |ops|
      {
        ghost var before := ops;
        for m := 0 to |subscribers|
          invariant Inserted(service.env, start, service.Tables(), ops, ids)
          invariant ops == WithFlag(before, flags[f], subscribers, newId, m) && count == |ops|
        {
          ghost var op := InsertOf(newId(count), subscribers[m], flags[f]);
          InsertedMore(service.env, start, service.Tables(), ops, ids, op);
          var queued := InsertNotification(newId(count), subscribers[m], flags[f]);
          if queued {
            ids := ids + {newId(count)};
          }
          count, ops := count + 1, ops + [op];
        }
      }
    }

    /** `processAnomalyEvent`: for the published flags of these types on the meeting, and the verified
        subscriptions of its jurisdiction, it inserts a row for each pair and alerts exactly the rows it
        queued, each once, in whatever order the queries return them. */
    method ProcessAnomalyEvent(meeting: int, types: set<string>, newId: nat -> int, broken: set<nat>)
      returns (subscriberIds: seq<int>, flagIds: seq<int>, rows: seq<int>)
      modifies service`handed, service`notifications
      ensures meeting !in jurisdictions ==> subscriberIds == []
      ensures meeting in jurisdictions ==>
                Enumerates(subscriberIds, set s | s in old(service.subscriptions) &&
                                                  old(service.subscriptions)[s].verified &&
                                                  old(service.subscriptions)[s].jurisdiction == jurisdictions[meeting])
      ensures subscriberIds != [] ==>
                Enumerates(flagIds, set f | f in flagRows && flagRows[f].meeting == meeting &&
                                            flagRows[f].flagType in types && flagRows[f].published)
      ensures forall k :: 0 <= k < |subscriberIds| ==> subscriberIds[k] in old(service.Tables()).subscriptions
      ensures forall k :: 0 <= k < |flagIds| ==> flagIds[k] in flagRows
      ensures var before, env := old(service.Tables()), service.env;
              var flags, subscribers := FlagsOf(flagRows, flagIds), SubscribersOf(before, subscriberIds);
              var inserted := RunOps(env, before, Inserts(flags, subscribers, newId, |flags|));
              && Enumerates(rows, NewlyQueued(before, inserted))
              && service.Tables() == AlertRun(env, inserted, rows, broken, |rows|)
    {
      subscriberIds, flagIds, rows := [], [], [];
      if meeting !in jurisdictions {
        return;
      }
      subscriberIds := InSomeOrder(VerifiedIn(service.Tables(), jurisdictions[meeting]));
      EnumeratedAreIn(subscriberIds, VerifiedIn(service.Tables(), jurisdictions[meeting]));
      VerifiedAre(service.Tables(), jurisdictions[meeting]);
      if |subscriberIds| == 0 {
        return;
      }
      flagIds := InSomeOrder(PublishedOf(flagRows, meeting, types));
      EnumeratedAreIn(flagIds, PublishedOf(flagRows, meeting, types));
      PublishedAre(flagRows, meeting, types);
      var ids := InsertAll(FlagsOf(flagRows, flagIds), SubscribersOf(service.Tables(), subscriberIds), newId);
      if |ids| > 0 {
        ghost var known := service.notifications.Keys;
        rows := service.SendImmediateAlerts(ids, broken);
        assert ids * known == ids;
      } else {
        assert forall n :: n !in ids;
      }
    }
  }
}
