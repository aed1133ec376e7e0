/** Whom a scheduled digest serves and whom it leaves alone (backend/src/services/digest-scheduler.ts,
    email-delivery.ts), and what a change of subscription has to do with it
    (backend/src/routes/subscriptions.ts). */
module ScheduledRuns {
  import opened DigestLaws
  import opened Mail
  import opened MailService
  import opened Options
  import opened Sequences

  /** The row waits for a digest of these severities. */
  predicate Waits(row: Notification, severities: set<Severity>) { row.status == Pending && row.severity in severities }

  /** The subscription exists, wants mail and is verified. */
  predicate Wanted(st: State, s: int) {
    s in st.subscriptions && st.subscriptions[s].enabled && st.subscriptions[s].verified
  }

  // ---- what a run leaves alone ------------------------------------------------------------------

  lemma {:induction false} RunLeavesOthers(env: Env, st: State, ids: seq<int>, severities: set<Severity>,
                                           broken: set<nat>, k: nat, n: int)
    requires k <= |ids| && n in st.notifications
    requires st.notifications[n].subscription !in ids[..k] || !Waits(st.notifications[n], severities)
    ensures n in Before(env, st, ids, severities, broken, k).notifications
    ensures Before(env, st, ids, severities, broken, k).notifications[n] == st.notifications[n]
  {
    hide DigestTurn;
    if k == 0 {
    } else {
      assert ids[..k] == ids[..k - 1] + [ids[k - 1]];
      RunLeavesOthers(env, st, ids, severities, broken, k - 1, n);
      TurnFrame(env, Before(env, st, ids, severities, broken, k - 1), ids[k - 1], severities, k - 1 in broken);
    }
  }

  /** A run changes nothing of a row but its status and timestamp, and no subscription. */
  lemma {:induction false} RunFrame(env: Env, st: State, ids: seq<int>, severities: set<Severity>, broken: set<nat>,
                                    k: nat)
    requires k <= |ids|
    ensures var after := Before(env, st, ids, severities, broken, k);
            && after.subscriptions == st.subscriptions && after.notifications.Keys == st.notifications.Keys
            && forall n :: n in st.notifications ==>
                 after.notifications[n] == st.notifications[n].(status := after.notifications[n].status,
                                                                sentAt := after.notifications[n].sentAt)
  {
    hide DigestTurn;
    if k == 0 {
    } else {
      RunFrame(env, st, ids, severities, broken, k - 1);
      TurnFrame(env, Before(env, st, ids, severities, broken, k - 1), ids[k - 1], severities, k - 1 in broken);
    }
  }

  // ---- who is written to --------------------------------------------------------------------------

  /** The message is a digest to one of these subscriptions, at its own address. */
  predicate DigestTo(st: State, ids: seq<int>, h: Handed) {
    h.subject.Digest? && h.subject.subscription in ids && h.subject.subscription in st.subscriptions &&
    h.to == st.subscriptions[h.subject.subscription].email
  }

  lemma TurnHands(env: Env, st: State, subscription: int, severities: set<Severity>, broken: bool)
    ensures var after := DigestTurn(env, st, subscription, severities, broken).0;
            after.handed == st.handed ||
            (|after.handed| == |st.handed| + 1 && st.handed <= after.handed &&
             DigestTo(st, [subscription], after.handed[|st.handed|]))
  {
    hide FindSuppression, Due;
  }

  lemma {:induction false} RunHands(env: Env, st: State, ids: seq<int>, severities: set<Severity>, broken: set<nat>,
                                    k: nat)
    requires k <= |ids|
    ensures var after := Before(env, st, ids, severities, broken, k);
            st.handed <= after.handed &&
            forall m :: |st.handed| <= m < |after.handed| ==> DigestTo(st, ids[..k], after.handed[m])
  {
    hide DigestTurn;
    if k == 0 {
    } else {
      assert ids[..k] == ids[..k - 1] + [ids[k - 1]];
      RunHands(env, st, ids, severities, broken, k - 1);
      RunFrame(env, st, ids, severities, broken, k - 1);
      TurnHands(env, Before(env, st, ids, severities, broken, k - 1), ids[k - 1], severities, k - 1 in broken);
    }
  }

  lemma SomethingIsDue(st: State, s: int, severities: set<Severity>)
    ensures Due(st, s, severities) != {} <==>
              exists m :: m in st.notifications && st.notifications[m].subscription == s &&
                          Waits(st.notifications[m], severities)
  {
    if m :| m in st.notifications && st.notifications[m].subscription == s && Waits(st.notifications[m], severities) {
      assert m in Due(st, s, severities);
    }
    if Due(st, s, severities) != {} {
      var m := SomeMember(Due(st, s, severities));
      assert Waits(st.notifications[m], severities);
    }
  }

  // ---- the main result ------------------------------------------------------------------------------

  /** A scheduled run serves exactly the enabled, verified subscriptions with a row that waits, and writes to
      no one else. Any row that does not wait, or is not theirs, stays as it is; one that is theirs waits on
      only if its subscription's turn threw. */
  lemma ScheduledRunServes(env: Env, st: State, ids: seq<int>, severities: set<Severity>, broken: set<nat>, n: int)
    requires Enumerates(ids, PendingSubscriptions(st, severities)) && n in st.notifications
    ensures forall s :: s in ids <==>
              Wanted(st, s) &&
              exists m :: m in st.notifications && st.notifications[m].subscription == s &&
                          Waits(st.notifications[m], severities)
    ensures var after, row := DigestRun(env, st, ids, severities, broken, |ids|).0, st.notifications[n];
            var served := Waits(row, severities) && Wanted(st, row.subscription);
            && (forall m :: |st.handed| <= m < |after.handed| ==>
                  DigestTo(st, ids, after.handed[m]) && Wanted(st, after.handed[m].subject.subscription))
            && n in after.notifications
            && (!served ==> after.notifications[n] == row)
            && (served && after.notifications[n].status == Pending ==>
                  exists k :: 0 <= k < |ids| && ids[k] == row.subscription &&
                              ThrowsAt(env, st, ids, severities, broken, k))
  {
    var row := st.notifications[n];
    ServedAre(st, ids, severities);
    assert ids[..|ids|] == ids;
    hide DigestRun, ThrowsAt, PendingSubscriptions;
    RunHands(env, st, ids, severities, broken, |ids|);
    if Waits(row, severities) && Wanted(st, row.subscription) {
      RunFrame(env, st, ids, severities, broken, |ids|);
      if Before(env, st, ids, severities, broken, |ids|).notifications[n].status == Pending {
        ServedWaitsOn(env, st, ids, severities, broken, n);
      }
    } else {
      RunLeavesOthers(env, st, ids, severities, broken, |ids|, n);
    }
  }

  lemma ServedAre(st: State, ids: seq<int>, severities: set<Severity>)
    requires Enumerates(ids, PendingSubscriptions(st, severities))
    ensures forall s :: s in ids <==>
              Wanted(st, s) &&
              exists m :: m in st.notifications && st.notifications[m].subscription == s &&
                          Waits(st.notifications[m], severities)
  {
    forall s
      ensures s in ids <==>
                Wanted(st, s) &&
                exists m :: m in st.notifications && st.notifications[m].subscription == s &&
                            Waits(st.notifications[m], severities)
    {
      assert s in ids <==> s in PendingSubscriptions(st, severities);
      SomethingIsDue(st, s, severities);
    }
  }

  lemma ServedWaitsOn(env: Env, st: State, ids: seq<int>, severities: set<Severity>, broken: set<nat>, n: int)
    requires n in st.notifications && st.notifications[n].subscription in ids
    requires n in Before(env, st, ids, severities, broken, |ids|).notifications
    requires var row := Before(env, st, ids, severities, broken, |ids|).notifications[n];
             row.subscription == st.notifications[n].subscription && Waits(row, severities)
    requires Before(env, st, ids, severities, broken, |ids|).subscriptions == st.subscriptions
    requires st.notifications[n].subscription in st.subscriptions
    ensures exists k :: 0 <= k < |ids| && ids[k] == st.notifications[n].subscription &&
                        ThrowsAt(env, st, ids, severities, broken, k)
  {
    hide ThrowsAt, DigestRun;
    var s, after := st.notifications[n].subscription, Before(env, st, ids, severities, broken, |ids|);
    OwedAtTurn(env, st, ids, severities, broken, |ids|, s);
    assert n in Owed(after, s, severities);
    var k :| 0 <= k < |ids| && ids[k] == s;
    assert ThrowsAt(env, st, ids, severities, broken, k);
  }

  // ---- changes of subscription -------------------------------------------------------------------------

  lemma UnsubscribedIsLeftAlone(env: Env, st: State, s: int, digestOnly: bool, severities: set<Severity>,
                                flag: Severity)
    requires s in st.subscriptions
    ensures var off := Step(env, st, PreferOp(s, false, digestOnly));
            && s in off.subscriptions && s !in PendingSubscriptions(off, severities)
            && InitialStatus(off.subscriptions[s], flag) == Skipped
            && (forall o :: o in st.subscriptions && o != s ==>
                  o in off.subscriptions && off.subscriptions[o] == st.subscriptions[o])
  {
    hide Due;
    assert Step(env, st, PreferOp(s, false, digestOnly)) == Prefer(st, s, false, digestOnly);
  }

  /** Whoever unsubscribes is served by no scheduled run and has new rows skipped, whatever waits; whoever is
      new waits for verification; and verified and enabled, a subscription is served exactly when something
      of its own waits. */
  lemma SubscriberChanges(env: Env, st: State, s: int, digestOnly: bool, severities: set<Severity>, flag: Severity)
    requires s in st.subscriptions
    ensures var off := Step(env, st, PreferOp(s, false, digestOnly));
            && s in off.subscriptions && s !in PendingSubscriptions(off, severities)
            && InitialStatus(off.subscriptions[s], flag) == Skipped
            && (forall o :: o in st.subscriptions && o != s ==>
                  o in off.subscriptions && off.subscriptions[o] == st.subscriptions[o])
    ensures var on := Step(env, Step(env, st, VerifyOp(s)), PreferOp(s, true, digestOnly));
            && s in on.subscriptions && on.subscriptions[s].email == st.subscriptions[s].email
            && on.subscriptions[s].digestOnly == digestOnly
            && (s in PendingSubscriptions(on, severities) <==>
                  exists n :: n in st.notifications && st.notifications[n].subscription == s &&
                              Waits(st.notifications[n], severities))
  {
    UnsubscribedIsLeftAlone(env, st, s, digestOnly, severities, flag);
    var on := Step(env, Step(env, st, VerifyOp(s)), PreferOp(s, true, digestOnly));
    assert on == Prefer(Verify(st, s), s, true, digestOnly);
    hide Step;
    SomethingIsDue(on, s, severities);
  }

  /** Some subscription has the address in the jurisdiction. */
  ghost predicate HasPlace(st: State, s: int, email: string, jurisdiction: int) {
    s in st.subscriptions && st.subscriptions[s].email == email && st.subscriptions[s].jurisdiction == jurisdiction
  }

  lemma PlaceIsTaken(st: State, email: string, jurisdiction: int)
    ensures Subscribed(st, email, jurisdiction) <==> exists s :: HasPlace(st, s, email, jurisdiction)
  {
    if Subscribed(st, email, jurisdiction) {
      var s :| s in st.subscriptions && st.subscriptions[s].email == email &&
               st.subscriptions[s].jurisdiction == jurisdiction;
      assert HasPlace(st, s, email, jurisdiction);
    }
  }

  /** A new subscription is entered once per address and jurisdiction, as asked for and unverified. */
  lemma SubscribedOnce(env: Env, st: State, id: int, email: string, jurisdiction: int, enabled: bool, digestOnly: bool,
                       severities: set<Severity>)
    requires id !in st.subscriptions
    ensures var after := Step(env, st, SubscribeOp(id, email, jurisdiction, enabled, digestOnly));
            after.notifications == st.notifications && id !in PendingSubscriptions(after, severities)
    ensures (exists s :: HasPlace(st, s, email, jurisdiction)) ==>
              Step(env, st, SubscribeOp(id, email, jurisdiction, enabled, digestOnly)) == st
    ensures (forall s :: !HasPlace(st, s, email, jurisdiction)) ==>
              Step(env, st, SubscribeOp(id, email, jurisdiction, enabled, digestOnly)).subscriptions ==
              st.subscriptions[id := Subscription(email, jurisdiction, enabled, digestOnly, false)]
  {
    hide Due, Subscribed, HasPlace;
    PlaceIsTaken(st, email, jurisdiction);
  }
}
