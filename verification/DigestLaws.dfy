/** What a digest run reports, and what its rows say afterwards (backend/src/services/email-delivery.ts). */
module DigestLaws {
  import opened Mail
  import opened Options
  import Text

  // ---- the counters ---------------------------------------------------------------------------

  /** The tables when the k-th subscription's turn comes. */
  function Before(env: Env, st: State, ids: seq<int>, severities: set<Severity>, broken: set<nat>, k: nat): State
    requires k <= |ids|
  {
    DigestRun(env, st, ids, severities, broken, k).0
  }

  /** What a digest to a subscription that is still there would cover. */
  function Owed(st: State, subscription: int, severities: set<Severity>): set<int> {
    if subscription in st.subscriptions then Due(st, subscription, severities) else {}
  }

  predicate TurnThrows(env: Env, st: State, subscription: int, severities: set<Severity>, broken: bool) {
    DigestTurn(env, st, subscription, severities, broken).1 == Some(Threw)
  }

  /** Turn `k` throws. */
  predicate ThrowsAt(env: Env, st: State, ids: seq<int>, severities: set<Severity>, broken: set<nat>, k: nat)
    requires k < |ids|
  {
    TurnThrows(env, Before(env, st, ids, severities, broken, k), ids[k], severities, k in broken)
  }

  /** Turn `k` throws before it knows what is due, or has something to send. */
  predicate CountsAt(env: Env, st: State, ids: seq<int>, severities: set<Severity>, broken: set<nat>, k: nat)
    requires k < |ids|
  {
    k in broken || Owed(Before(env, st, ids, severities, broken, k), ids[k], severities) != {}
  }

  ghost function CountedTurns(env: Env, st: State, ids: seq<int>, severities: set<Severity>, broken: set<nat>,
                              n: nat): set<nat>
    requires n <= |ids|
  {
    set k: nat | k < n && CountsAt(env, st, ids, severities, broken, k)
  }

  lemma TurnFrame(env: Env, st: State, subscription: int, severities: set<Severity>, broken: bool)
    ensures var after := DigestTurn(env, st, subscription, severities, broken).0;
            var due := Due(st, subscription, severities);
            && after.subscriptions == st.subscriptions && after.notifications.Keys == st.notifications.Keys
            && (forall n :: n in st.notifications ==>
                  after.notifications[n] ==
                  st.notifications[n].(status := after.notifications[n].status,
                                       sentAt := after.notifications[n].sentAt))
            && (forall n :: n in st.notifications && n !in due ==> after.notifications[n] == st.notifications[n])
  {
    hide FindSuppression;
  }

  lemma TurnSettles(env: Env, st: State, subscription: int, severities: set<Severity>, broken: bool)
    requires subscription in st.subscriptions
    ensures var after := DigestTurn(env, st, subscription, severities, broken).0;
            var due := Due(st, subscription, severities);
            if TurnThrows(env, st, subscription, severities, broken) then
              after.notifications == st.notifications
            else
              forall n :: n in due ==> n in after.notifications && after.notifications[n].status != Pending
  {
    hide FindSuppression;
  }

  /** A turn leaves every other subscription's pending rows alone, and its own only if it threw. */
  lemma TurnEmptiesOwed(env: Env, st: State, subscription: int, severities: set<Severity>, broken: bool, other: int)
    ensures Owed(DigestTurn(env, st, subscription, severities, broken).0, other, severities) ==
            (if other == subscription && !TurnThrows(env, st, subscription, severities, broken) then {}
             else Owed(st, other, severities))
  {
    TurnFrame(env, st, subscription, severities, broken);
    if subscription in st.subscriptions {
      TurnSettles(env, st, subscription, severities, broken);
    }
    hide DigestTurn, TurnThrows;
  }

  /** What is owed at a turn is what was owed at the start, unless an earlier turn of the same subscription
      got through without throwing. */
  lemma {:induction false} OwedAtTurn(env: Env, st: State, ids: seq<int>, severities: set<Severity>, broken: set<nat>,
                                      k: nat, subscription: int)
    requires k <= |ids|
    ensures Owed(Before(env, st, ids, severities, broken, k), subscription, severities) ==
            (if forall j: nat :: j < k && ids[j] == subscription ==> ThrowsAt(env, st, ids, severities, broken, j)
             then Owed(st, subscription, severities) else {})
  {
    hide DigestTurn, TurnThrows, Owed;
    if k == 0 {
    } else {
      OwedAtTurn(env, st, ids, severities, broken, k - 1, subscription);
      TurnEmptiesOwed(env, Before(env, st, ids, severities, broken, k - 1), ids[k - 1], severities, k - 1 in broken,
                      subscription);
      assert ids[k - 1] == subscription ==>
        (ThrowsAt(env, st, ids, severities, broken, k - 1) <==>
         TurnThrows(env, Before(env, st, ids, severities, broken, k - 1), ids[k - 1], severities, k - 1 in broken));
    }
  }

  lemma TurnsStep(env: Env, st: State, ids: seq<int>, severities: set<Severity>, broken: set<nat>, n: nat)
    requires n < |ids|
    ensures |CountedTurns(env, st, ids, severities, broken, n + 1)| ==
            |CountedTurns(env, st, ids, severities, broken, n)| +
            (if CountsAt(env, st, ids, severities, broken, n) then 1 else 0)
  {
    hide CountsAt;
    assert CountedTurns(env, st, ids, severities, broken, n + 1) ==
           CountedTurns(env, st, ids, severities, broken, n) +
           (if CountsAt(env, st, ids, severities, broken, n) then {n} else {});
  }

  lemma CountAddsOne(tally: Tally, outcome: Option<Outcome>)
    ensures Count(tally, outcome).Total() == tally.Total() + (if outcome.Some? then 1 else 0)
  {
  }

  lemma TurnHasOutcome(env: Env, st: State, subscription: int, severities: set<Severity>, broken: bool)
    ensures DigestTurn(env, st, subscription, severities, broken).1.Some? <==>
            broken || Owed(st, subscription, severities) != {}
  {
    hide SendEmail;
  }

  lemma {:induction false} TallyCountsTurns(env: Env, st: State, ids: seq<int>, severities: set<Severity>,
                                            broken: set<nat>, n: nat)
    requires n <= |ids|
    ensures DigestRun(env, st, ids, severities, broken, n).1.Total() ==
            |CountedTurns(env, st, ids, severities, broken, n)|
  {
    hide DigestTurn, Owed, CountedTurns;
    if n == 0 {
      assert CountedTurns(env, st, ids, severities, broken, 0) == {} by {
        NoTurnsYet(env, st, ids, severities, broken);
      }
    } else {
      TallyCountsTurns(env, st, ids, severities, broken, n - 1);
      TurnsStep(env, st, ids, severities, broken, n - 1);
      var (before, tally) := DigestRun(env, st, ids, severities, broken, n - 1);
      TurnHasOutcome(env, before, ids[n - 1], severities, n - 1 in broken);
      CountAddsOne(tally, DigestTurn(env, before, ids[n - 1], severities, n - 1 in broken).1);
      hide Count;
    }
  }

  lemma NoTurnsYet(env: Env, st: State, ids: seq<int>, severities: set<Severity>, broken: set<nat>)
    ensures CountedTurns(env, st, ids, severities, broken, 0) == {}
  {
  }

  /** sent + failed + dryRun is the number of turns that threw before they knew what was due, or had
      something to send: matching rows pending when the run started, and every earlier turn of the same
      subscription, if its id is repeated, thrown. */
  lemma DigestCounters(env: Env, st: State, ids: seq<int>, severities: set<Severity>, broken: set<nat>)
    ensures DigestRun(env, st, ids, severities, broken, |ids|).1.Total() ==
            |CountedTurns(env, st, ids, severities, broken, |ids|)|
    ensures forall k: nat :: k < |ids| ==>
              (k in CountedTurns(env, st, ids, severities, broken, |ids|) <==>
                 k in broken ||
                 (Owed(st, ids[k], severities) != {} &&
                  forall j: nat :: j < k && ids[j] == ids[k] ==> ThrowsAt(env, st, ids, severities, broken, j)))
  {
    TallyCountsTurns(env, st, ids, severities, broken, |ids|);
    forall k: nat | k < |ids|
      ensures k in CountedTurns(env, st, ids, severities, broken, |ids|) <==>
                k in broken ||
                (Owed(st, ids[k], severities) != {} &&
                 forall j: nat :: j < k && ids[j] == ids[k] ==> ThrowsAt(env, st, ids, severities, broken, j))
    {
      hide DigestRun, Owed, ThrowsAt;
      OwedAtTurn(env, st, ids, severities, broken, k, ids[k]);
    }
  }

  // ---- what comes of one message ------------------------------------------------------------------

  /** The address, in any spelling, is on the suppression list. */
  predicate Listed(env: Env, st: State, email: string) { env.digest(env.lower(Text.Trim(email))) in st.suppressions }

  /** A message to the address would be handed over. */
  predicate GoesOut(env: Env, st: State, email: string) { !Listed(env, st, email) && st.configured }

  /** The answer the provider gives to the next message. */
  function NextAnswer(env: Env, st: State): Answer { env.provider(|st.handed|) }

  // ---- the counters one by one ------------------------------------------------------------------------

  /** Turn `k` has something to send, to this address. */
  predicate SendsAt(env: Env, st: State, ids: seq<int>, severities: set<Severity>, broken: set<nat>, k: nat)
    requires k < |ids|
  {
    k !in broken && Owed(Before(env, st, ids, severities, broken, k), ids[k], severities) != {}
  }

  /** Turn `k` gets a message accepted: the address is not suppressed, there is a provider, and it answers
      with an id. */
  predicate AcceptedAt(env: Env, st: State, ids: seq<int>, severities: set<Severity>, broken: set<nat>, k: nat)
    requires k < |ids|
  {
    SendsAt(env, st, ids, severities, broken, k) &&
    TurnAccepted(env, Before(env, st, ids, severities, broken, k), ids[k])
  }

  predicate TurnAccepted(env: Env, now: State, subscription: int) {
    subscription in now.subscriptions && GoesOut(env, now, now.subscriptions[subscription].email) &&
    NextAnswer(env, now).Answered? && NextAnswer(env, now).id != ""
  }

  /** Turn `k` is a dry run: the address is not suppressed and there is no provider. */
  predicate DryAt(env: Env, st: State, ids: seq<int>, severities: set<Severity>, broken: set<nat>, k: nat)
    requires k < |ids|
  {
    SendsAt(env, st, ids, severities, broken, k) &&
    TurnDry(env, Before(env, st, ids, severities, broken, k), ids[k])
  }

  predicate TurnDry(env: Env, now: State, subscription: int) {
    subscription in now.subscriptions && !Listed(env, now, now.subscriptions[subscription].email) && !now.configured
  }

  ghost function AcceptedTurns(env: Env, st: State, ids: seq<int>, severities: set<Severity>, broken: set<nat>,
                               n: nat): set<nat>
    requires n <= |ids|
  {
    set k: nat | k < n && AcceptedAt(env, st, ids, severities, broken, k)
  }

  ghost function DryTurns(env: Env, st: State, ids: seq<int>, severities: set<Severity>, broken: set<nat>, n: nat)
    : set<nat>
    requires n <= |ids|
  {
    set k: nat | k < n && DryAt(env, st, ids, severities, broken, k)
  }

  lemma CountEach(tally: Tally, outcome: Option<Outcome>)
    ensures Count(tally, outcome).sent == tally.sent + (if outcome.Some? && outcome.value.Delivered? then 1 else 0)
    ensures Count(tally, outcome).dryRun == tally.dryRun + (if outcome == Some(DryRunOutcome) then 1 else 0)
  {
  }

  lemma TurnOutcome(env: Env, st: State, subscription: int, severities: set<Severity>, broken: bool)
    ensures var outcome, sends := DigestTurn(env, st, subscription, severities, broken).1,
                                  !broken && Owed(st, subscription, severities) != {};
            && (outcome.Some? && outcome.value.Delivered? <==> sends && TurnAccepted(env, st, subscription))
            && (outcome == Some(DryRunOutcome) <==> sends && TurnDry(env, st, subscription))
  {
    hide Text.Trim, Due;
  }

  lemma AcceptedStep(env: Env, st: State, ids: seq<int>, severities: set<Severity>, broken: set<nat>, n: nat)
    requires n < |ids|
    ensures |AcceptedTurns(env, st, ids, severities, broken, n + 1)| ==
            |AcceptedTurns(env, st, ids, severities, broken, n)| +
            (if AcceptedAt(env, st, ids, severities, broken, n) then 1 else 0)
  {
    hide AcceptedAt;
    assert AcceptedTurns(env, st, ids, severities, broken, n + 1) ==
           AcceptedTurns(env, st, ids, severities, broken, n) +
           (if AcceptedAt(env, st, ids, severities, broken, n) then {n} else {});
  }

  lemma DryStep(env: Env, st: State, ids: seq<int>, severities: set<Severity>, broken: set<nat>, n: nat)
    requires n < |ids|
    ensures |DryTurns(env, st, ids, severities, broken, n + 1)| ==
            |DryTurns(env, st, ids, severities, broken, n)| +
            (if DryAt(env, st, ids, severities, broken, n) then 1 else 0)
  {
    hide DryAt;
    assert DryTurns(env, st, ids, severities, broken, n + 1) ==
           DryTurns(env, st, ids, severities, broken, n) +
           (if DryAt(env, st, ids, severities, broken, n) then {n} else {});
  }

  lemma NoneAcceptedYet(env: Env, st: State, ids: seq<int>, severities: set<Severity>, broken: set<nat>)
    ensures AcceptedTurns(env, st, ids, severities, broken, 0) == {} == DryTurns(env, st, ids, severities, broken, 0)
    ensures DigestRun(env, st, ids, severities, broken, 0).1 == Tally(0, 0, 0)
  {
  }

  lemma CountersStep(env: Env, st: State, ids: seq<int>, severities: set<Severity>, broken: set<nat>, n: nat)
    requires n < |ids|
    ensures var tally := DigestRun(env, st, ids, severities, broken, n).1;
            var next := DigestRun(env, st, ids, severities, broken, n + 1).1;
            && next.sent == tally.sent + (if AcceptedAt(env, st, ids, severities, broken, n) then 1 else 0)
            && next.dryRun == tally.dryRun + (if DryAt(env, st, ids, severities, broken, n) then 1 else 0)
  {
    hide DigestTurn, Owed, TurnAccepted, TurnDry, Count;
    var (before, tally) := DigestRun(env, st, ids, severities, broken, n);
    TurnOutcome(env, before, ids[n], severities, n in broken);
    CountEach(tally, DigestTurn(env, before, ids[n], severities, n in broken).1);
  }

  /** `sent` is the number of turns with an accepted message, `dryRun` that of turns that had one and no
      provider; the other turns counted by `DigestCounters` have failed. */
  lemma {:induction false} DigestTallies(env: Env, st: State, ids: seq<int>, severities: set<Severity>,
                                         broken: set<nat>, n: nat)
    requires n <= |ids|
    ensures var tally := DigestRun(env, st, ids, severities, broken, n).1;
            && tally.sent == |AcceptedTurns(env, st, ids, severities, broken, n)|
            && tally.dryRun == |DryTurns(env, st, ids, severities, broken, n)|
            && tally.sent + tally.failed + tally.dryRun == |CountedTurns(env, st, ids, severities, broken, n)|
  {
    hide DigestRun, AcceptedTurns, DryTurns, CountedTurns, AcceptedAt, DryAt;
    TallyCountsTurns(env, st, ids, severities, broken, n);
    if n == 0 {
      NoneAcceptedYet(env, st, ids, severities, broken);
    } else {
      DigestTallies(env, st, ids, severities, broken, n - 1);
      AcceptedStep(env, st, ids, severities, broken, n - 1);
      DryStep(env, st, ids, severities, broken, n - 1);
      CountersStep(env, st, ids, severities, broken, n - 1);
    }
  }

  // ---- what a row says ------------------------------------------------------------------------------

  /** What becomes of the rows a digest covers. */
  function Fate(env: Env, st: State, email: string, broken: bool): Status {
    if broken then Pending
    else if Listed(env, st, email) then Skipped
    else if !st.configured then DryRun
    else match NextAnswer(env, st)
         case Throws => Pending
         case Answered(id) => if id == "" then Failed else Sent
  }

  /** After a digest turn each row that was due, pending and of the right severity, says what became of its
      message: suppressed rows are skipped, and only they, dry runs and broken turns were not handed over; a
      throw leaves rows pending; one that was sent has the time of the answer, and no other does. No other
      row is touched. */
  lemma RowsTellFate(env: Env, st: State, subscription: int, severities: set<Severity>, broken: bool, n: int)
    requires Owed(st, subscription, severities) != {} && n in st.notifications
    ensures var after := DigestTurn(env, st, subscription, severities, broken).0;
            var email, row := st.subscriptions[subscription].email, st.notifications[n];
            var fate, due := Fate(env, st, email, broken),
                             row.subscription == subscription && row.status == Pending && row.severity in severities;
            && n in after.notifications
            && (!due || fate == Pending ==> after.notifications[n] == row)
            && (due && fate != Pending ==>
                  after.notifications[n] ==
                  row.(status := fate, sentAt := if fate == Sent then Some(env.clock(|st.handed| + 1)) else None))
            && (if broken || !GoesOut(env, st, email) then after.handed == st.handed
                else after.handed ==
                     st.handed + [Handed(email, Digest(subscription, Due(st, subscription, severities)),
                                         NextAnswer(env, st))])
            && (due <==> n in Due(st, subscription, severities))
  {
    hide Text.Trim;
  }

  // ---- what an alert comes to --------------------------------------------------------------------------

  /** An alert hands one message to the row's subscriber, unless its address is suppressed, there is no
      provider or a look-up fails, and the row says what came of it; a throw fails the row and leaves its
      timestamp. No other row is touched. */
  lemma AlertTellsFate(env: Env, st: State, n: int, broken: bool)
    requires n in st.notifications && st.notifications[n].subscription in st.subscriptions
    ensures var after, row := AlertTurn(env, st, n, broken), st.notifications[n];
            var email := st.subscriptions[row.subscription].email;
            var out := !broken && GoesOut(env, st, email);
            && after.notifications.Keys == st.notifications.Keys
            && (forall m :: m in st.notifications && m != n ==> after.notifications[m] == st.notifications[m])
            && after.handed == (if out then st.handed + [Handed(email, Alert(n), NextAnswer(env, st))] else st.handed)
            && after == st.(notifications := after.notifications, handed := after.handed)
            && after.notifications[n] ==
               (if broken || (out && NextAnswer(env, st).Throws?) then row.(status := Failed)
                else if Listed(env, st, email) then row.(status := Skipped, sentAt := None)
                else if !st.configured then row.(status := DryRun, sentAt := None)
                else if NextAnswer(env, st).id == "" then row.(status := Failed, sentAt := None)
                else row.(status := Sent, sentAt := Some(env.clock(|st.handed| + 1))))
  {
    hide Text.Trim;
  }
}
