/** What holds over every run of the mail senders: a suppressed address is written to by none of them
    (backend/src/services/email-suppression.ts, email-delivery.ts). */
module MailLaws {
  import Text
  import opened Mail
  import opened Options

  ghost predicate Folding(env: Env) { Text.CaseFolding(env.lower) }

  // ---- suppression ---------------------------------------------------------------------

  /** Normalising twice is normalising once, which `suppress` relies on. */
  lemma NormalizeIdempotent(env: Env, address: string)
    requires Folding(env)
    ensures NormalizeAddress(env, NormalizeAddress(env, address)) == NormalizeAddress(env, address)
    ensures HashAddress(env, NormalizeAddress(env, address)) == HashAddress(env, address)
  {
    Text.TrimTrims(address);
    var once := NormalizeAddress(env, address);
    assert Text.Trimmed(once);
    assert Text.Trim(once) == once;
  }

  /** A suppressed address is found under every spelling with its normal form, with the reason it had
      first if it was already there. */
  lemma SuppressIsFound(env: Env, table: Suppressions, address: string, reason: Reason, source: string, other: string)
    requires Folding(env) && NormalizeAddress(env, address) != ""
    requires NormalizeAddress(env, other) == NormalizeAddress(env, address)
    ensures Suppress(env, table, address, reason, source).Some?
    ensures FindSuppression(env, Suppress(env, table, address, reason, source).value, other) ==
            (if FindSuppression(env, table, address).Some? then FindSuppression(env, table, address)
             else Some(Suppression(reason, source)))
  {
    NormalizeIdempotent(env, address);
  }

  /** Lifting takes away exactly the address's own suppression. */
  lemma LiftRemoves(env: Env, table: Suppressions, address: string, other: string)
    ensures FindSuppression(env, Lift(env, table, address), other) ==
            (if HashAddress(env, other) == HashAddress(env, address) then None else FindSuppression(env, table, other))
  {
  }

  /** From message `from` on, nothing was handed over to an address with this normal form. */
  ghost predicate NothingSince(env: Env, st: State, from: nat, normal: string) {
    forall k :: from <= k < |st.handed| ==> NormalizeAddress(env, st.handed[k].to) != normal
  }

  ghost predicate SuppressedAs(env: Env, st: State, normal: string, s: Suppression) {
    env.digest(normal) in st.suppressions && st.suppressions[env.digest(normal)] == s
  }

  /** Suppressed, and nothing sent there since message `from`. */
  ghost predicate Quiet(env: Env, st: State, from: nat, normal: string, s: Suppression) {
    SuppressedAs(env, st, normal, s) && NothingSince(env, st, from, normal)
  }

  lemma SendKeepsQuiet(env: Env, st: State, to: string, subject: Subject, broken: bool, from: nat, normal: string,
                       s: Suppression)
    requires Quiet(env, st, from, normal, s)
    ensures Quiet(env, SendEmail(env, st, to, subject, broken).0, from, normal, s)
  {
  }

  lemma {:induction false} DigestKeepsQuiet(env: Env, st: State, ids: seq<int>, severities: set<Severity>,
                                            broken: set<nat>, n: nat, from: nat, normal: string, s: Suppression)
    requires n <= |ids| && Quiet(env, st, from, normal, s)
    ensures Quiet(env, DigestRun(env, st, ids, severities, broken, n).0, from, normal, s)
  {
    if n == 0 {
    } else {
      DigestKeepsQuiet(env, st, ids, severities, broken, n - 1, from, normal, s);
      var before := DigestRun(env, st, ids, severities, broken, n - 1).0;
      if ids[n - 1] in before.subscriptions {
        SendKeepsQuiet(env, before, before.subscriptions[ids[n - 1]].email,
                       Digest(ids[n - 1], Due(before, ids[n - 1], severities)), false, from, normal, s);
      }
    }
  }

  lemma {:induction false} AlertsKeepQuiet(env: Env, st: State, ids: seq<int>, broken: set<nat>, k: nat,
                                           from: nat, normal: string, s: Suppression)
    requires k <= |ids| && Quiet(env, st, from, normal, s)
    ensures Quiet(env, AlertRun(env, st, ids, broken, k), from, normal, s)
  {
    if k == 0 {
    } else {
      AlertsKeepQuiet(env, st, ids, broken, k - 1, from, normal, s);
      var before, n := AlertRun(env, st, ids, broken, k - 1), ids[k - 1];
      if n in before.notifications && before.notifications[n].subscription in before.subscriptions {
        SendKeepsQuiet(env, before, before.subscriptions[before.notifications[n].subscription].email, Alert(n),
                       k - 1 in broken, from, normal, s);
      }
    }
  }

  /** The run never lifts this address's suppression. */
  ghost predicate NeverLifts(env: Env, ops: seq<Op>, normal: string) {
    forall k :: 0 <= k < |ops| && ops[k].LiftOp? ==> HashAddress(env, ops[k].address) != env.digest(normal)
  }

  lemma StepKeepsQuiet(env: Env, st: State, op: Op, from: nat, normal: string, s: Suppression)
    requires Quiet(env, st, from, normal, s)
    requires op.LiftOp? ==> HashAddress(env, op.address) != env.digest(normal)
    ensures Quiet(env, Step(env, st, op), from, normal, s)
  {
    match op
    case DigestOp(ids, severities, broken) =>
      DigestKeepsQuiet(env, st, ids, severities, broken, |ids|, from, normal, s);
    case AlertOp(ids, broken) => AlertsKeepQuiet(env, st, ids, broken, |ids|, from, normal, s);
    case ReplyOp(to, kind, reference, fails) =>
      SendKeepsQuiet(env, st, to, DisputeReply(kind, reference), fails, from, normal, s);
    case _ =>
  }

  lemma {:induction false} RunKeepsQuiet(env: Env, st: State, ops: seq<Op>, from: nat, normal: string, s: Suppression)
    requires Quiet(env, st, from, normal, s) && NeverLifts(env, ops, normal)
    ensures Quiet(env, RunOps(env, st, ops), from, normal, s)
  {
    if ops == [] {
    } else {
      RunKeepsQuiet(env, st, ops[..|ops| - 1], from, normal, s);
      StepKeepsQuiet(env, RunOps(env, st, ops[..|ops| - 1]), ops[|ops| - 1], from, normal, s);
    }
  }

  /** Suppression holds over whole runs: after `suppress(a)`, and until it is lifted, no sender hands the
      provider any spelling of the address, and the reported reason stays the first one. */
  lemma SuppressionHolds(env: Env, st: State, address: string, reason: Reason, source: string, ops: seq<Op>)
    requires Folding(env) && NormalizeAddress(env, address) != ""
    requires NeverLifts(env, ops, NormalizeAddress(env, address))
    ensures var suppressed := Step(env, st, SuppressOp(address, reason, source));
            var later := RunOps(env, suppressed, ops);
            && FindSuppression(env, later.suppressions, address) ==
               (if FindSuppression(env, st.suppressions, address).Some?
                then FindSuppression(env, st.suppressions, address) else Some(Suppression(reason, source)))
            && NothingSince(env, later, |st.handed|, NormalizeAddress(env, address))
  {
    var normal := NormalizeAddress(env, address);
    NormalizeIdempotent(env, address);
    var suppressed := Step(env, st, SuppressOp(address, reason, source));
    RunKeepsQuiet(env, suppressed, ops, |st.handed|, normal, suppressed.suppressions[env.digest(normal)]);
  }
}
