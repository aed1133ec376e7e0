/** The durable caps on submissions (backend/src/services/disputes.ts) as invariants over every run. */
module DisputeCaps {
  import opened Disputes
  import opened DisputeLaws
  import opened MotiveScan
  import opened Sequences
  import Text
  import Mail
  import Options

  /** The disputes filed up to and including `d` that are no more than `span` older than it. */
  function FiledBefore(disputes: map<int, Dispute>, d: int, span: int): set<int>
    requires d in disputes
  {
    set e | e in disputes && e <= d && disputes[e].createdAt >= disputes[d].createdAt - span
  }

  /** The disputes filed in a closed interval. */
  function FiledWithin(disputes: map<int, Dispute>, from: int, until: int): set<int> {
    set e | e in disputes && from <= disputes[e].createdAt <= until
  }

  ghost predicate RateKept(disputes: map<int, Dispute>, span: int) {
    forall d :: d in disputes ==> |FiledBefore(disputes, d, span)| <= GLOBAL_PER_HOUR
  }

  ghost predicate OpenKept(disputes: map<int, Dispute>) {
    forall table, target :: |OpenOn(disputes, table, target)| <= PER_TARGET_OPEN
  }

  lemma FilingKeepsRate(was: map<int, Dispute>, id: int, dispute: Dispute, since: int, span: int)
    requires RateKept(was, span) && |Recent(was, since)| < GLOBAL_PER_HOUR && since <= dispute.createdAt - span
    requires id !in was && forall d :: d in was ==> d < id
    ensures RateKept(was[id := dispute], span)
  {
    var now := was[id := dispute];
    forall d | d in now ensures |FiledBefore(now, d, span)| <= GLOBAL_PER_HOUR {
      if d == id {
        SubsetSize(FiledBefore(now, id, span) - {id}, Recent(was, since));
      } else {
        assert FiledBefore(now, d, span) == FiledBefore(was, d, span);
      }
    }
  }

  lemma SameTimesKeepRate(was: map<int, Dispute>, now: map<int, Dispute>, span: int)
    requires RateKept(was, span) && now.Keys == was.Keys
    requires forall d :: d in was ==> now[d].createdAt == was[d].createdAt
    ensures RateKept(now, span)
  {
    forall d | d in now ensures |FiledBefore(now, d, span)| <= GLOBAL_PER_HOUR {
      assert FiledBefore(now, d, span) == FiledBefore(was, d, span);
    }
  }

  lemma FilingKeepsOpen(was: map<int, Dispute>, id: int, dispute: Dispute)
    requires OpenKept(was) && |OpenOn(was, dispute.targetTable, dispute.targetId)| < PER_TARGET_OPEN && id !in was
    ensures OpenKept(was[id := dispute])
  {
    var now := was[id := dispute];
    forall table, target ensures |OpenOn(now, table, target)| <= PER_TARGET_OPEN {
      SubsetSize(OpenOn(now, table, target) - {id}, OpenOn(was, table, target));
    }
  }

  lemma DecidingKeepsOpen(was: map<int, Dispute>, now: map<int, Dispute>)
    requires OpenKept(was)
    requires forall d :: d in now && now[d].status == Mail.Received ==> d in was && was[d] == now[d]
    ensures OpenKept(now)
  {
    forall table, target ensures |OpenOn(now, table, target)| <= PER_TARGET_OPEN {
      forall d | d in OpenOn(now, table, target) ensures d in OpenOn(was, table, target) {
        assert was[d] == now[d];
      }
      SubsetSize(OpenOn(now, table, target), OpenOn(was, table, target));
    }
  }

  /** An accepted submission passed both caps. */
  lemma AcceptedUnderCaps(setup: Setup, desk: Desk, sub: Submission)
    requires Accepts(setup, desk, sub)
    ensures |Recent(desk.disputes, sub.now - HOUR_MS)| < GLOBAL_PER_HOUR
    ensures |OpenOn(desk.disputes, sub.targetTable, sub.targetId)| < PER_TARGET_OPEN
  {
    hide Precheck, Text.Trim, Queue, Recent, OpenOn, ReferenceTaken;
  }

  lemma OthersKeepDisputes(setup: Setup, w: World, op: Op)
    requires !op.SubmitOp? && !op.DecideOp?
    ensures Step(setup, w, op).desk.disputes == w.desk.disputes
  {
    hide Submit, Decide, Address, Mail.SendEmail, Mail.Step;
  }

  lemma DecideChanges(setup: Setup, desk: Desk, id: int, uphold: bool, reason: string, actor: Options.Option<string>)
    ensures var now := Decide(setup, desk, id, uphold, reason, actor).0.disputes;
            && now.Keys == desk.disputes.Keys
            && (forall d :: d in now ==> now[d].createdAt == desk.disputes[d].createdAt)
            && (forall d :: d in now && now[d].status == Mail.Received ==> now[d] == desk.disputes[d])
  {
    hide Text.Trim, Address;
  }

  /** The application's clock, read when a submission arrives, is at most `skew` ahead of the time the
      database gives the row. */
  ghost predicate ClockWithin(op: Op, skew: nat) { op.SubmitOp? ==> op.sub.now <= op.sub.createdAt + skew }

  ghost predicate CapsKept(disputes: map<int, Dispute>, span: int) { RateKept(disputes, span) && OpenKept(disputes) }

  lemma SubmitKeepsCaps(setup: Setup, desk: Desk, sub: Submission, skew: nat)
    requires Numbered(desk) && CapsKept(desk.disputes, HOUR_MS - skew) && sub.now <= sub.createdAt + skew
    ensures CapsKept(Submit(setup, desk, sub).0.disputes, HOUR_MS - skew)
  {
    hide Precheck, Text.Trim, Address, Queue, Submit, Accepts, Recent, OpenOn, RateKept, OpenKept;
    SubmitShape(setup, desk, sub);
    if Accepts(setup, desk, sub) {
      AcceptedUnderCaps(setup, desk, sub);
      FilingKeepsRate(desk.disputes, |desk.disputes|, Filed(sub), sub.now - HOUR_MS, HOUR_MS - skew);
      FilingKeepsOpen(desk.disputes, |desk.disputes|, Filed(sub));
    }
  }

  lemma DecideKeepsCaps(setup: Setup, desk: Desk, id: int, uphold: bool, reason: string,
                        actor: Options.Option<string>, span: int)
    requires CapsKept(desk.disputes, span)
    ensures CapsKept(Decide(setup, desk, id, uphold, reason, actor).0.disputes, span)
  {
    var now := Decide(setup, desk, id, uphold, reason, actor).0.disputes;
    DecideChanges(setup, desk, id, uphold, reason, actor);
    SameTimesKeepRate(desk.disputes, now, span);
    DecidingKeepsOpen(desk.disputes, now);
  }

  lemma StepKeepsCaps(setup: Setup, w: World, op: Op, skew: nat)
    requires Numbered(w.desk) && ClockWithin(op, skew) && CapsKept(w.desk.disputes, HOUR_MS - skew)
    ensures CapsKept(Step(setup, w, op).desk.disputes, HOUR_MS - skew)
  {
    hide Submit, Decide, Deliver, CapsKept;
    match op
    case SubmitOp(sub) => SubmitKeepsCaps(setup, w.desk, sub, skew);
    case DecideOp(id, uphold, reason, actor) =>
      DecideKeepsCaps(setup, w.desk, id, uphold, reason, actor, HOUR_MS - skew);
    case DeliverOp(_, _, _) => OthersKeepDisputes(setup, w, op);
    case CorrectElsewhere(_, _) => OthersKeepDisputes(setup, w, op);
    case MailOp(_) => OthersKeepDisputes(setup, w, op);
  }

  lemma {:induction false} RunKeepsCaps(setup: Setup, mail: Mail.State, ops: seq<Op>, skew: nat)
    requires forall k :: 0 <= k < |ops| ==> ClockWithin(ops[k], skew)
    ensures var disputes := Run(setup, World(EMPTY_DESK, mail), ops).desk.disputes;
            CapsKept(disputes, HOUR_MS - skew)
  {
    var start := World(EMPTY_DESK, mail);
    EmptyDeskSound(setup);
    if ops == [] {
      forall table, target ensures |OpenOn(EMPTY_DESK.disputes, table, target)| <= PER_TARGET_OPEN {
        assert OpenOn(EMPTY_DESK.disputes, table, target) == {};
      }
    } else {
      RunKeepsCaps(setup, mail, ops[..|ops| - 1], skew);
      RunSound(setup, start, ops[..|ops| - 1]);
      StepKeepsCaps(setup, Run(setup, start, ops[..|ops| - 1]), ops[|ops| - 1], skew);
    }
  }

  /** The last filed of a non-empty set of disputes. */
  lemma {:induction false} LastOf(s: set<int>) returns (last: int)
    requires s != {}
    ensures last in s && forall e :: e in s ==> e <= last
    decreases |s|
  {
    last := SomeMember(s);
    var rest := s - {last};
    assert s == rest + {last};
    if rest != {} {
      var later := LastOf(rest);
      last := if later > last then later else last;
    }
  }

  lemma WindowKept(disputes: map<int, Dispute>, span: int, from: int, until: int)
    requires RateKept(disputes, span) && until - from <= span
    ensures |FiledWithin(disputes, from, until)| <= GLOBAL_PER_HOUR
  {
    var filed := FiledWithin(disputes, from, until);
    if filed != {} {
      var last := LastOf(filed);
      SubsetSize(filed, FiledBefore(disputes, last, span));
    }
  }

  /** No closed interval of this length holds more than thirty submissions, and no target has more than
      five undecided disputes. */
  ghost predicate WithinCaps(disputes: map<int, Dispute>, span: int) {
    && (forall from, until :: until - from <= span ==> |FiledWithin(disputes, from, until)| <= 30)
    && (forall table, target :: |OpenOn(disputes, table, target)| <= 5)
  }

  lemma CapsMean(disputes: map<int, Dispute>, span: int)
    requires CapsKept(disputes, span)
    ensures WithinCaps(disputes, span)
  {
    forall from, until | until - from <= span ensures |FiledWithin(disputes, from, until)| <= 30 {
      WindowKept(disputes, span, from, until);
    }
  }

  /** Over every run from an empty desk, no target ever has more than five undecided disputes, and no
      closed interval of an hour less the clocks' disagreement holds more than thirty submissions, wherever
      it starts. With the clocks agreeing that is sixty minutes, and neither clock need be monotone. */
  lemma CapsHold(setup: Setup, mail: Mail.State, ops: seq<Op>, skew: nat)
    requires forall k :: 0 <= k < |ops| ==> ClockWithin(ops[k], skew)
    ensures WithinCaps(Run(setup, World(EMPTY_DESK, mail), ops).desk.disputes, 3_600_000 - skew)
  {
    hide Step;
    RunKeepsCaps(setup, mail, ops, skew);
    CapsMean(Run(setup, World(EMPTY_DESK, mail), ops).desk.disputes, HOUR_MS - skew);
  }

  // ---- how much the clocks matter --------------------------------------------------------------------

  /** The k-th character of the reference alphabet, Crockford's. */
  function AlphabetChar(k: nat): (c: char)
    requires k < 32
    ensures IsReferenceChar(c)
  {
    if k < 10 then ('0' as int + k) as char
    else if k < 18 then ('A' as int + (k - 10)) as char
    else if k < 20 then ('J' as int + (k - 18)) as char
    else if k < 22 then ('M' as int + (k - 20)) as char
    else if k < 27 then ('P' as int + (k - 22)) as char
    else ('V' as int + (k - 27)) as char
  }

  function HexDigit(k: nat): char
    requires k < 16
  {
    if k < 10 then ('0' as int + k) as char else ('a' as int + (k - 10)) as char
  }

  /** The reference drawn for the k-th of a series of submissions. */
  function Ref(k: nat): string
    requires k < 32
  {
    "CW-0000000" + [AlphabetChar(k)]
  }

  /** The meeting it is about, a UUID. */
  function Target(k: nat): string
    requires k < 32
  {
    "6f1e4b0e-9d5a-4c4f-8a52-0000000000" + [HexDigit(k / 16), HexDigit(k % 16)]
  }

  lemma RefIsReference(k: nat)
    requires k < 32
    ensures IsReference(Ref(k))
  {
    hide IsReferenceChar;
    ZeroIsReferenceChar();
  }

  lemma ZeroIsReferenceChar()
    ensures IsReferenceChar('0')
  {
  }

  lemma RefsDiffer(j: nat, k: nat)
    requires j < 32 && k < 32 && j != k
    ensures Ref(j) != Ref(k)
  {
    assert AlphabetChar(j) != AlphabetChar(k);
    hide AlphabetChar;
    assert Ref(j)[10] == AlphabetChar(j) && Ref(k)[10] == AlphabetChar(k);
  }

  lemma TargetsDiffer(j: nat, k: nat)
    requires j < 32 && k < 32 && j != k
    ensures Target(j) != Target(k)
  {
    assert j / 16 != k / 16 || j % 16 != k % 16;
    TargetEnd(j);
    TargetEnd(k);
    hide Target;
  }

  lemma TargetEnd(k: nat)
    requires k < 32
    ensures |Target(k)| == 36 && Target(k)[34] == HexDigit(k / 16) && Target(k)[35] == HexDigit(k % 16)
  {
    hide HexDigit;
    var start := "6f1e4b0e-9d5a-4c4f-8a52-0000000000";
    assert |start| == 34;
  }

  /** The k-th of the series, each about a target of its own. */
  function NthOf(k: nat, now: int, createdAt: int): Submission
    requires k < 32
  {
    Submission("meetings", Target(k), "x", "x", "x", true, true, true, Ref(k), now, createdAt)
  }

  /** The first `k` of the series have been filed. */
  ghost predicate Series(disputes: map<int, Dispute>, k: nat)
    requires k <= 32
  {
    && |disputes| == k && (forall d :: d in disputes <==> 0 <= d < k)
    && (forall d :: d in disputes ==> disputes[d].reference == Ref(d) && disputes[d].targetId == Target(d))
  }

  /** The scan lets the log row of every acknowledgement pass. */
  ghost predicate ReceiptsPass(setup: Setup) {
    forall reference :: IsReference(reference) ==> !setup.statesMotive(ReceivedReason(reference))
  }

  /** The desk as the repository sets it up, with its own scan. */
  ghost function Repository(env: Mail.Env): Setup { Setup(env, text => StatesMotive(text)) }

  lemma RepositoryReceiptsPass(env: Mail.Env)
    ensures ReceiptsPass(Repository(env))
  {
    hide StatesMotive, IsReference, ReceivedReason;
    forall reference | IsReference(reference) ensures !Repository(env).statesMotive(ReceivedReason(reference)) {
      ReceiptsAreClean(reference);
    }
  }

  lemma NthIsSound(k: nat, now: int, createdAt: int)
    requires k < 32
    ensures Precheck(NthOf(k, now, createdAt)).None?
  {
    hide Ref, Target;
  }

  lemma SeriesGrows(disputes: map<int, Dispute>, k: nat, now: int, createdAt: int)
    requires k < 32 && Series(disputes, k)
    ensures Series(disputes[k := Filed(NthOf(k, now, createdAt))], k + 1) && |disputes| == k
  {
    hide Text.Trim, Ref, Target;
  }

  lemma SeriesHasRoom(disputes: map<int, Dispute>, k: nat)
    requires k < 32 && Series(disputes, k)
    ensures OpenOn(disputes, "meetings", Target(k)) == {} && !ReferenceTaken(disputes, Ref(k))
  {
    hide Ref, Target;
    forall d | d in disputes ensures disputes[d].targetId != Target(k) && disputes[d].reference != Ref(k) {
      RefsDiffer(d, k);
      TargetsDiffer(d, k);
    }
  }

  /** The next of the series is accepted when the hour's count allows it. */
  lemma NthAccepted(setup: Setup, desk: Desk, k: nat, now: int, createdAt: int)
    requires k < 32 && ReceiptsPass(setup)
    requires Series(desk.disputes, k) && |Recent(desk.disputes, now - HOUR_MS)| < GLOBAL_PER_HOUR
    ensures Series(Submit(setup, desk, NthOf(k, now, createdAt)).0.disputes, k + 1)
    ensures Submit(setup, desk, NthOf(k, now, createdAt)).0.disputes ==
            desk.disputes[k := Filed(NthOf(k, now, createdAt))]
  {
    var sub := NthOf(k, now, createdAt);
    hide Precheck, Text.Trim, Address, Queue, Recent, OpenOn, ReferenceTaken, Ref, Target, Series, IsReference;
    hide ReceivedReason;
    NthIsSound(k, now, createdAt);
    SeriesHasRoom(desk.disputes, k);
    RefIsReference(k);
    assert Accepts(setup, desk, sub);
    SubmitShape(setup, desk, sub);
    SeriesGrows(desk.disputes, k, now, createdAt);
  }

  /** `n` submissions at time zero. */
  function Opening(n: nat): seq<Op>
    requires n <= 32
  {
    if n == 0 then [] else Opening(n - 1) + [SubmitOp(NthOf(n - 1, 0, 0))]
  }

  lemma LastStep(setup: Setup, w: World, ops: seq<Op>, op: Op)
    ensures Run(setup, w, ops + [op]) == Step(setup, Run(setup, w, ops), op)
  {
    assert (ops + [op])[..|ops|] == ops;
  }

  lemma {:induction false} OpeningFiles(setup: Setup, mail: Mail.State, n: nat)
    requires n <= GLOBAL_PER_HOUR && ReceiptsPass(setup)
    ensures var disputes := Run(setup, World(EMPTY_DESK, mail), Opening(n)).desk.disputes;
            Series(disputes, n) && forall d :: d in disputes ==> disputes[d].createdAt == 0
  {
    hide Submit, Text.Trim, Ref, Target, ReceiptsPass;
    if n == 0 {
    } else {
      hide Series;
      OpeningFiles(setup, mail, n - 1);
      var before := Run(setup, World(EMPTY_DESK, mail), Opening(n - 1));
      SeriesSize(before.desk.disputes, n - 1);
      SubsetSize(Recent(before.desk.disputes, 0 - HOUR_MS), before.desk.disputes.Keys);
      NthAccepted(setup, before.desk, n - 1, 0, 0);
      LastStep(setup, World(EMPTY_DESK, mail), Opening(n - 1), SubmitOp(NthOf(n - 1, 0, 0)));
    }
  }

  lemma SeriesSize(disputes: map<int, Dispute>, k: nat)
    requires k <= 32 && Series(disputes, k)
    ensures |disputes.Keys| == k
  {
    assert |disputes.Keys| == |disputes|;
  }

  lemma {:induction false} OpeningClocks(n: nat)
    requires n <= 32
    ensures ClocksWithin(Opening(n), 0)
  {
    hide NthOf;
    if n == 0 {
    } else {
      OpeningClocks(n - 1);
      NthClock(n - 1, 0, 0);
    }
  }

  lemma NthClock(k: nat, now: int, createdAt: int)
    requires k < 32
    ensures NthOf(k, now, createdAt).now == now && NthOf(k, now, createdAt).createdAt == createdAt
  {
  }

  /** No closed sixty minutes hold more than thirty submissions. */
  ghost predicate HourKept(disputes: map<int, Dispute>) {
    forall from, until :: until - from <= 3_600_000 ==> |FiledWithin(disputes, from, until)| <= 30
  }

  ghost predicate ClocksWithin(ops: seq<Op>, skew: nat) { forall k :: 0 <= k < |ops| ==> ClockWithin(ops[k], skew) }

  /** Thirty at time zero, then one whose submitter's clock runs ahead. */
  function Overfilling(skew: nat): seq<Op> {
    Opening(30) + [SubmitOp(NthOf(30, HOUR_MS + 1, if skew > HOUR_MS then 0 else HOUR_MS + 1 - skew))]
  }

  lemma OneTooMany(disputes: map<int, Dispute>, last: Dispute)
    requires Series(disputes, 30) && (forall d :: d in disputes ==> disputes[d].createdAt == 0)
    requires 0 <= last.createdAt <= HOUR_MS
    ensures Recent(disputes, 1) == {} && !HourKept(disputes[30 := last])
  {
    var after := disputes[30 := last];
    assert forall d :: d in after ==> 0 <= after[d].createdAt <= HOUR_MS;
    assert FiledWithin(after, 0, HOUR_MS) == after.Keys;
    assert |after| == |disputes| + 1;
    assert |FiledWithin(after, 0, HOUR_MS)| == 31;
    forall d ensures d !in Recent(disputes, 1) {
      assert d in disputes ==> disputes[d].createdAt == 0;
    }
    assert Recent(disputes, 1) == {};
  }

  lemma SkewOverfills(setup: Setup, mail: Mail.State, skew: nat)
    requires skew > 0 && ReceiptsPass(setup)
    ensures ClocksWithin(Overfilling(skew), skew)
    ensures !HourKept(Run(setup, World(EMPTY_DESK, mail), Overfilling(skew)).desk.disputes)
  {
    hide Submit, Step, Text.Trim, ReceiptsPass;
    var start, opening := World(EMPTY_DESK, mail), Opening(30);
    var createdAt := if skew > HOUR_MS then 0 else HOUR_MS + 1 - skew;
    var before := Run(setup, start, opening);
    OpeningFiles(setup, mail, 30);
    hide Run, Opening, Series, HourKept, NthOf;
    assert Filed(NthOf(30, HOUR_MS + 1, createdAt)).createdAt == createdAt by {
      NthFiled(30, HOUR_MS + 1, createdAt);
    }
    OneTooMany(before.desk.disputes, Filed(NthOf(30, HOUR_MS + 1, createdAt)));
    NthAccepted(setup, before.desk, 30, HOUR_MS + 1, createdAt);
    LastStep(setup, start, opening, SubmitOp(NthOf(30, HOUR_MS + 1, createdAt)));
    StepOfSubmit(setup, before, NthOf(30, HOUR_MS + 1, createdAt));
    OverfillingClocks(skew);
  }

  lemma NthFiled(k: nat, now: int, createdAt: int)
    requires k < 32
    ensures Filed(NthOf(k, now, createdAt)).createdAt == createdAt
  {
    hide Text.Trim;
  }

  lemma OverfillingClocks(skew: nat)
    requires skew > 0
    ensures ClocksWithin(Overfilling(skew), skew)
  {
    OpeningClocks(30);
    NthClock(30, HOUR_MS + 1, if skew > HOUR_MS then 0 else HOUR_MS + 1 - skew);
    hide Opening, NthOf;
  }

  lemma StepOfSubmit(setup: Setup, w: World, sub: Submission)
    ensures Step(setup, w, SubmitOp(sub)).desk == Submit(setup, w.desk, sub).0
  {
    hide Submit;
  }

  /** For any scan that lets acknowledgements pass. */
  lemma HourKeptUnder(setup: Setup, mail: Mail.State, skew: nat)
    requires ReceiptsPass(setup)
    ensures (forall ops :: ClocksWithin(ops, skew) ==>
               HourKept(Run(setup, World(EMPTY_DESK, mail), ops).desk.disputes)) <==>
            skew == 0
  {
    hide Run, HourKept, ReceiptsPass;
    if skew == 0 {
      forall ops | ClocksWithin(ops, 0) ensures HourKept(Run(setup, World(EMPTY_DESK, mail), ops).desk.disputes) {
        CapsHold(setup, mail, ops, 0);
        WithinMeansHour(Run(setup, World(EMPTY_DESK, mail), ops).desk.disputes);
      }
    } else {
      SkewOverfills(setup, mail, skew);
    }
  }

  /** The hourly promise, thirty in any closed sixty minutes over every run, holds exactly when the
      application's clock is never ahead of the database's. */
  lemma HourKeptExactly(env: Mail.Env, mail: Mail.State, skew: nat)
    ensures (forall ops :: ClocksWithin(ops, skew) ==>
               HourKept(Run(Repository(env), World(EMPTY_DESK, mail), ops).desk.disputes)) <==>
            skew == 0
  {
    hide Run, HourKept, ReceiptsPass, Repository, ClocksWithin;
    RepositoryReceiptsPass(env);
    HourKeptUnder(Repository(env), mail, skew);
  }

  lemma WithinMeansHour(disputes: map<int, Dispute>)
    requires WithinCaps(disputes, HOUR_MS)
    ensures HourKept(disputes)
  {
  }
}
