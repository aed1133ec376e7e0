/** The external monitor's two version checks and the bounded re-read they share
    (backend/src/scripts/external-monitor.ts). Readings are adversarial: whatever an endpoint says next. */
module ReleaseMonitor {
  import opened Options
  import opened Text

  datatype CheckState = Pass | Warn | Blocked | Fail

  datatype Body = NotJson | NotAnObject | WithoutSha | WithSha(sha: string)

  /** One HTTP attempt: no status means the request never produced a response. */
  datatype Probe = Probe(status: Option<int>, body: Body)

  /** `readSha`: the build stamp, unless the response is unusable, has none, or carries no stamp. */
  function ReadSha(probe: Probe): Option<string> {
    if probe.status != Some(200) || !probe.body.WithSha? then None
    else if Trim(probe.body.sha) == "" || probe.body.sha == "unknown" then None
    else Some(Trim(probe.body.sha))
  }

  /** An unstamped image is refused only when the stamp is exactly "unknown": the same word with white
      space around it reads as a sha. */
  lemma UnknownStampReadable(probe: Probe)
    requires probe.status == Some(200) && probe.body.WithSha?
    ensures ReadSha(probe) == Some("unknown") <==>
            Trim(probe.body.sha) == "unknown" && !Trimmed(probe.body.sha)
  {
    var s := probe.body.sha;
    TrimTrims(s);
    if Trimmed(s) {
      TrimOfTrimmed(s);
    }
  }

  lemma TrimOfTrimmed(s: string)
    requires Trimmed(s)
    ensures Trim(s) == s
  {
  }

  /** `shaMatches`: equal ignoring case, allowing either to be an abbreviation of the other. */
  predicate ShaMatches(lower: string -> string, a: string, b: string) {
    var left, right := lower(a), lower(b);
    if |left| <= |right| then left <= right else right <= left
  }

  // ---- one reading --------------------------------------------------------------------

  datatype CommitTime = NotSet | NotADate | At(ms: int)

  datatype Expectation =
    | NoExpectation
    | Expected(sha: string, committedAt: CommitTime, maxDriftMinutes: real, settleAttempts: nat)

  /** Minutes since the commit, rounded to a tenth. */
  function DriftMinutes(now: int, committedAt: int): real {
    (((2 * (now - committedAt) + 6_000) / 12_000) as real) / 10.0
  }

  /** The reported age is within a twentieth of a minute of the real one. */
  lemma DriftMinutesRounds(now: int, committedAt: int)
    ensures var age := (now - committedAt) as real / 60_000.0;
            age - 0.05 <= DriftMinutes(now, committedAt) <= age + 0.05
  {
    var x, q := now - committedAt, (2 * (now - committedAt) + 6_000) / 12_000;
    assert 6_000 * q - 3_000 <= x < 6_000 * q + 3_000;
    assert 6_000.0 * q as real - 3_000.0 <= x as real <= 6_000.0 * q as real + 3_000.0;
  }

  /** `evaluateReleaseDrift`, from one reading. */
  function EvaluateReleaseDrift(lower: string -> string, expectation: Expectation, api: Probe, now: int): CheckState {
    if expectation.NoExpectation? then Blocked
    else
      var live := ReadSha(api);
      if live.None? then Blocked
      else if ShaMatches(lower, live.value, expectation.sha) then Pass
      else match expectation.committedAt
           case NotSet => Blocked
           case NotADate => Blocked
           case At(ms) => if DriftMinutes(now, ms) > expectation.maxDriftMinutes then Fail else Warn
  }

  /** The two begin with one abbreviation of seven characters. */
  ghost predicate AgreeOnSeven(lower: string -> string, a: string, b: string) {
    exists short: string :: |short| == 7 && short <= lower(a) && short <= lower(b)
  }

  /** Only the expected sha is held to seven characters. A head that passes agrees with it on seven exactly
      when the live sha is that long; a shorter one passes on whatever it has. */
  lemma MatchAgreesOnSeven(lower: string -> string, expectation: Expectation, api: Probe, now: int)
    requires expectation.Expected? && |lower(expectation.sha)| >= 7
    requires EvaluateReleaseDrift(lower, expectation, api, now) == Pass
    ensures ReadSha(api).Some?
    ensures AgreeOnSeven(lower, ReadSha(api).value, expectation.sha) <==> |lower(ReadSha(api).value)| >= 7
  {
    hide ReadSha;
    var left, right := lower(ReadSha(api).value), lower(expectation.sha);
    assert ShaMatches(lower, ReadSha(api).value, expectation.sha);
    if |left| >= 7 {
      var short := left[..7];
      assert |short| == 7 && short <= left && short <= right;
    }
  }

  /** What an endpoint that answers with a one-letter stamp reads as. */
  const ONE_LETTER := Probe(Some(200), WithSha("a"))

  lemma OneLetterIsRead()
    ensures ReadSha(ONE_LETTER) == Some("a")
  {
    assert Trimmed("a");
    TrimOfTrimmed("a");
  }

  /** It passes for every expected sha beginning with the letter, whatever the rest and however old the
      commit. */
  lemma OneLetterShaPasses(lower: string -> string, expectation: Expectation, now: int)
    requires CaseFolding(lower) && expectation.Expected?
    requires IsAscii(expectation.sha) && expectation.sha != "" && expectation.sha[0] == 'a'
    ensures EvaluateReleaseDrift(lower, expectation, ONE_LETTER, now) == Pass
    ensures !AgreeOnSeven(lower, ReadSha(ONE_LETTER).value, expectation.sha)
  {
    OneLetterIsRead();
    hide ReadSha;
    assert IsAscii("a");
    assert lower("a") == AsciiLower("a") && lower(expectation.sha) == AsciiLower(expectation.sha);
    assert "a" <= lower(expectation.sha) && lower("a") == "a";
  }

  datatype VersionReading = VersionReading(api: Probe, web: Probe)

  predicate VersionReadable(reading: VersionReading) { ReadSha(reading.api).Some? && ReadSha(reading.web).Some? }

  /** `evaluateVersion`, from one pair of readings. */
  function EvaluateVersion(reading: VersionReading): CheckState {
    var apiSha, webSha := ReadSha(reading.api), ReadSha(reading.web);
    if apiSha.None? || webSha.None? then Fail else if apiSha.value != webSha.value then Fail else Pass
  }

  /** The response carries a stamp: any text but blank or exactly "unknown", in the body of a 200. */
  predicate Stamped(probe: Probe) {
    probe.status == Some(200) && probe.body.WithSha? && Trim(probe.body.sha) != "" && probe.body.sha != "unknown"
  }

  /** One of the two, case folded, begins with the other. */
  predicate OneAbbreviates(lower: string -> string, a: string, b: string) {
    lower(a) <= lower(b) || lower(b) <= lower(a)
  }

  /** `tenths` is the number of tenths of a minute nearest to an age, the later one at a tie. */
  ghost predicate NearestTenth(age: int, tenths: int) {
    tenths as real - 0.5 <= age as real / 6_000.0 < tenths as real + 0.5
  }

  lemma TenthsAreNearest(now: int, committedAt: int, tenths: int)
    requires NearestTenth(now - committedAt, tenths)
    ensures DriftMinutes(now, committedAt) == tenths as real / 10.0
  {
    NearestInMs(now - committedAt, tenths);
    RoundedIs(now - committedAt, tenths);
  }

  lemma NearestInMs(age: int, tenths: int)
    requires NearestTenth(age, tenths)
    ensures 6_000 * tenths - 3_000 <= age < 6_000 * tenths + 3_000
  {
    var t, x := tenths as real, age as real;
    assert x / 6_000.0 * 6_000.0 == x;
    assert t * 6_000.0 - 3_000.0 <= x < t * 6_000.0 + 3_000.0;
    assert (6_000 * tenths) as real == t * 6_000.0;
    assert (6_000 * tenths - 3_000) as real <= x < (6_000 * tenths + 3_000) as real;
  }

  lemma RoundedIs(age: int, tenths: int)
    requires 6_000 * tenths - 3_000 <= age < 6_000 * tenths + 3_000
    ensures (2 * age + 6_000) / 12_000 == tenths
  {
  }

  /** The verdict on one reading. Nothing is told of an image without a stamp or a monitor without an
      expectation; a head that abbreviates the expected one, or is abbreviated by it, passes; any other is
      blocked while the age of the expected commit is not known, a failure when that age, to the nearest tenth
      of a minute, is past the allowance, and a warning otherwise. */
  lemma DriftVerdict(lower: string -> string, expectation: Expectation, api: Probe, now: int, tenths: int)
    ensures var state := EvaluateReleaseDrift(lower, expectation, api, now);
            && (expectation.NoExpectation? || !Stamped(api) ==> state == Blocked)
            && (expectation.Expected? && Stamped(api) ==>
                  var matches := OneAbbreviates(lower, Trim(api.body.sha), expectation.sha);
                  && (state == Pass <==> matches)
                  && (!matches && !expectation.committedAt.At? ==> state == Blocked)
                  && (!matches && expectation.committedAt.At? ==>
                        && (state == Fail || state == Warn)
                        && (NearestTenth(now - expectation.committedAt.ms, tenths) ==>
                              (state == Fail <==> tenths as real / 10.0 > expectation.maxDriftMinutes))))
  {
    hide Trim;
    if expectation.Expected? && expectation.committedAt.At? && NearestTenth(now - expectation.committedAt.ms, tenths) {
      TenthsAreNearest(now, expectation.committedAt.ms, tenths);
    }
    hide DriftMinutes, NearestTenth;
  }

  /** The two images agree exactly when both carry a stamp and it is the same one. */
  lemma VersionVerdict(reading: VersionReading)
    ensures EvaluateVersion(reading) ==
            (if Stamped(reading.api) && Stamped(reading.web) &&
                Trim(reading.api.body.sha) == Trim(reading.web.body.sha) then Pass else Fail)
  {
    hide Trim;
  }

  // ---- the bounded re-read ----------------------------------------------------------------

  /** Re-read `k` is the first the loop accepts: it passes, and every re-read up to it can be read. */
  ghost predicate SettlesAt<T>(readings: nat -> T, readable: T -> bool, judge: T -> CheckState, k: nat) {
    && judge(readings(k)) == Pass
    && (forall j: nat :: j <= k ==> readable(readings(j)))
    && (forall j: nat :: j < k ==> judge(readings(j)) != Pass)
  }

  /** Some re-read within the allowance passes before any that cannot be read. */
  ghost predicate Settles<T>(readings: nat -> T, readable: T -> bool, judge: T -> CheckState, attempts: nat) {
    exists k: nat :: k < attempts && judge(readings(k)) == Pass && forall j: nat :: j <= k ==> readable(readings(j))
  }

  /** `settle`: at most `attempts` re-reads, stopping at the first that passes or cannot be read. */
  method Settle<T>(first: CheckState, attempts: nat, readings: nat -> T, readable: T -> bool, judge: T -> CheckState)
    returns (state: CheckState, rereads: nat)
    requires first != Pass
    ensures rereads <= attempts
    ensures state == Pass <==> Settles(readings, readable, judge, attempts)
    ensures state == Pass ==> rereads > 0 && SettlesAt(readings, readable, judge, rereads - 1)
    ensures state != Pass ==>
              state == first || exists j: nat :: j < rereads && readable(readings(j)) && state == judge(readings(j))
    ensures state != Pass && rereads < attempts ==> rereads > 0 && !readable(readings(rereads - 1))
  {
    if attempts < 1 {
      return first, 0;
    }
    var latest := first;
    for attempt := 0 to attempts
      invariant latest != Pass
      invariant latest == first || exists j: nat :: j < attempt && readable(readings(j)) && latest == judge(readings(j))
      invariant forall j: nat :: j < attempt ==> readable(readings(j)) && judge(readings(j)) != Pass
    {
      var probed := readings(attempt);
      if !readable(probed) {
        return latest, attempt + 1;
      }
      latest := judge(probed);
      if latest == Pass {
        return latest, attempt + 1;
      }
    }
    return latest, attempts;
  }

  // ---- release drift, settled -----------------------------------------------------------------

  function DriftReadable(): Probe -> bool { (probe: Probe) => ReadSha(probe).Some? }

  function DriftJudge(lower: string -> string, expectation: Expectation, now: int): Probe -> CheckState {
    (probe: Probe) => EvaluateReleaseDrift(lower, expectation, probe, now)
  }

  /** `k` is a re-read of the expected head that comes before any unreadable one. */
  ghost predicate HeadSeenAt(lower: string -> string, sha: string, readings: nat -> Probe, k: nat) {
    && (forall j: nat :: j <= k ==> ReadSha(readings(j)).Some?)
    && ShaMatches(lower, ReadSha(readings(k)).value, sha)
  }

  /** A readable first reading that is not the expected head: the only kind that is looked at again. */
  predicate DriftEligible(lower: string -> string, expectation: Expectation, first: Probe) {
    expectation.Expected? && ReadSha(first).Some? && !ShaMatches(lower, ReadSha(first).value, expectation.sha)
  }

  /** `resolveReleaseDrift` refines its one-line verdict: an eligible mismatch passes exactly when the
      expected head is seen within the allowance before any unreadable reading, and otherwise keeps the
      first reading's state. Nothing is re-read unless the first reading is an eligible mismatch. */
  method ResolveReleaseDrift(lower: string -> string, expectation: Expectation, first: Probe,
                             readings: nat -> Probe, now: int) returns (state: CheckState, rereads: nat)
    ensures var verdict := EvaluateReleaseDrift(lower, expectation, first, now);
            if DriftEligible(lower, expectation, first) &&
               (exists k: nat :: k < expectation.settleAttempts && HeadSeenAt(lower, expectation.sha, readings, k))
            then state == Pass else state == verdict
    ensures !DriftEligible(lower, expectation, first) ==> rereads == 0
    ensures DriftEligible(lower, expectation, first) ==> rereads <= expectation.settleAttempts
    ensures DriftEligible(lower, expectation, first) ==>
              (state == Pass <==>
                 exists k: nat :: k < expectation.settleAttempts && HeadSeenAt(lower, expectation.sha, readings, k))
  {
    var outcome := EvaluateReleaseDrift(lower, expectation, first, now);
    if outcome == Pass {
      return outcome, 0;
    }
    if !expectation.Expected? {
      return outcome, 0;
    }
    if ReadSha(first).None? {
      return outcome, 0;
    }
    state, rereads := Settle(outcome, expectation.settleAttempts, readings, DriftReadable(),
                             DriftJudge(lower, expectation, now));
    forall k: nat
      ensures (DriftJudge(lower, expectation, now)(readings(k)) == Pass &&
                forall j: nat :: j <= k ==> DriftReadable()(readings(j))) <==>
              HeadSeenAt(lower, expectation.sha, readings, k)
    {
      DriftHeadSeen(lower, expectation, readings, k, now);
    }
  }

  lemma DriftHeadSeen(lower: string -> string, expectation: Expectation, readings: nat -> Probe, k: nat, now: int)
    requires expectation.Expected?
    ensures (DriftJudge(lower, expectation, now)(readings(k)) == Pass &&
              forall j: nat :: j <= k ==> DriftReadable()(readings(j))) <==>
            HeadSeenAt(lower, expectation.sha, readings, k)
  {
    if HeadSeenAt(lower, expectation.sha, readings, k) {
      assert ReadSha(readings(k)).Some?;
      forall j: nat | j <= k ensures DriftReadable()(readings(j)) {
        assert ReadSha(readings(j)).Some?;
      }
    }
    if DriftJudge(lower, expectation, now)(readings(k)) == Pass &&
       forall j: nat :: j <= k ==> DriftReadable()(readings(j)) {
      forall j: nat | j <= k ensures ReadSha(readings(j)).Some? {
        assert DriftReadable()(readings(j));
      }
    }
  }

  // ---- version skew, settled --------------------------------------------------------------------

  datatype SettlePolicy = Policy(attempts: nat) | Unreadable

  function SkewReadable(): VersionReading -> bool { (r: VersionReading) => VersionReadable(r) }

  function SkewJudge(): VersionReading -> CheckState { (r: VersionReading) => EvaluateVersion(r) }

  /** `k` is a re-read in which both images serve one sha, before any unreadable one. */
  ghost predicate AgreementSeenAt(readings: nat -> VersionReading, k: nat) {
    && (forall j: nat :: j <= k ==> VersionReadable(readings(j)))
    && ReadSha(readings(k).api) == ReadSha(readings(k).web)
  }

  /** A first reading in which both images can be read and differ, under a readable policy. */
  predicate SkewEligible(policy: SettlePolicy, first: VersionReading) {
    policy.Policy? && VersionReadable(first) && ReadSha(first.api) != ReadSha(first.web)
  }

  /** `resolveVersionSkew` refines its one-line verdict in the same way. */
  method ResolveVersionSkew(policy: SettlePolicy, first: VersionReading, readings: nat -> VersionReading)
    returns (state: CheckState, rereads: nat)
    ensures if SkewEligible(policy, first) && (exists k: nat :: k < policy.attempts && AgreementSeenAt(readings, k))
            then state == Pass else state == EvaluateVersion(first)
    ensures !SkewEligible(policy, first) ==> rereads == 0
    ensures SkewEligible(policy, first) ==> rereads <= policy.attempts
    ensures state == Pass || state == Fail
  {
    var outcome := EvaluateVersion(first);
    if outcome == Pass {
      return outcome, 0;
    }
    if !VersionReadable(first) {
      return outcome, 0;
    }
    if policy.Unreadable? {
      return outcome, 0;
    }
    state, rereads := Settle(outcome, policy.attempts, readings, SkewReadable(), SkewJudge());
    forall k: nat
      ensures (SkewJudge()(readings(k)) == Pass && forall j: nat :: j <= k ==> SkewReadable()(readings(j))) <==>
              AgreementSeenAt(readings, k)
    {
      SkewAgreementSeen(readings, k);
    }
  }

  lemma SkewAgreementSeen(readings: nat -> VersionReading, k: nat)
    ensures (SkewJudge()(readings(k)) == Pass && forall j: nat :: j <= k ==> SkewReadable()(readings(j))) <==>
            AgreementSeenAt(readings, k)
  {
    if AgreementSeenAt(readings, k) {
      assert VersionReadable(readings(k));
      forall j: nat | j <= k ensures SkewReadable()(readings(j)) {
        assert VersionReadable(readings(j));
      }
    }
    if SkewJudge()(readings(k)) == Pass && forall j: nat :: j <= k ==> SkewReadable()(readings(j)) {
      forall j: nat | j <= k ensures VersionReadable(readings(j)) {
        assert SkewReadable()(readings(j));
      }
    }
  }

  // ---- in terms of the responses --------------------------------------------------------------------

  /** What is re-read, and what settles it: a stamped head that is not the expected one, until one that is, by
      either abbreviating the other, is seen before any reading without a stamp. */
  lemma DriftSettlesOn(lower: string -> string, expectation: Expectation, first: Probe, readings: nat -> Probe, k: nat)
    ensures DriftEligible(lower, expectation, first) <==>
              expectation.Expected? && Stamped(first) &&
              !OneAbbreviates(lower, Trim(first.body.sha), expectation.sha)
    ensures expectation.Expected? ==>
              (HeadSeenAt(lower, expectation.sha, readings, k) <==>
                 (forall j: nat :: j <= k ==> Stamped(readings(j))) &&
                 OneAbbreviates(lower, Trim(readings(k).body.sha), expectation.sha))
  {
    forall j: nat | j <= k ensures Stamped(readings(j)) <==> ReadSha(readings(j)).Some? {
    }
    hide Trim;
  }

  /** The same for the two images: stamped and different at first, until they are stamped and the same. */
  lemma SkewSettlesOn(policy: SettlePolicy, first: VersionReading, readings: nat -> VersionReading, k: nat)
    ensures SkewEligible(policy, first) <==>
              policy.Policy? && Stamped(first.api) && Stamped(first.web) &&
              Trim(first.api.body.sha) != Trim(first.web.body.sha)
    ensures AgreementSeenAt(readings, k) <==>
              (forall j: nat :: j <= k ==> Stamped(readings(j).api) && Stamped(readings(j).web)) &&
              Trim(readings(k).api.body.sha) == Trim(readings(k).web.body.sha)
  {
    forall j: nat | j <= k
      ensures Stamped(readings(j).api) && Stamped(readings(j).web) <==> VersionReadable(readings(j))
    {
    }
    hide Trim;
  }
}
