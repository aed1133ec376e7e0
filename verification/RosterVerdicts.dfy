/** What each refusal of the roster loader says, and what its rows hold, column by column
    (backend/src/scripts/roster-load.ts). */
module RosterVerdicts {
  import opened Options
  import opened PublishedTime
  import opened RosterLoad
  import opened Text

  // ---- dates ------------------------------------------------------------------------------

  /** Printed as a day, the numbers of a year, a month and a day of the month. */
  ghost predicate IsDate(s: string, y: nat, m: nat, d: nat) {
    y < 10_000 && m < 100 && d < 100 && s == PrintedDate(y, m, d)
  }

  lemma DayPieces(s: string, y: nat, m: nat, d: nat)
    ensures s == PrintedDate(y, m, d) <==>
              && |s| == 10 && s[0..4] == Digits(y, 4) && s[4] == '-' && s[5..7] == Digits(m, 2) && s[7] == '-'
              && s[8..10] == Digits(d, 2)
  {
    hide Digits;
    DatePieces(s, y, m, d);
    if PrintedDate(y, m, d) <= s && |s| == 10 {
      assert |PrintedDate(y, m, d)| == 10;
    }
  }

  /** A text is a day exactly when it is some date printed. */
  lemma DayIsDate(s: string) returns (y: nat, m: nat, d: nat)
    ensures IsDay(s) ==> IsDate(s, y, m, d)
  {
    hide Digits, PrintedDate, Pow10;
    y, m, d := 0, 0, 0;
    if IsDay(s) {
      WidthsInUse();
      DigitsOfDay(s);
      y, m, d := MeetingInstant.NumberAt(s, 0, 4), MeetingInstant.NumberAt(s, 5, 2), MeetingInstant.NumberAt(s, 8, 2);
      NumberPrints(s, 0, 4);
      NumberPrints(s, 5, 2);
      NumberPrints(s, 8, 2);
      DayPieces(s, y, m, d);
    }
  }

  lemma DigitsOfDay(s: string)
    requires IsDay(s)
    ensures MeetingInstant.DigitsAt(s, 0, 4) && MeetingInstant.DigitsAt(s, 5, 2) && MeetingInstant.DigitsAt(s, 8, 2)
    ensures s[4] == '-' && s[7] == '-'
  {
    forall k | 0 <= k < 10 && k != 4 && k != 7 ensures IsDigit(s[k]) {
    }
  }

  lemma DateIsDay(s: string, y: nat, m: nat, d: nat)
    requires IsDate(s, y, m, d)
    ensures IsDay(s)
  {
    hide Digits, PrintedDate, Pow10;
    WidthsInUse();
    DayPieces(s, y, m, d);
    DigitsReadBack(s, 0, y, 4);
    DigitsReadBack(s, 5, m, 2);
    DigitsReadBack(s, 8, d, 2);
    forall k | 0 <= k < 10 && k != 4 && k != 7 ensures IsDigit(s[k]) {
    }
  }

  lemma {:induction false} ValueOfDigits(front: string, n: nat, width: nat)
    requires n < Pow10(width)
    ensures DayValue(front + Digits(n, width)) == DayValue(front) * Pow10(width) + n
    decreases width
  {
    if width == 0 {
      assert front + Digits(n, 0) == front;
    } else {
      var s := front + Digits(n, width);
      assert s[..|s| - 1] == front + Digits(n / 10, width - 1);
      assert s[|s| - 1] == DigitChar(n % 10);
      assert DayValue(s) == 10 * DayValue(front + Digits(n / 10, width - 1)) + n % 10;
      ValueOfDigits(front, n / 10, width - 1);
      Regroup(DayValue(front), Pow10(width - 1), n);
    }
  }

  lemma Regroup(v: int, p: int, n: nat)
    ensures 10 * (v * p + n / 10) + n % 10 == v * (10 * p) + n
  {
  }

  lemma ValueOfDash(front: string)
    ensures DayValue(front + "-") == DayValue(front)
  {
    assert (front + "-")[..|front|] == front;
  }

  /** A printed date's value is its three numbers, the year first. */
  lemma ValueOfDate(s: string, y: nat, m: nat, d: nat)
    requires IsDate(s, y, m, d)
    ensures DayValue(s) == 10_000 * y + 100 * m + d
  {
    hide DayValue, Digits, Pow10;
    WidthsInUse();
    ValueOfDigits("", y, 4);
    assert DayValue("") == 0 by {
      NoValue();
    }
    assert "" + Digits(y, 4) == Digits(y, 4);
    ValueOfDash(Digits(y, 4));
    ValueOfDigits(Digits(y, 4) + "-", m, 2);
    ValueOfDash(Digits(y, 4) + "-" + Digits(m, 2));
    ValueOfDigits(Digits(y, 4) + "-" + Digits(m, 2) + "-", d, 2);
  }

  lemma NoValue()
    ensures DayValue("") == 0
  {
  }

  /** One date comes before another: by year, then by month, then by day. */
  ghost predicate Before(a: string, b: string) {
    exists y: nat, m: nat, d: nat, y': nat, m': nat, d': nat ::
      IsDate(a, y, m, d) && IsDate(b, y', m', d') && (y < y' || (y == y' && (m < m' || (m == m' && d < d'))))
  }

  lemma BeforeIsTextLess(a: string, b: string)
    requires IsDay(a) && IsDay(b)
    ensures Before(a, b) <==> TextLess(a, b)
  {
    hide IsDate, DayValue, TextLess;
    assert SameShape(a, b) by {
      DaysHaveOneShape(a, b);
    }
    TextOrderIsDateOrder(a, b);
    var y, m, d := DayIsDate(a);
    var y', m', d' := DayIsDate(b);
    NumbersTellOrder(a, y, m, d, b, y', m', d');
    if Before(a, b) {
      var p: nat, q: nat, r: nat, p': nat, q': nat, r': nat :|
        IsDate(a, p, q, r) && IsDate(b, p', q', r') && (p < p' || (p == p' && (q < q' || (q == q' && r < r'))));
      NumbersTellOrder(a, p, q, r, b, p', q', r');
    }
  }

  lemma NumbersTellOrder(a: string, y: nat, m: nat, d: nat, b: string, y': nat, m': nat, d': nat)
    requires IsDate(a, y, m, d) && IsDate(b, y', m', d')
    ensures DayValue(a) < DayValue(b) <==> (y < y' || (y == y' && (m < m' || (m == m' && d < d'))))
  {
    ValueOfDate(a, y, m, d);
    ValueOfDate(b, y', m', d');
    hide DayValue, PrintedDate;
  }

  lemma DaysHaveOneShape(a: string, b: string)
    requires IsDay(a) && IsDay(b)
    ensures SameShape(a, b)
  {
    forall k | 0 <= k < 10 ensures (IsDigit(a[k]) && IsDigit(b[k])) || (a[k] == b[k] && !IsDigit(a[k])) {
    }
  }

  ghost predicate IsSomeDate(s: string) { exists y: nat, m: nat, d: nat :: IsDate(s, y, m, d) }

  lemma DayIsSomeDate(s: string)
    ensures IsDay(s) <==> IsSomeDate(s)
  {
    hide IsDay, IsDate;
    var y, m, d := DayIsDate(s);
    if IsSomeDate(s) {
      var p: nat, q: nat, r: nat :| IsDate(s, p, q, r);
      DateIsDay(s, p, q, r);
    }
  }

  // ---- identifiers ----------------------------------------------------------------------------

  /** `n` hexadecimal digits of either case. */
  predicate HexText(t: string, n: nat) { |t| == n && forall k :: 0 <= k < n ==> t[k] in "0123456789abcdefABCDEF" }

  /** Five groups of hexadecimal digits between dashes: 8, 4, 4, 4 and 12 of them. */
  ghost predicate IsGrouped(s: string) {
    exists a, b, c, d, e :: HexText(a, 8) && HexText(b, 4) && HexText(c, 4) && HexText(d, 4) && HexText(e, 12) &&
      s == a + "-" + b + "-" + c + "-" + d + "-" + e
  }

  lemma HexIs(c: char)
    ensures IsHex(c) <==> c in "0123456789abcdefABCDEF"
  {
  }

  lemma HexAt(s: string, from: nat, until: nat)
    requires from <= until <= |s| && forall k :: from <= k < until ==> IsHex(s[k])
    ensures HexText(s[from..until], until - from)
  {
    hide IsHex;
    forall k | 0 <= k < until - from ensures s[from..until][k] in "0123456789abcdefABCDEF" {
      assert s[from..until][k] == s[from + k];
      HexIs(s[from + k]);
    }
  }

  lemma HexFrom(t: string, n: nat, s: string, from: nat)
    requires HexText(t, n) && from + n <= |s| && s[from..from + n] == t
    ensures forall k :: from <= k < from + n ==> IsHex(s[k])
  {
    hide IsHex;
    forall k | from <= k < from + n ensures IsHex(s[k]) {
      assert s[k] == t[k - from];
      HexIs(t[k - from]);
    }
  }

  lemma GroupsAt(a: string, b: string, c: string, d: string, e: string, s: string)
    requires |a| == 8 && |b| == |c| == |d| == 4 && |e| == 12 && s == a + "-" + b + "-" + c + "-" + d + "-" + e
    ensures |s| == 36 && s[8] == s[13] == s[18] == s[23] == '-'
    ensures s[0..8] == a && s[9..13] == b && s[14..18] == c && s[19..23] == d && s[24..36] == e
  {
  }

  lemma UuidIsGrouped(s: string)
    ensures IsUuid(s) <==> IsGrouped(s)
  {
    hide IsUuid, HexText;
    if IsUuid(s) {
      UuidGroups(s);
    }
    if a, b, c, d, e :| HexText(a, 8) && HexText(b, 4) && HexText(c, 4) && HexText(d, 4) && HexText(e, 12) &&
                        s == a + "-" + b + "-" + c + "-" + d + "-" + e {
      GroupedIsUuid(a, b, c, d, e, s);
    }
  }

  lemma UuidGroups(s: string)
    requires IsUuid(s)
    ensures IsGrouped(s)
  {
    hide IsHex, HexText;
    HexAt(s, 0, 8);
    HexAt(s, 9, 13);
    HexAt(s, 14, 18);
    HexAt(s, 19, 23);
    HexAt(s, 24, 36);
    Dashed(s);
    hide IsUuid;
    var a, b, c, d, e := s[0..8], s[9..13], s[14..18], s[19..23], s[24..36];
    assert HexText(a, 8) && HexText(b, 4) && HexText(c, 4) && HexText(d, 4) && HexText(e, 12);
  }

  lemma Dashed(s: string)
    requires |s| == 36 && s[8] == s[13] == s[18] == s[23] == '-'
    ensures s == s[0..8] + "-" + s[9..13] + "-" + s[14..18] + "-" + s[19..23] + "-" + s[24..36]
  {
  }

  lemma GroupedIsUuid(a: string, b: string, c: string, d: string, e: string, s: string)
    requires HexText(a, 8) && HexText(b, 4) && HexText(c, 4) && HexText(d, 4) && HexText(e, 12)
    requires s == a + "-" + b + "-" + c + "-" + d + "-" + e
    ensures IsUuid(s)
  {
    HexLengths(a, b, c, d, e);
    hide IsHex, HexText;
    GroupsAt(a, b, c, d, e, s);
    HexFrom(a, 8, s, 0);
    HexFrom(b, 4, s, 9);
    HexFrom(c, 4, s, 14);
    HexFrom(d, 4, s, 19);
    HexFrom(e, 12, s, 24);
  }

  lemma HexLengths(a: string, b: string, c: string, d: string, e: string)
    requires HexText(a, 8) && HexText(b, 4) && HexText(c, 4) && HexText(d, 4) && HexText(e, 12)
    ensures |a| == 8 && |b| == |c| == |d| == 4 && |e| == 12
  {
  }

  // ---- what an entry can be refused for ------------------------------------------------------------

  /** A name, and dates of which the end, if there is one, is not before the start. */
  ghost predicate WellFormed(e: Entry) {
    && Trim(e.name) != "" && IsSomeDate(e.termStart)
    && (e.termEnd.Some? ==> IsSomeDate(e.termEnd.value) && !Before(e.termEnd.value, e.termStart))
  }

  /** The seat, the person's name in any case and the start of the term, is taken by an earlier entry. */
  ghost predicate Taken(p: Platform, entries: seq<Entry>, k: nat)
    requires k < |entries|
  {
    exists j :: 0 <= j < k && WellFormed(entries[j]) && entries[j].termStart == entries[k].termStart &&
                p.lower(Trim(entries[j].name)) == p.lower(Trim(entries[k].name))
  }

  /** The page has letters, and the name's letter words are not among its own, one after another. */
  ghost predicate Missing(p: Platform, artifact: seq<byte>, name: string) {
    var words := LetterWords(p.lower, StripTags(p.decode(artifact)));
    && artifact != [] && 0 !in artifact && words != []
    && !(LetterWords(p.lower, name) != [] && ContiguousRun(words, LetterWords(p.lower, name)))
  }

  /** What entry `k` is refused for, if anything. */
  ghost predicate Earns(p: Platform, input: Input, k: nat, refusal: Refusal)
    requires k < |input.entries|
  {
    var e := input.entries[k];
    var name := Trim(e.name);
    match refusal
    case NoName => name == ""
    case BadTermStart(n) => n == name != "" && !IsSomeDate(e.termStart)
    case BadTermEnd(n) => n == name != "" && IsSomeDate(e.termStart) && e.termEnd.Some? && !IsSomeDate(e.termEnd.value)
    case EndsBeforeStart(n) =>
      n == name != "" && IsSomeDate(e.termStart) && e.termEnd.Some? && IsSomeDate(e.termEnd.value) &&
      Before(e.termEnd.value, e.termStart)
    case ListedTwice(n) => n == name && WellFormed(e) && Taken(p, input.entries, k)
    case NotInBytes(n) =>
      n == name && WellFormed(e) && !Taken(p, input.entries, k) && Missing(p, input.artifact, name)
    case _ => false
  }

  lemma DefectIs(e: Entry)
    ensures EntryDefect(e).None? <==> WellFormed(e)
    ensures EntryDefect(e) == Some(NoName) <==> Trim(e.name) == ""
    ensures forall n :: EntryDefect(e) == Some(BadTermStart(n)) <==> n == Trim(e.name) != "" && !IsSomeDate(e.termStart)
    ensures forall n :: EntryDefect(e) == Some(BadTermEnd(n)) <==>
              n == Trim(e.name) != "" && IsSomeDate(e.termStart) && e.termEnd.Some? && !IsSomeDate(e.termEnd.value)
    ensures forall n :: EntryDefect(e) == Some(EndsBeforeStart(n)) <==>
              n == Trim(e.name) != "" && IsSomeDate(e.termStart) && e.termEnd.Some? && IsSomeDate(e.termEnd.value) &&
              Before(e.termEnd.value, e.termStart)
    ensures EntryDefect(e).Some? ==>
              EntryDefect(e).value.NoName? || EntryDefect(e).value.BadTermStart? || EntryDefect(e).value.BadTermEnd? ||
              EntryDefect(e).value.EndsBeforeStart?
  {
    hide Trim, IsDay, IsSomeDate, Before, TextLess;
    DayIsSomeDate(e.termStart);
    if e.termEnd.Some? {
      DayIsSomeDate(e.termEnd.value);
      if IsDay(e.termStart) && IsDay(e.termEnd.value) {
        BeforeIsTextLess(e.termEnd.value, e.termStart);
      }
    }
  }

  lemma TakenIs(p: Platform, entries: seq<Entry>, k: nat)
    requires k < |entries|
    ensures ListedBefore(p.lower, entries, k) <==> Taken(p, entries, k)
  {
    hide WellFormed, EntryDefect, Trim;
    forall j | 0 <= j < k ensures EntryDefect(entries[j]).None? <==> WellFormed(entries[j]) {
      DefectIs(entries[j]);
    }
  }

  lemma MissingIs(p: Platform, artifact: seq<byte>, name: string)
    ensures RosterText(p, artifact) != "" && !BytesContainName(p.lower, RosterText(p, artifact), name) <==>
            Missing(p, artifact, name)
  {
    hide SearchableText, BytesContainName, LetterWords, StripTags, ContiguousRun;
    NameSearchIsWordSearch(p.lower, p.decode(artifact), name);
    LetterlessIsEmpty(p.lower, p.decode(artifact));
  }

  lemma LetterlessIsEmpty(lower: string -> string, decoded: string)
    ensures SearchableText(lower, decoded) == "" <==> LetterWords(lower, StripTags(decoded)) == []
  {
    LetterWordsShape(lower, StripTags(decoded));
  }

  lemma VerdictIs(p: Platform, input: Input, k: nat, refusal: Refusal)
    requires k < |input.entries|
    ensures Verdict(p.lower, RosterText(p, input.artifact), input.entries, k) == Some(refusal) <==>
            Earns(p, input, k, refusal)
  {
    hide WellFormed, Taken, Missing, EntryDefect, ListedBefore, RosterText, BytesContainName, Trim, IsSomeDate, Before;
    DefectIs(input.entries[k]);
    TakenIs(p, input.entries, k);
    MissingIs(p, input.artifact, Trim(input.entries[k].name));
  }

  lemma {:induction false} EntryRefusalMember(lower: string -> string, text: string, entries: seq<Entry>, n: nat,
                                              refusal: Refusal)
    requires n <= |entries|
    ensures refusal in EntryRefusals(lower, text, entries, n) <==>
              exists k: nat :: k < n && Verdict(lower, text, entries, k) == Some(refusal)
  {
    hide Verdict;
    if n == 0 {
    } else {
      EntryRefusalMember(lower, text, entries, n - 1, refusal);
    }
  }

  // ---- the main results -----------------------------------------------------------------------------

  /** What is wrong with the load as a whole. */
  ghost predicate Faulty(p: Platform, input: Input, now: int, refusal: Refusal) {
    match refusal
    case BadJurisdiction => !IsGrouped(input.jurisdictionId)
    case BadUrl => !p.isHttpUrl(input.sourceUrl)
    case FetchedNotADate => p.parseDate(input.fetchedAt).None?
    case FetchedInFuture => p.parseDate(input.fetchedAt).Some? && p.parseDate(input.fetchedAt).value > now
    case NotText => input.artifact == [] || 0 in input.artifact
    case EmptyRoster => input.entries == []
    case _ => false
  }

  /** A refusal is earned by the load as a whole or by one of its entries. */
  ghost predicate Earned(p: Platform, input: Input, now: int, refusal: Refusal) {
    Faulty(p, input, now, refusal) || exists k: nat :: k < |input.entries| && Earns(p, input, k, refusal)
  }

  lemma HeaderRefusalMember(p: Platform, input: Input, now: int, refusal: Refusal)
    ensures refusal in HeaderRefusals(p, input, now) <==> Faulty(p, input, now, refusal)
  {
    hide IsUuid, IsGrouped;
    UuidIsGrouped(input.jurisdictionId);
  }

  /** The loader refuses for exactly what is wrong: each refusal it reports is earned, and each that is earned
      is reported; it plans exactly when none is. */
  lemma RefusalsAreEarned(p: Platform, input: Input, now: int, refusal: Refusal)
    ensures PlanOf(p, input, now).Refused? ==>
              (refusal in PlanOf(p, input, now).refusals <==> Earned(p, input, now, refusal))
    ensures Earned(p, input, now, refusal) ==> PlanOf(p, input, now).Refused?
    ensures PlanOf(p, input, now).Refused? ==> exists r :: Earned(p, input, now, r)
  {
    EarnedIs(p, input, now, refusal);
    hide HeaderRefusals, EntryRefusals, MembersOf, Earned;
    if PlanOf(p, input, now).Refused? {
      EarnedIs(p, input, now, PlanOf(p, input, now).refusals[0]);
    }
  }

  lemma EarnedIs(p: Platform, input: Input, now: int, refusal: Refusal)
    ensures refusal in HeaderRefusals(p, input, now) +
                       EntryRefusals(p.lower, RosterText(p, input.artifact), input.entries, |input.entries|) <==>
            Earned(p, input, now, refusal)
  {
    hide HeaderRefusals, EntryRefusals, Verdict, Earns, Faulty, RosterText;
    HeaderRefusalMember(p, input, now, refusal);
    EntryRefusalMember(p.lower, RosterText(p, input.artifact), input.entries, |input.entries|, refusal);
    forall k: nat | k < |input.entries|
      ensures Verdict(p.lower, RosterText(p, input.artifact), input.entries, k) == Some(refusal) <==>
              Earns(p, input, k, refusal)
    {
      VerdictIs(p, input, k, refusal);
    }
  }

  /** A plan's rows are the entries in order, column by column: names and titles trimmed, a blank title left
      out, and on each the jurisdiction, the address, the time of fetching and the sha of what was fetched. */
  lemma PlanColumns(p: Platform, input: Input, now: int)
    requires PlanOf(p, input, now).Planned?
    ensures var plan := PlanOf(p, input, now).plan;
            && plan.sha256 == p.sha256(input.artifact) && |plan.rows| == |input.entries|
            && forall k :: 0 <= k < |plan.rows| ==>
                 var row, e := plan.rows[k], input.entries[k];
                 && row.name == Trim(e.name) && row.termStart == e.termStart && row.termEnd == e.termEnd
                 && (if e.title.Some? && Trim(e.title.value) != "" then row.title == Some(Trim(e.title.value))
                     else row.title == None)
                 && row.jurisdictionId == input.jurisdictionId && row.sourceUrl == input.sourceUrl
                 && Some(row.fetchedAt) == p.parseDate(input.fetchedAt) && row.sha256 == p.sha256(input.artifact)
  {
    hide Trim, RosterText, EntryRefusals, HeaderRefusals;
    PlanIsAllOrNothing(p, input, now);
    FetchedIsDate(p, input, now);
  }

  lemma FetchedIsDate(p: Platform, input: Input, now: int)
    requires PlanOf(p, input, now).Planned?
    ensures p.parseDate(input.fetchedAt).Some?
  {
    RefusalsAreEarned(p, input, now, FetchedNotADate);
    hide IsGrouped, PlanOf;
  }

  /** The order refusals are reported in: where it was fetched from and when, then the page, then the roster,
      then the entries. */
  function Place(refusal: Refusal): nat {
    match refusal
    case BadJurisdiction => 0
    case BadUrl => 1
    case FetchedNotADate => 2
    case FetchedInFuture => 2
    case NotText => 3
    case EmptyRoster => 4
    case _ => 5
  }

  lemma SourceInOrder(p: Platform, input: Input, now: int)
    ensures var refusals := SourceRefusals(p, input, now);
            && (forall i, j :: 0 <= i < j < |refusals| ==> Place(refusals[i]) < Place(refusals[j]))
            && forall i :: 0 <= i < |refusals| ==> Place(refusals[i]) < 3
  {
    hide IsUuid;
  }

  lemma HeaderInOrder(p: Platform, input: Input, now: int)
    ensures var refusals := HeaderRefusals(p, input, now);
            && (forall i, j :: 0 <= i < j < |refusals| ==> Place(refusals[i]) < Place(refusals[j]))
            && forall i :: 0 <= i < |refusals| ==> Place(refusals[i]) < 5
  {
    hide SourceRefusals, LooksLikeText;
    SourceInOrder(p, input, now);
  }

  lemma {:induction false} EntriesInOrder(lower: string -> string, text: string, entries: seq<Entry>, n: nat, m: nat)
    requires n <= m <= |entries|
    ensures EntryRefusals(lower, text, entries, n) <= EntryRefusals(lower, text, entries, m)
    ensures forall i :: 0 <= i < |EntryRefusals(lower, text, entries, m)| ==>
              Place(EntryRefusals(lower, text, entries, m)[i]) == 5
    decreases m
  {
    hide ListedBefore, BytesContainName, IsDay, Trim, TextLess;
    if m == 0 {
    } else {
      EntriesInOrder(lower, text, entries, if n < m then n else n - 1, m - 1);
    }
  }

  /** Refusals come in the order of the checks, those of the entries in the order of the roster: refusals of
      the first `n` entries are followed by those of later ones. */
  lemma RefusalsInOrder(p: Platform, input: Input, now: int, n: nat)
    requires n <= |input.entries| && PlanOf(p, input, now).Refused?
    ensures var refusals, text := PlanOf(p, input, now).refusals, RosterText(p, input.artifact);
            && (forall i, j :: 0 <= i < j < |refusals| ==>
                  Place(refusals[i]) < Place(refusals[j]) || Place(refusals[i]) == Place(refusals[j]) == 5)
            && HeaderRefusals(p, input, now) + EntryRefusals(p.lower, text, input.entries, n) <= refusals
  {
    hide HeaderRefusals, EntryRefusals, RosterText, Place;
    HeaderInOrder(p, input, now);
    EntriesInOrder(p.lower, RosterText(p, input.artifact), input.entries, n, |input.entries|);
  }
}
