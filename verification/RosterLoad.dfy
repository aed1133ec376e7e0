/** Loading a roster only when the fetched bytes hold every name on it
    (backend/src/scripts/roster-load.ts). */
module RosterLoad {
  import opened Options
  import opened Text

  newtype byte = x: int | 0 <= x < 256

  /** What the loader takes from its platform: UTF-8 decoding, case folding, SHA-256, URL and date parsing. */
  datatype Platform = Platform(decode: seq<byte> -> string, lower: string -> string, sha256: seq<byte> -> string,
                               isHttpUrl: string -> bool, parseDate: string -> Option<int>)

  // ---- searchable text -----------------------------------------------------------------

  function IndexOf(s: string, c: char): (n: nat)
    ensures n <= |s| && (n < |s| <==> c in s) && (n < |s| ==> s[n] == c)
    ensures forall k :: 0 <= k < n ==> s[k] != c
  {
    if s == [] || s[0] == c then 0 else 1 + IndexOf(s[1..], c)
  }

  /** `replace(/<[^>]*>/g, " ")`. */
  function StripTags(s: string): string
    decreases |s|
  {
    if s == [] then []
    else if s[0] == '<' && '>' in s then " " + StripTags(s[IndexOf(s, '>') + 1..])
    else [s[0]] + StripTags(s[1..])
  }

  predicate HasTag(s: string) { exists i, j :: 0 <= i < j < |s| && s[i] == '<' && s[j] == '>' }

  lemma TagBehindNothing(c: char, rest: string)
    requires !HasTag(rest) && (c != '<' || '>' !in rest)
    ensures !HasTag([c] + rest)
  {
    var all := [c] + rest;
    forall i, j | 0 <= i < j < |all| ensures !(all[i] == '<' && all[j] == '>') {
      assert all[j] == rest[j - 1] && (i > 0 ==> all[i] == rest[i - 1]);
    }
  }

  /** Stripping leaves no tag behind, and leaves text without a tag as it was. */
  lemma {:induction false} StripTagsStrips(s: string)
    ensures !HasTag(StripTags(s))
    ensures '>' !in s ==> StripTags(s) == s
    ensures '<' !in s ==> StripTags(s) == s
    decreases |s|
  {
    if s == [] {
    } else if s[0] == '<' && '>' in s {
      hide HasTag;
      var rest := s[IndexOf(s, '>') + 1..];
      StripTagsStrips(rest);
      TagBehindNothing(' ', StripTags(rest));
    } else {
      hide HasTag;
      assert s == [s[0]] + s[1..];
      StripTagsStrips(s[1..]);
      TagBehindNothing(s[0], StripTags(s[1..]));
    }
  }

  lemma IndexOfFirst(front: string, c: char, rest: string)
    requires c !in front
    ensures IndexOf(front + [c] + rest, c) == |front|
  {
    var s := front + [c] + rest;
    assert s[|front|] == c;
    assert forall k :: 0 <= k < |front| ==> s[k] == front[k];
  }

  lemma TagStripped(inner: string, rest: string)
    requires '>' !in inner
    ensures StripTags("<" + inner + ">" + rest) == " " + StripTags(rest)
  {
    var s := "<" + inner + ">" + rest;
    IndexOfFirst("<" + inner, '>', rest);
    hide IndexOf;
    assert s == ("<" + inner) + ['>'] + rest;
    assert s[0] == '<' && s[|inner| + 1] == '>' && s[|inner| + 2..] == rest;
  }

  lemma PlainStays(c: char, s: string)
    requires c != '<'
    ensures StripTags([c] + s) == [c] + StripTags(s)
  {
    assert ([c] + s)[1..] == s;
  }

  /** The first tag becomes one space, and what follows is stripped the same way: with `StripTagsStrips` for
      text without one, this is all there is to it. */
  lemma {:induction false} TagBecomesSpace(front: string, inner: string, rest: string)
    requires '<' !in front && '>' !in inner
    ensures StripTags(front + ("<" + inner + ">" + rest)) == front + (" " + StripTags(rest))
    decreases |front|
  {
    hide StripTags;
    var tagged := "<" + inner + ">" + rest;
    if front == "" {
      assert front + tagged == tagged;
      TagStripped(inner, rest);
    } else {
      var c, more := front[0], front[1..];
      assert front == [c] + more && c in front;
      assert [c] + (more + tagged) == front + tagged;
      PlainStays(c, more + tagged);
      TagBecomesSpace(more, inner, rest);
    }
  }

  predicate NotLetter(c: char) { !IsLowerLetter(c) }

  /** Letters in lower case, everything else one space: the form both sides of the search take. */
  function Plain(lower: string -> string, s: string): string { Flatten(NotLetter, lower(s)) }

  /** `searchableText`, over the decoded bytes. */
  function SearchableText(lower: string -> string, decoded: string): string { Plain(lower, StripTags(decoded)) }

  /** The words of a text as the search sees them: runs of letters, case folded. */
  function LetterWords(lower: string -> string, s: string): seq<string> { Words(NotLetter, lower(s)) }

  /** `bytesContainName`. */
  predicate BytesContainName(lower: string -> string, text: string, name: string) {
    var needle := Plain(lower, name);
    needle != "" && Includes(" " + text + " ", " " + needle + " ")
  }

  lemma LetterWordsShape(lower: string -> string, s: string)
    ensures Plain(lower, s) == Join(LetterWords(lower, s))
    ensures Spaceless(LetterWords(lower, s))
    ensures Plain(lower, s) == "" <==> LetterWords(lower, s) == []
  {
    assert SpacesSeparate(NotLetter);
    FlattenIsJoinedWords(NotLetter, lower(s));
    WordsAreWords(NotLetter, lower(s));
    JoinTrimmed(NotLetter, LetterWords(lower, s));
    forall i | 0 <= i < |LetterWords(lower, s)|
      ensures LetterWords(lower, s)[i] != [] && ' ' !in LetterWords(lower, s)[i]
    {
      assert IsWord(NotLetter, LetterWords(lower, s)[i]);
    }
  }

  /** The padded substring test is the word test: a name is found exactly when it has a letter and its
      words are a contiguous run of the tag-stripped text's words. */
  lemma NameSearchIsWordSearch(lower: string -> string, decoded: string, name: string)
    ensures BytesContainName(lower, SearchableText(lower, decoded), name) <==>
            LetterWords(lower, name) != [] &&
            ContiguousRun(LetterWords(lower, StripTags(decoded)), LetterWords(lower, name))
  {
    LetterWordsShape(lower, StripTags(decoded));
    LetterWordsShape(lower, name);
    if LetterWords(lower, name) != [] {
      PaddedSearchIsWordSearch(LetterWords(lower, StripTags(decoded)), LetterWords(lower, name));
    }
  }

  predicate IsPlain(s: string) { forall k :: 0 <= k < |s| ==> IsLowerLetter(s[k]) || s[k] == ' ' }

  lemma {:induction false} JoinIsPlain(ws: seq<string>)
    requires AllWords(NotLetter, ws)
    ensures IsPlain(Join(ws))
  {
    if ws == [] {
    } else {
      assert IsWord(NotLetter, ws[0]);
      if |ws| > 1 {
        JoinIsPlain(ws[1..]);
      }
    }
  }

  /** Both flattenings are normal forms: flattening again changes nothing. */
  lemma FlatteningsIdempotent(lower: string -> string, s: string)
    requires CaseFolding(lower)
    ensures Plain(lower, Plain(lower, s)) == Plain(lower, s)
    ensures SearchableText(lower, SearchableText(lower, s)) == SearchableText(lower, s)
  {
    hide Plain, CaseFolding;
    PlainIsPlain(lower, s);
    PlainIsPlain(lower, StripTags(s));
    StripTagsStrips(SearchableText(lower, s));
  }

  lemma PlainIsPlain(lower: string -> string, t: string)
    requires CaseFolding(lower)
    ensures Plain(lower, Plain(lower, t)) == Plain(lower, t) && '<' !in Plain(lower, t)
  {
    LetterWordsShape(lower, t);
    WordsAreWords(NotLetter, lower(t));
    JoinIsPlain(LetterWords(lower, t));
    PlainIsFolded(lower, Plain(lower, t));
    assert SpacesSeparate(NotLetter);
    FlattenIdempotent(NotLetter, lower(t));
    hide Flatten, CaseFolding, Join, LetterWords;
  }

  lemma PlainIsFolded(lower: string -> string, flat: string)
    requires CaseFolding(lower) && IsPlain(flat)
    ensures lower(flat) == flat && '<' !in flat
  {
    assert IsAscii(flat);
    assert lower(flat) == AsciiLower(flat);
    assert AsciiLower(flat) == flat;
  }

  // ---- dates as text ------------------------------------------------------------------------

  /** `DAY_RE`. */
  predicate IsDay(s: string) {
    |s| == 10 && forall k :: 0 <= k < 10 ==> if k == 4 || k == 7 then s[k] == '-' else IsDigit(s[k])
  }

  /** `a < b` on strings. */
  predicate TextLess(a: string, b: string) {
    b != [] && (a == [] || a[0] < b[0] || (a[0] == b[0] && TextLess(a[1..], b[1..])))
  }

  /** A date's digits as one number, year then month then day. */
  function DayValue(s: string): int {
    if s == [] then 0
    else
      var front, c := DayValue(s[..|s| - 1]), s[|s| - 1];
      if IsDigit(c) then 10 * front + ((c as int) - ('0' as int)) else front
  }

  lemma {:induction false} TextLessLast(a: string, b: string, x: char, y: char)
    requires |a| == |b|
    ensures TextLess(a + [x], b + [y]) <==> TextLess(a, b) || (a == b && x < y)
  {
    if a != [] {
      assert (a + [x])[1..] == a[1..] + [x] && (b + [y])[1..] == b[1..] + [y];
      TextLessLast(a[1..], b[1..], x, y);
      assert a == [a[0]] + a[1..] && b == [b[0]] + b[1..];
    } else {
      assert a + [x] == [x] && b + [y] == [y];
    }
  }

  predicate SameShape(a: string, b: string) {
    |a| == |b| && forall k :: 0 <= k < |a| ==> (IsDigit(a[k]) && IsDigit(b[k])) || (a[k] == b[k] && !IsDigit(a[k]))
  }

  lemma {:induction false} TextOrderIsDateOrder(a: string, b: string)
    requires SameShape(a, b)
    ensures TextLess(a, b) <==> DayValue(a) < DayValue(b)
    ensures a == b <==> DayValue(a) == DayValue(b)
  {
    if a == [] {
    } else {
      var n := |a| - 1;
      TextOrderIsDateOrder(a[..n], b[..n]);
      TextLessLast(a[..n], b[..n], a[n], b[n]);
      assert a == a[..n] + [a[n]] && b == b[..n] + [b[n]];
    }
  }

  // ---- the plan ---------------------------------------------------------------------------------

  datatype Entry = Entry(name: string, title: Option<string>, termStart: string, termEnd: Option<string>)

  datatype Input = Input(jurisdictionId: string, artifact: seq<byte>, sourceUrl: string, fetchedAt: string,
                         entries: seq<Entry>)

  datatype Member = Member(jurisdictionId: string, name: string, title: Option<string>, termStart: string,
                           termEnd: Option<string>, sourceUrl: string, fetchedAt: int, sha256: string)

  datatype Plan = Plan(sha256: string, rows: seq<Member>)

  datatype Refusal =
    | BadJurisdiction | BadUrl | FetchedNotADate | FetchedInFuture | NotText | EmptyRoster
    | NoName | BadTermStart(name: string) | BadTermEnd(name: string) | EndsBeforeStart(name: string)
    | ListedTwice(name: string) | NotInBytes(name: string)

  datatype Result = Planned(plan: Plan) | Refused(refusals: seq<Refusal>)

  predicate IsHex(c: char) { IsDigit(c) || 'a' <= c <= 'f' || 'A' <= c <= 'F' }

  /** `UUID_RE`. */
  predicate IsUuid(s: string) {
    |s| == 36 && forall k :: 0 <= k < 36 ==> if k in {8, 13, 18, 23} then s[k] == '-' else IsHex(s[k])
  }

  predicate LooksLikeText(artifact: seq<byte>) { artifact != [] && 0 !in artifact }

  function When(defect: bool, refusal: Refusal): seq<Refusal> { if defect then [refusal] else [] }

  function FetchRefusals(p: Platform, input: Input, now: int): seq<Refusal> {
    match p.parseDate(input.fetchedAt)
    case None => [FetchedNotADate]
    case Some(t) => When(t > now, FetchedInFuture)
  }

  function SourceRefusals(p: Platform, input: Input, now: int): seq<Refusal> {
    When(!IsUuid(input.jurisdictionId), BadJurisdiction) + When(!p.isHttpUrl(input.sourceUrl), BadUrl) +
    FetchRefusals(p, input, now)
  }

  /** What is wrong with everything but the entries. */
  function HeaderRefusals(p: Platform, input: Input, now: int): seq<Refusal> {
    SourceRefusals(p, input, now) + When(!LooksLikeText(input.artifact), NotText) +
      When(input.entries == [], EmptyRoster)
  }

  function RosterText(p: Platform, artifact: seq<byte>): string {
    if LooksLikeText(artifact) then SearchableText(p.lower, p.decode(artifact)) else ""
  }

  /** What is wrong with an entry on its own, before it is compared with the others. */
  function EntryDefect(e: Entry): Option<Refusal> {
    var name := Trim(e.name);
    if name == "" then Some(NoName)
    else if !IsDay(e.termStart) then Some(BadTermStart(name))
    else if e.termEnd.Some? && !IsDay(e.termEnd.value) then Some(BadTermEnd(name))
    else if e.termEnd.Some? && TextLess(e.termEnd.value, e.termStart) then Some(EndsBeforeStart(name))
    else None
  }

  /** The same person for the same term start, ignoring the name's case. */
  predicate SameSeat(lower: string -> string, a: Entry, b: Entry) {
    lower(Trim(a.name)) == lower(Trim(b.name)) && a.termStart == b.termStart
  }

  predicate ListedBefore(lower: string -> string, entries: seq<Entry>, k: nat)
    requires k < |entries|
  {
    exists j :: 0 <= j < k && EntryDefect(entries[j]).None? && SameSeat(lower, entries[j], entries[k])
  }

  /** The refusal entry `k` earns, if any. */
  function Verdict(lower: string -> string, text: string, entries: seq<Entry>, k: nat): Option<Refusal>
    requires k < |entries|
  {
    var e := entries[k];
    if EntryDefect(e).Some? then EntryDefect(e)
    else if ListedBefore(lower, entries, k) then Some(ListedTwice(Trim(e.name)))
    else if text != "" && !BytesContainName(lower, text, Trim(e.name)) then Some(NotInBytes(Trim(e.name)))
    else None
  }

  function EntryRefusals(lower: string -> string, text: string, entries: seq<Entry>, n: nat): seq<Refusal>
    requires n <= |entries|
  {
    if n == 0 then []
    else
      var before, verdict := EntryRefusals(lower, text, entries, n - 1), Verdict(lower, text, entries, n - 1);
      if verdict.Some? then before + [verdict.value] else before
  }

  function MemberOf(p: Platform, input: Input, e: Entry): Member {
    var fetched := p.parseDate(input.fetchedAt);
    Member(input.jurisdictionId, Trim(e.name),
           if e.title.Some? && Trim(e.title.value) != "" then Some(Trim(e.title.value)) else None,
           e.termStart, e.termEnd, input.sourceUrl, if fetched.Some? then fetched.value else 0,
           p.sha256(input.artifact))
  }

  function MembersOf(p: Platform, input: Input, text: string, n: nat): seq<Member>
    requires n <= |input.entries|
  {
    if n == 0 then []
    else
      var before := MembersOf(p, input, text, n - 1);
      if Verdict(p.lower, text, input.entries, n - 1).None? then before + [MemberOf(p, input, input.entries[n - 1])]
      else before
  }

  /** The plan, or every refusal, as a function of the input. */
  function PlanOf(p: Platform, input: Input, now: int): Result {
    var text, n := RosterText(p, input.artifact), |input.entries|;
    var refusals := HeaderRefusals(p, input, now) + EntryRefusals(p.lower, text, input.entries, n);
    if refusals != [] then Refused(refusals)
    else Planned(Plan(p.sha256(input.artifact), MembersOf(p, input, text, n)))
  }

  // ---- the code ------------------------------------------------------------------------------------

  function SeatKey(lower: string -> string, e: Entry): string { lower(Trim(e.name)) + "|" + e.termStart }

  lemma SeatKeyIsSeat(lower: string -> string, a: Entry, b: Entry)
    requires IsDay(a.termStart) && IsDay(b.termStart)
    ensures SeatKey(lower, a) == SeatKey(lower, b) <==> SameSeat(lower, a, b)
  {
    var x, y := SeatKey(lower, a), SeatKey(lower, b);
    assert x[|x| - 10..] == a.termStart && y[|y| - 10..] == b.termStart;
    assert x[..|x| - 11] == lower(Trim(a.name)) && y[..|y| - 11] == lower(Trim(b.name));
  }

  lemma KeyOfSoundIsSeat(lower: string -> string, a: Entry, b: Entry)
    requires EntryDefect(a).None? && EntryDefect(b).None?
    ensures SeatKey(lower, a) == SeatKey(lower, b) <==> SameSeat(lower, a, b)
  {
    hide SeatKey, SameSeat, IsDay, Trim;
    SeatKeyIsSeat(lower, a, b);
  }

  /** The keys of the sound entries before `n`. */
  ghost predicate SeenIs(lower: string -> string, entries: seq<Entry>, n: nat, seen: set<string>)
    requires n <= |entries|
  {
    forall key :: key in seen <==>
      exists j :: 0 <= j < n && EntryDefect(entries[j]).None? && SeatKey(lower, entries[j]) == key
  }

  lemma SeenMeansListed(lower: string -> string, entries: seq<Entry>, k: nat, seen: set<string>)
    requires k < |entries| && SeenIs(lower, entries, k, seen) && EntryDefect(entries[k]).None?
    ensures SeatKey(lower, entries[k]) in seen <==> ListedBefore(lower, entries, k)
    ensures SeenIs(lower, entries, k + 1, seen + {SeatKey(lower, entries[k])})
  {
    hide SeatKey, EntryDefect, SameSeat;
    var key := SeatKey(lower, entries[k]);
    if key in seen {
      var j :| 0 <= j < k && EntryDefect(entries[j]).None? && SeatKey(lower, entries[j]) == key;
      KeyOfSoundIsSeat(lower, entries[j], entries[k]);
    }
    if ListedBefore(lower, entries, k) {
      var j :| 0 <= j < k && EntryDefect(entries[j]).None? && SameSeat(lower, entries[j], entries[k]);
      KeyOfSoundIsSeat(lower, entries[j], entries[k]);
    }
  }

  /** The checks an entry goes through, in order, against the keys seen so far. */
  method CheckEntry(lower: string -> string, text: string, ghost entries: seq<Entry>, ghost k: nat, entry: Entry,
                    seen: set<string>) returns (verdict: Option<Refusal>, nowSeen: set<string>)
    requires k < |entries| && entry == entries[k] && SeenIs(lower, entries, k, seen)
    ensures verdict == Verdict(lower, text, entries, k)
    ensures SeenIs(lower, entries, k + 1, nowSeen)
  {
    nowSeen := seen;
    var name := Trim(entry.name);
    if name == "" {
      return Some(NoName), nowSeen;
    }
    if !IsDay(entry.termStart) {
      return Some(BadTermStart(name)), nowSeen;
    }
    if entry.termEnd.Some? && !IsDay(entry.termEnd.value) {
      return Some(BadTermEnd(name)), nowSeen;
    }
    if entry.termEnd.Some? && TextLess(entry.termEnd.value, entry.termStart) {
      return Some(EndsBeforeStart(name)), nowSeen;
    }
    var key := lower(name) + "|" + entry.termStart;
    SeenMeansListed(lower, entries, k, seen);
    if key in seen {
      assert seen + {key} == seen;
      return Some(ListedTwice(name)), nowSeen;
    }
    nowSeen := nowSeen + {key};
    if text != "" && !BytesContainName(lower, text, name) {
      return Some(NotInBytes(name)), nowSeen;
    }
    verdict := None;
  }

  method CheckSource(p: Platform, input: Input, now: int) returns (refusals: seq<Refusal>)
    ensures refusals == SourceRefusals(p, input, now)
  {
    refusals := [];
    if !IsUuid(input.jurisdictionId) {
      refusals := refusals + [BadJurisdiction];
    }
    if !p.isHttpUrl(input.sourceUrl) {
      refusals := refusals + [BadUrl];
    }
    var fetched := p.parseDate(input.fetchedAt);
    if fetched.None? {
      refusals := refusals + [FetchedNotADate];
    } else if fetched.value > now {
      refusals := refusals + [FetchedInFuture];
    }
  }

  method CheckHeader(p: Platform, input: Input, now: int) returns (refusals: seq<Refusal>)
    ensures refusals == HeaderRefusals(p, input, now)
  {
    refusals := CheckSource(p, input, now);
    if !LooksLikeText(input.artifact) {
      refusals := refusals + [NotText];
    }
    if input.entries == [] {
      refusals := refusals + [EmptyRoster];
    }
  }

  method CheckEntries(p: Platform, input: Input, text: string) returns (refusals: seq<Refusal>, rows: seq<Member>)
    ensures refusals == EntryRefusals(p.lower, text, input.entries, |input.entries|)
    ensures rows == MembersOf(p, input, text, |input.entries|)
  {
    hide Verdict, MemberOf, EntryDefect, SeatKey;
    refusals, rows := [], [];
    var seen: set<string> := {};
    for k := 0 to |input.entries|
      invariant refusals == EntryRefusals(p.lower, text, input.entries, k)
      invariant rows == MembersOf(p, input, text, k)
      invariant SeenIs(p.lower, input.entries, k, seen)
    {
      var verdict;
      verdict, seen := CheckEntry(p.lower, text, input.entries, k, input.entries[k], seen);
      if verdict.Some? {
        refusals := refusals + [verdict.value];
      } else {
        rows := rows + [MemberOf(p, input, input.entries[k])];
      }
    }
  }

  /** `planRosterLoad`, proved to compute `PlanOf`. */
  method PlanRosterLoad(p: Platform, input: Input, now: int) returns (result: Result)
    ensures result == PlanOf(p, input, now)
  {
    var header := CheckHeader(p, input, now);
    var refusals, rows := CheckEntries(p, input, RosterText(p, input.artifact));
    refusals := header + refusals;
    if |refusals| > 0 {
      return Refused(refusals);
    }
    result := Planned(Plan(p.sha256(input.artifact), rows));
  }

  // ---- what a plan promises ------------------------------------------------------------------------

  lemma {:induction false} EntriesAccountedFor(p: Platform, input: Input, text: string, n: nat)
    requires n <= |input.entries|
    ensures |MembersOf(p, input, text, n)| + |EntryRefusals(p.lower, text, input.entries, n)| == n
    ensures EntryRefusals(p.lower, text, input.entries, n) == [] <==>
            forall k: nat :: k < n ==> Verdict(p.lower, text, input.entries, k).None?
    ensures EntryRefusals(p.lower, text, input.entries, n) == [] ==>
            forall k :: 0 <= k < n ==> MembersOf(p, input, text, n)[k] == MemberOf(p, input, input.entries[k])
  {
    hide Verdict, MemberOf;
    if n == 0 {
    } else {
      EntriesAccountedFor(p, input, text, n - 1);
    }
  }

  /** An entry a caller could accept on sight: a name, real dates in order, found in the text if there is any. */
  predicate Sound(lower: string -> string, text: string, e: Entry) {
    EntryDefect(e).None? && (text != "" ==> BytesContainName(lower, text, Trim(e.name)))
  }

  /** All or nothing: a roster is planned exactly when its header is sound, it is not empty, every entry
      is sound and no two are the same seat; the plan then holds one row per entry, in order. */
  lemma PlanIsAllOrNothing(p: Platform, input: Input, now: int)
    ensures var text := RosterText(p, input.artifact);
            PlanOf(p, input, now).Planned? <==>
              HeaderRefusals(p, input, now) == [] &&
              (forall k :: 0 <= k < |input.entries| ==> Sound(p.lower, text, input.entries[k])) &&
              (forall j, k :: 0 <= j < k < |input.entries| ==> !SameSeat(p.lower, input.entries[j], input.entries[k]))
    ensures PlanOf(p, input, now).Planned? ==>
              var rows := PlanOf(p, input, now).plan.rows;
              |rows| == |input.entries| &&
              forall k :: 0 <= k < |rows| ==> rows[k] == MemberOf(p, input, input.entries[k])
  {
    hide RosterText, BytesContainName, EntryDefect, SameSeat, HeaderRefusals, EntryRefusals, MembersOf, MemberOf;
    var text, n := RosterText(p, input.artifact), |input.entries|;
    EntriesAccountedFor(p, input, text, n);
    if PlanOf(p, input, now).Planned? {
      forall k | 0 <= k < n ensures Sound(p.lower, text, input.entries[k]) {
        assert Verdict(p.lower, text, input.entries, k).None?;
      }
      forall j, k | 0 <= j < k < n ensures !SameSeat(p.lower, input.entries[j], input.entries[k]) {
        assert Verdict(p.lower, text, input.entries, j).None? && Verdict(p.lower, text, input.entries, k).None?;
        assert !ListedBefore(p.lower, input.entries, k);
      }
    }
    if HeaderRefusals(p, input, now) == [] &&
       (forall k :: 0 <= k < n ==> Sound(p.lower, text, input.entries[k])) &&
       (forall j, k :: 0 <= j < k < n ==> !SameSeat(p.lower, input.entries[j], input.entries[k])) {
      forall k: nat | k < n ensures Verdict(p.lower, text, input.entries, k).None? {
        assert Sound(p.lower, text, input.entries[k]);
      }
    }
  }

  /** The promise that every planned name appears in the fetched bytes holds exactly when those bytes
      hold a letter outside their tags: the check is skipped when the searchable text is empty. */
  lemma PlannedNamesAppear(p: Platform, input: Input, now: int)
    requires PlanOf(p, input, now).Planned?
    ensures var text := SearchableText(p.lower, p.decode(input.artifact));
            (forall k :: 0 <= k < |PlanOf(p, input, now).plan.rows| ==>
               BytesContainName(p.lower, text, PlanOf(p, input, now).plan.rows[k].name)) <==> text != ""
    ensures SearchableText(p.lower, p.decode(input.artifact)) == "" <==>
            LetterWords(p.lower, StripTags(p.decode(input.artifact))) == []
  {
    PlanIsAllOrNothing(p, input, now);
    var text, rows := SearchableText(p.lower, p.decode(input.artifact)), PlanOf(p, input, now).plan.rows;
    LetterWordsShape(p.lower, StripTags(p.decode(input.artifact)));
    assert NotText in HeaderRefusals(p, input, now) || LooksLikeText(input.artifact);
    assert EmptyRoster in HeaderRefusals(p, input, now) || input.entries != [];
    if text == "" {
      NameSearchIsWordSearch(p.lower, p.decode(input.artifact), rows[0].name);
    } else {
      forall k | 0 <= k < |rows| ensures BytesContainName(p.lower, text, rows[k].name) {
        assert Sound(p.lower, text, input.entries[k]);
      }
    }
  }

  lemma LetterlessText(lower: string -> string)
    requires CaseFolding(lower)
    ensures SearchableText(lower, "2") == ""
    ensures !BytesContainName(lower, SearchableText(lower, "2"), "Emma Bode")
  {
    StripTagsStrips("2");
    assert IsAscii("2") && lower("2") == AsciiLower("2") == "2";
    assert "2"[1..] == "";
    assert RunLength(NotLetter, "2", true) == 1;
    LetterWordsShape(lower, "2");
    NameSearchIsWordSearch(lower, "2", "Emma Bode");
  }

  lemma TrimOfName()
    ensures Trim("Emma Bode") == "Emma Bode"
  {
  }

  lemma ExampleEntrySound(e: Entry)
    requires e == Entry("Emma Bode", None, "2026-01-01", None)
    ensures EntryDefect(e).None? && Trim(e.name) == "Emma Bode"
  {
    TrimOfName();
    assert IsDay(e.termStart);
  }

  lemma ExampleHeaderSound(p: Platform, input: Input, now: int)
    requires input.jurisdictionId == "00000000-0000-0000-0000-000000000000" && p.isHttpUrl(input.sourceUrl)
    requires p.parseDate(input.fetchedAt) == Some(now) && input.artifact == [50] && input.entries != []
    ensures HeaderRefusals(p, input, now) == []
  {
    assert IsUuid(input.jurisdictionId);
    assert LooksLikeText(input.artifact);
  }

  /** Bytes without a letter in them let any name through: a page that reads "2" plans Emma Bode. */
  lemma LetterlessBytesPlanAnyone(p: Platform, input: Input, now: int)
    requires CaseFolding(p.lower) && p.decode([50]) == "2"
    requires input.jurisdictionId == "00000000-0000-0000-0000-000000000000" && p.isHttpUrl(input.sourceUrl)
    requires p.parseDate(input.fetchedAt) == Some(now) && input.artifact == [50]
    requires input.entries == [Entry("Emma Bode", None, "2026-01-01", None)]
    ensures PlanOf(p, input, now).Planned? && PlanOf(p, input, now).plan.rows[0].name == "Emma Bode"
    ensures !BytesContainName(p.lower, SearchableText(p.lower, p.decode(input.artifact)), "Emma Bode")
  {
    LetterlessText(p.lower);
    ExampleEntrySound(input.entries[0]);
    ExampleHeaderSound(p, input, now);
    assert Sound(p.lower, RosterText(p, input.artifact), input.entries[0]);
    PlanIsAllOrNothing(p, input, now);
  }
}
