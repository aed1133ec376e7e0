/** Strings the way the source handles them: `trim`, `split`, `includes`, the two
    regular-expression flattenings, and case folding. A string is a sequence of characters. */
module Text {

  /** White space as `String.prototype.trim` and `\s` read it. */
  predicate IsSpace(c: char) {
    var n := c as int;
    n == 32 || 9 <= n <= 13 || n == 0xa0 || n == 0x1680 || 0x2000 <= n <= 0x200a ||
    n == 0x2028 || n == 0x2029 || n == 0x202f || n == 0x205f || n == 0x3000 || n == 0xfeff
  }

  /** The white space and line terminators of sections 12.2 and 12.3 of ECMA-262. */
  lemma WhiteSpaceIs(c: char)
    ensures IsSpace(c) <==>
              (c as int) in {0x9, 0xa, 0xb, 0xc, 0xd, 0x20, 0xa0, 0x1680, 0x2000, 0x2001, 0x2002, 0x2003, 0x2004,
                             0x2005, 0x2006, 0x2007, 0x2008, 0x2009, 0x200a, 0x2028, 0x2029, 0x202f, 0x205f, 0x3000,
                             0xfeff}
  {
  }

  predicate IsDigit(c: char) { '0' <= c <= '9' }

  predicate IsLowerLetter(c: char) { 'a' <= c <= 'z' }

  predicate IsUpperLetter(c: char) { 'A' <= c <= 'Z' }

  predicate IsAscii(s: string) { forall k :: 0 <= k < |s| ==> (s[k] as int) < 128 }

  function AsciiLowerChar(c: char): char {
    if IsUpperLetter(c) then ((c as int) + 32) as char else c
  }

  function AsciiLower(s: string): (r: string)
    ensures |r| == |s| && forall k :: 0 <= k < |s| ==> r[k] == AsciiLowerChar(s[k])
  {
    if s == [] then [] else [AsciiLowerChar(s[0])] + AsciiLower(s[1..])
  }

  /** What the source relies on about `toLowerCase`: it folds ASCII letter by letter, folding twice
      is folding once, and it never uncovers white space at either end of a trimmed string. */
  ghost predicate CaseFolding(lower: string -> string) {
    && (forall s :: IsAscii(s) ==> lower(s) == AsciiLower(s))
    && (forall s :: lower(lower(s)) == lower(s))
    && (forall s :: Trimmed(s) ==> Trimmed(lower(s)))
  }

  // ---- trim ----------------------------------------------------------------

  function TrimStart(s: string): string {
    if s != [] && IsSpace(s[0]) then TrimStart(s[1..]) else s
  }

  function TrimEnd(s: string): string {
    if s != [] && IsSpace(s[|s| - 1]) then TrimEnd(s[..|s| - 1]) else s
  }

  function Trim(s: string): string { TrimEnd(TrimStart(s)) }

  predicate Trimmed(s: string) {
    s != [] ==> !IsSpace(s[0]) && !IsSpace(s[|s| - 1])
  }

  lemma {:induction false} TrimEndKeepsStart(s: string)
    ensures TrimEnd(s) <= s
    ensures TrimEnd(s) != [] ==> !IsSpace(TrimEnd(s)[|TrimEnd(s)| - 1])
  {
    if s != [] && IsSpace(s[|s| - 1]) {
      TrimEndKeepsStart(s[..|s| - 1]);
    }
  }

  lemma {:induction false} TrimStartStops(s: string)
    ensures TrimStart(s) != [] ==> !IsSpace(TrimStart(s)[0])
  {
    if s != [] && IsSpace(s[0]) {
      TrimStartStops(s[1..]);
    }
  }

  lemma TrimTrims(s: string)
    ensures Trimmed(Trim(s))
    ensures Trim(Trim(s)) == Trim(s)
  {
    TrimStartStops(s);
    TrimEndKeepsStart(TrimStart(s));
  }

  predicate AllSpace(s: string) { forall k :: 0 <= k < |s| ==> IsSpace(s[k]) }

  lemma {:induction false} StartTrimmedOff(s: string) returns (lead: string)
    ensures AllSpace(lead) && s == lead + TrimStart(s)
  {
    hide IsSpace;
    if s != [] && IsSpace(s[0]) {
      var more := StartTrimmedOff(s[1..]);
      lead := [s[0]] + more;
      var left := TrimStart(s);
      assert left == TrimStart(s[1..]);
      hide TrimStart;
      assert lead + left == [s[0]] + (more + left);
    } else {
      lead := "";
    }
  }

  lemma {:induction false} EndTrimmedOff(s: string) returns (trail: string)
    ensures AllSpace(trail) && s == TrimEnd(s) + trail
  {
    hide IsSpace;
    if s != [] && IsSpace(s[|s| - 1]) {
      var more := EndTrimmedOff(s[..|s| - 1]);
      trail := more + [s[|s| - 1]];
      var left := TrimEnd(s);
      assert left == TrimEnd(s[..|s| - 1]);
      hide TrimEnd;
      assert left + trail == (left + more) + [s[|s| - 1]];
    } else {
      trail := "";
    }
  }

  /** `trim` takes white space off both ends, all of it and nothing else. */
  lemma TrimTakesOff(s: string) returns (lead: string, trail: string)
    ensures s == lead + Trim(s) + trail && AllSpace(lead) && AllSpace(trail) && Trimmed(Trim(s))
  {
    lead := StartTrimmedOff(s);
    trail := EndTrimmedOff(TrimStart(s));
    TrimTrims(s);
    assert lead + (Trim(s) + trail) == lead + Trim(s) + trail;
  }

  /** At most one space on either side of a trimmed string is all `trim` takes off. */
  lemma TrimPadded(lead: string, s: string, trail: string)
    requires lead in {"", " "} && trail in {"", " "} && s != [] && Trimmed(s)
    ensures Trim(lead + s + trail) == s
  {
    var whole := lead + s + trail;
    if lead == " " {
      assert whole[1..] == s + trail;
    } else {
      assert whole == s + trail;
    }
    var rest := s + trail;
    assert rest[0] == s[0];
    assert TrimStart(whole) == rest;
    assert TrimEnd(s) == s;
    if trail == " " {
      assert rest[|rest| - 1] == ' ' && IsSpace(' ');
      assert rest[..|rest| - 1] == s;
    } else {
      assert rest == s;
    }
  }

  // ---- words ---------------------------------------------------------------

  /** Length of the leading run of characters that are separators, or that are not. */
  function RunLength(sep: char -> bool, s: string, wanted: bool): (n: nat)
    ensures n <= |s|
    ensures forall k :: 0 <= k < n ==> sep(s[k]) == wanted
    ensures n < |s| ==> sep(s[n]) != wanted
  {
    if s == [] || sep(s[0]) != wanted then 0 else 1 + RunLength(sep, s[1..], wanted)
  }

  /** `replace(/[sep]+/g, " ")`: every maximal run of separators becomes one space. */
  function Collapse(sep: char -> bool, s: string): string
    decreases |s|
  {
    if s == [] then []
    else if sep(s[0]) then " " + Collapse(sep, s[RunLength(sep, s, true)..])
    else s[..RunLength(sep, s, false)] + Collapse(sep, s[RunLength(sep, s, false)..])
  }

  /** `replace(/[sep]+/g, " ").trim()`. */
  function Flatten(sep: char -> bool, s: string): string { Trim(Collapse(sep, s)) }

  /** The maximal runs of characters that are not separators, in order. */
  function Words(sep: char -> bool, s: string): (ws: seq<string>)
    decreases |s|
  {
    if s == [] then []
    else if sep(s[0]) then Words(sep, s[RunLength(sep, s, true)..])
    else [s[..RunLength(sep, s, false)]] + Words(sep, s[RunLength(sep, s, false)..])
  }

  predicate IsWord(sep: char -> bool, w: string) {
    w != [] && forall k :: 0 <= k < |w| ==> !sep(w[k])
  }

  predicate AllWords(sep: char -> bool, ws: seq<string>) {
    forall k :: 0 <= k < |ws| ==> IsWord(sep, ws[k])
  }

  function Join(ws: seq<string>): string {
    if ws == [] then "" else if |ws| == 1 then ws[0] else ws[0] + " " + Join(ws[1..])
  }

  ghost predicate SpacesSeparate(sep: char -> bool) { forall c :: IsSpace(c) ==> sep(c) }

  lemma {:induction false} WordsAreWords(sep: char -> bool, s: string)
    ensures AllWords(sep, Words(sep, s))
    decreases |s|
  {
    if s == [] {
    } else if sep(s[0]) {
      WordsAreWords(sep, s[RunLength(sep, s, true)..]);
    } else {
      WordsAreWords(sep, s[RunLength(sep, s, false)..]);
    }
  }

  lemma {:induction false} JoinTrimmed(sep: char -> bool, ws: seq<string>)
    requires SpacesSeparate(sep) && AllWords(sep, ws)
    ensures Trimmed(Join(ws))
    ensures ws != [] ==> Join(ws) != []
  {
    if |ws| > 1 {
      JoinTrimmed(sep, ws[1..]);
      var rest := Join(ws[1..]);
      assert Join(ws)[|Join(ws)| - 1] == rest[|rest| - 1];
      assert IsWord(sep, ws[0]);
    } else if |ws| == 1 {
      assert IsWord(sep, ws[0]);
    }
  }

  /** The space a collapsed string carries on an end where the original had a separator. */
  function Edge(sep: char -> bool, c: char): string { if sep(c) then " " else "" }

  lemma JoinCons(w: string, ws: seq<string>)
    ensures Join([w]) == w
    ensures ws != [] ==> Join([w] + ws) == w + " " + Join(ws)
  {
    assert ([w] + ws)[1..] == ws;
  }

  /** What `Collapse` makes of a string, in terms of its words: one space between words, and one
      on an end where the string had a separator. */
  ghost predicate Collapsed(c: string, ws: seq<string>, lead: string, trail: string) {
    if ws == [] then c == " " && trail == " " else c == lead + Join(ws) + trail
  }

  lemma CollapsedAfterWord(w: string, c: string, ws: seq<string>, trail: string)
    requires Collapsed(c, ws, " ", trail)
    ensures Collapsed(w + c, [w] + ws, "", trail)
  {
    JoinCons(w, ws);
    if ws == [] {
      assert [w] + ws == [w];
    } else {
      assert w + (" " + Join(ws) + trail) == "" + (w + " " + Join(ws)) + trail;
    }
  }

  lemma CollapsedAfterSeparators(c: string, ws: seq<string>, trail: string)
    requires ws != [] && Collapsed(c, ws, "", trail)
    ensures Collapsed(" " + c, ws, " ", trail)
  {
    assert " " + ("" + Join(ws) + trail) == " " + Join(ws) + trail;
  }

  /** A collapsed string is its words joined by single spaces, padded where it began or ended
      with a separator. */
  lemma {:induction false} CollapseShape(sep: char -> bool, s: string)
    requires s != []
    ensures Collapsed(Collapse(sep, s), Words(sep, s), Edge(sep, s[0]), Edge(sep, s[|s| - 1]))
    decreases |s|
  {
    var n := RunLength(sep, s, sep(s[0]));
    assert n >= 1;
    var w, rest := s[..n], s[n..];
    if rest == [] {
      assert w == s && Collapse(sep, rest) == [] && Words(sep, rest) == [];
      JoinCons(w, []);
      assert sep(s[|s| - 1]) == sep(s[0]);
      if !sep(s[0]) {
        assert Words(sep, s) == [w] && Collapse(sep, s) == w;
        assert "" + w + "" == w;
      }
    } else {
      CollapseShape(sep, rest);
      assert rest[|rest| - 1] == s[|s| - 1];
      var c, ws := Collapse(sep, rest), Words(sep, rest);
      if sep(s[0]) {
        assert !sep(rest[0]);
        assert ws == [rest[..RunLength(sep, rest, false)]] + Words(sep, rest[RunLength(sep, rest, false)..]);
        CollapsedAfterSeparators(c, ws, Edge(sep, s[|s| - 1]));
      } else {
        CollapsedAfterWord(w, c, ws, Edge(sep, s[|s| - 1]));
      }
    }
  }

  /** The flattening keeps exactly the words, one space apart. */
  lemma FlattenIsJoinedWords(sep: char -> bool, s: string)
    requires SpacesSeparate(sep)
    ensures Flatten(sep, s) == Join(Words(sep, s))
  {
    if s != [] {
      CollapseShape(sep, s);
      WordsAreWords(sep, s);
      JoinTrimmed(sep, Words(sep, s));
      if Words(sep, s) != [] {
        TrimPadded(Edge(sep, s[0]), Join(Words(sep, s)), Edge(sep, s[|s| - 1]));
      } else {
        assert Collapse(sep, s)[1..] == "";
      }
    }
  }

  lemma {:induction false} RunOfWord(sep: char -> bool, w: string, rest: string)
    requires forall k :: 0 <= k < |w| ==> !sep(w[k])
    requires rest != [] ==> sep(rest[0])
    ensures RunLength(sep, w + rest, false) == |w|
  {
    if w == [] {
      assert w + rest == rest;
    } else {
      assert (w + rest)[1..] == w[1..] + rest;
      RunOfWord(sep, w[1..], rest);
    }
  }

  /** Splitting joined words gives the words back. */
  lemma {:induction false} WordsOfJoin(sep: char -> bool, ws: seq<string>)
    requires sep(' ') && AllWords(sep, ws)
    ensures Words(sep, Join(ws)) == ws
  {
    if |ws| == 1 {
      RunOfWord(sep, ws[0], "");
      assert ws[0] + "" == ws[0];
      assert ws[0][..|ws[0]|] == ws[0];
    } else if |ws| > 1 {
      var tail := Join(ws[1..]);
      var rest := " " + tail;
      assert Join(ws) == ws[0] + rest;
      RunOfWord(sep, ws[0], rest);
      assert IsWord(sep, ws[1]) && tail[0] == ws[1][0];
      assert RunLength(sep, rest, true) == 1 by { assert rest[1..] == tail; }
      assert rest[1..] == tail;
      WordsOfJoin(sep, ws[1..]);
      assert Words(sep, rest) == Words(sep, tail);
      assert Join(ws)[|ws[0]|..] == rest && Join(ws)[..|ws[0]|] == ws[0];
    }
  }

  /** A flattened string is its own flattening. */
  lemma FlattenIdempotent(sep: char -> bool, s: string)
    requires SpacesSeparate(sep)
    ensures Flatten(sep, Flatten(sep, s)) == Flatten(sep, s)
    ensures Words(sep, Flatten(sep, s)) == Words(sep, s)
  {
    FlattenIsJoinedWords(sep, s);
    WordsAreWords(sep, s);
    assert sep(' ') by { assert IsSpace(' '); }
    WordsOfJoin(sep, Words(sep, s));
    FlattenIsJoinedWords(sep, Flatten(sep, s));
  }

  // ---- substring search ------------------------------------------------------

  predicate OccursAt(hay: string, needle: string, i: int) {
    0 <= i && i + |needle| <= |hay| && hay[i..i + |needle|] == needle
  }

  /** `hay.includes(needle)`. */
  predicate Includes(hay: string, needle: string) {
    exists i :: 0 <= i <= |hay| && OccursAt(hay, needle, i)
  }

  predicate RunAt(ws: seq<string>, vs: seq<string>, k: int) {
    0 <= k && k + |vs| <= |ws| && ws[k..k + |vs|] == vs
  }

  /** `vs` is a contiguous run of `ws`. */
  predicate ContiguousRun(ws: seq<string>, vs: seq<string>) {
    exists k :: 0 <= k <= |ws| && RunAt(ws, vs, k)
  }

  /** Words with a space before each and one after the last. */
  function Padded(ws: seq<string>): string {
    if ws == [] then " " else " " + ws[0] + Padded(ws[1..])
  }

  lemma {:induction false} PaddedIsJoin(ws: seq<string>)
    requires ws != []
    ensures Padded(ws) == " " + Join(ws) + " "
  {
    if |ws| == 1 {
      assert Padded(ws[1..]) == " ";
    } else {
      PaddedIsJoin(ws[1..]);
    }
  }

  lemma {:induction false} PaddedStart(ws: seq<string>)
    ensures Padded(ws) != [] && Padded(ws)[0] == ' '
  {
    if ws == [] {
    } else {
      PaddedStart(ws[1..]);
    }
  }

  /** Words without a space in them. */
  predicate Spaceless(ws: seq<string>) {
    forall i :: 0 <= i < |ws| ==> ws[i] != [] && ' ' !in ws[i]
  }

  lemma {:induction false} SameFirstWord(w: string, moreW: string, v: string, moreV: string)
    requires ' ' !in w && ' ' !in v
    requires moreW != [] && moreW[0] == ' ' && moreV != [] && moreV[0] == ' '
    requires v + moreV <= w + moreW
    ensures v == w && moreV <= moreW
  {
    assert (v + moreV)[0] == (w + moreW)[0];
    if v != [] && w != [] {
      assert (v + moreV)[1..] == v[1..] + moreV && (w + moreW)[1..] == w[1..] + moreW;
      SameFirstWord(w[1..], moreW, v[1..], moreV);
    } else {
      assert v == [] ==> v + moreV == moreV;
      assert w == [] ==> w + moreW == moreW;
    }
  }

  lemma {:induction false} PaddedPrefix(ws: seq<string>, vs: seq<string>)
    requires Spaceless(ws) && Spaceless(vs) && Padded(vs) <= Padded(ws)
    ensures vs <= ws
  {
    if vs == [] {
    } else {
      PaddedStart(vs[1..]);
      assert Padded(vs)[1..] == vs[0] + Padded(vs[1..]);
      if ws != [] {
        PaddedStart(ws[1..]);
        assert Padded(ws)[1..] == ws[0] + Padded(ws[1..]);
        SameFirstWord(ws[0], Padded(ws[1..]), vs[0], Padded(vs[1..]));
        PaddedPrefix(ws[1..], vs[1..]);
      }
    }
  }

  lemma {:induction false} OccurrenceGivesRun(ws: seq<string>, vs: seq<string>, i: int)
    requires Spaceless(ws) && Spaceless(vs) && vs != [] && OccursAt(Padded(ws), Padded(vs), i)
    ensures ContiguousRun(ws, vs)
  {
    PaddedStart(vs);
    assert |Padded(vs)| > 1;
    if i == 0 {
      PaddedPrefix(ws, vs);
      assert RunAt(ws, vs, 0);
    } else {
      hide Padded, OccursAt, ContiguousRun;
      SkipFirstWord(ws, Padded(vs), i);
      OccurrenceGivesRun(ws[1..], vs, i - 1 - |ws[0]|);
      RunMovesUp(ws, vs);
    }
  }

  lemma RunMovesUp(ws: seq<string>, vs: seq<string>)
    requires ws != [] && ContiguousRun(ws[1..], vs)
    ensures ContiguousRun(ws, vs)
  {
    var k :| 0 <= k <= |ws[1..]| && RunAt(ws[1..], vs, k);
    assert ws[k + 1..k + 1 + |vs|] == ws[1..][k..k + |vs|];
    assert RunAt(ws, vs, k + 1);
  }

  lemma OccursInTail(front: string, rest: string, b: string, i: int)
    requires OccursAt(front + rest, b, i) && i >= |front|
    ensures OccursAt(rest, b, i - |front|)
  {
    var a, k := front + rest, i - |front|;
    assert rest[k..k + |b|] == a[i..i + |b|];
  }

  lemma SpaceIsPast(w: string, rest: string, i: nat)
    requires ' ' !in w && 0 < i < |" " + w + rest| && (" " + w + rest)[i] == ' '
    ensures i > |w|
  {
    assert forall k :: 1 <= k <= |w| ==> (" " + w + rest)[k] == w[k - 1];
    assert forall k :: 0 <= k < |w| ==> w[k] in w;
  }

  lemma SkipFirstWord(ws: seq<string>, b: string, i: int)
    requires Spaceless(ws) && b != [] && b[0] == ' ' && i != 0 && OccursAt(Padded(ws), b, i) && |b| > 1
    ensures ws != [] && OccursAt(Padded(ws[1..]), b, i - 1 - |ws[0]|)
  {
    assert ws != [];
    var w, rest := ws[0], Padded(ws[1..]);
    assert Padded(ws) == " " + w + rest && ' ' !in w;
    hide Padded, Spaceless;
    var a := " " + w + rest;
    assert a[i..i + |b|][0] == a[i];
    SpaceIsPast(w, rest, i);
    OccursInTail(" " + w, rest, b, i);
    hide OccursAt;
    assert |" " + w| == 1 + |w|;
  }

  lemma {:induction false} RunGivesOccurrence(ws: seq<string>, vs: seq<string>, k: int)
    requires RunAt(ws, vs, k)
    ensures Includes(Padded(ws), Padded(vs))
  {
    if k == 0 {
      PaddedOfPrefix(ws, vs);
      assert OccursAt(Padded(ws), Padded(vs), 0);
    } else {
      assert RunAt(ws[1..], vs, k - 1);
      RunGivesOccurrence(ws[1..], vs, k - 1);
      var rest := Padded(ws[1..]);
      var i :| 0 <= i <= |rest| && OccursAt(rest, Padded(vs), i);
      assert Padded(ws)[1 + |ws[0]|..] == rest;
      assert OccursAt(Padded(ws), Padded(vs), i + 1 + |ws[0]|);
    }
  }

  lemma {:induction false} PaddedOfPrefix(ws: seq<string>, vs: seq<string>)
    requires vs <= ws
    ensures Padded(vs) <= Padded(ws)
  {
    if vs == [] {
      PaddedStart(ws);
    } else {
      PaddedOfPrefix(ws[1..], vs[1..]);
    }
  }

  /** Searching padded text for a padded phrase finds the phrase exactly as a run of whole words. */
  lemma PaddedSearchIsWordSearch(ws: seq<string>, vs: seq<string>)
    requires Spaceless(ws) && Spaceless(vs) && vs != []
    ensures Includes(" " + Join(ws) + " ", " " + Join(vs) + " ") <==> ContiguousRun(ws, vs)
  {
    PaddedIsJoin(vs);
    var needle := " " + Join(vs) + " ";
    if ws == [] {
      assert Includes("  ", needle) ==> false by {
        PaddedStart(vs[1..]);
        assert needle == Padded(vs) && needle[1] == vs[0][0];
      }
      assert " " + Join(ws) + " " == "  ";
    } else {
      PaddedIsJoin(ws);
      if Includes(Padded(ws), needle) {
        var i :| 0 <= i <= |Padded(ws)| && OccursAt(Padded(ws), needle, i);
        OccurrenceGivesRun(ws, vs, i);
      }
      if ContiguousRun(ws, vs) {
        var k :| 0 <= k <= |ws| && RunAt(ws, vs, k);
        RunGivesOccurrence(ws, vs, k);
      }
    }
  }

  // ---- split -----------------------------------------------------------------

  /** `s.split(c)`. */
  function Split(s: string, c: char): (parts: seq<string>)
    ensures parts != []
    ensures forall k :: 0 <= k < |parts| ==> c !in parts[k]
  {
    if s == [] then [""]
    else if s[0] == c then [""] + Split(s[1..], c)
    else var rest := Split(s[1..], c); [[s[0]] + rest[0]] + rest[1..]
  }

  /** `parts.join(c)`. */
  function Glue(parts: seq<string>, c: char): string {
    if parts == [] then "" else if |parts| == 1 then parts[0] else parts[0] + [c] + Glue(parts[1..], c)
  }

  lemma {:induction false} GlueOfSplit(s: string, c: char)
    ensures Glue(Split(s, c), c) == s
  {
    if s == [] {
    } else {
      GlueOfSplit(s[1..], c);
      var rest := Split(s[1..], c);
      if s[0] == c {
        assert Split(s, c)[1..] == rest;
        assert Glue(Split(s, c), c) == "" + [c] + s[1..];
      } else {
        assert Split(s, c)[1..] == rest[1..];
      }
    }
  }

  lemma {:induction false} SplitWithout(s: string, c: char)
    requires c !in s
    ensures Split(s, c) == [s]
  {
    if s == [] {
    } else {
      assert s[0] in s;
      SplitWithout(s[1..], c);
      assert s == [s[0]] + s[1..];
    }
  }

  /** What one more character in front does to the parts. */
  function Onto(first: char, c: char, parts: seq<string>): seq<string>
    requires parts != []
  {
    if first == c then [""] + parts else [[first] + parts[0]] + parts[1..]
  }

  lemma SplitCons(first: char, s: string, c: char)
    ensures Split([first] + s, c) == Onto(first, c, Split(s, c))
  {
    assert ([first] + s)[1..] == s;
  }

  lemma OnFirst(first: char, c: char, parts: seq<string>, more: seq<string>)
    requires parts != []
    ensures Onto(first, c, parts + more) == Onto(first, c, parts) + more
  {
  }

  lemma {:induction false} SplitGlued(a: string, c: char, b: string)
    ensures Split(a + [c] + b, c) == Split(a, c) + Split(b, c)
  {
    if a == [] {
      assert (a + [c] + b)[1..] == b;
    } else {
      hide Split, Onto;
      SplitGlued(a[1..], c, b);
      SplitCons(a[0], a[1..] + [c] + b, c);
      SplitCons(a[0], a[1..], c);
      assert [a[0]] + (a[1..] + [c] + b) == a + [c] + b && [a[0]] + a[1..] == a;
      OnFirst(a[0], c, Split(a[1..], c), Split(b, c));
    }
  }

  /** Parts that do not hold the separator come back out as they were. */
  lemma {:induction false} SplitOfGlue(parts: seq<string>, c: char)
    requires parts != [] && forall k :: 0 <= k < |parts| ==> c !in parts[k]
    ensures Split(Glue(parts, c), c) == parts
  {
    SplitWithout(parts[0], c);
    if |parts| == 1 {
      assert parts == [parts[0]];
    } else {
      SplitOfGlue(parts[1..], c);
      SplitGlued(parts[0], c, Glue(parts[1..], c));
      assert parts == [parts[0]] + parts[1..];
    }
  }

  lemma {:induction false} GlueLacks(parts: seq<string>, c: char, x: char)
    requires x != c && forall k :: 0 <= k < |parts| ==> x !in parts[k]
    ensures x !in Glue(parts, c)
  {
    if |parts| > 1 {
      GlueLacks(parts[1..], c, x);
    }
  }

  function WithLast(parts: seq<string>, x: string): seq<string>
    requires parts != []
  {
    parts[..|parts| - 1] + [parts[|parts| - 1] + x]
  }

  lemma AppendToLast(first: char, rest: seq<string>, x: string)
    requires rest != []
    ensures WithLast([""] + rest, x) == [""] + WithLast(rest, x)
    ensures WithLast([[first] + rest[0]] + rest[1..], x) == [[first] + WithLast(rest, x)[0]] + WithLast(rest, x)[1..]
  {
    assert [first] + (rest[0] + x) == ([first] + rest[0]) + x;
  }

  /** Characters other than the separator stay on the last part. */
  lemma {:induction false} SplitAppend(a: string, c: char, x: string)
    requires c !in x
    ensures Split(a + x, c) == WithLast(Split(a, c), x)
  {
    if a == [] {
      assert a + x == x;
      SplitWithout(x, c);
    } else {
      SplitAppend(a[1..], c, x);
      assert (a + x)[1..] == a[1..] + x;
      AppendToLast(a[0], Split(a[1..], c), x);
    }
  }
}
