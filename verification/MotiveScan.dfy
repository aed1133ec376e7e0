/** The scan that keeps motives out of the audit log (backend/src/services/review/language.ts), and why the
    log row of an acknowledgement always passes it. */
module MotiveScan {
  import opened Disputes
  import opened Text
  import Mail

  // ---- the lexicon ----------------------------------------------------------------------------

  const TERMS_OF_MONEY := ["bribe", "bribery", "kickback", "kickbacks", "corrupt", "corruption", "fraud", "fraudulent"]
  const TERMS_OF_TAKING := ["embezzle", "embezzlement", "graft", "collusion", "collude", "colluded", "conspire"]
  const TERMS_OF_CRIME := ["conspired", "conspiracy", "criminal", "illegal", "illegally", "unlawful", "unlawfully"]
  const TERMS_OF_HIDING := ["crime", "felony", "cover-up", "coverup", "conceal", "concealed", "cover up"]
  const TERMS_OF_INTENT := ["deliberate", "deliberately", "intentional", "intentionally", "knowingly", "wilful"]
  const TERMS_OF_WILL := ["willful", "wilfully", "willfully", "wrongdoing", "misconduct", "malfeasance"]
  const TERMS_OF_SELF := ["self-dealing", "self dealing", "bad faith", "rigged", "rigging", "payoff", "payoffs"]
  const TERMS_OF_SHAM := ["sham", "scheme to", "in order to benefit", "obstruct", "obstructed", "stonewall",
                         "stonewalled"]

  /** `MOTIVE_TERMS`. */
  predicate IsTerm(t: string) {
    t in TERMS_OF_MONEY || t in TERMS_OF_TAKING || t in TERMS_OF_CRIME || t in TERMS_OF_HIDING ||
    t in TERMS_OF_INTENT || t in TERMS_OF_WILL || t in TERMS_OF_SELF || t in TERMS_OF_SHAM
  }

  // ---- the scan --------------------------------------------------------------------------------

  /** A word character, as `\b` has it. */
  predicate IsWordChar(c: char) { IsLowerLetter(c) || IsUpperLetter(c) || IsDigit(c) || c == '_' }

  predicate NotWordChar(c: char) { !IsWordChar(c) }

  /** `\b` at position `i`. */
  predicate BoundaryAt(s: string, i: int) {
    (0 < i <= |s| && IsWordChar(s[i - 1])) != (0 <= i < |s| && IsWordChar(s[i]))
  }

  /** The term stands at `i`, in any case, between word boundaries. */
  predicate TermAt(text: string, t: string, i: int) {
    OccursAt(AsciiLower(text), t, i) && BoundaryAt(text, i) && BoundaryAt(text, i + |t|)
  }

  /** `motiveTerms(text).length > 0`. */
  ghost predicate StatesMotive(text: string) { exists t, i :: IsTerm(t) && TermAt(text, t, i) }

  // ---- a term begins a word ------------------------------------------------------------------

  /** The run a string begins with is over before a change from separator to word character. */
  lemma RunStops(sep: char -> bool, s: string, i: nat)
    requires 0 < i < |s| && sep(s[i - 1]) && !sep(s[i])
    ensures RunLength(sep, s, sep(s[0])) <= i
  {
    if i < RunLength(sep, s, sep(s[0])) {
      assert false;
    }
  }

  lemma WholeRun(sep: char -> bool, s: string, n: nat)
    requires 0 < n <= |s| && (forall k :: 0 <= k < n ==> !sep(s[k])) && (n == |s| || sep(s[n]))
    ensures RunLength(sep, s, false) == n
  {
    if RunLength(sep, s, false) < n {
      assert false;
    } else if n < RunLength(sep, s, false) {
      assert false;
    }
  }

  lemma WordsAfterRun(sep: char -> bool, s: string)
    requires s != []
    ensures var r := RunLength(sep, s, sep(s[0]));
            && 0 < r <= |s|
            && Words(sep, s) == (if sep(s[0]) then Words(sep, s[r..]) else [s[..r]] + Words(sep, s[r..]))
  {
  }

  /** A stretch of word characters between non-word characters is one of the words. */
  lemma {:induction false} StretchIsWord(sep: char -> bool, s: string, i: nat, n: nat)
    requires 0 < n && i + n <= |s| && (forall k :: i <= k < i + n ==> !sep(s[k]))
    requires (i == 0 || sep(s[i - 1])) && (i + n == |s| || sep(s[i + n]))
    ensures s[i..i + n] in Words(sep, s)
    decreases |s|
  {
    hide Words, RunLength;
    var r := RunLength(sep, s, sep(s[0]));
    WordsAfterRun(sep, s);
    if i == 0 {
      WholeRun(sep, s, n);
      assert s[i..i + n] == s[..r];
    } else {
      RunStops(sep, s, i);
      StretchIsWord(sep, s[r..], i - r, n);
      assert s[r..][i - r..i - r + n] == s[i..i + n];
    }
  }

  /** What a term has to look like not to stand in any acknowledgement: it does not begin like one of the
      fixed words, and its first eight letters are not all letters of a reference. */
  predicate Harmless(t: string) {
    && |t| >= 2 && IsLowerLetter(t[0]) && IsLowerLetter(t[|t| - 1])
    && !(t[0] == 'd' && t[1] == 'i') && !(t[0] == 'c' && t[1] == 'w') && !(t[0] == 'r' && (t[1] == 'e' || t[1] == 'o'))
    && !(t[0] == 't' && t[1] == 'h') && !(t[0] == 'p' && t[1] == 'u')
    && (|t| >= 8 ==> Foreign(t[0]) || Foreign(t[1]) || Foreign(t[2]) || Foreign(t[3]) || Foreign(t[6]))
  }

  /** No lower-cased character of a reference. */
  predicate Foreign(c: char) { c == 'i' || c == 'l' || c == 'o' || c == 'u' || !IsWordChar(c) }

  lemma MoneyHarmless(t: string)
    requires t in TERMS_OF_MONEY
    ensures Harmless(t)
  {
  }

  lemma TakingHarmless(t: string)
    requires t in TERMS_OF_TAKING
    ensures Harmless(t)
  {
  }

  lemma CrimeHarmless(t: string)
    requires t in TERMS_OF_CRIME
    ensures Harmless(t)
  {
  }

  lemma HidingHarmless(t: string)
    requires t in TERMS_OF_HIDING
    ensures Harmless(t)
  {
  }

  lemma IntentHarmless(t: string)
    requires t in TERMS_OF_INTENT
    ensures Harmless(t)
  {
  }

  lemma WillHarmless(t: string)
    requires t in TERMS_OF_WILL
    ensures Harmless(t)
  {
  }

  lemma SelfHarmless(t: string)
    requires t in TERMS_OF_SELF
    ensures Harmless(t)
  {
  }

  lemma ShamHarmless(t: string)
    requires t in TERMS_OF_SHAM
    ensures Harmless(t)
  {
  }

  lemma TermsAreHarmless(t: string)
    requires IsTerm(t)
    ensures Harmless(t)
  {
    hide Harmless;
    if t in TERMS_OF_MONEY {
      MoneyHarmless(t);
    } else if t in TERMS_OF_TAKING {
      TakingHarmless(t);
    } else if t in TERMS_OF_CRIME {
      CrimeHarmless(t);
    } else if t in TERMS_OF_HIDING {
      HidingHarmless(t);
    } else if t in TERMS_OF_INTENT {
      IntentHarmless(t);
    } else if t in TERMS_OF_WILL {
      WillHarmless(t);
    } else if t in TERMS_OF_SELF {
      SelfHarmless(t);
    } else {
      ShamHarmless(t);
    }
  }

  lemma LowerKeepsWordChars(s: string)
    ensures forall k :: 0 <= k < |s| ==> (IsWordChar(AsciiLower(s)[k]) <==> IsWordChar(s[k]))
  {
  }

  /** Where a term stands, its first word is bounded on both sides. */
  lemma FirstWordStands(text: string, t: string, i: nat, n: nat)
    requires Harmless(t) && TermAt(text, t, i) && n == RunLength(NotWordChar, t, false)
    ensures var low := AsciiLower(text);
            && 0 < n <= |t| && i + n <= |low| && low[i..i + n] == t[..n]
            && (forall k :: i <= k < i + n ==> IsWordChar(low[k]))
            && (i == 0 || !IsWordChar(low[i - 1])) && (i + n == |low| || !IsWordChar(low[i + n]))
  {
    hide RunLength, AsciiLower;
    var low := AsciiLower(text);
    LowerKeepsWordChars(text);
    assert low[i..i + |t|] == t;
    assert forall k :: 0 <= k < |t| ==> low[i + k] == t[k];
    assert IsWordChar(t[0]) && IsWordChar(t[|t| - 1]);
    assert n > 0;
    assert forall k :: i <= k < i + n ==> low[k] == t[k - i];
  }

  /** Where a term stands, one of the text's words stands that the term begins with. */
  lemma TermBeginsWithWord(text: string, t: string, i: nat) returns (w: string)
    requires Harmless(t) && TermAt(text, t, i)
    ensures w in Words(NotWordChar, AsciiLower(text)) && w <= t && (w == t || !IsWordChar(t[|w|]))
  {
    var n := RunLength(NotWordChar, t, false);
    w := t[..n];
    FirstWordStands(text, t, i, n);
    hide Words, RunLength, AsciiLower, TermAt, Harmless;
    StretchIsWord(NotWordChar, AsciiLower(text), i, n);
  }

  lemma TermIsInside(text: string, t: string, i: int)
    requires TermAt(text, t, i)
    ensures 0 <= i
  {
  }

  /** The stretch does not lie inside a longer word: next to it, if anything, is no letter, digit or underscore. */
  ghost predicate StandsAlone(front: string, back: string) {
    && (front != "" ==>
          var c := front[|front| - 1];
          !('a' <= c <= 'z' || 'A' <= c <= 'Z' || '0' <= c <= '9' || c == '_'))
    && (back != "" ==>
          var c := back[0];
          !('a' <= c <= 'z' || 'A' <= c <= 'Z' || '0' <= c <= '9' || c == '_'))
  }

  /** The scan finds a motive exactly when some stretch of the text that stands alone is a term, in any case. */
  lemma MotivesAreFound(text: string)
    ensures StatesMotive(text) <==>
              exists front, word, back ::
                text == front + word + back && IsTerm(AsciiLower(word)) && StandsAlone(front, back)
  {
    hide IsTerm, TermAt, AsciiLower, StandsAlone;
    if t, i :| IsTerm(t) && TermAt(text, t, i) {
      TermIsInside(text, t, i);
      TermStandsAlone(text, t, i);
      var front, word, back := text[..i], text[i..i + |t|], text[i + |t|..];
      assert text == front + word + back;
    }
    if front, word, back :| text == front + word + back && IsTerm(AsciiLower(word)) && StandsAlone(front, back) {
      TermAtStretch(front, word, back);
    }
  }

  lemma TermStandsAlone(text: string, t: string, i: nat)
    requires IsTerm(t) && TermAt(text, t, i)
    ensures i + |t| <= |text| && AsciiLower(text[i..i + |t|]) == t && StandsAlone(text[..i], text[i + |t|..])
  {
    hide IsTerm, AsciiLower, StandsAlone, IsWordChar, Harmless;
    TermsAreHarmless(t);
    LowerOfSlice(text, i, i + |t|);
    TermEnds(text[i..i + |t|]);
    AloneByBoundary(text, i, i + |t|);
  }

  /** A term begins and ends with a word character. */
  lemma TermEnds(word: string)
    requires Harmless(AsciiLower(word))
    ensures |word| > 0 && IsWordChar(word[0]) && IsWordChar(word[|word| - 1])
  {
    HarmlessEnds(AsciiLower(word));
    LowerKeepsWordChars(word);
    hide AsciiLower, Harmless, IsWordChar;
  }

  lemma HarmlessEnds(t: string)
    requires Harmless(t)
    ensures |t| > 0 && IsWordChar(t[0]) && IsWordChar(t[|t| - 1])
  {
  }

  lemma AloneByBoundary(text: string, i: nat, j: nat)
    requires i < j <= |text| && IsWordChar(text[i]) && IsWordChar(text[j - 1])
    ensures BoundaryAt(text, i) && BoundaryAt(text, j) <==> StandsAlone(text[..i], text[j..])
  {
  }

  lemma LowerOfSlice(s: string, i: nat, j: nat)
    requires i <= j <= |s|
    ensures AsciiLower(s[i..j]) == AsciiLower(s)[i..j]
  {
    hide AsciiLower, AsciiLowerChar;
    var cut := s[i..j];
    forall k | 0 <= k < j - i ensures AsciiLower(cut)[k] == AsciiLower(s)[i..j][k] {
      assert cut[k] == s[i + k];
    }
  }

  lemma TermAtStretch(front: string, word: string, back: string)
    requires IsTerm(AsciiLower(word)) && StandsAlone(front, back)
    ensures TermAt(front + word + back, AsciiLower(word), |front|)
  {
    hide IsTerm, AsciiLower, StandsAlone, IsWordChar, Harmless, BoundaryAt;
    var text, i := front + word + back, |front|;
    TermsAreHarmless(AsciiLower(word));
    TermEnds(word);
    assert text[..i] == front && text[i..i + |word|] == word && text[i + |word|..] == back;
    assert text[i] == word[0] && text[i + |word| - 1] == word[|word| - 1];
    LowerOfSlice(text, i, i + |word|);
    AloneByBoundary(text, i, i + |word|);
  }

  // ---- the words of an acknowledgement ----------------------------------------------------------

  lemma LowerConcat(a: string, b: string)
    ensures AsciiLower(a + b) == AsciiLower(a) + AsciiLower(b)
  {
  }

  lemma SeparatorFirst(c: char, s: string)
    requires !IsWordChar(c)
    ensures Words(NotWordChar, [c] + s) == Words(NotWordChar, s)
  {
    assert ([c] + s)[1..] == s;
    var r := RunLength(NotWordChar, s, true);
    assert RunLength(NotWordChar, [c] + s, true) == 1 + r;
    assert ([c] + s)[1 + r..] == s[r..];
    if r == 0 {
      assert s[0..] == s;
    }
  }

  /** A word, a separator and the rest. */
  lemma WordFirst(w: string, c: char, s: string)
    requires IsWord(NotWordChar, w) && !IsWordChar(c)
    ensures Words(NotWordChar, w + ([c] + s)) == [w] + Words(NotWordChar, s)
  {
    var all := w + ([c] + s);
    RunOfWord(NotWordChar, w, [c] + s);
    SeparatorFirst(c, s);
    assert all[0] == w[0] && all[..|w|] == w && all[|w|..] == [c] + s;
  }

  lemma OneWord(w: string)
    requires IsWord(NotWordChar, w)
    ensures Words(NotWordChar, w) == [w]
  {
    WholeRun(NotWordChar, w, |w|);
    assert w[..|w|] == w && w[|w|..] == [];
  }

  lemma NoWords()
    ensures Words(NotWordChar, "") == []
  {
  }

  predicate AllLower(s: string) { forall k :: 0 <= k < |s| ==> !IsUpperLetter(s[k]) }

  lemma LowerOfLower(s: string)
    requires AllLower(s)
    ensures AsciiLower(s) == s
  {
  }

  /** Cut before a separator, the words of the whole are the words of the two halves. */
  lemma {:induction false} WordsOfHalves(a: string, b: string)
    requires b != [] && !IsWordChar(b[0])
    ensures Words(NotWordChar, a + b) == Words(NotWordChar, a) + Words(NotWordChar, b)
    decreases |a|
  {
    hide Words, RunLength;
    if a == [] {
      assert a + b == b;
      NoWords();
    } else if !IsWordChar(a[0]) {
      WordsOfHalves(a[1..], b);
      SpaceThenHalf(a, b);
    } else {
      var r := RunLength(NotWordChar, a, false);
      if r == |a| {
        WordIsHalf(a, b);
      } else {
        WordsOfHalves(a[r + 1..], b);
        WordThenHalf(a, b, r);
      }
    }
  }

  lemma SpaceThenHalf(a: string, b: string)
    requires a != [] && !IsWordChar(a[0])
    ensures Words(NotWordChar, a) == Words(NotWordChar, a[1..])
    ensures Words(NotWordChar, a + b) == Words(NotWordChar, a[1..] + b)
  {
    hide Words, RunLength, IsWordChar;
    assert a == [a[0]] + a[1..] && a + b == [a[0]] + (a[1..] + b);
    SeparatorFirst(a[0], a[1..]);
    SeparatorFirst(a[0], a[1..] + b);
  }

  lemma WordIsHalf(a: string, b: string)
    requires IsWord(NotWordChar, a) && b != [] && !IsWordChar(b[0])
    ensures Words(NotWordChar, a) == [a] && Words(NotWordChar, a + b) == [a] + Words(NotWordChar, b)
  {
    hide Words, RunLength, IsWord, IsWordChar;
    assert b == [b[0]] + b[1..];
    OneWord(a);
    WordFirst(a, b[0], b[1..]);
    SeparatorFirst(b[0], b[1..]);
  }

  lemma WordThenHalf(a: string, b: string, r: nat)
    requires 0 < r < |a| && IsWord(NotWordChar, a[..r]) && !IsWordChar(a[r])
    ensures Words(NotWordChar, a) == [a[..r]] + Words(NotWordChar, a[r + 1..])
    ensures Words(NotWordChar, a + b) == [a[..r]] + Words(NotWordChar, a[r + 1..] + b)
  {
    hide Words, RunLength, IsWord, IsWordChar;
    assert a == a[..r] + ([a[r]] + a[r + 1..]);
    assert a + b == a[..r] + ([a[r]] + (a[r + 1..] + b));
    WordFirst(a[..r], a[r], a[r + 1..]);
    WordFirst(a[..r], a[r], a[r + 1..] + b);
  }

  /** The words of every acknowledgement, but for the reference's own eight characters. */
  predicate IsFixedWord(w: string) {
    w == "dispute" || w == "cw" || w == "received" || w == "through" || w == "the" || w == "public" || w == "route"
  }

  lemma WordsOfStart(low: string)
    requires IsWord(NotWordChar, low)
    ensures Words(NotWordChar, "dispute " + ("cw-" + low)) == ["dispute", "cw", low]
  {
    hide Words;
    OneWord(low);
    WordFirst("cw", '-', low);
    WordFirst("dispute", ' ', "cw-" + low);
    assert "cw-" + low == "cw" + (['-'] + low);
    assert "dispute " + ("cw-" + low) == "dispute" + ([' '] + ("cw-" + low));
  }

  lemma WordsOfReceived()
    ensures Words(NotWordChar, " received") == ["received"]
  {
    hide Words;
    SeparatorFirst(' ', "received");
    OneWord("received");
    assert " received" == [' '] + "received";
  }

  lemma WordsOfPublic()
    ensures Words(NotWordChar, "the public") == ["the", "public"]
  {
    hide Words;
    OneWord("public");
    WordFirst("the", ' ', "public");
    assert "the public" == "the" + ([' '] + "public");
  }

  lemma WordsOfThrough()
    ensures Words(NotWordChar, " through the public") == ["through", "the", "public"]
  {
    hide Words;
    WordsOfPublic();
    WordFirst("through", ' ', "the public");
    SeparatorFirst(' ', "through the public");
    assert "through the public" == "through" + ([' '] + "the public");
    assert " through the public" == [' '] + "through the public";
  }

  lemma WordsOfRoute()
    ensures Words(NotWordChar, " dispute route.") == ["dispute", "route"]
  {
    hide Words;
    NoWords();
    WordFirst("route", '.', "");
    WordFirst("dispute", ' ', "route.");
    SeparatorFirst(' ', "dispute route.");
    assert "route." == "route" + (['.'] + "");
    assert "dispute route." == "dispute" + ([' '] + "route.");
    assert " dispute route." == [' '] + "dispute route.";
  }

  lemma LowerOfStart()
    ensures AsciiLower("Dispute ") == "dispute " && AsciiLower("CW-") == "cw-"
  {
    hide AsciiLower;
    assert AsciiLower("Dispute ") == "dispute ";
    assert AsciiLower("CW-") == "cw-";
  }

  lemma LowerOfReceived()
    ensures AsciiLower(" received") == " received"
  {
    hide AsciiLower;
    LowerOfLower(" received");
  }

  lemma LowerOfThrough()
    ensures AsciiLower(" through the public") == " through the public"
  {
    hide AsciiLower;
    LowerOfLower(" through the public");
  }

  lemma LowerOfRoute()
    ensures AsciiLower(" dispute route.") == " dispute route."
  {
    hide AsciiLower;
    LowerOfLower(" dispute route.");
  }

  /** The acknowledgement's reason, lower-cased. */
  lemma LowerOfReason(body: string)
    ensures AsciiLower(ReceivedReason("CW-" + body)) ==
            "dispute " + ("cw-" + AsciiLower(body)) + " received" + " through the public" + " dispute route."
  {
    LowerOfStart();
    LowerOfReceived();
    LowerOfThrough();
    LowerOfRoute();
    var start := "Dispute " + ("CW-" + body);
    LowerConcat("CW-", body);
    LowerConcat("Dispute ", "CW-" + body);
    LowerConcat(start, " received");
    LowerConcat(start + " received", " through the public");
    LowerConcat(start + " received" + " through the public", " dispute route.");
    hide AsciiLower;
  }

  /** The words of an acknowledgement's reason, lower-cased. */
  lemma WordsOfReason(body: string)
    requires IsWord(NotWordChar, AsciiLower(body))
    ensures Words(NotWordChar, AsciiLower(ReceivedReason("CW-" + body))) ==
            ["dispute", "cw", AsciiLower(body)] + ["received"] + ["through", "the", "public"] + ["dispute", "route"]
  {
    LowerOfReason(body);
    var start := "dispute " + ("cw-" + AsciiLower(body));
    hide AsciiLower, ReceivedReason, Words, IsWord, NotWordChar;
    WordsOfStart(AsciiLower(body));
    WordsOfReceived();
    WordsOfThrough();
    WordsOfRoute();
    StartsWithSpace();
    WordsOfHalves(start, " received");
    WordsOfHalves(start + " received", " through the public");
    WordsOfHalves(start + " received" + " through the public", " dispute route.");
  }

  lemma FixedOrReference(body: string, w: string)
    requires w in ["dispute", "cw", AsciiLower(body)] + ["received"] + ["through", "the", "public"] +
                  ["dispute", "route"]
    ensures w == AsciiLower(body) || IsFixedWord(w)
  {
  }

  lemma StartsWithSpace()
    ensures !IsWordChar(' ')
  {
  }

  lemma FixedWordsBeginNoTerm(t: string, w: string)
    requires Harmless(t) && IsFixedWord(w)
    ensures !(w <= t)
  {
    assert w[0] != t[0] || w[1] != t[1];
  }

  lemma ReferenceBeginsNoTerm(t: string, body: string)
    requires Harmless(t) && |body| == 8 && forall k :: 0 <= k < 8 ==> IsReferenceChar(body[k])
    ensures !(AsciiLower(body) <= t)
  {
    var low := AsciiLower(body);
    forall k | 0 <= k < 8 ensures !Foreign(low[k]) {
      assert low[k] == AsciiLowerChar(body[k]);
    }
  }

  lemma ReferenceSplits(reference: string) returns (body: string)
    requires IsReference(reference)
    ensures reference == "CW-" + body && |body| == 8 && forall k :: 0 <= k < 8 ==> IsReferenceChar(body[k])
  {
    hide IsReferenceChar;
    body := reference[3..];
    assert forall k :: 0 <= k < 8 ==> body[k] == reference[k + 3];
  }

  lemma ReferenceIsWord(body: string)
    requires |body| == 8 && forall k :: 0 <= k < 8 ==> IsReferenceChar(body[k])
    ensures IsWord(NotWordChar, AsciiLower(body))
  {
    LowerKeepsWordChars(body);
  }

  /** The log row of an acknowledgement is never refused: no reference makes its fixed reason state a motive. */
  lemma ReceiptsAreClean(reference: string)
    requires IsReference(reference)
    ensures !StatesMotive(ReceivedReason(reference))
  {
    hide Words, ReceivedReason, Harmless, TermAt, IsTerm, AsciiLower, IsReference, IsReferenceChar, IsWord, IsFixedWord;
    var body := ReferenceSplits(reference);
    ReferenceIsWord(body);
    WordsOfReason(body);
    var text := ReceivedReason(reference);
    forall t, i | IsTerm(t) && TermAt(text, t, i) ensures false {
      TermsAreHarmless(t);
      TermIsInside(text, t, i);
      var w := TermBeginsWithWord(text, t, i);
      if w == AsciiLower(body) {
        ReferenceBeginsNoTerm(t, body);
      } else {
        FixedOrReference(body, w);
        FixedWordsBeginNoTerm(t, w);
      }
    }
  }
}
