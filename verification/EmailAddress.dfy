/** One email address out of a free-text contact, or nothing
    (backend/src/services/dispute-notifications.ts). */
module EmailAddress {
  import opened Options
  import opened Sequences
  import opened Text

  predicate IsLetter(c: char) { IsLowerLetter(c) || IsUpperLetter(c) }

  predicate IsAlphanumeric(c: char) { IsLetter(c) || IsDigit(c) }

  predicate IsAtomChar(c: char) { IsAlphanumeric(c) || c in "!#$%&'*+/=?^_`{|}~-" }

  predicate IsAtom(s: string) { s != [] && forall k :: 0 <= k < |s| ==> IsAtomChar(s[k]) }

  predicate IsLabel(s: string) {
    s != [] && IsAlphanumeric(s[0]) && IsAlphanumeric(s[|s| - 1]) &&
    forall k :: 0 <= k < |s| ==> IsAlphanumeric(s[k]) || s[k] == '-'
  }

  predicate IsTopLevel(s: string) { |s| >= 2 && forall k :: 0 <= k < |s| ==> IsLetter(s[k]) }

  predicate IsLocalPart(s: string) {
    var atoms := Split(s, '.');
    forall k :: 0 <= k < |atoms| ==> IsAtom(atoms[k])
  }

  predicate AreDomainLabels(labels: seq<string>) {
    |labels| >= 2 && IsTopLevel(labels[|labels| - 1]) && forall k :: 0 <= k < |labels| - 1 ==> IsLabel(labels[k])
  }

  predicate IsDomain(s: string) { AreDomainLabels(Split(s, '.')) }

  /** `SINGLE_EMAIL`: dotted atoms, one `@`, a dotted domain. */
  predicate IsSingleEmail(s: string) {
    var sides := Split(s, '@');
    |sides| == 2 && IsLocalPart(sides[0]) && IsDomain(sides[1])
  }

  /** `parseSingleEmailAddress`. */
  function Parse(lower: string -> string, contact: string): Option<string> {
    var trimmed := Trim(contact);
    if |trimmed| == 0 || |trimmed| > 254 then None
    else if !IsSingleEmail(trimmed) then None
    else Some(lower(trimmed))
  }

  // ---- what a parsed address is ------------------------------------------------------------

  predicate IsAddressChar(c: char) { IsAtomChar(c) || c == '.' || c == '@' }

  lemma {:induction false} SplitChars(s: string, c: char, k: nat)
    requires k < |s| && s[k] != c
    ensures exists p :: 0 <= p < |Split(s, c)| && s[k] in Split(s, c)[p]
  {
    if k == 0 {
      assert s[0] in Split(s, c)[0];
    } else {
      SplitChars(s[1..], c, k - 1);
      var rest := Split(s[1..], c);
      var p :| 0 <= p < |rest| && s[1..][k - 1] in rest[p];
      if s[0] == c {
        assert Split(s, c)[p + 1] == rest[p];
      } else {
        assert Split(s, c)[p] == (if p == 0 then [s[0]] + rest[0] else rest[p]);
      }
    }
  }

  lemma LocalPartChars(s: string, k: nat)
    requires IsLocalPart(s) && k < |s|
    ensures IsAddressChar(s[k])
  {
    if s[k] != '.' {
      SplitChars(s, '.', k);
      var p :| 0 <= p < |Split(s, '.')| && s[k] in Split(s, '.')[p];
      assert IsAtom(Split(s, '.')[p]);
    }
  }

  lemma DomainChars(s: string, k: nat)
    requires IsDomain(s) && k < |s|
    ensures IsAddressChar(s[k])
  {
    if s[k] != '.' {
      SplitChars(s, '.', k);
      var labels := Split(s, '.');
      var p :| 0 <= p < |labels| && s[k] in labels[p];
      assert p < |labels| - 1 ==> IsLabel(labels[p]);
      var j :| 0 <= j < |labels[p]| && labels[p][j] == s[k];
      assert IsAlphanumeric(labels[p][j]) || labels[p][j] == '-';
    }
  }

  lemma SideChars(s: string, sides: seq<string>, k: nat)
    requires sides == Split(s, '@') && |sides| == 2 && IsLocalPart(sides[0]) && IsDomain(sides[1])
    requires k < |s| && s[k] != '@'
    ensures IsAddressChar(s[k])
  {
    hide Split, IsAddressChar, IsLocalPart, IsDomain;
    SplitChars(s, '@', k);
    var p :| 0 <= p < |sides| && s[k] in sides[p];
    var j: nat :| j < |sides[p]| && sides[p][j] == s[k];
    if p == 0 {
      LocalPartChars(sides[0], j);
    } else {
      DomainChars(sides[1], j);
    }
  }

  lemma AddressCharIsPlain(c: char)
    ensures IsAddressChar(c) ==> (c as int) < 128 && !IsSpace(c)
  {
  }

  lemma EmailChars(s: string)
    requires IsSingleEmail(s)
    ensures forall k :: 0 <= k < |s| ==> IsAddressChar(s[k])
    ensures IsAscii(s) && Trimmed(s)
  {
    forall k | 0 <= k < |s| ensures IsAddressChar(s[k]) && (s[k] as int) < 128 && !IsSpace(s[k]) {
      if s[k] != '@' {
        SideChars(s, Split(s, '@'), k);
      }
      AddressCharIsPlain(s[k]);
      hide IsAddressChar, IsSpace;
    }
  }

  lemma MapCons(x: string, xs: seq<string>)
    ensures Map([x] + xs, AsciiLower) == [AsciiLower(x)] + Map(xs, AsciiLower)
  {
    hide AsciiLower;
  }

  lemma LowerCons(x: char, s: string)
    ensures AsciiLower([x] + s) == [AsciiLowerChar(x)] + AsciiLower(s)
  {
    assert ([x] + s)[1..] == s;
  }

  lemma {:induction false} SplitLower(s: string, c: char)
    requires !IsLetter(c)
    ensures Split(AsciiLower(s), c) == Map(Split(s, c), AsciiLower)
  {
    if s == [] {
      assert Map([""], AsciiLower) == [""];
    } else {
      var x, more := s[0], s[1..];
      var rest := Split(more, c);
      SplitLower(more, c);
      assert s == [x] + more;
      LowerCons(x, more);
      SplitCons(x, more, c);
      SplitCons(AsciiLowerChar(x), AsciiLower(more), c);
      if x == c {
        MapCons("", rest);
      } else {
        MapCons([x] + rest[0], rest[1..]);
        LowerCons(x, rest[0]);
        assert rest == [rest[0]] + rest[1..];
        MapCons(rest[0], rest[1..]);
      }
    }
  }

  lemma LowerKeepsLocalPart(s: string)
    requires IsLocalPart(s)
    ensures IsLocalPart(AsciiLower(s))
  {
    SplitLower(s, '.');
    var atoms := Split(s, '.');
    forall k | 0 <= k < |atoms| ensures IsAtom(AsciiLower(atoms[k])) {
      assert IsAtom(atoms[k]);
    }
  }

  lemma LowerLabel(s: string)
    requires IsLabel(s)
    ensures IsLabel(AsciiLower(s))
  {
  }

  lemma LowerTopLevel(s: string)
    requires IsTopLevel(s)
    ensures IsTopLevel(AsciiLower(s))
  {
  }

  /** Labels lower-cased one by one are labels still. */
  lemma LowerLabels(labels: seq<string>, lowered: seq<string>)
    requires AreDomainLabels(labels) && |lowered| == |labels|
    requires forall k :: 0 <= k < |labels| ==> lowered[k] == AsciiLower(labels[k])
    ensures AreDomainLabels(lowered)
  {
    var last := |labels| - 1;
    assert IsTopLevel(lowered[last]) by {
      LowerTopLevel(labels[last]);
    }
    forall k | 0 <= k < last ensures IsLabel(lowered[k]) {
      LowerLabel(labels[k]);
    }
  }

  lemma LowerKeepsDomain(s: string)
    requires IsDomain(s)
    ensures IsDomain(AsciiLower(s))
  {
    SplitLower(s, '.');
    LowerLabels(Split(s, '.'), Split(AsciiLower(s), '.'));
  }

  /** A parsed address is one lower-case address with no white space, comma or angle bracket; it parses as
      itself, and neither trimming nor folding changes it. */
  lemma ParsedAddress(lower: string -> string, contact: string)
    requires CaseFolding(lower) && Parse(lower, contact).Some?
    ensures var a := Parse(lower, contact).value;
            && IsSingleEmail(a) && Trim(a) == a && lower(a) == a && |a| <= 254
            && Parse(lower, a) == Some(a)
            && forall k :: 0 <= k < |a| ==> IsAddressChar(a[k])
  {
    var trimmed := Trim(contact);
    var a := Parse(lower, contact).value;
    EmailChars(trimmed);
    assert a == AsciiLower(trimmed);
    var sides := Split(trimmed, '@');
    SplitLower(trimmed, '@');
    LowerKeepsLocalPart(sides[0]);
    LowerKeepsDomain(sides[1]);
    assert IsSingleEmail(a);
    EmailChars(a);
    assert Trim(a) == a;
  }

  // ---- exactly the pattern ---------------------------------------------------------------------

  /** Letters, digits and the marks an atom may have. */
  predicate AtomText(s: string) {
    s != "" && forall k :: 0 <= k < |s| ==>
      'a' <= s[k] <= 'z' || 'A' <= s[k] <= 'Z' || '0' <= s[k] <= '9' || s[k] in "!#$%&'*+/=?^_`{|}~-"
  }

  /** Letters, digits and inner dashes. */
  predicate LabelText(s: string) {
    && s != "" && s[0] != '-' && s[|s| - 1] != '-'
    && forall k :: 0 <= k < |s| ==>
         'a' <= s[k] <= 'z' || 'A' <= s[k] <= 'Z' || '0' <= s[k] <= '9' || s[k] == '-'
  }

  predicate TopLevelText(s: string) {
    |s| >= 2 && forall k :: 0 <= k < |s| ==> 'a' <= s[k] <= 'z' || 'A' <= s[k] <= 'Z'
  }

  /** Atoms between dots, `@`, and labels between dots of which the last is a top-level name. */
  ghost predicate Spells(s: string, atoms: seq<string>, labels: seq<string>) {
    && s == Glue(atoms, '.') + ['@'] + Glue(labels, '.')
    && atoms != [] && (forall k :: 0 <= k < |atoms| ==> AtomText(atoms[k]))
    && |labels| >= 2 && TopLevelText(labels[|labels| - 1])
    && forall k :: 0 <= k < |labels| - 1 ==> LabelText(labels[k])
  }

  lemma AtomIs(s: string)
    ensures IsAtom(s) <==> AtomText(s)
  {
  }

  lemma LabelIs(s: string)
    ensures IsLabel(s) <==> LabelText(s)
  {
  }

  lemma TopLevelIs(s: string)
    ensures IsTopLevel(s) <==> TopLevelText(s)
  {
  }

  lemma LocalPartIs(atoms: seq<string>)
    ensures (forall k :: 0 <= k < |atoms| ==> IsAtom(atoms[k])) <==> forall k :: 0 <= k < |atoms| ==> AtomText(atoms[k])
  {
    hide IsAtom, AtomText;
    forall k | 0 <= k < |atoms| ensures IsAtom(atoms[k]) <==> AtomText(atoms[k]) {
      AtomIs(atoms[k]);
    }
  }

  lemma DomainIs(labels: seq<string>)
    ensures AreDomainLabels(labels) <==>
              |labels| >= 2 && TopLevelText(labels[|labels| - 1]) &&
              forall k :: 0 <= k < |labels| - 1 ==> LabelText(labels[k])
  {
    hide IsLabel, LabelText, IsTopLevel, TopLevelText;
    forall k | 0 <= k < |labels| ensures IsLabel(labels[k]) <==> LabelText(labels[k]) {
      LabelIs(labels[k]);
    }
    if |labels| > 0 {
      TopLevelIs(labels[|labels| - 1]);
    }
  }

  lemma EmailIsSpelt(s: string) returns (atoms: seq<string>, labels: seq<string>)
    requires IsSingleEmail(s)
    ensures Spells(s, atoms, labels)
  {
    hide Split, Glue, IsAtom, AtomText, AreDomainLabels, LabelText, TopLevelText;
    var sides := Split(s, '@');
    atoms, labels := Split(sides[0], '.'), Split(sides[1], '.');
    LocalPartIs(atoms);
    DomainIs(labels);
    GlueOfSplit(s, '@');
    GlueOfSplit(sides[0], '.');
    GlueOfSplit(sides[1], '.');
    GlueOfTwo(sides);
  }

  lemma GlueOfTwo(sides: seq<string>)
    requires |sides| == 2
    ensures Glue(sides, '@') == sides[0] + ['@'] + sides[1]
  {
    assert sides[1..] == [sides[1]];
  }

  lemma AtomLacks(s: string)
    requires AtomText(s)
    ensures '.' !in s && '@' !in s
  {
    assert '.' !in "!#$%&'*+/=?^_`{|}~-" && '@' !in "!#$%&'*+/=?^_`{|}~-";
  }

  lemma LabelLacks(s: string)
    requires LabelText(s) || TopLevelText(s)
    ensures '.' !in s && '@' !in s
  {
  }

  lemma SpeltIsEmail(s: string, atoms: seq<string>, labels: seq<string>)
    requires Spells(s, atoms, labels)
    ensures IsSingleEmail(s)
  {
    hide Split, Glue, IsAtom, AtomText, AreDomainLabels, LabelText, TopLevelText;
    forall k | 0 <= k < |atoms| ensures '.' !in atoms[k] && '@' !in atoms[k] {
      AtomLacks(atoms[k]);
    }
    forall k | 0 <= k < |labels| ensures '.' !in labels[k] && '@' !in labels[k] {
      LabelLacks(labels[k]);
    }
    LocalPartIs(atoms);
    DomainIs(labels);
    SplitOfGlue(atoms, '.');
    SplitOfGlue(labels, '.');
    GlueLacks(atoms, '.', '@');
    GlueLacks(labels, '.', '@');
    SplitGlued(Glue(atoms, '.'), '@', Glue(labels, '.'));
    SplitWithout(Glue(atoms, '.'), '@');
    SplitWithout(Glue(labels, '.'), '@');
  }

  /** A contact parses exactly when, white space around it aside, it is at most 254 characters and spelt as the
      pattern has it, and then as those characters in lower case. */
  lemma ParsesExactly(lower: string -> string, contact: string)
    ensures Parse(lower, contact) ==
            (if |Trim(contact)| <= 254 && exists atoms, labels :: Spells(Trim(contact), atoms, labels)
             then Some(lower(Trim(contact))) else None)
  {
    hide Trim, IsSingleEmail, Spells;
    var s := Trim(contact);
    if IsSingleEmail(s) {
      var atoms, labels := EmailIsSpelt(s);
    }
    if atoms, labels :| Spells(s, atoms, labels) {
      SpeltIsEmail(s, atoms, labels);
      SpeltIsSome(s, atoms, labels);
    }
  }

  lemma SpeltIsSome(s: string, atoms: seq<string>, labels: seq<string>)
    requires Spells(s, atoms, labels)
    ensures |s| > 0
  {
  }
}
