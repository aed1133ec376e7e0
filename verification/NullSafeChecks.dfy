/** CHECK constraints under SQL's three-valued logic, and the null-safe rewriting that closes their
    holes (backend/migrations/095, 098, 102 and 103). */
module NullSafeChecks {

  /** A column's value; `Null` is its own case. */
  datatype Value = Null | Str(s: string) | Num(n: int)

  type Row = string -> Value

  datatype Truth = True | False | Unknown

  /** A test on a non-null value, named by what it tests. */
  datatype Test =
    | Equals(s: string)
    | Differs(s: string)
    | IsSha           // ~ '^[0-9a-f]{64}$'
    | NotBlank        // length(btrim(x)) > 0
    | AtLeast(n: int)

  datatype Expr =
    | Compare(column: string, test: Test)
    | IsNull(column: string)
    | IsNotNull(column: string)
    | And(left: Expr, right: Expr)
    | Or(left: Expr, right: Expr)
    | CoalesceFalse(inner: Expr)

  predicate IsHex(c: char) { '0' <= c <= '9' || 'a' <= c <= 'f' }

  predicate AllHex(s: string) { forall k :: 0 <= k < |s| ==> IsHex(s[k]) }

  /** `btrim` strips spaces only. */
  predicate Blank(s: string) { forall k :: 0 <= k < |s| ==> s[k] == ' ' }

  predicate Passes(test: Test, v: Value) {
    match test
    case Equals(s) => v == Str(s)
    case Differs(s) => v != Str(s)
    case IsSha => v.Str? && |v.s| == 64 && AllHex(v.s)
    case NotBlank => v.Str? && !Blank(v.s)
    case AtLeast(n) => v.Num? && v.n >= n
  }

  function Of(b: bool): Truth { if b then True else False }

  function AndTruth(a: Truth, b: Truth): Truth {
    if a == False || b == False then False else if a == True && b == True then True else Unknown
  }

  function OrTruth(a: Truth, b: Truth): Truth {
    if a == True || b == True then True else if a == False && b == False then False else Unknown
  }

  /** Evaluation as SQL does it: a comparison with NULL is unknown. */
  function Eval(e: Expr, row: Row): Truth {
    match e
    case Compare(column, test) => if row(column).Null? then Unknown else Of(Passes(test, row(column)))
    case IsNull(column) => Of(row(column).Null?)
    case IsNotNull(column) => Of(!row(column).Null?)
    case And(l, r) => AndTruth(Eval(l, row), Eval(r, row))
    case Or(l, r) => OrTruth(Eval(l, row), Eval(r, row))
    case CoalesceFalse(inner) => if Eval(inner, row) == Unknown then False else Eval(inner, row)
  }

  /** A CHECK is satisfied unless it is false: unknown passes. */
  predicate Accepts(e: Expr, row: Row) { Eval(e, row) != False }

  /** What the constraint means: two-valued, where unknown is not good enough. */
  predicate Intended(e: Expr, row: Row) {
    match e
    case Compare(column, test) => !row(column).Null? && Passes(test, row(column))
    case IsNull(column) => row(column).Null?
    case IsNotNull(column) => !row(column).Null?
    case And(l, r) => Intended(l, row) && Intended(r, row)
    case Or(l, r) => Intended(l, row) || Intended(r, row)
    case CoalesceFalse(inner) => Intended(inner, row)
  }

  /** The rewriting: every disjunct is wrapped in `coalesce(..., false)`. */
  function NullSafe(e: Expr): Expr {
    match e
    case Or(l, r) => Or(NullSafe(l), NullSafe(r))
    case _ => CoalesceFalse(e)
  }

  /** The columns whose value an expression compares. */
  function Compared(e: Expr): set<string> {
    match e
    case Compare(column, _) => {column}
    case IsNull(_) => {}
    case IsNotNull(_) => {}
    case And(l, r) => Compared(l) + Compared(r)
    case Or(l, r) => Compared(l) + Compared(r)
    case CoalesceFalse(inner) => Compared(inner)
  }

  predicate NonNull(columns: set<string>, row: Row) { forall c :: c in columns ==> !row(c).Null? }

  // ---- the general theory ------------------------------------------------------------------

  /** An expression is true exactly when it means to hold: only false and unknown differ. */
  lemma {:induction false} TrueIsIntended(e: Expr, row: Row)
    ensures Eval(e, row) == True <==> Intended(e, row)
  {
    match e
    case Compare(_, _) =>
    case IsNull(_) =>
    case IsNotNull(_) =>
    case And(l, r) => TrueIsIntended(l, row); TrueIsIntended(r, row);
    case Or(l, r) => TrueIsIntended(l, row); TrueIsIntended(r, row);
    case CoalesceFalse(inner) => TrueIsIntended(inner, row);
  }

  /** Nothing is unknown when every compared column has a value. */
  lemma {:induction false} KnownWhenNonNull(e: Expr, row: Row)
    requires NonNull(Compared(e), row)
    ensures Eval(e, row) != Unknown
  {
    match e
    case Compare(column, _) => assert column in Compared(e);
    case IsNull(_) =>
    case IsNotNull(_) =>
    case And(l, r) => KnownWhenNonNull(l, row); KnownWhenNonNull(r, row);
    case Or(l, r) => KnownWhenNonNull(l, row); KnownWhenNonNull(r, row);
    case CoalesceFalse(inner) => KnownWhenNonNull(inner, row);
  }

  lemma {:induction false} NullSafeIsKnown(e: Expr, row: Row)
    ensures Eval(NullSafe(e), row) == (if Intended(e, row) then True else False)
  {
    match e
    case Or(l, r) => NullSafeIsKnown(l, row); NullSafeIsKnown(r, row);
    case _ => TrueIsIntended(e, row);
  }

  /** The rewriting is a sound tightening: it accepts exactly the rows the constraint means to accept,
      never a row the original refused, and what it newly refuses is exactly the rows the original
      found unknown. Where every compared column has a value the two agree. */
  lemma NullSafeIsExact(e: Expr, row: Row)
    ensures Accepts(NullSafe(e), row) <==> Intended(e, row)
    ensures Accepts(NullSafe(e), row) ==> Accepts(e, row)
    ensures Accepts(e, row) && !Accepts(NullSafe(e), row) <==> Eval(e, row) == Unknown
    ensures NonNull(Compared(e), row) ==> (Accepts(NullSafe(e), row) <==> Accepts(e, row))
  {
    NullSafeIsKnown(e, row);
    TrueIsIntended(e, row);
    if NonNull(Compared(e), row) {
      KnownWhenNonNull(e, row);
    }
  }

  /** Leaving the first disjunct unwrapped, as the migrations do, still refuses whatever the original
      refused. It is as good exactly when that disjunct is never unknown where the second fails; its NOT
      NULL column sees to that. */
  lemma HalfWrapped(first: Expr, second: Expr, row: Row)
    ensures (Accepts(Or(first, CoalesceFalse(second)), row) <==> Intended(Or(first, second), row)) <==>
            (Eval(first, row) == Unknown ==> Intended(second, row))
    ensures NonNull(Compared(first), row) ==>
              (Accepts(Or(first, CoalesceFalse(second)), row) <==> Intended(Or(first, second), row))
    ensures Accepts(Or(first, CoalesceFalse(second)), row) ==> Accepts(Or(first, second), row)
    ensures NonNull(Compared(second), row) ==>
              (Accepts(Or(first, CoalesceFalse(second)), row) <==> Accepts(Or(first, second), row))
  {
    TrueIsIntended(first, row);
    TrueIsIntended(second, row);
    var wrapped := CoalesceFalse(second);
    assert Eval(wrapped, row) == Of(Intended(second, row));
    assert Eval(Or(first, wrapped), row) == OrTruth(Eval(first, row), Eval(wrapped, row));
    assert Intended(Or(first, second), row) == (Intended(first, row) || Intended(second, row));
    if NonNull(Compared(first), row) {
      KnownWhenNonNull(first, row);
    }
    if NonNull(Compared(second), row) {
      KnownWhenNonNull(second, row);
    }
  }

  // ---- the constraints ------------------------------------------------------------------------

  const NOT_APPROVED := Compare("status", Differs("approved"))
  const PIN := And(IsNotNull("rendered_text"), And(Compare("render_sha256", IsSha),
                   And(IsNotNull("render_version"), IsNotNull("approved_by"))))

  const OLD_PIN_CHECK := Or(NOT_APPROVED, PIN)
  const NEW_PIN_CHECK := Or(NOT_APPROVED, CoalesceFalse(PIN))

  const UNAVAILABLE := Compare("state", Equals("unavailable"))
  const OLD_SHA_CHECK := Or(UNAVAILABLE, Compare("observed_sha256", IsSha))
  const NEW_SHA_CHECK := Or(UNAVAILABLE, CoalesceFalse(Compare("observed_sha256", IsSha)))

  const INFERRED := Compare("confidence", Equals("inferred"))
  const CITATION := And(Compare("artifact_sha256", IsSha),
                        And(Compare("quote_offset", AtLeast(0)), Compare("quote", NotBlank)))
  const OLD_CITATION_CHECK := Or(INFERRED, CITATION)
  const NEW_CITATION_CHECK := Or(INFERRED, CoalesceFalse(CITATION))

  const NOT_AVAILABLE := Compare("state", Differs("available"))
  const RECORDING := And(Compare("duration_ms", AtLeast(1)), And(Compare("media_id", Differs("")),
                         And(Compare("media_url", Differs("")),
                             And(Compare("index_point_count", AtLeast(0)), IsNull("last_error")))))
  const AVAILABLE_CHECK := Or(NOT_AVAILABLE, CoalesceFalse(RECORDING))

  const NOT_UNREADABLE := Compare("state", Differs("unreadable"))
  const FAILURE := And(IsNotNull("last_error"), And(IsNull("duration_ms"), IsNull("media_id")))
  const UNREADABLE_CHECK := Or(NOT_UNREADABLE, CoalesceFalse(FAILURE))

  const NO_PROVENANCE := And(IsNull("source_url"), And(IsNull("fetched_at"), IsNull("artifact_sha256")))
  const FULL_PROVENANCE := And(Compare("source_url", NotBlank),
                               And(IsNotNull("fetched_at"), Compare("artifact_sha256", IsSha)))
  const PROVENANCE_CHECK := Or(CoalesceFalse(NO_PROVENANCE), CoalesceFalse(FULL_PROVENANCE))

  /** Sixty-four lower-case hexadecimal digits. */
  predicate IsShaText(v: Value) { v.Str? && |v.s| == 64 && forall k :: 0 <= k < 64 ==> v.s[k] in "0123456789abcdef" }

  /** Text with something other than a space in it. */
  predicate IsText(v: Value) { v.Str? && exists k :: 0 <= k < |v.s| && v.s[k] != ' ' }

  predicate IsCount(v: Value, least: int) { v.Num? && v.n >= least }

  lemma HexDigits(c: char)
    ensures IsHex(c) <==> c in "0123456789abcdef"
  {
  }

  lemma ShaTest(v: Value)
    ensures Passes(IsSha, v) <==> IsShaText(v)
  {
    hide IsHex;
    if v.Str? {
      forall k | 0 <= k < |v.s| ensures IsHex(v.s[k]) <==> v.s[k] in "0123456789abcdef" {
        HexDigits(v.s[k]);
      }
    }
  }

  /** What the tests of the constraints test, on any value. */
  lemma TestsMean(v: Value)
    ensures Passes(IsSha, v) <==> IsShaText(v)
    ensures Passes(NotBlank, v) <==> IsText(v)
    ensures Passes(AtLeast(0), v) <==> IsCount(v, 0)
    ensures Passes(AtLeast(1), v) <==> IsCount(v, 1)
  {
    ShaTest(v);
  }

  /** An approved claim carries its pin. The old check let through exactly the approved rows whose sha
      is missing while the other three parts of the pin are there; a row with no pin at all it refused. */
  lemma PinChecks(row: Row)
    requires !row("status").Null?
    ensures Accepts(NEW_PIN_CHECK, row) <==>
              (row("status") == Str("approved") ==>
                 !row("rendered_text").Null? && IsShaText(row("render_sha256")) && !row("render_version").Null? &&
                 !row("approved_by").Null?)
    ensures Accepts(OLD_PIN_CHECK, row) && !Accepts(NEW_PIN_CHECK, row) <==>
              row("status") == Str("approved") && row("render_sha256").Null? && !row("rendered_text").Null? &&
              !row("render_version").Null? && !row("approved_by").Null?
  {
    TestsMean(row("render_sha256"));
    hide IsShaText, AllHex;
    HalfWrapped(NOT_APPROVED, PIN, row);
    TrueIsIntended(PIN, row);
  }

  /** A transcript that is not unavailable carries the sha of its bytes; the old check let through
      exactly those with none. */
  lemma ShaChecks(row: Row)
    requires !row("state").Null?
    ensures Accepts(NEW_SHA_CHECK, row) <==> row("state") == Str("unavailable") || IsShaText(row("observed_sha256"))
    ensures Accepts(OLD_SHA_CHECK, row) && !Accepts(NEW_SHA_CHECK, row) <==>
              row("state") != Str("unavailable") && row("observed_sha256").Null?
  {
    TestsMean(row("observed_sha256"));
    hide IsShaText, AllHex;
    HalfWrapped(UNAVAILABLE, Compare("observed_sha256", IsSha), row);
  }

  /** A link that is not inferred carries its citation. The old check let through exactly the links whose
      citation has a column missing and none that is wrong. */
  lemma CitationChecks(row: Row)
    requires !row("confidence").Null?
    ensures Accepts(NEW_CITATION_CHECK, row) <==>
              row("confidence") == Str("inferred") ||
              (IsShaText(row("artifact_sha256")) && IsCount(row("quote_offset"), 0) && IsText(row("quote")))
    ensures Accepts(OLD_CITATION_CHECK, row) && !Accepts(NEW_CITATION_CHECK, row) <==>
              && row("confidence") != Str("inferred")
              && (row("artifact_sha256").Null? || row("quote_offset").Null? || row("quote").Null?)
              && (row("artifact_sha256").Null? || IsShaText(row("artifact_sha256")))
              && (row("quote_offset").Null? || IsCount(row("quote_offset"), 0))
              && (row("quote").Null? || IsText(row("quote")))
  {
    TestsMean(row("artifact_sha256"));
    TestsMean(row("quote_offset"));
    TestsMean(row("quote"));
    hide IsShaText, IsText, AllHex, Blank;
    HalfWrapped(INFERRED, CITATION, row);
    TrueIsIntended(CITATION, row);
  }

  /** A recording that claims to be available says how long it is, what and where it is, and no error; one
      that could not be read says why and nothing else. */
  lemma RecordingChecks(row: Row)
    requires !row("state").Null?
    ensures Accepts(AVAILABLE_CHECK, row) <==>
              (row("state") == Str("available") ==>
                 IsCount(row("duration_ms"), 1) && !row("media_id").Null? && row("media_id") != Str("") &&
                 !row("media_url").Null? && row("media_url") != Str("") &&
                 IsCount(row("index_point_count"), 0) &&
                 row("last_error").Null?)
    ensures Accepts(UNREADABLE_CHECK, row) <==>
              (row("state") == Str("unreadable") ==>
                 !row("last_error").Null? && row("duration_ms").Null? && row("media_id").Null?)
  {
    TestsMean(row("duration_ms"));
    TestsMean(row("index_point_count"));
    hide IsShaText, IsText, AllHex, Blank;
    HalfWrapped(NOT_AVAILABLE, RECORDING, row);
    HalfWrapped(NOT_UNREADABLE, FAILURE, row);
    TrueIsIntended(RECORDING, row);
    TrueIsIntended(FAILURE, row);
  }

  /** Provenance is all or nothing. Unwrapped, the same check would also let through partial provenance:
      exactly the rows with a column missing, not all of them, and nothing wrong in the rest. */
  lemma ProvenanceChecks(row: Row)
    ensures Accepts(PROVENANCE_CHECK, row) <==>
              (row("source_url").Null? && row("fetched_at").Null? && row("artifact_sha256").Null?) ||
              (IsText(row("source_url")) && !row("fetched_at").Null? && IsShaText(row("artifact_sha256")))
    ensures Accepts(Or(NO_PROVENANCE, FULL_PROVENANCE), row) && !Accepts(PROVENANCE_CHECK, row) <==>
              && !row("fetched_at").Null?
              && (row("source_url").Null? || row("artifact_sha256").Null?)
              && (row("source_url").Null? || IsText(row("source_url")))
              && (row("artifact_sha256").Null? || IsShaText(row("artifact_sha256")))
  {
    TestsMean(row("source_url"));
    TestsMean(row("artifact_sha256"));
    hide IsShaText, IsText, AllHex, Blank;
    assert NullSafe(Or(NO_PROVENANCE, FULL_PROVENANCE)) == PROVENANCE_CHECK;
    NullSafeIsExact(Or(NO_PROVENANCE, FULL_PROVENANCE), row);
  }
}
