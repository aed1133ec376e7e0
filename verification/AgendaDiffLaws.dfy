/** What the agenda diff promises: the pairing is a maximum matching of fixed shape, the diff the
    other way round is its mirror, and applying a diff as a patch turns one title set into the other. */
module AgendaDiffLaws {
  import opened Sequences
  import opened AgendaDiff

  function Min(x: nat, y: nat): nat { if x <= y then x else y }

  // ---- counts per slot -----------------------------------------------------------

  /** Changes of one kind under one item number. */
  function OfKind(kind: nat, n: real): Change -> bool { c => KindRank(c) == kind && c.number == n }

  lemma OfKindIs(kind: nat, n: real, c: Change)
    ensures OfKind(kind, n)(c) <==> KindRank(c) == kind && c.number == n
  {
  }

  lemma MatchedByCount(s: seq<Item>, other: seq<Item>, i: nat)
    requires i < |s|
    ensures Matched(s, other, i) <==> Count(s[..i], s[i].number) < Count(other, s[i].number)
  {
    hide Count;
  }

  lemma {:induction false} RetitleCount(r: seq<Item>, a: seq<Item>, i: nat, kind: nat, n: real)
    requires i <= |r|
    ensures CountIf(Retitles(r, a, i), OfKind(kind, n)) ==
            (if kind == 2 then Min(Count(r[..i], n), Count(a, n)) else 0)
  {
    if i == 0 {
    } else {
      hide CountIf, Count, Partner, Paired, OfKind, Matched;
      RetitleCount(r, a, i - 1, kind, n);
      CountStep(r, i - 1, n);
      MatchedByCount(r, a, i - 1);
      PartnerIsKth(r, a, i - 1);
      var before, j := Retitles(r, a, i - 1), Partner(r, a, i - 1);
      if j < |a| {
        PartnersAgree(r, a, i - 1);
        var c := Retitled(a[j].number, a[j].title, r[i - 1].title);
        CountIfAppend(before, c, OfKind(kind, n));
        OfKindIs(kind, n, c);
      }
    }
  }

  lemma PartnersAgree(r: seq<Item>, a: seq<Item>, i: nat)
    requires i < |r| && Partner(r, a, i) < |a|
    ensures a[Partner(r, a, i)].number == r[i].number
  {
    hide Partner, Rank;
    PartnerIsKth(r, a, i);
  }

  /** How many of the first `i` of `s` are left over under a number that `other` has as well. */
  function LeftOver(s: seq<Item>, other: seq<Item>, i: nat, n: real): int
    requires i <= |s|
  {
    Count(s[..i], n) - Min(Count(s[..i], n), Count(other, n))
  }

  lemma LeftOverStep(s: seq<Item>, other: seq<Item>, i: nat, n: real)
    requires i < |s|
    ensures LeftOver(s, other, i + 1, n) ==
            LeftOver(s, other, i, n) + (if s[i].number == n && !Matched(s, other, i) then 1 else 0)
  {
    hide Count, Matched;
    CountStep(s, i, n);
    MatchedByCount(s, other, i);
  }

  lemma {:induction false} LeftoverAdditionCount(r: seq<Item>, a: seq<Item>, j: nat, kind: nat, n: real)
    requires j <= |a|
    ensures CountIf(LeftoverAdditions(r, a, j), OfKind(kind, n)) == (if kind == 0 then LeftOver(a, r, j, n) else 0)
    decreases j
  {
    if j == 0 {
    } else {
      hide CountIf, Count, OfKind, Matched, LeftOver;
      LeftoverAdditionCount(r, a, j - 1, kind, n);
      LeftOverStep(a, r, j - 1, n);
      var before, c := LeftoverAdditions(r, a, j - 1), Added(a[j - 1].number, a[j - 1].title);
      CountIfAppend(before, c, OfKind(kind, n));
      OfKindIs(kind, n, c);
    }
  }

  lemma {:induction false} LeftoverRemovalCount(r: seq<Item>, a: seq<Item>, i: nat, kind: nat, n: real)
    requires i <= |r|
    ensures CountIf(LeftoverRemovals(r, a, i), OfKind(kind, n)) == (if kind == 1 then LeftOver(r, a, i, n) else 0)
    decreases i
  {
    if i == 0 {
    } else {
      hide CountIf, Count, OfKind, Matched, LeftOver;
      LeftoverRemovalCount(r, a, i - 1, kind, n);
      LeftOverStep(r, a, i - 1, n);
      var before, c := LeftoverRemovals(r, a, i - 1), Removed(r[i - 1].number, r[i - 1].title);
      CountIfAppend(before, c, OfKind(kind, n));
      OfKindIs(kind, n, c);
    }
  }

  lemma DiffCount(lower: string -> string, from: seq<Item>, to: seq<Item>, kind: nat, n: real)
    ensures var r, a := Unmatched(lower, from, to), Unmatched(lower, to, from);
            CountIf(Diff(lower, from, to), OfKind(kind, n)) ==
            CountIf(Retitles(r, a, |r|), OfKind(kind, n)) + CountIf(LeftoverAdditions(r, a, |a|), OfKind(kind, n)) +
            CountIf(LeftoverRemovals(r, a, |r|), OfKind(kind, n))
  {
    hide CountIf, StableSort, Unmatched, Retitles, LeftoverAdditions, LeftoverRemovals, OfKind;
    var r, a := Unmatched(lower, from, to), Unmatched(lower, to, from);
    var retitles, additions, removals := Retitles(r, a, |r|), LeftoverAdditions(r, a, |a|), LeftoverRemovals(r, a, |r|);
    SortKeeps(Pairing(r, a), ChangeOrder);
    CountIfPermutation(Diff(lower, from, to), Pairing(r, a), OfKind(kind, n));
    CountIfConcat(retitles + additions, removals, OfKind(kind, n));
    CountIfConcat(retitles, additions, OfKind(kind, n));
  }

  /** What a diff reports of one kind under one number, from how often each side has the number. */
  function Reported(kind: nat, removals: nat, additions: nat): int {
    if kind == 2 then Min(removals, additions)
    else if kind == 0 then additions - Min(removals, additions)
    else if kind == 1 then removals - Min(removals, additions)
    else 0
  }

  lemma KindCount(lower: string -> string, from: seq<Item>, to: seq<Item>, kind: nat, n: real)
    ensures CountIf(Diff(lower, from, to), OfKind(kind, n)) ==
            Reported(kind, Count(Unmatched(lower, from, to), n), Count(Unmatched(lower, to, from), n))
  {
    hide CountIf, Count, Diff, Unmatched, Retitles, LeftoverAdditions, LeftoverRemovals, OfKind;
    var r, a := Unmatched(lower, from, to), Unmatched(lower, to, from);
    assert r[..|r|] == r && a[..|a|] == a;
    DiffCount(lower, from, to, kind, n);
    RetitleCount(r, a, |r|, kind, n);
    LeftoverAdditionCount(r, a, |a|, kind, n);
    LeftoverRemovalCount(r, a, |r|, kind, n);
  }

  /** Under every item number the diff reports exactly min(removals, additions) retitles, and what is
      left over is all additions or all removals, never both. */
  lemma SlotCounts(lower: string -> string, from: seq<Item>, to: seq<Item>, n: real)
    ensures var removals := Count(Unmatched(lower, from, to), n);
            var additions := Count(Unmatched(lower, to, from), n);
            var diff := Diff(lower, from, to);
            && CountIf(diff, OfKind(2, n)) == Min(removals, additions)
            && CountIf(diff, OfKind(0, n)) == additions - Min(removals, additions)
            && CountIf(diff, OfKind(1, n)) == removals - Min(removals, additions)
            && (CountIf(diff, OfKind(0, n)) == 0 || CountIf(diff, OfKind(1, n)) == 0)
  {
    hide CountIf, Count, Diff, Unmatched, OfKind;
    KindCount(lower, from, to, 0, n);
    KindCount(lower, from, to, 1, n);
    KindCount(lower, from, to, 2, n);
  }

  // ---- the order ---------------------------------------------------------------------

  /** The changes of one number and one kind. */
  function LikeChange(c: Change): Change -> bool {
    (d: Change) => d.number == c.number && d.Added? == c.Added? && d.Removed? == c.Removed?
  }

  lemma LikeIsTied(c: Change, d: Change)
    ensures LikeChange(c)(d) <==> Ties(c, ChangeOrder)(d)
  {
    assert LikeChange(c)(d) <==> d.number == c.number && KindRank(c) == KindRank(d);
    assert Ties(c, ChangeOrder)(d) <==> ChangeOrder(c, d) && ChangeOrder(d, c);
  }

  lemma {:induction false} LikeFilter(cs: seq<Change>, c: Change)
    ensures Filter(cs, LikeChange(c)) == Filter(cs, Ties(c, ChangeOrder))
  {
    if cs == [] {
    } else {
      LikeFilter(cs[..|cs| - 1], c);
      LikeIsTied(c, cs[|cs| - 1]);
    }
  }

  /** Changes come out by ascending item number and, under one number, additions before removals before
      retitles; of one number and kind they keep the order they were found in. */
  lemma DiffIsOrdered(lower: string -> string, from: seq<Item>, to: seq<Item>, c: Change)
    ensures var found, diff := Pairing(Unmatched(lower, from, to), Unmatched(lower, to, from)), Diff(lower, from, to);
            && (forall i, j :: 0 <= i < j < |diff| ==> diff[i].number <= diff[j].number)
            && (forall i, j :: 0 <= i < j < |diff| && diff[i].number == diff[j].number ==>
                  (diff[j].Added? ==> diff[i].Added?) && (diff[i].Retitled? ==> diff[j].Retitled?))
            && Filter(diff, LikeChange(c)) == Filter(found, LikeChange(c))
  {
    var found, diff := Pairing(Unmatched(lower, from, to), Unmatched(lower, to, from)), Diff(lower, from, to);
    SortSorts(found, ChangeOrder);
    SortStable(found, ChangeOrder, c);
    LikeFilter(found, c);
    LikeFilter(diff, c);
    hide Filter, Pairing, Unmatched, StableSort, Diff;
    forall i, j | 0 <= i < j < |diff|
      ensures diff[i].number <= diff[j].number
      ensures diff[i].number == diff[j].number ==>
                (diff[j].Added? ==> diff[i].Added?) && (diff[i].Retitled? ==> diff[j].Retitled?)
    {
      assert ChangeOrder(diff[i], diff[j]);
    }
  }

  // ---- no item is lost -----------------------------------------------------------------

  /** The item of the newer agenda a change speaks of, if any. */
  function NewSide(c: Change): multiset<Item> {
    match c
    case Added(n, t) => multiset{Item(n, t)}
    case Removed(_, _) => multiset{}
    case Retitled(n, t, _) => multiset{Item(n, t)}
  }

  /** The item of the older one. */
  function OldSide(c: Change): multiset<Item> {
    match c
    case Added(_, _) => multiset{}
    case Removed(n, t) => multiset{Item(n, t)}
    case Retitled(n, _, p) => multiset{Item(n, p)}
  }

  function Union(cs: seq<Change>, side: Change -> multiset<Item>): multiset<Item> {
    if cs == [] then multiset{} else Union(cs[..|cs| - 1], side) + side(cs[|cs| - 1])
  }

  lemma UnionAppend(cs: seq<Change>, c: Change, side: Change -> multiset<Item>)
    ensures Union(cs + [c], side) == Union(cs, side) + side(c)
  {
    assert (cs + [c])[..|cs|] == cs;
  }

  lemma {:induction false} UnionConcat(cs: seq<Change>, ds: seq<Change>, side: Change -> multiset<Item>)
    ensures Union(cs + ds, side) == Union(cs, side) + Union(ds, side)
  {
    if ds == [] {
      assert cs + ds == cs;
    } else {
      var n := |ds| - 1;
      UnionConcat(cs, ds[..n], side);
      assert cs + ds == (cs + ds[..n]) + [ds[n]];
      UnionAppend(cs + ds[..n], ds[n], side);
    }
  }

  lemma UnionTakeOut(cs: seq<Change>, k: nat, side: Change -> multiset<Item>)
    requires k < |cs|
    ensures Union(cs, side) == Union(Without(cs, k), side) + side(cs[k])
  {
    hide Union;
    var front, back := cs[..k], cs[k + 1..];
    assert cs == (front + [cs[k]]) + back;
    UnionConcat(front + [cs[k]], back, side);
    UnionAppend(front, cs[k], side);
    UnionConcat(front, back, side);
  }

  lemma {:induction false} UnionPermutation(cs: seq<Change>, ds: seq<Change>, side: Change -> multiset<Item>)
    requires multiset(cs) == multiset(ds)
    ensures Union(cs, side) == Union(ds, side)
    decreases |cs|
  {
    assert |cs| == |multiset(cs)| == |multiset(ds)| == |ds|;
    if cs == [] {
    } else {
      var k := SameHead(cs, ds);
      UnionPermutation(Without(cs, 0), Without(ds, k), side);
      UnionTakeOut(cs, 0, side);
      UnionTakeOut(ds, k, side);
    }
  }

  /** Retitles take out the removals they pair; the leftover removals are the others. */
  lemma {:induction false} OldSides(r: seq<Item>, a: seq<Item>, i: nat)
    requires i <= |r|
    ensures Union(Retitles(r, a, i), OldSide) + Union(LeftoverRemovals(r, a, i), OldSide) == multiset(r[..i])
  {
    hide Union, Partner, Matched;
    if i == 0 {
      NoUnion(OldSide);
    } else {
      OldSides(r, a, i - 1);
      PartnerIsKth(r, a, i - 1);
      assert r[..i] == r[..i - 1] + [r[i - 1]];
      var x, p := r[i - 1], Partner(r, a, i - 1);
      if p < |a| {
        PartnersAgree(r, a, i - 1);
        UnionAppend(Retitles(r, a, i - 1), Retitled(a[p].number, a[p].title, x.title), OldSide);
      } else {
        UnionAppend(LeftoverRemovals(r, a, i - 1), Removed(x.number, x.title), OldSide);
      }
    }
  }

  lemma NoUnion(side: Change -> multiset<Item>)
    ensures Union([], side) == multiset{}
  {
  }

  lemma MirrorSides(c: Change)
    ensures NewSide(Mirror(c)) == OldSide(c) && OldSide(Mirror(c)) == NewSide(c)
  {
  }

  lemma {:induction false} UnionOfMirror(cs: seq<Change>)
    ensures Union(Map(cs, Mirror), OldSide) == Union(cs, NewSide)
  {
    if cs == [] {
    } else {
      var front, c := cs[..|cs| - 1], cs[|cs| - 1];
      UnionOfMirror(front);
      MirrorSides(c);
      assert Map(cs, Mirror) == Map(front, Mirror) + [Mirror(c)];
      UnionAppend(Map(front, Mirror), Mirror(c), OldSide);
    }
  }

  /** The same for the newer side, through the mirror. */
  lemma NewSides(r: seq<Item>, a: seq<Item>)
    ensures Union(Retitles(r, a, |r|), NewSide) + Union(LeftoverAdditions(r, a, |a|), NewSide) == multiset(a)
  {
    hide Union, Retitles, LeftoverAdditions, LeftoverRemovals;
    OldSides(a, r, |a|);
    assert a[..|a|] == a;
    RetitlesMirror(r, a);
    UnionPermutation(Retitles(a, r, |a|), Map(Retitles(r, a, |r|), Mirror), OldSide);
    UnionOfMirror(Retitles(r, a, |r|));
    LeftoversMirror(a, r, |a|);
    MirrorTwice(LeftoverRemovals(a, r, |a|));
    UnionOfMirror(LeftoverAdditions(r, a, |a|));
  }

  lemma {:induction false} NoOldSides(r: seq<Item>, a: seq<Item>, n: nat)
    requires n <= |a|
    ensures Union(LeftoverAdditions(r, a, n), OldSide) == multiset{}
    decreases n
  {
    hide Matched, Union;
    NoUnion(OldSide);
    if n == 0 {
    } else {
      NoOldSides(r, a, n - 1);
      UnionAppend(LeftoverAdditions(r, a, n - 1), Added(a[n - 1].number, a[n - 1].title), OldSide);
    }
  }

  lemma {:induction false} NoNewSides(r: seq<Item>, a: seq<Item>, n: nat)
    requires n <= |r|
    ensures Union(LeftoverRemovals(r, a, n), NewSide) == multiset{}
    decreases n
  {
    hide Matched, Union;
    NoUnion(NewSide);
    if n == 0 {
    } else {
      NoNewSides(r, a, n - 1);
      UnionAppend(LeftoverRemovals(r, a, n - 1), Removed(r[n - 1].number, r[n - 1].title), NewSide);
    }
  }

  lemma {:induction false} FilterTimes(items: seq<Item>, p: Item -> bool, x: Item)
    ensures multiset(Filter(items, p))[x] == (if p(x) then multiset(items)[x] else 0)
  {
    if items == [] {
    } else {
      FilterTimes(items[..|items| - 1], p, x);
      WithoutLast(items);
    }
  }

  /** Each item of either agenda whose title the other does not carry is reported by exactly one change, as
      often as it is listed and under its own number and title; no other item is reported at all. */
  lemma DiffConserves(lower: string -> string, from: seq<Item>, to: seq<Item>, x: Item)
    ensures var diff := Diff(lower, from, to);
            && Union(diff, NewSide)[x] == (if Carries(lower, from, Key(lower, x)) then 0 else multiset(to)[x])
            && Union(diff, OldSide)[x] == (if Carries(lower, to, Key(lower, x)) then 0 else multiset(from)[x])
  {
    hide Union, Carries, Key, Titles, Filter, Retitles, LeftoverAdditions, LeftoverRemovals, StableSort;
    var r, a := Unmatched(lower, from, to), Unmatched(lower, to, from);
    PairingSides(r, a);
    SortKeeps(Pairing(r, a), ChangeOrder);
    UnionPermutation(Diff(lower, from, to), Pairing(r, a), NewSide);
    UnionPermutation(Diff(lower, from, to), Pairing(r, a), OldSide);
    FilterTimes(from, Outside(lower, Titles(lower, to)), x);
    FilterTimes(to, Outside(lower, Titles(lower, from)), x);
    TitlesMembers(lower, from, Key(lower, x));
    TitlesMembers(lower, to, Key(lower, x));
  }

  lemma PairingSides(r: seq<Item>, a: seq<Item>)
    ensures Union(Pairing(r, a), NewSide) == multiset(a) && Union(Pairing(r, a), OldSide) == multiset(r)
  {
    hide Union, Retitles, LeftoverAdditions, LeftoverRemovals;
    var retitles, additions, removals := Retitles(r, a, |r|), LeftoverAdditions(r, a, |a|), LeftoverRemovals(r, a, |r|);
    NewSides(r, a);
    OldSides(r, a, |r|);
    assert r[..|r|] == r;
    NoOldSides(r, a, |a|);
    NoNewSides(r, a, |r|);
    UnionConcat(retitles + additions, removals, NewSide);
    UnionConcat(retitles, additions, NewSide);
    UnionConcat(retitles + additions, removals, OldSide);
    UnionConcat(retitles, additions, OldSide);
  }

  // ---- maximum matching -------------------------------------------------------------

  /** Any way of pairing removals with additions of the same number, each used at most once. */
  ghost predicate SlotMatching(r: seq<Item>, a: seq<Item>, m: set<(nat, nat)>) {
    && (forall e :: e in m ==> e.0 < |r| && e.1 < |a| && r[e.0].number == a[e.1].number)
    && (forall e, f :: e in m && f in m && (e.0 == f.0 || e.1 == f.1) ==> e == f)
  }

  ghost function MatchedUpTo(r: seq<Item>, a: seq<Item>, i: nat): set<nat>
    requires i <= |r|
  {
    set k: nat | k < i && Matched(r, a, k)
  }

  lemma {:induction false} RetitlesAreMatched(r: seq<Item>, a: seq<Item>, i: nat)
    requires i <= |r|
    ensures |Retitles(r, a, i)| == |MatchedUpTo(r, a, i)|
  {
    if i == 0 {
    } else {
      RetitlesAreMatched(r, a, i - 1);
      PartnerIsKth(r, a, i - 1);
      assert MatchedUpTo(r, a, i) == MatchedUpTo(r, a, i - 1) + (if Matched(r, a, i - 1) then {i - 1} else {});
    }
  }

  predicate ScarceAdditions(r: seq<Item>, a: seq<Item>, e: (nat, nat)) {
    e.0 < |r| && e.1 < |a| && Count(r, r[e.0].number) > Count(a, r[e.0].number)
  }

  /** Charges an edge to the removal at its scarcer end. */
  function Charge(r: seq<Item>, a: seq<Item>): ((nat, nat)) -> nat {
    (e: (nat, nat)) => if ScarceAdditions(r, a, e) then Partner(a, r, e.1) else e.0
  }

  lemma ChargeIsMatched(r: seq<Item>, a: seq<Item>, e: (nat, nat))
    requires e.0 < |r| && e.1 < |a| && r[e.0].number == a[e.1].number
    ensures var i := Charge(r, a)(e);
            && i < |r| && Matched(r, a, i) && r[i].number == r[e.0].number
            && (ScarceAdditions(r, a, e) ==> Paired(a, r, e.1, i))
  {
    RankBelowCount(a, e.1);
    if ScarceAdditions(r, a, e) {
      PartnerIsKth(a, r, e.1);
      assert Matched(a, r, e.1);
      assert Paired(a, r, e.1, Partner(a, r, e.1));
    } else {
      RankBelowCount(r, e.0);
    }
  }

  /** The greedy pairing is a maximum matching: no other pairing by slot has more pairs. */
  lemma GreedyPairingIsMaximum(r: seq<Item>, a: seq<Item>, m: set<(nat, nat)>)
    requires SlotMatching(r, a, m)
    ensures |m| <= |Retitles(r, a, |r|)|
  {
    RetitlesAreMatched(r, a, |r|);
    forall e | e in m ensures Charge(r, a)(e) in MatchedUpTo(r, a, |r|) {
      ChargeIsMatched(r, a, e);
    }
    forall e, f | e in m && f in m && Charge(r, a)(e) == Charge(r, a)(f) ensures e == f {
      ChargeIsMatched(r, a, e);
      ChargeIsMatched(r, a, f);
      if ScarceAdditions(r, a, e) {
        assert ScarceAdditions(r, a, f);
        RankInjective(a, e.1, f.1);
      }
    }
    InjectiveImageSize(m, Charge(r, a), MatchedUpTo(r, a, |r|));
  }

  // ---- the diff the other way round ----------------------------------------------------

  function Mirror(c: Change): Change {
    match c
    case Added(n, t) => Removed(n, t)
    case Removed(n, t) => Added(n, t)
    case Retitled(n, t, p) => Retitled(n, p, t)
  }

  lemma {:induction false} LeftoversMirror(r: seq<Item>, a: seq<Item>, i: nat)
    requires i <= |r|
    ensures LeftoverAdditions(a, r, i) == Map(LeftoverRemovals(r, a, i), Mirror)
  {
    if i == 0 {
    } else {
      LeftoversMirror(r, a, i - 1);
    }
  }

  lemma PartnerOfPrefix(r: seq<Item>, x: Item, a: seq<Item>, i: nat)
    requires i < |r|
    ensures Partner(r + [x], a, i) == Partner(r, a, i)
  {
    var more := r + [x];
    assert more[..i] == r[..i] && more[i] == r[i];
    PartnerIsKth(r, a, i);
    PartnerIsKth(more, a, i);
    var p, q := Partner(r, a, i), Partner(more, a, i);
    assert p < |a| ==> Paired(more, a, i, p);
    assert q < |a| ==> Paired(r, a, i, q);
  }

  lemma {:induction false} RetitlesAgree(r: seq<Item>, more: seq<Item>, a: seq<Item>, i: nat)
    requires i <= |r| && i <= |more|
    requires forall k :: 0 <= k < i ==> more[k] == r[k] && Partner(more, a, k) == Partner(r, a, k)
    ensures Retitles(more, a, i) == Retitles(r, a, i)
    decreases i
  {
    hide Partner;
    if i == 0 {
    } else {
      RetitlesAgree(r, more, a, i - 1);
    }
  }

  lemma RetitlesOfPrefix(r: seq<Item>, x: Item, a: seq<Item>, i: nat)
    requires i <= |r|
    ensures Retitles(r + [x], a, i) == Retitles(r, a, i)
  {
    hide Partner, Retitles;
    forall k | 0 <= k < i ensures (r + [x])[k] == r[k] && Partner(r + [x], a, k) == Partner(r, a, k) {
      PartnerOfPrefix(r, x, a, k);
    }
    RetitlesAgree(r, r + [x], a, i);
  }

  /** Appending one more item to the other side gives at most one item of this side a partner. */
  lemma PartnerGain(a: seq<Item>, r: seq<Item>, x: Item, j: nat)
    requires j < |a|
    ensures var before, after := Partner(a, r, j), Partner(a, r + [x], j);
            if before < |r| then after == before && Partner(r + [x], a, |r|) != j
            else after == (if Partner(r + [x], a, |r|) == j then |r| else |r| + 1)
  {
    var more, m := r + [x], |r|;
    PartnerIsKth(a, r, j);
    PartnerIsKth(a, more, j);
    PartnerIsKth(more, a, m);
    var p, q := Partner(a, r, j), Partner(a, more, j);
    assert Paired(a, more, j, m) <==> Paired(more, a, m, j);
    assert p < m ==> more[..p] == r[..p] && Paired(a, more, j, p);
    assert q < m ==> more[..q] == r[..q] && Paired(a, r, j, q);
  }

  /** How often the retitles hold a change. */
  function Times(r: seq<Item>, a: seq<Item>, i: nat, c: Change): nat
    requires i <= |r|
  {
    multiset(Retitles(r, a, i))[c]
  }

  /** Whether an item of one side gives that change. */
  predicate Gives(r: seq<Item>, a: seq<Item>, i: nat, c: Change)
    requires i < |r|
  {
    var j := Partner(r, a, i);
    j < |a| && c == Retitled(a[j].number, a[j].title, r[i].title)
  }

  /** Whether one more item `x` on the other side gives it, to a partner `p` among the first `j`. */
  predicate Gained(a: seq<Item>, x: Item, p: nat, j: nat, c: Change)
    requires j <= |a|
  {
    p < j && c == Retitled(x.number, x.title, a[p].title)
  }

  lemma TimesStep(r: seq<Item>, a: seq<Item>, i: nat, c: Change)
    requires i < |r|
    ensures Times(r, a, i + 1, c) == Times(r, a, i, c) + (if Gives(r, a, i, c) then 1 else 0)
  {
    hide Partner;
  }

  /** `more` is `r` with one more item, whose partner is `p`. */
  predicate OneMore(a: seq<Item>, r: seq<Item>, x: Item, more: seq<Item>, p: nat) {
    more == r + [x] && p == Partner(more, a, |r|)
  }

  lemma GivesGain(a: seq<Item>, r: seq<Item>, x: Item, more: seq<Item>, p: nat, j: nat, c: Change)
    requires j < |a| && OneMore(a, r, x, more, p)
    ensures (if Gives(a, more, j, c) then 1 else 0) + (if Gained(a, x, p, j, c) then 1 else 0) ==
            (if Gives(a, r, j, c) then 1 else 0) + (if Gained(a, x, p, j + 1, c) then 1 else 0)
  {
    hide Partner;
    PartnerGain(a, r, x, j);
    var before := Partner(a, r, j);
    assert before < |r| ==> more[before] == r[before];
    assert more[|r|] == x;
  }

  lemma NoTimes(r: seq<Item>, a: seq<Item>, c: Change)
    ensures Times(r, a, 0, c) == 0
  {
  }

  lemma NoGain(a: seq<Item>, x: Item, p: nat, c: Change)
    ensures !Gained(a, x, p, 0, c)
  {
  }

  lemma {:induction false} TimesGain(a: seq<Item>, r: seq<Item>, x: Item, more: seq<Item>, p: nat, j: nat, c: Change)
    requires j <= |a| && OneMore(a, r, x, more, p)
    ensures Times(a, more, j, c) == Times(a, r, j, c) + (if Gained(a, x, p, j, c) then 1 else 0)
    decreases j
  {
    hide OneMore, Times, Gives, Gained;
    if j == 0 {
      NoTimes(a, more, c);
      NoTimes(a, r, c);
      NoGain(a, x, p, c);
    } else {
      TimesGain(a, r, x, more, p, j - 1, c);
      TimesStep(a, more, j - 1, c);
      TimesStep(a, r, j - 1, c);
      GivesGain(a, r, x, more, p, j - 1, c);
    }
  }

  lemma RetitlesGain(a: seq<Item>, r: seq<Item>, x: Item)
    ensures var p := Partner(r + [x], a, |r|);
            multiset(Retitles(a, r + [x], |a|)) ==
            multiset(Retitles(a, r, |a|)) +
            (if p < |a| then multiset{Retitled(x.number, x.title, a[p].title)} else multiset{})
  {
    hide Partner, Retitles;
    var more, p := r + [x], Partner(r + [x], a, |r|);
    forall c
      ensures multiset(Retitles(a, more, |a|))[c] ==
              multiset(Retitles(a, r, |a|))[c] + (if Gained(a, x, p, |a|, c) then 1 else 0)
    {
      TimesGain(a, r, x, more, p, |a|, c);
    }
  }

  lemma RetitlesMirrorStep(r: seq<Item>, x: Item, a: seq<Item>)
    requires multiset(Retitles(a, r, |a|)) == multiset(Map(Retitles(r, a, |r|), Mirror))
    ensures multiset(Retitles(a, r + [x], |a|)) == multiset(Map(Retitles(r + [x], a, |r| + 1), Mirror))
  {
    RetitlesOfPrefix(r, x, a, |r|);
    RetitlesGain(a, r, x);
    LastRetitle(r + [x], a);
  }

  lemma LastRetitle(r: seq<Item>, a: seq<Item>)
    requires r != []
    ensures var m := |r| - 1;
            var p := Partner(r, a, m);
            multiset(Map(Retitles(r, a, m + 1), Mirror)) ==
            multiset(Map(Retitles(r, a, m), Mirror)) +
            (if p < |a| then multiset{Retitled(r[m].number, r[m].title, a[p].title)} else multiset{})
  {
    var m := |r| - 1;
    hide Partner;
    var p, before := Partner(r, a, m), Retitles(r, a, m);
    if p < |a| {
      PartnersAgree(r, a, m);
      var c := Retitled(a[p].number, a[p].title, r[m].title);
      assert Retitles(r, a, m + 1) == before + [c];
      MapOneMore(before, c);
    }
  }

  lemma MapOneMore(cs: seq<Change>, c: Change)
    ensures multiset(Map(cs + [c], Mirror)) == multiset(Map(cs, Mirror)) + multiset{Mirror(c)}
  {
    MapConcat(cs, [c], Mirror);
    assert Map([c], Mirror) == [Mirror(c)];
  }

  lemma {:induction false} RetitlesMirror(r: seq<Item>, a: seq<Item>)
    ensures multiset(Retitles(a, r, |a|)) == multiset(Map(Retitles(r, a, |r|), Mirror))
  {
    if r == [] {
      NoRetitles(a, |a|);
    } else {
      var front, x := r[..|r| - 1], r[|r| - 1];
      RetitlesMirror(front, a);
      RetitlesMirrorStep(front, x, a);
      assert r == front + [x];
    }
  }

  lemma {:induction false} NoRetitles(a: seq<Item>, j: nat)
    requires j <= |a|
    ensures Retitles(a, [], j) == []
  {
    if j == 0 {
    } else {
      NoRetitles(a, j - 1);
      PartnerIsKth(a, [], j - 1);
    }
  }

  /** Diffing the other way round reports the same changes with added and removed, and the two
      titles of a retitle, exchanged. */
  lemma DiffMirror(lower: string -> string, from: seq<Item>, to: seq<Item>)
    ensures multiset(Diff(lower, to, from)) == multiset(Map(Diff(lower, from, to), Mirror))
  {
    var r, a := Unmatched(lower, from, to), Unmatched(lower, to, from);
    var there, back := Pairing(r, a), Pairing(a, r);
    SortKeeps(there, ChangeOrder);
    SortKeeps(back, ChangeOrder);
    MapPermutation(Diff(lower, from, to), there, Mirror);
    RetitlesMirror(r, a);
    LeftoversMirror(r, a, |r|);
    LeftoversMirror(a, r, |a|);
    MirrorTwice(LeftoverRemovals(a, r, |a|));
    MapConcat(Retitles(r, a, |r|) + LeftoverAdditions(r, a, |a|), LeftoverRemovals(r, a, |r|), Mirror);
    MapConcat(Retitles(r, a, |r|), LeftoverAdditions(r, a, |a|), Mirror);
  }

  lemma MirrorTwice(cs: seq<Change>)
    ensures Map(Map(cs, Mirror), Mirror) == cs
  {
    forall k | 0 <= k < |cs| ensures Mirror(Mirror(cs[k])) == cs[k] {
    }
  }

  // ---- diffs as patches --------------------------------------------------------------------

  /** The title a change brings in. */
  function Gain(lower: string -> string, c: Change): set<string> {
    if c.Removed? then {} else {NormalizeTitle(lower, c.title)}
  }

  /** The title a change takes out. */
  function Loss(lower: string -> string, c: Change): set<string> {
    match c
    case Added(_, _) => {}
    case Removed(_, t) => {NormalizeTitle(lower, t)}
    case Retitled(_, _, p) => {NormalizeTitle(lower, p)}
  }

  /** Applies a diff to a title set, one change after another. */
  function Patch(lower: string -> string, titles: set<string>, cs: seq<Change>): set<string> {
    if cs == [] then titles
    else
      var before := Patch(lower, titles, cs[..|cs| - 1]);
      (before - Loss(lower, cs[|cs| - 1])) + Gain(lower, cs[|cs| - 1])
  }

  /** When no change takes out what another brings in, order does not matter. */
  lemma {:induction false} PatchAtOnce(lower: string -> string, titles: set<string>, cs: seq<Change>,
                                       gains: set<string>, losses: set<string>)
    requires gains !! losses
    requires forall c :: c in cs ==> Gain(lower, c) <= gains && Loss(lower, c) <= losses
    ensures forall t :: t in Patch(lower, titles, cs) <==>
              (t in titles && (forall c :: c in cs ==> t !in Loss(lower, c))) ||
              exists c :: c in cs && t in Gain(lower, c)
  {
    if cs == [] {
    } else {
      var front, last := cs[..|cs| - 1], cs[|cs| - 1];
      assert cs == front + [last];
      PatchAtOnce(lower, titles, front, gains, losses);
    }
  }

  lemma {:induction false} RetitleMember(r: seq<Item>, a: seq<Item>, i: nat, c: Change)
    requires i <= |r|
    ensures c in Retitles(r, a, i) <==>
            exists k: nat :: k < i && Partner(r, a, k) < |a| &&
              c == Retitled(a[Partner(r, a, k)].number, a[Partner(r, a, k)].title, r[k].title)
  {
    hide Partner;
    if i == 0 {
    } else {
      RetitleMember(r, a, i - 1, c);
    }
  }

  lemma {:induction false} LeftoverAdditionMember(r: seq<Item>, a: seq<Item>, j: nat, c: Change)
    requires j <= |a|
    ensures c in LeftoverAdditions(r, a, j) <==>
            exists k: nat :: k < j && !Matched(a, r, k) && c == Added(a[k].number, a[k].title)
  {
    hide Matched;
    if j == 0 {
    } else {
      LeftoverAdditionMember(r, a, j - 1, c);
    }
  }

  lemma {:induction false} LeftoverRemovalMember(r: seq<Item>, a: seq<Item>, i: nat, c: Change)
    requires i <= |r|
    ensures c in LeftoverRemovals(r, a, i) <==>
            exists k: nat :: k < i && !Matched(r, a, k) && c == Removed(r[k].number, r[k].title)
  {
    if i == 0 {
    } else {
      LeftoverRemovalMember(r, a, i - 1, c);
    }
  }

  lemma DiffMember(lower: string -> string, from: seq<Item>, to: seq<Item>, c: Change)
    ensures var r, a := Unmatched(lower, from, to), Unmatched(lower, to, from);
            c in Diff(lower, from, to) <==>
              c in Retitles(r, a, |r|) || c in LeftoverAdditions(r, a, |a|) || c in LeftoverRemovals(r, a, |r|)
  {
    SortMembers(Pairing(Unmatched(lower, from, to), Unmatched(lower, to, from)), ChangeOrder, c);
  }

  lemma UnmatchedTitle(lower: string -> string, items: seq<Item>, other: seq<Item>, k: nat)
    requires k < |Unmatched(lower, items, other)|
    ensures Key(lower, Unmatched(lower, items, other)[k]) in Titles(lower, items) - Titles(lower, other)
  {
    var x := Unmatched(lower, items, other)[k];
    FilterMembers(items, Outside(lower, Titles(lower, other)), x);
    var m :| 0 <= m < |items| && items[m] == x;
    TitlesMembers(lower, items, Key(lower, x));
  }

  lemma UnmatchedHolds(lower: string -> string, items: seq<Item>, other: seq<Item>, t: string) returns (k: nat)
    requires t in Titles(lower, items) - Titles(lower, other)
    ensures k < |Unmatched(lower, items, other)| && Key(lower, Unmatched(lower, items, other)[k]) == t
  {
    TitlesMembers(lower, items, t);
    var m :| 0 <= m < |items| && Key(lower, items[m]) == t;
    FilterMembers(items, Outside(lower, Titles(lower, other)), items[m]);
    k :| 0 <= k < |Unmatched(lower, items, other)| && Unmatched(lower, items, other)[k] == items[m];
  }

  /** A change only brings in titles the older agenda lacks and only takes out titles the newer one lacks. */
  lemma ChangeStaysInDifference(lower: string -> string, from: seq<Item>, to: seq<Item>, c: Change)
    requires c in Diff(lower, from, to)
    ensures Gain(lower, c) <= Titles(lower, to) - Titles(lower, from)
    ensures Loss(lower, c) <= Titles(lower, from) - Titles(lower, to)
  {
    var r, a := Unmatched(lower, from, to), Unmatched(lower, to, from);
    DiffMember(lower, from, to, c);
    if c in Retitles(r, a, |r|) {
      RetitleMember(r, a, |r|, c);
      var k: nat :| k < |r| && Partner(r, a, k) < |a| &&
        c == Retitled(a[Partner(r, a, k)].number, a[Partner(r, a, k)].title, r[k].title);
      UnmatchedTitle(lower, from, to, k);
      UnmatchedTitle(lower, to, from, Partner(r, a, k));
    } else if c in LeftoverAdditions(r, a, |a|) {
      LeftoverAdditionMember(r, a, |a|, c);
      var k: nat :| k < |a| && !Matched(a, r, k) && c == Added(a[k].number, a[k].title);
      UnmatchedTitle(lower, to, from, k);
    } else {
      LeftoverRemovalMember(r, a, |r|, c);
      var k: nat :| k < |r| && !Matched(r, a, k) && c == Removed(r[k].number, r[k].title);
      UnmatchedTitle(lower, from, to, k);
    }
  }

  /** Every title only the newer agenda has is brought in by some change. */
  lemma DifferenceIsGained(lower: string -> string, from: seq<Item>, to: seq<Item>, t: string) returns (c: Change)
    requires t in Titles(lower, to) - Titles(lower, from)
    ensures c in Diff(lower, from, to) && t in Gain(lower, c)
  {
    var r, a := Unmatched(lower, from, to), Unmatched(lower, to, from);
    var j := UnmatchedHolds(lower, to, from, t);
    PartnerIsKth(a, r, j);
    if Matched(a, r, j) {
      var i := Partner(a, r, j);
      PairedIsPartner(r, a, i, j);
      c := Retitled(a[j].number, a[j].title, r[i].title);
      RetitleMember(r, a, |r|, c);
    } else {
      c := Added(a[j].number, a[j].title);
      LeftoverAdditionMember(r, a, |a|, c);
    }
    DiffMember(lower, from, to, c);
  }

  /** Every title only the older agenda has is taken out by some change. */
  lemma DifferenceIsLost(lower: string -> string, from: seq<Item>, to: seq<Item>, t: string) returns (c: Change)
    requires t in Titles(lower, from) - Titles(lower, to)
    ensures c in Diff(lower, from, to) && t in Loss(lower, c)
  {
    var r, a := Unmatched(lower, from, to), Unmatched(lower, to, from);
    var i := UnmatchedHolds(lower, from, to, t);
    PartnerIsKth(r, a, i);
    if Matched(r, a, i) {
      var j := Partner(r, a, i);
      c := Retitled(a[j].number, a[j].title, r[i].title);
      RetitleMember(r, a, |r|, c);
    } else {
      c := Removed(r[i].number, r[i].title);
      LeftoverRemovalMember(r, a, |r|, c);
    }
    DiffMember(lower, from, to, c);
  }

  /** Applied as a patch to the older agenda's title set, the diff yields the newer one's. */
  lemma DiffIsPatch(lower: string -> string, from: seq<Item>, to: seq<Item>)
    ensures Patch(lower, Titles(lower, from), Diff(lower, from, to)) == Titles(lower, to)
  {
    var old', new', diff := Titles(lower, from), Titles(lower, to), Diff(lower, from, to);
    forall c | c in diff ensures Gain(lower, c) <= new' - old' && Loss(lower, c) <= old' - new' {
      ChangeStaysInDifference(lower, from, to, c);
    }
    PatchAtOnce(lower, old', diff, new' - old', old' - new');
    forall t ensures t in Patch(lower, old', diff) <==> t in new' {
      if t in new' - old' {
        var c := DifferenceIsGained(lower, from, to, t);
      } else if t in old' - new' {
        var c := DifferenceIsLost(lower, from, to, t);
      }
    }
  }

  /** The diff is empty exactly when the two agendas carry the same titles. */
  lemma EmptyDiff(lower: string -> string, from: seq<Item>, to: seq<Item>)
    ensures Diff(lower, from, to) == [] <==> Titles(lower, from) == Titles(lower, to)
  {
    DiffIsPatch(lower, from, to);
    if Diff(lower, from, to) != [] {
      var c := Diff(lower, from, to)[0];
      ChangeStaysInDifference(lower, from, to, c);
      assert Gain(lower, c) + Loss(lower, c) != {};
    }
  }
}
