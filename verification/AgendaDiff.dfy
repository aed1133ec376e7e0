/** Agenda items added, removed and retitled between two extracted agendas
    (backend/src/services/agenda-diff.ts). Items are told apart by position, as the source tells
    them apart by object identity. */
module AgendaDiff {
  import opened Sequences
  import opened Text

  datatype Item = Item(number: real, title: string)

  datatype Change =
    | Added(number: real, title: string)
    | Removed(number: real, title: string)
    | Retitled(number: real, title: string, previous: string)

  /** Identity for diff purposes: white space collapsed and trimmed, then lower-cased. */
  function NormalizeTitle(lower: string -> string, title: string): string {
    lower(Flatten(IsSpace, title))
  }

  /** A title is matched on its words alone: the key is their lower-cased join, so titles that
      differ only in white space match, and a title already in collapsed form is left as it is. */
  lemma TitleKeyIsItsWords(lower: string -> string, title: string)
    ensures NormalizeTitle(lower, title) == lower(Join(Words(IsSpace, title)))
    ensures NormalizeTitle(lower, Join(Words(IsSpace, title))) == NormalizeTitle(lower, title)
  {
    FlattenIsJoinedWords(IsSpace, title);
    FlattenIdempotent(IsSpace, title);
  }

  function Key(lower: string -> string, item: Item): string { NormalizeTitle(lower, item.title) }

  /** The normalised titles an agenda carries. */
  function Titles(lower: string -> string, items: seq<Item>): set<string> {
    if items == [] then {} else Titles(lower, items[..|items| - 1]) + {Key(lower, items[|items| - 1])}
  }

  ghost predicate Carries(lower: string -> string, items: seq<Item>, t: string) {
    exists k :: 0 <= k < |items| && Key(lower, items[k]) == t
  }

  lemma CarriesStep(lower: string -> string, items: seq<Item>, t: string)
    requires items != []
    ensures Carries(lower, items, t) <==>
            Carries(lower, items[..|items| - 1], t) || Key(lower, items[|items| - 1]) == t
  {
    hide Key;
    var front := items[..|items| - 1];
    if Carries(lower, front, t) {
      var k :| 0 <= k < |front| && Key(lower, front[k]) == t;
      assert Key(lower, items[k]) == t;
    }
    if Carries(lower, items, t) {
      var k :| 0 <= k < |items| && Key(lower, items[k]) == t;
      assert k < |front| ==> Key(lower, front[k]) == t;
    }
  }

  lemma {:induction false} TitlesMembers(lower: string -> string, items: seq<Item>, t: string)
    ensures t in Titles(lower, items) <==> Carries(lower, items, t)
  {
    if items == [] {
    } else {
      hide Key, Carries;
      TitlesMembers(lower, items[..|items| - 1], t);
      CarriesStep(lower, items, t);
    }
  }

  function HasKey(lower: string -> string, key: string): Item -> bool { item => Key(lower, item) == key }

  function Outside(lower: string -> string, titles: set<string>): Item -> bool {
    item => Key(lower, item) !in titles
  }

  /** The items of `items` whose title `other` does not carry, in order. */
  function Unmatched(lower: string -> string, items: seq<Item>, other: seq<Item>): seq<Item> {
    Filter(items, Outside(lower, Titles(lower, other)))
  }

  // ---- pairing by slot ---------------------------------------------------------

  function Count(s: seq<Item>, n: real): nat {
    if s == [] then 0 else Count(s[..|s| - 1], n) + (if s[|s| - 1].number == n then 1 else 0)
  }

  /** How many earlier items carry the same number. */
  function Rank(s: seq<Item>, i: nat): nat
    requires i < |s|
  {
    Count(s[..i], s[i].number)
  }

  /** The k-th removal under a number and the k-th addition under it share a slot. */
  predicate Paired(r: seq<Item>, a: seq<Item>, i: nat, j: nat)
    requires i < |r| && j < |a|
  {
    r[i].number == a[j].number && Rank(r, i) == Rank(a, j)
  }

  /** Whether item `i` of `s` has a counterpart in `other`. */
  predicate Matched(s: seq<Item>, other: seq<Item>, i: nat)
    requires i < |s|
  {
    Rank(s, i) < Count(other, s[i].number)
  }

  function PartnerFrom(r: seq<Item>, a: seq<Item>, i: nat, j: nat): (p: nat)
    requires i < |r| && j <= |a|
    ensures p <= |a|
    decreases |a| - j
  {
    if j == |a| || Paired(r, a, i, j) then j else PartnerFrom(r, a, i, j + 1)
  }

  /** The addition removal `i` is paired with, or `|a|` for none. */
  function Partner(r: seq<Item>, a: seq<Item>, i: nat): nat
    requires i < |r|
  {
    PartnerFrom(r, a, i, 0)
  }

  function Retitles(r: seq<Item>, a: seq<Item>, i: nat): seq<Change>
    requires i <= |r|
  {
    if i == 0 then []
    else
      var before, j := Retitles(r, a, i - 1), Partner(r, a, i - 1);
      if j < |a| then before + [Retitled(a[j].number, a[j].title, r[i - 1].title)] else before
  }

  function LeftoverAdditions(r: seq<Item>, a: seq<Item>, j: nat): seq<Change>
    requires j <= |a|
  {
    if j == 0 then []
    else
      var before := LeftoverAdditions(r, a, j - 1);
      if Matched(a, r, j - 1) then before else before + [Added(a[j - 1].number, a[j - 1].title)]
  }

  function LeftoverRemovals(r: seq<Item>, a: seq<Item>, i: nat): seq<Change>
    requires i <= |r|
  {
    if i == 0 then []
    else
      var before := LeftoverRemovals(r, a, i - 1);
      if Matched(r, a, i - 1) then before else before + [Removed(r[i - 1].number, r[i - 1].title)]
  }

  function Pairing(r: seq<Item>, a: seq<Item>): seq<Change> {
    Retitles(r, a, |r|) + LeftoverAdditions(r, a, |a|) + LeftoverRemovals(r, a, |r|)
  }

  /** "added", "removed", "retitled", in collation order. */
  function KindRank(c: Change): nat {
    match c case Added(_, _) => 0 case Removed(_, _) => 1 case Retitled(_, _, _) => 2
  }

  predicate ChangeOrder(x: Change, y: Change) {
    x.number < y.number || (x.number == y.number && KindRank(x) <= KindRank(y))
  }

  /** The diff as a function of the two agendas. */
  function Diff(lower: string -> string, from: seq<Item>, to: seq<Item>): seq<Change> {
    StableSort(Pairing(Unmatched(lower, from, to), Unmatched(lower, to, from)), ChangeOrder)
  }

  // ---- ranks ---------------------------------------------------------------------

  lemma CountAppend(s: seq<Item>, x: Item, n: real)
    ensures Count(s + [x], n) == Count(s, n) + (if x.number == n then 1 else 0)
  {
    assert (s + [x])[..|s|] == s;
  }

  lemma CountStep(s: seq<Item>, i: nat, n: real)
    requires i < |s|
    ensures Count(s[..i + 1], n) == Count(s[..i], n) + (if s[i].number == n then 1 else 0)
  {
    assert s[..i + 1] == s[..i] + [s[i]];
    CountAppend(s[..i], s[i], n);
  }

  lemma {:induction false} CountMonotone(s: seq<Item>, i: nat, j: nat, n: real)
    requires i <= j <= |s|
    ensures Count(s[..i], n) <= Count(s[..j], n)
    decreases j
  {
    if i < j {
      CountStep(s, j - 1, n);
      CountMonotone(s, i, j - 1, n);
    }
  }

  lemma RankBelowCount(s: seq<Item>, i: nat)
    requires i < |s|
    ensures Rank(s, i) < Count(s, s[i].number)
  {
    CountStep(s, i, s[i].number);
    CountMonotone(s, i + 1, |s|, s[i].number);
    assert s[..|s|] == s;
  }

  /** Positions under one number are told apart by rank. */
  lemma RankInjective(s: seq<Item>, i: nat, j: nat)
    requires i < |s| && j < |s| && s[i].number == s[j].number && Rank(s, i) == Rank(s, j)
    ensures i == j
  {
    var lo, hi := if i < j then i else j, if i < j then j else i;
    if lo < hi {
      CountStep(s, lo, s[lo].number);
      CountMonotone(s, lo + 1, hi, s[lo].number);
    }
  }

  /** Every rank below the count is taken by some position. */
  lemma {:induction false} RankTaken(s: seq<Item>, upto: nat, n: real, k: nat) returns (j: nat)
    requires upto <= |s| && k < Count(s[..upto], n)
    ensures j < upto && s[j].number == n && Rank(s, j) == k
  {
    CountStep(s, upto - 1, n);
    if k < Count(s[..upto - 1], n) {
      j := RankTaken(s, upto - 1, n, k);
    } else {
      j := upto - 1;
    }
  }

  lemma {:induction false} PartnerFromFirst(r: seq<Item>, a: seq<Item>, i: nat, j: nat)
    requires i < |r| && j <= |a|
    ensures var p := PartnerFrom(r, a, i, j);
            j <= p <= |a| && (p < |a| ==> Paired(r, a, i, p)) &&
            forall k: nat :: j <= k < p ==> !Paired(r, a, i, k)
    decreases |a| - j
  {
    if j < |a| && !Paired(r, a, i, j) {
      PartnerFromFirst(r, a, i, j + 1);
    }
  }

  /** The k-th unmatched removal under a number is paired with the k-th unmatched addition under
      it and with nothing else; it stays unpaired exactly when there is no k-th addition. */
  lemma PartnerIsKth(r: seq<Item>, a: seq<Item>, i: nat)
    requires i < |r|
    ensures Matched(r, a, i) <==> Partner(r, a, i) < |a|
    ensures Partner(r, a, i) < |a| ==> Paired(r, a, i, Partner(r, a, i))
    ensures forall j: nat :: j < |a| ==> (Paired(r, a, i, j) <==> j == Partner(r, a, i))
  {
    PartnerFromFirst(r, a, i, 0);
    var p := Partner(r, a, i);
    if Matched(r, a, i) {
      assert a[..|a|] == a;
      var j := RankTaken(a, |a|, r[i].number, Rank(r, i));
      assert Paired(r, a, i, j);
    }
    if p < |a| {
      RankBelowCount(a, p);
    }
    forall j: nat | j < |a| && Paired(r, a, i, j) ensures j == p {
      RankInjective(a, j, p);
    }
  }

  lemma PairedIsPartner(r: seq<Item>, a: seq<Item>, i: nat, j: nat)
    requires i < |r| && j < |a| && Paired(r, a, i, j)
    ensures Partner(r, a, i) == j
  {
    PartnerIsKth(r, a, i);
  }

  // ---- the code --------------------------------------------------------------------

  /** The buckets `IndexByTitle` has built over `items`. */
  ghost predicate Indexes(lower: string -> string, items: seq<Item>, index: map<string, seq<Item>>) {
    && index.Keys == Titles(lower, items)
    && (forall key :: key in index ==> index[key] == Filter(items, HasKey(lower, key)) && index[key] != [])
    && (forall key :: key !in index ==> Filter(items, HasKey(lower, key)) == [])
  }

  lemma IndexesAppend(lower: string -> string, items: seq<Item>, x: Item, index: map<string, seq<Item>>)
    requires Indexes(lower, items, index)
    ensures var key := Key(lower, x);
            Indexes(lower, items + [x], index[key := (if key in index then index[key] else []) + [x]])
  {
    assert (items + [x])[..|items|] == items;
    hide Filter;
    forall key ensures Filter(items + [x], HasKey(lower, key)) ==
                       Filter(items, HasKey(lower, key)) + (if key == Key(lower, x) then [x] else [])
    {
      FilterAppend(items, x, HasKey(lower, key));
    }
  }

  lemma IndexesNothing(lower: string -> string)
    ensures Indexes(lower, [], map[])
  {
  }

  /** Buckets items under their normalised title, keeping their order. */
  method IndexByTitle(lower: string -> string, items: seq<Item>) returns (index: map<string, seq<Item>>)
    ensures Indexes(lower, items, index)
  {
    index := map[];
    IndexesNothing(lower);
    hide Indexes, Key;
    assert items[..0] == [];
    for k := 0 to |items|
      invariant Indexes(lower, items[..k], index)
    {
      var key := Key(lower, items[k]);
      IndexesAppend(lower, items[..k], items[k], index);
      assert items[..k + 1] == items[..k] + [items[k]];
      if key in index {
        index := index[key := index[key] + [items[k]]];
      } else {
        assert [] + [items[k]] == [items[k]];
        index := index[key := [items[k]]];
      }
    }
    assert items[..|items|] == items;
  }

  lemma IndexTellsOutside(lower: string -> string, other: seq<Item>, index: map<string, seq<Item>>, item: Item)
    requires Indexes(lower, other, index)
    ensures var key := Key(lower, item);
            Outside(lower, Titles(lower, other))(item) <==> (if key in index then |index[key]| else 0) == 0
  {
    hide Key;
  }

  /** The items whose title the other agenda's index does not hold. */
  method CollectUnmatched(lower: string -> string, items: seq<Item>, ghost other: seq<Item>,
                          index: map<string, seq<Item>>) returns (unmatched: seq<Item>)
    requires Indexes(lower, other, index)
    ensures unmatched == Unmatched(lower, items, other)
  {
    hide Indexes, Key, Outside;
    unmatched := [];
    ghost var outside := Outside(lower, Titles(lower, other));
    for k := 0 to |items|
      invariant unmatched == Filter(items[..k], outside)
    {
      var key := Key(lower, items[k]);
      var matches := if key in index then |index[key]| else 0;
      if matches == 0 {
        unmatched := unmatched + [items[k]];
      }
      assert items[..k + 1] == items[..k] + [items[k]];
      FilterAppend(items[..k], items[k], outside);
      IndexTellsOutside(lower, other, index, items[k]);
    }
    assert items[..|items|] == items;
  }

  /** Which additions are taken once the first `i` removals have been handled. */
  ghost predicate TakenIs(r: seq<Item>, a: seq<Item>, i: nat, paired: set<nat>)
    requires i <= |r|
  {
    (forall j :: j in paired ==> j < |a|) &&
    forall j: nat :: j < |a| ==> (j in paired <==> Rank(a, j) < Count(r[..i], a[j].number))
  }

  /** `added.find(...)`: the first addition in the slot that no earlier removal took. */
  method FindPartner(r: seq<Item>, a: seq<Item>, i: nat, paired: set<nat>) returns (j: nat)
    requires i < |r| && TakenIs(r, a, i, paired)
    ensures j == Partner(r, a, i)
  {
    j := 0;
    while j < |a| && !(j !in paired && a[j].number == r[i].number)
      invariant j <= |a|
      invariant forall k: nat :: k < j && a[k].number == r[i].number ==> Rank(a, k) < Rank(r, i)
    {
      j := j + 1;
    }
    PartnerIsKth(r, a, i);
    var p := Partner(r, a, i);
    assert p < |a| ==> Paired(r, a, i, p);
    if j < |a| {
      if Rank(r, i) < Rank(a, j) {
        var k := RankTaken(a, j, r[i].number, Rank(r, i));
        assert false;
      }
      assert Paired(r, a, i, j);
      PairedIsPartner(r, a, i, j);
    }
  }

  lemma TakenStep(r: seq<Item>, a: seq<Item>, i: nat, paired: set<nat>)
    requires i < |r| && TakenIs(r, a, i, paired)
    ensures var p := Partner(r, a, i);
            TakenIs(r, a, i + 1, if p < |a| then paired + {p} else paired)
  {
    var p := Partner(r, a, i);
    PartnerIsKth(r, a, i);
    forall j: nat | j < |a|
      ensures Rank(a, j) < Count(r[..i + 1], a[j].number) <==> j in paired || j == p
    {
      CountStep(r, i, a[j].number);
      assert Paired(r, a, i, j) <==> j == p;
    }
  }

  /** Which removals have found a counterpart once the first `i` have been handled. */
  ghost predicate SettledIs(r: seq<Item>, a: seq<Item>, i: nat, paired: set<nat>) {
    forall k: nat :: k < |r| ==> (k in paired <==> k < i && Matched(r, a, k))
  }

  /** The state of the greedy loop once the first `i` removals have been handled. */
  ghost predicate Progress(r: seq<Item>, a: seq<Item>, i: nat, changes: seq<Change>,
                           pairedAdds: set<nat>, pairedRemovals: set<nat>) {
    i <= |r| && TakenIs(r, a, i, pairedAdds) && SettledIs(r, a, i, pairedRemovals) && changes == Retitles(r, a, i)
  }

  lemma ProgressStep(r: seq<Item>, a: seq<Item>, i: nat, changes: seq<Change>,
                     pairedAdds: set<nat>, pairedRemovals: set<nat>)
    requires i < |r| && Progress(r, a, i, changes, pairedAdds, pairedRemovals)
    ensures var p := Partner(r, a, i);
            if p < |a| then
              Progress(r, a, i + 1, changes + [Retitled(a[p].number, a[p].title, r[i].title)],
                       pairedAdds + {p}, pairedRemovals + {i})
            else Progress(r, a, i + 1, changes, pairedAdds, pairedRemovals)
  {
    TakenStep(r, a, i, pairedAdds);
    PartnerIsKth(r, a, i);
  }

  lemma ProgressStart(r: seq<Item>, a: seq<Item>)
    ensures Progress(r, a, 0, [], {}, {})
  {
  }

  lemma ProgressTaken(r: seq<Item>, a: seq<Item>, i: nat, changes: seq<Change>,
                      pairedAdds: set<nat>, pairedRemovals: set<nat>)
    requires Progress(r, a, i, changes, pairedAdds, pairedRemovals)
    ensures i <= |r| && TakenIs(r, a, i, pairedAdds)
  {
  }

  lemma ProgressEnd(r: seq<Item>, a: seq<Item>, changes: seq<Change>, pairedAdds: set<nat>, pairedRemovals: set<nat>)
    requires Progress(r, a, |r|, changes, pairedAdds, pairedRemovals)
    ensures changes == Retitles(r, a, |r|)
    ensures SettledIs(a, r, |a|, pairedAdds) && SettledIs(r, a, |r|, pairedRemovals)
  {
    assert r[..|r|] == r;
  }

  /** The greedy pairing over mutable sets. */
  method PairGreedily(removed: seq<Item>, added: seq<Item>)
    returns (changes: seq<Change>, pairedAdds: set<nat>, pairedRemovals: set<nat>)
    ensures changes == Retitles(removed, added, |removed|)
    ensures SettledIs(added, removed, |added|, pairedAdds)
    ensures SettledIs(removed, added, |removed|, pairedRemovals)
  {
    changes, pairedAdds, pairedRemovals := [], {}, {};
    ProgressStart(removed, added);
    hide Progress;
    for i := 0 to |removed|
      invariant Progress(removed, added, i, changes, pairedAdds, pairedRemovals)
    {
      ProgressTaken(removed, added, i, changes, pairedAdds, pairedRemovals);
      var j := FindPartner(removed, added, i, pairedAdds);
      ProgressStep(removed, added, i, changes, pairedAdds, pairedRemovals);
      if j < |added| {
        pairedAdds := pairedAdds + {j};
        pairedRemovals := pairedRemovals + {i};
        changes := changes + [Retitled(added[j].number, added[j].title, removed[i].title)];
      }
    }
    ProgressEnd(removed, added, changes, pairedAdds, pairedRemovals);
  }

  /** The pairing, then whatever it left over on either side. */
  method PairBySlot(removed: seq<Item>, added: seq<Item>) returns (changes: seq<Change>)
    ensures changes == Pairing(removed, added)
  {
    hide Matched, Retitles;
    var retitles, pairedAdds, pairedRemovals := PairGreedily(removed, added);
    var leftAdditions, leftRemovals := [], [];
    for j := 0 to |added|
      invariant leftAdditions == LeftoverAdditions(removed, added, j)
    {
      if j !in pairedAdds {
        leftAdditions := leftAdditions + [Added(added[j].number, added[j].title)];
      }
    }
    for i := 0 to |removed|
      invariant leftRemovals == LeftoverRemovals(removed, added, i)
    {
      if i !in pairedRemovals {
        leftRemovals := leftRemovals + [Removed(removed[i].number, removed[i].title)];
      }
    }
    changes := retitles + leftAdditions + leftRemovals;
  }

  /** `diffAgendaItems`, proved to compute `Diff`. */
  method DiffAgendaItems(lower: string -> string, from: seq<Item>, to: seq<Item>) returns (changes: seq<Change>)
    ensures changes == Diff(lower, from, to)
  {
    var fromIndex := IndexByTitle(lower, from);
    var toIndex := IndexByTitle(lower, to);
    var removed := CollectUnmatched(lower, from, to, toIndex);
    var added := CollectUnmatched(lower, to, from, fromIndex);
    changes := PairBySlot(removed, added);
    changes := StableSort(changes, ChangeOrder);
  }
}
