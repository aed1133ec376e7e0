/** Sequences: filtering and counting, and the stable sort of `Array.prototype.sort`. */
module Sequences {

  function Filter<T>(s: seq<T>, p: T -> bool): (r: seq<T>) {
    if s == [] then [] else Filter(s[..|s| - 1], p) + (if p(s[|s| - 1]) then [s[|s| - 1]] else [])
  }

  function CountIf<T>(s: seq<T>, p: T -> bool): (n: nat)
    ensures n <= |s|
  {
    if s == [] then 0 else CountIf(s[..|s| - 1], p) + (if p(s[|s| - 1]) then 1 else 0)
  }

  function Map<A, B>(s: seq<A>, f: A -> B): (r: seq<B>)
    ensures |r| == |s| && forall k :: 0 <= k < |s| ==> r[k] == f(s[k])
  {
    seq(|s|, k requires 0 <= k < |s| => f(s[k]))
  }

  lemma FilterAppend<T>(s: seq<T>, x: T, p: T -> bool)
    ensures Filter(s + [x], p) == Filter(s, p) + (if p(x) then [x] else [])
  {
    assert (s + [x])[..|s|] == s;
  }

  lemma {:induction false} FilterConcat<T>(s: seq<T>, t: seq<T>, p: T -> bool)
    ensures Filter(s + t, p) == Filter(s, p) + Filter(t, p)
  {
    if t == [] {
      assert s + t == s;
    } else {
      var n := |t| - 1;
      FilterConcat(s, t[..n], p);
      assert s + t == (s + t[..n]) + [t[n]];
      FilterAppend(s + t[..n], t[n], p);
    }
  }

  lemma {:induction false} FilterMembers<T>(s: seq<T>, p: T -> bool, x: T)
    ensures x in Filter(s, p) <==> x in s && p(x)
  {
    if s == [] {
    } else {
      FilterMembers(s[..|s| - 1], p, x);
      assert s == s[..|s| - 1] + [s[|s| - 1]];
    }
  }

  lemma {:induction false} FilterAll<T>(s: seq<T>, p: T -> bool)
    requires forall k :: 0 <= k < |s| ==> p(s[k])
    ensures Filter(s, p) == s
  {
    if s == [] {
    } else {
      FilterAll(s[..|s| - 1], p);
      assert s == s[..|s| - 1] + [s[|s| - 1]];
    }
  }

  lemma {:induction false} FilterNone<T>(s: seq<T>, p: T -> bool)
    requires forall k :: 0 <= k < |s| ==> !p(s[k])
    ensures Filter(s, p) == []
  {
    if s == [] {
    } else {
      FilterNone(s[..|s| - 1], p);
    }
  }

  lemma CountIfAppend<T>(s: seq<T>, x: T, p: T -> bool)
    ensures CountIf(s + [x], p) == CountIf(s, p) + (if p(x) then 1 else 0)
  {
    assert (s + [x])[..|s|] == s;
  }

  lemma {:induction false} CountIfConcat<T>(s: seq<T>, t: seq<T>, p: T -> bool)
    ensures CountIf(s + t, p) == CountIf(s, p) + CountIf(t, p)
  {
    if t == [] {
      assert s + t == s;
    } else {
      var n := |t| - 1;
      CountIfConcat(s, t[..n], p);
      assert s + t == (s + t[..n]) + [t[n]];
      CountIfAppend(s + t[..n], t[n], p);
    }
  }

  lemma {:induction false} CountIfNone<T>(s: seq<T>, p: T -> bool)
    requires forall k :: 0 <= k < |s| ==> !p(s[k])
    ensures CountIf(s, p) == 0
  {
    if s == [] {
    } else {
      CountIfNone(s[..|s| - 1], p);
    }
  }

  lemma {:induction false} CountIfTakeOut<T>(s: seq<T>, k: nat, p: T -> bool)
    requires k < |s|
    ensures CountIf(s, p) == CountIf(Without(s, k), p) + (if p(s[k]) then 1 else 0)
  {
    var n := |s| - 1;
    if k == n {
      assert Without(s, k) == s[..n];
    } else {
      CountIfTakeOut(s[..n], k, p);
      assert Without(s, k) == Without(s[..n], k) + [s[n]];
      CountIfAppend(Without(s[..n], k), s[n], p);
    }
  }

  /** Counting does not see the order. */
  lemma {:induction false} CountIfPermutation<T>(s: seq<T>, t: seq<T>, p: T -> bool)
    requires multiset(s) == multiset(t)
    ensures CountIf(s, p) == CountIf(t, p)
    decreases |s|
  {
    assert |s| == |multiset(s)| == |multiset(t)| == |t|;
    if s == [] {
    } else {
      var k := SameHead(s, t);
      CountIfPermutation(Without(s, 0), Without(t, k), p);
      CountIfTakeOut(s, 0, p);
      CountIfTakeOut(t, k, p);
    }
  }

  // ---- permutations ------------------------------------------------------------

  lemma MapConcat<A, B>(s: seq<A>, t: seq<A>, f: A -> B)
    ensures Map(s + t, f) == Map(s, f) + Map(t, f)
  {
  }

  function Without<T>(s: seq<T>, k: nat): seq<T>
    requires k < |s|
  {
    s[..k] + s[k + 1..]
  }

  lemma TakeOut<T>(s: seq<T>, k: nat)
    requires k < |s|
    ensures multiset(s) == multiset(Without(s, k)) + multiset{s[k]}
  {
    assert s == s[..k] + [s[k]] + s[k + 1..];
  }

  /** Permutations have the same head somewhere, and stay permutations without it. */
  lemma SameHead<T>(s: seq<T>, t: seq<T>) returns (k: nat)
    requires multiset(s) == multiset(t) && s != []
    ensures k < |t| && t[k] == s[0] && multiset(Without(s, 0)) == multiset(Without(t, k))
  {
    assert s[0] in multiset(t);
    k :| 0 <= k < |t| && t[k] == s[0];
    TakeOut(s, 0);
    TakeOut(t, k);
    assert multiset(Without(s, 0)) == multiset(s) - multiset{s[0]};
    assert multiset(Without(t, k)) == multiset(t) - multiset{s[0]};
  }

  lemma MapFilterStep<A, B>(s: seq<A>, p: A -> bool, f: A -> B)
    requires s != []
    ensures var last := s[|s| - 1];
            multiset(Map(Filter(s, p), f)) ==
            multiset(Map(Filter(s[..|s| - 1], p), f)) + (if p(last) then multiset{f(last)} else multiset{})
  {
    var front, last := Filter(s[..|s| - 1], p), s[|s| - 1];
    if p(last) {
      MapConcat(front, [last], f);
      assert Map([last], f) == [f(last)];
    } else {
      assert Filter(s, p) == front;
    }
  }

  lemma MapTakeOut<A, B>(t: seq<A>, k: nat, f: A -> B)
    requires k < |t|
    ensures multiset(Map(t, f)) == multiset(Map(Without(t, k), f)) + multiset{f(t[k])}
  {
    assert Map(t, f) == Map(t[..k], f) + [f(t[k])] + Map(t[k + 1..], f);
    MapConcat(t[..k], t[k + 1..], f);
  }

  lemma {:induction false} MapPermutation<A, B>(s: seq<A>, t: seq<A>, f: A -> B)
    requires multiset(s) == multiset(t)
    ensures multiset(Map(s, f)) == multiset(Map(t, f))
    decreases |s|
  {
    assert |s| == |multiset(s)| == |multiset(t)| == |t|;
    if s == [] {
    } else {
      var k := SameHead(s, t);
      MapTakeOut(s, 0, f);
      MapTakeOut(t, k, f);
      MapPermutation(Without(s, 0), Without(t, k), f);
    }
  }

  lemma FilterMiddle<T>(front: seq<T>, x: T, back: seq<T>, p: T -> bool)
    ensures multiset(Filter((front + [x]) + back, p)) ==
            multiset(Filter(front + back, p)) + (if p(x) then multiset{x} else multiset{})
  {
    FilterConcat(front + [x], back, p);
    FilterAppend(front, x, p);
    FilterConcat(front, back, p);
    MultisetOfMiddle(Filter(front, p), if p(x) then [x] else [], Filter(back, p));
  }

  lemma FilterTakeOut<T>(s: seq<T>, k: nat, p: T -> bool)
    requires k < |s|
    ensures multiset(Filter(s, p)) == multiset(Filter(Without(s, k), p)) +
            (if p(s[k]) then multiset{s[k]} else multiset{})
  {
    hide Filter;
    assert s == (s[..k] + [s[k]]) + s[k + 1..];
    FilterMiddle(s[..k], s[k], s[k + 1..], p);
  }

  lemma MultisetOfMiddle<T>(a: seq<T>, x: seq<T>, b: seq<T>)
    ensures multiset((a + x) + b) == multiset(a + b) + multiset(x)
  {
  }

  lemma {:induction false} FilterPermutation<T>(s: seq<T>, t: seq<T>, p: T -> bool)
    requires multiset(s) == multiset(t)
    ensures multiset(Filter(s, p)) == multiset(Filter(t, p))
    decreases |s|
  {
    assert |s| == |multiset(s)| == |multiset(t)| == |t|;
    if s == [] {
    } else {
      var k := SameHead(s, t);
      FilterPermutation(Without(s, 0), Without(t, k), p);
      FilterTakeOut(s, 0, p);
      FilterTakeOut(t, k, p);
    }
  }

  /** Lists without repetition that hold the same elements are permutations of each other. */
  lemma DistinctPermutation<T>(s: seq<T>, t: seq<T>)
    requires forall i, j :: 0 <= i < j < |s| ==> s[i] != s[j]
    requires forall i, j :: 0 <= i < j < |t| ==> t[i] != t[j]
    requires forall x :: x in s <==> x in t
    ensures multiset(s) == multiset(t)
  {
    forall x ensures multiset(s)[x] == multiset(t)[x] {
      DistinctMultiplicity(s, x);
      DistinctMultiplicity(t, x);
    }
  }

  lemma {:induction false} DistinctMultiplicity<T>(s: seq<T>, x: T)
    requires forall i, j :: 0 <= i < j < |s| ==> s[i] != s[j]
    ensures multiset(s)[x] == if x in s then 1 else 0
  {
    if s == [] {
    } else {
      var front := s[..|s| - 1];
      assert s == front + [s[|s| - 1]];
      DistinctMultiplicity(front, x);
    }
  }

  // ---- sorting ---------------------------------------------------------------

  ghost predicate TotalPreorder<T(!new)>(le: (T, T) -> bool) {
    && (forall x, y :: le(x, y) || le(y, x))
    && (forall x, y, z :: le(x, y) && le(y, z) ==> le(x, z))
  }

  ghost predicate Sorted<T>(s: seq<T>, le: (T, T) -> bool) {
    forall i, j :: 0 <= i < j < |s| ==> le(s[i], s[j])
  }

  /** Puts `x` behind everything it does not precede. */
  function Insert<T>(s: seq<T>, x: T, le: (T, T) -> bool): seq<T> {
    if s == [] || le(s[|s| - 1], x) then s + [x] else Insert(s[..|s| - 1], x, le) + [s[|s| - 1]]
  }

  /** `s.sort(cmp)`, which is stable (section 23.1.3.30 of ECMA-262). */
  function StableSort<T>(s: seq<T>, le: (T, T) -> bool): seq<T> {
    if s == [] then [] else Insert(StableSort(s[..|s| - 1], le), s[|s| - 1], le)
  }

  lemma WithoutLast<T>(s: seq<T>)
    requires s != []
    ensures multiset(s) == multiset(s[..|s| - 1]) + multiset{s[|s| - 1]}
  {
    assert s == s[..|s| - 1] + [s[|s| - 1]];
  }

  lemma {:induction false} InsertKeeps<T>(s: seq<T>, x: T, le: (T, T) -> bool)
    ensures multiset(Insert(s, x, le)) == multiset(s) + multiset{x}
    ensures |Insert(s, x, le)| == |s| + 1
  {
    if !(s == [] || le(s[|s| - 1], x)) {
      InsertKeeps(s[..|s| - 1], x, le);
      assert s == s[..|s| - 1] + [s[|s| - 1]];
    }
  }

  lemma {:induction false} InsertSorted<T(!new)>(s: seq<T>, x: T, le: (T, T) -> bool)
    requires TotalPreorder(le) && Sorted(s, le)
    ensures Sorted(Insert(s, x, le), le)
  {
    if !(s == [] || le(s[|s| - 1], x)) {
      var front, last := s[..|s| - 1], s[|s| - 1];
      InsertSorted(front, x, le);
      InsertKeeps(front, x, le);
      var r := Insert(front, x, le);
      forall i | 0 <= i < |r| ensures le(r[i], last) {
        assert r[i] in multiset(r);
        assert r[i] == x || r[i] in front;
      }
    }
  }

  lemma {:induction false} SortKeeps<T>(s: seq<T>, le: (T, T) -> bool)
    ensures multiset(StableSort(s, le)) == multiset(s)
    ensures |StableSort(s, le)| == |s|
  {
    if s == [] {
    } else {
      SortKeeps(s[..|s| - 1], le);
      InsertKeeps(StableSort(s[..|s| - 1], le), s[|s| - 1], le);
      WithoutLast(s);
    }
  }

  lemma {:induction false} SortSorts<T(!new)>(s: seq<T>, le: (T, T) -> bool)
    requires TotalPreorder(le)
    ensures Sorted(StableSort(s, le), le)
  {
    if s == [] {
    } else {
      SortSorts(s[..|s| - 1], le);
      InsertSorted(StableSort(s[..|s| - 1], le), s[|s| - 1], le);
    }
  }

  lemma SortMembers<T>(s: seq<T>, le: (T, T) -> bool, x: T)
    ensures x in StableSort(s, le) <==> x in s
  {
    SortKeeps(s, le);
    assert x in StableSort(s, le) <==> x in multiset(StableSort(s, le));
    assert x in s <==> x in multiset(s);
  }

  function Ties<T>(x: T, le: (T, T) -> bool): T -> bool { y => le(x, y) && le(y, x) }

  lemma {:induction false} InsertStable<T(!new)>(s: seq<T>, x: T, le: (T, T) -> bool, k: T)
    requires TotalPreorder(le) && Sorted(s, le)
    ensures Filter(Insert(s, x, le), Ties(k, le)) ==
            Filter(s, Ties(k, le)) + (if Ties(k, le)(x) then [x] else [])
  {
    var tie := Ties(k, le);
    if s == [] || le(s[|s| - 1], x) {
      FilterAppend(s, x, tie);
    } else {
      var front, last := s[..|s| - 1], s[|s| - 1];
      InsertStable(front, x, le, k);
      FilterAppend(Insert(front, x, le), last, tie);
      assert Filter(s, tie) == Filter(front, tie) + (if tie(last) then [last] else []);
      assert !tie(x) || !tie(last);
    }
  }

  /** Elements that compare equal keep their order. */
  lemma {:induction false} SortStable<T(!new)>(s: seq<T>, le: (T, T) -> bool, k: T)
    requires TotalPreorder(le)
    ensures Filter(StableSort(s, le), Ties(k, le)) == Filter(s, Ties(k, le))
  {
    if s == [] {
    } else {
      var front, last := s[..|s| - 1], s[|s| - 1];
      SortStable(front, le, k);
      SortSorts(front, le);
      InsertStable(StableSort(front, le), last, le, k);
    }
  }

  lemma SortedLast<T(!new)>(s: seq<T>, t: seq<T>, le: (T, T) -> bool)
    requires multiset(s) == multiset(t) && Sorted(s, le) && Sorted(t, le)
    requires |s| == |t| > 0
    requires forall x, y :: x in s && y in s && le(x, y) && le(y, x) ==> x == y
    ensures s[|s| - 1] == t[|t| - 1]
  {
    var n := |s| - 1;
    var x, y := s[n], t[n];
    assert x in multiset(t) && y in multiset(s);
    var i :| 0 <= i < |t| && t[i] == x;
    var j :| 0 <= j < |s| && s[j] == y;
    if i < n && j < n {
      assert le(t[i], t[n]) && le(s[j], s[n]);
    }
  }

  lemma PrefixesAgree<T(!new)>(s: seq<T>, t: seq<T>, le: (T, T) -> bool)
    requires |s| == |t| > 0 && s[|s| - 1] == t[|t| - 1]
    requires multiset(s) == multiset(t) && Sorted(s, le) && Sorted(t, le)
    ensures multiset(s[..|s| - 1]) == multiset(t[..|t| - 1])
    ensures Sorted(s[..|s| - 1], le) && Sorted(t[..|t| - 1], le)
  {
    WithoutLast(s);
    WithoutLast(t);
    assert multiset(s[..|s| - 1]) == multiset(s) - multiset{s[|s| - 1]};
  }

  /** Two sorted arrangements of the same elements agree when no two elements compare equal. */
  lemma {:induction false} SortedUnique<T(!new)>(s: seq<T>, t: seq<T>, le: (T, T) -> bool)
    requires multiset(s) == multiset(t) && Sorted(s, le) && Sorted(t, le)
    requires forall x, y :: x in s && y in s && le(x, y) && le(y, x) ==> x == y
    ensures s == t
  {
    assert |s| == |multiset(s)| == |multiset(t)| == |t|;
    if s == [] {
    } else {
      var n := |s| - 1;
      SortedLast(s, t, le);
      PrefixesAgree(s, t, le);
      SortedUnique(s[..n], t[..n], le);
      assert s == s[..n] + [s[n]] && t == t[..n] + [t[n]];
    }
  }

  /** Sorting forgets the input order exactly when no two elements compare equal. */
  lemma SortForgetsOrder<T(!new)>(s: seq<T>, t: seq<T>, le: (T, T) -> bool)
    requires TotalPreorder(le) && multiset(s) == multiset(t)
    requires forall x, y :: x in s && y in s && le(x, y) && le(y, x) ==> x == y
    ensures StableSort(s, le) == StableSort(t, le)
  {
    SortKeeps(s, le);
    SortKeeps(t, le);
    SortSorts(s, le);
    SortSorts(t, le);
    forall x, y | x in StableSort(s, le) && y in StableSort(s, le) && le(x, y) && le(y, x) ensures x == y {
      SortMembers(s, le, x);
      SortMembers(s, le, y);
    }
    SortedUnique(StableSort(s, le), StableSort(t, le), le);
  }

  // ---- finite sets -------------------------------------------------------------

  lemma SomeMember<T>(s: set<T>) returns (x: T)
    requires s != {}
    ensures x in s
  {
    x :| x in s;
  }

  lemma {:induction false} SubsetSize<T>(small: set<T>, big: set<T>)
    requires small <= big
    ensures |small| <= |big|
    ensures |small| == |big| ==> small == big
  {
    if small != {} {
      var x :| x in small;
      SubsetSize(small - {x}, big - {x});
    }
  }

  lemma {:induction false} InjectiveImageSize<A, B>(m: set<A>, f: A -> B, image: set<B>)
    requires forall x, y :: x in m && y in m && f(x) == f(y) ==> x == y
    requires forall x :: x in m ==> f(x) in image
    ensures |m| <= |image|
  {
    if m != {} {
      var x :| x in m;
      InjectiveImageSize(m - {x}, f, image - {f(x)});
    }
  }
}
