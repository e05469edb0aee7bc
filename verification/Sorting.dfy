/** What the project needs of Rust's stable `sort_by`, `filter` and `take`. */
module Sorting {
  ghost predicate TotalPreorder<T(!new)>(le: (T, T) -> bool) {
    && (forall a, b :: le(a, b) || le(b, a))
    && (forall a, b, c :: le(a, b) && le(b, c) ==> le(a, c))
  }

  ghost predicate SortedBy<T>(xs: seq<T>, le: (T, T) -> bool) {
    forall i, j :: 0 <= i < j < |xs| ==> le(xs[i], xs[j])
  }

  function Insert<T>(x: T, xs: seq<T>, le: (T, T) -> bool): (r: seq<T>)
    ensures |r| == |xs| + 1
  {
    if xs == [] then [x]
    else if le(x, xs[0]) then [x] + xs
    else [xs[0]] + Insert(x, xs[1..], le)
  }

  /** A stable sort: an earlier element stays before a later one it ties with. */
  function Sort<T>(xs: seq<T>, le: (T, T) -> bool): (r: seq<T>)
    ensures |r| == |xs|
  {
    if xs == [] then [] else Insert(xs[0], Sort(xs[1..], le), le)
  }

  lemma {:induction false} InsertPermutes<T>(x: T, xs: seq<T>, le: (T, T) -> bool)
    ensures multiset(Insert(x, xs, le)) == multiset{x} + multiset(xs)
  {
    if xs != [] {
      assert xs == [xs[0]] + xs[1..];
      if !le(x, xs[0]) {
        InsertPermutes(x, xs[1..], le);
      }
    }
  }

  lemma {:induction false} SortPermutes<T>(xs: seq<T>, le: (T, T) -> bool)
    ensures multiset(Sort(xs, le)) == multiset(xs)
  {
    if xs != [] {
      SortPermutes(xs[1..], le);
      InsertPermutes(xs[0], Sort(xs[1..], le), le);
      assert xs == [xs[0]] + xs[1..];
    }
  }

  lemma {:induction false} InsertSorts<T(!new)>(x: T, xs: seq<T>, le: (T, T) -> bool)
    requires TotalPreorder(le) && SortedBy(xs, le)
    ensures SortedBy(Insert(x, xs, le), le)
  {
    if xs != [] && !le(x, xs[0]) {
      InsertSorts(x, xs[1..], le);
      var rest := Insert(x, xs[1..], le);
      InsertPermutes(x, xs[1..], le);
      forall j | 0 <= j < |rest|
        ensures le(xs[0], rest[j])
      {
        assert rest[j] in multiset(rest);
        assert rest[j] == x || rest[j] in xs[1..];
      }
    }
  }

  lemma {:induction false} SortSorts<T(!new)>(xs: seq<T>, le: (T, T) -> bool)
    requires TotalPreorder(le)
    ensures SortedBy(Sort(xs, le), le)
  {
    if xs != [] {
      SortSorts(xs[1..], le);
      InsertSorts(xs[0], Sort(xs[1..], le), le);
    }
  }

  lemma MembersSurvive<T>(xs: seq<T>, ys: seq<T>, x: T)
    requires multiset(xs) == multiset(ys)
    ensures x in xs <==> x in ys
  {
    assert x in xs <==> x in multiset(xs);
  }

  ghost predicate DistinctBy<T(!new), K(!new)>(xs: seq<T>, key: T -> K) {
    forall i, j :: 0 <= i < j < |xs| ==> key(xs[i]) != key(xs[j])
  }

  lemma TwiceMeansTwice<T>(xs: seq<T>, i: nat, j: nat)
    requires i < j < |xs| && xs[i] == xs[j]
    ensures multiset(xs)[xs[i]] >= 2
  {
    assert xs == xs[..i] + [xs[i]] + xs[i + 1..j] + [xs[j]] + xs[j + 1..];
  }

  lemma {:induction false} OnceMeansOnce<T(!new), K(!new)>(xs: seq<T>, key: T -> K, x: T)
    requires DistinctBy(xs, key)
    ensures multiset(xs)[x] <= 1
  {
    if xs != [] {
      OnceMeansOnce(xs[1..], key, x);
      assert xs == [xs[0]] + xs[1..];
      if xs[0] == x {
        assert x !in xs[1..];
      }
    }
  }

  /** Distinct keys stay distinct under any rearrangement. */
  lemma DistinctSurvives<T(!new), K(!new)>(xs: seq<T>, ys: seq<T>, key: T -> K)
    requires DistinctBy(xs, key) && multiset(xs) == multiset(ys)
    ensures DistinctBy(ys, key)
  {
    forall i, j | 0 <= i < j < |ys| && key(ys[i]) == key(ys[j])
      ensures false
    {
      MembersSurvive(xs, ys, ys[i]);
      MembersSurvive(xs, ys, ys[j]);
      var k :| 0 <= k < |xs| && xs[k] == ys[i];
      var l :| 0 <= l < |xs| && xs[l] == ys[j];
      if ys[i] == ys[j] {
        TwiceMeansTwice(ys, i, j);
        OnceMeansOnce(xs, key, ys[i]);
      }
    }
  }

  lemma SomeMember<T>(xs: seq<T>)
    ensures xs == [] || exists x :: x in xs
  {
    if xs != [] {
      assert xs[0] in xs;
    }
  }

  /** No two different members tie. */
  ghost predicate NoTies<T(!new)>(xs: seq<T>, le: (T, T) -> bool) {
    forall a, b :: a in xs && b in xs && le(a, b) && le(b, a) ==> a == b
  }

  lemma NoTiesInRest<T(!new)>(xs: seq<T>, le: (T, T) -> bool)
    requires xs != [] && NoTies(xs, le)
    ensures NoTies(xs[1..], le)
  {
    assert forall x :: x in xs[1..] ==> x in xs;
  }

  lemma RestIs<T>(xs: seq<T>, le: (T, T) -> bool)
    requires xs != [] && SortedBy(xs, le)
    ensures xs == [xs[0]] + xs[1..] && SortedBy(xs[1..], le)
    ensures multiset(xs[1..]) == multiset(xs) - multiset{xs[0]}
  {
    assert xs == [xs[0]] + xs[1..];
  }

  lemma SameSmallest<T(!new)>(xs: seq<T>, ys: seq<T>, le: (T, T) -> bool)
    requires xs != [] && SortedBy(xs, le) && SortedBy(ys, le) && multiset(xs) == multiset(ys) && NoTies(xs, le)
    ensures ys != [] && xs[0] == ys[0]
  {
    assert |multiset(xs)| == |xs| && |multiset(ys)| == |ys|;
    MembersSurvive(xs, ys, xs[0]);
    MembersSurvive(xs, ys, ys[0]);
  }

  /** When no two different members tie, there is only one sorted arrangement. */
  lemma {:induction false} SortedIsUnique<T(!new)>(xs: seq<T>, ys: seq<T>, le: (T, T) -> bool)
    requires SortedBy(xs, le) && SortedBy(ys, le)
    requires multiset(xs) == multiset(ys) && NoTies(xs, le)
    ensures xs == ys
  {
    hide SortedBy, NoTies;
    if xs == [] {
      assert |multiset(ys)| == 0;
    } else {
      SameSmallest(xs, ys, le);
      RestIs(xs, le);
      RestIs(ys, le);
      NoTiesInRest(xs, le);
      SortedIsUnique(xs[1..], ys[1..], le);
    }
  }

  // --- filtering and taking --------------------------------------------------------------------

  function Filter<T(!new)>(xs: seq<T>, keep: T -> bool): (r: seq<T>)
    ensures |r| <= |xs|
    ensures forall x :: x in r <==> x in xs && keep(x)
  {
    if xs == [] then []
    else
      var n := |xs| - 1;
      assert xs == xs[..n] + [xs[n]];
      Filter(xs[..n], keep) + if keep(xs[n]) then [xs[n]] else []
  }

  lemma {:induction false} FilterCounts<T(!new)>(xs: seq<T>, keep: T -> bool, x: T)
    ensures multiset(Filter(xs, keep))[x] == if keep(x) then multiset(xs)[x] else 0
  {
    if xs != [] {
      var n := |xs| - 1;
      assert xs == xs[..n] + [xs[n]];
      FilterCounts(xs[..n], keep, x);
    }
  }

  lemma FilterPermutation<T(!new)>(xs: seq<T>, ys: seq<T>, keep: T -> bool)
    requires multiset(xs) == multiset(ys)
    ensures multiset(Filter(xs, keep)) == multiset(Filter(ys, keep))
  {
    forall x: T
      ensures multiset(Filter(xs, keep))[x] == multiset(Filter(ys, keep))[x]
    {
      FilterCounts(xs, keep, x);
      FilterCounts(ys, keep, x);
    }
  }

  lemma {:induction false} FilterAll<T(!new)>(xs: seq<T>, keep: T -> bool)
    requires forall x :: x in xs ==> keep(x)
    ensures Filter(xs, keep) == xs
  {
    if xs != [] {
      var n := |xs| - 1;
      assert xs == xs[..n] + [xs[n]];
      FilterAll(xs[..n], keep);
      assert keep(xs[n]);
    }
  }

  lemma {:induction false} FilterCongruence<T(!new)>(xs: seq<T>, p: T -> bool, q: T -> bool)
    requires forall x :: x in xs ==> p(x) == q(x)
    ensures Filter(xs, p) == Filter(xs, q)
  {
    if xs != [] {
      var n := |xs| - 1;
      assert xs == xs[..n] + [xs[n]];
      FilterCongruence(xs[..n], p, q);
    }
  }

  function Take<T>(xs: seq<T>, k: nat): (r: seq<T>)
    ensures |r| == if k <= |xs| then k else |xs|
  {
    if k <= |xs| then xs[..k] else xs
  }

  /** Nothing kept by `take` is outranked by anything it dropped. */
  lemma TakeKeepsTheFirst<T>(xs: seq<T>, k: nat, le: (T, T) -> bool, kept: T, lost: T)
    requires SortedBy(xs, le)
    requires kept in Take(xs, k) && lost in xs && lost !in Take(xs, k)
    ensures le(kept, lost)
  {
  }

  // --- what sorting and taking comes to, without sorting ------------------------------------------

  /** The other members that come before or tie with `x`. */
  ghost function Ahead<T(!new)>(xs: seq<T>, le: (T, T) -> bool, x: T): set<T> {
    set y | y in xs && y != x && le(y, x)
  }

  function SetOf<T>(xs: seq<T>): set<T> { set x | x in xs }

  lemma {:induction false} AsManyMembers<T(!new)>(xs: seq<T>)
    requires forall i, j :: 0 <= i < j < |xs| ==> xs[i] != xs[j]
    ensures |SetOf(xs)| == |xs|
  {
    if xs != [] {
      var n := |xs| - 1;
      AsManyMembers(xs[..n]);
      assert SetOf(xs) == SetOf(xs[..n]) + {xs[n]};
    }
  }

  lemma SortedAhead<T(!new)>(xs: seq<T>, le: (T, T) -> bool, p: nat)
    requires SortedBy(xs, le) && NoTies(xs, le) && p < |xs|
    requires forall i, j :: 0 <= i < j < |xs| ==> xs[i] != xs[j]
    ensures Ahead(xs, le, xs[p]) == SetOf(xs[..p]) && |Ahead(xs, le, xs[p])| == p
  {
    forall y | y in xs && y != xs[p] ensures le(y, xs[p]) <==> y in xs[..p] {
      var i :| 0 <= i < |xs| && xs[i] == y;
      assert i < p ==> xs[..p][i] == y;
    }
    forall y | y in xs[..p] ensures y in xs && y != xs[p] {
      var i :| 0 <= i < p && xs[..p][i] == y;
      assert xs[i] == y;
    }
    assert Ahead(xs, le, xs[p]) == SetOf(xs[..p]);
    AsManyMembers(xs[..p]);
  }

  /** A member is among the first `k` exactly when fewer than `k` others come before it. */
  lemma TakenByRank<T(!new)>(xs: seq<T>, le: (T, T) -> bool, k: nat, x: T)
    requires TotalPreorder(le) && NoTies(xs, le) && DistinctBy(xs, (y: T) => y) && x in xs
    ensures x in Take(Sort(xs, le), k) <==> |Ahead(xs, le, x)| < k
  {
    hide Sort, TotalPreorder, Ahead;
    var sorted := Sort(xs, le);
    SortSorts(xs, le);
    SortPermutes(xs, le);
    DistinctSurvives(xs, sorted, (y: T) => y);
    forall y ensures y in sorted <==> y in xs {
      MembersSurvive(sorted, xs, y);
    }
    var p :| 0 <= p < |sorted| && sorted[p] == x;
    SameAhead(xs, sorted, le, x);
    SortedAhead(sorted, le, p);
    var first := Take(sorted, k);
    if p < k {
      assert first[p] == x;
    }
    if x in first {
      var i :| 0 <= i < |first| && first[i] == x;
      assert sorted[i] == x;
    }
  }

  lemma SameAhead<T(!new)>(xs: seq<T>, ys: seq<T>, le: (T, T) -> bool, x: T)
    requires forall y :: y in xs <==> y in ys
    ensures Ahead(xs, le, x) == Ahead(ys, le, x)
  {
  }

  // --- Rust's byte-wise string order -----------------------------------------------------------

  predicate TextLe(a: string, b: string) {
    a == "" || (b != "" && (a[0] < b[0] || (a[0] == b[0] && TextLe(a[1..], b[1..]))))
  }

  lemma {:induction false} TextLeTotal(a: string, b: string)
    ensures TextLe(a, b) || TextLe(b, a)
    ensures TextLe(a, b) && TextLe(b, a) ==> a == b
  {
    if a != "" && b != "" && a[0] == b[0] {
      TextLeTotal(a[1..], b[1..]);
      assert a == [a[0]] + a[1..] && b == [b[0]] + b[1..];
    }
  }

  lemma {:induction false} TextLeTransitive(a: string, b: string, c: string)
    requires TextLe(a, b) && TextLe(b, c)
    ensures TextLe(a, c)
  {
    if a != "" && a[0] == b[0] == c[0] {
      TextLeTransitive(a[1..], b[1..], c[1..]);
    }
  }

  /** `a` comes before `b` because it is a beginning of `b`, or at the first difference. */
  ghost predicate Lexicographic(a: string, b: string) { a <= b || exists k: nat :: DiffersAt(a, b, k) }

  predicate DiffersAt(a: string, b: string, k: nat) { k < |a| && k < |b| && a[..k] == b[..k] && a[k] < b[k] }

  lemma {:induction false} TextLeMeaning(a: string, b: string)
    ensures TextLe(a, b) <==> Lexicographic(a, b)
  {
    if a != "" && b != "" {
      assert a == [a[0]] + a[1..] && b == [b[0]] + b[1..];
      if a[0] < b[0] {
        assert DiffersAt(a, b, 0);
      } else if a[0] == b[0] {
        TextLeMeaning(a[1..], b[1..]);
        if k: nat :| DiffersAt(a[1..], b[1..], k) {
          assert a[..k + 1] == [a[0]] + a[1..][..k] && b[..k + 1] == [b[0]] + b[1..][..k];
          assert DiffersAt(a, b, k + 1);
        }
        if k: nat :| DiffersAt(a, b, k) {
          assert k > 0 && a[1..][..k - 1] == a[..k][1..] && b[1..][..k - 1] == b[..k][1..];
          assert DiffersAt(a[1..], b[1..], k - 1);
        }
      } else {
        assert forall k: nat :: DiffersAt(a, b, k) ==> k > 0 && a[..k][0] == b[..k][0];
      }
    }
  }

  /** The order of plans: by repository name, then by id. */
  predicate PairLe(a: string, i: nat, b: string, j: nat) { if a == b then i <= j else TextLe(a, b) }

  lemma PairLeTotal(a: string, i: nat, b: string, j: nat)
    ensures PairLe(a, i, b, j) || PairLe(b, j, a, i)
  {
    TextLeTotal(a, b);
  }

  lemma PairLeTransitive(a: string, i: nat, b: string, j: nat, c: string, k: nat)
    requires PairLe(a, i, b, j) && PairLe(b, j, c, k)
    ensures PairLe(a, i, c, k)
  {
    if a != b && b != c {
      TextLeTransitive(a, b, c);
      TextLeTotal(a, b);
    }
  }
}
