/** Lexicographic order and stable sorting, as Go's "sort" and "bytes" packages define them. */
module Sorting {

  ghost predicate Total<T(!new)>(leq: (T, T) -> bool) {
    && (forall x, y :: leq(x, y) || leq(y, x))
    && (forall x, y, z :: leq(x, y) && leq(y, z) ==> leq(x, z))
  }

  ghost predicate Antisymmetric<T(!new)>(leq: (T, T) -> bool) {
    forall x, y :: leq(x, y) && leq(y, x) ==> x == y
  }

  predicate Sorted<T>(leq: (T, T) -> bool, s: seq<T>) {
    forall i, j | 0 <= i < j < |s| :: leq(s[i], s[j])
  }

  predicate Distinct<T(==)>(s: seq<T>) {
    forall i, j | 0 <= i < j < |s| :: s[i] != s[j]
  }

  function Elements<T>(s: seq<T>): set<T> {
    set x | x in s
  }

  /** One more element of s has been seen. */
  lemma SeenGrows<T>(s: seq<T>, i: nat)
    requires i < |s|
    ensures s[..i + 1] == s[..i] + [s[i]]
    ensures Elements(s[..i + 1]) == Elements(s[..i]) + {s[i]}
    ensures i + 1 == |s| ==> s[..i + 1] == s
  {
  }

  // ----- Stable sort -----

  /** Puts x before the first element it may precede, so equal elements keep their order. */
  function Insert<T>(leq: (T, T) -> bool, x: T, s: seq<T>): seq<T> {
    if s == [] || leq(x, s[0]) then [x] + s else [s[0]] + Insert(leq, x, s[1..])
  }

  function Sort<T>(leq: (T, T) -> bool, s: seq<T>): seq<T> {
    if s == [] then [] else Insert(leq, s[0], Sort(leq, s[1..]))
  }

  lemma {:induction false} InsertKeeps<T>(leq: (T, T) -> bool, x: T, s: seq<T>)
    ensures multiset(Insert(leq, x, s)) == multiset{x} + multiset(s)
  {
    if s != [] && !leq(x, s[0]) {
      InsertKeeps(leq, x, s[1..]);
      assert s == [s[0]] + s[1..];
    }
  }

  lemma {:induction false} InsertSorted<T(!new)>(leq: (T, T) -> bool, x: T, s: seq<T>)
    requires Total(leq) && Sorted(leq, s)
    ensures Sorted(leq, Insert(leq, x, s))
  {
    if s != [] && !leq(x, s[0]) {
      var rest := Insert(leq, x, s[1..]);
      InsertSorted(leq, x, s[1..]);
      InsertKeeps(leq, x, s[1..]);
      forall y | y in rest
        ensures leq(s[0], y)
      {
        assert y in multiset(rest);
      }
    }
  }

  lemma {:induction false} SortKeeps<T>(leq: (T, T) -> bool, s: seq<T>)
    ensures multiset(Sort(leq, s)) == multiset(s)
    ensures |Sort(leq, s)| == |s|
    ensures forall x :: x in Sort(leq, s) <==> x in s
  {
    if s != [] {
      SortKeeps(leq, s[1..]);
      InsertKeeps(leq, s[0], Sort(leq, s[1..]));
      assert s == [s[0]] + s[1..];
    }
    assert |multiset(Sort(leq, s))| == |multiset(s)|;
    forall x
      ensures x in Sort(leq, s) <==> x in s
    {
      assert x in multiset(Sort(leq, s)) <==> x in multiset(s);
    }
  }

  lemma {:induction false} SortSorts<T(!new)>(leq: (T, T) -> bool, s: seq<T>)
    requires Total(leq)
    ensures Sorted(leq, Sort(leq, s))
  {
    if s != [] {
      SortSorts(leq, s[1..]);
      InsertSorted(leq, s[0], Sort(leq, s[1..]));
    }
  }

  /** The elements satisfying p, in order. */
  function Select<T>(p: T -> bool, s: seq<T>): seq<T> {
    if s == [] then [] else (if p(s[0]) then [s[0]] else []) + Select(p, s[1..])
  }

  lemma {:induction false} InsertStable<T>(leq: (T, T) -> bool, p: T -> bool, x: T, s: seq<T>)
    requires forall y, z :: p(y) && p(z) ==> leq(y, z)
    ensures Select(p, Insert(leq, x, s)) == (if p(x) then [x] else []) + Select(p, s)
  {
    if s == [] || leq(x, s[0]) {
      assert ([x] + s)[1..] == s;
    } else {
      InsertStable(leq, p, x, s[1..]);
      assert Insert(leq, x, s)[1..] == Insert(leq, x, s[1..]);
    }
  }

  /** Sorting is stable: elements that sort alike keep their order. */
  lemma {:induction false} SortStable<T>(leq: (T, T) -> bool, p: T -> bool, s: seq<T>)
    requires forall y, z :: p(y) && p(z) ==> leq(y, z)
    ensures Select(p, Sort(leq, s)) == Select(p, s)
  {
    if s != [] {
      SortStable(leq, p, s[1..]);
      InsertStable(leq, p, s[0], Sort(leq, s[1..]));
    }
  }

  /** Selecting keeps the order, so what is ordered stays ordered. */
  lemma {:induction false} SelectedInOrder<T>(p: T -> bool, s: seq<T>, i: nat, j: nat) returns (a: nat, b: nat)
    requires i < j < |s| && p(s[i]) && p(s[j])
    ensures a < b < |Select(p, s)| && Select(p, s)[a] == s[i] && Select(p, s)[b] == s[j]
  {
    var first := if p(s[0]) then [s[0]] else [];
    if i > 0 {
      var c, d := SelectedInOrder(p, s[1..], i - 1, j - 1);
      a, b := |first| + c, |first| + d;
    } else {
      var d := SelectedAt(p, s[1..], j - 1);
      a, b := 0, 1 + d;
    }
  }

  lemma {:induction false} SelectedAt<T>(p: T -> bool, s: seq<T>, j: nat) returns (b: nat)
    requires j < |s| && p(s[j])
    ensures b < |Select(p, s)| && Select(p, s)[b] == s[j]
  {
    if j == 0 {
      b := 0;
    } else {
      var d := SelectedAt(p, s[1..], j - 1);
      b := d + if p(s[0]) then 1 else 0;
    }
  }

  lemma {:induction false} SelectedFrom<T>(p: T -> bool, s: seq<T>, a: nat) returns (i: nat)
    requires a < |Select(p, s)|
    ensures i < |s| && s[i] == Select(p, s)[a]
  {
    if p(s[0]) && a == 0 {
      i := 0;
    } else {
      var k := SelectedFrom(p, s[1..], if p(s[0]) then a - 1 else a);
      i := k + 1;
    }
  }

  lemma {:induction false} SelectedFromInOrder<T>(p: T -> bool, s: seq<T>, a: nat, b: nat) returns (i: nat, j: nat)
    requires a < b < |Select(p, s)|
    ensures i < j < |s| && s[i] == Select(p, s)[a] && s[j] == Select(p, s)[b]
  {
    if !p(s[0]) {
      i, j := SelectedFromInOrder(p, s[1..], a, b);
      i, j := i + 1, j + 1;
    } else if a > 0 {
      i, j := SelectedFromInOrder(p, s[1..], a - 1, b - 1);
      i, j := i + 1, j + 1;
    } else {
      var k := SelectedFrom(p, s[1..], b - 1);
      i, j := 0, k + 1;
    }
  }

  /** Of two elements that sort alike, the one that stands first after sorting stood first before. */
  lemma SortedAlike<T>(leq: (T, T) -> bool, p: T -> bool, s: seq<T>, i: nat, j: nat) returns (a: nat, b: nat)
    requires forall y, z :: p(y) && p(z) ==> leq(y, z)
    requires var t := Sort(leq, s); i < j < |t| && p(t[i]) && p(t[j])
    ensures a < b < |s| && s[a] == Sort(leq, s)[i] && s[b] == Sort(leq, s)[j]
  {
    SortStable(leq, p, s);
    var c, d := SelectedInOrder(p, Sort(leq, s), i, j);
    a, b := SelectedFromInOrder(p, s, c, d);
  }

  /** The least element comes first in any sorted arrangement. */
  lemma HeadsAgree<T(!new)>(leq: (T, T) -> bool, a: seq<T>, b: seq<T>)
    requires Total(leq) && Antisymmetric(leq)
    requires Sorted(leq, a) && Sorted(leq, b) && multiset(a) == multiset(b) && a != []
    ensures b != [] && a[0] == b[0] && multiset(a[1..]) == multiset(b[1..])
  {
    assert a[0] in multiset(b);
    assert b[0] in multiset(a);
    assert leq(a[0], b[0]) && leq(b[0], a[0]);
    assert a == [a[0]] + a[1..] && b == [b[0]] + b[1..];
    assert multiset(a[1..]) == multiset(a) - multiset{a[0]};
    assert multiset(b[1..]) == multiset(b) - multiset{b[0]};
  }

  /** A multiset has only one sorted arrangement under an antisymmetric order. */
  lemma {:induction false} SortedUnique<T(!new)>(leq: (T, T) -> bool, a: seq<T>, b: seq<T>)
    requires Total(leq) && Antisymmetric(leq)
    requires Sorted(leq, a) && Sorted(leq, b) && multiset(a) == multiset(b)
    ensures a == b
  {
    if a == [] {
      assert |multiset(b)| == 0;
    } else {
      HeadsAgree(leq, a, b);
      SortedUnique(leq, a[1..], b[1..]);
      assert a == [a[0]] + a[1..] && b == [b[0]] + b[1..];
    }
  }

  lemma SortOfPermutation<T(!new)>(leq: (T, T) -> bool, a: seq<T>, b: seq<T>)
    requires Total(leq) && Antisymmetric(leq)
    requires multiset(a) == multiset(b)
    ensures Sort(leq, a) == Sort(leq, b)
  {
    SortSorts(leq, a);
    SortSorts(leq, b);
    SortKeeps(leq, a);
    SortKeeps(leq, b);
    SortedUnique(leq, Sort(leq, a), Sort(leq, b));
  }

  /** A list in which nothing counts twice has no repetitions. */
  lemma {:induction false} CountedOnceIsDistinct<T>(a: seq<T>)
    requires forall x :: multiset(a)[x] <= 1
    ensures Distinct(a)
  {
    if a != [] {
      assert a == [a[0]] + a[1..];
      assert forall x :: multiset(a)[x] == multiset([a[0]])[x] + multiset(a[1..])[x];
      CountedOnceIsDistinct(a[1..]);
      assert a[0] !in multiset(a[1..]);
    }
  }

  /** Rearranging a list without repetitions brings none in. */
  lemma RearrangedIsDistinct<T>(a: seq<T>, b: seq<T>)
    requires multiset(a) == multiset(b) && Distinct(a)
    ensures Distinct(b)
  {
    forall x
      ensures multiset(b)[x] <= 1
    {
      DistinctCountsOnce(a, x);
    }
    CountedOnceIsDistinct(b);
  }

  lemma {:induction false} DistinctCountsOnce<T>(a: seq<T>, x: T)
    requires Distinct(a)
    ensures multiset(a)[x] <= 1
  {
    if a != [] {
      assert a == [a[0]] + a[1..];
      DistinctCountsOnce(a[1..], x);
      if a[0] == x {
        assert x !in a[1..];
      }
    }
  }

  // ----- Searching a list -----

  /** Where p first holds, or the length of the list. */
  function FirstWhere<T>(p: T -> bool, s: seq<T>): (i: nat)
    ensures i <= |s|
    ensures i < |s| ==> p(s[i])
    ensures forall k | 0 <= k < i :: !p(s[k])
  {
    if s == [] || p(s[0]) then 0 else 1 + FirstWhere(p, s[1..])
  }

  function RemoveAt<T>(s: seq<T>, i: nat): (r: seq<T>)
    requires i < |s|
    ensures |r| == |s| - 1
  {
    s[..i] + s[i + 1..]
  }

  lemma RemovedMiddle<T>(before: seq<T>, x: T, after: seq<T>)
    ensures var s := before + ([x] + after);
            |before| < |s| && s[|before|] == x && RemoveAt(s, |before|) == before + after
  {
  }

  lemma RemovedOne<T>(s: seq<T>, i: nat)
    requires i < |s|
    ensures multiset(RemoveAt(s, i)) == multiset(s) - multiset{s[i]}
    ensures multiset(s) == multiset{s[i]} + multiset(RemoveAt(s, i))
  {
    assert s == s[..i] + ([s[i]] + s[i + 1..]);
    assert multiset(s) == multiset(s[..i]) + multiset{s[i]} + multiset(s[i + 1..]);
  }

  // ----- Mapping over a list -----

  function Map<T, U>(f: T -> U, s: seq<T>): (r: seq<U>)
    ensures |r| == |s| && forall i | 0 <= i < |s| :: r[i] == f(s[i])
  {
    if s == [] then [] else [f(s[0])] + Map(f, s[1..])
  }

  lemma MapMembers<T, U>(f: T -> U, s: seq<T>)
    ensures forall y :: y in Map(f, s) <==> exists x :: x in s && y == f(x)
  {
    forall x | x in s
      ensures f(x) in Map(f, s)
    {
      var i :| 0 <= i < |s| && s[i] == x;
      assert Map(f, s)[i] == f(x);
    }
  }

  lemma {:induction false} MapAppend<T, U>(f: T -> U, a: seq<T>, b: seq<T>)
    ensures Map(f, a + b) == Map(f, a) + Map(f, b)
  {
    if a == [] {
      assert a + b == b;
    } else {
      assert (a + b)[1..] == a[1..] + b;
      MapAppend(f, a[1..], b);
    }
  }

  function FlatMap<T, U>(f: T -> seq<U>, s: seq<T>): seq<U> {
    if s == [] then [] else f(s[0]) + FlatMap(f, s[1..])
  }

  lemma {:induction false} FlatMapAppend<T, U>(f: T -> seq<U>, a: seq<T>, b: seq<T>)
    ensures FlatMap(f, a + b) == FlatMap(f, a) + FlatMap(f, b)
  {
    if a == [] {
      assert a + b == b;
    } else {
      assert (a + b)[1..] == a[1..] + b;
      FlatMapAppend(f, a[1..], b);
    }
  }

  lemma {:induction false} FlatMapMembers<T, U>(f: T -> seq<U>, s: seq<T>)
    ensures forall y :: y in FlatMap(f, s) <==> exists x :: x in s && y in f(x)
  {
    if s != [] {
      FlatMapMembers(f, s[1..]);
    }
  }

  /** The first element of one arrangement, found and taken out of another. */
  lemma TakeOut<T>(a: seq<T>, b: seq<T>) returns (k: nat)
    requires multiset(a) == multiset(b) && a != []
    ensures k < |b| && b == b[..k] + ([a[0]] + b[k + 1..])
    ensures multiset(a[1..]) == multiset(b[..k] + b[k + 1..])
  {
    assert a[0] in multiset(b);
    k :| 0 <= k < |b| && b[k] == a[0];
    assert a == [a[0]] + a[1..];
    assert b == b[..k] + ([a[0]] + b[k + 1..]);
    assert multiset(b) == multiset(b[..k]) + multiset{a[0]} + multiset(b[k + 1..]);
    assert multiset(a[1..]) == multiset(a) - multiset{a[0]};
  }

  lemma {:induction false} FlatMapOfPermutation<T, U>(f: T -> seq<U>, a: seq<T>, b: seq<T>)
    requires multiset(a) == multiset(b)
    ensures multiset(FlatMap(f, a)) == multiset(FlatMap(f, b))
    decreases a
  {
    if a == [] {
      assert |multiset(b)| == 0;
    } else {
      var k := TakeOut(a, b);
      FlatMapOfPermutation(f, a[1..], b[..k] + b[k + 1..]);
      FlatMapAppend(f, b[..k], [a[0]] + b[k + 1..]);
      FlatMapAppend(f, b[..k], b[k + 1..]);
      assert ([a[0]] + b[k + 1..])[1..] == b[k + 1..];
    }
  }

  lemma {:induction false} MapIsFlatMap<T, U>(f: T -> U, g: T -> seq<U>, s: seq<T>)
    requires forall x :: g(x) == [f(x)]
    ensures FlatMap(g, s) == Map(f, s)
  {
    if s != [] {
      MapIsFlatMap(f, g, s[1..]);
    }
  }

  lemma MapOfPermutation<T, U>(f: T -> U, a: seq<T>, b: seq<T>)
    requires multiset(a) == multiset(b)
    ensures multiset(Map(f, a)) == multiset(Map(f, b))
  {
    var g := (x: T) => [f(x)];
    FlatMapOfPermutation(g, a, b);
    MapIsFlatMap(f, g, a);
    MapIsFlatMap(f, g, b);
  }

  lemma SameElements<T>(a: seq<T>, b: seq<T>)
    requires multiset(a) == multiset(b)
    ensures Elements(a) == Elements(b)
  {
    forall x
      ensures x in a <==> x in b
    {
      assert x in a <==> x in multiset(a);
      assert x in b <==> x in multiset(b);
    }
  }

  lemma DistinctArrangements<T>(a: seq<T>, b: seq<T>)
    requires Distinct(a) && Distinct(b) && Elements(a) == Elements(b)
    ensures multiset(a) == multiset(b)
  {
    forall x
      ensures multiset(a)[x] == multiset(b)[x]
    {
      DistinctCountsOnce(a, x);
      DistinctCountsOnce(b, x);
      assert x in Elements(a) <==> x in multiset(a);
      assert x in Elements(b) <==> x in multiset(b);
    }
  }

  // ----- Lists of lists -----

  function Concat<T>(lists: seq<seq<T>>): seq<T> {
    if lists == [] then [] else lists[0] + Concat(lists[1..])
  }

  lemma {:induction false} ConcatAppend<T>(lists: seq<seq<T>>, last: seq<T>)
    ensures Concat(lists + [last]) == Concat(lists) + last
  {
    if lists == [] {
      assert Concat([last]) == last + [];
    } else {
      assert (lists + [last])[1..] == lists[1..] + [last];
      ConcatAppend(lists[1..], last);
    }
  }

  // ----- Lexicographic order -----

  /** Whether a comes at or before b, elements being compared by rank. */
  predicate LexLeq<T>(rank: T -> int, a: seq<T>, b: seq<T>) {
    if a == [] then true
    else if b == [] then false
    else rank(a[0]) < rank(b[0]) || (rank(a[0]) == rank(b[0]) && LexLeq(rank, a[1..], b[1..]))
  }

  /** Whether a and b agree up to k, where a has the lower rank. */
  ghost predicate DipsAt<T>(rank: T -> int, a: seq<T>, b: seq<T>, k: nat) {
    k < |a| && k < |b| && a[..k] == b[..k] && rank(a[k]) < rank(b[k])
  }

  /** A list comes first if the other one continues it, or is higher where they part. */
  lemma {:induction false} LexMeans<T(!new)>(rank: T -> int, a: seq<T>, b: seq<T>)
    requires forall x, y :: rank(x) == rank(y) ==> x == y
    ensures LexLeq(rank, a, b) <==> a <= b || exists k: nat :: DipsAt(rank, a, b, k)
  {
    if a != [] && b != [] {
      assert DipsAt(rank, a, b, 0) <==> rank(a[0]) < rank(b[0]);
      if a[0] == b[0] {
        LexMeans(rank, a[1..], b[1..]);
        assert a == [a[0]] + a[1..] && b == [b[0]] + b[1..];
        if k: nat :| DipsAt(rank, a[1..], b[1..], k) {
          DipsLater(rank, a, b, k);
        }
        if k: nat :| DipsAt(rank, a, b, k) {
          DipsSooner(rank, a, b, k);
        }
      } else if k: nat :| DipsAt(rank, a, b, k) {
        assert k > 0 ==> a[..k][0] == b[..k][0];
      }
    }
  }

  lemma DipsLater<T>(rank: T -> int, a: seq<T>, b: seq<T>, k: nat)
    requires a != [] && b != [] && a[0] == b[0] && DipsAt(rank, a[1..], b[1..], k)
    ensures DipsAt(rank, a, b, k + 1)
  {
    assert a[..k + 1] == [a[0]] + a[1..][..k] && b[..k + 1] == [b[0]] + b[1..][..k];
  }

  lemma DipsSooner<T>(rank: T -> int, a: seq<T>, b: seq<T>, k: nat)
    requires a != [] && b != [] && a[0] == b[0] && DipsAt(rank, a, b, k)
    ensures k > 0 && DipsAt(rank, a[1..], b[1..], k - 1)
  {
    assert a[1..][..k - 1] == a[..k][1..] && b[1..][..k - 1] == b[..k][1..];
  }

  lemma {:induction false} LexTotal<T>(rank: T -> int, a: seq<T>, b: seq<T>)
    ensures LexLeq(rank, a, b) || LexLeq(rank, b, a)
  {
    if a != [] && b != [] {
      LexTotal(rank, a[1..], b[1..]);
    }
  }

  lemma {:induction false} LexTransitive<T>(rank: T -> int, a: seq<T>, b: seq<T>, c: seq<T>)
    requires LexLeq(rank, a, b) && LexLeq(rank, b, c)
    ensures LexLeq(rank, a, c)
  {
    if a != [] && rank(a[0]) == rank(c[0]) {
      LexTransitive(rank, a[1..], b[1..], c[1..]);
    }
  }

  lemma {:induction false} LexAntisymmetric<T(!new)>(rank: T -> int, a: seq<T>, b: seq<T>)
    requires forall x, y :: rank(x) == rank(y) ==> x == y
    requires LexLeq(rank, a, b) && LexLeq(rank, b, a)
    ensures a == b
  {
    if a != [] {
      LexAntisymmetric(rank, a[1..], b[1..]);
      assert a == [a[0]] + a[1..] && b == [b[0]] + b[1..];
    }
  }

  /** Prepending the same elements to both sides changes nothing. */
  lemma {:induction false} LexCommonPrefix<T>(rank: T -> int, p: seq<T>, a: seq<T>, b: seq<T>)
    ensures LexLeq(rank, p + a, p + b) == LexLeq(rank, a, b)
  {
    if p == [] {
      assert p + a == a && p + b == b;
    } else {
      assert (p + a)[1..] == p[1..] + a && (p + b)[1..] == p[1..] + b;
      LexCommonPrefix(rank, p[1..], a, b);
    }
  }

  lemma LexIsOrder<T(!new)>(rank: T -> int)
    requires forall x, y :: rank(x) == rank(y) ==> x == y
    ensures var leq := (a: seq<T>, b: seq<T>) => LexLeq(rank, a, b); Total(leq) && Antisymmetric(leq)
  {
    var leq := (a: seq<T>, b: seq<T>) => LexLeq(rank, a, b);
    forall a: seq<T>, b: seq<T>
      ensures leq(a, b) || leq(b, a)
    {
      LexTotal(rank, a, b);
    }
    forall a: seq<T>, b: seq<T>, c: seq<T> | leq(a, b) && leq(b, c)
      ensures leq(a, c)
    {
      LexTransitive(rank, a, b, c);
    }
    forall a: seq<T>, b: seq<T> | leq(a, b) && leq(b, a)
      ensures a == b
    {
      LexAntisymmetric(rank, a, b);
    }
  }
}
