/** The Kotlin collection operations the app relies on (`filter`, `find`,
    `indexOf`, `take`, `mapNotNull`), over Dafny sequences. */
module Seqs {
  import opened Options

  /** Kotlin `filter`: the elements satisfying `p`, in their original order. */
  function Filter<T(!new)>(s: seq<T>, p: T -> bool): (r: seq<T>)
    ensures |r| <= |s|
    ensures forall x :: x in r <==> x in s && p(x)
    ensures forall i :: 0 <= i < |r| ==> p(r[i])
    ensures multiset(r) <= multiset(s)
  {
    if |s| == 0 then []
    else
      assert s == [s[0]] + s[1..];
      if p(s[0]) then [s[0]] + Filter(s[1..], p) else Filter(s[1..], p)
  }

  /** Every element `p` accepts keeps its multiplicity. */
  lemma {:induction false} FilterMultiplicity<T(!new)>(s: seq<T>, p: T -> bool, x: T)
    requires p(x)
    ensures multiset(Filter(s, p))[x] == multiset(s)[x]
  {
    if |s| > 0 {
      assert s == [s[0]] + s[1..];
      FilterMultiplicity(s[1..], p, x);
    }
  }

  /** `FilterMultiplicity` for every accepted element at once. */
  lemma FilterKeepsCopies<T(!new)>(s: seq<T>, p: T -> bool)
    ensures forall x :: p(x) ==> Count(Filter(s, p), x) == Count(s, x)
  {
    forall x | p(x) ensures Count(Filter(s, p), x) == Count(s, x) {
      FilterMultiplicity(s, p, x);
    }
  }

  /** Filtering distributes over concatenation: this is what "keeps the
      original order" means. */
  lemma {:induction false} FilterConcat<T(!new)>(a: seq<T>, b: seq<T>, p: T -> bool)
    ensures Filter(a + b, p) == Filter(a, p) + Filter(b, p)
  {
    if |a| == 0 {
      assert a + b == b;
    } else {
      assert (a + b)[0] == a[0];
      assert (a + b)[1..] == a[1..] + b;
      FilterConcat(a[1..], b, p);
    }
  }

  /** Filtering by a predicate that every element satisfies changes nothing. */
  lemma {:induction false} FilterAll<T(!new)>(s: seq<T>, p: T -> bool)
    requires forall i :: 0 <= i < |s| ==> p(s[i])
    ensures Filter(s, p) == s
  {
    if |s| > 0 {
      FilterAll(s[1..], p);
    }
  }

  /** Filtering by a predicate no element satisfies leaves nothing. */
  lemma {:induction false} FilterNone<T(!new)>(s: seq<T>, p: T -> bool)
    requires forall i :: 0 <= i < |s| ==> !p(s[i])
    ensures Filter(s, p) == []
  {
    if |s| > 0 {
      FilterNone(s[1..], p);
    }
  }

  /** A second filter whose predicate implies the first one's sees through it. */
  lemma {:induction false} FilterFilter<T(!new)>(s: seq<T>, q: T -> bool, p: T -> bool)
    requires forall x :: p(x) ==> q(x)
    ensures Filter(Filter(s, q), p) == Filter(s, p)
  {
    if |s| > 0 {
      FilterFilter(s[1..], q, p);
    }
  }

  /** Two filters may be applied in either order. */
  lemma {:induction false} FilterCommute<T(!new)>(s: seq<T>, p: T -> bool, q: T -> bool)
    ensures Filter(Filter(s, p), q) == Filter(Filter(s, q), p)
  {
    if |s| > 0 {
      FilterCommute(s[1..], p, q);
    }
  }

  /** Two filters whose predicates agree on the elements present agree. */
  lemma {:induction false} FilterCongruent<T(!new)>(s: seq<T>, p: T -> bool, q: T -> bool)
    requires forall i :: 0 <= i < |s| ==> p(s[i]) == q(s[i])
    ensures Filter(s, p) == Filter(s, q)
  {
    if |s| > 0 {
      FilterCongruent(s[1..], p, q);
    }
  }

  /** `before` holds between every earlier and every later element. */
  ghost predicate Ordered<T>(s: seq<T>, before: (T, T) -> bool) {
    forall i, j :: 0 <= i < j < |s| ==> before(s[i], s[j])
  }

  /** Filtering keeps the relative order of the elements it keeps. */
  lemma {:induction false} FilterKeepsOrder<T(!new)>(s: seq<T>, p: T -> bool, before: (T, T) -> bool)
    ensures Ordered(s, before) ==> Ordered(Filter(s, p), before)
  {
    if |s| > 0 && Ordered(s, before) {
      var t := Filter(s[1..], p);
      assert Ordered(s[1..], before) by {
        forall i, j | 0 <= i < j < |s[1..]| ensures before(s[1..][i], s[1..][j]) {
          assert s[1..][i] == s[i + 1] && s[1..][j] == s[j + 1];
        }
      }
      FilterKeepsOrder(s[1..], p, before);
      if p(s[0]) {
        var r := [s[0]] + t;
        assert Filter(s, p) == r;
        forall i, j | 0 <= i < j < |r| ensures before(r[i], r[j]) {
          if i == 0 {
            assert t[j - 1] in t;
            var k :| 0 <= k < |s[1..]| && s[1..][k] == t[j - 1];
            assert s[k + 1] == r[j];
          } else {
            assert r[i] == t[i - 1] && r[j] == t[j - 1];
          }
        }
      } else {
        assert Filter(s, p) == t;
      }
    }
  }

  /** Kotlin `take(n)`: the first `n` elements, or all of them. */
  function Take<T(!new)>(s: seq<T>, n: nat): (r: seq<T>)
    ensures |r| == if n < |s| then n else |s|
    ensures r <= s
  {
    if n < |s| then s[..n] else s
  }

  /** Kotlin `indexOfFirst`: the first index whose element satisfies `p`, or -1. */
  function IndexWhere<T(!new)>(s: seq<T>, p: T -> bool): (i: int)
    ensures -1 <= i < |s|
    ensures i == -1 <==> forall j :: 0 <= j < |s| ==> !p(s[j])
    ensures i >= 0 ==> p(s[i]) && forall j :: 0 <= j < i ==> !p(s[j])
  {
    if |s| == 0 then -1
    else if p(s[0]) then 0
    else
      var k := IndexWhere(s[1..], p);
      if k == -1 then -1 else k + 1
  }

  /** Kotlin `find`: the first element satisfying `p`, if any. */
  function Find<T(!new)>(s: seq<T>, p: T -> bool): (r: Option<T>)
    ensures r.None? <==> forall j :: 0 <= j < |s| ==> !p(s[j])
    ensures r.Some? ==> exists i :: 0 <= i < |s| && s[i] == r.value && p(s[i]) &&
                                    forall j :: 0 <= j < i ==> !p(s[j])
  {
    var i := IndexWhere(s, p);
    if i == -1 then None else Some(s[i])
  }

  /** `Find` looks at the head, then at the rest. */
  lemma FindTail<T(!new)>(s: seq<T>, p: T -> bool)
    requires |s| > 0
    ensures Find(s, p) == if p(s[0]) then Some(s[0]) else Find(s[1..], p)
  {
  }

  /** Appending an element that does not match leaves `Find` unchanged. */
  lemma {:induction false} FindAppend<T(!new)>(s: seq<T>, x: T, p: T -> bool)
    requires !p(x)
    ensures Find(s + [x], p) == Find(s, p)
    decreases |s|
  {
    var t := s + [x];
    FindTail(t, p);
    if |s| > 0 {
      assert t[1..] == s[1..] + [x];
      FindAppend(s[1..], x, p);
      FindTail(s, p);
    } else {
      assert t[1..] == [];
    }
  }

  /** Kotlin `indexOf`: the first index holding an element equal to `x`, or -1. */
  function IndexOf<T(==)>(s: seq<T>, x: T): (i: int)
    ensures -1 <= i < |s|
    ensures i == -1 <==> x !in s
    ensures i >= 0 ==> s[i] == x && forall j :: 0 <= j < i ==> s[j] != x
  {
    if |s| == 0 then -1
    else if s[0] == x then 0
    else
      var k := IndexOf(s[1..], x);
      if k == -1 then -1 else k + 1
  }

  /** Appending never moves the first occurrence of an element already present. */
  lemma IndexOfAppendPresent<T>(s: seq<T>, x: T, y: T)
    requires y in s
    ensures IndexOf(s + [x], y) == IndexOf(s, y)
  {
    var i, i0 := IndexOf(s + [x], y), IndexOf(s, y);
    assert (s + [x])[i0] == y;
    assert i < |s| ==> (s + [x])[i] == s[i];
  }

  /** A new element's first occurrence is where it was appended. */
  lemma IndexOfAppendNew<T>(s: seq<T>, x: T)
    requires x !in s
    ensures IndexOf(s + [x], x) == |s|
  {
    assert (s + [x])[|s|] == x;
  }

  /** Kotlin `map`. */
  function Map<A, B>(s: seq<A>, f: A -> B): (r: seq<B>)
    ensures |r| == |s|
    ensures forall i :: 0 <= i < |s| ==> r[i] == f(s[i])
  {
    seq(|s|, i requires 0 <= i < |s| => f(s[i]))
  }

  /** Mapping then counting one image counts the elements that map to it. */
  lemma {:induction false} CountMap<A(!new), B>(s: seq<A>, f: A -> B, p: A -> bool, x: B)
    requires forall a :: p(a) <==> f(a) == x
    ensures Count(Map(s, f), x) == |Filter(s, p)|
    decreases |s|
  {
    if |s| > 0 {
      assert Map(s, f) == [f(s[0])] + Map(s[1..], f);
      CountMap(s[1..], f, p, x);
    }
  }

  /** Filtering two permutations of one another keeps as many elements. */
  lemma FilterPermutation<T(!new)>(a: seq<T>, b: seq<T>, p: T -> bool)
    requires multiset(a) == multiset(b)
    ensures multiset(Filter(a, p)) == multiset(Filter(b, p))
    ensures |Filter(a, p)| == |Filter(b, p)|
  {
    forall y ensures multiset(Filter(a, p))[y] == multiset(Filter(b, p))[y] {
      if p(y) {
        FilterMultiplicity(a, p, y);
        FilterMultiplicity(b, p, y);
      } else {
        assert y !in Filter(a, p) && y !in Filter(b, p);
      }
    }
    assert multiset(Filter(a, p)) == multiset(Filter(b, p));
    assert |multiset(Filter(a, p))| == |Filter(a, p)|;
    assert |multiset(Filter(b, p))| == |Filter(b, p)|;
  }

  /** Kotlin `mapNotNull`: the present results of `f`, in input order. */
  function MapNotNull<A, B(!new)>(s: seq<A>, f: A -> Option<B>): (r: seq<B>)
    ensures |r| <= |s|
    ensures forall y :: y in r <==> exists x :: x in s && f(x) == Some(y)
  {
    if |s| == 0 then []
    else
      assert s == [s[0]] + s[1..];
      var rest := MapNotNull(s[1..], f);
      match f(s[0])
      case Some(y) => [y] + rest
      case None => rest
  }

  /** `mapNotNull` distributes over concatenation, so results follow the input order. */
  lemma {:induction false} MapNotNullConcat<A, B(!new)>(a: seq<A>, b: seq<A>, f: A -> Option<B>)
    ensures MapNotNull(a + b, f) == MapNotNull(a, f) + MapNotNull(b, f)
  {
    if |a| == 0 {
      assert a + b == b;
    } else {
      assert (a + b)[0] == a[0];
      assert (a + b)[1..] == a[1..] + b;
      MapNotNullConcat(a[1..], b, f);
    }
  }

  /** Number of elements equal to `x`. */
  function Count<T(==)>(s: seq<T>, x: T): nat {
    multiset(s)[x]
  }

  /** Kotlin `sumOf`: the sum of `f` over the elements, added from the left. */
  function SumOf<T>(s: seq<T>, f: T -> int): int
    decreases |s|
  {
    if |s| == 0 then 0 else SumOf(s[..|s| - 1], f) + f(s[|s| - 1])
  }

  lemma SumOfAppend<T>(s: seq<T>, x: T, f: T -> int)
    ensures SumOf(s + [x], f) == SumOf(s, f) + f(x)
  {
    assert (s + [x])[..|s|] == s;
  }

  /** Replacing one element changes the sum by the difference. */
  lemma {:induction false} SumOfUpdate<T>(s: seq<T>, k: int, x: T, f: T -> int)
    requires 0 <= k < |s|
    ensures SumOf(s[k := x], f) == SumOf(s, f) - f(s[k]) + f(x)
    decreases |s|
  {
    var n := |s| - 1;
    if k < n {
      assert s[k := x][..n] == s[..n][k := x];
      SumOfUpdate(s[..n], k, x, f);
    } else {
      assert s[k := x][..n] == s[..n];
    }
  }

  /** Sequences whose elements contribute the same amounts have the same sum. */
  lemma {:induction false} SumOfPointwise<A, B>(a: seq<A>, b: seq<B>, f: A -> int, g: B -> int)
    requires |a| == |b|
    requires forall i :: 0 <= i < |a| ==> f(a[i]) == g(b[i])
    ensures SumOf(a, f) == SumOf(b, g)
    decreases |a|
  {
    if |a| > 0 {
      SumOfPointwise(a[..|a| - 1], b[..|b| - 1], f, g);
    }
  }

  /** Kotlin `distinct`: each element once, where it first occurs. */
  function Distinct<T(==,!new)>(s: seq<T>): (r: seq<T>)
    ensures forall x :: x in r <==> x in s
    ensures forall i, j :: 0 <= i < j < |r| ==> r[i] != r[j]
    decreases |s|
  {
    if |s| == 0 then []
    else
      var init := Distinct(s[..|s| - 1]);
      assert s == s[..|s| - 1] + [s[|s| - 1]];
      if s[|s| - 1] in init then init else init + [s[|s| - 1]]
  }

  /** The elements of `r` appear in `s` in the order of their first occurrences. */
  ghost predicate InFirstSeenOrder<T>(s: seq<T>, r: seq<T>) {
    forall i, j :: 0 <= i < j < |r| ==> IndexOf(s, r[i]) < IndexOf(s, r[j])
  }

  lemma DistinctStep<T(!new)>(init: seq<T>, x: T)
    requires InFirstSeenOrder(init, Distinct(init))
    ensures InFirstSeenOrder(init + [x], Distinct(init + [x]))
  {
    var s := init + [x];
    assert s[..|s| - 1] == init;
    var d := Distinct(init);
    var r := if x in d then d else d + [x];
    assert Distinct(s) == r;
    forall y | y in d ensures IndexOf(s, y) == IndexOf(init, y) < |init| {
      IndexOfAppendPresent(init, x, y);
    }
    if x !in d {
      IndexOfAppendNew(init, x);
    }
    forall i, j | 0 <= i < j < |r| ensures IndexOf(s, r[i]) < IndexOf(s, r[j]) {
      assert r[i] == d[i] && d[i] in d;
      if j < |d| {
        assert r[j] == d[j] && d[j] in d;
      } else {
        assert x !in d && r[j] == x;
      }
    }
  }

  /** `distinct` lists the elements in the order of their first occurrences. */
  lemma {:induction false} DistinctFirstSeenOrder<T(!new)>(s: seq<T>)
    ensures InFirstSeenOrder(s, Distinct(s))
    decreases |s|
  {
    if |s| > 0 {
      var init := s[..|s| - 1];
      DistinctFirstSeenOrder(init);
      DistinctStep(init, s[|s| - 1]);
      assert s == init + [s[|s| - 1]];
    }
  }
}
