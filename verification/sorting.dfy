/** Stable sorting by a key, the semantics of Kotlin's `sortedBy` and
    `sortedByDescending`. The model sorts by insertion; `StableSortUnique`
    shows that every stable sort returns the same list, so the choice of
    algorithm does not matter. */
module Sorting {
  import opened Orders
  import opened Text

  /** The keys of `s` appear in `le` order. */
  ghost predicate SortedBy<T, K>(s: seq<T>, key: T -> K, le: (K, K) -> bool) {
    forall i, j :: 0 <= i < j < |s| ==> le(key(s[i]), key(s[j]))
  }

  /** The elements of `s` whose key is `k`, in their order in `s`. */
  function WithKey<T, K(==)>(s: seq<T>, key: T -> K, k: K): seq<T>
    decreases |s|
  {
    if |s| == 0 then []
    else (if key(s[0]) == k then [s[0]] else []) + WithKey(s[1..], key, k)
  }

  /** `s` and `r` list the elements of every key in the same relative order. */
  ghost predicate SameOrderPerKey<T, K(!new)>(r: seq<T>, s: seq<T>, key: T -> K) {
    forall k :: WithKey(r, key, k) == WithKey(s, key, k)
  }

  /** Puts `x` in front of the first element whose key is not below it. */
  function Insert<T, K>(x: T, s: seq<T>, key: T -> K, le: (K, K) -> bool): (r: seq<T>)
    ensures multiset(r) == multiset(s) + multiset{x}
    decreases |s|
  {
    if |s| == 0 then [x]
    else if le(key(x), key(s[0])) then [x] + s
    else
      assert s == [s[0]] + s[1..];
      [s[0]] + Insert(x, s[1..], key, le)
  }

  lemma {:induction false} InsertSorted<T, K(!new)>(x: T, s: seq<T>, key: T -> K, le: (K, K) -> bool)
    requires TotalOrder(le)
    requires SortedBy(s, key, le)
    ensures SortedBy(Insert(x, s, key, le), key, le)
    decreases |s|
  {
    var r := Insert(x, s, key, le);
    if |s| == 0 {
    } else if le(key(x), key(s[0])) {
      forall i, j | 0 <= i < j < |r| ensures le(key(r[i]), key(r[j])) {
        if i == 0 && j > 1 {
          assert le(key(s[0]), key(s[j - 1]));
        }
      }
    } else {
      var t := Insert(x, s[1..], key, le);
      InsertSorted(x, s[1..], key, le);
      assert r == [s[0]] + t;
      InsertedAbove(x, s, key, le);
      forall i, j | 0 <= i < j < |r| ensures le(key(r[i]), key(r[j])) {
        assert r[j] == t[j - 1];
        if i == 0 {
          assert t[j - 1] in t;
        } else {
          assert r[i] == t[i - 1];
        }
      }
    }
  }

  /** When `x` goes after the head, the head is below everything after it. */
  lemma InsertedAbove<T, K(!new)>(x: T, s: seq<T>, key: T -> K, le: (K, K) -> bool)
    requires TotalOrder(le)
    requires SortedBy(s, key, le)
    requires |s| > 0 && !le(key(x), key(s[0]))
    ensures forall y | y in Insert(x, s[1..], key, le) :: le(key(s[0]), key(y))
  {
    var t := Insert(x, s[1..], key, le);
    forall y | y in t ensures le(key(s[0]), key(y)) {
      assert y in multiset(t);
      if y != x {
        assert y in s[1..];
        var k :| 0 <= k < |s[1..]| && s[1..][k] == y;
        assert s[k + 1] == y;
      }
    }
  }

  /** The elements skipped by `Insert` have keys strictly below `x`'s, so no
      element of `x`'s key is ever passed: insertion is stable. */
  lemma {:induction false} InsertWithKey<T, K(!new)>(x: T, s: seq<T>, key: T -> K, le: (K, K) -> bool, k: K)
    requires TotalOrder(le)
    ensures WithKey(Insert(x, s, key, le), key, k)
         == (if key(x) == k then [x] else []) + WithKey(s, key, k)
    decreases |s|
  {
    if |s| == 0 {
    } else if le(key(x), key(s[0])) {
      assert ([x] + s)[1..] == s;
    } else {
      InsertWithKey(x, s[1..], key, le, k);
      var t := Insert(x, s[1..], key, le);
      assert ([s[0]] + t)[1..] == t;
      assert key(s[0]) != key(x);
    }
  }

  /** Stable sort of `s` by `key` under the order `le`. */
  function SortBy<T, K(!new, ==)>(s: seq<T>, key: T -> K, le: (K, K) -> bool): (r: seq<T>)
    requires TotalOrder(le)
    ensures multiset(r) == multiset(s)
    ensures SortedBy(r, key, le)
    ensures SameOrderPerKey(r, s, key)
    decreases |s|
  {
    if |s| == 0 then []
    else
      var t := SortBy(s[1..], key, le);
      assert s == [s[0]] + s[1..];
      InsertSorted(s[0], t, key, le);
      InsertAllKeys(s[0], t, s, key, le);
      Insert(s[0], t, key, le)
  }

  lemma InsertAllKeys<T, K(!new)>(x: T, t: seq<T>, s: seq<T>, key: T -> K, le: (K, K) -> bool)
    requires TotalOrder(le)
    requires |s| > 0 && s[0] == x
    requires SameOrderPerKey(t, s[1..], key)
    ensures SameOrderPerKey(Insert(x, t, key, le), s, key)
  {
    forall k ensures WithKey(Insert(x, t, key, le), key, k) == WithKey(s, key, k) {
      InsertWithKey(x, t, key, le, k);
    }
  }

  /** Sorting an already sorted list changes nothing. */
  lemma SortSortedIsIdentity<T, K(!new)>(s: seq<T>, key: T -> K, le: (K, K) -> bool)
    requires TotalOrder(le)
    requires SortedBy(s, key, le)
    ensures SortBy(s, key, le) == s
  {
    StableSortUnique(SortBy(s, key, le), s, key, le);
  }

  lemma SortedTail<T, K>(s: seq<T>, key: T -> K, le: (K, K) -> bool)
    requires |s| > 0 && SortedBy(s, key, le)
    ensures SortedBy(s[1..], key, le)
  {
    forall p, q | 0 <= p < q < |s[1..]| ensures le(key(s[1..][p]), key(s[1..][q])) {
      assert s[1..][p] == s[p + 1] && s[1..][q] == s[q + 1];
    }
  }

  /** Two sorted permutations with the same order per key start alike. */
  lemma HeadsAgree<T, K(!new)>(a: seq<T>, b: seq<T>, key: T -> K, le: (K, K) -> bool)
    requires TotalOrder(le)
    requires |a| > 0 && multiset(a) == multiset(b)
    requires SortedBy(a, key, le) && SortedBy(b, key, le)
    requires SameOrderPerKey(a, b, key)
    ensures |b| > 0 && a[0] == b[0]
  {
    assert |b| == |multiset(b)| == |multiset(a)| == |a|;
    assert b[0] in multiset(a) && a[0] in multiset(b);
    var i :| 0 <= i < |a| && a[i] == b[0];
    var j :| 0 <= j < |b| && b[j] == a[0];
    if i > 0 { assert le(key(a[0]), key(a[i])); }
    if j > 0 { assert le(key(b[0]), key(b[j])); }
    var k := key(a[0]);
    assert key(b[0]) == k;
    assert WithKey(a, key, k)[0] == a[0];
    assert WithKey(b, key, k)[0] == b[0];
  }

  lemma SameOrderTail<T, K(!new)>(a: seq<T>, b: seq<T>, key: T -> K)
    requires |a| > 0 && |b| > 0 && a[0] == b[0]
    requires SameOrderPerKey(a, b, key)
    ensures SameOrderPerKey(a[1..], b[1..], key)
  {
    forall k' ensures WithKey(a[1..], key, k') == WithKey(b[1..], key, k') {
      var pre: seq<T> := if key(a[0]) == k' then [a[0]] else [];
      assert WithKey(a, key, k') == pre + WithKey(a[1..], key, k');
      assert WithKey(b, key, k') == pre + WithKey(b[1..], key, k');
      assert WithKey(a[1..], key, k') == WithKey(a, key, k')[|pre|..];
      assert WithKey(b[1..], key, k') == WithKey(b, key, k')[|pre|..];
    }
  }

  /** A sorted permutation that keeps the order within every key is unique:
      any stable sort (Kotlin's included) agrees with `SortBy`. */
  lemma {:induction false} StableSortUnique<T, K(!new)>(a: seq<T>, b: seq<T>, key: T -> K, le: (K, K) -> bool)
    requires TotalOrder(le)
    requires multiset(a) == multiset(b)
    requires SortedBy(a, key, le) && SortedBy(b, key, le)
    requires SameOrderPerKey(a, b, key)
    ensures a == b
    decreases |a|
  {
    if |a| == 0 {
      assert |b| == |multiset(b)| == 0;
    } else {
      HeadsAgree(a, b, key, le);
      assert a == [a[0]] + a[1..] && b == [b[0]] + b[1..];
      assert multiset(a[1..]) == multiset(a) - multiset{a[0]};
      assert multiset(b[1..]) == multiset(b) - multiset{b[0]};
      SortedTail(a, key, le);
      SortedTail(b, key, le);
      SameOrderTail(a, b, key);
      StableSortUnique(a[1..], b[1..], key, le);
    }
  }

  // ------------------------------------- the repository's generic helpers

  /** The sort key `selector(it).lowercase()`. The four sorts below are
      `RoomRepository`'s `sortByAlpha*` and `sortByDate*`; the catalogue
      sorts are the same helpers at fixed selectors. */
  function LowerKey<T>(selector: T -> string): T -> string {
    (x: T) => Lower(selector(x))
  }

  /** `sortByAlphaAsc`: `sortedBy { selector(it).lowercase() }`. */
  function SortByAlphaAsc<T>(list: seq<T>, selector: T -> string): (r: seq<T>)
    ensures multiset(r) == multiset(list)
    ensures forall i, j :: 0 <= i < j < |r| ==> LexLe(Lower(selector(r[i])), Lower(selector(r[j])))
    ensures SameOrderPerKey(r, list, LowerKey(selector))
  {
    LexLeTotalOrder();
    var r := SortBy(list, LowerKey(selector), LexLe);
    assert forall i, j :: 0 <= i < j < |r| ==> LexLe(LowerKey(selector)(r[i]), LowerKey(selector)(r[j]));
    r
  }

  /** `sortByAlphaDesc`: `sortedByDescending { selector(it).lowercase() }`.
      Being stable, it keeps equal keys in input order, so it is not the
      reverse of the ascending sort. */
  function SortByAlphaDesc<T>(list: seq<T>, selector: T -> string): (r: seq<T>)
    ensures multiset(r) == multiset(list)
    ensures forall i, j :: 0 <= i < j < |r| ==> LexLe(Lower(selector(r[j])), Lower(selector(r[i])))
    ensures SameOrderPerKey(r, list, LowerKey(selector))
  {
    LexLeTotalOrder();
    FlipTotalOrder(LexLe);
    var r := SortBy(list, LowerKey(selector), Flip(LexLe));
    assert forall i, j :: 0 <= i < j < |r| ==> Flip(LexLe)(LowerKey(selector)(r[i]), LowerKey(selector)(r[j]));
    r
  }

  /** `sortByDateAsc`: `sortedBy { selector(it) }` on a `Long` key. */
  function SortByDateAsc<T>(list: seq<T>, selector: T -> int): (r: seq<T>)
    ensures multiset(r) == multiset(list)
    ensures forall i, j :: 0 <= i < j < |r| ==> selector(r[i]) <= selector(r[j])
    ensures SameOrderPerKey(r, list, selector)
  {
    IntLeTotalOrder();
    var r := SortBy(list, selector, IntLe);
    assert forall i, j :: 0 <= i < j < |r| ==> IntLe(selector(r[i]), selector(r[j]));
    r
  }

  /** `sortByDateDesc`: `sortedByDescending { selector(it) }`. */
  function SortByDateDesc<T>(list: seq<T>, selector: T -> int): (r: seq<T>)
    ensures multiset(r) == multiset(list)
    ensures forall i, j :: 0 <= i < j < |r| ==> selector(r[i]) >= selector(r[j])
    ensures SameOrderPerKey(r, list, selector)
  {
    IntLeTotalOrder();
    FlipTotalOrder(IntLe);
    var r := SortBy(list, selector, Flip(IntLe));
    assert forall i, j :: 0 <= i < j < |r| ==> Flip(IntLe)(selector(r[i]), selector(r[j]));
    r
  }

  /** The contract of `sortByAlphaAsc` pins its result down: any stable
      ascending sort by the lowercased key (Kotlin's `sortedBy` is one)
      returns exactly this list. */
  lemma SortByAlphaAscUnique<T>(list: seq<T>, selector: T -> string, other: seq<T>)
    requires multiset(other) == multiset(list)
    requires forall i, j :: 0 <= i < j < |other| ==> LexLe(Lower(selector(other[i])), Lower(selector(other[j])))
    requires SameOrderPerKey(other, list, LowerKey(selector))
    ensures other == SortByAlphaAsc(list, selector)
  {
    var r := SortByAlphaAsc(list, selector);
    LexLeTotalOrder();
    assert SortedBy(other, LowerKey(selector), LexLe);
    assert SortedBy(r, LowerKey(selector), LexLe);
    StableSortUnique(other, r, LowerKey(selector), LexLe);
  }

  /** Likewise for the descending alphabetical sort. */
  lemma SortByAlphaDescUnique<T>(list: seq<T>, selector: T -> string, other: seq<T>)
    requires multiset(other) == multiset(list)
    requires forall i, j :: 0 <= i < j < |other| ==> LexLe(Lower(selector(other[j])), Lower(selector(other[i])))
    requires SameOrderPerKey(other, list, LowerKey(selector))
    ensures other == SortByAlphaDesc(list, selector)
  {
    var r := SortByAlphaDesc(list, selector);
    LexLeTotalOrder();
    FlipTotalOrder(LexLe);
    assert SortedBy(other, LowerKey(selector), Flip(LexLe));
    assert SortedBy(r, LowerKey(selector), Flip(LexLe));
    StableSortUnique(other, r, LowerKey(selector), Flip(LexLe));
  }

  /** Likewise for the ascending numeric sort. */
  lemma SortByDateAscUnique<T>(list: seq<T>, selector: T -> int, other: seq<T>)
    requires multiset(other) == multiset(list)
    requires forall i, j :: 0 <= i < j < |other| ==> selector(other[i]) <= selector(other[j])
    requires SameOrderPerKey(other, list, selector)
    ensures other == SortByDateAsc(list, selector)
  {
    var r := SortByDateAsc(list, selector);
    IntLeTotalOrder();
    assert SortedBy(other, selector, IntLe);
    assert SortedBy(r, selector, IntLe);
    StableSortUnique(other, r, selector, IntLe);
  }

  /** Likewise for the descending numeric sort. */
  lemma SortByDateDescUnique<T>(list: seq<T>, selector: T -> int, other: seq<T>)
    requires multiset(other) == multiset(list)
    requires forall i, j :: 0 <= i < j < |other| ==> selector(other[i]) >= selector(other[j])
    requires SameOrderPerKey(other, list, selector)
    ensures other == SortByDateDesc(list, selector)
  {
    var r := SortByDateDesc(list, selector);
    IntLeTotalOrder();
    FlipTotalOrder(IntLe);
    assert SortedBy(other, selector, Flip(IntLe));
    assert SortedBy(r, selector, Flip(IntLe));
    StableSortUnique(other, r, selector, Flip(IntLe));
  }
}
