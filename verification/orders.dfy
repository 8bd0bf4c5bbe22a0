/** Total orders on sort keys: numbers, strings compared character by
    character (Kotlin `String.compareTo`), and the reverse of an order
    (what `sortedByDescending` compares with). */
module Orders {

  ghost predicate TotalOrder<K(!new)>(le: (K, K) -> bool) {
    && (forall a :: le(a, a))
    && (forall a, b :: le(a, b) && le(b, a) ==> a == b)
    && (forall a, b, c :: le(a, b) && le(b, c) ==> le(a, c))
    && (forall a, b :: le(a, b) || le(b, a))
  }

  /** The reverse order: `Flip(le)(a, b)` iff `le(b, a)`. */
  function Flip<K>(le: (K, K) -> bool): (K, K) -> bool {
    (a: K, b: K) => le(b, a)
  }

  lemma FlipTotalOrder<K(!new)>(le: (K, K) -> bool)
    requires TotalOrder(le)
    ensures TotalOrder(Flip(le))
  {
  }

  function IntLe(a: int, b: int): bool { a <= b }

  lemma IntLeTotalOrder()
    ensures TotalOrder(IntLe)
  {
  }

  /** Lexicographic order on strings, a proper prefix first. */
  predicate LexLe(a: string, b: string)
    decreases |a|
  {
    |a| == 0 || (|b| > 0 && (a[0] < b[0] || (a[0] == b[0] && LexLe(a[1..], b[1..]))))
  }

  lemma {:induction false} LexLeReflexive(a: string)
    ensures LexLe(a, a)
    decreases |a|
  {
    if |a| > 0 {
      LexLeReflexive(a[1..]);
    }
  }

  lemma {:induction false} LexLeAntisymmetric(a: string, b: string)
    requires LexLe(a, b) && LexLe(b, a)
    ensures a == b
    decreases |a|
  {
    if |a| > 0 {
      LexLeAntisymmetric(a[1..], b[1..]);
      assert a == [a[0]] + a[1..] && b == [b[0]] + b[1..];
    }
  }

  lemma {:induction false} LexLeTransitive(a: string, b: string, c: string)
    requires LexLe(a, b) && LexLe(b, c)
    ensures LexLe(a, c)
    decreases |a|
  {
    if |a| > 0 && a[0] == b[0] && b[0] == c[0] {
      LexLeTransitive(a[1..], b[1..], c[1..]);
    }
  }

  lemma {:induction false} LexLeTotal(a: string, b: string)
    ensures LexLe(a, b) || LexLe(b, a)
    decreases |a|
  {
    if |a| > 0 && |b| > 0 && a[0] == b[0] {
      LexLeTotal(a[1..], b[1..]);
    }
  }

  lemma LexLeTotalOrder()
    ensures TotalOrder(LexLe)
  {
    forall a: string ensures LexLe(a, a) {
      LexLeReflexive(a);
    }
    forall a: string, b: string | LexLe(a, b) && LexLe(b, a) ensures a == b {
      LexLeAntisymmetric(a, b);
    }
    forall a: string, b: string, c: string | LexLe(a, b) && LexLe(b, c) ensures LexLe(a, c) {
      LexLeTransitive(a, b, c);
    }
    forall a: string, b: string ensures LexLe(a, b) || LexLe(b, a) {
      LexLeTotal(a, b);
    }
  }
}
