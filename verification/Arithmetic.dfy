/** Facts about products and quotients shared by the other modules. */
module Arithmetic {

  function Min(a: int, b: int): int { if a < b then a else b }
  function Max(a: int, b: int): int { if a < b then b else a }
  function One(b: bool): nat { if b then 1 else 0 }

  lemma {:induction false} Multiple(d: nat, k: nat)
    requires k > 0
    ensures d * k >= d
  {
  }

  lemma {:induction false} MulMonotone(d: nat, a: nat, b: nat)
    requires a <= b
    ensures d * a <= d * b
  {
    if a < b {
      MulMonotone(d, a, b - 1);
      assert d * b == d * (b - 1) + d;
    }
  }

  lemma {:induction false} QuotientIs(n: nat, d: nat, q: nat, r: nat)
    requires d > 0 && n == d * q + r && r < d
    ensures n / d == q
  {
    var k, m := n / d, n % d;
    assert n == d * k + m;
    assert d * (k - q) == r - m;
    if k > q { Multiple(d, k - q); }
    if k < q { assert d * (q - k) == m - r; Multiple(d, q - k); }
  }

  /** The quotient is the largest k with k * d <= n. */
  lemma {:induction false} QuotientBound(n: nat, d: nat, k: nat)
    requires d > 0
    ensures k <= n / d <==> d * k <= n
  {
    var q, r := n / d, n % d;
    assert n == d * q + r;
    if k <= q {
      MulMonotone(d, k, q);
    } else {
      MulMonotone(d, q + 1, k);
      assert d * (q + 1) == d * q + d;
    }
  }

  lemma {:induction false} QuotientMonotone(a: nat, b: nat, d: nat, e: nat)
    requires a <= b && 0 < e <= d
    ensures a / d <= b / e
  {
    var q := a / d;
    QuotientBound(a, d, q);
    MulMonotone(q, e, d);
    Commute(q, e);
    Commute(q, d);
    QuotientBound(b, e, q);
  }

  lemma {:induction false} Commute(a: nat, b: nat)
    ensures a * b == b * a
  {
  }

  function Sum<T>(f: T -> nat, s: seq<T>): nat {
    if s == [] then 0 else Sum(f, s[..|s| - 1]) + f(s[|s| - 1])
  }

  lemma {:induction false} SumConcat<T>(f: T -> nat, a: seq<T>, b: seq<T>)
    ensures Sum(f, a + b) == Sum(f, a) + Sum(f, b)
  {
    if b == [] {
      assert a + b == a;
    } else {
      SumConcat(f, a, b[..|b| - 1]);
      assert (a + b)[..|a + b| - 1] == a + b[..|b| - 1];
    }
  }

  function Dropped<T>(s: seq<T>, j: nat): seq<T>
    requires j < |s|
  {
    s[..j] + s[j + 1..]
  }

  /** Dropping the entry at `j` lowers the sum by its value. */
  lemma {:induction false} SumDrop<T>(f: T -> nat, s: seq<T>, j: nat)
    requires j < |s|
    ensures Sum(f, s) == Sum(f, Dropped(s, j)) + f(s[j])
  {
    assert s == s[..j + 1] + s[j + 1..];
    SumConcat(f, s[..j + 1], s[j + 1..]);
    SumConcat(f, s[..j], s[j + 1..]);
    assert s[..j + 1][..j] == s[..j];
  }

  lemma {:induction false} DroppedMultiset<T>(s: seq<T>, j: nat)
    requires j < |s|
    ensures multiset(Dropped(s, j)) == multiset(s) - multiset{s[j]}
  {
    assert s == s[..j] + [s[j]] + s[j + 1..];
  }

  /** A sum does not depend on the order of its terms. */
  lemma {:induction false} SumPermutation<T>(f: T -> nat, a: seq<T>, b: seq<T>)
    requires multiset(a) == multiset(b)
    ensures Sum(f, a) == Sum(f, b)
    decreases |a|
  {
    if a == [] {
      assert |multiset(b)| == |b|;
    } else {
      assert a[0] in multiset(b);
      var j :| 0 <= j < |b| && b[j] == a[0];
      DroppedMultiset(a, 0);
      DroppedMultiset(b, j);
      SumPermutation(f, Dropped(a, 0), Dropped(b, j));
      SumDrop(f, a, 0);
      SumDrop(f, b, j);
    }
  }

  /** A pair that decreases lexicographically, its second part bounded, as one number. */
  lemma {:induction false} Lexicographic(before: nat, after: nat, bound: nat, r: nat, r': nat)
    requires after < before || (after == before && r' < r)
    requires r' <= bound
    ensures after * (bound + 1) + r' < before * (bound + 1) + r
    decreases before
  {
    if after < before {
      assert before * (bound + 1) == (before - 1) * (bound + 1) + (bound + 1);
      if after < before - 1 { Lexicographic(before - 1, after, bound, bound, r'); }
    }
  }
}
