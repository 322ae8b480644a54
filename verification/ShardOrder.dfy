/** The order in which batches are handed out: most bags first, ties by public key. */
module ShardOrder {
  import opened Domain

  /** The nil-safe protobuf getters. */
  function Bags(b: Option<Batch>): nat { if b.Some? then |b.value.contracts| else 0 }
  function Pubkey(b: Option<Batch>): string { if b.Some? then b.value.pubkey else "" }

  predicate Precedes(x: Option<Batch>, y: Option<Batch>) {
    if Bags(x) != Bags(y) then Bags(x) > Bags(y) else StringLess(Pubkey(x), Pubkey(y))
  }

  ghost predicate Sorted(s: seq<Option<Batch>>) {
    forall i, j | 0 <= i < j < |s| :: !Precedes(s[j], s[i])
  }

  /** No two different entries compare equal; true whenever public keys are unique. */
  ghost predicate TieFree(s: seq<Option<Batch>>) {
    forall x, y | x in s && y in s && x != y :: Precedes(x, y) || Precedes(y, x)
  }

  /** Inserts from the right, after every entry that does not have to follow `x`. */
  function Insert(s: seq<Option<Batch>>, x: Option<Batch>): seq<Option<Batch>> {
    if s == [] || !Precedes(x, s[|s| - 1]) then s + [x]
    else Insert(s[..|s| - 1], x) + [s[|s| - 1]]
  }

  function StableSorted(s: seq<Option<Batch>>): seq<Option<Batch>> {
    if s == [] then [] else Insert(StableSorted(s[..|s| - 1]), s[|s| - 1])
  }

  lemma {:induction false} PrecedesAsymmetric(x: Option<Batch>, y: Option<Batch>)
    requires Precedes(x, y)
    ensures !Precedes(y, x)
  {
    StringLessTotal(Pubkey(x), Pubkey(y));
  }

  /** "Does not have to come before" composes, so the order is a weak order. */
  lemma {:induction false} NotAfterTransitive(x: Option<Batch>, y: Option<Batch>, z: Option<Batch>)
    requires !Precedes(y, x) && !Precedes(z, y)
    ensures !Precedes(z, x)
  {
    if Precedes(z, x) && Bags(x) == Bags(y) == Bags(z) {
      StringLessTotal(Pubkey(x), Pubkey(y));
      StringLessTotal(Pubkey(y), Pubkey(z));
      if Pubkey(x) != Pubkey(y) && Pubkey(y) != Pubkey(z) {
        StringLessTransitive(Pubkey(x), Pubkey(y), Pubkey(z));
        StringLessTotal(Pubkey(x), Pubkey(z));
      }
    }
  }

  lemma {:induction false} InsertKeepsEntries(s: seq<Option<Batch>>, x: Option<Batch>)
    ensures multiset(Insert(s, x)) == multiset(s) + multiset{x}
  {
    if s != [] && Precedes(x, s[|s| - 1]) {
      InsertKeepsEntries(s[..|s| - 1], x);
      MultisetSnoc(s);
    }
  }

  lemma {:induction false} InsertMembers(s: seq<Option<Batch>>, x: Option<Batch>, y: Option<Batch>)
    ensures y in Insert(s, x) <==> y in s || y == x
  {
    InsertKeepsEntries(s, x);
    assert y in Insert(s, x) <==> y in multiset(Insert(s, x));
    assert y in s <==> y in multiset(s);
  }

  lemma {:induction false} InsertKeepsOrder(s: seq<Option<Batch>>, x: Option<Batch>)
    requires Sorted(s)
    ensures Sorted(Insert(s, x))
  {
    if s == [] || !Precedes(x, s[|s| - 1]) {
      forall i | 0 <= i < |s| ensures !Precedes(x, s[i]) {
        if i < |s| - 1 { NotAfterTransitive(s[i], s[|s| - 1], x); }
      }
    } else {
      var n := |s| - 1;
      var r := Insert(s[..n], x);
      InsertKeepsOrder(s[..n], x);
      PrecedesAsymmetric(x, s[n]);
      forall i | 0 <= i < |r| ensures !Precedes(s[n], r[i]) {
        InsertMembers(s[..n], x, r[i]);
      }
    }
  }

  /** The sort returns a sorted permutation of its input. */
  lemma {:induction false} StableSortedCorrect(s: seq<Option<Batch>>)
    ensures Sorted(StableSorted(s))
    ensures multiset(StableSorted(s)) == multiset(s)
    ensures |StableSorted(s)| == |s|
  {
    if s != [] {
      var n := |s| - 1;
      StableSortedCorrect(s[..n]);
      InsertKeepsOrder(StableSorted(s[..n]), s[n]);
      InsertKeepsEntries(StableSorted(s[..n]), s[n]);
      assert s == s[..n] + [s[n]];
    }
    assert |multiset(StableSorted(s))| == |multiset(s)|;
  }

  /** Sorted means: more bags first, and among equal bag counts the public keys do not decrease. */
  lemma {:induction false} SortedMeans(s: seq<Option<Batch>>, i: nat, j: nat)
    requires Sorted(s) && i < j < |s|
    ensures Bags(s[i]) > Bags(s[j]) || (Bags(s[i]) == Bags(s[j]) && (StringLess(Pubkey(s[i]), Pubkey(s[j])) || Pubkey(s[i]) == Pubkey(s[j])))
  {
    StringLessTotal(Pubkey(s[i]), Pubkey(s[j]));
  }

  predicate Ties(x: Option<Batch>, y: Option<Batch>) { Bags(x) == Bags(y) && Pubkey(x) == Pubkey(y) }

  function Tied(y: Option<Batch>, x: Option<Batch>): seq<Option<Batch>> { if Ties(y, x) then [y] else [] }

  /** The entries that tie with `x`, in order. */
  function TiesOf(s: seq<Option<Batch>>, x: Option<Batch>): seq<Option<Batch>> {
    if s == [] then [] else TiesOf(s[..|s| - 1], x) + Tied(s[|s| - 1], x)
  }

  lemma {:induction false} TiesOfSnoc(s: seq<Option<Batch>>, y: Option<Batch>, x: Option<Batch>)
    ensures TiesOf(s + [y], x) == TiesOf(s, x) + Tied(y, x)
  {
    assert (s + [y])[..|s|] == s;
  }

  lemma {:induction false} PrecedesIsNoTie(y: Option<Batch>, z: Option<Batch>, x: Option<Batch>)
    requires Precedes(y, z)
    ensures Tied(y, x) == [] || Tied(z, x) == []
  {
    StringLessTotal(Pubkey(y), Pubkey(z));
  }

  /** Entries of which one does not tie may be swapped. */
  lemma {:induction false} SwapTies(before: seq<Option<Batch>>, y: seq<Option<Batch>>, z: seq<Option<Batch>>)
    requires y == [] || z == []
    ensures before + y + z == before + z + y
  {
  }

  lemma {:induction false} InsertKeepsTies(s: seq<Option<Batch>>, y: Option<Batch>, x: Option<Batch>)
    ensures TiesOf(Insert(s, y), x) == TiesOf(s, x) + Tied(y, x)
  {
    if s == [] || !Precedes(y, s[|s| - 1]) {
      TiesOfSnoc(s, y, x);
    } else {
      var init, z := s[..|s| - 1], s[|s| - 1];
      InsertKeepsTies(init, y, x);
      TiesOfSnoc(Insert(init, y), z, x);
      PrecedesIsNoTie(y, z, x);
      SwapTies(TiesOf(init, x), Tied(y, x), Tied(z, x));
    }
  }

  /** The sort is stable: entries that compare equal keep their order. */
  lemma {:induction false} SortIsStable(s: seq<Option<Batch>>, x: Option<Batch>)
    ensures TiesOf(StableSorted(s), x) == TiesOf(s, x)
  {
    if s != [] {
      SortIsStable(s[..|s| - 1], x);
      InsertKeepsTies(StableSorted(s[..|s| - 1]), s[|s| - 1], x);
    }
  }

  /** Two sorted arrangements of the same tie-free entries start with the same entry. */
  lemma {:induction false} SortedHeadsAgree(a: seq<Option<Batch>>, b: seq<Option<Batch>>)
    requires Sorted(a) && Sorted(b) && multiset(a) == multiset(b) && TieFree(a) && a != [] && b != []
    ensures a[0] == b[0]
  {
    assert a[0] in multiset(b) && b[0] in multiset(a);
    var i :| 0 <= i < |b| && b[i] == a[0];
    var j :| 0 <= j < |a| && a[j] == b[0];
    assert i > 0 ==> !Precedes(b[i], b[0]);
    assert j > 0 ==> !Precedes(a[j], a[0]);
  }

  lemma {:induction false} TailMultiset(a: seq<Option<Batch>>)
    requires a != []
    ensures multiset(a[1..]) == multiset(a) - multiset{a[0]}
  {
    assert a == [a[0]] + a[1..];
  }

  lemma {:induction false} SortedIsUnique(a: seq<Option<Batch>>, b: seq<Option<Batch>>)
    requires Sorted(a) && Sorted(b) && multiset(a) == multiset(b) && TieFree(a)
    ensures a == b
  {
    assert |a| == |multiset(a)| == |multiset(b)| == |b|;
    if a != [] {
      SortedHeadsAgree(a, b);
      TailMultiset(a);
      TailMultiset(b);
      SortedIsUnique(a[1..], b[1..]);
      assert a == [a[0]] + a[1..] && b == [b[0]] + b[1..];
    }
  }

  /** Any two orders of the same tie-free batches are sorted to the same sequence. */
  lemma {:induction false} SortIgnoresInputOrder(a: seq<Option<Batch>>, b: seq<Option<Batch>>)
    requires multiset(a) == multiset(b) && TieFree(a)
    ensures StableSorted(a) == StableSorted(b)
  {
    StableSortedCorrect(a);
    StableSortedCorrect(b);
    forall x, y | x in StableSorted(a) && y in StableSorted(a) && x != y
      ensures Precedes(x, y) || Precedes(y, x)
    {
      assert x in multiset(StableSorted(a)) && y in multiset(StableSorted(a));
      assert x in a && y in a;
    }
    SortedIsUnique(StableSorted(a), StableSorted(b));
  }

  /** Where the insertion ends up. */
  lemma {:induction false} InsertAt(head: seq<Option<Batch>>, j: nat, x: Option<Batch>)
    requires j <= |head| && (j == 0 || !Precedes(x, head[j - 1])) && forall k | j <= k < |head| :: Precedes(x, head[k])
    ensures Insert(head, x) == head[..j] + [x] + head[j..]
  {
    var n := |head| - 1;
    if j == |head| {
      assert head[..j] == head && head[j..] == [];
    } else {
      InsertAt(head[..n], j, x);
      assert head[..n][..j] == head[..j];
      assert head[j..] == head[..n][j..] + [head[n]];
    }
  }

  /** Moves the entries that have to follow `a[i]` one place to the right and returns the gap. */
  method ShiftRight(a: array<Option<Batch>>, i: nat) returns (j: nat, ghost was: seq<Option<Batch>>)
    requires i < a.Length
    modifies a
    ensures was == old(a[..]) && j <= i && (j == 0 || !Precedes(was[i], was[j - 1]))
    ensures forall k | j <= k < i :: Precedes(was[i], was[k])
    ensures forall k | j < k <= i :: a[k] == was[k - 1]
    ensures forall k | 0 <= k < j :: a[k] == was[k]
    ensures forall k | i < k < a.Length :: a[k] == was[k]
  {
    was := a[..];
    var x := a[i];
    j := i;
    while j > 0 && Precedes(x, a[j - 1])
      invariant 0 <= j <= i
      invariant forall k | 0 <= k < j :: a[k] == was[k]
      invariant forall k | i < k < a.Length :: a[k] == was[k]
      invariant forall k | j < k <= i :: a[k] == was[k - 1]
      invariant forall k | j <= k < i :: Precedes(x, was[k])
    {
      a[j] := a[j - 1];
      j := j - 1;
    }
  }

  lemma {:induction false} Sifted(before: seq<Option<Batch>>, after: seq<Option<Batch>>, i: nat, j: nat)
    requires |before| == |after| && j <= i < |before| && after[j] == before[i]
    requires forall k | j < k <= i :: after[k] == before[k - 1]
    requires forall k | 0 <= k < j :: after[k] == before[k]
    requires forall k | i < k < |before| :: after[k] == before[k]
    ensures after[..i + 1] == before[..j] + [before[i]] + before[j..i]
    ensures after[i + 1..] == before[i + 1..]
  {
    var want := before[..j] + [before[i]] + before[j..i];
    forall k | 0 <= k < i + 1 ensures after[k] == want[k] {
      if k > j { assert want[k] == before[j..i][k - j - 1]; }
    }
  }

  /** Moves `a[i]` left to its place among the sorted entries before it. */
  method SiftIn(a: array<Option<Batch>>, i: nat)
    requires i < a.Length
    modifies a
    ensures a[..i + 1] == Insert(old(a[..i]), old(a[i]))
    ensures a[i + 1..] == old(a[i + 1..])
  {
    var x := a[i];
    ghost var before;
    var j;
    j, before := ShiftRight(a, i);
    a[j] := x;
    Sifted(before, a[..], i, j);
    InsertAt(before[..i], j, x);
    assert before[..i][..j] == before[..j] && before[..i][j..] == before[j..i];
    assert a[..][..i + 1] == a[..i + 1] && a[..][i + 1..] == a[i + 1..];
    assert before[..i] == old(a[..i]) && before[i + 1..] == old(a[i + 1..]);
  }

  /** `sort.SliceStable` on the copied slice, as an in-place stable insertion sort. */
  method SortStable(a: array<Option<Batch>>)
    modifies a
    ensures a[..] == StableSorted(old(a[..]))
  {
    ghost var was := a[..];
    var i := 0;
    while i < a.Length
      invariant 0 <= i <= a.Length
      invariant a[..i] == StableSorted(was[..i])
      invariant a[i..] == was[i..]
    {
      assert was[..i + 1][..i] == was[..i];
      SiftIn(a, i);
      i := i + 1;
    }
    assert a[..] == a[..i] && was == was[..i];
  }
}
