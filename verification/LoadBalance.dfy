/** List scheduling: jobs of given sizes placed one by one on endpoints. */
module LoadBalance {
  import opened Domain

  /** Total size of the jobs that placement `p` puts on endpoint `e`. */
  function Load(sizes: seq<nat>, p: seq<string>, e: string): nat
    requires |sizes| == |p|
  {
    if sizes == [] then 0
    else
      var n := |sizes| - 1;
      Load(sizes[..n], p[..n], e) + (if p[n] == e then sizes[n] else 0)
  }

  function Total(sizes: seq<nat>): nat {
    if sizes == [] then 0 else Total(sizes[..|sizes| - 1]) + sizes[|sizes| - 1]
  }

  ghost function LoadSum(sizes: seq<nat>, p: seq<string>, eps: seq<string>): nat
    requires |sizes| == |p|
  {
    if eps == [] then 0 else Load(sizes, p, eps[0]) + LoadSum(sizes, p, eps[1..])
  }

  ghost predicate Placed(sizes: seq<nat>, p: seq<string>, eps: seq<string>) {
    && |sizes| == |p|
    && forall k | 0 <= k < |p| :: p[k] in eps
  }

  /** Every job goes to an endpoint that is least loaded at that moment. */
  ghost predicate Greedy(sizes: seq<nat>, p: seq<string>, eps: seq<string>) {
    && Placed(sizes, p, eps)
    && forall k, e | 0 <= k < |p| && e in eps ::
      Load(sizes[..k], p[..k], p[k]) <= Load(sizes[..k], p[..k], e)
  }

  ghost predicate Descending(sizes: seq<nat>) {
    forall i, j | 0 <= i < j < |sizes| :: sizes[i] >= sizes[j]
  }

  ghost predicate Within(sizes: seq<nat>, p: seq<string>, eps: seq<string>, limit: nat) {
    && Placed(sizes, p, eps)
    && forall e | e in eps :: Load(sizes, p, e) <= limit
  }

  lemma {:induction false} GreedyPrefix(sizes: seq<nat>, p: seq<string>, eps: seq<string>)
    requires Greedy(sizes, p, eps) && sizes != []
    ensures Greedy(sizes[..|sizes| - 1], p[..|sizes| - 1], eps)
  {
    var n := |sizes| - 1;
    forall k, e | 0 <= k < n && e in eps
      ensures Load(sizes[..n][..k], p[..n][..k], p[..n][k]) <= Load(sizes[..n][..k], p[..n][..k], e)
    {
      assert sizes[..n][..k] == sizes[..k] && p[..n][..k] == p[..k];
    }
  }

  /** Placing one more job raises the load sum by its size once per occurrence of its endpoint. */
  lemma {:induction false} LoadSumSnoc(sizes: seq<nat>, p: seq<string>, eps: seq<string>)
    requires |sizes| == |p| && sizes != [] && Distinct(eps)
    ensures LoadSum(sizes, p, eps) == LoadSum(sizes[..|p| - 1], p[..|p| - 1], eps)
                                      + (if p[|p| - 1] in eps then sizes[|p| - 1] else 0)
  {
    if eps != [] {
      LoadSumSnoc(sizes, p, eps[1..]);
      assert eps == [eps[0]] + eps[1..];
      assert eps[0] !in eps[1..];
    }
  }

  lemma {:induction false} LoadsSumToTotal(sizes: seq<nat>, p: seq<string>, eps: seq<string>)
    requires Placed(sizes, p, eps) && Distinct(eps)
    ensures LoadSum(sizes, p, eps) == Total(sizes)
  {
    if sizes == [] {
      EmptyLoadSum(p, eps);
    } else {
      LoadSumSnoc(sizes, p, eps);
      LoadsSumToTotal(sizes[..|p| - 1], p[..|p| - 1], eps);
    }
  }

  lemma {:induction false} EmptyLoadSum(p: seq<string>, eps: seq<string>)
    requires p == []
    ensures LoadSum([], p, eps) == 0
  {
    if eps != [] { EmptyLoadSum(p, eps[1..]); }
  }

  /** `m * x`, unfolded one endpoint at a time. */
  ghost function Times(m: nat, x: int): int {
    if m == 0 then 0 else x + Times(m - 1, x)
  }

  lemma {:induction false} TimesIsProduct(m: nat, x: int)
    ensures Times(m, x) == m * x
  {
    if m > 0 {
      TimesIsProduct(m - 1, x);
      assert m * x == (m - 1) * x + x;
    }
  }

  lemma {:induction false} LoadSumAtMost(sizes: seq<nat>, p: seq<string>, eps: seq<string>, bound: int)
    requires |sizes| == |p| && forall e | e in eps :: Load(sizes, p, e) <= bound
    ensures LoadSum(sizes, p, eps) <= Times(|eps|, bound)
  {
    if eps != [] { LoadSumAtMost(sizes, p, eps[1..], bound); }
  }

  lemma {:induction false} LoadSumAtLeast(sizes: seq<nat>, p: seq<string>, eps: seq<string>, bound: int)
    requires |sizes| == |p| && forall e | e in eps :: Load(sizes, p, e) >= bound
    ensures LoadSum(sizes, p, eps) >= Times(|eps|, bound)
  {
    if eps != [] { LoadSumAtLeast(sizes, p, eps[1..], bound); }
  }

  /** All loads are at least `low`; replacing one of them by the load of `e` keeps the sum above. */
  lemma {:induction false} LoadSumWithPeak(sizes: seq<nat>, p: seq<string>, eps: seq<string>, low: int, e: string)
    requires |sizes| == |p| && e in eps && forall d | d in eps :: Load(sizes, p, d) >= low
    ensures LoadSum(sizes, p, eps) + low >= Times(|eps|, low) + Load(sizes, p, e)
  {
    if eps[0] == e {
      LoadSumAtLeast(sizes, p, eps[1..], low);
    } else {
      LoadSumWithPeak(sizes, p, eps[1..], low, e);
    }
  }

  /** Greedy placement keeps any two loads within the largest job of each other. */
  lemma {:induction false} GreedySpread(sizes: seq<nat>, p: seq<string>, eps: seq<string>, largest: nat, d: string, e: string)
    requires Greedy(sizes, p, eps) && d in eps && e in eps
    requires forall k | 0 <= k < |sizes| :: sizes[k] <= largest
    ensures Load(sizes, p, d) <= Load(sizes, p, e) + largest
  {
    if sizes != [] {
      var n := |sizes| - 1;
      GreedyPrefix(sizes, p, eps);
      GreedySpread(sizes[..n], p[..n], eps, largest, d, e);
      assert Load(sizes[..n], p[..n], p[n]) <= Load(sizes[..n], p[..n], e);
    }
  }

  lemma {:induction false} TotalWithPeak(sizes: seq<nat>, p: seq<string>, eps: seq<string>, low: int, e: string)
    requires Placed(sizes, p, eps) && Distinct(eps) && e in eps && forall d | d in eps :: Load(sizes, p, d) >= low
    ensures Total(sizes) + low >= Times(|eps|, low) + Load(sizes, p, e)
  {
    LoadSumWithPeak(sizes, p, eps, low, e);
    LoadsSumToTotal(sizes, p, eps);
  }

  lemma {:induction false} GreedyTotal(sizes: seq<nat>, p: seq<string>, eps: seq<string>, largest: nat, e: string)
    requires Greedy(sizes, p, eps) && Distinct(eps) && e in eps
    requires forall k | 0 <= k < |sizes| :: sizes[k] <= largest
    ensures Times(|eps|, Load(sizes, p, e) - largest) + largest <= Total(sizes)
  {
    var low := Load(sizes, p, e) - largest;
    forall d | d in eps ensures Load(sizes, p, d) >= low {
      GreedySpread(sizes, p, eps, largest, e, d);
    }
    TotalWithPeak(sizes, p, eps, low, e);
  }

  /** m * maxLoad <= total + (m - 1) * largest. */
  lemma {:induction false} GreedyPeak(sizes: seq<nat>, p: seq<string>, eps: seq<string>, largest: nat, e: string)
    requires Greedy(sizes, p, eps) && Distinct(eps) && e in eps
    requires forall k | 0 <= k < |sizes| :: sizes[k] <= largest
    ensures |eps| * Load(sizes, p, e) <= Total(sizes) + (|eps| - 1) * largest
  {
    GreedyTotal(sizes, p, eps, largest, e);
    PeakArithmetic(|eps|, Load(sizes, p, e), largest, Total(sizes));
  }

  lemma {:induction false} PeakArithmetic(m: nat, peak: int, largest: int, total: int)
    requires Times(m, peak - largest) + largest <= total
    ensures m * peak <= total + (m - 1) * largest
  {
    TimesIsProduct(m, peak - largest);
    assert m * (peak - largest) == m * peak - m * largest;
  }

  /** A job counts double when it cannot share an endpoint of capacity `limit` with a job of size `q`. */
  function Weights(sizes: seq<nat>, limit: nat, q: nat): (w: seq<nat>)
    ensures |w| == |sizes|
    ensures forall i | 0 <= i < |w| :: w[i] == if sizes[i] + q > limit then 2 else 1
  {
    seq(|sizes|, i requires 0 <= i < |sizes| => if sizes[i] + q > limit then 2 else 1)
  }

  /** What an endpoint's weight says about its load, when every job is larger than limit / 3. */
  lemma {:induction false} WeightVersusLoad(sizes: seq<nat>, p: seq<string>, e: string, limit: nat, q: nat)
    requires |sizes| == |p| && 3 * q > limit >= q
    requires forall k | 0 <= k < |sizes| :: sizes[k] >= q
    ensures var w := Load(Weights(sizes, limit, q), p, e); var s := Load(sizes, p, e);
            && (w == 0 ==> s == 0)
            && (w == 1 ==> q <= s <= limit - q)
            && (w == 2 ==> s >= 2 * q || (s > limit - q && s >= q))
            && (w >= 3 ==> s > limit)
  {
    if sizes != [] {
      var n := |sizes| - 1;
      WeightVersusLoad(sizes[..n], p[..n], e, limit, q);
      assert Weights(sizes, limit, q)[..n] == Weights(sizes[..n], limit, q);
    }
  }

  lemma {:induction false} LoadPrefix(sizes: seq<nat>, p: seq<string>, e: string)
    requires |sizes| == |p| && sizes != []
    ensures Load(sizes[..|p| - 1], p[..|p| - 1], e) <= Load(sizes, p, e)
    ensures Load(sizes, p, p[|p| - 1]) >= sizes[|p| - 1]
  {
  }

  /**
   * If every job is larger than a third of `limit` and some placement stays within `limit`,
   * then greedy finds room for the last and smallest job within `limit`.
   */
  lemma {:induction false} LargeJobsFit(sizes: seq<nat>, p: seq<string>, eps: seq<string>, alt: seq<string>, limit: nat)
    requires Greedy(sizes, p, eps) && Descending(sizes) && Distinct(eps) && sizes != []
    requires Within(sizes, alt, eps, limit) && 3 * sizes[|sizes| - 1] > limit
    ensures Load(sizes, p, p[|p| - 1]) <= limit
  {
    var n := |sizes| - 1;
    var q := sizes[n];
    LoadPrefix(sizes, alt, alt[n]);
    assert q <= Load(sizes, alt, alt[n]) <= limit;
    if Load(sizes[..n], p[..n], p[n]) + q > limit {
      var w := Weights(sizes, limit, q);
      var w' := Weights(sizes[..n], limit, q);
      assert w[..n] == w';
      forall e | e in eps ensures Load(w', p[..n], e) >= 2 {
        WeightVersusLoad(sizes[..n], p[..n], e, limit, q);
        assert Load(sizes[..n], p[..n], p[n]) <= Load(sizes[..n], p[..n], e);
      }
      forall e | e in eps ensures Load(w, alt, e) <= 2 {
        WeightVersusLoad(sizes, alt, e, limit, q);
      }
      LoadSumAtLeast(w', p[..n], eps, 2);
      LoadSumAtMost(w, alt, eps, 2);
      LoadsSumToTotal(w', p[..n], eps);
      LoadsSumToTotal(w, alt, eps);
      assert false;
    }
  }

  /** The least loaded endpoint is below the average of any placement within `limit`. */
  lemma {:induction false} LowestBelowAverage(sizes: seq<nat>, p: seq<string>, eps: seq<string>, alt: seq<string>, limit: nat)
    requires Greedy(sizes, p, eps) && Distinct(eps) && sizes != [] && Within(sizes, alt, eps, limit)
    ensures var n := |sizes| - 1;
            Times(|eps|, Load(sizes[..n], p[..n], p[n])) + sizes[n] <= Times(|eps|, limit)
  {
    var n := |sizes| - 1;
    LoadSumAtLeast(sizes[..n], p[..n], eps, Load(sizes[..n], p[..n], p[n]));
    GreedyPrefix(sizes, p, eps);
    LoadsSumToTotal(sizes[..n], p[..n], eps);
    LoadSumAtMost(sizes, alt, eps, limit);
    LoadsSumToTotal(sizes, alt, eps);
  }

  /** 3 * m * load <= (4 * m - 1) * limit, kept folded inside the induction. */
  ghost predicate FourThirds(m: nat, load: int, limit: int) {
    3 * Times(m, load) + limit <= 4 * Times(m, limit)
  }

  /** A last job of at most limit / 3 lands low enough for the 4/3 bound by averaging alone. */
  lemma {:induction false} SmallJobFits(sizes: seq<nat>, p: seq<string>, eps: seq<string>, alt: seq<string>, limit: nat)
    requires Greedy(sizes, p, eps) && Distinct(eps) && sizes != []
    requires Within(sizes, alt, eps, limit) && 3 * sizes[|sizes| - 1] <= limit
    ensures FourThirds(|eps|, Load(sizes, p, p[|p| - 1]), limit)
  {
    var n := |sizes| - 1;
    assert p[n] in eps;
    LowestBelowAverage(sizes, p, eps, alt, limit);
    Averaging(|eps|, Load(sizes[..n], p[..n], p[n]), sizes[n], limit);
  }

  lemma {:induction false} TimesSum(m: nat, x: int, y: int)
    ensures Times(m, x + y) == Times(m, x) + Times(m, y)
  {
    if m > 0 { TimesSum(m - 1, x, y); }
  }

  lemma {:induction false} TimesMonotone(m: nat, x: int, y: int)
    requires x <= y
    ensures Times(m, x) <= Times(m, y)
  {
    if m > 0 { TimesMonotone(m - 1, x, y); }
  }

  lemma {:induction false} Averaging(m: nat, low: int, q: int, limit: int)
    requires m >= 1 && Times(m, low) + q <= Times(m, limit) && 3 * q <= limit
    ensures FourThirds(m, low + q, limit)
  {
    TimesSum(m, low, q);
    TimesSum(m - 1, q, q);
    TimesSum(m - 1, q, q + q);
    TimesMonotone(m - 1, q + (q + q), limit);
  }

  lemma {:induction false} WithinLimit(m: nat, load: int, limit: int)
    requires m >= 1 && load <= limit && limit >= 0
    ensures FourThirds(m, load, limit)
  {
    TimesMonotone(m, load, limit);
    TimesMonotone(m - 1, 0, limit);
    TimesIsProduct(m - 1, 0);
  }

  lemma {:induction false} LongestFirst(sizes: seq<nat>, p: seq<string>, eps: seq<string>, alt: seq<string>, limit: nat, e: string)
    requires Greedy(sizes, p, eps) && Descending(sizes) && Distinct(eps) && e in eps
    requires Within(sizes, alt, eps, limit)
    ensures FourThirds(|eps|, Load(sizes, p, e), limit)
  {
    if sizes == [] {
      WithinLimit(|eps|, 0, limit);
    } else if e != p[|p| - 1] {
      var n := |sizes| - 1;
      GreedyPrefix(sizes, p, eps);
      forall d | d in eps ensures Load(sizes[..n], alt[..n], d) <= limit { LoadPrefix(sizes, alt, d); }
      LongestFirst(sizes[..n], p[..n], eps, alt[..n], limit, e);
    } else if 3 * sizes[|sizes| - 1] > limit {
      LargeJobsFit(sizes, p, eps, alt, limit);
      WithinLimit(|eps|, Load(sizes, p, e), limit);
    } else {
      SmallJobFits(sizes, p, eps, alt, limit);
    }
  }

  /**
   * Longest-processing-time bound: whatever placement exists within `limit`,
   * greedy on descending sizes stays within (4/3 - 1/(3m)) of it.
   */
  lemma {:induction false} LongestFirstBound(sizes: seq<nat>, p: seq<string>, eps: seq<string>, alt: seq<string>, limit: nat, e: string)
    requires Greedy(sizes, p, eps) && Descending(sizes) && Distinct(eps) && e in eps
    requires Within(sizes, alt, eps, limit)
    ensures 3 * |eps| * Load(sizes, p, e) <= (4 * |eps| - 1) * limit
  {
    LongestFirst(sizes, p, eps, alt, limit, e);
    FourThirdsUnfolded(|eps|, Load(sizes, p, e), limit);
  }

  lemma {:induction false} FourThirdsUnfolded(m: nat, load: int, limit: int)
    requires FourThirds(m, load, limit)
    ensures 3 * m * load <= (4 * m - 1) * limit
  {
    TimesIsProduct(m, load);
    TimesIsProduct(m, limit);
    assert (4 * m - 1) * limit == 4 * (m * limit) - limit;
    assert 3 * m * load == 3 * (m * load);
  }
}
