/** The piece limiter: a semaphore whose cap moves by additive increase, multiplicative decrease. */
module PieceLimit {
  import opened Arithmetic

  const AIMD_MIN_LIMIT: nat := 8
  const AIMD_WINDOW: nat := 16

  /** A finished piece: how long it ran and how long it was allowed to run. */
  datatype Sample = Sample(elapsed: int, budget: int)

  datatype Limiter = Limiter(min: nat, max: nat, window: nat, inflight: nat, limit: nat, samples: seq<Sample>)

  /** One pass of the wait loop of `acquire`. */
  datatype Entry = Admitted | Refused | MustWait

  predicate Usable(s: Sample) { s.budget > 0 && s.elapsed >= 0 }

  /** More than 80% of the budget. */
  predicate Slow(s: Sample) { s.elapsed * 10 > s.budget * 8 }

  /** At most half of the budget. */
  predicate Fast(s: Sample) { s.elapsed * 2 <= s.budget }

  lemma {:induction false} RealScale(a: real, b: real, d: real)
    requires d > 0.0
    ensures a > b <==> a * d > b * d
  {
    var gap := a - b;
    assert gap * d == a * d - b * d;
    if gap > 0.0 {
      assert gap * d > 0.0;
    } else {
      assert -gap * d >= 0.0;
      assert -gap * d == -(gap * d);
    }
  }

  lemma {:induction false} RatioAbove(e: real, d: real, c: real)
    requires d > 0.0
    ensures e / d > c <==> e > c * d
  {
    var ratio := e / d;
    assert ratio * d == e;
    RealScale(ratio, c, d);
  }

  /** The two tests in terms of the ratio the code computes. */
  lemma {:induction false} RatiosExact(s: Sample)
    requires Usable(s)
    ensures Slow(s) <==> s.elapsed as real / s.budget as real > 0.8
    ensures Fast(s) <==> s.elapsed as real / s.budget as real <= 0.5
  {
    var e, d := s.elapsed as real, s.budget as real;
    assert (s.elapsed * 10) as real == e * 10.0 && (s.budget * 8) as real == d * 8.0 && (s.elapsed * 2) as real == e * 2.0;
    RatioAbove(e, d, 0.8);
    RatioAbove(e, d, 0.5);
  }

  function Slows(samples: seq<Sample>): nat {
    if samples == [] then 0 else Slows(samples[..|samples| - 1]) + (if Slow(samples[|samples| - 1]) then 1 else 0)
  }
  function Fasts(samples: seq<Sample>): nat {
    if samples == [] then 0 else Fasts(samples[..|samples| - 1]) + (if Fast(samples[|samples| - 1]) then 1 else 0)
  }

  predicate SlowWindow(samples: seq<Sample>) { Slows(samples) * 2 >= |samples| }
  predicate FastWindow(samples: seq<Sample>) { Fasts(samples) == |samples| }

  /** The cap after a full window. */
  function NextLimit(p: Limiter, samples: seq<Sample>): nat {
    if Slows(samples) * 2 >= p.window then Max(p.limit / 2, p.min)
    else if Fasts(samples) == p.window then Min(p.limit + 1, p.max)
    else p.limit
  }

  function Observed(p: Limiter, s: Sample): Limiter {
    if !Usable(s) then p
    else if |p.samples| + 1 < p.window then p.(samples := p.samples + [s])
    else p.(samples := [], limit := NextLimit(p, p.samples + [s]))
  }

  function ObservedAll(p: Limiter, obs: seq<Sample>): Limiter
    decreases |obs|
  {
    if obs == [] then p else ObservedAll(Observed(p, obs[0]), obs[1..])
  }

  /** What every reachable limiter satisfies; note that the buffer is shorter than the window. */
  predicate Bounded(p: Limiter) {
    && 1 <= p.min <= p.limit <= p.max && p.inflight <= p.max && |p.samples| < p.window
    && forall i | 0 <= i < |p.samples| :: Usable(p.samples[i])
  }

  /** Outcome of one pass: no slot is taken for a context that has ended. */
  function Pass(p: Limiter, ended: bool): Entry {
    if ended then Refused else if p.inflight >= p.limit then MustWait else Admitted
  }

  function Entered(p: Limiter, ended: bool): Limiter {
    if Pass(p, ended).Admitted? then p.(inflight := p.inflight + 1) else p
  }

  function Released(p: Limiter): Limiter { p.(inflight := Max(p.inflight - 1, 0)) }

  // ---- One window ----

  /** No sample is slow and fast, so the two branches of a full window exclude each other. */
  lemma {:induction false} BranchesExclusive(samples: seq<Sample>)
    requires forall i | 0 <= i < |samples| :: Usable(samples[i])
    ensures Slows(samples) + Fasts(samples) <= |samples|
    ensures samples != [] ==> !(SlowWindow(samples) && FastWindow(samples))
  {
    if samples != [] { BranchesExclusive(samples[..|samples| - 1]); }
  }

  lemma {:induction false} BoundedKept(p: Limiter, s: Sample)
    requires Bounded(p)
    ensures Bounded(Observed(p, s))
  {
  }

  lemma {:induction false} BoundedKeptAll(p: Limiter, obs: seq<Sample>)
    requires Bounded(p)
    ensures Bounded(ObservedAll(p, obs))
    decreases |obs|
  {
    if obs != [] {
      BoundedKept(p, obs[0]);
      BoundedKeptAll(Observed(p, obs[0]), obs[1..]);
    }
  }

  /** A block that completes the window acts exactly once, on the buffer followed by the block. */
  lemma {:induction false} FillWindow(p: Limiter, obs: seq<Sample>)
    requires Bounded(p) && |p.samples| + |obs| == p.window
    requires forall i | 0 <= i < |obs| :: Usable(obs[i])
    ensures ObservedAll(p, obs) == p.(samples := [], limit := NextLimit(p, p.samples + obs))
    decreases |obs|
  {
    var q := Observed(p, obs[0]);
    assert obs == [obs[0]] + obs[1..];
    if |obs| == 1 {
      assert ObservedAll(q, obs[1..]) == q;
    } else {
      BoundedKept(p, obs[0]);
      FillWindow(q, obs[1..]);
      assert q.samples + obs[1..] == p.samples + obs;
    }
  }

  lemma {:induction false} ObservedAppend(p: Limiter, a: seq<Sample>, b: seq<Sample>)
    ensures ObservedAll(p, a + b) == ObservedAll(ObservedAll(p, a), b)
    decreases |a|
  {
    if a == [] {
      assert a + b == b;
    } else {
      ObservedAppend(Observed(p, a[0]), a[1..], b);
      assert (a + b)[1..] == a[1..] + b;
    }
  }

  /** Samples without a usable budget or duration never move the cap. */
  function UsableOf(obs: seq<Sample>): seq<Sample> {
    if obs == [] then [] else (if Usable(obs[0]) then [obs[0]] else []) + UsableOf(obs[1..])
  }

  lemma {:induction false} UnusableIgnored(p: Limiter, obs: seq<Sample>)
    ensures ObservedAll(p, obs) == ObservedAll(p, UsableOf(obs))
    ensures forall i | 0 <= i < |UsableOf(obs)| :: Usable(UsableOf(obs)[i])
    decreases |obs|
  {
    if obs != [] {
      UnusableIgnored(Observed(p, obs[0]), obs[1..]);
      if Usable(obs[0]) {
        assert UsableOf(obs)[1..] == UsableOf(obs[1..]);
      } else {
        assert UsableOf(obs) == UsableOf(obs[1..]);
      }
    }
  }

  // ---- Trajectories ----

  function Pow2(k: nat): nat
    ensures Pow2(k) >= 1
  {
    if k == 0 then 1 else 2 * Pow2(k - 1)
  }

  function Concat(blocks: seq<seq<Sample>>): seq<Sample> {
    if blocks == [] then [] else Concat(blocks[..|blocks| - 1]) + blocks[|blocks| - 1]
  }

  ghost predicate Windows(blocks: seq<seq<Sample>>, window: nat) {
    forall k | 0 <= k < |blocks| :: |blocks[k]| == window && forall i | 0 <= i < window :: Usable(blocks[k][i])
  }

  lemma {:induction false} HalfOfQuotient(n: nat, d: nat)
    requires d > 0
    ensures n / (2 * d) == (n / d) / 2
  {
    var q, r := n / d, n % d;
    var h, b := q / 2, q % 2;
    assert q == 2 * h + b;
    assert n == d * q + r;
    assert d * q == 2 * d * h + d * b;
    assert n == 2 * d * h + (d * b + r);
    assert 0 <= d * b + r < 2 * d;
    QuotientIs(n, 2 * d, h, d * b + r);
  }

  /** k slow windows in a row take the cap to exactly max(min, limit / 2^k). */
  lemma {:induction false} SlowTrajectory(p: Limiter, blocks: seq<seq<Sample>>)
    requires Bounded(p) && p.samples == [] && Windows(blocks, p.window)
    requires forall k | 0 <= k < |blocks| :: SlowWindow(blocks[k])
    ensures ObservedAll(p, Concat(blocks)) == p.(limit := Max(p.min, p.limit / Pow2(|blocks|)))
    decreases |blocks|
  {
    if blocks != [] {
      var n := |blocks| - 1;
      SlowTrajectory(p, blocks[..n]);
      var q := ObservedAll(p, Concat(blocks[..n]));
      BoundedKeptAll(p, Concat(blocks[..n]));
      ObservedAppend(p, Concat(blocks[..n]), blocks[n]);
      FillWindow(q, blocks[n]);
      assert [] + blocks[n] == blocks[n];
      HalfOfQuotient(p.limit, Pow2(n));
    }
  }

  /** k fast windows in a row take the cap to exactly min(max, limit + k). */
  lemma {:induction false} FastTrajectory(p: Limiter, blocks: seq<seq<Sample>>)
    requires Bounded(p) && p.samples == [] && Windows(blocks, p.window)
    requires forall k | 0 <= k < |blocks| :: FastWindow(blocks[k])
    ensures ObservedAll(p, Concat(blocks)) == p.(limit := Min(p.max, p.limit + |blocks|))
    decreases |blocks|
  {
    if blocks != [] {
      var n := |blocks| - 1;
      FastTrajectory(p, blocks[..n]);
      var q := ObservedAll(p, Concat(blocks[..n]));
      BoundedKeptAll(p, Concat(blocks[..n]));
      ObservedAppend(p, Concat(blocks[..n]), blocks[n]);
      FillWindow(q, blocks[n]);
      assert [] + blocks[n] == blocks[n];
      BranchesExclusive(blocks[n]);
    }
  }

  /** A window that is neither half slow nor all fast leaves the cap alone. */
  lemma {:induction false} MixedWindowKeeps(p: Limiter, block: seq<Sample>)
    requires Bounded(p) && |p.samples| + |block| == p.window && forall i | 0 <= i < |block| :: Usable(block[i])
    requires !SlowWindow(p.samples + block) && !FastWindow(p.samples + block)
    ensures ObservedAll(p, block) == p.(samples := [])
  {
    FillWindow(p, block);
  }

  // ---- The floor is reached in logarithmic time ----

  /** Slow windows from `limit` down to the floor. */
  function Halvings(limit: nat, min: nat): nat { if limit <= min then 0 else 1 + Halvings(limit / 2, min) }

  /** The number of halvings is the logarithm of limit / (min + 1). */
  lemma {:induction false} HalvingsAreLogarithmic(limit: nat, min: nat, k: nat)
    ensures Halvings(limit, min) <= k <==> limit < (min + 1) * Pow2(k)
  {
    var power := (min + 1) * Pow2(k);
    if k == 0 {
      assert power == min + 1;
    } else {
      var half := (min + 1) * Pow2(k - 1);
      assert power == 2 * half;
      HalvingsAreLogarithmic(limit / 2, min, k - 1);
      if limit <= min { assert half >= min + 1; }
    }
  }

  lemma {:induction false} HalvingsMonotone(a: nat, b: nat, min: nat)
    requires a <= b
    ensures Halvings(a, min) <= Halvings(b, min)
  {
    if a > min { HalvingsMonotone(a / 2, b / 2, min); }
  }

  /**
   * From any reachable state: complete the window under way with any samples, then take at least
   * Halvings(max, min) slow windows, each at least half slow, and the cap is at its floor.
   */
  lemma {:induction false} FloorReached(p: Limiter, first: seq<Sample>, blocks: seq<seq<Sample>>)
    requires Bounded(p) && |p.samples| + |first| == p.window && forall i | 0 <= i < |first| :: Usable(first[i])
    requires Windows(blocks, p.window) && forall k | 0 <= k < |blocks| :: SlowWindow(blocks[k])
    requires |blocks| >= Halvings(p.max, p.min)
    ensures ObservedAll(p, first + Concat(blocks)).limit == p.min
  {
    var q := ObservedAll(p, first);
    ObservedAppend(p, first, Concat(blocks));
    FillWindow(p, first);
    BoundedKeptAll(p, first);
    SlowTrajectory(q, blocks);
    HalvingsMonotone(q.limit, p.max, p.min);
    HalvingsAreLogarithmic(q.limit, p.min, |blocks|);
    QuotientBound(q.limit, Pow2(|blocks|), p.min + 1);
    Commute(p.min + 1, Pow2(|blocks|));
  }

  // ---- Construction ----

  /** `newPieceLimit` clamps its arguments into a consistent limiter. */
  function New(min: int, max: int, initial: int, window: int): (p: Limiter)
    ensures Bounded(p) && p.inflight == 0 && p.samples == []
    ensures 1 <= min <= initial <= max && 1 <= window ==> p.min == min && p.max == max && p.limit == initial && p.window == window
  {
    var lo := if min < 1 then 1 else min;
    var hi := if max < lo then lo else max;
    var start := if initial < lo then lo else initial;
    Limiter(lo, hi, if window < 1 then AIMD_WINDOW else window, 0, if start > hi then hi else start, [])
  }

  datatype Options = Options(maxProviders: int, maxBags: int)

  /** Defaults for non-positive options. */
  function Effective(o: Options): (e: Options)
    ensures e.maxProviders >= 1 && e.maxBags >= 1
  {
    Options(if o.maxProviders < 1 then 40 else o.maxProviders, if o.maxBags < 1 then 4 else o.maxBags)
  }

  function CheckerLimiter(o: Options): Limiter {
    var e := Effective(o);
    var ceiling := e.maxProviders * e.maxBags;
    var floor := if AIMD_MIN_LIMIT > ceiling then ceiling else AIMD_MIN_LIMIT;
    var start := if e.maxProviders > ceiling then ceiling else e.maxProviders;
    New(floor, ceiling, if start < floor then floor else start, AIMD_WINDOW)
  }

  /** The checker's own arguments are consistent: no clamp of the constructor moves them. */
  lemma {:induction false} CheckerLimits(o: Options)
    ensures var p, e := CheckerLimiter(o), Effective(o);
            && Bounded(p) && p.max == e.maxProviders * e.maxBags && p.min == Min(AIMD_MIN_LIMIT, p.max)
            && p.limit == Max(e.maxProviders, p.min) && p.window == AIMD_WINDOW
  {
    var e := Effective(o);
    Multiple(e.maxProviders, e.maxBags);
  }

  // ---- The mutable limiter, one method per critical section ----

  class Semaphore {
    const min: nat
    const max: nat
    const window: nat
    var inflight: nat
    var limit: nat
    var samples: seq<Sample>

    ghost function Value(): Limiter
      reads this
    {
      Limiter(min, max, window, inflight, limit, samples)
    }

    constructor (min: int, max: int, initial: int, window: int)
      ensures Value() == New(min, max, initial, window)
    {
      var lo := if min < 1 then 1 else min;
      var hi := if max < lo then lo else max;
      var start := if initial < lo then lo else initial;
      if start > hi { start := hi; }
      this.min, this.max, this.window := lo, hi, if window < 1 then AIMD_WINDOW else window;
      inflight, limit, samples := 0, start, [];
    }

    /** One pass of the loop in `acquire`, from lock or wake-up to wait, return or admission. */
    method TryEnter(ended: bool) returns (r: Entry)
      modifies `inflight
      ensures r == Pass(old(Value()), ended) && Value() == Entered(old(Value()), ended)
      ensures r.Admitted? ==> inflight == old(inflight) + 1 <= limit
      ensures r.MustWait? ==> inflight == old(inflight) >= limit
    {
      if inflight >= limit {
        return if ended then Refused else MustWait;
      }
      if ended { return Refused; }
      inflight := inflight + 1;
      return Admitted;
    }

    /** Always followed by a broadcast. */
    method Release()
      modifies `inflight
      ensures Value() == Released(old(Value()))
    {
      if inflight > 0 { inflight := inflight - 1; }
    }

    /** `woke` tells whether waiters are notified: on every increase, and only then. */
    method SetLimit(next: nat) returns (woke: bool)
      modifies `limit
      ensures limit == next
      ensures woke <==> next > old(limit)
    {
      if next == limit { return false; }
      woke := next > limit;
      limit := next;
    }

    method CountRatios() returns (slow: nat, fast: nat)
      ensures slow == Slows(samples) && fast == Fasts(samples)
    {
      slow, fast := 0, 0;
      for k := 0 to |samples|
        invariant slow == Slows(samples[..k]) && fast == Fasts(samples[..k])
      {
        assert samples[..k + 1][..k] == samples[..k];
        if samples[k].elapsed * 10 > samples[k].budget * 8 { slow := slow + 1; }
        if samples[k].elapsed * 2 <= samples[k].budget { fast := fast + 1; }
      }
      assert samples[..|samples|] == samples;
    }

    method Observe(elapsed: int, budget: int) returns (woke: bool)
      requires Bounded(Value())
      modifies `limit, `samples
      ensures Value() == Observed(old(Value()), Sample(elapsed, budget)) && Bounded(Value())
      ensures woke <==> limit > old(limit)
    {
      woke := false;
      if budget <= 0 || elapsed < 0 { return; }
      samples := samples + [Sample(elapsed, budget)];
      if |samples| < window { return; }
      var slow, fast := CountRatios();
      samples := [];
      if slow * 2 >= window {
        var next := limit / 2;
        if next < min { next := min; }
        woke := SetLimit(next);
      } else if fast == window {
        var next := limit + 1;
        if next > max { next := max; }
        woke := SetLimit(next);
      }
    }
  }
}
