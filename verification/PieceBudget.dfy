/** Piece counts and the time a piece is given, in Go's fixed-width arithmetic. */
module PieceBudget {
  import opened Arithmetic
  import opened Domain

  const TWO_32: int := 0x1_0000_0000
  const TWO_63: int := 0x8000_0000_0000_0000
  const TWO_64: int := 0x1_0000_0000_0000_0000
  const MAX_INT32: int := 0x7fff_ffff

  type uint32 = x: int | 0 <= x < TWO_32
  type uint64 = x: int | 0 <= x < TWO_64
  type int64 = x: int | -TWO_63 <= x < TWO_63

  /** Nanoseconds. */
  const MILLISECOND: int64 := 1_000_000
  const DEFAULT_RLDP_TIMEOUT: int64 := 2_000_000_000

  /** Two's complement: what is left of `x` in 64 bits. */
  function Wrap64(x: int): (r: int64)
    ensures (x - r) % TWO_64 == 0
    ensures -TWO_63 <= x < TWO_63 ==> r == x
  {
    (x + TWO_63) % TWO_64 - TWO_63
  }

  /** Go's integer division rounds toward zero. */
  function TruncDiv(a: int, b: int): int
    requires b != 0
  {
    if a >= 0 then (if b > 0 then a / b else -(a / -b)) else (if b > 0 then -(-a / b) else (-a) / (-b))
  }

  // ---- Pieces ----

  function PiecesCount(fileSize: uint64, pieceSize: uint32): Option<int> {
    if pieceSize == 0 || fileSize == 0 then None
    else
      var count := fileSize / pieceSize + (if fileSize % pieceSize != 0 then 1 else 0);
      if count > MAX_INT32 then None else Some(count)
  }

  /** The pieces cover the file, all but the last are inside it, and the count fits an int32. */
  lemma {:induction false} PiecesCover(fileSize: uint64, pieceSize: uint32)
    ensures var n := PiecesCount(fileSize, pieceSize);
            n.Some? ==> 1 <= n.value <= MAX_INT32 && pieceSize * (n.value - 1) < fileSize <= pieceSize * n.value
  {
    var n := PiecesCount(fileSize, pieceSize);
    if n.Some? {
      CeilingBound(fileSize, pieceSize, n.value);
      CeilingBound(fileSize, pieceSize, 0);
      CeilingBound(fileSize, pieceSize, n.value - 1);
    }
  }

  /** The number of pieces is the least that covers the file. */
  lemma {:induction false} CeilingBound(n: nat, d: nat, k: nat)
    requires d > 0
    ensures n / d + (if n % d != 0 then 1 else 0) <= k <==> n <= d * k
  {
    var q, r := n / d, n % d;
    assert n == d * q + r;
    assert d * (q + 1) == d * q + d;
    if k < q {
      MulMonotone(d, k + 1, q);
      assert d * (k + 1) == d * k + d;
    } else if k > q {
      MulMonotone(d, q + 1, k);
    }
  }

  /** A count is refused exactly for an empty size or a file that 2^31 - 1 pieces cannot cover. */
  lemma {:induction false} PiecesRefused(fileSize: uint64, pieceSize: uint32)
    ensures PiecesCount(fileSize, pieceSize).None? <==> pieceSize == 0 || fileSize == 0 || fileSize > pieceSize * MAX_INT32
  {
    if pieceSize > 0 && fileSize > 0 { CeilingBound(fileSize, pieceSize, MAX_INT32); }
  }

  /** Every piece the random draw can ask for starts inside the file. */
  lemma {:induction false} DrawnPieceExists(fileSize: uint64, pieceSize: uint32, pieceID: nat)
    requires PiecesCount(fileSize, pieceSize).Some? && pieceID < PiecesCount(fileSize, pieceSize).value
    ensures pieceID * pieceSize < fileSize && pieceID < MAX_INT32
  {
    var n := PiecesCount(fileSize, pieceSize).value;
    PiecesCover(fileSize, pieceSize);
    MulMonotone(pieceSize, pieceID, n - 1);
  }

  // ---- The budget ----

  function TimeoutFromMs(ms: uint32, fallback: int64): (d: int64)
    ensures ms > 0 ==> 0 < d == ms * MILLISECOND < 5_000_000 * SECOND
    ensures ms == 0 ==> d == fallback
  {
    if ms == 0 then fallback else ms * MILLISECOND
  }

  function PieceTimeout(pieceSize: uint32, base: int64, minBPS: uint64, cap: int64): int64 {
    if minBPS == 0 || pieceSize == 0 || base <= 0 then (if base < 0 then 0 else base)
    else
      assert Wrap64(minBPS) != 0 by { SignedRate(minBPS); }
      var extra := TruncDiv(Wrap64(pieceSize * SECOND), Wrap64(minBPS));
      var d := Wrap64(base + extra);
      if cap > 0 && d > cap then cap else d
  }

  lemma {:induction false} SignedRate(minBPS: uint64)
    ensures Wrap64(minBPS) == if minBPS < TWO_63 then minBPS else minBPS - TWO_64
  {
  }

  /** Nanoseconds the piece needs at `minBPS`, over the integers. */
  function TransferTime(pieceSize: uint32, minBPS: uint64): nat
    requires minBPS > 0
  {
    pieceSize * SECOND / minBPS
  }

  function Clamp(d: int, cap: int): int { if cap > 0 && d > cap then cap else d }

  /** The documented deadline, over the integers. */
  function Ideal(pieceSize: uint32, base: int64, minBPS: uint64, cap: int64): int
    requires minBPS > 0
  {
    Clamp(base + TransferTime(pieceSize, minBPS), cap)
  }

  predicate Timed(pieceSize: uint32, base: int64, minBPS: uint64) { pieceSize > 0 && base > 0 && minBPS > 0 }

  /** What a rate of 2^63 or more, read as a negative int64, takes off the base. */
  function SignError(pieceSize: uint32, minBPS: uint64): nat
    requires minBPS >= TWO_63
  {
    pieceSize * SECOND / (TWO_64 - minBPS)
  }

  /** What the caller has to check: the rate is a positive int64 and the sum fits, or the wrong sign does no harm. */
  predicate Faithful(pieceSize: uint32, base: int64, minBPS: uint64, cap: int64)
    requires minBPS > 0
  {
    if minBPS < TWO_63 then base + TransferTime(pieceSize, minBPS) < TWO_63
    else SignError(pieceSize, minBPS) == 0 || (cap > 0 && base - SignError(pieceSize, minBPS) >= cap)
  }

  lemma {:induction false} TransferBound(pieceSize: uint32, rate: nat)
    requires rate > 0
    ensures 0 <= pieceSize * SECOND / rate <= pieceSize * SECOND < TWO_63
  {
    QuotientMonotone(pieceSize * SECOND, pieceSize * SECOND, rate, 1);
  }

  /** For a rate that is a positive int64. */
  lemma {:induction false} PositiveRate(pieceSize: uint32, base: int64, minBPS: uint64, cap: int64)
    requires Timed(pieceSize, base, minBPS) && minBPS < TWO_63
    ensures PieceTimeout(pieceSize, base, minBPS, cap) == Ideal(pieceSize, base, minBPS, cap)
            <==> base + TransferTime(pieceSize, minBPS) < TWO_63
  {
    SignedRate(minBPS);
    TransferBound(pieceSize, minBPS);
    var sum := base + TransferTime(pieceSize, minBPS);
    if sum >= TWO_63 { Overflowed(sum); }
  }

  lemma {:induction false} Overflowed(sum: int)
    requires TWO_63 <= sum < 2 * TWO_63
    ensures Wrap64(sum) == sum - TWO_64 < 0
  {
  }

  /** A rate of 2^63 or more is read as negative, so a transfer time is subtracted where none should be added. */
  lemma {:induction false} NegativeRate(pieceSize: uint32, base: int64, minBPS: uint64, cap: int64)
    requires Timed(pieceSize, base, minBPS) && minBPS >= TWO_63
    ensures PieceTimeout(pieceSize, base, minBPS, cap) == Clamp(base - SignError(pieceSize, minBPS), cap)
    ensures Ideal(pieceSize, base, minBPS, cap) == Clamp(base, cap)
  {
    SignedRate(minBPS);
    TransferBound(pieceSize, TWO_64 - minBPS);
    TransferBound(pieceSize, minBPS);
    QuotientIs(pieceSize * SECOND, minBPS, 0, pieceSize * SECOND);
  }

  lemma {:induction false} ClampHides(base: int, error: nat, cap: int)
    ensures Clamp(base - error, cap) == Clamp(base, cap) <==> error == 0 || (cap > 0 && base - error >= cap)
  {
  }

  /** The code computes the documented deadline exactly when `Faithful` holds. */
  lemma {:induction false} DeadlineExactIff(pieceSize: uint32, base: int64, minBPS: uint64, cap: int64)
    requires Timed(pieceSize, base, minBPS)
    ensures PieceTimeout(pieceSize, base, minBPS, cap) == Ideal(pieceSize, base, minBPS, cap)
            <==> Faithful(pieceSize, base, minBPS, cap)
  {
    if minBPS < TWO_63 {
      PositiveRate(pieceSize, base, minBPS, cap);
    } else {
      NegativeRate(pieceSize, base, minBPS, cap);
      ClampHides(base, SignError(pieceSize, minBPS), cap);
    }
  }

  /** The base timeouts a request can carry are far from overflow. */
  lemma {:induction false} RequestBase(pieceSize: uint32, ms: uint32, minBPS: uint64, cap: int64)
    requires pieceSize > 0 && 0 < minBPS < TWO_63
    ensures var base := TimeoutFromMs(ms, DEFAULT_RLDP_TIMEOUT);
            && PieceTimeout(pieceSize, base, minBPS, cap) == Ideal(pieceSize, base, minBPS, cap) > 0
            && (cap > 0 ==> PieceTimeout(pieceSize, base, minBPS, cap) <= cap)
  {
    var base := TimeoutFromMs(ms, DEFAULT_RLDP_TIMEOUT);
    TransferBound(pieceSize, minBPS);
    DeadlineExactIff(pieceSize, base, minBPS, cap);
  }

  /** Larger pieces never get less time, faster floors never more. */
  lemma {:induction false} DeadlineMonotone(size: uint32, size': uint32, base: int64, minBPS: uint64, minBPS': uint64, cap: int64)
    requires 0 < size <= size' && base > 0 && 0 < minBPS' <= minBPS < TWO_63
    requires base + TransferTime(size', minBPS') < TWO_63
    ensures PieceTimeout(size, base, minBPS, cap) <= PieceTimeout(size', base, minBPS', cap)
  {
    QuotientMonotone(size * SECOND, size' * SECOND, minBPS, minBPS');
    PositiveRate(size, base, minBPS, cap);
    PositiveRate(size', base, minBPS', cap);
  }

  /** The early return ignores the cap: the result respects it if and only if that branch is not taken or the base does. */
  lemma {:induction false} WithinCapIff(size: uint32, base: int64, minBPS: uint64, cap: int64)
    requires cap > 0
    ensures PieceTimeout(size, base, minBPS, cap) <= cap <==> Timed(size, base, minBPS) || base <= cap
  {
  }

  /** No caller takes the early return: a counted piece, a positive rate and a request's timeout stay within the cap. */
  lemma {:induction false} RequestWithinCap(fileSize: uint64, pieceSize: uint32, ms: uint32, minBPS: uint64, cap: int64)
    requires PiecesCount(fileSize, pieceSize).Some? && minBPS > 0 && cap > 0
    ensures var base := TimeoutFromMs(ms, DEFAULT_RLDP_TIMEOUT);
            Timed(pieceSize, base, minBPS) && PieceTimeout(pieceSize, base, minBPS, cap) <= cap
  {
    WithinCapIff(pieceSize, TimeoutFromMs(ms, DEFAULT_RLDP_TIMEOUT), minBPS, cap);
  }

  /** With the fastest rate a uint64 can hold, a one-byte piece loses a second and a two-second base becomes one. */
  lemma {:induction false} HugeRateShortensDeadline()
    ensures PieceTimeout(1, DEFAULT_RLDP_TIMEOUT, TWO_64 - 1, 15 * SECOND) == SECOND
    ensures Ideal(1, DEFAULT_RLDP_TIMEOUT, TWO_64 - 1, 15 * SECOND) == DEFAULT_RLDP_TIMEOUT
    ensures PieceTimeout(4, DEFAULT_RLDP_TIMEOUT, TWO_64 - 1, 15 * SECOND) < 0
  {
    NegativeRate(1, DEFAULT_RLDP_TIMEOUT, TWO_64 - 1, 15 * SECOND);
    NegativeRate(4, DEFAULT_RLDP_TIMEOUT, TWO_64 - 1, 15 * SECOND);
  }
}
