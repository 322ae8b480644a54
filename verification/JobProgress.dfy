/** The lock-free progress log: concurrent `advance` calls on two atomics. */
module JobProgress {
  import opened Arithmetic
  import opened Domain
  import RQ = Requests
  import WP = WorkerPool

  /** Program counter of one `advance(n)` call, between two atomic operations. */
  datatype Pc = Start | Added | Loaded(next: nat) | Returned

  /** `current` is the value its atomic add returned, once it has run. */
  datatype Call = Call(n: nat, current: nat, pc: Pc)

  datatype Job = Job(total: nat, step: nat, processed: nat, nextLogAt: nat, lines: seq<nat>, calls: seq<Call>)


  function AmountOf(calls: seq<Call>): nat { if calls == [] then 0 else calls[0].n + AmountOf(calls[1..]) }
  function AddedOf(calls: seq<Call>): nat {
    if calls == [] then 0 else (if calls[0].pc.Start? then 0 else calls[0].n) + AddedOf(calls[1..])
  }

  ghost predicate Initial(j: Job) {
    && j.total > 0 && j.step > 0 && j.processed == 0 && j.lines == [] && j.nextLogAt == Min(j.step, j.total)
    && (forall t | 0 <= t < |j.calls| :: j.calls[t].pc.Start? && j.calls[t].n > 0)
    && AmountOf(j.calls) <= j.total
  }

  // ---- Steps ----

  /** The value a successful compare-and-swap installs. */
  function NewNext(j: Job, next: nat): nat { if next >= j.total then 0 else Min(next + j.step, j.total) }

  predicate Quits(j: Job, current: nat, next: nat) { next == 0 || (current < next && current < j.total) }

  predicate Enabled(j: Job, t: nat) { t < |j.calls| && !j.calls[t].pc.Returned? }

  /** The next atomic operation of call `t`. */
  function Apply(j: Job, t: nat): Job
    requires Enabled(j, t)
  {
    var c := j.calls[t];
    match c.pc
    case Start =>
      j.(processed := j.processed + c.n, calls := j.calls[t := c.(current := j.processed + c.n, pc := Added)])
    case Added => j.(calls := j.calls[t := c.(pc := Loaded(j.nextLogAt))])
    case Loaded(next) =>
      if Quits(j, c.current, next) then j.(calls := j.calls[t := c.(pc := Returned)])
      else if j.nextLogAt != next then j.(calls := j.calls[t := c.(pc := Added)])
      else j.(nextLogAt := NewNext(j, next), lines := j.lines + [Min(c.current, j.total)], calls := j.calls[t := c.(pc := Returned)])
    case Returned => j
  }

  function Exec(j0: Job, run: seq<nat>): Option<Job> {
    if run == [] then Some(j0)
    else
      var m := Exec(j0, run[..|run| - 1]);
      if m.Some? && Enabled(m.value, run[|run| - 1]) then Some(Apply(m.value, run[|run| - 1])) else None
  }

  ghost predicate AllReturned(j: Job) { forall t | 0 <= t < |j.calls| :: j.calls[t].pc.Returned? }

  // ---- How many lines are left ----

  /** Values `nextLogAt` still takes before it is 0: step, 2 * step, ..., total. */
  function TicksLeft(total: nat, step: nat, next: nat): nat
    requires step > 0
    decreases if next == 0 then 0 else if next >= total then 1 else total - next + 2
  {
    if next == 0 then 0 else if next >= total then 1 else 1 + TicksLeft(total, step, Min(next + step, total))
  }

  function CeilDiv(a: nat, b: nat): nat
    requires b > 0
  {
    (a + b - 1) / b
  }

  lemma {:induction false} DivByOneMore(x: nat, step: nat)
    requires step > 0
    ensures (x + step) / step == x / step + 1
  {
    assert x + step == step * (x / step + 1) + x % step;
    QuotientIs(x + step, step, x / step + 1, x % step);
  }

  lemma {:induction false} TicksAreCeiling(total: nat, step: nat, next: nat)
    requires step > 0 && 0 < next <= total
    ensures TicksLeft(total, step, next) == 1 + CeilDiv(total - next, step)
    decreases total - next
  {
    if next == total {
      QuotientIs(step - 1, step, 0, step - 1);
    } else if next + step <= total {
      TicksAreCeiling(total, step, next + step);
      DivByOneMore(total - next - 1, step);
      assert total - next + step - 1 == (total - next - 1) + step;
    } else {
      TicksAreCeiling(total, step, total);
      QuotientIs(total - next + step - 1, step, 1, total - next - 1);
      QuotientIs(step - 1, step, 0, step - 1);
    }
  }

  /** At most ceil(total / step) lines follow the initial one. */
  lemma {:induction false} InitialTicks(total: nat, step: nat)
    requires total > 0 && step > 0
    ensures TicksLeft(total, step, Min(step, total)) == CeilDiv(total, step)
  {
    TicksAreCeiling(total, step, Min(step, total));
    if step <= total {
      DivByOneMore(total - 1, step);
      assert total + step - 1 == (total - 1) + step;
    } else {
      QuotientIs(total + step - 1, step, 1, total - 1);
      QuotientIs(step - 1, step, 0, step - 1);
    }
  }

  // ---- Invariant ----

  function FullLines(lines: seq<nat>, total: nat): nat {
    if lines == [] then 0 else FullLines(lines[..|lines| - 1], total) + One(lines[|lines| - 1] == total)
  }

  predicate IsLast(j: Job, c: Call) { !c.pc.Start? && c.current == j.total }

  predicate Began(j: Job, t: int) { 0 <= t < |j.calls| && !j.calls[t].pc.Start? }

  /** The sums handed out by the atomic add are positive, at most `processed` and pairwise different. */
  ghost predicate Separate(j: Job) {
    && (forall t | Began(j, t) :: 0 < j.calls[t].current <= j.processed)
    && (forall t, u | Began(j, t) && Began(j, u) && t != u :: j.calls[t].current != j.calls[u].current)
  }

  ghost predicate Reached(j: Job) {
    j.processed > 0 ==> exists t :: Began(j, t) && j.calls[t].current == j.processed
  }

  ghost predicate Sums(j: Job) {
    && j.processed == AddedOf(j.calls) && AmountOf(j.calls) <= j.total
    && (forall t | 0 <= t < |j.calls| :: j.calls[t].n > 0)
  }

  ghost predicate Counted(j: Job) { Sums(j) && Separate(j) && Reached(j) }

  ghost predicate Logged(j: Job) {
    && j.step > 0 && j.nextLogAt <= j.total
    && |j.lines| + TicksLeft(j.total, j.step, j.nextLogAt) == TicksLeft(j.total, j.step, Min(j.step, j.total))
    && (forall t | 0 <= t < |j.calls| && j.calls[t].pc == Loaded(0) :: j.nextLogAt == 0)
  }

  /** The call whose add reached the total: until it returns there is no final line, then there is one. */
  ghost predicate FinalLine(j: Job) {
    && j.total > 0
    && (forall t | 0 <= t < |j.calls| && IsLast(j, j.calls[t]) ::
          FullLines(j.lines, j.total) == One(j.calls[t].pc.Returned?) && (!j.calls[t].pc.Returned? ==> j.nextLogAt != 0))
    && ((forall t | 0 <= t < |j.calls| :: !IsLast(j, j.calls[t])) ==> FullLines(j.lines, j.total) == 0 && j.nextLogAt != 0)
  }

  ghost predicate Inv(j: Job) { Counted(j) && Logged(j) && FinalLine(j) }

  lemma {:induction false} AddedUpdate(calls: seq<Call>, t: nat, c: Call)
    requires t < |calls| && c.n == calls[t].n
    ensures AmountOf(calls[t := c]) == AmountOf(calls)
    ensures AddedOf(calls[t := c]) + (if calls[t].pc.Start? then 0 else c.n) == AddedOf(calls) + (if c.pc.Start? then 0 else c.n)
    ensures calls[t].pc.Start? ==> AddedOf(calls) + c.n <= AmountOf(calls)
    ensures AddedOf(calls) <= AmountOf(calls)
  {
    if t == 0 {
      assert calls[0 := c][1..] == calls[1..];
      AddedAtMost(calls[1..]);
    } else {
      AddedUpdate(calls[1..], t - 1, c);
      assert calls[t := c][1..] == calls[1..][t - 1 := c];
    }
  }

  lemma {:induction false} AddedAtMost(calls: seq<Call>)
    ensures AddedOf(calls) <= AmountOf(calls)
  {
    if calls != [] { AddedAtMost(calls[1..]); }
  }

  lemma {:induction false} SumsStep(j: Job, t: nat)
    requires Sums(j) && Enabled(j, t)
    ensures Sums(Apply(j, t)) && j.processed <= Apply(j, t).processed <= j.total
  {
    AddedUpdate(j.calls, t, Apply(j, t).calls[t]);
  }

  /** What a step does to the calls: only call `t` moves, and only its add sets `current`. */
  lemma {:induction false} StepCalls(j: Job, t: nat)
    requires Enabled(j, t)
    ensures var k := Apply(j, t);
            && |k.calls| == |j.calls| && k.total == j.total && k.step == j.step
            && (forall u | 0 <= u < |j.calls| && u != t :: k.calls[u] == j.calls[u])
            && !k.calls[t].pc.Start? && k.calls[t].n == j.calls[t].n
            && (if j.calls[t].pc.Start? then k.processed == j.processed + j.calls[t].n && k.calls[t].current == k.processed
                else k.processed == j.processed && k.calls[t].current == j.calls[t].current)
  {
  }

  lemma {:induction false} SeparateStep(j: Job, k: Job, t: nat)
    requires Sums(j) && Separate(j) && Enabled(j, t) && k == Apply(j, t)
    ensures Separate(k)
  {
    StepCalls(j, t);
    forall u | Began(k, u) ensures 0 < k.calls[u].current <= k.processed && (u != t ==> Began(j, u)) {
      assert u != t ==> Began(j, u);
    }
    forall u, v | Began(k, u) && Began(k, v) && u != v ensures k.calls[u].current != k.calls[v].current {
      assert u != t ==> Began(j, u);
      assert v != t ==> Began(j, v);
    }
  }

  lemma {:induction false} ReachedStep(j: Job, k: Job, t: nat)
    requires Reached(j) && Enabled(j, t) && k == Apply(j, t)
    ensures Reached(k)
  {
    StepCalls(j, t);
    if j.calls[t].pc.Start? {
      assert Began(k, t);
    } else if j.processed > 0 {
      var u :| Began(j, u) && j.calls[u].current == j.processed;
      assert Began(k, u) && k.calls[u].current == k.processed;
    }
  }

  lemma {:induction false} CountedStep(j: Job, t: nat)
    requires Counted(j) && Enabled(j, t)
    ensures Counted(Apply(j, t)) && j.processed <= Apply(j, t).processed <= j.total
  {
    SumsStep(j, t);
    SeparateStep(j, Apply(j, t), t);
    ReachedStep(j, Apply(j, t), t);
  }

  lemma {:induction false} LoggedStep(j: Job, t: nat)
    requires Logged(j) && j.total > 0 && Enabled(j, t)
    ensures Logged(Apply(j, t))
  {
  }

  lemma {:induction false} FullLinesSnoc(lines: seq<nat>, x: nat, total: nat)
    ensures FullLines(lines + [x], total) == FullLines(lines, total) + One(x == total)
  {
    assert (lines + [x])[..|lines|] == lines;
  }

  predicate Wins(j: Job, c: Call) { c.pc.Loaded? && !Quits(j, c.current, c.pc.next) && j.nextLogAt == c.pc.next }

  /** What a step writes: at most one line, by a call that wins its swap. */
  ghost predicate Wrote(j: Job, k: Job, c: Call, c': Call) {
    if Wins(j, c) then
      && k.nextLogAt == NewNext(j, j.nextLogAt) && c'.pc.Returned?
      && FullLines(k.lines, j.total) == FullLines(j.lines, j.total) + One(Min(c.current, j.total) == j.total)
    else
      && k.nextLogAt == j.nextLogAt && k.lines == j.lines
      && (c'.pc.Returned? ==> c.pc.Loaded? && Quits(j, c.current, c.pc.next))
  }

  lemma {:induction false} StepLines(j: Job, t: nat)
    requires Enabled(j, t)
    ensures Wrote(j, Apply(j, t), j.calls[t], Apply(j, t).calls[t])
  {
    FullLinesSnoc(j.lines, Min(j.calls[t].current, j.total), j.total);
  }

  /** A call short of the total can neither write the final line nor clear `nextLogAt`. */
  lemma {:induction false} ShortCall(j: Job, k: Job, c: Call, c': Call)
    requires Wrote(j, k, c, c') && 0 < c.current < j.total && j.step > 0
    ensures FullLines(k.lines, j.total) == FullLines(j.lines, j.total) && (j.nextLogAt != 0 ==> k.nextLogAt != 0)
  {
  }

  /** The last call only stops on the swap that writes the final line. */
  lemma {:induction false} LastCall(j: Job, k: Job, c: Call, c': Call)
    requires Wrote(j, k, c, c') && c.current == j.total && FullLines(j.lines, j.total) == 0 && j.nextLogAt != 0
    requires c.pc != Loaded(0)
    ensures FullLines(k.lines, j.total) == One(c'.pc.Returned?) && (!c'.pc.Returned? ==> k.nextLogAt != 0)
  {
  }

  lemma {:induction false} AddCall(j: Job, t: nat)
    requires Enabled(j, t) && j.calls[t].pc.Start?
    ensures Apply(j, t).lines == j.lines && Apply(j, t).nextLogAt == j.nextLogAt && Apply(j, t).calls[t].pc.Added?
  {
  }

  /** Before and after a step the same calls have reached the total, apart from one that just did. */
  lemma {:induction false} LastStep(j: Job, k: Job, t: nat, u: nat)
    requires Inv(j) && Enabled(j, t) && k == Apply(j, t) && Separate(k) && u < |k.calls| && IsLast(k, k.calls[u])
    ensures FullLines(k.lines, k.total) == One(k.calls[u].pc.Returned?) && (!k.calls[u].pc.Returned? ==> k.nextLogAt != 0)
  {
    StepCalls(j, t);
    assert Began(k, u) && Began(k, t);
    if t != u {
      assert IsLast(j, j.calls[u]);
      if j.calls[t].pc.Start? {
        AddCall(j, t);
      } else {
        assert Began(j, t) && Began(j, u);
        AddedAtMost(j.calls);
        StepLines(j, t);
        ShortCall(j, k, j.calls[t], k.calls[t]);
      }
    } else if j.calls[t].pc.Start? {
      AddCall(j, t);
      forall v | 0 <= v < |j.calls| ensures !IsLast(j, j.calls[v]) {
        assert Began(j, v) ==> j.calls[v].current <= j.processed;
      }
    } else {
      StepLines(j, t);
      LastCall(j, k, j.calls[t], k.calls[t]);
    }
  }

  lemma {:induction false} NoLastStep(j: Job, k: Job, t: nat)
    requires Inv(j) && Enabled(j, t) && k == Apply(j, t) && k.processed <= j.total
    requires forall u | 0 <= u < |k.calls| :: !IsLast(k, k.calls[u])
    ensures FullLines(k.lines, k.total) == 0 && k.nextLogAt != 0
  {
    StepCalls(j, t);
    forall v | 0 <= v < |j.calls| ensures !IsLast(j, j.calls[v]) {
      assert !IsLast(k, k.calls[v]);
    }
    if j.calls[t].pc.Start? {
      AddCall(j, t);
    } else {
      assert Began(j, t);
      StepLines(j, t);
      ShortCall(j, k, j.calls[t], k.calls[t]);
    }
  }

  lemma {:induction false} FinalLineStep(j: Job, t: nat)
    requires Inv(j) && Enabled(j, t)
    ensures FinalLine(Apply(j, t))
  {
    var k := Apply(j, t);
    CountedStep(j, t);
    forall u | 0 <= u < |k.calls| && IsLast(k, k.calls[u])
      ensures FullLines(k.lines, k.total) == One(k.calls[u].pc.Returned?) && (!k.calls[u].pc.Returned? ==> k.nextLogAt != 0)
    {
      LastStep(j, k, t, u);
    }
    if forall u | 0 <= u < |k.calls| :: !IsLast(k, k.calls[u]) {
      NoLastStep(j, k, t);
    }
  }

  lemma {:induction false} InvInit(j: Job)
    requires Initial(j)
    ensures Inv(j)
  {
    NothingAdded(j.calls);
  }

  lemma {:induction false} NothingAdded(calls: seq<Call>)
    requires forall t | 0 <= t < |calls| :: calls[t].pc.Start?
    ensures AddedOf(calls) == 0
  {
    if calls != [] { NothingAdded(calls[1..]); }
  }

  lemma {:induction false} EverythingAdded(calls: seq<Call>)
    requires forall t | 0 <= t < |calls| :: !calls[t].pc.Start?
    ensures AddedOf(calls) == AmountOf(calls)
  {
    if calls != [] { EverythingAdded(calls[1..]); }
  }

  lemma {:induction false} AmountKept(j: Job, t: nat)
    requires Enabled(j, t)
    ensures var k := Apply(j, t);
            AmountOf(k.calls) == AmountOf(j.calls) && |k.calls| == |j.calls| && k.total == j.total && k.step == j.step
  {
    AddedUpdate(j.calls, t, Apply(j, t).calls[t]);
  }

  lemma {:induction false} InvReachable(j0: Job, run: seq<nat>)
    requires Initial(j0) && Exec(j0, run).Some?
    ensures var j := Exec(j0, run).value;
            Inv(j) && AmountOf(j.calls) == AmountOf(j0.calls) && |j.calls| == |j0.calls| && j.total == j0.total && j.step == j0.step
  {
    if run == [] {
      InvInit(j0);
    } else {
      var n := |run| - 1;
      InvReachable(j0, run[..n]);
      var m := Exec(j0, run[..n]).value;
      CountedStep(m, run[n]);
      LoggedStep(m, run[n]);
      FinalLineStep(m, run[n]);
      AmountKept(m, run[n]);
    }
  }

  /**
   * In every interleaving, when all calls have returned: at most ceil(total / step) lines were
   * written, and exactly one of them reports the total if and only if the calls add up to it.
   */
  lemma {:induction false} LogIsComplete(j0: Job, run: seq<nat>)
    requires Initial(j0) && Exec(j0, run).Some? && AllReturned(Exec(j0, run).value)
    ensures var j := Exec(j0, run).value;
            && |j.lines| <= CeilDiv(j0.total, j0.step)
            && FullLines(j.lines, j0.total) == One(AmountOf(j0.calls) == j0.total)
  {
    InvReachable(j0, run);
    var j := Exec(j0, run).value;
    InitialTicks(j.total, j.step);
    EverythingAdded(j.calls);
    if AmountOf(j.calls) == j.total {
      var t :| Began(j, t) && j.calls[t].current == j.processed;
      assert IsLast(j, j.calls[t]);
    } else {
      forall t | 0 <= t < |j.calls| ensures !IsLast(j, j.calls[t]) { assert Began(j, t); }
    }
  }

  // ---- What the lines say ----

  /** Every line reports the sum that some call's add returned. */
  ghost predicate LinesAreSums(j: Job) {
    forall n | 0 <= n < |j.lines| :: IsSum(j, j.lines[n])
  }

  ghost predicate IsSum(j: Job, x: nat) { exists t :: Began(j, t) && j.calls[t].current == x }

  lemma {:induction false} SumStays(j: Job, k: Job, t: nat, x: nat)
    requires Enabled(j, t) && k == Apply(j, t) && IsSum(j, x)
    ensures IsSum(k, x)
  {
    StepCalls(j, t);
    var u :| Began(j, u) && j.calls[u].current == x;
    assert Began(k, u) && k.calls[u].current == x;
  }

  lemma {:induction false} LinesStep(j: Job, k: Job, t: nat)
    requires Counted(j) && LinesAreSums(j) && Enabled(j, t) && k == Apply(j, t)
    ensures LinesAreSums(k)
  {
    AddedAtMost(j.calls);
    forall n | 0 <= n < |k.lines| ensures IsSum(k, k.lines[n]) {
      if n < |j.lines| {
        SumStays(j, k, t, j.lines[n]);
      } else {
        assert Began(j, t) && j.calls[t].current == k.lines[n];
        SumStays(j, k, t, k.lines[n]);
      }
    }
  }

  lemma {:induction false} LinesReachable(j0: Job, run: seq<nat>)
    requires Initial(j0) && Exec(j0, run).Some?
    ensures LinesAreSums(Exec(j0, run).value)
  {
    if run != [] {
      var n := |run| - 1;
      LinesReachable(j0, run[..n]);
      InvReachable(j0, run[..n]);
      LinesStep(Exec(j0, run[..n]).value, Exec(j0, run).value, run[n]);
    }
  }

  // ---- Termination of the retry loop ----

  function Rank(c: Call, next: nat): nat {
    match c.pc
    case Start => 5
    case Added => 3
    case Loaded(n) => if n == next then 2 else 4
    case Returned => 0
  }

  function Ranks(calls: seq<Call>, next: nat): nat {
    if calls == [] then 0 else Rank(calls[0], next) + Ranks(calls[1..], next)
  }

  lemma {:induction false} RanksUpdate(calls: seq<Call>, t: nat, c: Call, next: nat)
    requires t < |calls|
    ensures Ranks(calls[t := c], next) + Rank(calls[t], next) == Ranks(calls, next) + Rank(c, next)
  {
    if t == 0 {
      assert calls[0 := c][1..] == calls[1..];
    } else {
      RanksUpdate(calls[1..], t - 1, c, next);
      assert calls[t := c][1..] == calls[1..][t - 1 := c];
    }
  }

  lemma {:induction false} RanksBound(calls: seq<Call>, next: nat)
    ensures Ranks(calls, next) <= 5 * |calls|
  {
    if calls != [] { RanksBound(calls[1..], next); }
  }

  /** A failed swap makes progress of its own; a successful one uses up a tick. */
  lemma {:induction false} StepProgress(j: Job, t: nat)
    requires Logged(j) && j.total > 0 && Enabled(j, t)
    ensures var k := Apply(j, t);
            var before, after := TicksLeft(j.total, j.step, j.nextLogAt), TicksLeft(k.total, k.step, k.nextLogAt);
            || after + 1 == before
            || (after == before && Ranks(k.calls, k.nextLogAt) < Ranks(j.calls, j.nextLogAt))
  {
    RanksUpdate(j.calls, t, Apply(j, t).calls[t], j.nextLogAt);
  }

  function Measure(j: Job): nat
    requires j.step > 0
  {
    TicksLeft(j.total, j.step, j.nextLogAt) * (5 * |j.calls| + 1) + Ranks(j.calls, j.nextLogAt)
  }

  lemma {:induction false} MeasureDecreases(j: Job, t: nat)
    requires Logged(j) && j.total > 0 && Enabled(j, t)
    ensures Apply(j, t).step == j.step && Measure(Apply(j, t)) < Measure(j)
  {
    var k := Apply(j, t);
    StepProgress(j, t);
    RanksBound(k.calls, k.nextLogAt);
    Lexicographic(TicksLeft(j.total, j.step, j.nextLogAt), TicksLeft(k.total, k.step, k.nextLogAt), 5 * |j.calls|,
                  Ranks(j.calls, j.nextLogAt), Ranks(k.calls, k.nextLogAt));
  }

  /** Every interleaving of the compare-and-swap loops is finite. */
  lemma {:induction false} RunsAreFinite(j0: Job, run: seq<nat>)
    requires Initial(j0) && Exec(j0, run).Some?
    ensures Exec(j0, run).value.step > 0 && |run| + Measure(Exec(j0, run).value) <= Measure(j0)
  {
    if run != [] {
      var n := |run| - 1;
      RunsAreFinite(j0, run[..n]);
      InvReachable(j0, run[..n]);
      MeasureDecreases(Exec(j0, run[..n]).value, run[n]);
    }
  }

  // ---- What the provider paths advance ----

  type Contracts = seq<Option<ContractRef>>

  /** `totalContracts` of a job: nil contracts are counted. */
  function Announced(providers: seq<Contracts>): nat {
    if providers == [] then 0 else Announced(providers[..|providers| - 1]) + |providers[|providers| - 1]|
  }

  /** How the check of one provider goes. */
  datatype Path =
    | Idle                                                                 // nothing to check, nothing advanced
    | Unreachable                                                          // one advance by the rows filled in
    | Pooled(s0: WP.State, run: seq<WP.Action>, threshold: nat)            // one advance per contract handled

  ghost predicate Possible(cs: Contracts, path: Path) {
    match path
    case Idle => Somes(cs) == []
    case Unreachable => true
    case Pooled(s0, run, threshold) =>
      WP.Initial(s0, threshold) && s0.contracts == cs && WP.Exec(s0, run).Some? && WP.Exec(s0, run).value.disp.Finished?
  }

  function Ones(n: nat): (s: seq<nat>)
    ensures |s| == n && forall i | 0 <= i < n :: s[i] == 1
  {
    if n == 0 then [] else Ones(n - 1) + [1]
  }

  /** The amounts of the advance calls of one path; `advance(0)` returns at once. */
  ghost function Amounts(cs: Contracts, path: Path): seq<nat>
    requires Possible(cs, path)
  {
    match path
    case Idle => []
    case Unreachable => if Somes(cs) == [] then [] else [|Somes(cs)|]
    case Pooled(s0, run, _) => Ones(WP.Exec(s0, run).value.sh.advanced)
  }

  function Total(amounts: seq<nat>): nat { Sum((k: nat) => k, amounts) }

  lemma {:induction false} TotalConcat(a: seq<nat>, b: seq<nat>)
    ensures Total(a + b) == Total(a) + Total(b)
  {
    SumConcat((k: nat) => k, a, b);
  }

  lemma {:induction false} TotalOne(n: nat)
    ensures Total([n]) == n
  {
    var id := (k: nat) => k;
    assert [n][..0] == [];
    assert Sum(id, [n]) == Sum(id, []) + id(n);
  }

  lemma {:induction false} TotalOnes(n: nat)
    ensures Total(Ones(n)) == n
  {
    if n > 0 {
      TotalOnes(n - 1);
      TotalConcat(Ones(n - 1), [1]);
      TotalOne(1);
    }
  }

  /** Every path advances once per non-nil contract. */
  lemma {:induction false} PathAdvances(cs: Contracts, path: Path)
    requires Possible(cs, path)
    ensures Total(Amounts(cs, path)) == |Somes(cs)|
    ensures forall i | 0 <= i < |Amounts(cs, path)| :: Amounts(cs, path)[i] > 0
  {
    match path
    case Idle =>
    case Unreachable => TotalOne(|Somes(cs)|);
    case Pooled(s0, run, threshold) =>
      WP.PoolExactlyOnce(s0, run, threshold);
      WP.RefsAreLeft(cs, 0);
      assert cs[0..] == cs;
      TotalOnes(WP.Exec(s0, run).value.sh.advanced);
  }

  ghost predicate AllPossible(providers: seq<Contracts>, paths: seq<Path>) {
    |providers| == |paths| && forall k | 0 <= k < |paths| :: Possible(providers[k], paths[k])
  }

  ghost function AllAmounts(providers: seq<Contracts>, paths: seq<Path>): seq<nat>
    requires AllPossible(providers, paths)
  {
    if paths == [] then []
    else
      var n := |paths| - 1;
      AllAmounts(providers[..n], paths[..n]) + Amounts(providers[n], paths[n])
  }

  ghost predicate NoNil(cs: Contracts) { None !in cs }

  lemma {:induction false} SomesAreAll(cs: Contracts)
    ensures |Somes(cs)| <= |cs| && (|Somes(cs)| == |cs| <==> NoNil(cs))
  {
    if cs != [] {
      SomesAreAll(cs[..|cs| - 1]);
      assert cs == cs[..|cs| - 1] + [cs[|cs| - 1]];
    }
  }

  function Present(providers: seq<Contracts>): nat {
    if providers == [] then 0 else Present(providers[..|providers| - 1]) + |Somes(providers[|providers| - 1])|
  }

  ghost predicate NoneNil(providers: seq<Contracts>) { forall k | 0 <= k < |providers| :: NoNil(providers[k]) }

  lemma {:induction false} NoneNilSnoc(providers: seq<Contracts>)
    requires providers != []
    ensures NoneNil(providers) <==> NoneNil(providers[..|providers| - 1]) && NoNil(providers[|providers| - 1])
  {
    var n := |providers| - 1;
    if NoneNil(providers) {
      forall k | 0 <= k < n ensures NoNil(providers[..n][k]) { assert providers[..n][k] == providers[k]; }
    }
    if NoneNil(providers[..n]) && NoNil(providers[n]) {
      forall k | 0 <= k < |providers| ensures NoNil(providers[k]) { assert k < n ==> providers[k] == providers[..n][k]; }
    }
  }

  lemma {:induction false} PresentAreAnnounced(providers: seq<Contracts>)
    ensures Present(providers) <= Announced(providers)
    ensures Present(providers) == Announced(providers) <==> NoneNil(providers)
  {
    if providers != [] {
      var n := |providers| - 1;
      PresentAreAnnounced(providers[..n]);
      SomesAreAll(providers[n]);
      NoneNilSnoc(providers);
    }
  }

  lemma {:induction false} AmountsArePresent(providers: seq<Contracts>, paths: seq<Path>)
    requires AllPossible(providers, paths)
    ensures Total(AllAmounts(providers, paths)) == Present(providers)
  {
    if paths != [] {
      var n := |paths| - 1;
      AmountsArePresent(providers[..n], paths[..n]);
      PathAdvances(providers[n], paths[n]);
      TotalConcat(AllAmounts(providers[..n], paths[..n]), Amounts(providers[n], paths[n]));
    }
  }

  lemma {:induction false} AmountsArePositive(providers: seq<Contracts>, paths: seq<Path>)
    requires AllPossible(providers, paths)
    ensures forall i | 0 <= i < |AllAmounts(providers, paths)| :: AllAmounts(providers, paths)[i] > 0
  {
    if paths != [] {
      var n := |paths| - 1;
      AmountsArePositive(providers[..n], paths[..n]);
      PathAdvances(providers[n], paths[n]);
    }
  }

  /** The advances of all provider paths reach the announced total exactly when no contract is nil. */
  lemma {:induction false} AdvancesReachTotal(providers: seq<Contracts>, paths: seq<Path>)
    requires AllPossible(providers, paths)
    ensures Total(AllAmounts(providers, paths)) <= Announced(providers)
    ensures Total(AllAmounts(providers, paths)) == Announced(providers) <==> NoneNil(providers)
  {
    AmountsArePresent(providers, paths);
    PresentAreAnnounced(providers);
  }

  // ---- A whole job ----

  function CallsOf(amounts: seq<nat>): (calls: seq<Call>)
    ensures |calls| == |amounts| && forall t | 0 <= t < |calls| :: calls[t] == Call(amounts[t], 0, Start)
  {
    if amounts == [] then [] else CallsOf(amounts[..|amounts| - 1]) + [Call(amounts[|amounts| - 1], 0, Start)]
  }

  function NewJob(total: nat, step: nat, amounts: seq<nat>): Job
    requires step > 0
  {
    Job(total, step, 0, Min(step, total), [], CallsOf(amounts))
  }

  lemma {:induction false} AmountSnoc(calls: seq<Call>, c: Call)
    ensures AmountOf(calls + [c]) == AmountOf(calls) + c.n
  {
    if calls == [] {
      assert calls + [c] == [c] && [c][1..] == [];
    } else {
      AmountSnoc(calls[1..], c);
      assert (calls + [c])[1..] == calls[1..] + [c];
    }
  }

  lemma {:induction false} AmountIsTotal(amounts: seq<nat>)
    ensures AmountOf(CallsOf(amounts)) == Total(amounts)
  {
    if amounts != [] {
      var n := |amounts| - 1;
      AmountIsTotal(amounts[..n]);
      AmountSnoc(CallsOf(amounts[..n]), Call(amounts[n], 0, Start));
    }
  }

  /**
   * A job over any providers, whatever path each of them takes and however the advance calls
   * interleave: at most ceil(total / step) lines, and one line reports the total if no contract is
   * nil, none otherwise.
   */
  lemma {:induction false} CompletionAnnounced(providers: seq<Contracts>, paths: seq<Path>, step: nat, run: seq<nat>)
    requires AllPossible(providers, paths) && step > 0 && Announced(providers) > 0
    requires var j := Exec(NewJob(Announced(providers), step, AllAmounts(providers, paths)), run); j.Some? && AllReturned(j.value)
    ensures var j := Exec(NewJob(Announced(providers), step, AllAmounts(providers, paths)), run).value;
            && |j.lines| <= CeilDiv(Announced(providers), step)
            && FullLines(j.lines, Announced(providers)) == One(NoneNil(providers))
  {
    var amounts := AllAmounts(providers, paths);
    AdvancesReachTotal(providers, paths);
    AmountsArePositive(providers, paths);
    AmountIsTotal(amounts);
    LogIsComplete(NewJob(Announced(providers), step, amounts), run);
  }

  function ContractsOf(providers: seq<Option<Batch>>): (r: seq<Contracts>)
    requires forall i | 0 <= i < |providers| :: providers[i].Some?
    ensures |r| == |providers| && forall i | 0 <= i < |providers| :: r[i] == providers[i].value.contracts
  {
    if providers == [] then [] else ContractsOf(providers[..|providers| - 1]) + [providers[|providers| - 1].value.contracts]
  }

  const LOG_STEP: nat := 100

  /** For a request the agent's validator accepts, exactly one line of the job reports its total. */
  lemma {:induction false} ValidatedJobCompletes(req: RQ.Request, paths: seq<Path>, run: seq<nat>)
    requires RQ.WellFormed(Some(req)) && AllPossible(ContractsOf(req.providers), paths)
    requires var providers := ContractsOf(req.providers);
             var j := Exec(NewJob(Announced(providers), LOG_STEP, AllAmounts(providers, paths)), run); j.Some? && AllReturned(j.value)
    ensures var providers := ContractsOf(req.providers);
            var j := Exec(NewJob(Announced(providers), LOG_STEP, AllAmounts(providers, paths)), run).value;
            && FullLines(j.lines, Announced(providers)) == 1
            && |j.lines| <= CeilDiv(Announced(providers), LOG_STEP)
  {
    var providers := ContractsOf(req.providers);
    forall k | 0 <= k < |providers| ensures NoNil(providers[k]) && providers[k] != [] {
      var b := req.providers[k];
      assert RQ.WellFormedBatch(b);
      assert forall j | 0 <= j < |providers[k]| :: RQ.WellFormedContract(providers[k][j]);
    }
    assert |providers[|providers| - 1]| > 0;
    CompletionAnnounced(providers, paths, LOG_STEP, run);
  }

  // ---- The mutable counters, without contention ----

  /** A call that nobody interferes with: add, load, and quit or swap. */
  function Alone(j: Job, t: nat): Job
    requires t < |j.calls| && j.calls[t].pc.Start?
  {
    Apply(Apply(Apply(j, t), t), t)
  }

  class Progress {
    const total: nat
    const step: nat
    var processed: nat
    var nextLogAt: nat
    var lines: seq<nat>

    ghost function With(calls: seq<Call>): Job
      reads this
    {
      Job(total, step, processed, nextLogAt, lines, calls)
    }

    /** A step of 0 means 100; the first threshold is the step, or the total when that is smaller. */
    constructor (total: nat, step: nat)
      ensures this.total == total && this.step == (if step == 0 then 100 else step)
      ensures total > 0 ==> Initial(With([]))
      ensures total == 0 ==> nextLogAt == 0 && processed == 0 && lines == []
    {
      this.total := total;
      this.step := if step == 0 then 100 else step;
      processed, lines := 0, [];
      nextLogAt := if total > 0 then Min(if step == 0 then 100 else step, total) else 0;
    }

    method Advance(n: nat)
      modifies this
      ensures n == 0 || total == 0 ==> unchanged(this)
      ensures n > 0 && total > 0 ==>
                With([Call(n, processed, Returned)]) == old(Alone(With([Call(n, 0, Start)]), 0))
    {
      if total == 0 || n == 0 { return; }
      processed := processed + n;
      MaybeLog(processed);
    }

    /** One round of the loop; the swap succeeds because nothing else runs. */
    method MaybeLog(current: nat)
      modifies `nextLogAt, `lines
      ensures if Quits(old(With([])), current, old(nextLogAt)) then nextLogAt == old(nextLogAt) && lines == old(lines)
              else nextLogAt == NewNext(old(With([])), old(nextLogAt)) && lines == old(lines) + [Min(current, total)]
    {
      var next := nextLogAt;
      if next == 0 || (current < next && current < total) { return; }
      var newNext := next + step;
      if newNext > total { newNext := total; }
      if next >= total { newNext := 0; }
      nextLogAt := newNext;
      var scanned := current;
      if scanned > total { scanned := total; }
      lines := lines + [scanned];
    }
  }
}
