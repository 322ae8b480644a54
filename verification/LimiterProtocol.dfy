/** The piece limiter under concurrency: every interleaving of callers, wakers and cancellations. */
module LimiterProtocol {
  import opened Arithmetic
  import opened Domain
  import opened PieceLimit

  /** One `acquire` call and, after it, the slot it got. */
  datatype Phase =
    | Fresh                     // not called yet
    | Asleep(notified: bool)    // inside cond.Wait; notified: a broadcast has reached it
    | Holding
    | Failed                    // acquire returned the context error
    | Finished                  // slot released

  /** The goroutine that turns the end of the context into a broadcast. */
  datatype Waker = Off | Selecting | Armed | Gone

  datatype Thread = Thread(phase: Phase, ended: bool, waker: Waker)

  datatype State = State(p: Limiter, threads: seq<Thread>, acquires: nat, releases: nat)

  /** One critical section or one channel operation each. */
  datatype Action =
    | Enter(t: nat)             // lock, or wake-up with the lock: one pass of the wait loop
    | CtxEnd(t: nat)
    | WakerSees(t: nat)         // select takes ctx.Done
    | WakerQuits(t: nat)        // select takes the closed wake channel
    | WakerBroadcasts(t: nat)
    | Release(t: nat)
    | Observe(sample: Sample)

  ghost predicate Initial(s: State) {
    && Bounded(s.p) && s.p.inflight == 0 && s.acquires == 0 && s.releases == 0
    && forall t | 0 <= t < |s.threads| :: s.threads[t].phase == Fresh && s.threads[t].waker == Off
  }

  // ---- Steps ----

  function Notified(th: Thread): Thread { if th.phase.Asleep? then th.(phase := Asleep(true)) else th }

  /** `cond.Broadcast`: everyone asleep at this moment is notified. */
  function Broadcast(ts: seq<Thread>): seq<Thread> { seq(|ts|, i requires 0 <= i < |ts| => Notified(ts[i])) }

  predicate Enabled(s: State, a: Action) {
    match a
    case Enter(t) => t < |s.threads| && (s.threads[t].phase.Fresh? || s.threads[t].phase == Asleep(true))
    case CtxEnd(t) => t < |s.threads| && !s.threads[t].ended
    case WakerSees(t) => t < |s.threads| && s.threads[t].waker.Selecting? && s.threads[t].ended
    case WakerQuits(t) => t < |s.threads| && s.threads[t].waker.Selecting? && !s.threads[t].phase.Asleep?
    case WakerBroadcasts(t) => t < |s.threads| && s.threads[t].waker.Armed?
    case Release(t) => t < |s.threads| && s.threads[t].phase.Holding?
    case Observe(_) => true
  }

  function AfterPass(th: Thread, r: Entry): Thread {
    var phase := match r case Admitted => Holding case Refused => Failed case MustWait => Asleep(false);
    th.(phase := phase, waker := if th.phase.Fresh? then Selecting else th.waker)
  }

  function Apply(s: State, a: Action): State
    requires Enabled(s, a)
  {
    match a
    case Enter(t) =>
      var r := Pass(s.p, s.threads[t].ended);
      s.(p := Entered(s.p, s.threads[t].ended), threads := s.threads[t := AfterPass(s.threads[t], r)],
         acquires := s.acquires + (if r.Admitted? then 1 else 0))
    case CtxEnd(t) => s.(threads := s.threads[t := s.threads[t].(ended := true)])
    case WakerSees(t) => s.(threads := s.threads[t := s.threads[t].(waker := Armed)])
    case WakerQuits(t) => s.(threads := s.threads[t := s.threads[t].(waker := Gone)])
    case WakerBroadcasts(t) => s.(threads := Broadcast(s.threads[t := s.threads[t].(waker := Gone)]))
    case Release(t) =>
      s.(p := Released(s.p), threads := Broadcast(s.threads[t := s.threads[t].(phase := Finished)]), releases := s.releases + 1)
    case Observe(sample) =>
      var p' := Observed(s.p, sample);
      s.(p := p', threads := if p'.limit > s.p.limit then Broadcast(s.threads) else s.threads)
  }

  function Exec(s0: State, run: seq<Action>): Option<State> {
    if run == [] then Some(s0)
    else
      var m := Exec(s0, run[..|run| - 1]);
      if m.Some? && Enabled(m.value, run[|run| - 1]) then Some(Apply(m.value, run[|run| - 1])) else None
  }

  // ---- Invariant ----

  function Holders(ts: seq<Thread>): nat {
    if ts == [] then 0 else (if ts[0].phase.Holding? then 1 else 0) + Holders(ts[1..])
  }

  predicate WakerOk(th: Thread) {
    && (th.phase.Fresh? ==> th.waker.Off?)
    && (th.waker.Armed? ==> th.ended)
    && (th.phase.Asleep? ==> !th.waker.Off? && (th.waker.Gone? ==> th.ended && th.phase.notified))
  }

  ghost predicate Inv(s: State) {
    && Bounded(s.p)
    && s.p.inflight == Holders(s.threads) && s.acquires == s.releases + s.p.inflight
    && (forall t | 0 <= t < |s.threads| :: WakerOk(s.threads[t]))
    && (forall t | 0 <= t < |s.threads| && s.threads[t].phase == Asleep(false) :: s.p.inflight >= s.p.limit)
  }

  lemma {:induction false} HoldersUpdate(ts: seq<Thread>, t: nat, th: Thread)
    requires t < |ts|
    ensures Holders(ts[t := th]) + (if ts[t].phase.Holding? then 1 else 0) == Holders(ts) + (if th.phase.Holding? then 1 else 0)
  {
    if t == 0 {
      assert ts[0 := th][1..] == ts[1..];
    } else {
      HoldersUpdate(ts[1..], t - 1, th);
      assert ts[t := th][1..] == ts[1..][t - 1 := th];
    }
  }

  lemma {:induction false} BroadcastKeepsHolders(ts: seq<Thread>)
    ensures Holders(Broadcast(ts)) == Holders(ts)
  {
    if ts != [] {
      BroadcastKeepsHolders(ts[1..]);
      assert Broadcast(ts)[1..] == Broadcast(ts[1..]);
    }
  }

  lemma {:induction false} SomeHolder(ts: seq<Thread>) returns (t: nat)
    requires Holders(ts) > 0
    ensures t < |ts| && ts[t].phase.Holding?
  {
    t := 0;
    if !ts[0].phase.Holding? {
      var u := SomeHolder(ts[1..]);
      t := u + 1;
    }
  }

  lemma {:induction false} EnterStep(s: State, t: nat)
    requires Inv(s) && Enabled(s, Enter(t))
    ensures Inv(Apply(s, Enter(t)))
  {
    HoldersUpdate(s.threads, t, AfterPass(s.threads[t], Pass(s.p, s.threads[t].ended)));
  }

  lemma {:induction false} ReleaseStep(s: State, t: nat)
    requires Inv(s) && Enabled(s, Release(t))
    ensures Inv(Apply(s, Release(t)))
  {
    var ts := s.threads[t := s.threads[t].(phase := Finished)];
    HoldersUpdate(s.threads, t, s.threads[t].(phase := Finished));
    BroadcastKeepsHolders(ts);
  }

  lemma {:induction false} WakerBroadcastsStep(s: State, t: nat)
    requires Inv(s) && Enabled(s, WakerBroadcasts(t))
    ensures Inv(Apply(s, WakerBroadcasts(t)))
  {
    var ts := s.threads[t := s.threads[t].(waker := Gone)];
    HoldersUpdate(s.threads, t, s.threads[t].(waker := Gone));
    BroadcastKeepsHolders(ts);
  }

  lemma {:induction false} ObserveStep(s: State, sample: Sample)
    requires Inv(s)
    ensures Inv(Apply(s, Observe(sample)))
  {
    BoundedKept(s.p, sample);
    BroadcastKeepsHolders(s.threads);
  }

  lemma {:induction false} InvStep(s: State, a: Action)
    requires Inv(s) && Enabled(s, a)
    ensures Inv(Apply(s, a))
  {
    match a
    case Enter(t) => EnterStep(s, t);
    case CtxEnd(t) => HoldersUpdate(s.threads, t, s.threads[t].(ended := true));
    case WakerSees(t) => HoldersUpdate(s.threads, t, s.threads[t].(waker := Armed));
    case WakerQuits(t) => HoldersUpdate(s.threads, t, s.threads[t].(waker := Gone));
    case WakerBroadcasts(t) => WakerBroadcastsStep(s, t);
    case Release(t) => ReleaseStep(s, t);
    case Observe(sample) => ObserveStep(s, sample);
  }

  lemma {:induction false} NoHolders(ts: seq<Thread>)
    requires forall t | 0 <= t < |ts| :: !ts[t].phase.Holding?
    ensures Holders(ts) == 0
  {
    if ts != [] { NoHolders(ts[1..]); }
  }

  lemma {:induction false} InvReachable(s0: State, run: seq<Action>)
    requires Initial(s0) && Exec(s0, run).Some?
    ensures Inv(Exec(s0, run).value)
  {
    if run == [] {
      NoHolders(s0.threads);
    } else {
      InvReachable(s0, run[..|run| - 1]);
      InvStep(Exec(s0, run[..|run| - 1]).value, run[|run| - 1]);
    }
  }

  // ---- What the invariant gives ----

  /**
   * In every reachable state: the cap stays in its bounds, the slots in use are the acquires minus
   * the releases and the calls that hold one, also after the cap was cut below them, and never
   * more than the maximum.
   */
  lemma {:induction false} SlotsAccounted(s0: State, run: seq<Action>)
    requires Initial(s0) && Exec(s0, run).Some?
    ensures var s := Exec(s0, run).value;
            && s.p.min <= s.p.limit <= s.p.max && s.p.inflight <= s.p.max
            && s.p.inflight == s.acquires - s.releases == Holders(s.threads)
  {
    InvReachable(s0, run);
  }

  /** Every admission leaves at most `limit` slots in use, and none happens for an ended context. */
  lemma {:induction false} AdmissionRespectsLimit(s0: State, run: seq<Action>, t: nat)
    requires Initial(s0) && Exec(s0, run).Some? && Enabled(Exec(s0, run).value, Enter(t))
    ensures var s := Exec(s0, run).value; var s' := Apply(s, Enter(t));
            s'.threads[t].phase.Holding? ==> s'.p.inflight == s.p.inflight + 1 <= s'.p.limit && !s.threads[t].ended
  {
    InvReachable(s0, run);
  }

  /** No lost wake-up: a sleeper no broadcast has reached has no free slot, and an ended one has its own broadcast to come. */
  lemma {:induction false} NoLostWakeup(s0: State, run: seq<Action>, t: nat)
    requires Initial(s0) && Exec(s0, run).Some?
    requires t < |Exec(s0, run).value.threads| && Exec(s0, run).value.threads[t].phase == Asleep(false)
    ensures var s := Exec(s0, run).value;
            && s.p.inflight >= s.p.limit
            && (exists u :: 0 <= u < |s.threads| && s.threads[u].phase.Holding?)
            && (s.threads[t].ended ==> Enabled(s, WakerSees(t)) || Enabled(s, WakerBroadcasts(t)))
  {
    InvReachable(s0, run);
    var s := Exec(s0, run).value;
    assert WakerOk(s.threads[t]);
    var u := SomeHolder(s.threads);
  }

  /** No step of the limiter's own goroutines is pending. */
  ghost predicate Quiet(s: State) {
    forall t | 0 <= t < |s.threads| ::
      && s.threads[t].phase != Asleep(true)
      && !(s.threads[t].waker.Selecting? && s.threads[t].ended) && !s.threads[t].waker.Armed?
  }

  /** When nothing is pending, no cancelled call is still waiting, and without holders nobody is. */
  lemma {:induction false} QuietMeansServed(s0: State, run: seq<Action>, t: nat)
    requires Initial(s0) && Exec(s0, run).Some? && Quiet(Exec(s0, run).value) && t < |Exec(s0, run).value.threads|
    ensures var s := Exec(s0, run).value;
            && (s.threads[t].ended ==> !s.threads[t].phase.Asleep?)
            && (Holders(s.threads) == 0 ==> !s.threads[t].phase.Asleep?)
            && (s.p.inflight < s.p.limit ==> !s.threads[t].phase.Asleep?)
  {
    InvReachable(s0, run);
    assert WakerOk(Exec(s0, run).value.threads[t]);
  }

  // ---- The limiter's own steps settle ----

  /** Work pending for one call: a notified sleeper, and its waker's way to its broadcast. */
  function Pending(th: Thread): nat {
    (match th.waker case Selecting => 2 case Armed => 1 case _ => 0)
  }

  function PendingAll(ts: seq<Thread>): nat { if ts == [] then 0 else Pending(ts[0]) + PendingAll(ts[1..]) }

  function Woken(ts: seq<Thread>): nat {
    if ts == [] then 0 else (if ts[0].phase == Asleep(true) then 1 else 0) + Woken(ts[1..])
  }

  lemma {:induction false} CountsUpdate(ts: seq<Thread>, t: nat, th: Thread)
    requires t < |ts|
    ensures PendingAll(ts[t := th]) + Pending(ts[t]) == PendingAll(ts) + Pending(th)
    ensures Woken(ts[t := th]) + (if ts[t].phase == Asleep(true) then 1 else 0) == Woken(ts) + (if th.phase == Asleep(true) then 1 else 0)
  {
    if t == 0 {
      assert ts[0 := th][1..] == ts[1..];
    } else {
      CountsUpdate(ts[1..], t - 1, th);
      assert ts[t := th][1..] == ts[1..][t - 1 := th];
    }
  }

  lemma {:induction false} BroadcastCounts(ts: seq<Thread>)
    ensures PendingAll(Broadcast(ts)) == PendingAll(ts) && Woken(Broadcast(ts)) <= |ts|
  {
    if ts != [] {
      BroadcastCounts(ts[1..]);
      assert Broadcast(ts)[1..] == Broadcast(ts[1..]);
    }
  }

  /** Steps the limiter takes by itself once calls, cancellations, releases and observations stop. */
  predicate Internal(s: State, a: Action) {
    match a
    case Enter(t) => t < |s.threads| && s.threads[t].phase == Asleep(true)
    case WakerSees(_) => true
    case WakerQuits(_) => true
    case WakerBroadcasts(_) => true
    case _ => false
  }

  /** No spinning: each internal step uses up waker work, or serves a notified sleeper without new waker work. */
  lemma {:induction false} InternalProgress(s: State, a: Action)
    requires Enabled(s, a) && Internal(s, a)
    ensures var s' := Apply(s, a);
            || PendingAll(s'.threads) < PendingAll(s.threads)
            || (PendingAll(s'.threads) == PendingAll(s.threads) && Woken(s'.threads) < Woken(s.threads))
  {
    match a
    case Enter(t) => CountsUpdate(s.threads, t, AfterPass(s.threads[t], Pass(s.p, s.threads[t].ended)));
    case WakerSees(t) => CountsUpdate(s.threads, t, s.threads[t].(waker := Armed));
    case WakerQuits(t) => CountsUpdate(s.threads, t, s.threads[t].(waker := Gone));
    case WakerBroadcasts(t) =>
      CountsUpdate(s.threads, t, s.threads[t].(waker := Gone));
      BroadcastCounts(s.threads[t := s.threads[t].(waker := Gone)]);
  }

  function ExecInternal(s0: State, run: seq<Action>): Option<State> {
    if run == [] then Some(s0)
    else
      var m := ExecInternal(s0, run[..|run| - 1]);
      var a := run[|run| - 1];
      if m.Some? && Enabled(m.value, a) && Internal(m.value, a) then Some(Apply(m.value, a)) else None
  }

  function Measure(s: State): nat { PendingAll(s.threads) * (|s.threads| + 1) + Woken(s.threads) }

  lemma {:induction false} WokenBound(ts: seq<Thread>)
    ensures Woken(ts) <= |ts|
  {
    if ts != [] { WokenBound(ts[1..]); }
  }

  lemma {:induction false} MeasureDecreases(s: State, a: Action)
    requires Enabled(s, a) && Internal(s, a)
    ensures |Apply(s, a).threads| == |s.threads| && Measure(Apply(s, a)) < Measure(s)
  {
    var t := Apply(s, a);
    InternalProgress(s, a);
    WokenBound(t.threads);
    Lexicographic(PendingAll(s.threads), PendingAll(t.threads), |s.threads|, Woken(s.threads), Woken(t.threads));
  }

  /** Left to itself the limiter settles: no run of internal steps is longer than a measure of the state. */
  lemma {:induction false} InternalRunsAreFinite(s: State, run: seq<Action>)
    requires ExecInternal(s, run).Some?
    ensures |ExecInternal(s, run).value.threads| == |s.threads|
    ensures |run| + Measure(ExecInternal(s, run).value) <= Measure(s)
  {
    if run != [] {
      var n := |run| - 1;
      InternalRunsAreFinite(s, run[..n]);
      MeasureDecreases(ExecInternal(s, run[..n]).value, run[n]);
    }
  }

  /** And it stops only in a quiet state. */
  lemma {:induction false} NotQuietHasStep(s: State) returns (a: Action)
    requires !Quiet(s)
    ensures Enabled(s, a) && Internal(s, a)
  {
    var t: nat :| t < |s.threads| && !(
      && s.threads[t].phase != Asleep(true)
      && !(s.threads[t].waker.Selecting? && s.threads[t].ended) && !s.threads[t].waker.Armed?);
    a := if s.threads[t].phase == Asleep(true) then Enter(t)
         else if s.threads[t].waker.Armed? then WakerBroadcasts(t) else WakerSees(t);
  }
}
