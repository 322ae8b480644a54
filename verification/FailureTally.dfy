/** The dead-provider short circuit: counters and a latch behind one mutex. */
module FailureTally {
  import opened Domain

  /** Details of a failed check, or the text recorded for a skipped one. */
  datatype Detail = CheckDetail(text: string) | SkipDetail(threshold: nat, failsInARow: nat)

  datatype Tally = Tally(threshold: nat, failsInARow: nat, stopped: bool, stats: map<Reason, nat>, details: map<Detail, nat>)

  /** Tally operations in the order the mutex serialised them; `index` is the contract concerned. */
  datatype Event = Checked(index: nat, code: Reason, detail: Detail) | Skipped(index: nat, detail: Detail)

  function Count<K>(m: map<K, nat>, k: K): nat { if k in m then m[k] else 0 }
  function Bump<K>(m: map<K, nat>, k: K): map<K, nat> { m[k := Count(m, k) + 1] }

  function New(threshold: nat): Tally { Tally(threshold, 0, false, map[], map[]) }

  function Record(t: Tally, code: Reason, detail: Detail): Tally {
    var counted := t.(stats := Bump(t.stats, code));
    if code == ValidStorageProof then counted.(failsInARow := 0)
    else
      counted.(details := Bump(t.details, detail), failsInARow := t.failsInARow + 1,
               stopped := t.stopped || t.failsInARow + 1 > t.threshold)
  }

  function RecordSkip(t: Tally, detail: Detail): Tally { t.(details := Bump(t.details, detail)) }

  function After(t: Tally, e: Event): Tally {
    match e
    case Checked(_, code, detail) => Record(t, code, detail)
    case Skipped(_, detail) => RecordSkip(t, detail)
  }

  function TallyOf(threshold: nat, events: seq<Event>): Tally {
    if events == [] then New(threshold) else After(TallyOf(threshold, events[..|events| - 1]), events[|events| - 1])
  }

  // ---- Reading the same numbers off the event log ----

  /** Length of the run of failures at the end of the log; skips do not interrupt it. */
  function TrailingFailures(events: seq<Event>): nat {
    if events == [] then 0
    else
      var before := TrailingFailures(events[..|events| - 1]);
      match events[|events| - 1]
      case Checked(_, code, _) => if code == ValidStorageProof then 0 else before + 1
      case Skipped(_, _) => before
  }

  function Checks(events: seq<Event>): nat {
    if events == [] then 0 else Checks(events[..|events| - 1]) + (if events[|events| - 1].Checked? then 1 else 0)
  }

  function Failures(events: seq<Event>): nat {
    if events == [] then 0
    else Failures(events[..|events| - 1])
         + (if events[|events| - 1].Checked? && events[|events| - 1].code != ValidStorageProof then 1 else 0)
  }

  function ChecksOf(events: seq<Event>, code: Reason): nat {
    if events == [] then 0
    else ChecksOf(events[..|events| - 1], code)
         + (if events[|events| - 1].Checked? && events[|events| - 1].code == code then 1 else 0)
  }

  ghost predicate EverExceeded(threshold: nat, events: seq<Event>) {
    exists n :: 0 <= n <= |events| && TrailingFailures(events[..n]) > threshold
  }

  /** Sum of all counters of a map. */
  ghost function SumValues<K(!new)>(m: map<K, nat>): nat
    decreases m.Keys
  {
    if m == map[] then 0 else var k :| k in m; assert (m - {k}).Keys < m.Keys; m[k] + SumValues(m - {k})
  }

  lemma {:induction false} SumWithout<K(!new)>(m: map<K, nat>, k: K)
    requires k in m
    ensures SumValues(m) == m[k] + SumValues(m - {k})
    decreases m.Keys
  {
    var p :| p in m && SumValues(m) == m[p] + SumValues(m - {p});
    if p != k {
      assert (m - {p}).Keys < m.Keys && (m - {k}).Keys < m.Keys;
      SumWithout(m - {p}, k);
      SumWithout(m - {k}, p);
      assert m - {p} - {k} == m - {k} - {p};
    }
  }

  lemma {:induction false} SumBump<K(!new)>(m: map<K, nat>, k: K)
    ensures SumValues(Bump(m, k)) == SumValues(m) + 1
  {
    SumWithout(Bump(m, k), k);
    if k in m { SumWithout(m, k); }
    assert Bump(m, k) - {k} == m - {k};
    if k !in m { assert m - {k} == m; }
  }

  /**
   * After any sequence of operations: the failure counter is the trailing run of failures, the
   * latch is set exactly when that run ever exceeded the threshold, the statistics count the
   * checks by code, and the details count failures plus skips.
   */
  lemma {:induction false} TallyAccounts(threshold: nat, events: seq<Event>)
    ensures var t := TallyOf(threshold, events);
            && t.threshold == threshold
            && t.failsInARow == TrailingFailures(events)
            && (t.stopped <==> EverExceeded(threshold, events))
            && SumValues(t.stats) == Checks(events)
            && SumValues(t.details) == Failures(events) + (|events| - Checks(events))
  {
    if events != [] {
      var init, last := events[..|events| - 1], events[|events| - 1];
      TallyAccounts(threshold, init);
      var t := TallyOf(threshold, init);
      SumBump(t.details, last.detail);
      if last.Checked? { SumBump(t.stats, last.code); }
      ExceededSnoc(threshold, events);
    } else {
      assert events[..0] == [];
    }
  }

  lemma {:induction false} StatsByCode(threshold: nat, events: seq<Event>, code: Reason)
    ensures Count(TallyOf(threshold, events).stats, code) == ChecksOf(events, code)
  {
    if events != [] { StatsByCode(threshold, events[..|events| - 1], code); }
  }

  lemma {:induction false} ExceededSnoc(threshold: nat, events: seq<Event>)
    requires events != []
    ensures EverExceeded(threshold, events) <==>
              EverExceeded(threshold, events[..|events| - 1]) || TrailingFailures(events) > threshold
  {
    var init := events[..|events| - 1];
    if n :| 0 <= n <= |init| && TrailingFailures(init[..n]) > threshold {
      assert init[..n] == events[..n];
    }
    if TrailingFailures(events) > threshold { assert events[..|events|] == events; }
    if n :| 0 <= n <= |events| && TrailingFailures(events[..n]) > threshold {
      if n < |events| { assert events[..n] == init[..n]; } else { assert events[..n] == events; }
    }
  }

  /** The latch never clears. */
  lemma {:induction false} LatchStays(threshold: nat, events: seq<Event>, n: nat)
    requires n <= |events| && TallyOf(threshold, events[..n]).stopped
    ensures TallyOf(threshold, events).stopped
  {
    if n < |events| {
      assert events[..|events| - 1][..n] == events[..n];
      LatchStays(threshold, events[..|events| - 1], n);
    } else {
      assert events[..n] == events;
    }
  }

  /** The mutable counters, one method per lock acquisition. */
  class Counters {
    var failsInARow: nat
    const threshold: nat
    var stopped: bool
    var stats: map<Reason, nat>
    var details: map<Detail, nat>

    ghost function Value(): Tally
      reads this
    {
      Tally(threshold, failsInARow, stopped, stats, details)
    }

    constructor (threshold: nat)
      ensures Value() == New(threshold)
    {
      this.threshold := threshold;
      failsInARow, stopped, stats, details := 0, false, map[], map[];
    }

    method StoppedNow() returns (r: bool)
      ensures r == Value().stopped
    {
      r := stopped;
    }

    method RecordCheck(code: Reason, detail: Detail)
      modifies this
      ensures Value() == Record(old(Value()), code, detail)
    {
      stats := Bump(stats, code);
      if code == ValidStorageProof {
        failsInARow := 0;
        return;
      }
      details := Bump(details, detail);
      failsInARow := failsInARow + 1;
      if failsInARow > threshold { stopped := true; }
    }

    method RecordSkipped(detail: Detail)
      modifies this
      ensures Value() == RecordSkip(old(Value()), detail)
    {
      details := Bump(details, detail);
    }

    method SkipDetails() returns (d: Detail)
      ensures d == SkipDetail(Value().threshold, Value().failsInARow)
    {
      d := SkipDetail(threshold, failsInARow);
    }
  }
}
