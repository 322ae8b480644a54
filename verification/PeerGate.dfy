/** The peer gate: a closed connection is rebuilt only when no check uses the peer. */
module PeerGate {

  /** The gate's fields and how often it has called `reinit`. */
  datatype Gate = Gate(inflight: nat, dirty: bool, reinits: nat)

  /** Critical sections in the order of the mutex. */
  datatype Event = Begin | End(connClosed: bool)

  function Rebuilt(g: Gate, hasReinit: bool): Gate {
    if g.dirty && g.inflight == 0 && hasReinit then g.(dirty := false, reinits := g.reinits + 1) else g
  }

  function After(g: Gate, e: Event, hasReinit: bool): Gate {
    match e
    case Begin => var r := Rebuilt(g, hasReinit); r.(inflight := r.inflight + 1)
    case End(connClosed) =>
      Rebuilt(g.(dirty := g.dirty || connClosed, inflight := if g.inflight > 0 then g.inflight - 1 else 0), hasReinit)
  }

  function GateOf(trace: seq<Event>, hasReinit: bool): Gate {
    if trace == [] then Gate(0, false, 0)
    else After(GateOf(trace[..|trace| - 1], hasReinit), trace[|trace| - 1], hasReinit)
  }

  // ---- Busy periods, read off the trace ----

  /** Checks under way: begins minus ends. */
  function Open(trace: seq<Event>): int {
    if trace == [] then 0 else Open(trace[..|trace| - 1]) + (if trace[|trace| - 1].Begin? then 1 else -1)
  }

  /** Every end follows its own begin. */
  ghost predicate Bracketed(trace: seq<Event>) { forall k | 0 <= k <= |trace| :: Open(trace[..k]) >= 0 }

  /** A connection closed since the peer was last idle; the last event may have made it idle again. */
  ghost predicate ClosedSinceIdle(trace: seq<Event>) {
    exists m :: 0 <= m < |trace| && trace[m] == End(true) && forall k | m < k < |trace| :: Open(trace[..k]) > 0
  }

  /** The last event of `trace` ends a busy period in which a connection closed. */
  ghost predicate EndsClosedPeriod(trace: seq<Event>) { trace != [] && Open(trace) == 0 && ClosedSinceIdle(trace) }

  /** Completed busy periods that contained a closed connection. */
  ghost function ClosedPeriods(trace: seq<Event>): nat {
    if trace == [] then 0 else ClosedPeriods(trace[..|trace| - 1]) + (if EndsClosedPeriod(trace) then 1 else 0)
  }

  lemma {:induction false} BracketedPrefix(trace: seq<Event>)
    requires trace != [] && Bracketed(trace)
    ensures Bracketed(trace[..|trace| - 1]) && Open(trace) >= 0
  {
    var init := trace[..|trace| - 1];
    forall k | 0 <= k <= |init| ensures Open(init[..k]) >= 0 { assert init[..k] == trace[..k]; }
    assert trace[..|trace|] == trace;
  }

  lemma {:induction false} ClosedSinceIdleSnoc(trace: seq<Event>)
    requires trace != []
    ensures ClosedSinceIdle(trace) <==>
              trace[|trace| - 1] == End(true) || (ClosedSinceIdle(trace[..|trace| - 1]) && Open(trace[..|trace| - 1]) > 0)
  {
    var n := |trace| - 1;
    var init := trace[..n];
    if ClosedSinceIdle(trace) && trace[n] != End(true) {
      var m :| 0 <= m < |trace| && trace[m] == End(true) && forall k | m < k < |trace| :: Open(trace[..k]) > 0;
      assert init[m] == End(true);
      forall k | m < k < n ensures Open(init[..k]) > 0 { assert init[..k] == trace[..k]; }
    }
    if ClosedSinceIdle(init) && Open(init) > 0 {
      var m :| 0 <= m < n && init[m] == End(true) && forall k | m < k < n :: Open(init[..k]) > 0;
      forall k | m < k < |trace| ensures Open(trace[..k]) > 0 {
        if k < n { assert init[..k] == trace[..k]; } else { assert trace[..k] == init; }
      }
      assert trace[m] == End(true);
    }
  }

  /**
   * Over every well-bracketed trace with a reinit function: the counter is the number of open
   * checks, the flag means a connection closed in the busy period under way, and `reinit` ran
   * once per completed busy period with a closed connection.
   */
  lemma {:induction false} GateTracksPeriods(trace: seq<Event>)
    requires Bracketed(trace)
    ensures var g := GateOf(trace, true);
            && g.inflight == Open(trace)
            && (g.dirty <==> ClosedSinceIdle(trace) && Open(trace) > 0)
            && g.reinits == ClosedPeriods(trace)
  {
    if trace != [] {
      BracketedPrefix(trace);
      GateTracksPeriods(trace[..|trace| - 1]);
      ClosedSinceIdleSnoc(trace);
    }
  }

  /** An idle peer is never left dirty, so the rebuild in `begin` never runs; one that runs finds no check under way. */
  lemma {:induction false} ReinitOnlyWhenIdle(trace: seq<Event>)
    requires trace != [] && Bracketed(trace)
    ensures var before, after := GateOf(trace[..|trace| - 1], true), GateOf(trace, true);
            && (after.inflight == 0 ==> !after.dirty)
            && (trace[|trace| - 1].Begin? ==> after.reinits == before.reinits)
            && (after.reinits > before.reinits ==> Open(trace) == 0 && after.reinits == before.reinits + 1)
  {
    BracketedPrefix(trace);
    GateTracksPeriods(trace);
    GateTracksPeriods(trace[..|trace| - 1]);
  }

  /** Without a reinit function the flag is never cleared. */
  lemma {:induction false} NilReinitStaysDirty(trace: seq<Event>)
    ensures GateOf(trace, false).reinits == 0 && (GateOf(trace, false).dirty <==> End(true) in trace)
  {
    if trace != [] {
      NilReinitStaysDirty(trace[..|trace| - 1]);
      assert trace == trace[..|trace| - 1] + [trace[|trace| - 1]];
    }
  }

  ghost predicate IdleIsClean(hasReinit: bool) {
    forall trace: seq<Event> | Bracketed(trace) && Open(trace) == 0 :: !GateOf(trace, hasReinit).dirty
  }

  /** "Idle implies clean" holds exactly when there is a reinit function. */
  lemma {:induction false} IdleIsCleanIff(hasReinit: bool)
    ensures IdleIsClean(hasReinit) <==> hasReinit
  {
    if hasReinit {
      forall trace: seq<Event> | Bracketed(trace) && Open(trace) == 0 ensures !GateOf(trace, hasReinit).dirty {
        GateTracksPeriods(trace);
      }
    } else {
      var trace := [Begin, End(true)];
      assert trace[..0] == [] && trace[..1] == [Begin] && trace[..2] == trace && [Begin][..0] == [];
      assert Bracketed(trace) && Open(trace) == 0;
      NilReinitStaysDirty(trace);
    }
  }

  // ---- The mutable gate ----

  class Mutex {
    const hasReinit: bool
    var inflight: nat
    var dirty: bool
    var reinits: nat

    ghost function Value(): Gate
      reads this
    {
      Gate(inflight, dirty, reinits)
    }

    constructor (hasReinit: bool)
      ensures this.hasReinit == hasReinit && Value() == GateOf([], hasReinit)
    {
      this.hasReinit := hasReinit;
      inflight, dirty, reinits := 0, false, 0;
    }

    method BeginCheck()
      modifies this
      ensures Value() == After(old(Value()), Begin, hasReinit)
    {
      if dirty && inflight == 0 && hasReinit {
        reinits := reinits + 1;
        dirty := false;
      }
      inflight := inflight + 1;
    }

    method EndCheck(connClosed: bool)
      modifies this
      ensures Value() == After(old(Value()), End(connClosed), hasReinit)
    {
      if connClosed { dirty := true; }
      if inflight > 0 { inflight := inflight - 1; }
      if dirty && inflight == 0 && hasReinit {
        reinits := reinits + 1;
        dirty := false;
      }
    }
  }
}
