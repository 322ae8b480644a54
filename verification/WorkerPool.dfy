/** One provider's bags checked by a dispatcher and k workers on an unbuffered channel. */
module WorkerPool {
  import opened Arithmetic
  import opened Domain
  import opened FailureTally

  datatype Row = Row(contract: ContractRef, reason: Reason, detail: Detail)

  /** Program counter of a goroutine handling one job, between two shared-memory operations. */
  datatype Phase =
    | Idle
    | Received(i: nat)                              // before stoppedNow
    | Checking(i: nat)                              // inside checkPiece
    | Wrote(i: nat, code: Reason, detail: Detail)   // row written, before progress.advance
    | Advanced(i: nat, code: Reason, detail: Detail) // before tally.record
    | Recorded                                      // before the pause and the next receive
    | SkipStart(i: nat)                             // before skipDetails
    | SkipDetailed(i: nat, detail: Detail)          // before the row is written
    | SkipWrote(i: nat, detail: Detail)             // before tally.recordSkip
    | SkipRecorded(i: nat)                          // before progress.advance
    | Exited

  datatype Dispatcher =
    | At(p: nat)                      // loop head for contract p
    | Sending(p: nat)                 // blocked on the channel
    | Skipping(p: nat, phase: Phase)
    | Closed                          // channel closed, waiting for the workers
    | Finished

  datatype Shared = Shared(
    results: seq<Option<Row>>, writes: seq<nat>, tally: Tally, events: seq<Event>, advanced: nat)

  datatype State = State(contracts: seq<Option<ContractRef>>, disp: Dispatcher, workers: seq<Phase>, sh: Shared)

  /** A check may end with any code and details. */
  datatype Action = Dispatch | Deliver(w: nat) | Work(w: nat, code: Reason, text: string) | Quit(w: nat)

  ghost predicate Initial(s: State, threshold: nat) {
    && s.disp == At(0) && s.workers != [] && (forall w | 0 <= w < |s.workers| :: s.workers[w] == Idle)
    && |s.sh.results| == |s.contracts| && (forall i | 0 <= i < |s.sh.results| :: s.sh.results[i] == None)
    && s.sh.writes == [] && s.sh.events == [] && s.sh.advanced == 0 && s.sh.tally == New(threshold)
  }

  // ---- Steps ----

  predicate Writable(s: State, i: nat) {
    i < |s.contracts| && s.contracts[i].Some? && |s.sh.results| == |s.contracts|
  }

  function Write(s: State, i: nat, code: Reason, detail: Detail): Shared
    requires Writable(s, i)
  {
    s.sh.(results := s.sh.results[i := Some(Row(s.contracts[i].value, code, detail))], writes := s.sh.writes + [i])
  }

  function Log(sh: Shared, e: Event): Shared { sh.(tally := After(sh.tally, e), events := sh.events + [e]) }

  predicate IsSkip(ph: Phase) { ph.SkipStart? || ph.SkipDetailed? || ph.SkipWrote? || ph.SkipRecorded? }

  /** One operation of `recordSkip`, by a worker or by the dispatcher. */
  function SkipStep(s: State, ph: Phase): (Shared, Phase)
    requires IsSkip(ph) && (ph.SkipDetailed? ==> Writable(s, ph.i))
  {
    match ph
    case SkipStart(i) => (s.sh, SkipDetailed(i, SkipDetail(s.sh.tally.threshold, s.sh.tally.failsInARow)))
    case SkipDetailed(i, d) => (Write(s, i, UnavailableProvider, d), SkipWrote(i, d))
    case SkipWrote(i, d) => (Log(s.sh, Skipped(i, d)), SkipRecorded(i))
    case SkipRecorded(i) => (s.sh.(advanced := s.sh.advanced + 1), Idle)
  }

  function WorkStep(s: State, ph: Phase, code: Reason, text: string): (Shared, Phase)
    requires !ph.Idle? && !ph.Exited? && (ph.SkipDetailed? || ph.Checking? ==> Writable(s, ph.i))
  {
    if IsSkip(ph) then SkipStep(s, ph)
    else match ph
      case Received(i) => (s.sh, if s.sh.tally.stopped then SkipStart(i) else Checking(i))
      case Checking(i) => (Write(s, i, code, CheckDetail(text)), Wrote(i, code, CheckDetail(text)))
      case Wrote(i, c, d) => (s.sh.(advanced := s.sh.advanced + 1), Advanced(i, c, d))
      case Advanced(i, c, d) => (Log(s.sh, Checked(i, c, d)), Recorded)
      case Recorded => (s.sh, Idle)
      case _ => (s.sh, ph)
  }

  predicate Enabled(s: State, a: Action) {
    match a
    case Dispatch =>
      || (s.disp.At? && s.disp.p <= |s.contracts|)
      || (s.disp.Skipping? && IsSkip(s.disp.phase) && (s.disp.phase.SkipDetailed? ==> Writable(s, s.disp.phase.i)))
      || (s.disp.Closed? && forall w | 0 <= w < |s.workers| :: s.workers[w].Exited?)
    case Deliver(w) => s.disp.Sending? && w < |s.workers| && s.workers[w].Idle?
    case Work(w, _, _) =>
      && w < |s.workers| && !s.workers[w].Idle? && !s.workers[w].Exited?
      && (s.workers[w].SkipDetailed? || s.workers[w].Checking? ==> Writable(s, s.workers[w].i))
    case Quit(w) => s.disp.Closed? && w < |s.workers| && s.workers[w].Idle?
  }

  function DispatchStep(s: State): State
    requires Enabled(s, Dispatch)
  {
    match s.disp
    case At(p) =>
      if p == |s.contracts| then s.(disp := Closed)
      else if s.contracts[p].None? then s.(disp := At(p + 1))
      else if s.sh.tally.stopped then s.(disp := Skipping(p, SkipStart(p)))
      else s.(disp := Sending(p))
    case Skipping(p, ph) =>
      var (sh, ph') := SkipStep(s, ph);
      s.(sh := sh, disp := if ph'.Idle? then At(p + 1) else Skipping(p, ph'))
    case _ => s.(disp := Finished)
  }

  function Apply(s: State, a: Action): State
    requires Enabled(s, a)
  {
    match a
    case Dispatch => DispatchStep(s)
    case Deliver(w) => s.(disp := At(s.disp.p + 1), workers := s.workers[w := Received(s.disp.p)])
    case Work(w, code, text) =>
      var (sh, ph) := WorkStep(s, s.workers[w], code, text);
      s.(sh := sh, workers := s.workers[w := ph])
    case Quit(w) => s.(workers := s.workers[w := Exited])
  }

  /** The state after the interleaving `run`; None when some action was not enabled. */
  function Exec(s0: State, run: seq<Action>): Option<State> {
    if run == [] then Some(s0)
    else
      var m := Exec(s0, run[..|run| - 1]);
      if m.Some? && Enabled(m.value, run[|run| - 1]) then Some(Apply(m.value, run[|run| - 1])) else None
  }

  // ---- Where each contract index is ----

  /** What may still be due for a contract: its row, its tally record, its progress tick. */
  datatype Due = Writing | Recording | Advancing


  /** The index for which a goroutine in phase `ph` still has to do `due`. */
  function Owes(due: Due, ph: Phase): Option<nat> {
    match ph
    case Received(i) => Some(i)
    case Checking(i) => Some(i)
    case SkipStart(i) => Some(i)
    case SkipDetailed(i, _) => Some(i)
    case Wrote(i, _, _) => if due.Writing? then None else Some(i)
    case SkipWrote(i, _) => if due.Writing? then None else Some(i)
    case Advanced(i, _, _) => if due.Recording? then Some(i) else None
    case SkipRecorded(i) => if due.Advancing? then Some(i) else None
    case _ => None
  }

  function Holders(ws: seq<Phase>, due: Due, i: nat): nat {
    if ws == [] then 0 else One(Owes(due, ws[0]) == Some(i)) + Holders(ws[1..], due, i)
  }

  function Owing(ws: seq<Phase>, due: Due): nat {
    if ws == [] then 0 else One(Owes(due, ws[0]).Some?) + Owing(ws[1..], due)
  }

  /** Workers past the stop test whose check is not recorded yet. */
  function InFlight(ws: seq<Phase>): nat {
    if ws == [] then 0 else One(Flying(ws[0])) + InFlight(ws[1..])
  }
  predicate Flying(ph: Phase) { ph.Checking? || ph.Wrote? || ph.Advanced? }

  lemma {:induction false} HoldersUpdate(ws: seq<Phase>, w: nat, ph: Phase, due: Due, i: nat)
    requires w < |ws|
    ensures Holders(ws[w := ph], due, i) + One(Owes(due, ws[w]) == Some(i)) == Holders(ws, due, i) + One(Owes(due, ph) == Some(i))
    ensures Owes(due, ws[w]) == Some(i) ==> Holders(ws, due, i) >= 1
  {
    if w == 0 {
      assert ws[0 := ph][1..] == ws[1..];
    } else {
      HoldersUpdate(ws[1..], w - 1, ph, due, i);
      assert ws[w := ph][1..] == ws[1..][w - 1 := ph];
    }
  }

  lemma {:induction false} OwingUpdate(ws: seq<Phase>, w: nat, ph: Phase, due: Due)
    requires w < |ws|
    ensures Owing(ws[w := ph], due) + One(Owes(due, ws[w]).Some?) == Owing(ws, due) + One(Owes(due, ph).Some?)
  {
    if w == 0 {
      assert ws[0 := ph][1..] == ws[1..];
    } else {
      OwingUpdate(ws[1..], w - 1, ph, due);
      assert ws[w := ph][1..] == ws[1..][w - 1 := ph];
    }
  }

  lemma {:induction false} InFlightUpdate(ws: seq<Phase>, w: nat, ph: Phase)
    requires w < |ws|
    ensures InFlight(ws[w := ph]) + One(Flying(ws[w])) == InFlight(ws) + One(Flying(ph))
    ensures InFlight(ws) <= |ws|
  {
    if w == 0 {
      assert ws[0 := ph][1..] == ws[1..];
      InFlightBound(ws[1..]);
    } else {
      InFlightUpdate(ws[1..], w - 1, ph);
      assert ws[w := ph][1..] == ws[1..][w - 1 := ph];
    }
  }

  lemma {:induction false} InFlightBound(ws: seq<Phase>)
    ensures InFlight(ws) <= |ws|
  {
    if ws != [] { InFlightBound(ws[1..]); }
  }

  lemma {:induction false} NothingHeld(ws: seq<Phase>, due: Due, i: nat)
    requires forall w | 0 <= w < |ws| :: ws[w] == Idle || ws[w] == Exited
    ensures Holders(ws, due, i) == 0 && Owing(ws, due) == 0 && InFlight(ws) == 0
  {
    if ws != [] { NothingHeld(ws[1..], due, i); }
  }

  /** First index the dispatcher has not taken, and the job it holds itself. */
  function NextIndex(s: State): nat {
    match s.disp case At(p) => p case Sending(p) => p + 1 case Skipping(p, _) => p + 1 case _ => |s.contracts|
  }
  function DispHand(s: State): Phase {
    match s.disp case Sending(p) => Received(p) case Skipping(_, ph) => ph case _ => Idle
  }

  /** Non-nil contracts from `p` on. */
  function Left(cs: seq<Option<ContractRef>>, p: nat): nat
    requires p <= |cs|
    decreases |cs| - p
  {
    if p == |cs| then 0 else One(cs[p].Some?) + Left(cs, p + 1)
  }

  predicate Wanted(s: State, i: nat) { i < |s.contracts| && s.contracts[i].Some? }

  function RecordsOf(events: seq<Event>, i: nat): nat {
    if events == [] then 0 else RecordsOf(events[..|events| - 1], i) + One(events[|events| - 1].index == i)
  }

  /** How often `due` has been done for index `i`. */
  function Done(sh: Shared, due: Due, i: nat): nat {
    match due case Writing => multiset(sh.writes)[i] case Recording => RecordsOf(sh.events, i) case Advancing => 0
  }

  // ---- Invariants ----

  ghost predicate Shape(s: State) {
    && s.workers != [] && |s.sh.results| == |s.contracts| && NextIndex(s) <= |s.contracts|
    && (s.disp.Sending? ==> Wanted(s, s.disp.p))
    && (s.disp.Skipping? ==> IsSkip(s.disp.phase) && s.disp.phase.i == s.disp.p && Wanted(s, s.disp.p))
    && (forall w | 0 <= w < |s.workers| && s.workers[w].Exited? :: s.disp.Closed? || s.disp.Finished?)
    && (s.disp.Finished? ==> forall w | 0 <= w < |s.workers| :: s.workers[w].Exited?)
  }

  /** Index `i` is done, in exactly one hand, or not dispatched yet. */
  ghost predicate Accounted(s: State, due: Due, i: nat) {
    Done(s.sh, due, i) + Holders(s.workers, due, i) + One(Owes(due, DispHand(s)) == Some(i)) + One(i >= NextIndex(s) && Wanted(s, i))
    == One(Wanted(s, i))
  }

  ghost predicate Ticks(s: State) {
    && NextIndex(s) <= |s.contracts|
    && s.sh.advanced + Owing(s.workers, Advancing) + One(Owes(Advancing, DispHand(s)).Some?) + Left(s.contracts, NextIndex(s))
       == Left(s.contracts, 0)
  }

  ghost predicate Inv(s: State, threshold: nat) {
    && Shape(s)
    && (forall i: nat :: Accounted(s, Writing, i))
    && (forall i: nat :: Accounted(s, Recording, i))
    && Ticks(s)
    && s.sh.tally == TallyOf(threshold, s.sh.events)
    && Rows(s) && Stopping(s, threshold)
  }

  lemma {:induction false} ShapeStep(s: State, a: Action)
    requires Shape(s) && Enabled(s, a)
    ensures Shape(Apply(s, a)) && Apply(s, a).contracts == s.contracts
  {
  }

  /** A phase change does a due operation exactly when it stops owing it. */
  lemma {:induction false} WorkEffect(s: State, ph: Phase, code: Reason, text: string, due: Due, i: nat)
    requires !ph.Idle? && !ph.Exited? && (ph.SkipDetailed? || ph.Checking? ==> Writable(s, ph.i)) && !due.Advancing?
    ensures var (sh, ph') := WorkStep(s, ph, code, text);
            Done(sh, due, i) + One(Owes(due, ph') == Some(i)) == Done(s.sh, due, i) + One(Owes(due, ph) == Some(i))
  {
    var (sh, ph') := WorkStep(s, ph, code, text);
    if ph.Advanced? || ph.SkipWrote? { assert sh.events[..|s.sh.events|] == s.sh.events; }
  }

  lemma {:induction false} AccountedDispatch(s: State, due: Due, i: nat)
    requires Shape(s) && Enabled(s, Dispatch) && Accounted(s, due, i) && !due.Advancing?
    ensures Accounted(DispatchStep(s), due, i)
  {
    if s.disp.Skipping? { AccountedSkip(s, due, i); } else { AccountedMove(s, due, i); }
  }

  lemma {:induction false} AccountedSkip(s: State, due: Due, i: nat)
    requires Shape(s) && Enabled(s, Dispatch) && Accounted(s, due, i) && !due.Advancing? && s.disp.Skipping?
    ensures Accounted(DispatchStep(s), due, i)
  {
    WorkEffect(s, s.disp.phase, NotFound, "", due, i);
  }

  lemma {:induction false} AccountedMove(s: State, due: Due, i: nat)
    requires Shape(s) && Enabled(s, Dispatch) && Accounted(s, due, i) && !due.Advancing? && !s.disp.Skipping?
    ensures Accounted(DispatchStep(s), due, i)
  {
  }

  lemma {:induction false} AccountedStep(s: State, a: Action, due: Due, i: nat)
    requires Shape(s) && Enabled(s, a) && Accounted(s, due, i) && !due.Advancing?
    ensures Accounted(Apply(s, a), due, i)
  {
    match a
    case Dispatch => AccountedDispatch(s, due, i);
    case Deliver(w) => HoldersUpdate(s.workers, w, Received(s.disp.p), due, i);
    case Quit(w) => HoldersUpdate(s.workers, w, Exited, due, i);
    case Work(w, code, text) =>
      HoldersUpdate(s.workers, w, WorkStep(s, s.workers[w], code, text).1, due, i);
      WorkEffect(s, s.workers[w], code, text, due, i);
  }

  lemma {:induction false} TickEffect(s: State, ph: Phase, code: Reason, text: string)
    requires !ph.Idle? && !ph.Exited? && (ph.SkipDetailed? || ph.Checking? ==> Writable(s, ph.i))
    ensures var (sh, ph') := WorkStep(s, ph, code, text);
            sh.advanced + One(Owes(Advancing, ph').Some?) == s.sh.advanced + One(Owes(Advancing, ph).Some?)
  {
  }

  lemma {:induction false} TicksDispatch(s: State)
    requires Shape(s) && Enabled(s, Dispatch) && Ticks(s)
    ensures Ticks(DispatchStep(s))
  {
    if s.disp.Skipping? { TickEffect(s, s.disp.phase, NotFound, ""); }
  }

  lemma {:induction false} TicksStep(s: State, a: Action)
    requires Shape(s) && Enabled(s, a) && Ticks(s)
    ensures Ticks(Apply(s, a))
  {
    match a
    case Dispatch => TicksDispatch(s);
    case Deliver(w) => OwingUpdate(s.workers, w, Received(s.disp.p), Advancing);
    case Quit(w) => OwingUpdate(s.workers, w, Exited, Advancing);
    case Work(w, code, text) =>
      OwingUpdate(s.workers, w, WorkStep(s, s.workers[w], code, text).1, Advancing);
      TickEffect(s, s.workers[w], code, text);
  }

  // ---- Rows agree with what was recorded ----

  ghost predicate RowIs(s: State, i: nat, code: Reason, detail: Detail) {
    Writable(s, i) && s.sh.results[i] == Some(Row(s.contracts[i].value, code, detail))
  }

  ghost predicate PhaseRow(s: State, ph: Phase) {
    match ph
    case Wrote(i, code, d) => RowIs(s, i, code, d)
    case Advanced(i, code, d) => RowIs(s, i, code, d)
    case SkipWrote(i, d) => RowIs(s, i, UnavailableProvider, d)
    case _ => true
  }

  ghost predicate EventRow(s: State, e: Event) {
    match e case Checked(i, code, d) => RowIs(s, i, code, d) case Skipped(i, d) => RowIs(s, i, UnavailableProvider, d)
  }

  ghost predicate Rows(s: State) {
    && |s.sh.results| == |s.contracts|
    && (forall w | 0 <= w < |s.workers| :: PhaseRow(s, s.workers[w]))
    && PhaseRow(s, DispHand(s))
    && (forall n | 0 <= n < |s.sh.events| :: EventRow(s, s.sh.events[n]))
    && (forall i: nat | i < |s.contracts| :: s.sh.results[i].Some? <==> multiset(s.sh.writes)[i] > 0)
    && (forall i: nat | i < |s.contracts| && s.sh.results[i].Some? ::
          s.contracts[i].Some? && s.sh.results[i].value.contract == s.contracts[i].value)
  }

  /** An index still owed to the results has no row yet, so no row is ever overwritten. */
  lemma {:induction false} OwedIsUnwritten(s: State, i: nat)
    requires Accounted(s, Writing, i)
    requires Holders(s.workers, Writing, i) >= 1 || Owes(Writing, DispHand(s)) == Some(i)
    ensures multiset(s.sh.writes)[i] == 0 && Wanted(s, i)
  {
  }

  // ---- The short circuit ----

  /** Checks recorded after the latch was set. */
  function Late(threshold: nat, events: seq<Event>): nat {
    if events == [] then 0
    else
      var init := events[..|events| - 1];
      Late(threshold, init) + One(TallyOf(threshold, init).stopped && events[|events| - 1].Checked?)
  }

  /** Every skip was recorded after the latch was set. */
  ghost predicate SkipsAfterStop(threshold: nat, events: seq<Event>) {
    forall n | 0 <= n < |events| && events[n].Skipped? :: TallyOf(threshold, events[..n]).stopped
  }

  ghost predicate Stopping(s: State, threshold: nat) {
    && (s.sh.tally.stopped ==> Late(threshold, s.sh.events) + InFlight(s.workers) <= |s.workers| - 1)
    && (!s.sh.tally.stopped ==> Late(threshold, s.sh.events) == 0)
    && (forall w | 0 <= w < |s.workers| && IsSkip(s.workers[w]) :: s.sh.tally.stopped)
    && (s.disp.Skipping? ==> s.sh.tally.stopped)
    && SkipsAfterStop(threshold, s.sh.events)
  }

  /** Writing the row of an unwritten index keeps every row already promised. */
  lemma {:induction false} RowsWrite(s: State, sh: Shared, i: nat, code: Reason, detail: Detail)
    requires Rows(s) && Writable(s, i) && multiset(s.sh.writes)[i] == 0 && sh == Write(s, i, code, detail)
    ensures forall ph :: PhaseRow(s, ph) ==> PhaseRow(s.(sh := sh), ph)
    ensures forall n | 0 <= n < |sh.events| :: EventRow(s.(sh := sh), sh.events[n])
    ensures forall j: nat | j < |s.contracts| :: sh.results[j].Some? <==> multiset(sh.writes)[j] > 0
    ensures forall j: nat | j < |s.contracts| && sh.results[j].Some? ::
              s.contracts[j].Some? && sh.results[j].value.contract == s.contracts[j].value
    ensures RowIs(s.(sh := sh), i, code, detail)
  {
    assert s.sh.results[i].None?;
    forall j: nat, c, d | RowIs(s, j, c, d) ensures RowIs(s.(sh := sh), j, c, d) {}
    forall n | 0 <= n < |sh.events| ensures EventRow(s.(sh := sh), sh.events[n]) { assert EventRow(s, s.sh.events[n]); }
  }

  /** What a step from `s` to shared state `sh` keeps, for whoever holds which phase. */
  ghost predicate RowsKept(s: State, sh: Shared, ph': Phase) {
    var t := s.(sh := sh);
    && |sh.results| == |s.contracts| && PhaseRow(t, ph')
    && (forall x :: PhaseRow(s, x) ==> PhaseRow(t, x))
    && (forall n | 0 <= n < |sh.events| :: EventRow(t, sh.events[n]))
    && (forall j: nat | j < |s.contracts| :: sh.results[j].Some? <==> multiset(sh.writes)[j] > 0)
    && (forall j: nat | j < |s.contracts| && sh.results[j].Some? ::
          s.contracts[j].Some? && sh.results[j].value.contract == s.contracts[j].value)
  }

  /** Rows of a state whose job in phase `ph` made its next step. */
  lemma {:induction false} RowsWork(s: State, ph: Phase, code: Reason, text: string)
    requires Rows(s) && PhaseRow(s, ph)
    requires !ph.Idle? && !ph.Exited? && (ph.SkipDetailed? || ph.Checking? ==> Writable(s, ph.i) && multiset(s.sh.writes)[ph.i] == 0)
    ensures RowsKept(s, WorkStep(s, ph, code, text).0, WorkStep(s, ph, code, text).1)
  {
    var (sh, ph') := WorkStep(s, ph, code, text);
    if ph.Checking? {
      RowsWrite(s, sh, ph.i, code, CheckDetail(text));
    } else if ph.SkipDetailed? {
      RowsWrite(s, sh, ph.i, UnavailableProvider, ph.detail);
    } else {
      forall n | 0 <= n < |sh.events| ensures EventRow(s.(sh := sh), sh.events[n]) {
        if n < |s.sh.events| { assert EventRow(s, s.sh.events[n]); }
      }
    }
  }

  /** Which goroutine moved does not matter for rows. */
  lemma {:induction false} RowsFrame(s: State, t: State)
    requires t.contracts == s.contracts && t.sh == s.sh
    ensures forall ph :: PhaseRow(s, ph) <==> PhaseRow(t, ph)
    ensures forall e :: EventRow(s, e) <==> EventRow(t, e)
  {
  }

  /** A step after which every hand is an old one, the stepped one or empty. */
  lemma {:induction false} RowsFromKept(s: State, t: State, ph': Phase)
    requires Rows(s) && RowsKept(s, t.sh, ph') && t.contracts == s.contracts && |t.workers| == |s.workers|
    requires forall v | 0 <= v < |t.workers| :: t.workers[v] == s.workers[v] || t.workers[v] == ph'
    requires DispHand(t) == DispHand(s) || DispHand(t) == ph' || DispHand(t) == Idle
    ensures Rows(t)
  {
    RowsFrame(s.(sh := t.sh), t);
    forall v | 0 <= v < |t.workers| ensures PhaseRow(t, t.workers[v]) {
      assert PhaseRow(s, s.workers[v]);
    }
    assert PhaseRow(s, DispHand(s));
  }

  lemma {:induction false} RowsWorkStep(s: State, w: nat, code: Reason, text: string)
    requires Rows(s) && Enabled(s, Work(w, code, text)) && forall i: nat :: Accounted(s, Writing, i)
    ensures Rows(Apply(s, Work(w, code, text)))
  {
    var t, ph := Apply(s, Work(w, code, text)), s.workers[w];
    if ph.SkipDetailed? || ph.Checking? {
      HoldersUpdate(s.workers, w, ph, Writing, ph.i);
      OwedIsUnwritten(s, ph.i);
    }
    RowsWork(s, ph, code, text);
    RowsFromKept(s, t, t.workers[w]);
  }

  lemma {:induction false} RowsSkipStep(s: State)
    requires Shape(s) && Rows(s) && s.disp.Skipping? && Enabled(s, Dispatch) && forall i: nat :: Accounted(s, Writing, i)
    ensures Rows(DispatchStep(s))
  {
    var t, ph := DispatchStep(s), s.disp.phase;
    if ph.SkipDetailed? { OwedIsUnwritten(s, ph.i); }
    RowsWork(s, ph, NotFound, "");
    RowsFromKept(s, t, SkipStep(s, ph).1);
  }

  lemma {:induction false} RowsStep(s: State, a: Action)
    requires Shape(s) && Rows(s) && Enabled(s, a) && forall i: nat :: Accounted(s, Writing, i)
    ensures Rows(Apply(s, a))
  {
    if a.Work? {
      RowsWorkStep(s, a.w, a.code, a.text);
    } else if a.Dispatch? && s.disp.Skipping? {
      RowsSkipStep(s);
    } else {
      RowsHandOver(s, a);
    }
  }

  lemma {:induction false} RowsHandOver(s: State, a: Action)
    requires Rows(s) && Enabled(s, a) && !a.Work? && !(a.Dispatch? && s.disp.Skipping?)
    ensures Rows(Apply(s, a))
  {
    var t := Apply(s, a);
    RowsFrame(s, t);
    forall v | 0 <= v < |t.workers| ensures PhaseRow(t, t.workers[v]) {
      assert PhaseRow(s, s.workers[v]);
    }
    forall n | 0 <= n < |t.sh.events| ensures EventRow(t, t.sh.events[n]) { assert EventRow(s, s.sh.events[n]); }
  }

  /** What one more tally record does to the latch and to the late checks. */
  lemma {:induction false} LateSnoc(threshold: nat, events: seq<Event>, e: Event)
    ensures Late(threshold, events + [e]) == Late(threshold, events) + One(TallyOf(threshold, events).stopped && e.Checked?)
    ensures TallyOf(threshold, events + [e]) == After(TallyOf(threshold, events), e)
    ensures SkipsAfterStop(threshold, events) && (e.Skipped? ==> TallyOf(threshold, events).stopped)
            ==> SkipsAfterStop(threshold, events + [e])
  {
    assert (events + [e])[..|events|] == events;
    forall n | 0 <= n <= |events| ensures (events + [e])[..n] == events[..n] {}
  }

  lemma {:induction false} StoppingDispatch(s: State, threshold: nat)
    requires Shape(s) && Stopping(s, threshold) && Enabled(s, Dispatch) && s.sh.tally == TallyOf(threshold, s.sh.events)
    ensures Stopping(DispatchStep(s), threshold)
    ensures DispatchStep(s).sh.tally == TallyOf(threshold, DispatchStep(s).sh.events)
  {
    if s.disp.Skipping? { StopEffect(s, s.disp.phase, NotFound, "", threshold); }
  }

  /** The bounds of one phase change on the latch, the late checks and the checks in flight. */
  ghost predicate StopDelta(s: State, ph: Phase, sh: Shared, ph': Phase, threshold: nat) {
    && sh.tally == TallyOf(threshold, sh.events) && SkipsAfterStop(threshold, sh.events)
    && (s.sh.tally.stopped ==> sh.tally.stopped)
    && (sh.tally.stopped && !s.sh.tally.stopped ==> ph.Advanced?)
    && Late(threshold, sh.events) == Late(threshold, s.sh.events) + One(s.sh.tally.stopped && ph.Advanced?)
    && (Flying(ph') ==> Flying(ph) || !s.sh.tally.stopped)
    && (ph.Advanced? ==> !Flying(ph'))
    && (IsSkip(ph') ==> sh.tally.stopped)
  }

  lemma {:induction false} LogEffect(s: State, ph: Phase, e: Event, ph': Phase, threshold: nat)
    requires s.sh.tally == TallyOf(threshold, s.sh.events) && SkipsAfterStop(threshold, s.sh.events)
    requires (e.Skipped? ==> s.sh.tally.stopped) && (e.Checked? <==> ph.Advanced?) && !Flying(ph') && (IsSkip(ph') ==> e.Skipped?)
    ensures StopDelta(s, ph, Log(s.sh, e), ph', threshold)
  {
    LateSnoc(threshold, s.sh.events, e);
  }

  lemma {:induction false} StopEffect(s: State, ph: Phase, code: Reason, text: string, threshold: nat)
    requires !ph.Idle? && !ph.Exited? && (ph.SkipDetailed? || ph.Checking? ==> Writable(s, ph.i))
    requires s.sh.tally == TallyOf(threshold, s.sh.events) && (IsSkip(ph) ==> s.sh.tally.stopped)
    requires SkipsAfterStop(threshold, s.sh.events)
    ensures var (sh, ph') := WorkStep(s, ph, code, text); StopDelta(s, ph, sh, ph', threshold)
  {
    if ph.SkipWrote? {
      LogEffect(s, ph, Skipped(ph.i, ph.detail), SkipRecorded(ph.i), threshold);
    } else if ph.Advanced? {
      LogEffect(s, ph, Checked(ph.i, ph.code, ph.detail), Recorded, threshold);
    }
  }

  lemma {:induction false} StoppingWork(s: State, w: nat, code: Reason, text: string, threshold: nat)
    requires Shape(s) && Stopping(s, threshold) && Enabled(s, Work(w, code, text)) && s.sh.tally == TallyOf(threshold, s.sh.events)
    ensures var t := Apply(s, Work(w, code, text));
            Stopping(t, threshold) && t.sh.tally == TallyOf(threshold, t.sh.events)
  {
    var ph := s.workers[w];
    InFlightUpdate(s.workers, w, WorkStep(s, ph, code, text).1);
    StopEffect(s, ph, code, text, threshold);
    LateStep(s, Apply(s, Work(w, code, text)), w, threshold);
  }

  /** The budget of late checks: the worker that sets the latch leaves at most k - 1 others in flight. */
  lemma {:induction false} LateStep(s: State, t: State, w: nat, threshold: nat)
    requires w < |s.workers| == |t.workers| && InFlight(s.workers) <= |s.workers|
    requires s.sh.tally.stopped ==> Late(threshold, s.sh.events) + InFlight(s.workers) <= |s.workers| - 1
    requires !s.sh.tally.stopped ==> Late(threshold, s.sh.events) == 0
    requires InFlight(t.workers) + One(Flying(s.workers[w])) == InFlight(s.workers) + One(Flying(t.workers[w]))
    requires s.sh.tally.stopped ==> t.sh.tally.stopped
    requires t.sh.tally.stopped && !s.sh.tally.stopped ==> s.workers[w].Advanced?
    requires Late(threshold, t.sh.events) == Late(threshold, s.sh.events) + One(s.sh.tally.stopped && s.workers[w].Advanced?)
    requires Flying(t.workers[w]) ==> Flying(s.workers[w]) || !s.sh.tally.stopped
    requires s.workers[w].Advanced? ==> !Flying(t.workers[w])
    ensures t.sh.tally.stopped ==> Late(threshold, t.sh.events) + InFlight(t.workers) <= |t.workers| - 1
    ensures !t.sh.tally.stopped ==> Late(threshold, t.sh.events) == 0
  {
  }

  lemma {:induction false} StoppingStep(s: State, a: Action, threshold: nat)
    requires Shape(s) && Stopping(s, threshold) && Enabled(s, a) && s.sh.tally == TallyOf(threshold, s.sh.events)
    ensures Stopping(Apply(s, a), threshold)
    ensures Apply(s, a).sh.tally == TallyOf(threshold, Apply(s, a).sh.events)
  {
    match a
    case Dispatch => StoppingDispatch(s, threshold);
    case Deliver(w) => InFlightUpdate(s.workers, w, Received(s.disp.p));
    case Quit(w) => InFlightUpdate(s.workers, w, Exited);
    case Work(w, code, text) => StoppingWork(s, w, code, text, threshold);
  }

  lemma {:induction false} InvInit(s: State, threshold: nat)
    requires Initial(s, threshold)
    ensures Inv(s, threshold)
  {
    forall i: nat ensures Accounted(s, Writing, i) && Accounted(s, Recording, i) {
      NothingHeld(s.workers, Writing, i);
      NothingHeld(s.workers, Recording, i);
    }
    NothingHeld(s.workers, Advancing, 0);
  }

  lemma {:induction false} InvStep(s: State, a: Action, threshold: nat)
    requires Inv(s, threshold) && Enabled(s, a)
    ensures Inv(Apply(s, a), threshold)
  {
    ShapeStep(s, a);
    forall i: nat ensures Accounted(Apply(s, a), Writing, i) && Accounted(Apply(s, a), Recording, i) {
      AccountedStep(s, a, Writing, i);
      AccountedStep(s, a, Recording, i);
    }
    TicksStep(s, a);
    RowsStep(s, a);
    StoppingStep(s, a, threshold);
  }

  lemma {:induction false} SameSize(s: State, a: Action)
    requires Enabled(s, a)
    ensures Apply(s, a).contracts == s.contracts && |Apply(s, a).workers| == |s.workers|
  {
  }

  /** The invariant holds in every reachable state. */
  lemma {:induction false} InvReachable(s0: State, run: seq<Action>, threshold: nat)
    requires Initial(s0, threshold) && Exec(s0, run).Some?
    ensures Inv(Exec(s0, run).value, threshold)
    ensures Exec(s0, run).value.contracts == s0.contracts && |Exec(s0, run).value.workers| == |s0.workers|
  {
    if run == [] {
      InvInit(s0, threshold);
    } else {
      var n := |run| - 1;
      InvReachable(s0, run[..n], threshold);
      InvStep(Exec(s0, run[..n]).value, run[n], threshold);
      SameSize(Exec(s0, run[..n]).value, run[n]);
    }
  }

  // ---- No deadlock, and every run ends ----

  function Rank(ph: Phase): nat {
    match ph
    case Received(_) => 7 case Checking(_) => 6 case Wrote(_, _, _) => 5 case Advanced(_, _, _) => 4 case Recorded => 3
    case SkipStart(_) => 6 case SkipDetailed(_, _) => 5 case SkipWrote(_, _) => 4 case SkipRecorded(_) => 3
    case Idle => 1 case Exited => 0
  }

  function Ranks(ws: seq<Phase>): nat { if ws == [] then 0 else Rank(ws[0]) + Ranks(ws[1..]) }

  lemma {:induction false} RanksUpdate(ws: seq<Phase>, w: nat, ph: Phase)
    requires w < |ws|
    ensures Ranks(ws[w := ph]) + Rank(ws[w]) == Ranks(ws) + Rank(ph)
  {
    if w == 0 {
      assert ws[0 := ph][1..] == ws[1..];
    } else {
      RanksUpdate(ws[1..], w - 1, ph);
      assert ws[w := ph][1..] == ws[1..][w - 1 := ph];
    }
  }

  function DispatcherRank(s: State): nat
    requires NextIndex(s) <= |s.contracts|
  {
    var rest := 10 * (|s.contracts| - NextIndex(s));
    match s.disp
    case At(_) => rest + 2
    case Sending(_) => rest + 11
    case Skipping(_, ph) => rest + 2 + Rank(ph)
    case Closed => 1
    case Finished => 0
  }

  function Measure(s: State): nat
    requires NextIndex(s) <= |s.contracts|
  {
    DispatcherRank(s) + Ranks(s.workers)
  }

  lemma {:induction false} WorkRank(s: State, ph: Phase, code: Reason, text: string)
    requires !ph.Idle? && !ph.Exited? && (ph.SkipDetailed? || ph.Checking? ==> Writable(s, ph.i))
    ensures Rank(WorkStep(s, ph, code, text).1) < Rank(ph)
  {
  }

  lemma {:induction false} DispatchRank(s: State)
    requires Shape(s) && Enabled(s, Dispatch)
    ensures var t := DispatchStep(s);
            NextIndex(t) <= |t.contracts| && t.contracts == s.contracts && t.workers == s.workers && DispatcherRank(t) < DispatcherRank(s)
  {
  }

  /** Every action brings the pool closer to its end. */
  lemma {:induction false} MeasureDecreases(s: State, a: Action)
    requires Shape(s) && Enabled(s, a)
    ensures NextIndex(Apply(s, a)) <= |Apply(s, a).contracts| && Measure(Apply(s, a)) < Measure(s)
  {
    match a
    case Dispatch => DispatchRank(s);
    case Deliver(w) => RanksUpdate(s.workers, w, Received(s.disp.p));
    case Quit(w) => RanksUpdate(s.workers, w, Exited);
    case Work(w, code, text) =>
      WorkRank(s, s.workers[w], code, text);
      RanksUpdate(s.workers, w, WorkStep(s, s.workers[w], code, text).1);
  }

  /** Every interleaving is finite: its length is bounded by the measure of the start. */
  lemma {:induction false} RunsAreFinite(s0: State, run: seq<Action>, threshold: nat)
    requires Initial(s0, threshold) && Exec(s0, run).Some?
    ensures Shape(Exec(s0, run).value) && |run| + Measure(Exec(s0, run).value) <= Measure(s0)
  {
    if run == [] {
      InvInit(s0, threshold);
    } else {
      var n := |run| - 1;
      RunsAreFinite(s0, run[..n], threshold);
      ShapeStep(Exec(s0, run[..n]).value, run[n]);
      MeasureDecreases(Exec(s0, run[..n]).value, run[n]);
    }
  }

  /** No reachable state short of the end is stuck. */
  lemma {:induction false} NeverStuck(s: State, threshold: nat) returns (a: Action)
    requires Inv(s, threshold) && !s.disp.Finished?
    ensures Enabled(s, a)
  {
    a := Dispatch;
    if s.disp.Skipping? {
      OwedIsUnwrittenAt(s, threshold);
    } else if s.disp.Sending? {
      a := WorkerAction(s, threshold, 0);
    } else if s.disp.Closed? && !Enabled(s, Dispatch) {
      var w :| 0 <= w < |s.workers| && !s.workers[w].Exited?;
      a := if s.workers[w].Idle? then Quit(w) else Dispatch;
      if !s.workers[w].Idle? { a := WorkerAction(s, threshold, w); }
    }
  }

  lemma {:induction false} OwedIsUnwrittenAt(s: State, threshold: nat)
    requires Inv(s, threshold) && s.disp.Skipping?
    ensures Enabled(s, Dispatch)
  {
  }

  /** A worker that is neither waiting for the channel to close nor gone can move. */
  lemma {:induction false} WorkerAction(s: State, threshold: nat, w: nat) returns (a: Action)
    requires Inv(s, threshold) && w < |s.workers| && !s.workers[w].Exited? && (s.workers[w].Idle? ==> s.disp.Sending?)
    ensures Enabled(s, a)
  {
    a := if s.workers[w].Idle? then Deliver(w) else Work(w, NotFound, "");
    var ph := s.workers[w];
    if ph.SkipDetailed? || ph.Checking? {
      HoldersUpdate(s.workers, w, ph, Writing, ph.i);
      assert Accounted(s, Writing, ph.i);
      OwedIsUnwritten(s, ph.i);
    }
  }

  // ---- The finished pool ----

  /** The last loop of `checkProviderFiles`. */
  method CompactResults(results: seq<Option<Row>>) returns (out: seq<Row>)
    ensures out == Somes(results)
  {
    out := [];
    for k := 0 to |results|
      invariant out == Somes(results[..k])
    {
      assert results[..k + 1][..k] == results[..k];
      if results[k].Some? { out := out + [results[k].value]; }
    }
    assert results[..|results|] == results;
  }

  /** A provider that cannot be reached: the same failure for every non-nil contract, in input order. */
  method FillProviderResults(cs: seq<Option<ContractRef>>, code: Reason, detail: Detail) returns (out: seq<Row>)
    ensures |out| == |Somes(cs)|
    ensures forall j | 0 <= j < |out| :: out[j] == Row(Somes(cs)[j], code, detail)
  {
    out := [];
    for k := 0 to |cs|
      invariant |out| == |Somes(cs[..k])|
      invariant forall j | 0 <= j < |out| :: out[j] == Row(Somes(cs[..k])[j], code, detail)
    {
      assert cs[..k + 1][..k] == cs[..k];
      if cs[k].Some? { out := out + [Row(cs[k].value, code, detail)]; }
    }
    assert cs[..|cs|] == cs;
  }

  /** How many rows there are is also how many progress ticks are due. */
  lemma {:induction false} RefsAreLeft(cs: seq<Option<ContractRef>>, p: nat)
    requires p <= |cs|
    ensures |Somes(cs[p..])| == Left(cs, p)
    decreases |cs| - p
  {
    if p < |cs| {
      RefsAreLeft(cs, p + 1);
      RefsCons(cs[p], cs[p + 1..]);
      assert cs[p..] == [cs[p]] + cs[p + 1..];
    }
  }

  lemma {:induction false} RefsCons(c: Option<ContractRef>, cs: seq<Option<ContractRef>>)
    ensures |Somes([c] + cs)| == One(c.Some?) + |Somes(cs)|
  {
    if cs == [] {
      assert [c] + cs == [c] && [c][..0] == [];
    } else {
      RefsCons(c, cs[..|cs| - 1]);
      assert ([c] + cs)[..|cs|] == [c] + cs[..|cs| - 1];
    }
  }

  lemma {:induction false} CompactMatches(cs: seq<Option<ContractRef>>, results: seq<Option<Row>>)
    requires |cs| == |results|
    requires forall i | 0 <= i < |cs| :: results[i].Some? <==> cs[i].Some?
    requires forall i | 0 <= i < |cs| && cs[i].Some? :: results[i].value.contract == cs[i].value
    ensures |Somes(results)| == |Somes(cs)|
    ensures forall j | 0 <= j < |Somes(cs)| :: Somes(results)[j].contract == Somes(cs)[j]
  {
    if cs != [] { CompactMatches(cs[..|cs| - 1], results[..|cs| - 1]); }
  }

  /**
   * When the pool has finished, in whatever interleaving: every non-nil contract was written once
   * and recorded once, nothing else was, the rows agree with the records, the output is one row
   * per non-nil contract in input order, and the progress ticks add up.
   */
  lemma {:induction false} PoolExactlyOnce(s0: State, run: seq<Action>, threshold: nat)
    requires Initial(s0, threshold) && Exec(s0, run).Some? && Exec(s0, run).value.disp.Finished?
    ensures var s := Exec(s0, run).value;
            && (forall i: nat :: multiset(s.sh.writes)[i] == One(Wanted(s0, i)) && RecordsOf(s.sh.events, i) == One(Wanted(s0, i)))
            && (forall n | 0 <= n < |s.sh.events| :: EventRow(s, s.sh.events[n]))
            && |Somes(s.sh.results)| == |Somes(s0.contracts)|
            && (forall j | 0 <= j < |Somes(s0.contracts)| :: Somes(s.sh.results)[j].contract == Somes(s0.contracts)[j])
            && s.sh.advanced == Left(s0.contracts, 0)
  {
    InvReachable(s0, run, threshold);
    var s := Exec(s0, run).value;
    forall i: nat ensures multiset(s.sh.writes)[i] == One(Wanted(s0, i)) && RecordsOf(s.sh.events, i) == One(Wanted(s0, i)) {
      NothingHeld(s.workers, Writing, i);
      NothingHeld(s.workers, Recording, i);
      assert Accounted(s, Writing, i) && Accounted(s, Recording, i);
    }
    NothingHeld(s.workers, Advancing, 0);
    forall i | 0 <= i < |s.contracts| ensures s.sh.results[i].Some? <==> s.contracts[i].Some? {
      assert multiset(s.sh.writes)[i] == One(Wanted(s0, i));
    }
    CompactMatches(s.contracts, s.sh.results);
  }

  lemma {:induction false} SomeRecord(events: seq<Event>)
    requires events != []
    ensures exists i: nat :: RecordsOf(events, i) >= 1
  {
    assert RecordsOf(events, events[|events| - 1].index) >= 1;
  }

  lemma {:induction false} RecordsAddUp(events: seq<Event>, cs: seq<Option<ContractRef>>, p: nat)
    requires p <= |cs| && forall i: nat :: RecordsOf(events, i) == if p <= i < |cs| && cs[i].Some? then 1 else 0
    ensures |events| == Left(cs, p)
    decreases |cs| - p
  {
    if p == |cs| {
      if events != [] { SomeRecord(events); }
    } else if cs[p].None? {
      RecordsAddUp(events, cs, p + 1);
    } else {
      var n := RecordIndex(events, p);
      var rest := events[..n] + events[n + 1..];
      forall i: nat ensures RecordsOf(rest, i) == if p + 1 <= i < |cs| && cs[i].Some? then 1 else 0 {
        RecordsRemove(events, n, i);
      }
      RecordsAddUp(rest, cs, p + 1);
    }
  }

  lemma {:induction false} RecordIndex(events: seq<Event>, i: nat) returns (n: nat)
    requires RecordsOf(events, i) >= 1
    ensures n < |events| && events[n].index == i
  {
    n := |events| - 1;
    if events[n].index != i { n := RecordIndex(events[..n], i); }
  }

  lemma {:induction false} RecordsRemove(events: seq<Event>, n: nat, i: nat)
    requires n < |events|
    ensures RecordsOf(events[..n] + events[n + 1..], i) + One(events[n].index == i) == RecordsOf(events, i)
  {
    var last := |events| - 1;
    if n == last {
      assert events[..n] + events[n + 1..] == events[..last];
    } else {
      RecordsRemove(events[..last], n, i);
      assert (events[..n] + events[n + 1..])[..last - 1] == events[..last][..n] + events[..last][n + 1..];
    }
  }

  /**
   * The accounts of a finished pool: checks plus skips are the non-nil contracts, the details
   * count failures plus skips, skipping happened only after more than `threshold` consecutive
   * failures, and at most k - 1 checks were recorded after that point.
   */
  lemma {:induction false} PoolAccounts(s0: State, run: seq<Action>, threshold: nat)
    requires Initial(s0, threshold) && Exec(s0, run).Some? && Exec(s0, run).value.disp.Finished?
    ensures var s := Exec(s0, run).value; var skips := |s.sh.events| - Checks(s.sh.events);
            && SumValues(s.sh.tally.stats) + skips == Left(s0.contracts, 0)
            && SumValues(s.sh.tally.details) == Failures(s.sh.events) + skips
            && s.sh.tally.failsInARow == TrailingFailures(s.sh.events)
            && (s.sh.tally.stopped <==> EverExceeded(threshold, s.sh.events))
            && SkipsAfterStop(threshold, s.sh.events)
            && Late(threshold, s.sh.events) <= |s0.workers| - 1
  {
    InvReachable(s0, run, threshold);
    PoolExactlyOnce(s0, run, threshold);
    var s := Exec(s0, run).value;
    TallyAccounts(threshold, s.sh.events);
    RecordsAddUp(s.sh.events, s0.contracts, 0);
  }
}
