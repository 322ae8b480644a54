/** Where the verdicts of a finished pool come from: the checks that ended, and the short circuit. */
module PoolOutcomes {
  import opened Arithmetic
  import opened Domain
  import opened FailureTally
  import opened WorkerPool

  /** Step `n` of the run ends worker `w`'s check of contract `i` with this code and text. */
  ghost predicate EndsAt(s0: State, run: seq<Action>, n: nat, w: nat, i: nat, code: Reason, text: string) {
    && n < |run| && run[n] == Work(w, code, text) && Exec(s0, run[..n]).Some?
    && w < |Exec(s0, run[..n]).value.workers| && Exec(s0, run[..n]).value.workers[w] == Checking(i)
  }

  ghost predicate Ended(s0: State, run: seq<Action>, i: nat, code: Reason, detail: Detail) {
    exists n: nat, w: nat, text: string :: EndsAt(s0, run, n, w, i, code, text) && detail == CheckDetail(text)
  }

  ghost predicate PhaseOutcome(s0: State, run: seq<Action>, ph: Phase) {
    match ph
    case Wrote(i, code, detail) => Ended(s0, run, i, code, detail)
    case Advanced(i, code, detail) => Ended(s0, run, i, code, detail)
    case _ => true
  }

  ghost predicate EventOutcome(s0: State, run: seq<Action>, e: Event) { e.Checked? ==> Ended(s0, run, e.index, e.code, e.detail) }

  ghost predicate Outcomes(s0: State, run: seq<Action>, s: State) {
    && (forall w | 0 <= w < |s.workers| :: PhaseOutcome(s0, run, s.workers[w]))
    && (forall n | 0 <= n < |s.sh.events| :: EventOutcome(s0, run, s.sh.events[n]))
  }

  lemma {:induction false} EndedMore(s0: State, run: seq<Action>, i: nat, code: Reason, detail: Detail)
    requires run != [] && Ended(s0, run[..|run| - 1], i, code, detail)
    ensures Ended(s0, run, i, code, detail)
  {
    var init := run[..|run| - 1];
    var n: nat, w: nat, text: string :| EndsAt(s0, init, n, w, i, code, text) && detail == CheckDetail(text);
    assert init[..n] == run[..n];
    assert EndsAt(s0, run, n, w, i, code, text);
  }

  lemma {:induction false} OutcomesMore(s0: State, run: seq<Action>, s: State)
    requires run != [] && Outcomes(s0, run[..|run| - 1], s)
    ensures Outcomes(s0, run, s)
  {
    forall w | 0 <= w < |s.workers| ensures PhaseOutcome(s0, run, s.workers[w]) {
      var ph := s.workers[w];
      assert PhaseOutcome(s0, run[..|run| - 1], ph);
      if ph.Wrote? || ph.Advanced? { EndedMore(s0, run, ph.i, ph.code, ph.detail); }
    }
    forall n | 0 <= n < |s.sh.events| ensures EventOutcome(s0, run, s.sh.events[n]) {
      var e := s.sh.events[n];
      assert EventOutcome(s0, run[..|run| - 1], e);
      if e.Checked? { EndedMore(s0, run, e.index, e.code, e.detail); }
    }
  }

  /** The step of a job: a check that ends supplies its own code and text, everything else passes them on. */
  lemma {:induction false} WorkOutcome(s0: State, run: seq<Action>, s: State, w: nat, code: Reason, text: string)
    requires run != [] && Exec(s0, run[..|run| - 1]) == Some(s) && run[|run| - 1] == Work(w, code, text)
    requires Enabled(s, Work(w, code, text)) && Outcomes(s0, run, s)
    ensures Outcomes(s0, run, Apply(s, Work(w, code, text)))
  {
    var ph := s.workers[w];
    var (sh, ph') := WorkStep(s, ph, code, text);
    if ph.Checking? {
      assert EndsAt(s0, run, |run| - 1, w, ph.i, code, text);
    }
    assert PhaseOutcome(s0, run, ph);
    assert PhaseOutcome(s0, run, ph');
    forall n | 0 <= n < |sh.events| ensures EventOutcome(s0, run, sh.events[n]) {
      assert n < |s.sh.events| ==> EventOutcome(s0, run, s.sh.events[n]);
    }
  }

  lemma {:induction false} DispatchOutcome(s0: State, run: seq<Action>, s: State)
    requires Enabled(s, Dispatch) && Outcomes(s0, run, s)
    ensures Outcomes(s0, run, DispatchStep(s))
  {
    var t := DispatchStep(s);
    forall n | 0 <= n < |t.sh.events| ensures EventOutcome(s0, run, t.sh.events[n]) {
      assert n < |s.sh.events| ==> EventOutcome(s0, run, s.sh.events[n]);
    }
  }

  lemma {:induction false} OutcomesReachable(s0: State, run: seq<Action>, threshold: nat)
    requires Initial(s0, threshold) && Exec(s0, run).Some?
    ensures Outcomes(s0, run, Exec(s0, run).value)
  {
    if run != [] {
      var n := |run| - 1;
      OutcomesReachable(s0, run[..n], threshold);
      var s := Exec(s0, run[..n]).value;
      OutcomesMore(s0, run, s);
      match run[n]
      case Dispatch => DispatchOutcome(s0, run, s);
      case Work(w, code, text) => WorkOutcome(s0, run, s, w, code, text);
      case Deliver(_) =>
      case Quit(_) =>
    }
  }

  // ---- The verdict of every contract ----

  /** The reason and details of contract `i` are those a check of it ended with, or those of the short circuit. */
  ghost predicate Earned(s0: State, run: seq<Action>, i: nat, row: Row)
    requires Exec(s0, run).Some?
  {
    Ended(s0, run, i, row.reason, row.detail) || (row.reason == UnavailableProvider && WasSkipped(s0, run, i, row.detail))
  }

  ghost predicate WasSkipped(s0: State, run: seq<Action>, i: nat, detail: Detail)
    requires Exec(s0, run).Some?
  {
    Skipped(i, detail) in Exec(s0, run).value.sh.events
  }

  /**
   * When the pool has finished, in whatever interleaving: every record of a check repeats how a
   * check of that contract ended, the row says the same, and every contract without such a check
   * was skipped and reported unavailable.
   */
  lemma {:induction false} PoolReportsChecks(s0: State, run: seq<Action>, threshold: nat)
    requires Initial(s0, threshold) && Exec(s0, run).Some? && Exec(s0, run).value.disp.Finished?
    ensures var s := Exec(s0, run).value;
            && (forall n | 0 <= n < |s.sh.events| && s.sh.events[n].Checked? ::
                  var e := s.sh.events[n]; Ended(s0, run, e.index, e.code, e.detail) && RowIs(s, e.index, e.code, e.detail))
            && |s.sh.results| == |s0.contracts|
            && (forall i: nat | Wanted(s0, i) :: s.sh.results[i].Some? && Earned(s0, run, i, s.sh.results[i].value))
  {
    var s := Exec(s0, run).value;
    InvReachable(s0, run, threshold);
    PoolExactlyOnce(s0, run, threshold);
    OutcomesReachable(s0, run, threshold);
    forall n | 0 <= n < |s.sh.events| && s.sh.events[n].Checked?
      ensures var e := s.sh.events[n]; Ended(s0, run, e.index, e.code, e.detail) && RowIs(s, e.index, e.code, e.detail)
    {
      assert EventOutcome(s0, run, s.sh.events[n]) && EventRow(s, s.sh.events[n]);
    }
    forall i: nat | Wanted(s0, i) ensures s.sh.results[i].Some? && Earned(s0, run, i, s.sh.results[i].value) {
      assert RecordsOf(s.sh.events, i) == 1;
      var n := RecordIndex(s.sh.events, i);
      assert EventOutcome(s0, run, s.sh.events[n]) && EventRow(s, s.sh.events[n]);
    }
  }

  /** The position of the j-th non-nil entry. */
  lemma {:induction false} SomesIndex<T>(s: seq<Option<T>>, j: nat) returns (i: nat)
    requires j < |Somes(s)|
    ensures i < |s| && s[i] == Some(Somes(s)[j]) && |Somes(s[..i])| == j
  {
    var n := |s| - 1;
    if j < |Somes(s[..n])| {
      i := SomesIndex(s[..n], j);
      assert s[..n][..i] == s[..i];
    } else {
      i := n;
    }
  }

  lemma {:induction false} SameCount(cs: seq<Option<ContractRef>>, results: seq<Option<Row>>, i: nat)
    requires |cs| == |results| && i <= |cs| && forall k | 0 <= k < |cs| :: results[k].Some? <==> cs[k].Some?
    ensures |Somes(cs[..i])| == |Somes(results[..i])|
  {
    if i > 0 {
      SameCount(cs, results, i - 1);
      assert cs[..i][..i - 1] == cs[..i - 1] && results[..i][..i - 1] == results[..i - 1];
    }
  }

  /** Row j of the output belongs to the j-th non-nil contract and was earned by it. */
  lemma {:induction false} OutputEarned(s0: State, run: seq<Action>, threshold: nat, j: nat) returns (i: nat)
    requires Initial(s0, threshold) && Exec(s0, run).Some? && Exec(s0, run).value.disp.Finished?
    requires j < |Somes(Exec(s0, run).value.sh.results)|
    ensures Wanted(s0, i) && |Somes(s0.contracts[..i])| == j
    ensures var row := Somes(Exec(s0, run).value.sh.results)[j]; row.contract == s0.contracts[i].value && Earned(s0, run, i, row)
  {
    var s := Exec(s0, run).value;
    InvReachable(s0, run, threshold);
    PoolReportsChecks(s0, run, threshold);
    i := SomesIndex(s.sh.results, j);
    WrittenAreWanted(s0, run, threshold);
    SameCount(s.contracts, s.sh.results, i);
  }

  lemma {:induction false} WrittenAreWanted(s0: State, run: seq<Action>, threshold: nat)
    requires Initial(s0, threshold) && Exec(s0, run).Some? && Exec(s0, run).value.disp.Finished?
    ensures var s := Exec(s0, run).value;
            && s.contracts == s0.contracts && |s.sh.results| == |s.contracts|
            && (forall k | 0 <= k < |s.contracts| :: s.sh.results[k].Some? <==> s.contracts[k].Some?)
            && (forall k | 0 <= k < |s.contracts| && s.sh.results[k].Some? :: s.sh.results[k].value.contract == s.contracts[k].value)
  {
    var s := Exec(s0, run).value;
    InvReachable(s0, run, threshold);
    PoolExactlyOnce(s0, run, threshold);
    forall k | 0 <= k < |s.contracts| ensures s.sh.results[k].Some? <==> s.contracts[k].Some? {
      assert multiset(s.sh.writes)[k] == One(Wanted(s0, k));
    }
  }
}
