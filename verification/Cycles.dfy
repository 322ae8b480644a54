/** What every StoreProof cycle and every run of its loop guarantees. */
module Cycles {
  import opened Domain
  import opened Endpoints
  import opened Requests
  import opened Sharding
  import opened Merging
  import opened ProofPass
  import opened Commit
  import opened StoreProofs
  import AR = AgentRun
  import CC = ContractClosing

  /** `run` is a cycle of world `w` from memories `m`, under the schedules `s`: the contract of `StoreProof`. */
  ghost predicate Cycle(cfg: Config, w: World, m: Memories, s: Schedules, run: Run, keys: seq<string>) {
    Exact(cfg, w, run) && Faithful(w, run, keys) && RealPasses(w, m, s, run)
  }

  predicate RepositorySucceeds(w: World) { w.commitMain && w.statusesMain && w.commitDeferred && w.statusesDeferred }

  /** Every verdict had to be written: the cycle returned no error, or its repository calls succeeded after a main pass. */
  ghost predicate Complete(w: World, run: Run) {
    run.abort.None? || (RepositorySucceeds(w) && Finished(run.main))
  }

  // ---- Errors ----

  /** A return without error means that everything was written; a failed write is an error unless the wait was cancelled. */
  lemma {:induction false} ErrorsAreReported(cfg: Config, w: World, run: Run)
    requires Exact(cfg, w, run)
    ensures run.abort.None? <==>
              && Finished(run.main) && w.statusesMain && run.abort != Some(Cancelled)
              && (SettledKeys(run.main.value.results) != {} ==> w.commitMain)
              && (PendingKeys(run.main.value.results) != {} ==> w.commitDeferred && w.statusesDeferred)
    ensures run.abort == Some(PassError) <==> run.main.Some? && run.main.value.Failed?
    ensures Complete(w, run) ==> Finished(run.main) && WrittenKeys(w, run.main.value.results) == run.main.value.results.Keys
    ensures Finished(run.main) && RepositorySucceeds(w) ==> run.abort.None? || run.abort == Some(Cancelled)
  {
    if run.abort.None? { AllSettled(run.main.value.results); }
  }

  lemma {:induction false} AllSettled(results: map<string, Check>)
    ensures PendingKeys(results) == {} ==> SettledKeys(results) == results.Keys
  {
    forall k | k in results ensures k in SettledKeys(results) || k in PendingKeys(results) {}
  }

  // ---- Exactly one commit ----

  lemma {:induction false} PassesAreResults(w: World, m: Memories, s: Schedules, run: Run)
    requires RealPasses(w, m, s, run) && Finished(run.main) && PipeFree(Active(w).value)
    ensures ResultsFor(Active(w).value, run.main.value.results)
    ensures RetryResults(run).Some? ==> ResultsFor(Pending(w, run.main.value), RetryResults(run).value)
  {
    PassVerdicts(MainInputs(w, m), s.order, s.completion);
    if RetryResults(run).Some? {
      assert PipeFree(Pending(w, run.main.value));
      PassVerdicts(RetryInputs(w, m, run.main.value), s.retryOrder, s.retryCompletion);
    }
  }

  /**
   * On every cycle that returns no error, and on every cycle whose repository calls succeed and
   * whose main pass returns, over all exits, each active relation is committed exactly once. Its
   * value is valid exactly when the main row is valid, or the main row is transient and the retry
   * row is valid, and a main row that is not transient is what is committed.
   */
  lemma {:induction false} CommitExactlyOnce(cfg: Config, w: World, m: Memories, s: Schedules, run: Run, keys: seq<string>, r: Relation)
    requires Cycle(cfg, w, m, s, run, keys) && Complete(w, run)
    requires Active(w).Some? && r in Active(w).value && PipeFree(Active(w).value)
    ensures Finished(run.main) && RelationKey(r) in run.main.value.results
    ensures var main := run.main.value.results; var retry := RetryResults(run); var k := RelationKey(r);
            && CommittedOnce(run.committed, r, Decision(main, retry, k).reason)
            && (Decision(main, retry, k).reason == ValidStorageProof <==>
                  || main[k].reason == ValidStorageProof
                  || (IsRetriable(main[k].reason) && retry.Some? && k in retry.value && retry.value[k].reason == ValidStorageProof))
            && (!IsRetriable(main[k].reason) ==> CommittedOnce(run.committed, r, main[k].reason))
  {
    ErrorsAreReported(cfg, w, run);
    PassesAreResults(w, m, s, run);
    AllCommittedOnce(Active(w).value, run.main.value.results, RetryResults(run), run.committed, keys, r);
    DecisionValidity(Active(w).value, run.main.value.results, RetryResults(run), r);
  }

  /**
   * What is committed, in terms of what agents said: a relation is written as valid exactly when an
   * agent of the main pass returned a valid row for it, or its main verdict is transient and an
   * agent of a finished retry did.
   */
  lemma {:induction false} CommittedValidIff(cfg: Config, w: World, m: Memories, s: Schedules, run: Run, keys: seq<string>, r: Relation)
    requires Cycle(cfg, w, m, s, run, keys) && Complete(w, run)
    requires Active(w).Some? && r in Active(w).value && PipeFree(Active(w).value) && OneToOne(Active(w).value)
    ensures Finished(run.main) && RelationKey(r) in run.main.value.results
    ensures CommittedOnce(run.committed, r, ValidStorageProof) <==>
              || AR.SaysValid(MainInputs(w, m), s.order, r)
              || (IsRetriable(run.main.value.results[RelationKey(r)].reason) && Finished(run.retry)
                  && AR.SaysValid(RetryInputs(w, m, run.main.value), s.retryOrder, r))
  {
    CommitExactlyOnce(cfg, w, m, s, run, keys, r);
    var main, retry, k := run.main.value.results, RetryResults(run), RelationKey(r);
    OneReason(run.committed, r, Decision(main, retry, k).reason, ValidStorageProof);
    AR.PassValidity(MainInputs(w, m), s.order, s.completion, r);
    if IsRetriable(main[k].reason) && Finished(run.retry) {
      var pending := Pending(w, run.main.value);
      assert r in pending && PipeFree(pending) && OneToOne(pending);
      AR.PassValidity(RetryInputs(w, m, run.main.value), s.retryOrder, s.retryCompletion, r);
    }
  }

  lemma {:induction false} OneReason(rows: seq<ProofCheck>, r: Relation, a: Reason, b: Reason)
    requires CommittedOnce(rows, r, a)
    ensures CommittedOnce(rows, r, b) <==> a == b
  {
  }

  /** Whatever fails, no relation is ever committed twice in a cycle. */
  lemma {:induction false} CommitAtMostOnce(cfg: Config, w: World, m: Memories, s: Schedules, run: Run, keys: seq<string>, r: Relation)
    requires Cycle(cfg, w, m, s, run, keys)
    requires Active(w).Some? && r in Active(w).value && PipeFree(Active(w).value)
    ensures CommittedAtMostOnce(run.committed, r)
  {
    if Finished(run.main) {
      PassesAreResults(w, m, s, run);
      RowsDiffer(Active(w).value, run.main.value.results, RetryResults(run), run.committed, keys, r);
    }
  }

  /** A verdict that no retry can change is committed as soon as the main commit succeeds, whatever fails afterwards. */
  lemma {:induction false} SettledSurvivesErrors(cfg: Config, w: World, m: Memories, s: Schedules, run: Run, keys: seq<string>, r: Relation)
    requires Cycle(cfg, w, m, s, run, keys) && Finished(run.main) && w.commitMain
    requires r in Active(w).value && PipeFree(Active(w).value)
    requires RelationKey(r) in SettledKeys(run.main.value.results)
    ensures CommittedOnce(run.committed, r, run.main.value.results[RelationKey(r)].reason)
  {
    PassesAreResults(w, m, s, run);
    RowsDiffer(Active(w).value, run.main.value.results, RetryResults(run), run.committed, keys, r);
    assert RelationKey(r) in WrittenKeys(w, run.main.value.results);
    var i :| 0 <= i < |keys| && keys[i] == RelationKey(r);
    assert Concerns(run.committed[i], r);
  }

  lemma {:induction false} PartMembers(l: CC.Ledger, rs: seq<Relation>, closed: bool)
    ensures forall r :: r in CC.Part(l, rs, closed) <==> r in rs && CC.IsClosed(l, r) == closed
  {
    if rs != [] {
      PartMembers(l, rs[..|rs| - 1], closed);
      assert rs == rs[..|rs| - 1] + [rs[|rs| - 1]];
    }
  }

  /** A relation the cycle started from is either closed or committed exactly once, never both, never neither. */
  lemma {:induction false} ClosedOrCommitted(cfg: Config, w: World, m: Memories, s: Schedules, run: Run, keys: seq<string>, r: Relation)
    requires Cycle(cfg, w, m, s, run, keys) && Complete(w, run)
    requires w.contracts.Some? && r in w.contracts.value && PipeFree(w.contracts.value)
    requires forall x | x in w.contracts.value && RelationKey(x) == RelationKey(r) :: x == r
    ensures w.report.Some?
    ensures if CC.IsClosed(ClosingLedger(w), r) then forall i | 0 <= i < |run.committed| :: !Concerns(run.committed[i], r)
            else exists reason :: CommittedOnce(run.committed, r, reason)
  {
    ErrorsAreReported(cfg, w, run);
    var l, rs := ClosingLedger(w), w.contracts.value;
    PartMembers(l, rs, false);
    if CC.IsClosed(l, r) {
      PassesAreResults(w, m, s, run);
      forall i | 0 <= i < |run.committed| ensures !Concerns(run.committed[i], r) {
        DecisionIdentity(Active(w).value, run.main.value.results, RetryResults(run), keys[i]);
        assert keys[i] in run.main.value.results.Keys;
        var x :| x in Active(w).value && RelationKey(x) == keys[i];
      }
    } else {
      CommitExactlyOnce(cfg, w, m, s, run, keys, r);
    }
  }

  /** With at least two agents, the retry never returns a provider to its main-pass agent. */
  lemma {:induction false} RetryGoesElsewhere(cfg: Config, w: World, m: Memories, s: Schedules, run: Run, keys: seq<string>, pk: string)
    requires Cycle(cfg, w, m, s, run, keys) && run.retry.Some?
    requires |w.endpoints| >= 2 && Distinct(w.endpoints) && "" !in w.endpoints
    requires pk in run.main.value.assignment && pk in run.retry.value.assignment
    ensures run.retry.value.assignment[pk] != run.main.value.assignment[pk]
  {
    RetryPassChangesAgent(MainInputs(w, m), s.order, s.completion,
                          RetryInputs(w, m, run.main.value), s.retryOrder, s.retryCompletion, pk);
  }

  /** The batches the retry is about to send. */
  ghost function RetryBatches(w: World, m: Memories, main: Outcome, order: seq<string>): seq<Option<Batch>>
    requires Reaches(w, m) && main.Done? && forall pk | pk in order :: pk in Pubkeys(RetryInputs(w, m, main).rels)
  {
    Batches(RetryInputs(w, m, main).rels, RetryInputs(w, m, main).ips, order)
  }

  /**
   * The endpoint a retry uses: the one the forced refresh returned, and the main pass's for a
   * provider the refresh did not return, or when the refresh failed.
   */
  lemma {:induction false} RetryUsesNewEndpoints(cfg: Config, w: World, m: Memories, s: Schedules, run: Run, keys: seq<string>, x: Option<Batch>)
    requires Cycle(cfg, w, m, s, run, keys) && run.retry.Some?
    requires x in RetryBatches(w, m, run.main.value, s.retryOrder)
    ensures x.Some? && x.value.endpoint.Some?
    ensures var pk, sent := x.value.pubkey, x.value.endpoint.value;
            var refreshed, before := RetryRefresh(w, m, run.main.value).0, MainRefresh(w, m).0.value;
            if refreshed.Some? && pk in refreshed.value then
              var storage := refreshed.value[pk].storage;
              sent.ip == storage.ip && sent.port == storage.port && sent.adnlPubkey == storage.publicKey
            else
              && pk in before
              && sent.ip == before[pk].storage.ip && sent.port == before[pk].storage.port && sent.adnlPubkey == before[pk].storage.publicKey
  {
    var i := RetryInputs(w, m, run.main.value);
    BatchContents(i.rels, i.ips, s.retryOrder, x);
  }

  // ---- The outcome of a cycle does not depend on any schedule ----

  /** What the theorems ask of the relations and the agents. */
  ghost predicate Regular(w: World) {
    && Active(w).Some? && PipeFree(Active(w).value) && OneToOne(Active(w).value)
    && AR.Honest(w.fleet) && AR.Honest(w.retryFleet)
  }

  lemma {:induction false} SameMain(w: World, m: Memories, s: Schedules, s': Schedules, main: Outcome, main': Outcome)
    requires MainIs(w, m, s, main) && MainIs(w, m, s', main') && Regular(w)
    ensures main == main'
  {
    AR.HonestIsFaithful(w.fleet, Shards(MainInputs(w, m), s.order));
    ScheduleIndependence(MainInputs(w, m), s.order, s.completion, s'.order, s'.completion);
  }

  lemma {:induction false} SameRetry(w: World, m: Memories, s: Schedules, s': Schedules, main: Outcome, retry: Outcome, retry': Outcome)
    requires RetryIs(w, m, s, main, retry) && RetryIs(w, m, s', main, retry') && Regular(w)
    ensures retry == retry'
  {
    var i := RetryInputs(w, m, main);
    assert PipeFree(i.rels) && OneToOne(i.rels);
    AR.HonestIsFaithful(w.retryFleet, Shards(i, s.retryOrder));
    ScheduleIndependence(i, s.retryOrder, s.retryCompletion, s'.retryOrder, s'.retryCompletion);
  }

  /**
   * Two cycles of the same world from the same memories, whatever the map-iteration orders and the
   * orders in which agents finish: same passes, same error, same times, same memories afterwards,
   * and the same rows are committed.
   */
  lemma {:induction false} CycleIgnoresSchedules(
    cfg: Config, w: World, m: Memories, s: Schedules, run: Run, keys: seq<string>, s': Schedules, run': Run, keys': seq<string>)
    requires Cycle(cfg, w, m, s, run, keys) && Cycle(cfg, w, m, s', run', keys')
    requires Reaches(w, m) ==> Regular(w)
    ensures run.(committed := []) == run'.(committed := [])
    ensures MemoriesAfter(w, m, run) == MemoriesAfter(w, m, run')
    ensures multiset(run.committed) == multiset(run'.committed)
  {
    if Reaches(w, m) { SameMain(w, m, s, s', run.main.value, run'.main.value); }
    if run.retry.Some? { SameRetry(w, m, s, s', run.main.value, run.retry.value, run'.retry.value); }
    if Finished(run.main) {
      DecidedIgnoresOrder(run.committed, keys, run'.committed, keys', WrittenKeys(w, run.main.value.results),
                          run.main.value.results, RetryResults(run));
    }
  }

  /**
   * The main verdicts of a cycle: a relation is reported as unresolved exactly when the refresh did
   * not return its provider, as unanswered exactly when the call to the agent in charge failed, and
   * otherwise with a row of that agent.
   */
  lemma {:induction false} MainVerdictsExplained(cfg: Config, w: World, m: Memories, s: Schedules, run: Run, keys: seq<string>, r: Relation)
    requires Cycle(cfg, w, m, s, run, keys) && Finished(run.main) && Regular(w) && r in Active(w).value
    ensures RelationKey(r) in run.main.value.results
    ensures var i := MainInputs(w, m);
            var check := run.main.value.results[RelationKey(r)];
            var a := Assign(Batches(i.rels, i.ips, s.order), RulesOf(i)).byProvider;
            && (check.reason == ValidStorageProof <==> AR.SaysValid(i, s.order, r))
            && (check.stage == EndpointUnresolved ==> check.reason == IPNotFound)
            && (check.stage == NoResult ==> check.reason == NotFound)
            && (check.stage == EndpointUnresolved || check.stage == NoResult ==> RelationKey(r) in PendingKeys(run.main.value.results))
            && (check.stage == EndpointUnresolved <==> r.pubkey !in i.ips)
            && (check.stage == NoResult <==> r.pubkey in i.ips && r.pubkey in a && !Answered(i.fleet, Shards(i, s.order), a[r.pubkey]))
            && (check.stage.ParsedFrom? ==>
                  && r.pubkey in a && Answered(i.fleet, Shards(i, s.order), a[r.pubkey])
                  && AR.ReportedBy(RowsOf(Answer(i.fleet, Shards(i, s.order), a[r.pubkey])), r, check))
  {
    var i := MainInputs(w, m);
    AR.HonestIsFaithful(w.fleet, Shards(i, s.order));
    AR.VerdictsExplained(i, s.order, s.completion, r);
    AR.PassValidity(i, s.order, s.completion, r);
    RefreshReturnsValid(StaleBook(w, m), Active(w).value, false, w.refresh);
  }

  // ---- Times ----

  /** When a retry is made: everything stored, something transient, a delay configured, no cancellation, and enough time left. */
  lemma {:induction false} RetryIff(cfg: Config, w: World, run: Run)
    requires Exact(cfg, w, run)
    ensures run.retry.Some? <==>
              && Finished(run.main) && MainStored(w, run.main.value.results) && PendingKeys(run.main.value.results) != {}
              && cfg.retryDelay > 0 && w.cancelAfter.None?
              && w.started + w.mainTook + w.beforeSleep + cfg.retryDelay + w.wakeLag + w.afterWake
                 < w.started + CycleInterval(cfg) - RETRY_BUFFER
    ensures run.abort == Some(Cancelled) <==>
              && Finished(run.main) && MainStored(w, run.main.value.results) && PendingKeys(run.main.value.results) != {}
              && cfg.retryDelay > 0 && w.cancelAfter.Some?
              && w.started + w.mainTook + w.beforeSleep < w.started + CycleInterval(cfg) - RETRY_BUFFER
  {
  }

  /** The cycle is anchored at its start and the retry stays inside its window. */
  lemma {:induction false} OnTime(cfg: Config, w: World, run: Run)
    requires Exact(cfg, w, run)
    ensures run.finishedAt >= w.started
    ensures run.abort.None? || run.abort == Some(Cancelled) ==>
              run.finishedAt + run.interval
              == if run.finishedAt < w.started + CycleInterval(cfg) then w.started + CycleInterval(cfg) else run.finishedAt
    ensures run.abort.Some? && run.abort != Some(Cancelled) ==> run.interval == 15 * SECOND
    ensures cfg.interval > 0 ==> CycleInterval(cfg) == cfg.interval
    ensures run.sleepUntil.Some? ==>
              && run.sleepUntil.value <= NextFullAt(cfg, w) - RETRY_BUFFER && run.sleepUntil.value <= w.started + w.mainTook + w.beforeSleep + cfg.retryDelay
              && (run.sleepUntil.value == NextFullAt(cfg, w) - RETRY_BUFFER
                  || run.sleepUntil.value == w.started + w.mainTook + w.beforeSleep + cfg.retryDelay)
    ensures run.retry.Some? ==>
              && run.retryAt.Some? && run.retryAt.value < NextFullAt(cfg, w) - RETRY_BUFFER
              && run.retryAt.value >= w.started + w.mainTook + w.beforeSleep + cfg.retryDelay && cfg.retryDelay > 0
              && run.retryDeadline == Some(NextFullAt(cfg, w) - RETRY_BUFFER)
  {
  }

  datatype Lap = Lap(w: World, m: Memories, s: Schedules, run: Run, keys: seq<string>)

  /** The loop waits at least the returned interval, and a second when it is not positive. */
  function Pause(interval: int): int { if interval <= 0 then SECOND else interval }

  /** A run of the loop: each lap is a cycle, the next one starts after the pause and with the memories left behind. */
  ghost predicate Loop(cfg: Config, laps: seq<Lap>) {
    && (forall i | 0 <= i < |laps| :: Cycle(cfg, laps[i].w, laps[i].m, laps[i].s, laps[i].run, laps[i].keys))
    && forall i | 0 <= i < |laps| - 1 :: Follows(laps[i], laps[i + 1])
  }

  ghost predicate Follows(a: Lap, b: Lap) {
    b.w.started >= a.run.finishedAt + Pause(a.run.interval) && b.m == MemoriesAfter(a.w, a.m, a.run)
  }

  /** Consecutive starts: a full interval after success, at least 15 seconds after an error that is not a cancellation. */
  lemma {:induction false} ConsecutiveStarts(cfg: Config, laps: seq<Lap>, i: nat)
    requires Loop(cfg, laps) && i + 1 < |laps|
    ensures laps[i].run.abort.None? ==> laps[i + 1].w.started >= laps[i].w.started + CycleInterval(cfg)
    ensures laps[i].run.abort.Some? && laps[i].run.abort != Some(Cancelled) ==>
              laps[i + 1].w.started >= laps[i].w.started + FAILURE_INTERVAL
    ensures laps[i + 1].w.started > laps[i].w.started
  {
    var a, b := laps[i], laps[i + 1];
    assert Cycle(cfg, a.w, a.m, a.s, a.run, a.keys) && Follows(a, b);
    OnTime(cfg, a.w, a.run);
  }

  function Successes(laps: seq<Lap>): nat {
    if laps == [] then 0 else Successes(laps[..|laps| - 1]) + (if laps[|laps| - 1].run.abort.None? then 1 else 0)
  }

  /** One interval per error-free lap. */
  function Owed(laps: seq<Lap>, interval: int): int {
    if laps == [] then 0 else Owed(laps[..|laps| - 1], interval) + (if laps[|laps| - 1].run.abort.None? then interval else 0)
  }

  lemma {:induction false} OwedIsProduct(laps: seq<Lap>, interval: int)
    ensures Owed(laps, interval) == Successes(laps) * interval
  {
    if laps != [] {
      var init := laps[..|laps| - 1];
      OwedIsProduct(init, interval);
      assert (Successes(init) + 1) * interval == Successes(init) * interval + interval;
    }
  }

  /** The next start is late enough for the lap before it. */
  ghost predicate Spaced(a: Lap, b: Lap, interval: int) {
    b.w.started >= a.w.started + (if a.run.abort.None? then interval else 0)
  }

  lemma {:induction false} LapsOwed(laps: seq<Lap>, n: nat, interval: int)
    requires n < |laps| && forall i | 0 <= i < |laps| - 1 :: Spaced(laps[i], laps[i + 1], interval)
    ensures laps[n].w.started >= laps[0].w.started + Owed(laps[..n], interval)
  {
    if n > 0 {
      LapsOwed(laps, n - 1, interval);
      assert Spaced(laps[n - 1], laps[n - 1 + 1], interval);
      assert laps[..n][..n - 1] == laps[..n - 1];
    }
  }

  /** Over a whole run, s error-free laps take at least s full intervals. */
  lemma {:induction false} SuccessfulLapsAreSpaced(cfg: Config, laps: seq<Lap>, n: nat)
    requires Loop(cfg, laps) && n < |laps|
    ensures laps[n].w.started >= laps[0].w.started + Successes(laps[..n]) * CycleInterval(cfg)
  {
    forall i | 0 <= i < |laps| - 1 ensures Spaced(laps[i], laps[i + 1], CycleInterval(cfg)) { ConsecutiveStarts(cfg, laps, i); }
    LapsOwed(laps, n, CycleInterval(cfg));
    OwedIsProduct(laps[..n], CycleInterval(cfg));
  }

  lemma {:induction false} RefreshesOfCycleValid(w: World, m: Memories)
    requires AllValid(m.book) && Active(w).Some?
    ensures AllValid(StaleBook(w, m)) && AllValid(MainRefresh(w, m).1)
  {
    RefreshStaysValid(m.book, w.contracts.value, true, w.staleRefresh);
    RefreshStaysValid(StaleBook(w, m), Active(w).value, false, w.refresh);
  }

  lemma {:induction false} MemoryStaysValid(w: World, m: Memories, run: Run)
    requires AllValid(m.book)
    ensures AllValid(MemoriesAfter(w, m, run).book)
  {
    if w.contracts.None? {
    } else if Active(w).None? {
      RefreshStaysValid(m.book, w.contracts.value, true, w.staleRefresh);
    } else {
      RefreshesOfCycleValid(w, m);
      if Reaches(w, m) && Finished(run.main) {
        RefreshStaysValid(MainRefresh(w, m).1, Pending(w, run.main.value), false, w.retryRefresh);
      }
    }
  }

  /** Over any run of the loop every remembered endpoint stays valid. */
  lemma {:induction false} LoopRemembersValid(cfg: Config, laps: seq<Lap>, i: nat)
    requires Loop(cfg, laps) && i < |laps| && AllValid(laps[0].m.book)
    ensures AllValid(laps[i].m.book)
  {
    if i > 0 {
      LoopRemembersValid(cfg, laps, i - 1);
      assert Follows(laps[i - 1], laps[i]);
      MemoryStaysValid(laps[i - 1].w, laps[i - 1].m, laps[i - 1].run);
    }
  }
}
