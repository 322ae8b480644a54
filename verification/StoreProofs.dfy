/** The two-phase StoreProof cycle: main pass, commit, wait, retry elsewhere, commit. */
module StoreProofs {
  import opened Domain
  import opened Endpoints
  import opened Requests
  import opened Merging
  import opened ProofPass
  import opened Commit
  import CC = ContractClosing

  // Durations are in nanoseconds.
  const DEFAULT_INTERVAL: int := 3600 * SECOND
  const FAILURE_INTERVAL: int := 15 * SECOND
  const RETRY_BUFFER: int := 300 * SECOND

  datatype Config = Config(interval: int, retryDelay: int)

  /** Everything the cycle does not decide itself: outcomes of calls and the passing of time. */
  datatype World = World(
    contracts: Option<seq<Relation>>, staleRefresh: Outside,
    report: Option<seq<CC.ContractReport>>, rejectionsStored: bool, refresh: Outside, retryRefresh: Outside,
    jobId: string, clock: string, endpoints: seq<string>, fleet: Fleet, retryFleet: Fleet,
    commitMain: bool, statusesMain: bool, commitDeferred: bool, statusesDeferred: bool,
    started: int, mainTook: nat, beforeSleep: nat, cancelAfter: Option<nat>, wakeLag: nat, afterWake: nat, closing: nat)

  datatype Abort = RepositoryError | PassError | Cancelled

  /** What one cycle did. Times are absolute; the optional ones are absent when not reached. */
  datatype Run = Run(
    abort: Option<Abort>, interval: int, finishedAt: int, committed: seq<ProofCheck>,
    main: Option<Outcome>, retry: Option<Outcome>,
    sleepUntil: Option<int>, retryAt: Option<int>, retryDeadline: Option<int>)

  // ---- Times ----

  function CycleInterval(cfg: Config): int { if cfg.interval <= 0 then DEFAULT_INTERVAL else cfg.interval }
  function NextFullAt(cfg: Config, w: World): int { w.started + CycleInterval(cfg) }
  function Deadline(cfg: Config, w: World): int { NextFullAt(cfg, w) - RETRY_BUFFER }
  function Remain(cfg: Config, w: World, now: int): int { if NextFullAt(cfg, w) < now then 0 else NextFullAt(cfg, w) - now }
  function MainDoneAt(w: World): int { w.started + w.mainTook }
  function SleepsFrom(w: World): int { MainDoneAt(w) + w.beforeSleep }

  function SleepTarget(cfg: Config, w: World): int {
    var full := SleepsFrom(w) + cfg.retryDelay;
    if full > Deadline(cfg, w) then Deadline(cfg, w) else full
  }

  /** `waitUntil` listens for cancellation only when there is time left to wait. */
  predicate Interrupted(cfg: Config, w: World) { w.cancelAfter.Some? && SleepsFrom(w) < SleepTarget(cfg, w) }

  function AwakeAt(cfg: Config, w: World): int {
    (if SleepsFrom(w) < SleepTarget(cfg, w) then SleepTarget(cfg, w) else SleepsFrom(w)) + w.wakeLag + w.afterWake
  }

  // ---- Which exit is taken, read off the world and the main pass ----

  predicate MainCommitted(w: World, results: map<string, Check>) { SettledKeys(results) == {} || w.commitMain }
  predicate MainStored(w: World, results: map<string, Check>) { MainCommitted(w, results) && w.statusesMain }
  predicate DeferredStored(w: World, results: map<string, Check>) {
    PendingKeys(results) == {} || (w.commitDeferred && w.statusesDeferred)
  }

  predicate Finished(main: Option<Outcome>) { main.Some? && main.value.Done? }

  predicate Slept(cfg: Config, w: World, main: Option<Outcome>) {
    && Finished(main) && MainStored(w, main.value.results) && PendingKeys(main.value.results) != {}
    && cfg.retryDelay > 0 && MainDoneAt(w) < Deadline(cfg, w)
  }

  predicate Retried(cfg: Config, w: World, main: Option<Outcome>) {
    Slept(cfg, w, main) && !Interrupted(cfg, w) && AwakeAt(cfg, w) < Deadline(cfg, w)
  }

  /** The error returned: that of the first call that failed, or the cancellation. */
  function AbortOf(cfg: Config, w: World, main: Option<Outcome>): Option<Abort> {
    if main.None? then Some(RepositoryError)
    else if main.value.Failed? then Some(PassError)
    else if !MainStored(w, main.value.results) then Some(RepositoryError)
    else if Slept(cfg, w, main) && Interrupted(cfg, w) then Some(Cancelled)
    else if !DeferredStored(w, main.value.results) then Some(RepositoryError)
    else None
  }

  function FinishOf(cfg: Config, w: World, main: Option<Outcome>): int {
    if !Finished(main) || !MainStored(w, main.value.results) then MainDoneAt(w)
    else if !Slept(cfg, w, main) then MainDoneAt(w) + w.closing
    else if Interrupted(cfg, w) then SleepsFrom(w) + w.cancelAfter.value + w.closing
    else AwakeAt(cfg, w) + w.closing
  }

  function IntervalOf(cfg: Config, w: World, abort: Option<Abort>, finishedAt: int): int {
    if abort.None? || abort == Some(Cancelled) then Remain(cfg, w, finishedAt) else FAILURE_INTERVAL
  }

  /** Abort, times and exits are those of the world and the main pass: no failed call goes unreported. */
  ghost predicate Exact(cfg: Config, w: World, run: Run) {
    && run.abort == AbortOf(cfg, w, run.main)
    && run.finishedAt == FinishOf(cfg, w, run.main)
    && run.interval == IntervalOf(cfg, w, run.abort, run.finishedAt)
    && run.sleepUntil == (if Slept(cfg, w, run.main) then Some(SleepTarget(cfg, w)) else None)
    && (run.retry.Some? <==> Retried(cfg, w, run.main))
    && run.retryAt == (if Retried(cfg, w, run.main) then Some(AwakeAt(cfg, w)) else None)
    && run.retryDeadline == (if Retried(cfg, w, run.main) then Some(Deadline(cfg, w)) else None)
  }

  // ---- What is written ----

  function RetryResults(run: Run): Option<map<string, Check>> {
    if run.retry.Some? && run.retry.value.Done? then Some(run.retry.value.results) else None
  }

  function WrittenKeys(w: World, results: map<string, Check>): set<string> {
    if !MainCommitted(w, results) then {}
    else if w.statusesMain && w.commitDeferred then results.Keys
    else SettledKeys(results)
  }

  /** The committed rows are the decisions for the keys whose commit succeeded, once each. */
  ghost predicate Faithful(w: World, run: Run, keys: seq<string>) {
    && (!Finished(run.main) ==> run.committed == [] && keys == [])
    && (Finished(run.main) ==>
          && Decided(run.committed, keys, run.main.value.results, RetryResults(run))
          && Enumerates(keys, WrittenKeys(w, run.main.value.results)))
  }

  // ---- What the passes work on ----

  /** What the worker remembers between cycles. */
  datatype Memories = Memories(book: Book, sticky: map<string, string>)

  /** Map and completion orders met by the two passes. */
  datatype Schedules = Schedules(order: seq<string>, completion: seq<string>, retryOrder: seq<string>, retryCompletion: seq<string>)

  /** What the closing decision depends on, when there are contracts and a report. */
  function ClosingLedger(w: World): CC.Ledger
    requires w.contracts.Some? && w.report.Some?
  {
    CC.Ledger(w.contracts.value, w.report.value)
  }

  /** The relations left after closing; None when the cycle ends before. */
  ghost function Active(w: World): Option<seq<Relation>> {
    if w.contracts.None? then None
    else if w.contracts.value == [] then Some([])
    else if w.report.None? || !w.rejectionsStored then None
    else Some(CC.Part(ClosingLedger(w), w.contracts.value, false))
  }

  function StaleBook(w: World, m: Memories): Book
    requires w.contracts.Some?
  {
    Refresh(m.book, w.contracts.value, true, w.staleRefresh).1
  }

  ghost function MainRefresh(w: World, m: Memories): (Option<map<string, ProviderIP>>, Book)
    requires Active(w).Some?
  {
    Refresh(StaleBook(w, m), Active(w).value, false, w.refresh)
  }

  /** The cycle gets as far as the main pass. */
  ghost predicate Reaches(w: World, m: Memories) { Active(w).Some? && MainRefresh(w, m).0.Some? }

  ghost function MainInputs(w: World, m: Memories): Inputs
    requires Reaches(w, m)
  {
    Inputs(Active(w).value, MainRefresh(w, m).0.value, w.endpoints, m.sticky, map[], w.fleet)
  }

  ghost function Pending(w: World, main: Outcome): seq<Relation>
    requires Active(w).Some? && main.Done?
  {
    PendingContracts(Active(w).value, PendingKeys(main.results))
  }

  ghost function RetryRefresh(w: World, m: Memories, main: Outcome): (Option<map<string, ProviderIP>>, Book)
    requires Reaches(w, m) && main.Done?
  {
    Refresh(MainRefresh(w, m).1, Pending(w, main), false, w.retryRefresh)
  }

  function Overlaid(ips: map<string, ProviderIP>, refreshed: Option<map<string, ProviderIP>>): map<string, ProviderIP> {
    if refreshed.Some? then ips + refreshed.value else ips
  }

  /** The retry: pending relations, refreshed endpoints over the old ones, main assignment excluded. */
  ghost function RetryInputs(w: World, m: Memories, main: Outcome): Inputs
    requires Reaches(w, m) && main.Done?
  {
    Inputs(Pending(w, main), Overlaid(MainRefresh(w, m).0.value, RetryRefresh(w, m, main).0), w.endpoints,
           StickyNext(MainInputs(w, m), main), main.assignment, w.retryFleet)
  }

  ghost predicate MainIs(w: World, m: Memories, s: Schedules, main: Outcome) {
    && Reaches(w, m)
    && Schedule(MainInputs(w, m), s.order, s.completion)
    && main == Pass(MainInputs(w, m), s.order, s.completion)
  }

  ghost predicate RetryIs(w: World, m: Memories, s: Schedules, main: Outcome, retry: Outcome) {
    && Reaches(w, m) && main.Done?
    && Schedule(RetryInputs(w, m, main), s.retryOrder, s.retryCompletion)
    && retry == Pass(RetryInputs(w, m, main), s.retryOrder, s.retryCompletion)
  }

  /** The passes of a run are passes over its own relations, endpoints, memory and agents. */
  ghost predicate RealPasses(w: World, m: Memories, s: Schedules, run: Run) {
    && (run.main.Some? <==> Reaches(w, m))
    && (run.main.Some? ==> MainIs(w, m, s, run.main.value))
    && (run.retry.Some? ==> Finished(run.main) && RetryIs(w, m, s, run.main.value, run.retry.value))
  }

  ghost function MemoriesAfter(w: World, m: Memories, run: Run): Memories {
    if w.contracts.None? then m
    else if Active(w).None? then Memories(StaleBook(w, m), m.sticky)
    else if run.main.None? || !Reaches(w, m) then Memories(MainRefresh(w, m).1, m.sticky)
    else if run.main.value.Failed? || run.retry.None? then Memories(MainRefresh(w, m).1, StickyNext(MainInputs(w, m), run.main.value))
    else Memories(RetryRefresh(w, m, run.main.value).1, StickyNext(RetryInputs(w, m, run.main.value), run.retry.value))
  }

  // ---- The code ----

  method CommitDeferred(
    w: World, main: map<string, Check>, pendingKeys: set<string>, retry: Option<map<string, Check>>,
    committed: seq<ProofCheck>, ghost keys: seq<string>)
    returns (ok: bool, committed': seq<ProofCheck>, ghost keys': seq<string>)
    requires pendingKeys == PendingKeys(main) && Enumerates(keys, SettledKeys(main)) && Decided(committed, keys, main, None)
    ensures Decided(committed', keys', main, retry)
    ensures Enumerates(keys', if w.commitDeferred then main.Keys else SettledKeys(main))
    ensures ok <==> DeferredStored(w, main)
  {
    SettledDecided(committed, keys, main, retry);
    var finalCommit;
    ghost var finalKeys;
    finalCommit, finalKeys := SelectFinalProofsCommit(main, pendingKeys, retry);
    committed', keys', ok := committed, keys, true;
    NoFinalKeys(finalKeys, pendingKeys);
    if |finalCommit| > 0 {
      if !w.commitDeferred { ok := false; return; }
      DecidedConcat(committed, keys, finalCommit, finalKeys, main, retry);
      committed', keys' := committed + finalCommit, keys + finalKeys;
      ok := w.statusesDeferred;
    }
    EveryKey(main, keys, finalKeys);
    assert finalKeys == [] ==> keys + finalKeys == keys;
  }

  lemma {:induction false} NoFinalKeys(keys: seq<string>, s: set<string>)
    requires Enumerates(keys, s)
    ensures keys == [] <==> s == {}
  {
    if keys != [] { assert keys[0] in s; }
  }

  lemma {:induction false} EveryKey(main: map<string, Check>, settled: seq<string>, pending: seq<string>)
    requires Enumerates(settled, SettledKeys(main)) && Enumerates(pending, PendingKeys(main))
    ensures Enumerates(settled + pending, main.Keys)
  {
    var all := settled + pending;
    forall i, j | 0 <= i < j < |all| ensures all[i] != all[j] {
      if i < |settled| <= j {
        assert settled[i] in settled && pending[j - |settled|] in pending;
      }
    }
  }

  method StoreProof(agents: AgentMemory, book: Memory, cfg: Config, w: World)
    returns (run: Run, ghost keys: seq<string>, ghost s: Schedules)
    modifies agents, book
    ensures Exact(cfg, w, run) && Faithful(w, run, keys)
    ensures var m := old(Memories(book.lastKnownIPs, agents.providerAgentSuccess));
            RealPasses(w, m, s, run) && Memories(book.lastKnownIPs, agents.providerAgentSuccess) == MemoriesAfter(w, m, run)
  {
    ghost var m := Memories(book.lastKnownIPs, agents.providerAgentSuccess);
    keys, s := [], Schedules([], [], [], []);
    run := Run(Some(RepositoryError), FAILURE_INTERVAL, w.started + w.mainTook, [], None, None, None, None, None);
    if w.contracts.None? { return; }
    var ignored := book.RefreshProvidersEndpoints(w.contracts.value, true, w.staleRefresh);
    var closing := CC.UpdateRejectedContracts(w.contracts.value, w.report, w.rejectionsStored);
    if closing.Failed? { return; }
    var rels := closing.active;
    var available := book.RefreshProvidersEndpoints(rels, false, w.refresh);
    if available.None? { return; }

    var main;
    ghost var order, completion;
    main, order, completion := agents.RunStoreProofChecks(w.jobId, w.clock, rels, available.value, w.endpoints, map[], w.fleet);
    s := Schedules(order, completion, [], []);
    run := run.(main := Some(main));
    if main.Failed? { run := run.(abort := Some(PassError)); return; }
    run, keys, s := AfterMain(agents, book, cfg, w, rels, available.value, main, m, s);
  }

  /** The state of the worker when the main pass has returned. */
  ghost predicate AtMain(
    w: World, m: Memories, s: Schedules, rels: seq<Relation>, ips: map<string, ProviderIP>, main: Outcome, now: Memories)
  {
    && MainIs(w, m, s, main) && main.Done?
    && Active(w) == Some(rels) && MainRefresh(w, m).0 == Some(ips)
    && now == Memories(MainRefresh(w, m).1, StickyNext(MainInputs(w, m), main))
  }

  lemma {:induction false} OnlyMainPass(
    w: World, m: Memories, s: Schedules, rels: seq<Relation>, ips: map<string, ProviderIP>, main: Outcome, now: Memories, run: Run)
    requires AtMain(w, m, s, rels, ips, main, now) && run.main == Some(main) && run.retry.None?
    ensures RealPasses(w, m, s, run) && now == MemoriesAfter(w, m, run)
  {
  }

  method AfterMain(
    agents: AgentMemory, book: Memory, cfg: Config, w: World, rels: seq<Relation>, available: map<string, ProviderIP>, main: Outcome,
    ghost m: Memories, ghost s0: Schedules)
    returns (run: Run, ghost keys: seq<string>, ghost s: Schedules)
    requires AtMain(w, m, s0, rels, available, main, Memories(book.lastKnownIPs, agents.providerAgentSuccess))
    modifies agents, book
    ensures Exact(cfg, w, run) && Faithful(w, run, keys) && RealPasses(w, m, s, run)
    ensures Memories(book.lastKnownIPs, agents.providerAgentSuccess) == MemoriesAfter(w, m, run)
  {
    s := s0;
    var done, pendingKeys;
    done, run, pendingKeys, keys := CommitMain(cfg, w, main);
    if done {
      OnlyMainPass(w, m, s, rels, available, main, Memories(book.lastKnownIPs, agents.providerAgentSuccess), run);
      return;
    }
    var retry;
    retry, s := Retry(agents, book, w, rels, available, main, pendingKeys, m, s0);
    run, keys := CommitRetry(cfg, w, run, retry, pendingKeys, keys);
  }

  /** The commit after the main pass; `done` when the cycle ends without a retry. */
  method CommitMain(cfg: Config, w: World, main: Outcome)
    returns (done: bool, run: Run, pendingKeys: set<string>, ghost keys: seq<string>)
    requires main.Done?
    ensures run.main == Some(main) && run.retry.None? && pendingKeys == PendingKeys(main.results)
    ensures done <==> !Retried(cfg, w, Some(main))
    ensures if done then Exact(cfg, w, run) && Faithful(w, run, keys) else Committed(w, run, pendingKeys, keys)
  {
    done := true;
    run := Run(Some(RepositoryError), FAILURE_INTERVAL, w.started + w.mainTook, [], Some(main), None, None, None, None);
    var toCommit;
    toCommit, pendingKeys, keys := SelectMainProofsCommit(main.results);
    NoFinalKeys(keys, SettledKeys(main.results));
    if |toCommit| > 0 {
      if !w.commitMain { keys := []; return; }
      run := run.(committed := toCommit);
    }
    if !w.statusesMain { return; }
    run := run.(abort := None);
    var now := w.started + w.mainTook;
    var shouldRetry := pendingKeys != {} && cfg.retryDelay > 0 && now < Deadline(cfg, w);
    if !shouldRetry {
      run, keys := WithoutRetry(cfg, w, run, pendingKeys, keys, now, false);
      return;
    }
    done, run, keys := Wait(cfg, w, run, pendingKeys, keys);
  }

  /** What is known of a run after its main commit. */
  ghost predicate Committed(w: World, run: Run, pendingKeys: set<string>, keys: seq<string>) {
    && Finished(run.main) && run.abort.None? && run.retry.None? && run.sleepUntil.None? && run.retryAt.None? && run.retryDeadline.None?
    && MainStored(w, run.main.value.results)
    && pendingKeys == PendingKeys(run.main.value.results)
    && Enumerates(keys, SettledKeys(run.main.value.results)) && Decided(run.committed, keys, run.main.value.results, None)
  }

  /** The exits without a retry: commit the main verdicts of the pending keys. After a cancellation errors are only logged. */
  method WithoutRetry(
    cfg: Config, w: World, mainRun: Run, pendingKeys: set<string>, ghost mainKeys: seq<string>, now: int, cancelled: bool)
    returns (run: Run, ghost keys: seq<string>)
    requires Committed(w, mainRun, pendingKeys, mainKeys)
    ensures Faithful(w, run, keys)
    ensures run == mainRun.(abort := run.abort, interval := run.interval, finishedAt := now + w.closing, committed := run.committed)
    ensures run.abort == if cancelled then Some(Cancelled) else if DeferredStored(w, mainRun.main.value.results) then None else Some(RepositoryError)
    ensures run.interval == IntervalOf(cfg, w, run.abort, run.finishedAt)
  {
    var ok, committed;
    ok, committed, keys := CommitDeferred(w, mainRun.main.value.results, pendingKeys, None, mainRun.committed, mainKeys);
    run := Close(cfg, w, mainRun, committed, ok || cancelled, now);
    if cancelled { run := run.(abort := Some(Cancelled)); }
  }

  /** The wait before the retry: cancelled, too late, or in time. */
  method Wait(cfg: Config, w: World, mainRun: Run, pendingKeys: set<string>, ghost mainKeys: seq<string>)
    returns (done: bool, run: Run, ghost keys: seq<string>)
    requires Committed(w, mainRun, pendingKeys, mainKeys) && Slept(cfg, w, mainRun.main)
    ensures done <==> !Retried(cfg, w, mainRun.main)
    ensures if done then Exact(cfg, w, run) && Faithful(w, run, keys) && run.main == mainRun.main && run.retry.None?
            else run == mainRun && keys == mainKeys
  {
    done, run, keys := true, mainRun, mainKeys;
    var now := w.started + w.mainTook + w.beforeSleep;
    var sleepUntil := now + cfg.retryDelay;
    if sleepUntil > Deadline(cfg, w) { sleepUntil := Deadline(cfg, w); }
    if w.cancelAfter.Some? && now < sleepUntil {
      run, keys := WithoutRetry(cfg, w, mainRun, pendingKeys, mainKeys, now + w.cancelAfter.value, true);
      run := run.(sleepUntil := Some(sleepUntil));
      return;
    }
    now := (if now < sleepUntil then sleepUntil else now) + w.wakeLag + w.afterWake;
    if now >= Deadline(cfg, w) {
      run, keys := WithoutRetry(cfg, w, mainRun, pendingKeys, mainKeys, now, false);
      run := run.(sleepUntil := Some(sleepUntil));
      return;
    }
    done := false;
  }

  /** The retry pass on the pending relations. */
  method Retry(
    agents: AgentMemory, book: Memory, w: World, rels: seq<Relation>, available: map<string, ProviderIP>, main: Outcome,
    pendingKeys: set<string>, ghost m: Memories, ghost s0: Schedules)
    returns (retry: Outcome, ghost s: Schedules)
    requires AtMain(w, m, s0, rels, available, main, Memories(book.lastKnownIPs, agents.providerAgentSuccess))
    requires pendingKeys == PendingKeys(main.results)
    modifies agents, book
    ensures s == s0.(retryOrder := s.retryOrder, retryCompletion := s.retryCompletion)
    ensures RetryIs(w, m, s, main, retry)
    ensures Memories(book.lastKnownIPs, agents.providerAgentSuccess)
            == Memories(RetryRefresh(w, m, main).1, StickyNext(RetryInputs(w, m, main), retry))
  {
    var pending := SelectPendingContracts(rels, pendingKeys);
    var refreshed := book.RefreshProvidersEndpoints(pending, false, w.retryRefresh);
    var ips := if refreshed.Some? then available + refreshed.value else available;
    ghost var order, completion;
    retry, order, completion := agents.RunStoreProofChecks(w.jobId + "-retry", w.clock, pending, ips, w.endpoints, main.assignment, w.retryFleet);
    s := s0.(retryOrder := order, retryCompletion := completion);
  }

  /** The commit after the retry; a failed retry leaves the main verdicts. */
  method CommitRetry(
    cfg: Config, w: World, mainRun: Run, retry: Outcome, pendingKeys: set<string>, ghost mainKeys: seq<string>)
    returns (run: Run, ghost keys: seq<string>)
    requires Committed(w, mainRun, pendingKeys, mainKeys) && Retried(cfg, w, mainRun.main)
    ensures Exact(cfg, w, run) && Faithful(w, run, keys) && run.main == mainRun.main && run.retry == Some(retry)
  {
    var now := AwakeAt(cfg, w);
    run := mainRun.(retry := Some(retry), sleepUntil := Some(SleepTarget(cfg, w)), retryAt := Some(now), retryDeadline := Some(Deadline(cfg, w)));
    var ok, committed;
    ok, committed, keys := CommitDeferred(w, mainRun.main.value.results, pendingKeys, RetryResults(run), run.committed, mainKeys);
    run := Close(cfg, w, run, committed, ok && w.statusesDeferred, now);
  }

  function Close(cfg: Config, w: World, run: Run, committed: seq<ProofCheck>, ok: bool, now: int): Run {
    var end := now + w.closing;
    if ok then run.(committed := committed, finishedAt := end, interval := Remain(cfg, w, end))
    else run.(abort := Some(RepositoryError), committed := committed, finishedAt := end, interval := FAILURE_INTERVAL)
  }
}
