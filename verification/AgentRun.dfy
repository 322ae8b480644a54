/** A whole job on the agent, and what its rows mean for the coordinator's verdicts. */
module AgentRun {
  import opened Arithmetic
  import opened Domain
  import opened Endpoints
  import opened Sharding
  import opened Requests
  import opened Merging
  import opened ProofPass
  import FT = FailureTally
  import PO = PoolOutcomes
  import WP = WorkerPool

  /** `out` is one provider's result: one row per non-nil contract, in input order, under the provider's address. */
  ghost predicate ProviderRows(b: Batch, out: seq<Row>) {
    && |out| == |Somes(b.contracts)|
    && forall j | 0 <= j < |out| ::
         out[j].providerAddress == b.providerAddress && out[j].contractAddress == Somes(b.contracts)[j].address
  }

  // ---- Rows and contracts, counted ----

  function Matches(providerAddress: string, address: string): Row -> nat {
    (row: Row) => One(row.providerAddress == providerAddress && row.contractAddress == address)
  }

  function Names(address: string): ContractRef -> nat { (c: ContractRef) => One(c.address == address) }

  function Lists(providerAddress: string, address: string): Batch -> nat {
    (b: Batch) => if b.providerAddress == providerAddress then Sum(Names(address), Somes(b.contracts)) else 0
  }

  /** `rows` answers a shard: for every provider and contract address as many rows as the shard lists contracts. */
  ghost predicate AnswersShard(shard: seq<Batch>, rows: seq<Row>) {
    forall p, a :: Sum(Matches(p, a), rows) == Sum(Lists(p, a), shard)
  }

  lemma {:induction false} SumPositive<T>(f: T -> nat, s: seq<T>)
    ensures Sum(f, s) > 0 <==> exists x :: x in s && f(x) > 0
  {
    if s != [] {
      SumPositive(f, s[..|s| - 1]);
      assert s == s[..|s| - 1] + [s[|s| - 1]];
    }
  }

  ghost predicate HasRow(rows: seq<Row>, providerAddress: string, address: string) {
    exists row :: row in rows && row.providerAddress == providerAddress && row.contractAddress == address
  }

  ghost predicate HasContract(shard: seq<Batch>, providerAddress: string, address: string) {
    exists b, c :: b in shard && b.providerAddress == providerAddress && Some(c) in b.contracts && c.address == address
  }

  lemma {:induction false} RowCounted(rows: seq<Row>, p: string, a: string)
    ensures Sum(Matches(p, a), rows) > 0 <==> HasRow(rows, p, a)
  {
    SumPositive(Matches(p, a), rows);
    if HasRow(rows, p, a) {
      var row :| row in rows && row.providerAddress == p && row.contractAddress == a;
      assert Matches(p, a)(row) > 0;
    }
  }

  lemma {:induction false} ContractCounted(shard: seq<Batch>, p: string, a: string)
    ensures Sum(Lists(p, a), shard) > 0 <==> HasContract(shard, p, a)
  {
    SumPositive(Lists(p, a), shard);
    if Sum(Lists(p, a), shard) > 0 {
      var b :| b in shard && Lists(p, a)(b) > 0;
      SumPositive(Names(a), Somes(b.contracts));
      var c :| c in Somes(b.contracts) && Names(a)(c) > 0;
      SomesMember(b.contracts, c);
    }
    if HasContract(shard, p, a) {
      var b, c :| b in shard && b.providerAddress == p && Some(c) in b.contracts && c.address == a;
      SomesMember(b.contracts, c);
      assert Names(a)(c) > 0;
      SumPositive(Names(a), Somes(b.contracts));
      assert Lists(p, a)(b) > 0;
    }
  }

  /** So there is a row for a provider and contract if and only if the shard has that contract. */
  lemma {:induction false} AnsweredContracts(shard: seq<Batch>, rows: seq<Row>, p: string, a: string)
    requires AnswersShard(shard, rows)
    ensures HasRow(rows, p, a) <==> HasContract(shard, p, a)
  {
    RowCounted(rows, p, a);
    ContractCounted(shard, p, a);
    assert Sum(Matches(p, a), rows) == Sum(Lists(p, a), shard);
  }

  /** `out` is the finished pool's rows, labelled by `makeResult`; the text of a skip is not modelled. */
  ghost predicate Labelled(b: Batch, rows: seq<WP.Row>, out: seq<Row>) {
    && |out| == |rows|
    && forall j | 0 <= j < |rows| ::
         && out[j].providerAddress == b.providerAddress && out[j].contractAddress == rows[j].contract.address
         && out[j].reason == rows[j].reason && (rows[j].detail.CheckDetail? ==> out[j].details == rows[j].detail.text)
  }

  /** The pool has finished with the batch's contracts. */
  ghost predicate PoolDone(b: Batch, s0: WP.State, run: seq<WP.Action>, threshold: nat) {
    WP.Initial(s0, threshold) && s0.contracts == b.contracts && WP.Exec(s0, run).Some? && WP.Exec(s0, run).value.disp.Finished?
  }

  /**
   * What is reported for contract `i` of the batch: the code and text with which its check ended, or
   * that the provider is unavailable, when the contract was skipped.
   */
  ghost predicate Reported(s0: WP.State, run: seq<WP.Action>, i: nat, row: Row)
    requires WP.Exec(s0, run).Some?
  {
    || PO.Ended(s0, run, i, row.reason, FT.CheckDetail(row.details))
    || (row.reason == UnavailableProvider && exists d :: PO.WasSkipped(s0, run, i, d))
  }

  ghost predicate ReportedInTurn(b: Batch, s0: WP.State, run: seq<WP.Action>, j: nat, row: Row)
    requires WP.Exec(s0, run).Some?
  {
    exists i: nat :: && i < |b.contracts| && |Somes(b.contracts[..i])| == j && b.contracts[i].Some?
                     && row.contractAddress == b.contracts[i].value.address && Reported(s0, run, i, row)
  }

  /** The finished pool's rows are one provider's result, and row j reports how the j-th contract's check ended. */
  lemma {:induction false} PoolRowsAreProviderRows(b: Batch, s0: WP.State, run: seq<WP.Action>, threshold: nat, out: seq<Row>)
    requires PoolDone(b, s0, run, threshold) && Labelled(b, Somes(WP.Exec(s0, run).value.sh.results), out)
    ensures ProviderRows(b, out)
    ensures forall j | 0 <= j < |out| :: ReportedInTurn(b, s0, run, j, out[j])
  {
    WP.PoolExactlyOnce(s0, run, threshold);
    forall j | 0 <= j < |out| ensures ReportedInTurn(b, s0, run, j, out[j]) { PoolRowReported(b, s0, run, threshold, out, j); }
  }

  lemma {:induction false} PoolRowReported(b: Batch, s0: WP.State, run: seq<WP.Action>, threshold: nat, out: seq<Row>, j: nat)
    requires PoolDone(b, s0, run, threshold) && Labelled(b, Somes(WP.Exec(s0, run).value.sh.results), out) && j < |out|
    ensures ReportedInTurn(b, s0, run, j, out[j])
  {
    var row := Somes(WP.Exec(s0, run).value.sh.results)[j];
    var i := PO.OutputEarned(s0, run, threshold, j);
    if PO.Ended(s0, run, i, row.reason, row.detail) {
      assert row.detail.CheckDetail?;
      assert Reported(s0, run, i, out[j]);
    } else {
      assert PO.WasSkipped(s0, run, i, row.detail);
    }
  }

  /** 0, 1, ..., n - 1. */
  ghost function Upto(n: nat): (s: seq<nat>)
    ensures |s| == n && forall i | 0 <= i < n :: s[i] == i
  {
    if n == 0 then [] else Upto(n - 1) + [n - 1]
  }

  ghost function Indices(n: nat): set<nat> { set i | i in Upto(n) }

  ghost function Flat(outs: seq<seq<Row>>): seq<Row> {
    if outs == [] then [] else Flat(outs[..|outs| - 1]) + outs[|outs| - 1]
  }

  ghost function Gathered(outs: seq<seq<Row>>, finish: seq<nat>): seq<Row>
    requires forall k | 0 <= k < |finish| :: finish[k] < |outs|
  {
    if finish == [] then [] else Gathered(outs, finish[..|finish| - 1]) + outs[finish[|finish| - 1]]
  }

  ghost function CountAt(outs: seq<seq<Row>>, row: Row): nat -> nat {
    (i: nat) => if i < |outs| then multiset(outs[i])[row] else 0
  }

  lemma {:induction false} GatheredCount(outs: seq<seq<Row>>, finish: seq<nat>, row: Row)
    requires forall k | 0 <= k < |finish| :: finish[k] < |outs|
    ensures multiset(Gathered(outs, finish))[row] == Sum(CountAt(outs, row), finish)
  {
    if finish != [] { GatheredCount(outs, finish[..|finish| - 1], row); }
  }

  lemma {:induction false} FlatIsGathered(outs: seq<seq<Row>>, n: nat)
    requires n <= |outs|
    ensures Flat(outs[..n]) == Gathered(outs, Upto(n))
  {
    if n > 0 {
      FlatIsGathered(outs, n - 1);
      assert outs[..n][..n - 1] == outs[..n - 1];
      assert Upto(n)[..n - 1] == Upto(n - 1);
    }
  }

  /** In whatever order the providers finish, the same rows are gathered. */
  lemma {:induction false} GatheredIgnoresOrder(outs: seq<seq<Row>>, finish: seq<nat>)
    requires Enumerates(finish, Indices(|outs|)) && forall k | 0 <= k < |finish| :: finish[k] < |outs|
    ensures multiset(Gathered(outs, finish)) == multiset(Flat(outs))
  {
    var n := |outs|;
    EnumerationsAgree(finish, Upto(n), Indices(n));
    FlatIsGathered(outs, n);
    assert outs[..n] == outs;
    forall row ensures multiset(Gathered(outs, finish))[row] == multiset(Flat(outs))[row] {
      GatheredCount(outs, finish, row);
      GatheredCount(outs, Upto(n), row);
      SumPermutation(CountAt(outs, row), finish, Upto(n));
    }
  }

  lemma {:induction false} ProviderCounted(b: Batch, out: seq<Row>, p: string, a: string)
    requires ProviderRows(b, out)
    ensures Sum(Matches(p, a), out) == Lists(p, a)(b)
  {
    SameCounts(b.providerAddress, out, Somes(b.contracts), p, a);
  }

  lemma {:induction false} SameCounts(provider: string, out: seq<Row>, refs: seq<ContractRef>, p: string, a: string)
    requires |out| == |refs|
    requires forall j | 0 <= j < |out| :: out[j].providerAddress == provider && out[j].contractAddress == refs[j].address
    ensures Sum(Matches(p, a), out) == if provider == p then Sum(Names(a), refs) else 0
  {
    if out != [] { SameCounts(provider, out[..|out| - 1], refs[..|refs| - 1], p, a); }
  }

  lemma {:induction false} FlatCounted(shard: seq<Batch>, outs: seq<seq<Row>>, p: string, a: string)
    requires |outs| == |shard| && forall i | 0 <= i < |shard| :: ProviderRows(shard[i], outs[i])
    ensures Sum(Matches(p, a), Flat(outs)) == Sum(Lists(p, a), shard)
  {
    if shard != [] {
      var n := |shard| - 1;
      FlatCounted(shard[..n], outs[..n], p, a);
      SumConcat(Matches(p, a), Flat(outs[..n]), outs[n]);
      ProviderCounted(shard[n], outs[n], p, a);
    }
  }

  /** Providers run concurrently; their results are appended in the order in which they finish. */
  method Run(shard: seq<Batch>, outs: seq<seq<Row>>, finish: seq<nat>) returns (results: seq<Row>)
    requires |outs| == |shard| && forall i | 0 <= i < |shard| :: ProviderRows(shard[i], outs[i])
    requires Enumerates(finish, Indices(|shard|))
    ensures multiset(results) == multiset(Flat(outs))
    ensures AnswersShard(shard, results)
  {
    results := [];
    forall k | 0 <= k < |finish| ensures finish[k] < |outs| { assert finish[k] in finish && finish[k] in Indices(|shard|); }
    for k := 0 to |finish|
      invariant results == Gathered(outs, finish[..k])
    {
      assert finish[..k + 1][..k] == finish[..k];
      results := results + outs[finish[k]];
    }
    assert finish[..|finish|] == finish;
    GatheredIgnoresOrder(outs, finish);
    forall p, a ensures Sum(Matches(p, a), results) == Sum(Lists(p, a), shard) {
      SumPermutation(Matches(p, a), results, Flat(outs));
      FlatCounted(shard, outs, p, a);
    }
  }

  // ---- What the coordinator concludes ----

  ghost predicate FaithfulFleet(fleet: Fleet, shards: map<string, seq<Batch>>) {
    forall e | Answered(fleet, shards, e) :: AnswersShard(shards[e], RowsOf(Answer(fleet, shards, e)))
  }

  /** Whatever shard it is given, an agent that answers answers that shard. */
  ghost predicate Honest(fleet: Fleet) {
    forall e, shard | fleet(e, shard).Some? :: AnswersShard(shard, RowsOf(fleet(e, shard).value))
  }

  lemma {:induction false} HonestIsFaithful(fleet: Fleet, shards: map<string, seq<Batch>>)
    requires Honest(fleet)
    ensures FaithfulFleet(fleet, shards) && AnswersOwnShard(fleet, shards)
  {
    FaithfulAnswersOwnShard(fleet, shards);
  }

  /** Real agents meet the assumption of schedule independence. */
  lemma {:induction false} FaithfulAnswersOwnShard(fleet: Fleet, shards: map<string, seq<Batch>>)
    requires FaithfulFleet(fleet, shards)
    ensures AnswersOwnShard(fleet, shards)
  {
    forall e, row | Answered(fleet, shards, e) && row in RowsOf(Answer(fleet, shards, e))
      ensures AboutShard(shards[e], row)
    {
      RowHasBatch(shards[e], RowsOf(Answer(fleet, shards, e)), row);
    }
  }

  lemma {:induction false} RowHasBatch(shard: seq<Batch>, rows: seq<Row>, row: Row)
    requires AnswersShard(shard, rows) && row in rows
    ensures AboutShard(shard, row)
  {
    assert HasRow(rows, row.providerAddress, row.contractAddress);
    AnsweredContracts(shard, rows, row.providerAddress, row.contractAddress);
  }

  lemma {:induction false} CollectedMembers(fleet: Fleet, shards: map<string, seq<Batch>>, completion: seq<string>, row: Row)
    requires forall e | e in completion :: Answered(fleet, shards, e)
    ensures row in AllRows(Collect(fleet, shards, completion)) <==>
              exists e :: e in completion && row in RowsOf(Answer(fleet, shards, e))
  {
    if completion != [] {
      var n := |completion| - 1;
      CollectedMembers(fleet, shards, completion[..n], row);
      assert completion == completion[..n] + [completion[n]];
      assert Collect(fleet, shards, completion)[..n] == Collect(fleet, shards, completion[..n]);
    }
  }

  /** The batch of a resolved relation, and the agent it was given to. */
  lemma {:induction false} BatchOfRelation(i: Inputs, order: seq<string>, r: Relation) returns (b: Batch, e: string)
    requires Enumerates(order, Pubkeys(i.rels)) && OneToOne(i.rels) && i.endpoints != []
    requires r in i.rels && Resolvable(i.ips, r.pubkey)
    ensures var a := Assign(Batches(i.rels, i.ips, order), RulesOf(i));
            r.pubkey in a.byProvider && e == a.byProvider[r.pubkey] && e in a.byEndpoint && b in a.byEndpoint[e]
    ensures b.pubkey == r.pubkey && b.providerAddress == r.providerAddress && Some(ContractRef(r.address, r.bagId)) in b.contracts
  {
    var built := Batches(i.rels, i.ips, order);
    assert r.pubkey in order;
    var g := NonEmptyGroup(i.rels, r.pubkey);
    b := BatchOf(r.pubkey, g, i.ips[r.pubkey]);
    BatchesMembers(i.rels, i.ips, order);
    BatchesNonNil(i.rels, i.ips, order);
    NonNilMembers(built, b);
    assert Some(b) in multiset(built);
    assert b in multiset(Somes(built));
    AssignedProviders(built, RulesOf(i), r.pubkey);
    var loads := ChosenFor(built, RulesOf(i), b);
    e := Assign(built, RulesOf(i)).byProvider[r.pubkey];
    assert e in i.endpoints;
    AssignmentAgrees(built, RulesOf(i), b, e);
    GroupRefs(i.rels, g, r);
  }

  lemma {:induction false} GroupRefs(rels: seq<Relation>, g: seq<Relation>, r: Relation)
    requires g == Group(rels, r.pubkey) && g != [] && r in rels && OneToOne(rels)
    ensures g[0].providerAddress == r.providerAddress && Some(ContractRef(r.address, r.bagId)) in Refs(g)
  {
    assert g[0] in g && r in g;
    var j :| 0 <= j < |g| && g[j] == r;
    assert Refs(g)[j] == Some(ContractRef(r.address, r.bagId));
  }

  /** A row about a relation can only come from the agent its provider was given to. */
  lemma {:induction false} RowsComeFromOwner(i: Inputs, order: seq<string>, r: Relation, e: string, row: Row)
    requires Enumerates(order, Pubkeys(i.rels)) && PipeFree(i.rels) && OneToOne(i.rels) && r in i.rels
    requires Answered(i.fleet, Shards(i, order), e) && FaithfulFleet(i.fleet, Shards(i, order))
    requires row in RowsOf(Answer(i.fleet, Shards(i, order), e)) && RowKey(row) == RelationKey(r)
    ensures var a := Assign(Batches(i.rels, i.ips, order), RulesOf(i)).byProvider; r.pubkey in a && a[r.pubkey] == e
  {
    RowHasBatch(Shards(i, order)[e], RowsOf(Answer(i.fleet, Shards(i, order), e)), row);
    var b: Batch :| b in Shards(i, order)[e] && b.providerAddress == row.providerAddress;
    var s := ShardBatch(i, order, e, b);
    KeyInjective(row.providerAddress, row.contractAddress, r.providerAddress, r.address);
  }

  lemma {:induction false} OwnerAnswered(i: Inputs, order: seq<string>, completion: seq<string>, r: Relation, b: Batch, e: string)
    requires Schedule(i, order, completion) && FaithfulFleet(i.fleet, Shards(i, order))
    requires Answered(i.fleet, Shards(i, order), e) && b in Shards(i, order)[e]
    requires b.providerAddress == r.providerAddress && Some(ContractRef(r.address, r.bagId)) in b.contracts
    ensures ForKey(AllRows(Collect(i.fleet, Shards(i, order), completion)), RelationKey(r)) != []
  {
    var shards := Shards(i, order);
    var rows := RowsOf(Answer(i.fleet, shards, e));
    var c := ContractRef(r.address, r.bagId);
    AnsweredContracts(shards[e], rows, b.providerAddress, c.address);
    assert HasRow(rows, b.providerAddress, c.address);
    var row :| row in rows && row.providerAddress == b.providerAddress && row.contractAddress == c.address;
    assert e in completion;
    CollectedMembers(i.fleet, shards, completion, row);
    ForKeyMembers(AllRows(Collect(i.fleet, shards, completion)), RelationKey(r));
    assert row in ForKey(AllRows(Collect(i.fleet, shards, completion)), RelationKey(r));
  }

  lemma {:induction false} OwnerSilent(i: Inputs, order: seq<string>, completion: seq<string>, r: Relation, e: string)
    requires Schedule(i, order, completion) && PipeFree(i.rels) && OneToOne(i.rels) && r in i.rels
    requires FaithfulFleet(i.fleet, Shards(i, order)) && !Answered(i.fleet, Shards(i, order), e)
    requires var a := Assign(Batches(i.rels, i.ips, order), RulesOf(i)).byProvider; r.pubkey in a && a[r.pubkey] == e
    ensures ForKey(AllRows(Collect(i.fleet, Shards(i, order), completion)), RelationKey(r)) == []
  {
    var shards := Shards(i, order);
    var f := ForKey(AllRows(Collect(i.fleet, shards, completion)), RelationKey(r));
    if f != [] {
      var row := f[0];
      assert row in f;
      CollectedMembers(i.fleet, shards, completion, row);
      var d :| d in completion && row in RowsOf(Answer(i.fleet, shards, d));
      RowsComeFromOwner(i, order, r, d, row);
    }
  }

  /**
   * End to end, under every schedule: a relation is reported as unresolved exactly when its
   * provider has no endpoint, as unanswered exactly when the call to the agent in charge failed,
   * and otherwise with a row that agent produced.
   */
  lemma {:induction false} VerdictsExplained(i: Inputs, order: seq<string>, completion: seq<string>, r: Relation)
    requires Schedule(i, order, completion) && PipeFree(i.rels) && OneToOne(i.rels) && r in i.rels
    requires FaithfulFleet(i.fleet, Shards(i, order)) && Pass(i, order, completion).Done?
    ensures var results := Pass(i, order, completion).results;
            var a := Assign(Batches(i.rels, i.ips, order), RulesOf(i)).byProvider;
            && RelationKey(r) in results
            && (results[RelationKey(r)].stage == EndpointUnresolved <==> !Resolvable(i.ips, r.pubkey))
            && (results[RelationKey(r)].stage == NoResult <==>
                  Resolvable(i.ips, r.pubkey) && r.pubkey in a && !Answered(i.fleet, Shards(i, order), a[r.pubkey]))
            && (results[RelationKey(r)].stage.ParsedFrom? ==>
                  && r.pubkey in a && Answered(i.fleet, Shards(i, order), a[r.pubkey])
                  && ReportedBy(RowsOf(Answer(i.fleet, Shards(i, order), a[r.pubkey])), r, results[RelationKey(r)]))
  {
    PassVerdicts(i, order, completion);
    var rows := AllRows(Collect(i.fleet, Shards(i, order), completion));
    CheckedExactly(i.rels, i.ips, r);
    if Resolvable(i.ips, r.pubkey) {
      var b, e := BatchOfRelation(i, order, r);
      if Answered(i.fleet, Shards(i, order), e) {
        OwnerAnswered(i, order, completion, r, b, e);
        BestIsOwners(i, order, completion, r);
      } else {
        OwnerSilent(i, order, completion, r, e);
      }
    }
  }

  /** A resolved relation for which some answering agent returned a valid row. */
  ghost predicate SaysValid(i: Inputs, order: seq<string>, r: Relation)
    requires forall pk | pk in order :: pk in Pubkeys(i.rels)
  {
    && Resolvable(i.ips, r.pubkey)
    && exists e, row :: && Answered(i.fleet, Shards(i, order), e) && row in RowsOf(Answer(i.fleet, Shards(i, order), e))
                        && RowKey(row) == RelationKey(r) && row.reason == ValidStorageProof
  }

  /**
   * A finished pass finds a relation valid exactly when an agent said so; one that is unresolved or
   * unanswered carries the reason that goes with it.
   */
  lemma {:induction false} PassValidity(i: Inputs, order: seq<string>, completion: seq<string>, r: Relation)
    requires Schedule(i, order, completion) && PipeFree(i.rels) && OneToOne(i.rels) && r in i.rels && Pass(i, order, completion).Done?
    ensures RelationKey(r) in Pass(i, order, completion).results
    ensures var check := Pass(i, order, completion).results[RelationKey(r)];
            && (check.reason == ValidStorageProof <==> SaysValid(i, order, r))
            && (check.stage == EndpointUnresolved ==> check.reason == IPNotFound)
            && (check.stage == NoResult ==> check.reason == NotFound)
  {
    PassVerdicts(i, order, completion);
    var shards := Shards(i, order);
    var rows := AllRows(Collect(i.fleet, shards, completion));
    VerdictExact(r, CheckedKeys(i.rels, i.ips), rows);
    CheckedExactly(i.rels, i.ips, r);
    if row :| row in rows && RowKey(row) == RelationKey(r) && row.reason == ValidStorageProof {
      CollectedMembers(i.fleet, shards, completion, row);
      var e :| e in completion && row in RowsOf(Answer(i.fleet, shards, e));
    }
    if SaysValid(i, order, r) {
      var e, row :| Answered(i.fleet, shards, e) && row in RowsOf(Answer(i.fleet, shards, e))
                    && RowKey(row) == RelationKey(r) && row.reason == ValidStorageProof;
      assert e in completion;
      CollectedMembers(i.fleet, shards, completion, row);
    }
  }

  /** `check` repeats a row about `r`. */
  ghost predicate ReportedBy(rows: seq<Row>, r: Relation, check: Check) {
    exists row :: row in rows && RowKey(row) == RelationKey(r) && row.reason == check.reason && row.details == check.details
  }

  lemma {:induction false} BestMember(f: seq<Row>)
    requires f != []
    ensures Best(f).Some? && Best(f).value in f
  {
    FirstValidExact(f);
  }

  /** The row a verdict repeats is one of the agent in charge. */
  lemma {:induction false} BestIsOwners(i: Inputs, order: seq<string>, completion: seq<string>, r: Relation)
    requires Schedule(i, order, completion) && PipeFree(i.rels) && OneToOne(i.rels) && r in i.rels
    requires FaithfulFleet(i.fleet, Shards(i, order))
    requires ForKey(AllRows(Collect(i.fleet, Shards(i, order), completion)), RelationKey(r)) != []
    ensures var best := Best(ForKey(AllRows(Collect(i.fleet, Shards(i, order), completion)), RelationKey(r)));
            var a := Assign(Batches(i.rels, i.ips, order), RulesOf(i)).byProvider;
            && best.Some? && RowKey(best.value) == RelationKey(r)
            && r.pubkey in a && Answered(i.fleet, Shards(i, order), a[r.pubkey])
            && best.value in RowsOf(Answer(i.fleet, Shards(i, order), a[r.pubkey]))
  {
    var shards := Shards(i, order);
    var f := ForKey(AllRows(Collect(i.fleet, shards, completion)), RelationKey(r));
    BestMember(f);
    var row := Best(f).value;
    CollectedMembers(i.fleet, shards, completion, row);
    var d :| d in completion && row in RowsOf(Answer(i.fleet, shards, d));
    RowsComeFromOwner(i, order, r, d, row);
  }
}
