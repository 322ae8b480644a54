/** One proof pass: build, shard, fan out, merge; and its independence of every schedule. */
module ProofPass {
  import opened Domain
  import opened Endpoints
  import opened Sharding
  import opened Requests
  import opened Merging
  import opened ShardOrder

  /** What each agent answers to a shard; None when the call fails. */
  type Fleet = (string, seq<Batch>) -> Option<Response>

  datatype Inputs = Inputs(
    rels: seq<Relation>, ips: map<string, ProviderIP>, endpoints: seq<string>,
    sticky: map<string, string>, exclude: map<string, string>, fleet: Fleet)

  datatype Outcome = Failed(assignment: map<string, string>) | Done(results: map<string, Check>, assignment: map<string, string>)

  function RulesOf(i: Inputs): Sharding.Rules { Sharding.Rules(i.endpoints, i.sticky, i.exclude) }

  predicate Answered(fleet: Fleet, shards: map<string, seq<Batch>>, e: string) {
    e in shards && shards[e] != [] && fleet(e, shards[e]).Some?
  }

  /** The endpoints whose call returns. */
  function Completed(fleet: Fleet, shards: map<string, seq<Batch>>): set<string> {
    set e | e in shards && Answered(fleet, shards, e)
  }

  /** The rows agent `e` returned for its shard. */
  function Answer(fleet: Fleet, shards: map<string, seq<Batch>>, e: string): Response
    requires Answered(fleet, shards, e)
  {
    fleet(e, shards[e]).value
  }

  function Collect(fleet: Fleet, shards: map<string, seq<Batch>>, completion: seq<string>): (rs: seq<Response>)
    requires forall e | e in completion :: Answered(fleet, shards, e)
    ensures |rs| == |completion|
  {
    if completion == [] then []
    else
      var n := |completion| - 1;
      assert completion[n] in completion;
      Collect(fleet, shards, completion[..n]) + [Answer(fleet, shards, completion[n])]
  }

  function Shards(i: Inputs, order: seq<string>): map<string, seq<Batch>>
    requires forall pk | pk in order :: pk in Pubkeys(i.rels)
  {
    Assign(Batches(i.rels, i.ips, order), RulesOf(i)).byEndpoint
  }

  /** A map-iteration order of the providers and an order in which the agents finish. */
  ghost predicate Schedule(i: Inputs, order: seq<string>, completion: seq<string>) {
    && Enumerates(order, Pubkeys(i.rels))
    && Enumerates(completion, Completed(i.fleet, Shards(i, order)))
  }

  ghost function Pass(i: Inputs, order: seq<string>, completion: seq<string>): Outcome
    requires Schedule(i, order, completion)
  {
    var providers := Batches(i.rels, i.ips, order);
    Conclude(i, providers == [], Assign(providers, RulesOf(i)).byProvider, Collect(i.fleet, Shards(i, order), completion))
  }

  /** The exits of a pass. */
  function Conclude(i: Inputs, nothingBuilt: bool, assignment: map<string, string>, responses: seq<Response>): Outcome {
    var checked := CheckedKeys(i.rels, i.ips);
    if i.endpoints == [] then Failed(map[])
    else if i.rels == [] then Done(map[], map[])
    else if nothingBuilt then Done(BagCheckResults(i.rels, checked, map[]), map[])
    else if responses == [] then Failed(assignment)
    else Done(BagCheckResults(i.rels, checked, ByKey(i.rels, MergeInto(map[], AllRows(responses)))), assignment)
  }

  /** Some iteration order of a set. */
  lemma {:induction false} SomeOrder(s: set<string>) returns (order: seq<string>)
    ensures Enumerates(order, s)
    decreases s
  {
    if s == {} {
      order := [];
    } else {
      var x :| x in s;
      var rest := SomeOrder(s - {x});
      order := rest + [x];
    }
  }

  function StickyAfter(sticky: map<string, string>, rels: seq<Relation>, results: map<string, Check>, assignment: map<string, string>): map<string, string> {
    if rels == [] then sticky
    else
      var before := StickyAfter(sticky, rels[..|rels| - 1], results, assignment);
      var r := rels[|rels| - 1];
      if RelationKey(r) in results && results[RelationKey(r)].reason == ValidStorageProof && Lookup(assignment, r.pubkey) != ""
      then before[r.pubkey := assignment[r.pubkey]] else before
  }

  /** The memory after a pass: a failed pass, or one without results or assignment, leaves it alone. */
  function StickyNext(i: Inputs, out: Outcome): map<string, string> {
    if out.Failed? || out.results == map[] || out.assignment == map[] then i.sticky
    else StickyAfter(i.sticky, i.rels, out.results, out.assignment)
  }

  /** Some relation of the provider was found valid. */
  ghost predicate Validated(rels: seq<Relation>, results: map<string, Check>, pk: string) {
    exists i :: 0 <= i < |rels| && rels[i].pubkey == pk && RelationKey(rels[i]) in results
                && results[RelationKey(rels[i])].reason == ValidStorageProof
  }

  function Recall(sticky: map<string, string>, pk: string): Option<string> { if pk in sticky then Some(sticky[pk]) else None }

  /** A provider that was validated on an agent is remembered with that agent; every other entry stays as it was. */
  lemma {:induction false} StickyExact(
    sticky: map<string, string>, rels: seq<Relation>, results: map<string, Check>, assignment: map<string, string>, pk: string)
    ensures Recall(StickyAfter(sticky, rels, results, assignment), pk) ==
            if Validated(rels, results, pk) && pk in assignment && assignment[pk] != "" then Some(assignment[pk]) else Recall(sticky, pk)
  {
    if rels != [] {
      var n := |rels| - 1;
      StickyExact(sticky, rels[..n], results, assignment, pk);
      ValidatedSnoc(rels, results, pk);
    }
  }

  lemma {:induction false} ValidatedSnoc(rels: seq<Relation>, results: map<string, Check>, pk: string)
    requires rels != []
    ensures var r := rels[|rels| - 1];
            Validated(rels, results, pk) <==>
              || Validated(rels[..|rels| - 1], results, pk)
              || (r.pubkey == pk && RelationKey(r) in results && results[RelationKey(r)].reason == ValidStorageProof)
  {
    var n := |rels| - 1;
    if Validated(rels[..n], results, pk) {
      var i :| 0 <= i < n && rels[..n][i].pubkey == pk && RelationKey(rels[..n][i]) in results
               && results[RelationKey(rels[..n][i])].reason == ValidStorageProof;
      assert rels[i] == rels[..n][i];
    }
    if Validated(rels, results, pk) {
      var i :| 0 <= i < |rels| && rels[i].pubkey == pk && RelationKey(rels[i]) in results
               && results[RelationKey(rels[i])].reason == ValidStorageProof;
      assert i < n ==> rels[..n][i] == rels[i];
    }
  }

  /** The same for a whole pass: nothing is learned from one that failed. */
  lemma {:induction false} StickyNextExact(i: Inputs, out: Outcome, pk: string)
    ensures Recall(StickyNext(i, out), pk) ==
            if out.Done? && Validated(i.rels, out.results, pk) && pk in out.assignment && out.assignment[pk] != ""
            then Some(out.assignment[pk]) else Recall(i.sticky, pk)
  {
    if out.Done? { StickyExact(i.sticky, i.rels, out.results, out.assignment, pk); }
  }

  /** The worker's memory of the last agent that validated each provider. */
  class AgentMemory {
    var providerAgentSuccess: map<string, string>

    constructor ()
      ensures providerAgentSuccess == map[]
    {
      providerAgentSuccess := map[];
    }

    method UpdateProviderAgentSuccess(rels: seq<Relation>, results: map<string, Check>, assignment: map<string, string>)
      modifies this
      ensures providerAgentSuccess ==
              if results == map[] || assignment == map[] then old(providerAgentSuccess)
              else StickyAfter(old(providerAgentSuccess), rels, results, assignment)
    {
      if results == map[] || assignment == map[] { return; }
      for i := 0 to |rels|
        invariant providerAgentSuccess == StickyAfter(old(providerAgentSuccess), rels[..i], results, assignment)
      {
        assert rels[..i + 1][..i] == rels[..i];
        var key := RelationKey(rels[i]);
        if key !in results || results[key].reason != ValidStorageProof { continue; }
        var endpoint := Lookup(assignment, rels[i].pubkey);
        if endpoint == "" { continue; }
        providerAgentSuccess := providerAgentSuccess[rels[i].pubkey := endpoint];
      }
      assert rels[..|rels|] == rels;
    }

    /** The calls run concurrently and their responses arrive in any order. */
    method FanoutRunChecks(fleet: Fleet, shards: map<string, seq<Batch>>) returns (responses: seq<Response>, ghost completion: seq<string>)
      ensures Enumerates(completion, Completed(fleet, shards))
      ensures responses == Collect(fleet, shards, completion)
      ensures forall e | Answered(fleet, shards, e) :: Answer(fleet, shards, e) in responses
      ensures forall x | x in responses :: exists e :: Answered(fleet, shards, e) && x == Answer(fleet, shards, e)
    {
      responses, completion := [], [];
      var running := set e | e in shards && shards[e] != [];
      while running != {}
        invariant running <= (set e | e in shards && shards[e] != [])
        invariant Enumerates(completion, Completed(fleet, shards) - running)
        invariant responses == Collect(fleet, shards, completion)
        invariant forall e | Answered(fleet, shards, e) && e !in running :: Answer(fleet, shards, e) in responses
        invariant forall x | x in responses :: exists e :: Answered(fleet, shards, e) && x == Answer(fleet, shards, e)
      {
        var e :| e in running;
        running := running - {e};
        var resp := fleet(e, shards[e]);
        if resp.None? { continue; }
        assert (completion + [e])[..|completion|] == completion;
        responses := responses + [resp.value];
        completion := completion + [e];
      }
    }

    method RunStoreProofChecks(
      jobId: string, clock: string, rels: seq<Relation>, ips: map<string, ProviderIP>, endpoints: seq<string>,
      exclude: map<string, string>, fleet: Fleet)
      returns (out: Outcome, ghost order: seq<string>, ghost completion: seq<string>)
      modifies this
      ensures var i := Inputs(rels, ips, endpoints, old(providerAgentSuccess), exclude, fleet);
              Schedule(i, order, completion) && out == Pass(i, order, completion) && providerAgentSuccess == StickyNext(i, out)
    {
      if |endpoints| == 0 {
        order := SomeOrder(Pubkeys(rels));
        return Failed(map[]), order, [];
      }
      if |rels| == 0 { return Done(map[], map[]), [], []; }
      var req, checkedKeys;
      req, checkedKeys, order := BuildRunChecksRequest(jobId, clock, rels, ips);
      if |req.providers| == 0 {
        var unresolved := BuildBagCheckResults(rels, checkedKeys, map[]);
        return Done(unresolved, map[]), order, [];
      }
      out, completion := CheckSharded(
        Inputs(rels, ips, endpoints, providerAgentSuccess, exclude, fleet), req.providers, checkedKeys, order);
    }

    /** Shard the built batches, fan out, merge, and remember the agents that validated. */
    method CheckSharded(i: Inputs, providers: seq<Option<Batch>>, checkedKeys: set<string>, ghost order: seq<string>)
      returns (out: Outcome, ghost completion: seq<string>)
      requires i.endpoints != [] && i.rels != [] && Enumerates(order, Pubkeys(i.rels)) && i.sticky == providerAgentSuccess
      requires providers == Batches(i.rels, i.ips, order) != [] && checkedKeys == CheckedKeys(i.rels, i.ips)
      modifies this
      ensures Schedule(i, order, completion) && out == Pass(i, order, completion) && providerAgentSuccess == StickyNext(i, out)
    {
      var shard := AssignProvidersToAgents(providers, i.endpoints, i.sticky, i.exclude);
      var responses;
      responses, completion := FanoutRunChecks(i.fleet, shard.byEndpoint);
      if |responses| == 0 { return Failed(shard.byProvider), completion; }
      var merged, valid := MergeRunChecksResponses(i.rels, responses);
      var results := BuildBagCheckResults(i.rels, checkedKeys, merged);
      out := Done(results, shard.byProvider);
      UpdateProviderAgentSuccess(i.rels, results, shard.byProvider);
    }
  }

  // ---- The batches of a pass ----

  /** Public key and provider address determine each other. */
  ghost predicate OneToOne(rels: seq<Relation>) {
    forall x, y | x in rels && y in rels :: x.pubkey == y.pubkey <==> x.providerAddress == y.providerAddress
  }

  lemma {:induction false} BatchesNonNil(rels: seq<Relation>, ips: map<string, ProviderIP>, order: seq<string>)
    requires forall pk | pk in order :: pk in Pubkeys(rels)
    requires Distinct(order)
    ensures UniquePubkeys(Somes(Batches(rels, ips, order)))
    ensures forall b | b in Somes(Batches(rels, ips, order)) :: Some(b) in Batches(rels, ips, order) && b.pubkey in order
  {
    if order != [] {
      var n := |order| - 1;
      BatchesNonNil(rels, ips, order[..n]);
      var before, all := Batches(rels, ips, order[..n]), Batches(rels, ips, order);
      if Resolvable(ips, order[n]) {
        assert all[..|before|] == before;
        forall i | 0 <= i < |Somes(before)| ensures Somes(before)[i].pubkey != order[n] {
          assert Somes(before)[i] in Somes(before);
        }
      } else {
        assert all == before;
      }
    }
  }

  lemma {:induction false} BatchesTieFree(rels: seq<Relation>, ips: map<string, ProviderIP>, order: seq<string>)
    requires forall pk | pk in order :: pk in Pubkeys(rels)
    ensures TieFree(Batches(rels, ips, order))
  {
    BatchesMembers(rels, ips, order);
    forall x, y | x in Batches(rels, ips, order) && y in Batches(rels, ips, order) && x != y
      ensures Precedes(x, y) || Precedes(y, x)
    {
      StringLessTotal(x.value.pubkey, y.value.pubkey);
    }
  }

  /** Two iteration orders of the same map build the same batches, as multisets. */
  lemma {:induction false} BatchesIgnoreOrder(rels: seq<Relation>, ips: map<string, ProviderIP>, a: seq<string>, b: seq<string>)
    requires Enumerates(a, Pubkeys(rels)) && Enumerates(b, Pubkeys(rels))
    ensures multiset(Batches(rels, ips, a)) == multiset(Batches(rels, ips, b))
  {
    forall x ensures multiset(Batches(rels, ips, a))[x] == multiset(Batches(rels, ips, b))[x] {
      BatchMultiplicity(rels, ips, a, x);
      BatchMultiplicity(rels, ips, b, x);
    }
  }

  lemma {:induction false} BatchMultiplicity(rels: seq<Relation>, ips: map<string, ProviderIP>, order: seq<string>, x: Option<Batch>)
    requires Distinct(order) && forall pk | pk in order :: pk in Pubkeys(rels)
    ensures multiset(Batches(rels, ips, order))[x] ==
            if x.Some? && x.value.pubkey in order && Resolvable(ips, x.value.pubkey)
               && x.value == BatchOf(x.value.pubkey, NonEmptyGroup(rels, x.value.pubkey), ips[x.value.pubkey]) then 1 else 0
  {
    if order != [] {
      var n := |order| - 1;
      BatchMultiplicity(rels, ips, order[..n], x);
      assert order == order[..n] + [order[n]];
      assert order[n] !in order[..n];
    }
  }

  // ---- Disjoint shards ----

  ghost predicate AboutShard(shard: seq<Batch>, row: Row) {
    exists b :: b in shard && b.providerAddress == row.providerAddress
  }

  /** Every row an agent returns is about a provider of the shard it was given. */
  ghost predicate AnswersOwnShard(fleet: Fleet, shards: map<string, seq<Batch>>) {
    forall e, row | Answered(fleet, shards, e) && row in RowsOf(Answer(fleet, shards, e)) :: AboutShard(shards[e], row)
  }

  /** A batch of a shard, its relation, and the shard it was assigned to. */
  lemma {:induction false} ShardBatch(i: Inputs, order: seq<string>, e: string, b: Batch) returns (r: Relation)
    requires Enumerates(order, Pubkeys(i.rels)) && e in Shards(i, order) && b in Shards(i, order)[e]
    ensures r in i.rels && r.pubkey == b.pubkey && r.providerAddress == b.providerAddress
    ensures var a := Assign(Batches(i.rels, i.ips, order), RulesOf(i)).byProvider; b.pubkey in a && a[b.pubkey] == e
  {
    var built := Batches(i.rels, i.ips, order);
    ShardMembers(built, RulesOf(i), e, b);
    BatchesMembers(i.rels, i.ips, order);
    assert Some(b) in built;
    r := NonEmptyGroup(i.rels, b.pubkey)[0];
    assert r in Group(i.rels, b.pubkey);
    BatchesNonNil(i.rels, i.ips, order);
    assert b in Somes(built) by {
      NonNilMembers(built, b);
      assert Some(b) in multiset(built);
      assert b in multiset(Somes(built));
    }
    AssignmentAgrees(built, RulesOf(i), b, e);
  }

  /** Rows of two different agents never concern the same relation. */
  lemma {:induction false} ShardsAreDisjoint(i: Inputs, order: seq<string>, d: string, e: string, x: Row, y: Row)
    requires Enumerates(order, Pubkeys(i.rels)) && PipeFree(i.rels) && OneToOne(i.rels)
    requires var shards := Shards(i, order);
             && AnswersOwnShard(i.fleet, shards)
             && Answered(i.fleet, shards, d) && x in RowsOf(Answer(i.fleet, shards, d))
             && Answered(i.fleet, shards, e) && y in RowsOf(Answer(i.fleet, shards, e))
    requires RowKey(x) == RowKey(y)
    ensures d == e
  {
    var shards := Shards(i, order);
    assert AboutShard(shards[d], x) && AboutShard(shards[e], y);
    var a: Batch :| a in shards[d] && a.providerAddress == x.providerAddress;
    var b: Batch :| b in shards[e] && b.providerAddress == y.providerAddress;
    var r := ShardBatch(i, order, d, a);
    var s := ShardBatch(i, order, e, b);
    KeyInjective(x.providerAddress, x.contractAddress, y.providerAddress, y.contractAddress);
    assert r.pubkey == s.pubkey;
  }

  /** With disjoint shards the rows for a key come from one agent, so completion order is irrelevant. */
  lemma {:induction false} CollectedForKey(fleet: Fleet, shards: map<string, seq<Batch>>, completion: seq<string>, k: string, owner: string)
    requires Distinct(completion) && forall e | e in completion :: Answered(fleet, shards, e)
    requires forall e | e in completion && e != owner :: ForKey(RowsOf(Answer(fleet, shards, e)), k) == []
    ensures ForKey(AllRows(Collect(fleet, shards, completion)), k) ==
            if owner in completion then ForKey(RowsOf(Answer(fleet, shards, owner)), k) else []
  {
    if completion != [] {
      var n := |completion| - 1;
      var e := completion[n];
      assert completion == completion[..n] + [e];
      assert e in completion && e !in completion[..n];
      CollectedForKey(fleet, shards, completion[..n], k, owner);
      var before := Collect(fleet, shards, completion[..n]);
      assert Collect(fleet, shards, completion)[..n] == before;
      ForKeyConcat(AllRows(before), RowsOf(Answer(fleet, shards, e)), k);
    }
  }

  lemma {:induction false} CompletionIsIrrelevant(i: Inputs, order: seq<string>, a: seq<string>, b: seq<string>, k: string)
    requires Schedule(i, order, a) && Schedule(i, order, b) && PipeFree(i.rels) && OneToOne(i.rels)
    requires AnswersOwnShard(i.fleet, Shards(i, order))
    ensures var shards := Shards(i, order);
            ForKey(AllRows(Collect(i.fleet, shards, a)), k) == ForKey(AllRows(Collect(i.fleet, shards, b)), k)
  {
    var shards := Shards(i, order);
    if owner :| owner in a && ForKey(RowsOf(Answer(i.fleet, shards, owner)), k) != [] {
      var x := ForKey(RowsOf(Answer(i.fleet, shards, owner)), k)[0];
      assert x in ForKey(RowsOf(Answer(i.fleet, shards, owner)), k);
      forall e | e in a && e != owner ensures ForKey(RowsOf(Answer(i.fleet, shards, e)), k) == [] {
        if ForKey(RowsOf(Answer(i.fleet, shards, e)), k) != [] {
          var y := ForKey(RowsOf(Answer(i.fleet, shards, e)), k)[0];
          assert y in ForKey(RowsOf(Answer(i.fleet, shards, e)), k);
          ShardsAreDisjoint(i, order, owner, e, x, y);
          assert false;
        }
      }
      CollectedForKey(i.fleet, shards, a, k, owner);
      CollectedForKey(i.fleet, shards, b, k, owner);
    } else {
      CollectedForKey(i.fleet, shards, a, k, "");
      CollectedForKey(i.fleet, shards, b, k, "");
    }
  }

  // ---- Results of a pass ----

  /** `results` holds one check per relation, under its key and with its identity. */
  ghost predicate ResultsFor(rels: seq<Relation>, results: map<string, Check>) {
    && results.Keys == KeysOf(rels)
    && forall r | r in rels :: results[RelationKey(r)].contractAddress == r.address
                            && results[RelationKey(r)].providerAddress == r.providerAddress
  }

  /** Results that hold the direct verdict of every relation. */
  ghost predicate Verdicts(i: Inputs, results: map<string, Check>, rows: seq<Row>) {
    && results.Keys == KeysOf(i.rels)
    && forall r | r in i.rels :: results[RelationKey(r)] == Verdict(r, CheckedKeys(i.rels, i.ips), rows)
  }

  lemma {:induction false} ConcludeVerdicts(i: Inputs, nothingBuilt: bool, assignment: map<string, string>, responses: seq<Response>)
    requires PipeFree(i.rels) && Conclude(i, nothingBuilt, assignment, responses).Done?
    requires nothingBuilt ==> forall r | r in i.rels :: RelationKey(r) !in CheckedKeys(i.rels, i.ips)
    ensures Verdicts(i, Conclude(i, nothingBuilt, assignment, responses).results, AllRows(responses))
  {
    var checked := CheckedKeys(i.rels, i.ips);
    if i.rels == [] {
    } else if nothingBuilt {
      BagCheckResultsKeys(i.rels, checked, map[]);
      forall r | r in i.rels ensures BagCheckResults(i.rels, checked, map[])[RelationKey(r)] == Verdict(r, checked, AllRows(responses)) {
        BagCheckResultsAt(i.rels, checked, map[], r);
      }
    } else {
      ResultsAreVerdicts(i.rels, checked, AllRows(responses));
    }
  }

  /** A finished pass reports the direct verdict of every relation. */
  lemma {:induction false} PassVerdicts(i: Inputs, order: seq<string>, completion: seq<string>)
    requires Schedule(i, order, completion) && PipeFree(i.rels) && Pass(i, order, completion).Done?
    ensures Verdicts(i, Pass(i, order, completion).results, AllRows(Collect(i.fleet, Shards(i, order), completion)))
    ensures ResultsFor(i.rels, Pass(i, order, completion).results)
  {
    var providers := Batches(i.rels, i.ips, order);
    if providers == [] {
      NothingBuilt(i, order);
    }
    var responses := Collect(i.fleet, Shards(i, order), completion);
    ConcludeVerdicts(i, providers == [], Assign(providers, RulesOf(i)).byProvider, responses);
    VerdictsIdentify(i, Pass(i, order, completion).results, AllRows(responses));
  }

  /** A pass fails exactly when there is no agent, or something was sent and no agent answered. */
  lemma {:induction false} PassFailsIff(i: Inputs, order: seq<string>, completion: seq<string>)
    requires Schedule(i, order, completion)
    ensures Pass(i, order, completion).Failed? <==>
              || i.endpoints == []
              || (Batches(i.rels, i.ips, order) != [] && forall e :: !Answered(i.fleet, Shards(i, order), e))
  {
    var shards := Shards(i, order);
    if completion == [] {
      forall e ensures !Answered(i.fleet, shards, e) { assert e !in completion; }
    } else {
      assert completion[0] in completion;
    }
    if i.rels == [] { assert Batches(i.rels, i.ips, order) == [] by { NoRelations(i, order); } }
  }

  lemma {:induction false} NoRelations(i: Inputs, order: seq<string>)
    requires Enumerates(order, Pubkeys(i.rels)) && i.rels == []
    ensures order == [] && Batches(i.rels, i.ips, order) == []
  {
    assert Pubkeys(i.rels) == {};
    CompletionLengths(order, [], {});
  }

  lemma {:induction false} VerdictsIdentify(i: Inputs, results: map<string, Check>, rows: seq<Row>)
    requires Verdicts(i, results, rows)
    ensures ResultsFor(i.rels, results)
  {
  }

  lemma {:induction false} NothingBuilt(i: Inputs, order: seq<string>)
    requires Enumerates(order, Pubkeys(i.rels)) && Batches(i.rels, i.ips, order) == []
    ensures CheckedKeys(i.rels, i.ips) == {}
  {
    BatchesMembers(i.rels, i.ips, order);
    forall x | x in i.rels ensures !Resolvable(i.ips, x.pubkey) {
      assert x.pubkey in order;
    }
  }

  lemma {:induction false} SameResults(rels: seq<Relation>, a: map<string, Check>, b: map<string, Check>)
    requires a.Keys == KeysOf(rels) && b.Keys == KeysOf(rels)
    requires forall r | r in rels :: a[RelationKey(r)] == b[RelationKey(r)]
    ensures a == b
  {
    forall k | k in a ensures a[k] == b[k] {
      var r :| r in rels && RelationKey(r) == k;
    }
  }

  lemma {:induction false} CompletionLengths(a: seq<string>, b: seq<string>, s: set<string>)
    requires Enumerates(a, s) && Enumerates(b, s)
    ensures a == [] <==> b == []
  {
    if a != [] { assert a[0] in b; }
    if b != [] { assert b[0] in a; }
  }

  lemma {:induction false} SameVerdicts(i: Inputs, a: map<string, Check>, b: map<string, Check>, rows: seq<Row>, rows': seq<Row>)
    requires Verdicts(i, a, rows) && Verdicts(i, b, rows')
    requires forall r | r in i.rels :: ForKey(rows, RelationKey(r)) == ForKey(rows', RelationKey(r))
    ensures a == b
  {
    SameResults(i.rels, a, b);
  }

  /** Provider order does not matter: the same batches are assigned in the same way. */
  lemma {:induction false} OrderIsIrrelevant(i: Inputs, order: seq<string>, order': seq<string>)
    requires Enumerates(order, Pubkeys(i.rels)) && Enumerates(order', Pubkeys(i.rels))
    ensures var a, b := Batches(i.rels, i.ips, order), Batches(i.rels, i.ips, order');
            && (a == [] <==> b == [])
            && Assign(a, RulesOf(i)) == Assign(b, RulesOf(i))
  {
    var a, b := Batches(i.rels, i.ips, order), Batches(i.rels, i.ips, order');
    BatchesIgnoreOrder(i.rels, i.ips, order, order');
    BatchesTieFree(i.rels, i.ips, order);
    AssignmentIgnoresOrder(a, b, RulesOf(i));
    assert |multiset(a)| == |a| && |multiset(b)| == |b|;
  }

  /**
   * For fixed contracts, endpoints, rules and agent answers, the outcome of a pass - results and
   * assignment - is the same for every iteration order of the provider map and every order in
   * which the agents finish.
   */
  lemma {:induction false} ScheduleIndependence(
    i: Inputs, order: seq<string>, completion: seq<string>, order': seq<string>, completion': seq<string>)
    requires Schedule(i, order, completion) && Schedule(i, order', completion')
    requires PipeFree(i.rels) && OneToOne(i.rels) && AnswersOwnShard(i.fleet, Shards(i, order))
    ensures Pass(i, order, completion) == Pass(i, order', completion')
  {
    OrderIsIrrelevant(i, order, order');
    CompletionLengths(completion, completion', Completed(i.fleet, Shards(i, order)));
    if Pass(i, order, completion).Done? {
      PassVerdicts(i, order, completion);
      PassVerdicts(i, order', completion');
      forall k ensures ForKey(AllRows(Collect(i.fleet, Shards(i, order), completion)), k)
                       == ForKey(AllRows(Collect(i.fleet, Shards(i, order), completion')), k)
      {
        CompletionIsIrrelevant(i, order, completion, completion', k);
      }
      SameVerdicts(i, Pass(i, order, completion).results, Pass(i, order', completion').results,
                   AllRows(Collect(i.fleet, Shards(i, order), completion)),
                   AllRows(Collect(i.fleet, Shards(i, order), completion')));
    }
  }

  lemma {:induction false} PassAssignment(i: Inputs, order: seq<string>, completion: seq<string>, pk: string)
    requires Schedule(i, order, completion) && pk in Pass(i, order, completion).assignment
    ensures i.endpoints != [] && Batches(i.rels, i.ips, order) != []
    ensures Pass(i, order, completion).assignment == Assign(Batches(i.rels, i.ips, order), RulesOf(i)).byProvider
  {
  }

  /** A retry that excludes the main pass's assignment gives every provider to another agent. */
  lemma {:induction false} RetryPassChangesAgent(
    i: Inputs, order: seq<string>, completion: seq<string>, j: Inputs, order': seq<string>, completion': seq<string>, pk: string)
    requires Schedule(i, order, completion) && Schedule(j, order', completion') && i.exclude == map[] && j.endpoints == i.endpoints
    requires j.exclude == Pass(i, order, completion).assignment
    requires |i.endpoints| >= 2 && Distinct(i.endpoints) && "" !in i.endpoints
    requires pk in Pass(i, order, completion).assignment && pk in Pass(j, order', completion').assignment
    ensures Pass(j, order', completion').assignment[pk] != Pass(i, order, completion).assignment[pk]
  {
    var first, second := Batches(i.rels, i.ips, order), Batches(j.rels, j.ips, order');
    PassAssignment(i, order, completion, pk);
    PassAssignment(j, order', completion', pk);
    BatchesNonNil(i.rels, i.ips, order);
    BatchesNonNil(j.rels, j.ips, order');
    AssignedProviders(second, RulesOf(j), pk);
    var b: Batch :| b in Somes(second) && b.pubkey == pk;
    RetryAvoidsMainAgent(first, second, i.endpoints, i.sticky, j.sticky, b);
  }
}
