/** Building RunChecks requests on the coordinator and validating them on the agent. */
module Requests {
  import opened Domain
  import opened Endpoints
  import opened Sharding

  // ---- Relation keys ----

  function Key(providerAddress: string, address: string): string { providerAddress + "|" + address }
  function RelationKey(r: Relation): string { Key(r.providerAddress, r.address) }

  /** Two different (provider, contract) pairs share a key exactly when one extends the other across a `|`. */
  lemma {:induction false} KeyCollision(p: string, a: string, q: string, b: string)
    ensures Key(p, a) == Key(q, b) && (p, a) != (q, b) <==>
              || (exists r :: p == q + "|" + r && b == r + "|" + a)
              || (exists r :: q == p + "|" + r && a == r + "|" + b)
  {
    if Key(p, a) == Key(q, b) {
      if |p| == |q| {
        SameSplit(p, a, q, b);
      } else if |p| > |q| {
        ShorterPrefix(p, a, q, b);
      } else {
        ShorterPrefix(q, b, p, a);
      }
    }
    if r :| p == q + "|" + r && b == r + "|" + a {
      assert Key(p, a) == q + "|" + r + "|" + a == Key(q, b);
    }
    if r :| q == p + "|" + r && a == r + "|" + b {
      assert Key(q, b) == p + "|" + r + "|" + b == Key(p, a);
    }
  }

  lemma {:induction false} SameSplit(p: string, a: string, q: string, b: string)
    requires Key(p, a) == Key(q, b) && |p| == |q|
    ensures p == q && a == b
  {
    assert p == Key(p, a)[..|p|] && q == Key(q, b)[..|p|];
    assert a == Key(p, a)[|p| + 1..] && b == Key(q, b)[|p| + 1..];
  }

  lemma {:induction false} ShorterPrefix(p: string, a: string, q: string, b: string)
    requires Key(p, a) == Key(q, b) && |q| < |p|
    ensures '|' in p
    ensures exists r :: p == q + "|" + r && b == r + "|" + a
  {
    var k := Key(p, a);
    var r := p[|q| + 1..];
    assert q == k[..|q|] == p[..|q|];
    assert p[|q|] == k[|q|] == '|';
    assert p == q + "|" + r;
    assert b == k[|q| + 1..] == r + "|" + a;
  }

  ghost predicate PipeFree(rels: seq<Relation>) {
    forall r | r in rels :: '|' !in r.providerAddress
  }

  lemma {:induction false} KeyInjective(p: string, a: string, q: string, b: string)
    requires '|' !in p && '|' !in q && Key(p, a) == Key(q, b)
    ensures p == q && a == b
  {
    KeyOrPipe(p, a, q, b);
  }

  lemma {:induction false} KeyOrPipe(p: string, a: string, q: string, b: string)
    requires Key(p, a) == Key(q, b)
    ensures (p == q && a == b) || '|' in p || '|' in q
  {
    if |p| == |q| { SameSplit(p, a, q, b); }
    else if |p| > |q| { ShorterPrefix(p, a, q, b); }
    else { ShorterPrefix(q, b, p, a); }
  }

  // ---- The request builder ----

  datatype Request = Request(jobId: string, providers: seq<Option<Batch>>)

  /** The relations of one provider, in input order. */
  function Group(rels: seq<Relation>, pk: string): (g: seq<Relation>)
    ensures forall r :: r in g <==> r in rels && r.pubkey == pk
  {
    if rels == [] then []
    else
      var n := |rels| - 1;
      assert rels == rels[..n] + [rels[n]];
      Group(rels[..n], pk) + (if rels[n].pubkey == pk then [rels[n]] else [])
  }

  predicate Resolvable(ips: map<string, ProviderIP>, pk: string) {
    pk in ips && HasValidStorage(ips[pk])
  }

  function Refs(g: seq<Relation>): (c: seq<Option<ContractRef>>)
    ensures |c| == |g| && forall i | 0 <= i < |g| :: c[i] == Some(ContractRef(g[i].address, g[i].bagId))
  {
    seq(|g|, i requires 0 <= i < |g| => Some(ContractRef(g[i].address, g[i].bagId)))
  }

  function BatchOf(pk: string, g: seq<Relation>, ip: ProviderIP): Batch
    requires g != []
  {
    Batch(pk, g[0].providerAddress, Some(Endpoint(ip.storage.ip, ip.storage.port, ip.storage.publicKey)), Refs(g))
  }

  function Batches(rels: seq<Relation>, ips: map<string, ProviderIP>, order: seq<string>): (bs: seq<Option<Batch>>)
    requires forall pk | pk in order :: pk in Pubkeys(rels)
  {
    if order == [] then []
    else
      var n := |order| - 1;
      var pk := order[n];
      Batches(rels, ips, order[..n])
      + (if Resolvable(ips, pk) then [Some(BatchOf(pk, NonEmptyGroup(rels, pk), ips[pk]))] else [])
  }

  lemma {:induction false} GroupEmpty(rels: seq<Relation>, pk: string)
    ensures Group(rels, pk) == [] <==> pk !in Pubkeys(rels)
  {
    if Group(rels, pk) != [] { assert Group(rels, pk)[0] in Group(rels, pk); }
  }

  function NonEmptyGroup(rels: seq<Relation>, pk: string): (g: seq<Relation>)
    requires pk in Pubkeys(rels)
    ensures g != [] && g == Group(rels, pk)
  {
    GroupEmpty(rels, pk);
    Group(rels, pk)
  }

  function CheckedKeys(rels: seq<Relation>, ips: map<string, ProviderIP>): set<string> {
    set r | r in rels && Resolvable(ips, r.pubkey) :: RelationKey(r)
  }

  function KeysOf(rels: seq<Relation>): set<string> { set r | r in rels :: RelationKey(r) }

  /** The checked keys of the providers not in `left`. */
  function KeysBut(rels: seq<Relation>, ips: map<string, ProviderIP>, left: set<string>): set<string> {
    set r | r in rels && r.pubkey !in left && Resolvable(ips, r.pubkey) :: RelationKey(r)
  }

  lemma {:induction false} KeysButStep(rels: seq<Relation>, ips: map<string, ProviderIP>, left: set<string>, pk: string)
    requires pk in left
    ensures KeysBut(rels, ips, left - {pk})
            == KeysBut(rels, ips, left) + (if Resolvable(ips, pk) then KeysOf(Group(rels, pk)) else {})
  {
  }

  function GroupMap(rels: seq<Relation>): map<string, seq<Relation>> {
    map pk | pk in Pubkeys(rels) :: Group(rels, pk)
  }

  lemma {:induction false} GroupSnoc(rels: seq<Relation>, r: Relation, pk: string)
    ensures Group(rels + [r], pk) == Group(rels, pk) + (if r.pubkey == pk then [r] else [])
  {
    assert (rels + [r])[..|rels|] == rels;
  }

  /** The entry of a provider in the grouping map, as a Go map read: a missing key yields nil. */
  function Entry(m: map<string, seq<Relation>>, pk: string): seq<Relation> { if pk in m then m[pk] else [] }

  lemma {:induction false} GroupMapEntry(rels: seq<Relation>, pk: string)
    ensures Entry(GroupMap(rels), pk) == Group(rels, pk)
    ensures pk in GroupMap(rels) <==> Group(rels, pk) != []
  {
    GroupEmpty(rels, pk);
  }

  lemma {:induction false} GroupMapStep(rels: seq<Relation>, r: Relation, m: map<string, seq<Relation>>)
    requires m == GroupMap(rels)
    ensures GroupMap(rels + [r]) == m[r.pubkey := Entry(m, r.pubkey) + [r]]
  {
    var after, m' := GroupMap(rels + [r]), m[r.pubkey := Entry(m, r.pubkey) + [r]];
    forall pk ensures pk in after <==> pk in m' {
      GroupSnoc(rels, r, pk);
      GroupMapEntry(rels, pk);
      GroupMapEntry(rels + [r], pk);
    }
    forall pk | pk in after && pk in m' ensures after[pk] == m'[pk] {
      GroupSnoc(rels, r, pk);
      GroupMapEntry(rels, pk);
      GroupMapEntry(rels + [r], pk);
    }
  }

  /** `strings.TrimSpace(jobID) == ""` falls back to a fresh id. */
  function EffectiveJobId(jobId: string, clock: string): (id: string)
    ensures !Blank(id) && (!Blank(jobId) ==> id == jobId)
  {
    var fallback := "storeproof-" + clock;
    assert !IsSpace(fallback[0]);
    if Blank(jobId) then fallback else jobId
  }

  method GroupByProvider(rels: seq<Relation>) returns (m: map<string, seq<Relation>>)
    ensures m == GroupMap(rels)
  {
    m := map[];
    for i := 0 to |rels|
      invariant m == GroupMap(rels[..i])
    {
      assert rels[..i + 1] == rels[..i] + [rels[i]];
      GroupMapStep(rels[..i], rels[i], m);
      var pk := rels[i].pubkey;
      m := m[pk := Entry(m, pk) + [rels[i]]];
    }
    assert rels[..|rels|] == rels;
  }

  lemma {:induction false} BatchesSnoc(rels: seq<Relation>, ips: map<string, ProviderIP>, order: seq<string>, pk: string)
    requires (forall p | p in order :: p in Pubkeys(rels)) && pk in Pubkeys(rels)
    ensures Batches(rels, ips, order + [pk]) == Batches(rels, ips, order)
              + (if Resolvable(ips, pk) then [Some(BatchOf(pk, NonEmptyGroup(rels, pk), ips[pk]))] else [])
  {
    assert (order + [pk])[..|order|] == order;
  }

  lemma {:induction false} Visited(all: set<string>, left: set<string>, pk: string)
    requires pk in left && left <= all
    ensures all - (left - {pk}) == (all - left) + {pk}
  {
  }

  /** The providers are visited in whatever order the map iteration takes. */
  method BuildRunChecksRequest(jobId: string, clock: string, rels: seq<Relation>, ips: map<string, ProviderIP>)
    returns (req: Request, checkedKeys: set<string>, ghost order: seq<string>)
    ensures Enumerates(order, Pubkeys(rels))
    ensures req == Request(EffectiveJobId(jobId, clock), Batches(rels, ips, order))
    ensures checkedKeys == CheckedKeys(rels, ips)
  {
    var groups := GroupByProvider(rels);
    var left := groups.Keys;
    var providers: seq<Option<Batch>> := [];
    checkedKeys := {};
    order := [];
    while left != {}
      invariant left <= Pubkeys(rels)
      invariant Enumerates(order, Pubkeys(rels) - left)
      invariant providers == Batches(rels, ips, order)
      invariant checkedKeys == KeysBut(rels, ips, left)
    {
      var pk :| pk in left;
      KeysButStep(rels, ips, left, pk);
      BatchesSnoc(rels, ips, order, pk);
      EnumeratesMore(order, Pubkeys(rels) - left, pk);
      Visited(Pubkeys(rels), left, pk);
      left := left - {pk};
      order := order + [pk];
      if Resolvable(ips, pk) {
        checkedKeys := checkedKeys + KeysOf(groups[pk]);
        providers := providers + [Some(BatchOf(pk, groups[pk], ips[pk]))];
      }
    }
    req := Request(EffectiveJobId(jobId, clock), providers);
  }

  // ---- The agent's validator ----

  datatype Defect =
    | NilRequest | EmptyJobId | NoProviders | NilProvider | EmptyPubkey | EmptyProviderAddress | NoContracts
    | NilEndpoint | EmptyIp | BadPort | BadPublicKey | NilContract | EmptyContractAddress | EmptyBagId

  predicate WellFormedContract(c: Option<ContractRef>) {
    c.Some? && !Blank(c.value.address) && !Blank(c.value.bagId)
  }

  predicate WellFormedBatch(b: Option<Batch>) {
    && b.Some?
    && !Blank(b.value.pubkey) && !Blank(b.value.providerAddress) && b.value.contracts != []
    && b.value.endpoint.Some?
    && !Blank(b.value.endpoint.value.ip) && b.value.endpoint.value.port > 0
    && |b.value.endpoint.value.adnlPubkey| == PUBLIC_KEY_SIZE
    && forall j | 0 <= j < |b.value.contracts| :: WellFormedContract(b.value.contracts[j])
  }

  predicate WellFormed(req: Option<Request>) {
    && req.Some? && !Blank(req.value.jobId) && req.value.providers != []
    && forall i | 0 <= i < |req.value.providers| :: WellFormedBatch(req.value.providers[i])
  }

  method ValidateBatch(b: Option<Batch>) returns (defect: Option<Defect>)
    ensures defect.None? <==> WellFormedBatch(b)
  {
    if b.None? { return Some(NilProvider); }
    if Blank(b.value.pubkey) { return Some(EmptyPubkey); }
    if Blank(b.value.providerAddress) { return Some(EmptyProviderAddress); }
    if |b.value.contracts| == 0 { return Some(NoContracts); }
    if b.value.endpoint.None? { return Some(NilEndpoint); }
    var endpoint := b.value.endpoint.value;
    if Blank(endpoint.ip) { return Some(EmptyIp); }
    if endpoint.port <= 0 { return Some(BadPort); }
    if |endpoint.adnlPubkey| != PUBLIC_KEY_SIZE { return Some(BadPublicKey); }
    for j := 0 to |b.value.contracts|
      invariant forall k | 0 <= k < j :: WellFormedContract(b.value.contracts[k])
    {
      var c := b.value.contracts[j];
      if c.None? { return Some(NilContract); }
      if Blank(c.value.address) { return Some(EmptyContractAddress); }
      if Blank(c.value.bagId) { return Some(EmptyBagId); }
    }
    return None;
  }

  /** Accepts exactly the well-formed requests. */
  method ValidateRequest(req: Option<Request>) returns (defect: Option<Defect>)
    ensures defect.None? <==> WellFormed(req)
  {
    if req.None? { return Some(NilRequest); }
    if Blank(req.value.jobId) { return Some(EmptyJobId); }
    if |req.value.providers| == 0 { return Some(NoProviders); }
    for i := 0 to |req.value.providers|
      invariant forall k | 0 <= k < i :: WellFormedBatch(req.value.providers[k])
    {
      defect := ValidateBatch(req.value.providers[i]);
      if defect.Some? { return; }
    }
    return None;
  }

  // ---- Builder meets validator ----

  ghost predicate NonBlank(rels: seq<Relation>) {
    forall r | r in rels :: !Blank(r.pubkey) && !Blank(r.providerAddress) && !Blank(r.address) && !Blank(r.bagId)
  }

  /** Every built batch belongs to a resolvable provider of the relations. */
  lemma {:induction false} BatchesMembers(rels: seq<Relation>, ips: map<string, ProviderIP>, order: seq<string>)
    requires forall pk | pk in order :: pk in Pubkeys(rels)
    ensures forall x | x in Batches(rels, ips, order) ::
              x.Some? && x.value.pubkey in order && Resolvable(ips, x.value.pubkey)
              && x.value == BatchOf(x.value.pubkey, NonEmptyGroup(rels, x.value.pubkey), ips[x.value.pubkey])
    ensures forall pk | pk in order && Resolvable(ips, pk) ::
              Some(BatchOf(pk, NonEmptyGroup(rels, pk), ips[pk])) in Batches(rels, ips, order)
  {
    if order != [] {
      var n := |order| - 1;
      BatchesMembers(rels, ips, order[..n]);
      assert order == order[..n] + [order[n]];
    }
  }

  /** A provider's relations stand in input order. */
  lemma {:induction false} GroupKeepsOrder(rels: seq<Relation>, pk: string) returns (ps: seq<nat>)
    ensures Embeds(ps, Group(rels, pk), rels) && forall i | 0 <= i < |rels| && rels[i].pubkey == pk :: i in ps
  {
    if rels == [] {
      ps := [];
    } else {
      var n := |rels| - 1;
      ps := GroupKeepsOrder(rels[..n], pk);
      forall i | 0 <= i < n && rels[i].pubkey == pk ensures i in ps { assert rels[..n][i] == rels[i]; }
      assert rels == rels[..n] + [rels[n]];
      if rels[n].pubkey == pk {
        EmbedsKeep(ps, Group(rels[..n], pk), rels[..n], rels[n]);
        ps := ps + [n];
      } else {
        EmbedsSkip(ps, Group(rels[..n], pk), rels[..n], rels[n]);
        assert Group(rels, pk) == Group(rels[..n], pk);
      }
    }
  }

  /** What a batch says: the resolved storage endpoint, and the contracts of the provider's relations in input order. */
  lemma {:induction false} BatchContents(rels: seq<Relation>, ips: map<string, ProviderIP>, order: seq<string>, x: Option<Batch>)
    requires (forall pk | pk in order :: pk in Pubkeys(rels)) && x in Batches(rels, ips, order)
    ensures x.Some? && x.value.pubkey in order && x.value.pubkey in ips && x.value.endpoint.Some?
    ensures var b, storage := x.value, ips[x.value.pubkey].storage;
            && b.endpoint.value.ip == storage.ip && b.endpoint.value.port == storage.port && b.endpoint.value.adnlPubkey == storage.publicKey
    ensures var b, g := x.value, Group(rels, x.value.pubkey);
            && |b.contracts| == |g| && g != [] && b.providerAddress == g[0].providerAddress
            && forall i | 0 <= i < |g| :: b.contracts[i].Some? && b.contracts[i].value.address == g[i].address && b.contracts[i].value.bagId == g[i].bagId
  {
    BatchesMembers(rels, ips, order);
  }

  lemma {:induction false} BuiltBatchWellFormed(rels: seq<Relation>, ips: map<string, ProviderIP>, pk: string)
    requires NonBlank(rels) && pk in Pubkeys(rels) && Resolvable(ips, pk)
    ensures WellFormedBatch(Some(BatchOf(pk, NonEmptyGroup(rels, pk), ips[pk])))
  {
    var g := NonEmptyGroup(rels, pk);
    assert forall i | 0 <= i < |g| :: g[i] in g;
    assert g[0] in rels;
  }

  /** One relation per contract of a batch. */
  function RelationsOf(b: Batch): (rels: seq<Relation>)
    requires forall j | 0 <= j < |b.contracts| :: b.contracts[j].Some?
    ensures |rels| == |b.contracts|
    ensures forall j | 0 <= j < |rels| ::
              rels[j] == Relation(b.pubkey, b.providerAddress, b.contracts[j].value.address, b.contracts[j].value.bagId, 0)
  {
    seq(|b.contracts|, j requires 0 <= j < |b.contracts| =>
      Relation(b.pubkey, b.providerAddress, b.contracts[j].value.address, b.contracts[j].value.bagId, 0))
  }

  lemma {:induction false} GroupOfOne(rels: seq<Relation>, pk: string)
    requires forall r | r in rels :: r.pubkey == pk
    ensures Group(rels, pk) == rels
  {
    if rels != [] {
      var n := |rels| - 1;
      assert rels[n] in rels;
      forall r | r in rels[..n] ensures r.pubkey == pk { assert r in rels; }
      GroupOfOne(rels[..n], pk);
      assert rels == rels[..n] + [rels[n]];
    }
  }

  lemma {:induction false} SingleBatch(rels: seq<Relation>, pk: string, ip: ProviderIP)
    requires rels != [] && (forall r | r in rels :: r.pubkey == pk) && HasValidStorage(ip)
    ensures Pubkeys(rels) == {pk}
    ensures Batches(rels, map[pk := ip], [pk]) == [Some(BatchOf(pk, rels, ip))]
  {
    assert rels[0] in rels;
    GroupOfOne(rels, pk);
    BatchesSnoc(rels, map[pk := ip], [], pk);
    assert [] + [pk] == [pk];
  }

  lemma {:induction false} RelationsNonBlank(b: Batch)
    requires WellFormedBatch(Some(b))
    ensures (forall j | 0 <= j < |b.contracts| :: b.contracts[j].Some?) && RelationsOf(b) != [] && NonBlank(RelationsOf(b))
    ensures forall r | r in RelationsOf(b) :: r.pubkey == b.pubkey
    ensures Refs(RelationsOf(b)) == b.contracts
  {
    forall j | 0 <= j < |b.contracts| ensures WellFormedContract(b.contracts[j]) {}
    forall r | r in RelationsOf(b) ensures r.pubkey == b.pubkey && NonBlank([r]) {
      var j :| 0 <= j < |RelationsOf(b)| && RelationsOf(b)[j] == r;
      assert WellFormedContract(b.contracts[j]);
    }
    forall r | r in RelationsOf(b) ensures !Blank(r.pubkey) && !Blank(r.providerAddress) && !Blank(r.address) && !Blank(r.bagId) {
      assert r in [r];
    }
  }

  /** The validator refuses nothing that could be built: an accepted batch is what the builder makes of some non-blank relations and a valid endpoint. */
  lemma {:induction false} AcceptedIsBuildable(b: Batch) returns (rels: seq<Relation>, ip: ProviderIP)
    requires WellFormedBatch(Some(b))
    ensures NonBlank(rels) && HasValidStorage(ip) && Pubkeys(rels) == {b.pubkey}
    ensures Batches(rels, map[b.pubkey := ip], [b.pubkey]) == [Some(b)]
  {
    RelationsNonBlank(b);
    rels := RelationsOf(b);
    var storage := IPInfo(b.endpoint.value.adnlPubkey, b.endpoint.value.ip, b.endpoint.value.port);
    ip := ProviderIP(b.pubkey, storage, IPInfo([], "", 0));
    SingleBatch(rels, b.pubkey, ip);
  }

  function SomeAll(bs: seq<Batch>): (s: seq<Option<Batch>>)
    ensures |s| == |bs| && forall i | 0 <= i < |bs| :: s[i] == Some(bs[i])
  {
    seq(|bs|, i requires 0 <= i < |bs| => Some(bs[i]))
  }

  /** Every batch of a shard is one of the batches that were assigned. */
  lemma {:induction false} ShardMembers(providers: seq<Option<Batch>>, r: Rules, e: string, b: Batch)
    requires providers != [] && e in r.endpoints && b in Assign(providers, r).byEndpoint[e]
    ensures Some(b) in providers
  {
    var bs := Ordered(providers);
    SelectMember(bs, Placement(bs, r), e, b);
    OrderedConserves(providers);
    assert b in multiset(Somes(providers));
    NonNilMembers(providers, b);
    assert Some(b) in multiset(providers);
  }

  /**
   * Whatever the map order and the sharding rules, each request that the fan-out sends to an
   * agent passes that agent's validator.
   */
  lemma {:induction false} FannedOutRequestsAreWellFormed(
    jobId: string, clock: string, rels: seq<Relation>, ips: map<string, ProviderIP>, order: seq<string>, r: Rules, e: string)
    requires NonBlank(rels) && Enumerates(order, Pubkeys(rels)) && Batches(rels, ips, order) != [] && e in r.endpoints
    ensures var shard := Assign(Batches(rels, ips, order), r).byEndpoint[e];
            shard != [] ==> WellFormed(Some(Request(EffectiveJobId(jobId, clock), SomeAll(shard))))
  {
    var built := Batches(rels, ips, order);
    var shard := Assign(built, r).byEndpoint[e];
    forall i | 0 <= i < |shard| ensures WellFormedBatch(SomeAll(shard)[i]) {
      ShardMembers(built, r, e, shard[i]);
      BatchesMembers(rels, ips, order);
      assert Some(shard[i]) in built;
      BuiltBatchWellFormed(rels, ips, shard[i].pubkey);
    }
  }

  /** Relations that share a provider address share its public key. */
  ghost predicate AddressFixesKey(rels: seq<Relation>) {
    forall x, y | x in rels && y in rels && x.providerAddress == y.providerAddress :: x.pubkey == y.pubkey
  }

  /** A relation is checked exactly when its provider has a usable endpoint. */
  lemma {:induction false} CheckedExactly(rels: seq<Relation>, ips: map<string, ProviderIP>, r: Relation)
    requires r in rels && PipeFree(rels) && AddressFixesKey(rels)
    ensures RelationKey(r) in CheckedKeys(rels, ips) <==> Resolvable(ips, r.pubkey)
  {
    if RelationKey(r) in CheckedKeys(rels, ips) {
      var x :| x in rels && Resolvable(ips, x.pubkey) && RelationKey(x) == RelationKey(r);
      KeyInjective(x.providerAddress, x.address, r.providerAddress, r.address);
    }
  }

  /** With endpoints from a refresh, a relation is checked exactly when its provider was returned. */
  lemma {:induction false} CheckedIffResolved(rels: seq<Relation>, ips: map<string, ProviderIP>, r: Relation)
    requires r in rels && AllValid(ips) && PipeFree(rels) && AddressFixesKey(rels)
    ensures RelationKey(r) in CheckedKeys(rels, ips) <==> r.pubkey in ips
  {
    CheckedExactly(rels, ips, r);
  }
}
