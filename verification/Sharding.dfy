/** Sharding of provider batches across agents, with sticky and exclusion rules. */
module Sharding {
  import opened Domain
  import opened ShardOrder
  import LB = LoadBalance

  /** `sticky` and `exclude` map a provider's public key to an endpoint. */
  datatype Rules = Rules(endpoints: seq<string>, sticky: map<string, string>, exclude: map<string, string>)

  datatype Assignment = Assignment(byEndpoint: map<string, seq<Batch>>, byProvider: map<string, string>)

  function Without(eps: seq<string>, x: string): (r: seq<string>)
    ensures forall e :: e in r <==> e in eps && e != x
  {
    if eps == [] then []
    else Without(eps[..|eps| - 1], x) + (if eps[|eps| - 1] != x then [eps[|eps| - 1]] else [])
  }

  /** The endpoints that may take a provider whose excluded endpoint is `x` ("" for none). */
  function Candidates(eps: seq<string>, x: string): (c: seq<string>)
    ensures eps != [] ==> c != []
    ensures forall e :: e in c ==> e in eps
  {
    if x != "" && |eps| > 1 && |Without(eps, x)| > 0 then Without(eps, x) else eps
  }

  /** Position `j` holds the first candidate of minimal load. */
  ghost predicate FirstLeast(c: seq<string>, loads: map<string, nat>, j: nat)
    requires forall e | e in c :: e in loads
  {
    && j < |c|
    && (forall i | 0 <= i < |c| :: loads[c[j]] <= loads[c[i]])
    && (forall i | 0 <= i < j :: loads[c[j]] < loads[c[i]])
  }

  /** First candidate of minimal load. */
  function LeastLoaded(c: seq<string>, loads: map<string, nat>): (e: string)
    requires c != [] && forall e | e in c :: e in loads
    ensures e in c && forall d | d in c :: loads[e] <= loads[d]
  {
    if |c| == 1 then c[0]
    else
      var best := LeastLoaded(c[..|c| - 1], loads);
      if loads[c[|c| - 1]] < loads[best] then c[|c| - 1] else best
  }

  function Choice(c: seq<string>, loads: map<string, nat>, sticky: string): (e: string)
    requires c != [] && forall e | e in c :: e in loads
    ensures e in c
  {
    if sticky != "" && sticky in c then sticky else LeastLoaded(c, loads)
  }

  function Sizes(bs: seq<Batch>): (s: seq<nat>)
    ensures |s| == |bs| && forall i | 0 <= i < |bs| :: s[i] == |bs[i].contracts|
  {
    seq(|bs|, i requires 0 <= i < |bs| => |bs[i].contracts|)
  }

  function Loads(bs: seq<Batch>, p: seq<string>, eps: seq<string>): map<string, nat>
    requires |bs| == |p|
  {
    map e | e in eps :: LB.Load(Sizes(bs), p, e)
  }

  /** The endpoint chosen for each batch, in the order in which batches are handed out. */
  function Placement(bs: seq<Batch>, r: Rules): (p: seq<string>)
    requires r.endpoints != []
    ensures |p| == |bs| && forall k | 0 <= k < |p| :: p[k] in r.endpoints
  {
    if bs == [] then []
    else
      var n := |bs| - 1;
      var p := Placement(bs[..n], r);
      p + [Choice(Candidates(r.endpoints, Lookup(r.exclude, bs[n].pubkey)),
                  Loads(bs[..n], p, r.endpoints),
                  Lookup(r.sticky, bs[n].pubkey))]
  }

  /** The batches placed on `e`, in placement order. */
  function Select(bs: seq<Batch>, p: seq<string>, e: string): seq<Batch>
    requires |bs| == |p|
  {
    if bs == [] then []
    else
      var n := |bs| - 1;
      Select(bs[..n], p[..n], e) + (if p[n] == e then [bs[n]] else [])
  }

  function Selects(bs: seq<Batch>, p: seq<string>, eps: seq<string>): map<string, seq<Batch>>
    requires |bs| == |p|
  {
    map e | e in eps :: Select(bs, p, e)
  }

  function ByProvider(bs: seq<Batch>, p: seq<string>): map<string, string>
    requires |bs| == |p|
  {
    if bs == [] then map[]
    else ByProvider(bs[..|bs| - 1], p[..|bs| - 1])[bs[|bs| - 1].pubkey := p[|bs| - 1]]
  }

  function Ordered(providers: seq<Option<Batch>>): seq<Batch> { Somes(StableSorted(providers)) }

  function Assign(providers: seq<Option<Batch>>, r: Rules): Assignment {
    if providers == [] || r.endpoints == [] then Assignment(map[], map[])
    else Place(Ordered(providers), r)
  }

  function Place(bs: seq<Batch>, r: Rules): Assignment
    requires r.endpoints != []
  {
    var p := Placement(bs, r);
    Assignment(Selects(bs, p, r.endpoints), ByProvider(bs, p))
  }

  // ---- The imperative code ----

  lemma {:induction false} LeastLoadedNext(c: seq<string>, loads: map<string, nat>, i: nat)
    requires 0 < i < |c| && forall e | e in c :: e in loads
    ensures var best := LeastLoaded(c[..i], loads);
            LeastLoaded(c[..i + 1], loads) == if loads[c[i]] < loads[best] then c[i] else best
  {
    assert c[..i + 1][..i] == c[..i];
  }

  /** The running minimum of `pickAgent`. */
  method PickLeastLoaded(candidates: seq<string>, loads: map<string, nat>) returns (chosen: string)
    requires candidates != [] && forall e | e in candidates :: e in loads
    ensures chosen == LeastLoaded(candidates, loads)
  {
    chosen := candidates[0];
    var minLoad := loads[chosen];
    for i := 1 to |candidates|
      invariant chosen == LeastLoaded(candidates[..i], loads) && minLoad == loads[chosen]
    {
      LeastLoadedNext(candidates, loads, i);
      if loads[candidates[i]] < minLoad {
        chosen := candidates[i];
        minLoad := loads[candidates[i]];
      }
    }
    assert candidates[..|candidates|] == candidates;
  }

  method PickAgent(candidates: seq<string>, loads: map<string, nat>, stickyEndpoint: string) returns (chosen: string)
    requires candidates != [] && forall e | e in candidates :: e in loads
    ensures chosen == Choice(candidates, loads, stickyEndpoint)
  {
    if stickyEndpoint != "" {
      for i := 0 to |candidates|
        invariant forall j | 0 <= j < i :: candidates[j] != stickyEndpoint
      {
        if candidates[i] == stickyEndpoint { return candidates[i]; }
      }
    }
    chosen := PickLeastLoaded(candidates, loads);
  }

  method FilterCandidates(endpoints: seq<string>, excluded: string) returns (candidates: seq<string>)
    ensures candidates == Candidates(endpoints, excluded)
  {
    candidates := endpoints;
    if excluded != "" && |endpoints| > 1 {
      var filtered := [];
      for i := 0 to |endpoints|
        invariant filtered == Without(endpoints[..i], excluded)
      {
        assert endpoints[..i + 1][..i] == endpoints[..i];
        if endpoints[i] != excluded { filtered := filtered + [endpoints[i]]; }
      }
      assert endpoints[..|endpoints|] == endpoints;
      if |filtered| > 0 { candidates := filtered; }
    }
  }

  /** One round of the hand-out loop. */
  method PlaceBatch(
    ghost done: seq<Batch>, r: Rules,
    loads: map<string, nat>, byEndpoint: map<string, seq<Batch>>, byProvider: map<string, string>, batch: Batch)
    returns (loads': map<string, nat>, byEndpoint': map<string, seq<Batch>>, byProvider': map<string, string>)
    requires r.endpoints != [] && Tracks(done, r, loads, byEndpoint, byProvider)
    ensures Tracks(done + [batch], r, loads', byEndpoint', byProvider')
  {
    var candidates := FilterCandidates(r.endpoints, Lookup(r.exclude, batch.pubkey));
    var chosen := PickAgent(candidates, loads, Lookup(r.sticky, batch.pubkey));
    byEndpoint' := byEndpoint[chosen := byEndpoint[chosen] + [batch]];
    byProvider' := byProvider[batch.pubkey := chosen];
    loads' := loads[chosen := loads[chosen] + |batch.contracts|];
    TracksStep(done, r, loads, byEndpoint, byProvider, batch, chosen);
  }

  method AssignProvidersToAgents(
    providers: seq<Option<Batch>>, endpoints: seq<string>, sticky: map<string, string>, exclude: map<string, string>)
    returns (out: Assignment)
    ensures out == Assign(providers, Rules(endpoints, sticky, exclude))
  {
    if |providers| == 0 || |endpoints| == 0 { return Assignment(map[], map[]); }
    var ordered := new Option<Batch>[|providers|](i requires 0 <= i < |providers| => providers[i]);
    assert ordered[..] == providers;
    SortStable(ordered);
    out := HandOut(ordered[..], Rules(endpoints, sticky, exclude));
  }

  method HandOut(ordered: seq<Option<Batch>>, r: Rules) returns (out: Assignment)
    requires r.endpoints != []
    ensures out == Place(Somes(ordered), r)
  {
    var byEndpoint: map<string, seq<Batch>> := map e | e in r.endpoints :: [];
    var loads: map<string, nat> := map e | e in r.endpoints :: 0;
    var byProvider: map<string, string> := map[];
    TracksStart(r);
    for i := 0 to |ordered|
      invariant Tracks(Somes(ordered[..i]), r, loads, byEndpoint, byProvider)
    {
      assert ordered[..i + 1][..i] == ordered[..i];
      if ordered[i].None? {
        assert Somes(ordered[..i + 1]) == Somes(ordered[..i]);
        continue;
      }
      assert Somes(ordered[..i + 1]) == Somes(ordered[..i]) + [ordered[i].value];
      loads, byEndpoint, byProvider := PlaceBatch(Somes(ordered[..i]), r, loads, byEndpoint, byProvider, ordered[i].value);
    }
    assert ordered[..|ordered|] == ordered;
    out := Assignment(byEndpoint, byProvider);
  }

  /** The three maps of the loop describe the placement of the batches handed out so far. */
  ghost predicate Tracks(
    bs: seq<Batch>, r: Rules, loads: map<string, nat>, byEndpoint: map<string, seq<Batch>>, byProvider: map<string, string>)
    requires r.endpoints != []
  {
    var p := Placement(bs, r);
    && loads == Loads(bs, p, r.endpoints)
    && byEndpoint == Selects(bs, p, r.endpoints)
    && byProvider == ByProvider(bs, p)
  }

  lemma {:induction false} TracksStart(r: Rules)
    requires r.endpoints != []
    ensures Tracks([], r, map e | e in r.endpoints :: 0, map e | e in r.endpoints :: [], map[])
  {
    assert Placement([], r) == [];
    assert Sizes([]) == [];
  }

  lemma {:induction false} TracksStep(
    bs: seq<Batch>, r: Rules, loads: map<string, nat>, byEndpoint: map<string, seq<Batch>>, byProvider: map<string, string>,
    b: Batch, e: string)
    requires r.endpoints != [] && Tracks(bs, r, loads, byEndpoint, byProvider)
    requires e == Choice(Candidates(r.endpoints, Lookup(r.exclude, b.pubkey)), loads, Lookup(r.sticky, b.pubkey))
    ensures Tracks(bs + [b], r, loads[e := loads[e] + |b.contracts|], byEndpoint[e := byEndpoint[e] + [b]], byProvider[b.pubkey := e])
  {
    var p := Placement(bs, r);
    assert Placement(bs + [b], r) == p + [e] by { PlacementSnoc(bs, b, r); }
    assert Loads(bs + [b], p + [e], r.endpoints) == loads[e := loads[e] + |b.contracts|] by {
      LoadsStep(bs, b, p, e, r.endpoints, loads);
    }
    assert Selects(bs + [b], p + [e], r.endpoints) == byEndpoint[e := byEndpoint[e] + [b]] by {
      SelectsStep(bs, b, p, e, r.endpoints, byEndpoint);
    }
    assert ByProvider(bs + [b], p + [e]) == byProvider[b.pubkey := e] by { Snoc(bs, b, p, e, e); }
  }

  lemma {:induction false} PlacementSnoc(bs: seq<Batch>, b: Batch, r: Rules)
    requires r.endpoints != []
    ensures var p := Placement(bs, r);
            Placement(bs + [b], r) == p + [Choice(Candidates(r.endpoints, Lookup(r.exclude, b.pubkey)),
                                                  Loads(bs, p, r.endpoints), Lookup(r.sticky, b.pubkey))]
  {
    assert (bs + [b])[..|bs|] == bs;
  }

  lemma {:induction false} LoadsStep(bs: seq<Batch>, b: Batch, p: seq<string>, e: string, eps: seq<string>, loads: map<string, nat>)
    requires |bs| == |p| && e in eps && loads == Loads(bs, p, eps)
    ensures Loads(bs + [b], p + [e], eps) == loads[e := loads[e] + |b.contracts|]
  {
    forall d | d in eps ensures Loads(bs + [b], p + [e], eps)[d] == loads[e := loads[e] + |b.contracts|][d] {
      Snoc(bs, b, p, e, d);
    }
  }

  lemma {:induction false} SelectsStep(bs: seq<Batch>, b: Batch, p: seq<string>, e: string, eps: seq<string>, m: map<string, seq<Batch>>)
    requires |bs| == |p| && e in eps && m == Selects(bs, p, eps)
    ensures Selects(bs + [b], p + [e], eps) == m[e := m[e] + [b]]
  {
    forall d | d in eps ensures Selects(bs + [b], p + [e], eps)[d] == m[e := m[e] + [b]][d] {
      Snoc(bs, b, p, e, d);
    }
  }

  lemma {:induction false} Snoc(bs: seq<Batch>, b: Batch, p: seq<string>, e: string, d: string)
    requires |bs| == |p|
    ensures LB.Load(Sizes(bs + [b]), p + [e], d) == LB.Load(Sizes(bs), p, d) + (if d == e then |b.contracts| else 0)
    ensures Select(bs + [b], p + [e], d) == Select(bs, p, d) + (if d == e then [b] else [])
    ensures ByProvider(bs + [b], p + [e]) == ByProvider(bs, p)[b.pubkey := e]
  {
    assert (bs + [b])[..|bs|] == bs && (p + [e])[..|bs|] == p;
    assert Sizes(bs + [b])[..|bs|] == Sizes(bs);
  }

  // ---- Conservation ----

  ghost function Contents(byEndpoint: map<string, seq<Batch>>, eps: seq<string>): multiset<Batch> {
    if eps == [] then multiset{}
    else (if eps[0] in byEndpoint then multiset(byEndpoint[eps[0]]) else multiset{}) + Contents(byEndpoint, eps[1..])
  }

  function BagSum(bs: seq<Batch>): nat {
    if bs == [] then 0 else BagSum(bs[..|bs| - 1]) + |bs[|bs| - 1].contracts|
  }

  ghost function SelectSum(bs: seq<Batch>, p: seq<string>, eps: seq<string>): multiset<Batch>
    requires |bs| == |p|
  {
    if eps == [] then multiset{} else multiset(Select(bs, p, eps[0])) + SelectSum(bs, p, eps[1..])
  }

  lemma {:induction false} SelectSumSnoc(bs: seq<Batch>, p: seq<string>, eps: seq<string>)
    requires |bs| == |p| && bs != [] && Distinct(eps)
    ensures SelectSum(bs, p, eps) == SelectSum(bs[..|p| - 1], p[..|p| - 1], eps)
                                     + (if p[|p| - 1] in eps then multiset{bs[|p| - 1]} else multiset{})
  {
    if eps != [] {
      SelectSumSnoc(bs, p, eps[1..]);
      assert eps == [eps[0]] + eps[1..];
      assert eps[0] !in eps[1..];
    }
  }

  lemma {:induction false} EmptySelectSum(eps: seq<string>)
    ensures SelectSum([], [], eps) == multiset{}
  {
    if eps != [] { EmptySelectSum(eps[1..]); }
  }

  lemma {:induction false} SelectsPartition(bs: seq<Batch>, p: seq<string>, eps: seq<string>)
    requires |bs| == |p| && Distinct(eps) && forall k | 0 <= k < |p| :: p[k] in eps
    ensures SelectSum(bs, p, eps) == multiset(bs)
  {
    if bs == [] {
      EmptySelectSum(eps);
    } else {
      SelectSumSnoc(bs, p, eps);
      var n := |p| - 1;
      SelectsPartition(bs[..n], p[..n], eps);
      assert p[n] in eps;
      MultisetSnoc(bs);
    }
  }

  lemma {:induction false} SelectLoad(bs: seq<Batch>, p: seq<string>, e: string)
    requires |bs| == |p|
    ensures BagSum(Select(bs, p, e)) == LB.Load(Sizes(bs), p, e)
  {
    if bs != [] {
      var n := |bs| - 1;
      SelectLoad(bs[..n], p[..n], e);
      assert Sizes(bs)[..n] == Sizes(bs[..n]);
      var s := Select(bs[..n], p[..n], e);
      if p[n] == e { assert (s + [bs[n]])[..|s|] == s; } else { assert Select(bs, p, e) == s; }
    }
  }

  lemma {:induction false} ContentsAreSelects(bs: seq<Batch>, p: seq<string>, eps: seq<string>, m: map<string, seq<Batch>>)
    requires |bs| == |p| && forall e | e in eps :: e in m && m[e] == Select(bs, p, e)
    ensures Contents(m, eps) == SelectSum(bs, p, eps)
  {
    if eps != [] { ContentsAreSelects(bs, p, eps[1..], m); }
  }

  lemma {:induction false} NonNilMembers(s: seq<Option<Batch>>, b: Batch)
    ensures multiset(Somes(s))[b] == multiset(s)[Some(b)]
  {
    if s != [] {
      NonNilMembers(s[..|s| - 1], b);
      assert s == s[..|s| - 1] + [s[|s| - 1]];
    }
  }

  /** Reordering the input does not change which batches are handed out. */
  lemma {:induction false} OrderedConserves(providers: seq<Option<Batch>>)
    ensures multiset(Ordered(providers)) == multiset(Somes(providers))
  {
    StableSortedCorrect(providers);
    forall b ensures multiset(Ordered(providers))[b] == multiset(Somes(providers))[b] {
      NonNilMembers(StableSorted(providers), b);
      NonNilMembers(providers, b);
    }
  }

  lemma {:induction false} PlacementPrefix(bs: seq<Batch>, r: Rules, k: nat)
    requires r.endpoints != [] && k <= |bs|
    ensures Placement(bs, r)[..k] == Placement(bs[..k], r)
  {
    if k < |bs| {
      var n := |bs| - 1;
      PlacementPrefix(bs[..n], r, k);
      assert bs[..n][..k] == bs[..k];
    } else {
      assert bs[..k] == bs;
    }
  }

  lemma {:induction false} ByProviderAt(bs: seq<Batch>, p: seq<string>, k: nat)
    requires |bs| == |p| && k < |bs|
    requires forall i, j | 0 <= i < j < |bs| :: bs[i].pubkey != bs[j].pubkey
    ensures bs[k].pubkey in ByProvider(bs, p) && ByProvider(bs, p)[bs[k].pubkey] == p[k]
  {
    var n := |bs| - 1;
    if k < n { ByProviderAt(bs[..n], p[..n], k); }
  }

  lemma {:induction false} ByProviderKeys(bs: seq<Batch>, p: seq<string>)
    requires |bs| == |p|
    ensures forall k :: k in ByProvider(bs, p) <==> exists i :: 0 <= i < |bs| && bs[i].pubkey == k
  {
    if bs != [] {
      var n := |bs| - 1;
      ByProviderKeys(bs[..n], p[..n]);
      forall k ensures k in ByProvider(bs, p) <==> exists i :: 0 <= i < |bs| && bs[i].pubkey == k {
        if k in ByProvider(bs[..n], p[..n]) {
          var i :| 0 <= i < n && bs[..n][i].pubkey == k;
          assert bs[i].pubkey == k;
        }
        if i :| 0 <= i < |bs| && bs[i].pubkey == k && i < n { assert bs[..n][i].pubkey == k; }
      }
    }
  }

  lemma {:induction false} SelectMember(bs: seq<Batch>, p: seq<string>, e: string, b: Batch)
    requires |bs| == |p|
    ensures b in Select(bs, p, e) <==> exists k :: 0 <= k < |bs| && bs[k] == b && p[k] == e
  {
    if bs != [] {
      var n := |bs| - 1;
      SelectMember(bs[..n], p[..n], e, b);
      if b in Select(bs[..n], p[..n], e) {
        var k :| 0 <= k < n && bs[..n][k] == b && p[..n][k] == e;
        assert bs[k] == b && p[k] == e;
      }
      if k :| 0 <= k < |bs| && bs[k] == b && p[k] == e && k < n { assert bs[..n][k] == b && p[..n][k] == e; }
    }
  }

  ghost predicate UniquePubkeys(bs: seq<Batch>) {
    forall i, j | 0 <= i < j < |bs| :: bs[i].pubkey != bs[j].pubkey
  }

  /** Two members of a sequence with unique keys and the same key are the same member. */
  lemma {:induction false} UniqueByMultiplicity(a: seq<Batch>, b: seq<Batch>)
    requires multiset(a) == multiset(b) && UniquePubkeys(a)
    ensures UniquePubkeys(b)
  {
    forall i, j | 0 <= i < j < |b| ensures b[i].pubkey != b[j].pubkey {
      assert b[i] in multiset(b) && b[j] in multiset(b);
      if b[i].pubkey == b[j].pubkey {
        var k :| 0 <= k < |a| && a[k] == b[i];
        var l :| 0 <= l < |a| && a[l] == b[j];
        TwiceInSequence(b, i, j);
        OnceInSequence(a, k);
        assert false;
      }
    }
  }

  lemma {:induction false} TwiceInSequence(s: seq<Batch>, i: nat, j: nat)
    requires i < j < |s| && s[i] == s[j]
    ensures multiset(s)[s[i]] >= 2
  {
    assert s == s[..j] + [s[j]] + s[j + 1..];
    assert s[i] in s[..j];
  }

  lemma {:induction false} OnceInSequence(s: seq<Batch>, k: nat)
    requires UniquePubkeys(s) && k < |s|
    ensures multiset(s)[s[k]] == 1
  {
    assert s == s[..k] + [s[k]] + s[k + 1..];
    assert s[k] !in s[..k] && s[k] !in s[k + 1..];
  }

  /** The per-endpoint lists partition the non-nil batches. */
  lemma {:induction false} AssignmentConserves(providers: seq<Option<Batch>>, r: Rules)
    requires providers != [] && r.endpoints != [] && Distinct(r.endpoints)
    ensures Assign(providers, r).byEndpoint.Keys == (set e | e in r.endpoints)
    ensures Contents(Assign(providers, r).byEndpoint, r.endpoints) == multiset(Somes(providers))
  {
    var bs := Ordered(providers);
    var p := Placement(bs, r);
    OrderedConserves(providers);
    SelectsPartition(bs, p, r.endpoints);
    ContentsAreSelects(bs, p, r.endpoints, Assign(providers, r).byEndpoint);
  }

  /** Position of a batch in the handing-out order. */
  lemma {:induction false} OrderedIndex(providers: seq<Option<Batch>>, b: Batch) returns (k: nat)
    requires UniquePubkeys(Somes(providers)) && b in Somes(providers)
    ensures k < |Ordered(providers)| && Ordered(providers)[k] == b && UniquePubkeys(Ordered(providers))
  {
    OrderedConserves(providers);
    UniqueByMultiplicity(Somes(providers), Ordered(providers));
    assert b in multiset(Ordered(providers));
    k :| 0 <= k < |Ordered(providers)| && Ordered(providers)[k] == b;
  }

  /** When public keys are unique the two maps of the assignment say the same thing. */
  lemma {:induction false} AssignmentAgrees(providers: seq<Option<Batch>>, r: Rules, b: Batch, e: string)
    requires providers != [] && UniquePubkeys(Somes(providers)) && b in Somes(providers) && e in r.endpoints
    ensures b.pubkey in Assign(providers, r).byProvider && e in Assign(providers, r).byEndpoint
    ensures b in Assign(providers, r).byEndpoint[e] <==> Assign(providers, r).byProvider[b.pubkey] == e
  {
    var bs := Ordered(providers);
    var p := Placement(bs, r);
    var k := OrderedIndex(providers, b);
    ByProviderAt(bs, p, k);
    SelectMember(bs, p, e, b);
  }

  lemma {:induction false} AssignedProviders(providers: seq<Option<Batch>>, r: Rules, pk: string)
    requires providers != [] && r.endpoints != []
    ensures pk in Assign(providers, r).byProvider <==> exists b :: b in Somes(providers) && b.pubkey == pk
  {
    var bs := Ordered(providers);
    OrderedConserves(providers);
    ByProviderKeys(bs, Placement(bs, r));
    if i :| 0 <= i < |bs| && bs[i].pubkey == pk { assert bs[i] in multiset(Somes(providers)); }
    if b :| b in Somes(providers) && b.pubkey == pk {
      assert b in multiset(bs);
      assert b in bs;
    }
  }

  // ---- Sticky and exclusion rules ----

  lemma {:induction false} PlacementAt(bs: seq<Batch>, r: Rules, k: nat)
    requires r.endpoints != [] && k < |bs|
    ensures Placement(bs, r)[k] == Choice(Candidates(r.endpoints, Lookup(r.exclude, bs[k].pubkey)),
                                          Loads(bs[..k], Placement(bs[..k], r), r.endpoints),
                                          Lookup(r.sticky, bs[k].pubkey))
  {
    PlacementPrefix(bs, r, k + 1);
    assert bs[..k + 1][..k] == bs[..k];
    assert Placement(bs, r)[k] == Placement(bs, r)[..k + 1][k];
  }

  lemma {:induction false} FirstLeastNext(c: seq<string>, loads: map<string, nat>, j: nat)
    requires c != [] && (forall e | e in c :: e in loads) && FirstLeast(c[..|c| - 1], loads, j)
    ensures FirstLeast(c, loads, if loads[c[|c| - 1]] < loads[c[j]] then |c| - 1 else j)
  {
    var init := c[..|c| - 1];
    forall i | 0 <= i < |init| ensures loads[c[j]] <= loads[c[i]] { assert loads[init[j]] <= loads[init[i]]; }
    forall i | 0 <= i < j ensures loads[c[j]] < loads[c[i]] { assert loads[init[j]] < loads[init[i]]; }
  }

  lemma {:induction false} LeastLoadedIsFirst(c: seq<string>, loads: map<string, nat>) returns (j: nat)
    requires c != [] && forall e | e in c :: e in loads
    ensures FirstLeast(c, loads, j) && c[j] == LeastLoaded(c, loads)
  {
    var n := |c| - 1;
    if n == 0 {
      j := 0;
    } else {
      j := LeastLoadedIsFirst(c[..n], loads);
      FirstLeastNext(c, loads, j);
      j := if loads[c[n]] < loads[c[j]] then n else j;
    }
  }

  /** Filtering keeps the order of the endpoints. */
  lemma {:induction false} WithoutKeepsOrder(eps: seq<string>, x: string) returns (ps: seq<nat>)
    ensures Embeds(ps, Without(eps, x), eps)
  {
    if eps == [] {
      ps := [];
    } else {
      var n := |eps| - 1;
      ps := WithoutKeepsOrder(eps[..n], x);
      assert eps == eps[..n] + [eps[n]];
      if eps[n] != x {
        EmbedsKeep(ps, Without(eps[..n], x), eps[..n], eps[n]);
        ps := ps + [n];
      } else {
        EmbedsSkip(ps, Without(eps[..n], x), eps[..n], eps[n]);
        assert Without(eps, x) == Without(eps[..n], x);
      }
    }
  }

  /** The candidates stand in the order of the endpoints. */
  lemma {:induction false} CandidatesKeepOrder(eps: seq<string>, x: string) returns (ps: seq<nat>)
    ensures Embeds(ps, Candidates(eps, x), eps)
  {
    if Candidates(eps, x) == Without(eps, x) {
      ps := WithoutKeepsOrder(eps, x);
    } else {
      ps := seq(|eps|, i => i);
    }
  }

  /** The load of endpoint `e` from the batches handed out before batch k. */
  function LoadBefore(bs: seq<Batch>, p: seq<string>, k: nat, e: string): nat
    requires |bs| == |p| && k <= |bs|
  {
    LB.Load(Sizes(bs[..k]), p[..k], e)
  }

  lemma {:induction false} FirstLeastBefore(bs: seq<Batch>, p: seq<string>, k: nat, eps: seq<string>, c: seq<string>, j: nat)
    requires |bs| == |p| && k <= |bs| && (forall e | e in c :: e in eps) && FirstLeast(c, Loads(bs[..k], p[..k], eps), j)
    ensures forall i | 0 <= i < |c| :: LoadBefore(bs, p, k, c[j]) <= LoadBefore(bs, p, k, c[i])
    ensures forall i | 0 <= i < j :: LoadBefore(bs, p, k, c[j]) < LoadBefore(bs, p, k, c[i])
  {
    var loads := Loads(bs[..k], p[..k], eps);
    forall i | 0 <= i < |c| ensures loads[c[i]] == LoadBefore(bs, p, k, c[i]) { assert c[i] in eps; }
  }

  /**
   * Under every set of rules: a batch that cannot go to its sticky endpoint goes to the first
   * candidate whose load, over the batches handed out before it, is minimal among the candidates.
   */
  lemma {:induction false} PlacedOnFirstLeastLoaded(bs: seq<Batch>, r: Rules, k: nat) returns (j: nat)
    requires r.endpoints != [] && k < |bs|
    requires Lookup(r.sticky, bs[k].pubkey) == "" || Lookup(r.sticky, bs[k].pubkey) !in Candidates(r.endpoints, Lookup(r.exclude, bs[k].pubkey))
    ensures var c := Candidates(r.endpoints, Lookup(r.exclude, bs[k].pubkey)); var p := Placement(bs, r);
            && j < |c| && p[k] == c[j]
            && (forall i | 0 <= i < |c| :: LoadBefore(bs, p, k, c[j]) <= LoadBefore(bs, p, k, c[i]))
            && (forall i | 0 <= i < j :: LoadBefore(bs, p, k, c[j]) < LoadBefore(bs, p, k, c[i]))
  {
    var c := Candidates(r.endpoints, Lookup(r.exclude, bs[k].pubkey));
    var p := Placement(bs, r);
    PlacementAt(bs, r, k);
    PlacementPrefix(bs, r, k);
    j := LeastLoadedIsFirst(c, Loads(bs[..k], p[..k], r.endpoints));
    FirstLeastBefore(bs, p, k, r.endpoints, c, j);
  }

  /** A batch whose sticky endpoint is a candidate goes there. */
  lemma {:induction false} PlacedOnSticky(bs: seq<Batch>, r: Rules, k: nat)
    requires r.endpoints != [] && k < |bs|
    requires Lookup(r.sticky, bs[k].pubkey) != "" && Lookup(r.sticky, bs[k].pubkey) in Candidates(r.endpoints, Lookup(r.exclude, bs[k].pubkey))
    ensures Placement(bs, r)[k] == Lookup(r.sticky, bs[k].pubkey)
  {
    PlacementAt(bs, r, k);
  }

  /** How the endpoint of one provider was chosen. */
  lemma {:induction false} ChosenFor(providers: seq<Option<Batch>>, r: Rules, b: Batch) returns (loads: map<string, nat>)
    requires providers != [] && r.endpoints != []
    requires UniquePubkeys(Somes(providers)) && b in Somes(providers)
    ensures b.pubkey in Assign(providers, r).byProvider
    ensures forall d | d in r.endpoints :: d in loads
    ensures Assign(providers, r).byProvider[b.pubkey]
            == Choice(Candidates(r.endpoints, Lookup(r.exclude, b.pubkey)), loads, Lookup(r.sticky, b.pubkey))
  {
    var bs := Ordered(providers);
    var k := OrderedIndex(providers, b);
    ByProviderAt(bs, Placement(bs, r), k);
    PlacementAt(bs, r, k);
    loads := Loads(bs[..k], Placement(bs[..k], r), r.endpoints);
  }

  lemma {:induction false} WithoutEmpty(eps: seq<string>, x: string)
    ensures Without(eps, x) == [] <==> forall e | e in eps :: e == x
  {
    if Without(eps, x) != [] { assert Without(eps, x)[0] in Without(eps, x); }
  }

  /** The excluded endpoint stays a candidate only when there is no other. */
  lemma {:induction false} CandidatesExact(eps: seq<string>, x: string)
    requires eps != [] && x != ""
    ensures x !in Candidates(eps, x) <==> exists e :: e in eps && e != x
    ensures x in Candidates(eps, x) ==> forall e | e in eps :: e == x
  {
    WithoutEmpty(eps, x);
    if d :| d in eps && d != x {
      if |eps| == 1 { assert eps == [d]; }
    } else {
      assert eps[0] in eps;
    }
  }

  /** The same for the assignment: provider k of the hand-out order, loads of the providers before it. */
  lemma {:induction false} AssignedFirstLeastLoaded(providers: seq<Option<Batch>>, r: Rules, k: nat) returns (j: nat)
    requires providers != [] && r.endpoints != [] && UniquePubkeys(Somes(providers)) && k < |Ordered(providers)|
    requires var pk := Ordered(providers)[k].pubkey;
             Lookup(r.sticky, pk) == "" || Lookup(r.sticky, pk) !in Candidates(r.endpoints, Lookup(r.exclude, pk))
    ensures var bs := Ordered(providers); var c := Candidates(r.endpoints, Lookup(r.exclude, bs[k].pubkey)); var p := Placement(bs, r);
            && bs[k].pubkey in Assign(providers, r).byProvider
            && j < |c| && Assign(providers, r).byProvider[bs[k].pubkey] == c[j]
            && (forall i | 0 <= i < |c| :: BagSum(Select(bs[..k], p[..k], c[j])) <= BagSum(Select(bs[..k], p[..k], c[i])))
            && (forall i | 0 <= i < j :: BagSum(Select(bs[..k], p[..k], c[j])) < BagSum(Select(bs[..k], p[..k], c[i])))
  {
    var bs := Ordered(providers);
    var p := Placement(bs, r);
    var c := Candidates(r.endpoints, Lookup(r.exclude, bs[k].pubkey));
    OrderedConserves(providers);
    UniqueByMultiplicity(Somes(providers), bs);
    j := PlacedOnFirstLeastLoaded(bs, r, k);
    ByProviderAt(bs, p, k);
    forall i | 0 <= i < |c| ensures BagSum(Select(bs[..k], p[..k], c[i])) == LoadBefore(bs, p, k, c[i]) {
      SelectLoad(bs[..k], p[..k], c[i]);
    }
  }

  /** A configured sticky endpoint that is not the excluded one is always used. */
  lemma {:induction false} StickyHonoured(providers: seq<Option<Batch>>, r: Rules, b: Batch)
    requires providers != [] && UniquePubkeys(Somes(providers)) && b in Somes(providers)
    requires var s := Lookup(r.sticky, b.pubkey); s != "" && s in r.endpoints && s != Lookup(r.exclude, b.pubkey)
    ensures b.pubkey in Assign(providers, r).byProvider
    ensures Assign(providers, r).byProvider[b.pubkey] == Lookup(r.sticky, b.pubkey)
  {
    var loads := ChosenFor(providers, r, b);
  }

  /** A provider avoids its excluded endpoint exactly when another endpoint exists. */
  lemma {:induction false} ExclusionExact(providers: seq<Option<Batch>>, r: Rules, b: Batch)
    requires providers != [] && r.endpoints != []
    requires UniquePubkeys(Somes(providers)) && b in Somes(providers)
    requires Lookup(r.exclude, b.pubkey) != ""
    ensures b.pubkey in Assign(providers, r).byProvider
    ensures Assign(providers, r).byProvider[b.pubkey] != Lookup(r.exclude, b.pubkey)
            <==> exists e :: e in r.endpoints && e != Lookup(r.exclude, b.pubkey)
  {
    var loads := ChosenFor(providers, r, b);
    CandidatesExact(r.endpoints, Lookup(r.exclude, b.pubkey));
  }

  /**
   * Main pass, then retry with the main assignment as exclusion: with at least two agents no
   * provider returns to its main-pass agent, whatever became sticky in between.
   */
  lemma {:induction false} RetryAvoidsMainAgent(
    main: seq<Option<Batch>>, retry: seq<Option<Batch>>, endpoints: seq<string>,
    stickyBefore: map<string, string>, stickyAfter: map<string, string>, b: Batch)
    requires |endpoints| >= 2 && Distinct(endpoints) && "" !in endpoints
    requires main != [] && retry != [] && UniquePubkeys(Somes(main)) && UniquePubkeys(Somes(retry))
    requires b in Somes(retry)
    ensures var first := Assign(main, Rules(endpoints, stickyBefore, map[])).byProvider;
            var second := Assign(retry, Rules(endpoints, stickyAfter, first)).byProvider;
            && b.pubkey in second && second[b.pubkey] in endpoints
            && (b.pubkey in first ==> second[b.pubkey] != first[b.pubkey])
  {
    var r1 := Rules(endpoints, stickyBefore, map[]);
    var first := Assign(main, r1).byProvider;
    var r2 := Rules(endpoints, stickyAfter, first);
    var loads := ChosenFor(retry, r2, b);
    if b.pubkey in first {
      AssignedProviders(main, r1, b.pubkey);
      var c :| c in Somes(main) && c.pubkey == b.pubkey;
      var loads1 := ChosenFor(main, r1, c);
      assert endpoints[0] != endpoints[1];
      var other := if endpoints[0] != first[b.pubkey] then endpoints[0] else endpoints[1];
      assert other in endpoints && other != first[b.pubkey];
      ExclusionExact(retry, r2, b);
    }
  }

  // ---- Balance ----

  /** Load of `e` when every provider goes where `alt` sends its public key. */
  ghost function AltLoad(providers: seq<Option<Batch>>, alt: string -> string, e: string): nat {
    if providers == [] then 0
    else AltLoad(providers[..|providers| - 1], alt, e) + AltShare(providers[|providers| - 1], alt, e)
  }

  ghost function AltShare(b: Option<Batch>, alt: string -> string, e: string): nat {
    if b.Some? && alt(b.value.pubkey) == e then |b.value.contracts| else 0
  }

  lemma {:induction false} AltLoadInsert(s: seq<Option<Batch>>, x: Option<Batch>, alt: string -> string, e: string)
    ensures AltLoad(Insert(s, x), alt, e) == AltLoad(s, alt, e) + AltShare(x, alt, e)
  {
    if s == [] || !Precedes(x, s[|s| - 1]) {
      assert (s + [x])[..|s|] == s;
    } else {
      var n := |s| - 1;
      AltLoadInsert(s[..n], x, alt, e);
      var t := Insert(s[..n], x);
      assert (t + [s[n]])[..|t|] == t;
    }
  }

  lemma {:induction false} AltLoadSorted(s: seq<Option<Batch>>, alt: string -> string, e: string)
    ensures AltLoad(StableSorted(s), alt, e) == AltLoad(s, alt, e)
  {
    if s != [] {
      AltLoadSorted(s[..|s| - 1], alt, e);
      AltLoadInsert(StableSorted(s[..|s| - 1]), s[|s| - 1], alt, e);
    }
  }

  ghost function AltPlacement(bs: seq<Batch>, alt: string -> string): (p: seq<string>)
    ensures |p| == |bs| && forall i | 0 <= i < |bs| :: p[i] == alt(bs[i].pubkey)
  {
    seq(|bs|, i requires 0 <= i < |bs| => alt(bs[i].pubkey))
  }

  lemma {:induction false} AltLoadIsLoad(s: seq<Option<Batch>>, alt: string -> string, e: string)
    ensures AltLoad(s, alt, e) == LB.Load(Sizes(Somes(s)), AltPlacement(Somes(s), alt), e)
  {
    if s != [] {
      var t, x := s[..|s| - 1], s[|s| - 1];
      AltLoadIsLoad(t, alt, e);
      if x.Some? {
        assert Sizes(Somes(s))[..|Somes(t)|] == Sizes(Somes(t));
        assert AltPlacement(Somes(s), alt)[..|Somes(t)|] == AltPlacement(Somes(t), alt);
      } else {
        assert Somes(s) == Somes(t);
      }
    }
  }

  lemma {:induction false} NonNilDescending(s: seq<Option<Batch>>)
    requires Sorted(s)
    ensures LB.Descending(Sizes(Somes(s)))
  {
    if s != [] {
      var t, x := s[..|s| - 1], s[|s| - 1];
      NonNilDescending(t);
      forall i | 0 <= i < |Somes(t)| ensures Bags(x) <= |Somes(t)[i].contracts| {
        SomesMember(t, Somes(t)[i]);
        var j :| 0 <= j < |t| && t[j] == Some(Somes(t)[i]);
        assert !Precedes(s[|s| - 1], s[j]);
      }
    }
  }

  /** Without sticky and exclusion entries the placement is greedy. */
  lemma {:induction false} PlacementIsGreedy(bs: seq<Batch>, eps: seq<string>)
    requires eps != []
    ensures LB.Greedy(Sizes(bs), Placement(bs, Rules(eps, map[], map[])), eps)
  {
    var r := Rules(eps, map[], map[]);
    var p, sizes := Placement(bs, r), Sizes(bs);
    forall k, e | 0 <= k < |p| && e in eps
      ensures LB.Load(sizes[..k], p[..k], p[k]) <= LB.Load(sizes[..k], p[..k], e)
    {
      PlacementPrefix(bs, r, k + 1);
      PlacementPrefix(bs, r, k);
      assert bs[..k + 1][..k] == bs[..k];
      assert sizes[..k] == Sizes(bs[..k]);
      assert p[k] == p[..k + 1][k] == LeastLoaded(eps, Loads(bs[..k], p[..k], eps));
    }
  }

  /**
   * With m agents and no sticky or excluded endpoint, every agent's bag count is within
   * (4/3 - 1/(3m)) of the peak `limit` of any other assignment of the same providers.
   */
  lemma {:induction false} AssignmentBalanced(providers: seq<Option<Batch>>, eps: seq<string>, alt: string -> string, limit: nat, e: string)
    requires providers != [] && Distinct(eps) && e in eps
    requires forall b | b in Somes(providers) :: alt(b.pubkey) in eps
    requires forall d | d in eps :: AltLoad(providers, alt, d) <= limit
    ensures var a := Assign(providers, Rules(eps, map[], map[]));
            && e in a.byEndpoint
            && 3 * |eps| * BagSum(a.byEndpoint[e]) <= (4 * |eps| - 1) * limit
  {
    var bs := Ordered(providers);
    var p := Placement(bs, Rules(eps, map[], map[]));
    StableSortedCorrect(providers);
    NonNilDescending(StableSorted(providers));
    PlacementIsGreedy(bs, eps);
    var q := AltPlacement(bs, alt);
    forall k | 0 <= k < |q| ensures q[k] in eps {
      OrderedConserves(providers);
      assert bs[k] in multiset(Somes(providers));
    }
    forall d | d in eps ensures LB.Load(Sizes(bs), q, d) <= limit {
      AltLoadSorted(providers, alt, d);
      AltLoadIsLoad(StableSorted(providers), alt, d);
    }
    LB.LongestFirstBound(Sizes(bs), p, eps, q, limit, e);
    SelectLoad(bs, p, e);
  }

  /** Any two agents differ by at most one largest batch, and the peak is near the average. */
  lemma {:induction false} AssignmentSpread(providers: seq<Option<Batch>>, eps: seq<string>, largest: nat, d: string, e: string)
    requires providers != [] && d in eps && e in eps
    requires forall b | b in Somes(providers) :: |b.contracts| <= largest
    ensures var a := Assign(providers, Rules(eps, map[], map[]));
            && d in a.byEndpoint && e in a.byEndpoint
            && BagSum(a.byEndpoint[d]) <= BagSum(a.byEndpoint[e]) + largest
    ensures var a := Assign(providers, Rules(eps, map[], map[]));
            Distinct(eps) ==> |eps| * BagSum(a.byEndpoint[d]) <= LB.Total(Sizes(Ordered(providers))) + (|eps| - 1) * largest
  {
    var bs := Ordered(providers);
    var p := Placement(bs, Rules(eps, map[], map[]));
    PlacementIsGreedy(bs, eps);
    OrderedConserves(providers);
    forall k | 0 <= k < |bs| ensures Sizes(bs)[k] <= largest { assert bs[k] in multiset(Somes(providers)); }
    LB.GreedySpread(Sizes(bs), p, eps, largest, d, e);
    SelectLoad(bs, p, d);
    SelectLoad(bs, p, e);
    if Distinct(eps) { LB.GreedyPeak(Sizes(bs), p, eps, largest, d); }
  }

  /** The assignment does not depend on the order in which the batches arrive. */
  lemma {:induction false} AssignmentIgnoresOrder(a: seq<Option<Batch>>, b: seq<Option<Batch>>, r: Rules)
    requires multiset(a) == multiset(b) && TieFree(a)
    ensures Assign(a, r) == Assign(b, r)
  {
    assert |multiset(a)| == |a| && |multiset(b)| == |b|;
    SortIgnoresInputOrder(a, b);
  }
}
