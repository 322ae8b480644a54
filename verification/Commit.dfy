/** Which verdicts are written when: immediate commits, deferred commits, and their keys. */
module Commit {
  import opened Arithmetic
  import opened Domain
  import opened Requests
  import opened Merging
  import opened ProofPass

  /** The row written to the database. */
  datatype ProofCheck = ProofCheck(contractAddress: string, providerAddress: string, reason: Reason)

  function Public(c: Check): ProofCheck { ProofCheck(c.contractAddress, c.providerAddress, c.reason) }

  predicate IsRetriable(code: Reason) {
    match code
    case IPNotFound | NotFound | UnavailableProvider | CantCreatePeer | UnknownPeer
       | PingFailed | FailedInitialPing | GetInfoFailed | CantGetPiece => true
    case _ => false
  }

  predicate Settled(c: Check) { c.reason == ValidStorageProof || !IsRetriable(c.reason) }

  /** Written at once: a valid proof, or one of the four failures that a retry cannot change. */
  lemma {:induction false} SettledCodes(c: Check)
    ensures Settled(c) <==> c.reason in {ValidStorageProof, InvalidBagID, InvalidHeader, CantParseBoC, ProofCheckFailed}
  {
  }

  function SettledKeys(results: map<string, Check>): set<string> { set k | k in results && Settled(results[k]) }
  function PendingKeys(results: map<string, Check>): set<string> { set k | k in results && !Settled(results[k]) }

  /** The verdict a run commits for `k`: the main one, unless it is transient and the retry has one. */
  function Decision(main: map<string, Check>, retry: Option<map<string, Check>>, k: string): Check
    requires k in main
  {
    if !Settled(main[k]) && retry.Some? && k in retry.value then retry.value[k] else main[k]
  }

  /** `rows` are the decisions for `keys`, one each. */
  ghost predicate Decided(rows: seq<ProofCheck>, keys: seq<string>, main: map<string, Check>, retry: Option<map<string, Check>>) {
    && |rows| == |keys| && Distinct(keys)
    && forall i | 0 <= i < |keys| :: keys[i] in main && rows[i] == Public(Decision(main, retry, keys[i]))
  }

  method SelectMainProofsCommit(results: map<string, Check>)
    returns (toCommit: seq<ProofCheck>, pendingKeys: set<string>, ghost keys: seq<string>)
    ensures pendingKeys == PendingKeys(results)
    ensures Enumerates(keys, SettledKeys(results))
    ensures Decided(toCommit, keys, results, None)
  {
    toCommit, pendingKeys, keys := [], {}, [];
    var left := results.Keys;
    while left != {}
      invariant left <= results.Keys
      invariant pendingKeys == PendingKeys(results) - left
      invariant Enumerates(keys, SettledKeys(results) - left)
      invariant Decided(toCommit, keys, results, None)
    {
      var key :| key in left;
      left := left - {key};
      var row := results[key];
      if row.reason == ValidStorageProof || !IsRetriable(row.reason) {
        toCommit := toCommit + [Public(row)];
        keys := keys + [key];
        continue;
      }
      pendingKeys := pendingKeys + {key};
    }
  }

  method SelectFinalProofsCommit(main: map<string, Check>, pendingKeys: set<string>, retry: Option<map<string, Check>>)
    returns (out: seq<ProofCheck>, ghost keys: seq<string>)
    requires pendingKeys == PendingKeys(main)
    ensures Enumerates(keys, pendingKeys)
    ensures Decided(out, keys, main, retry)
    ensures forall k | k in pendingKeys :: Public(Decision(main, retry, k)) in out
  {
    out, keys := [], [];
    var left := pendingKeys;
    while left != {}
      invariant left <= pendingKeys
      invariant Enumerates(keys, pendingKeys - left)
      invariant Decided(out, keys, main, retry)
      invariant forall k | k in pendingKeys && k !in left :: Public(Decision(main, retry, k)) in out
    {
      var key :| key in left;
      left := left - {key};
      keys := keys + [key];
      if retry.Some? {
        if key in retry.value {
          out := out + [Public(retry.value[key])];
          continue;
        }
      }
      out := out + [Public(main[key])];
    }
  }

  /** The relations of the pending keys, in input order. */
  function PendingContracts(rels: seq<Relation>, pendingKeys: set<string>): (out: seq<Relation>)
    ensures forall r :: r in out <==> r in rels && RelationKey(r) in pendingKeys
  {
    if rels == [] then []
    else
      var n := |rels| - 1;
      assert rels == rels[..n] + [rels[n]];
      PendingContracts(rels[..n], pendingKeys) + (if RelationKey(rels[n]) in pendingKeys then [rels[n]] else [])
  }

  lemma {:induction false} PendingKeepsOrder(rels: seq<Relation>, pendingKeys: set<string>) returns (ps: seq<nat>)
    ensures Embeds(ps, PendingContracts(rels, pendingKeys), rels)
  {
    if rels == [] {
      ps := [];
    } else {
      var n := |rels| - 1;
      var before := PendingContracts(rels[..n], pendingKeys);
      ps := PendingKeepsOrder(rels[..n], pendingKeys);
      assert rels == rels[..n] + [rels[n]];
      if RelationKey(rels[n]) in pendingKeys {
        EmbedsKeep(ps, before, rels[..n], rels[n]);
        ps := ps + [n];
      } else {
        EmbedsSkip(ps, before, rels[..n], rels[n]);
        assert PendingContracts(rels, pendingKeys) == before;
      }
    }
  }

  method SelectPendingContracts(rels: seq<Relation>, pendingKeys: set<string>) returns (out: seq<Relation>)
    ensures out == PendingContracts(rels, pendingKeys)
  {
    out := [];
    for i := 0 to |rels|
      invariant out == PendingContracts(rels[..i], pendingKeys)
    {
      assert rels[..i + 1][..i] == rels[..i];
      if RelationKey(rels[i]) in pendingKeys { out := out + [rels[i]]; }
    }
    assert rels[..|rels|] == rels;
  }

  /** A settled verdict does not depend on the retry. */
  lemma {:induction false} SettledDecided(rows: seq<ProofCheck>, keys: seq<string>, main: map<string, Check>, retry: Option<map<string, Check>>)
    requires Decided(rows, keys, main, None) && forall k | k in keys :: k in SettledKeys(main)
    ensures Decided(rows, keys, main, retry)
  {
    forall i | 0 <= i < |keys| ensures rows[i] == Public(Decision(main, retry, keys[i])) { assert keys[i] in keys; }
  }

  // ---- Two commits cover every key once ----

  lemma {:induction false} DecidedConcat(
    rows: seq<ProofCheck>, keys: seq<string>, rows': seq<ProofCheck>, keys': seq<string>,
    main: map<string, Check>, retry: Option<map<string, Check>>)
    requires Decided(rows, keys, main, retry) && Decided(rows', keys', main, retry)
    requires forall k | k in keys :: k !in keys'
    ensures Decided(rows + rows', keys + keys', main, retry)
  {
    var all := keys + keys';
    forall i, j | 0 <= i < j < |all| ensures all[i] != all[j] {
      if i < |keys| <= j {
        assert keys[i] in keys;
        assert all[j] == keys'[j - |keys|];
      }
    }
  }

  ghost function Writes(main: map<string, Check>, retry: Option<map<string, Check>>, row: ProofCheck): string -> nat {
    (k: string) => One(k in main && Public(Decision(main, retry, k)) == row)
  }

  lemma {:induction false} DecidedCount(
    rows: seq<ProofCheck>, keys: seq<string>, main: map<string, Check>, retry: Option<map<string, Check>>, row: ProofCheck)
    requires Decided(rows, keys, main, retry)
    ensures multiset(rows)[row] == Sum(Writes(main, retry, row), keys)
  {
    if keys != [] {
      var n := |keys| - 1;
      DecidedCount(rows[..n], keys[..n], main, retry, row);
      assert rows == rows[..n] + [rows[n]];
    }
  }

  /** The rows written do not depend on the order in which the keys were visited. */
  lemma {:induction false} DecidedIgnoresOrder(
    rows: seq<ProofCheck>, keys: seq<string>, rows': seq<ProofCheck>, keys': seq<string>, written: set<string>,
    main: map<string, Check>, retry: Option<map<string, Check>>)
    requires Decided(rows, keys, main, retry) && Decided(rows', keys', main, retry)
    requires Enumerates(keys, written) && Enumerates(keys', written)
    ensures multiset(rows) == multiset(rows')
  {
    EnumerationsAgree(keys, keys', written);
    forall row ensures multiset(rows)[row] == multiset(rows')[row] {
      DecidedCount(rows, keys, main, retry, row);
      DecidedCount(rows', keys', main, retry, row);
      SumPermutation(Writes(main, retry, row), keys, keys');
    }
  }

  ghost predicate Concerns(row: ProofCheck, r: Relation) {
    row.contractAddress == r.address && row.providerAddress == r.providerAddress
  }

  /** Exactly one committed row concerns `r`, and it carries `reason`. */
  ghost predicate CommittedOnce(rows: seq<ProofCheck>, r: Relation, reason: Reason) {
    exists i :: && 0 <= i < |rows| && Concerns(rows[i], r) && rows[i].reason == reason
                && forall j | 0 <= j < |rows| && Concerns(rows[j], r) :: j == i
  }

  ghost predicate CommittedAtMostOnce(rows: seq<ProofCheck>, r: Relation) {
    forall i, j | 0 <= i < |rows| && 0 <= j < |rows| && Concerns(rows[i], r) && Concerns(rows[j], r) :: i == j
  }

  /** A decided row carries the identity its key stands for. */
  lemma {:induction false} DecisionIdentity(
    rels: seq<Relation>, main: map<string, Check>, retry: Option<map<string, Check>>, k: string)
    requires ResultsFor(rels, main) && PipeFree(rels) && k in main
    requires retry.Some? ==> ResultsFor(PendingContracts(rels, PendingKeys(main)), retry.value)
    ensures var row := Public(Decision(main, retry, k));
            Key(row.providerAddress, row.contractAddress) == k && '|' !in row.providerAddress
  {
    var r :| r in rels && RelationKey(r) == k;
    if !Settled(main[k]) && retry.Some? && k in retry.value {
      var p := PendingContracts(rels, PendingKeys(main));
      var s :| s in p && RelationKey(s) == k;
    }
  }

  lemma {:induction false} RowsDiffer(
    rels: seq<Relation>, main: map<string, Check>, retry: Option<map<string, Check>>, rows: seq<ProofCheck>, keys: seq<string>, r: Relation)
    requires ResultsFor(rels, main) && PipeFree(rels) && Decided(rows, keys, main, retry) && r in rels
    requires retry.Some? ==> ResultsFor(PendingContracts(rels, PendingKeys(main)), retry.value)
    ensures forall i | 0 <= i < |rows| :: Concerns(rows[i], r) <==> keys[i] == RelationKey(r)
    ensures CommittedAtMostOnce(rows, r)
  {
    forall i | 0 <= i < |rows| ensures Concerns(rows[i], r) <==> keys[i] == RelationKey(r) {
      DecisionIdentity(rels, main, retry, keys[i]);
      if keys[i] == RelationKey(r) {
        KeyInjective(rows[i].providerAddress, rows[i].contractAddress, r.providerAddress, r.address);
      }
    }
  }

  /** Once every key has been committed, each relation has exactly one row and it is its decision. */
  lemma {:induction false} AllCommittedOnce(
    rels: seq<Relation>, main: map<string, Check>, retry: Option<map<string, Check>>, rows: seq<ProofCheck>, keys: seq<string>, r: Relation)
    requires ResultsFor(rels, main) && PipeFree(rels) && Decided(rows, keys, main, retry) && r in rels
    requires retry.Some? ==> ResultsFor(PendingContracts(rels, PendingKeys(main)), retry.value)
    requires Enumerates(keys, main.Keys)
    ensures RelationKey(r) in main
    ensures CommittedOnce(rows, r, Decision(main, retry, RelationKey(r)).reason)
  {
    RowsDiffer(rels, main, retry, rows, keys, r);
    assert RelationKey(r) in keys;
    var i :| 0 <= i < |keys| && keys[i] == RelationKey(r);
    assert Concerns(rows[i], r);
  }

  /** The committed verdict is valid exactly when the main row is, or it was transient and the retry row is. */
  lemma {:induction false} DecisionValidity(
    rels: seq<Relation>, main: map<string, Check>, retry: Option<map<string, Check>>, r: Relation)
    requires ResultsFor(rels, main) && r in rels
    requires retry.Some? ==> ResultsFor(PendingContracts(rels, PendingKeys(main)), retry.value)
    ensures RelationKey(r) in main
    ensures var k := RelationKey(r);
            Decision(main, retry, k).reason == ValidStorageProof <==>
              || main[k].reason == ValidStorageProof
              || (IsRetriable(main[k].reason) && retry.Some? && k in retry.value && retry.value[k].reason == ValidStorageProof)
    ensures var k := RelationKey(r);
            !IsRetriable(main[k].reason) ==> Decision(main, retry, k) == main[k]
    ensures var k := RelationKey(r);
            IsRetriable(main[k].reason) && retry.Some? ==> k in retry.value && Decision(main, retry, k) == retry.value[k]
  {
    var p := PendingContracts(rels, PendingKeys(main));
    if IsRetriable(main[RelationKey(r)].reason) { assert r in p; }
  }
}
