/** Folding the agents' rows into one verdict per relation. */
module Merging {
  import opened Domain
  import opened Requests

  datatype Row = Row(providerAddress: string, contractAddress: string, reason: Reason, details: string)

  /** A response and each of its rows may be nil. */
  type Response = Option<seq<Option<Row>>>

  datatype Stage = EndpointUnresolved | NoResult | ParsedFrom(details: string)

  datatype Check = Check(contractAddress: string, providerAddress: string, reason: Reason, details: string, stage: Stage)

  function RowKey(row: Row): string { Key(row.providerAddress, row.contractAddress) }

  predicate Valid(row: Row) { row.reason == ValidStorageProof }

  function RowsOf(r: Response): seq<Row> { if r.Some? then Somes(r.value) else [] }

  function AllRows(rs: seq<Response>): seq<Row> {
    if rs == [] then [] else AllRows(rs[..|rs| - 1]) + RowsOf(rs[|rs| - 1])
  }

  function RowAt(m: map<string, Row>, k: string): Option<Row> { if k in m then Some(m[k]) else None }

  /** First row wins, except that a valid row replaces an invalid one. */
  function MergeRow(m: map<string, Row>, row: Row): map<string, Row> {
    if RowKey(row) !in m || (!Valid(m[RowKey(row)]) && Valid(row)) then m[RowKey(row) := row] else m
  }

  function MergeInto(m: map<string, Row>, rows: seq<Row>): map<string, Row> {
    if rows == [] then m else MergeRow(MergeInto(m, rows[..|rows| - 1]), rows[|rows| - 1])
  }

  // ---- What the fold computes, without the fold ----

  function ForKey(rows: seq<Row>, k: string): (f: seq<Row>)
    ensures forall row | row in f :: row in rows && RowKey(row) == k
  {
    if rows == [] then []
    else ForKey(rows[..|rows| - 1], k) + (if RowKey(rows[|rows| - 1]) == k then [rows[|rows| - 1]] else [])
  }

  function FirstValid(rows: seq<Row>): Option<Row> {
    if rows == [] then None
    else
      var earlier := FirstValid(rows[..|rows| - 1]);
      if earlier.Some? then earlier
      else if Valid(rows[|rows| - 1]) then Some(rows[|rows| - 1]) else None
  }

  /** The first valid row, or the first row. */
  function Best(rows: seq<Row>): Option<Row> {
    if FirstValid(rows).Some? then FirstValid(rows) else if rows == [] then None else Some(rows[0])
  }

  lemma {:induction false} FirstValidExact(rows: seq<Row>)
    ensures FirstValid(rows).Some? <==> exists row :: row in rows && Valid(row)
    ensures FirstValid(rows).Some? ==> Valid(FirstValid(rows).value) && FirstValid(rows).value in rows
  {
    if rows != [] {
      FirstValidExact(rows[..|rows| - 1]);
      assert rows == rows[..|rows| - 1] + [rows[|rows| - 1]];
    }
  }

  /** A valid row improves on an invalid best row and on nothing else. */
  lemma {:induction false} BestSnoc(f: seq<Row>, row: Row)
    ensures Best(f + [row]) == if Best(f).None? || (!Valid(Best(f).value) && Valid(row)) then Some(row) else Best(f)
  {
    assert (f + [row])[..|f|] == f;
    FirstValidExact(f);
    if f != [] && FirstValid(f).None? { assert f[0] in f; }
  }

  lemma {:induction false} MergeIsBest(rows: seq<Row>, k: string)
    ensures Best(ForKey(rows, k)) == RowAt(MergeInto(map[], rows), k)
  {
    if rows != [] {
      var init, last := rows[..|rows| - 1], rows[|rows| - 1];
      MergeIsBest(init, k);
      if RowKey(last) == k {
        BestSnoc(ForKey(init, k), last);
      } else {
        assert ForKey(rows, k) == ForKey(init, k);
      }
    }
  }

  /** The merged verdict is valid exactly when some agent returned a valid row, in whatever order rows arrived. */
  lemma {:induction false} MergedValidity(rows: seq<Row>, k: string)
    ensures k in MergeInto(map[], rows) && Valid(MergeInto(map[], rows)[k])
            <==> exists row :: row in rows && RowKey(row) == k && Valid(row)
  {
    var f := ForKey(rows, k);
    MergeIsBest(rows, k);
    FirstValidExact(f);
    ForKeyMembers(rows, k);
    if f != [] { assert f[0] in f; }
  }

  /** Row `n` is the one kept for key `k`: the first valid one, or the first one when none is valid. */
  ghost predicate Kept(rows: seq<Row>, k: string, n: nat) {
    && n < |rows| && RowKey(rows[n]) == k
    && (if Valid(rows[n]) then forall i | 0 <= i < n :: RowKey(rows[i]) == k ==> !Valid(rows[i])
        else (forall i | 0 <= i < n :: RowKey(rows[i]) != k) && (forall i | 0 <= i < |rows| :: RowKey(rows[i]) == k ==> !Valid(rows[i])))
  }

  lemma {:induction false} MergedIndex(rows: seq<Row>, k: string) returns (n: Option<nat>)
    ensures n.None? ==> k !in MergeInto(map[], rows) && forall i | 0 <= i < |rows| :: RowKey(rows[i]) != k
    ensures n.Some? ==> Kept(rows, k, n.value) && RowAt(MergeInto(map[], rows), k) == Some(rows[n.value])
  {
    if rows == [] {
      n := None;
    } else {
      var last := |rows| - 1;
      n := MergedIndex(rows[..last], k);
      assert forall i | 0 <= i < last :: rows[..last][i] == rows[i];
      if RowKey(rows[last]) != k {
        if n.Some? { KeptMore(rows, k, n.value); }
      } else if n.None? || (!Valid(rows[n.value]) && Valid(rows[last])) {
        NewlyKept(rows, k);
        n := Some(last);
      } else {
        KeptMore(rows, k, n.value);
      }
    }
  }

  lemma {:induction false} NewlyKept(rows: seq<Row>, k: string)
    requires rows != [] && RowKey(rows[|rows| - 1]) == k
    requires var init := rows[..|rows| - 1];
             || (forall i | 0 <= i < |init| :: RowKey(init[i]) != k)
             || (Valid(rows[|rows| - 1]) && exists n :: 0 <= n && Kept(init, k, n) && !Valid(init[n]))
    ensures Kept(rows, k, |rows| - 1)
  {
    var init := rows[..|rows| - 1];
    assert forall i | 0 <= i < |init| :: rows[i] == init[i];
  }

  /** The merged map holds exactly the keys of the rows, each with the row that has to be kept. */
  lemma {:induction false} MergedRowExact(rows: seq<Row>, k: string)
    ensures k in MergeInto(map[], rows) <==> exists i :: 0 <= i < |rows| && RowKey(rows[i]) == k
    ensures k in MergeInto(map[], rows) ==> exists n: nat :: Kept(rows, k, n) && MergeInto(map[], rows)[k] == rows[n]
  {
    var n := MergedIndex(rows, k);
    if n.Some? { assert RowKey(rows[n.value]) == k; }
  }

  lemma {:induction false} KeptMore(rows: seq<Row>, k: string, i: nat)
    requires rows != [] && Kept(rows[..|rows| - 1], k, i)
    requires RowKey(rows[|rows| - 1]) == k ==> Valid(rows[i]) || !Valid(rows[|rows| - 1])
    ensures Kept(rows, k, i)
  {
    var init := rows[..|rows| - 1];
    forall j | 0 <= j < |init| ensures rows[j] == init[j] {}
  }

  lemma {:induction false} ForKeyMembers(rows: seq<Row>, k: string)
    ensures forall row :: row in ForKey(rows, k) <==> row in rows && RowKey(row) == k
  {
    if rows != [] {
      ForKeyMembers(rows[..|rows| - 1], k);
      assert rows == rows[..|rows| - 1] + [rows[|rows| - 1]];
    }
  }

  lemma {:induction false} ForKeyConcat(a: seq<Row>, b: seq<Row>, k: string)
    ensures ForKey(a + b, k) == ForKey(a, k) + ForKey(b, k)
  {
    if b == [] {
      assert a + b == a;
    } else {
      assert (a + b)[..|a + b| - 1] == a + b[..|b| - 1];
      ForKeyConcat(a, b[..|b| - 1], k);
    }
  }

  // ---- One check per relation ----

  function CheckFor(r: Relation, best: Option<Row>): Check {
    if best.Some? then Check(r.address, r.providerAddress, best.value.reason, best.value.details, ParsedFrom(best.value.details))
    else Check(r.address, r.providerAddress, NotFound, "", NoResult)
  }

  function ByKey(rels: seq<Relation>, m: map<string, Row>): map<string, Check> {
    if rels == [] then map[]
    else
      var r := rels[|rels| - 1];
      ByKey(rels[..|rels| - 1], m)[RelationKey(r) := CheckFor(r, RowAt(m, RelationKey(r)))]
  }

  function CountValid(rels: seq<Relation>, m: map<string, Row>): nat {
    if rels == [] then 0
    else
      var r := rels[|rels| - 1];
      CountValid(rels[..|rels| - 1], m) + (if CheckFor(r, RowAt(m, RelationKey(r))).reason == ValidStorageProof then 1 else 0)
  }

  function UnresolvedCheck(r: Relation): Check {
    Check(r.address, r.providerAddress, IPNotFound, "storage endpoint not resolved for RunChecks", EndpointUnresolved)
  }

  function MissingCheck(r: Relation): Check {
    Check(r.address, r.providerAddress, NotFound, "agent did not return result for contract", NoResult)
  }

  function BagCheck(r: Relation, checked: set<string>, merged: map<string, Check>): Check {
    if RelationKey(r) !in checked then UnresolvedCheck(r)
    else if RelationKey(r) in merged then merged[RelationKey(r)]
    else MissingCheck(r)
  }

  function BagCheckResults(rels: seq<Relation>, checked: set<string>, merged: map<string, Check>): map<string, Check> {
    if rels == [] then map[]
    else
      var r := rels[|rels| - 1];
      BagCheckResults(rels[..|rels| - 1], checked, merged)[RelationKey(r) := BagCheck(r, checked, merged)]
  }

  /** The body of the row loop. */
  method Consider(merged: map<string, Row>, row: Row) returns (m: map<string, Row>)
    ensures m == MergeRow(merged, row)
  {
    m := merged;
    if RowKey(row) !in m { return m[RowKey(row) := row]; }
    if Valid(m[RowKey(row)]) { return; }
    if Valid(row) { m := m[RowKey(row) := row]; }
  }

  lemma {:induction false} MergeIntoSnoc(m: map<string, Row>, rows: seq<Row>, row: Row)
    ensures MergeInto(m, rows + [row]) == MergeRow(MergeInto(m, rows), row)
  {
    assert (rows + [row])[..|rows|] == rows;
  }

  method MergeResponseRows(merged: map<string, Row>, rows: seq<Option<Row>>) returns (m: map<string, Row>)
    ensures m == MergeInto(merged, Somes(rows))
  {
    m := merged;
    for i := 0 to |rows|
      invariant m == MergeInto(merged, Somes(rows[..i]))
    {
      assert rows[..i + 1][..i] == rows[..i];
      if rows[i].None? {
        assert Somes(rows[..i + 1]) == Somes(rows[..i]);
        continue;
      }
      assert Somes(rows[..i + 1]) == Somes(rows[..i]) + [rows[i].value];
      MergeIntoSnoc(merged, Somes(rows[..i]), rows[i].value);
      m := Consider(m, rows[i].value);
    }
    assert rows[..|rows|] == rows;
  }

  lemma {:induction false} MergeIntoConcat(m: map<string, Row>, a: seq<Row>, b: seq<Row>)
    ensures MergeInto(MergeInto(m, a), b) == MergeInto(m, a + b)
  {
    if b == [] {
      assert a + b == a;
    } else {
      assert (a + b)[..|a + b| - 1] == a + b[..|b| - 1];
      MergeIntoConcat(m, a, b[..|b| - 1]);
    }
  }

  method MergeAll(responses: seq<Response>) returns (merged: map<string, Row>)
    ensures merged == MergeInto(map[], AllRows(responses))
  {
    merged := map[];
    for i := 0 to |responses|
      invariant merged == MergeInto(map[], AllRows(responses[..i]))
    {
      assert responses[..i + 1][..i] == responses[..i];
      assert AllRows(responses[..i + 1]) == AllRows(responses[..i]) + RowsOf(responses[i]);
      MergeIntoConcat(map[], AllRows(responses[..i]), RowsOf(responses[i]));
      if responses[i].None? { continue; }
      merged := MergeResponseRows(merged, responses[i].value);
    }
    assert responses[..|responses|] == responses;
  }

  method MergeRunChecksResponses(rels: seq<Relation>, responses: seq<Response>) returns (byKey: map<string, Check>, valid: nat)
    ensures byKey == ByKey(rels, MergeInto(map[], AllRows(responses)))
    ensures valid == CountValid(rels, MergeInto(map[], AllRows(responses)))
  {
    var merged := MergeAll(responses);
    byKey, valid := map[], 0;
    for i := 0 to |rels|
      invariant byKey == ByKey(rels[..i], merged) && valid == CountValid(rels[..i], merged)
    {
      assert rels[..i + 1][..i] == rels[..i];
      var check := CheckFor(rels[i], RowAt(merged, RelationKey(rels[i])));
      if check.reason == ValidStorageProof { valid := valid + 1; }
      byKey := byKey[RelationKey(rels[i]) := check];
    }
    assert rels[..|rels|] == rels;
  }

  method BuildBagCheckResults(rels: seq<Relation>, checked: set<string>, merged: map<string, Check>) returns (out: map<string, Check>)
    ensures out == BagCheckResults(rels, checked, merged)
  {
    out := map[];
    for i := 0 to |rels|
      invariant out == BagCheckResults(rels[..i], checked, merged)
    {
      assert rels[..i + 1][..i] == rels[..i];
      var key := RelationKey(rels[i]);
      if key !in checked {
        out := out[key := UnresolvedCheck(rels[i])];
        continue;
      }
      if key in merged {
        out := out[key := merged[key]];
        continue;
      }
      out := out[key := MissingCheck(rels[i])];
    }
    assert rels[..|rels|] == rels;
  }

  // ---- The verdict of a relation ----

  /** What the pass reports for `r`, given all rows received. */
  function Verdict(r: Relation, checked: set<string>, rows: seq<Row>): Check {
    if RelationKey(r) in checked then CheckFor(r, Best(ForKey(rows, RelationKey(r)))) else UnresolvedCheck(r)
  }

  lemma {:induction false} ByKeyAt(rels: seq<Relation>, m: map<string, Row>, r: Relation)
    requires PipeFree(rels) && r in rels
    ensures RelationKey(r) in ByKey(rels, m) && ByKey(rels, m)[RelationKey(r)] == CheckFor(r, RowAt(m, RelationKey(r)))
  {
    var init, last := rels[..|rels| - 1], rels[|rels| - 1];
    assert rels == init + [last];
    if RelationKey(last) == RelationKey(r) {
      KeyInjective(last.providerAddress, last.address, r.providerAddress, r.address);
    } else {
      ByKeyAt(init, m, r);
    }
  }

  lemma {:induction false} BagCheckResultsAt(rels: seq<Relation>, checked: set<string>, merged: map<string, Check>, r: Relation)
    requires PipeFree(rels) && r in rels
    ensures RelationKey(r) in BagCheckResults(rels, checked, merged)
    ensures BagCheckResults(rels, checked, merged)[RelationKey(r)] == BagCheck(r, checked, merged)
  {
    var init, last := rels[..|rels| - 1], rels[|rels| - 1];
    assert rels == init + [last];
    if RelationKey(last) == RelationKey(r) {
      KeyInjective(last.providerAddress, last.address, r.providerAddress, r.address);
    } else {
      BagCheckResultsAt(init, checked, merged, r);
    }
  }

  lemma {:induction false} BagCheckResultsKeys(rels: seq<Relation>, checked: set<string>, merged: map<string, Check>)
    ensures BagCheckResults(rels, checked, merged).Keys == KeysOf(rels)
  {
    if rels != [] {
      BagCheckResultsKeys(rels[..|rels| - 1], checked, merged);
      assert rels == rels[..|rels| - 1] + [rels[|rels| - 1]];
    }
  }

  /**
   * The results map is total on the relations and holds the direct verdict; the branch for a
   * checked relation without a merged row is never taken, because the merge is total too.
   */
  lemma {:induction false} ResultsAreVerdicts(rels: seq<Relation>, checked: set<string>, rows: seq<Row>)
    requires PipeFree(rels)
    ensures var out := BagCheckResults(rels, checked, ByKey(rels, MergeInto(map[], rows)));
            && out.Keys == KeysOf(rels)
            && forall r | r in rels :: out[RelationKey(r)] == Verdict(r, checked, rows)
  {
    var merged := ByKey(rels, MergeInto(map[], rows));
    BagCheckResultsKeys(rels, checked, merged);
    forall r | r in rels ensures BagCheckResults(rels, checked, merged)[RelationKey(r)] == Verdict(r, checked, rows) {
      BagCheckResultsAt(rels, checked, merged, r);
      ByKeyAt(rels, MergeInto(map[], rows), r);
      MergeIsBest(rows, RelationKey(r));
    }
  }

  /** The verdict is valid exactly when the relation is checked and some row says so; otherwise its reason follows from its stage. */
  lemma {:induction false} VerdictExact(r: Relation, checked: set<string>, rows: seq<Row>)
    ensures var v := Verdict(r, checked, rows);
            && (v.reason == ValidStorageProof <==>
                  RelationKey(r) in checked && exists row :: row in rows && RowKey(row) == RelationKey(r) && row.reason == ValidStorageProof)
            && (v.stage == EndpointUnresolved <==> RelationKey(r) !in checked)
            && (v.stage == EndpointUnresolved ==> v.reason == IPNotFound)
            && (v.stage == NoResult ==> v.reason == NotFound)
            && v.contractAddress == r.address && v.providerAddress == r.providerAddress
  {
    var f := ForKey(rows, RelationKey(r));
    FirstValidExact(f);
    ForKeyMembers(rows, RelationKey(r));
    if f != [] { assert f[0] in f; }
  }
}
