/** Storage contracts collected from concurrent scans of the providers' wallets. */
module ContractCollection {
  import opened Arithmetic
  import opened Domain

  const REWARD_WITHDRAWAL: nat := 0xa91baf56

  datatype Tx = Tx(op: nat, from: string, lt: nat)
  datatype Wallet = Wallet(pubkey: string, address: string, lt: nat)

  /** What is known of one storage contract: who was paid by it, and when last. */
  datatype Entry = Entry(providers: set<string>, lastLT: nat)
  type Scan = map<string, Entry>

  // ---- One wallet ----

  predicate Relevant(tx: Option<Tx>) { tx.Some? && tx.value.op == REWARD_WITHDRAWAL }

  function ScanOf(txs: seq<Option<Tx>>, address: string): Scan {
    if txs == [] then map[]
    else
      var init, tx := ScanOf(txs[..|txs| - 1], address), txs[|txs| - 1];
      if Relevant(tx) then init[tx.value.from := Entry({address}, tx.value.lt)] else init
  }

  function Watermark(txs: seq<Option<Tx>>, lt: nat): nat {
    if txs == [] then lt
    else
      var init, tx := Watermark(txs[..|txs| - 1], lt), txs[|txs| - 1];
      if Relevant(tx) then Max(init, tx.value.lt) else init
  }

  predicate Concerns(tx: Option<Tx>, from: string) { Relevant(tx) && tx.value.from == from }

  /** The last relevant transaction of a contract. */
  function LastFrom(txs: seq<Option<Tx>>, from: string): (r: Option<nat>)
    ensures r.Some? ==> r.value < |txs| && Concerns(txs[r.value], from) && forall j | r.value < j < |txs| :: !Concerns(txs[j], from)
    ensures r.None? ==> forall j | 0 <= j < |txs| :: !Concerns(txs[j], from)
  {
    if txs == [] then None
    else if Concerns(txs[|txs| - 1], from) then Some(|txs| - 1)
    else LastFrom(txs[..|txs| - 1], from)
  }

  /** A contract is found exactly when a relevant transaction names it, and its last one decides the entry. */
  lemma {:induction false} ScanKeepsLast(txs: seq<Option<Tx>>, address: string, from: string)
    ensures from in ScanOf(txs, address) <==> LastFrom(txs, from).Some?
    ensures from in ScanOf(txs, address) ==> ScanOf(txs, address)[from] == Entry({address}, txs[LastFrom(txs, from).value].value.lt)
  {
    if txs != [] { ScanKeepsLast(txs[..|txs| - 1], address, from); }
  }

  /** The watermark is the largest of the stored one and the relevant transactions: it never goes back. */
  lemma {:induction false} WatermarkIsMax(txs: seq<Option<Tx>>, lt: nat)
    ensures Watermark(txs, lt) >= lt
    ensures forall i | 0 <= i < |txs| && Relevant(txs[i]) :: txs[i].value.lt <= Watermark(txs, lt)
    ensures Watermark(txs, lt) == lt || exists i :: 0 <= i < |txs| && Relevant(txs[i]) && txs[i].value.lt == Watermark(txs, lt)
  {
    if txs != [] {
      var n := |txs| - 1;
      WatermarkIsMax(txs[..n], lt);
      if Watermark(txs, lt) != lt && Watermark(txs, lt) == Watermark(txs[..n], lt) {
        var i :| 0 <= i < n && Relevant(txs[..n][i]) && txs[..n][i].value.lt == Watermark(txs[..n], lt);
        assert Relevant(txs[i]);
      }
    }
  }

  /** No contract is recorded later than the watermark of the scan that found it. */
  lemma {:induction false} ScanBelowWatermark(txs: seq<Option<Tx>>, w: Wallet, from: string)
    requires from in ScanOf(txs, w.address)
    ensures ScanOf(txs, w.address)[from].lastLT <= Watermark(txs, w.lt)
  {
    ScanKeepsLast(txs, w.address, from);
    WatermarkIsMax(txs, w.lt);
    assert Relevant(txs[LastFrom(txs, from).value]);
  }

  method ScanProviderTransactions(txs: seq<Option<Tx>>, w: Wallet) returns (contracts: Scan, lastLT: nat)
    ensures contracts == ScanOf(txs, w.address) && lastLT == Watermark(txs, w.lt)
    ensures lastLT >= w.lt
  {
    contracts, lastLT := map[], w.lt;
    for k := 0 to |txs|
      invariant contracts == ScanOf(txs[..k], w.address) && lastLT == Watermark(txs[..k], w.lt) >= w.lt
    {
      assert txs[..k + 1][..k] == txs[..k];
      if txs[k].Some? && txs[k].value.op == REWARD_WITHDRAWAL {
        var tx := txs[k].value;
        if tx.lt > lastLT { lastLT := tx.lt; }
        contracts := contracts[tx.from := Entry({w.address}, tx.lt)];
      }
    }
    assert txs[..|txs|] == txs;
  }

  // ---- The merge ----

  function Join(a: Entry, b: Entry): Entry { Entry(a.providers + b.providers, Max(a.lastLT, b.lastLT)) }

  function MergeScan(acc: Scan, s: Scan): Scan {
    map k | k in acc.Keys + s.Keys ::
      if k in acc && k in s then Join(acc[k], s[k]) else if k in acc then acc[k] else s[k]
  }

  function MergeAll(scans: seq<Scan>): Scan {
    if scans == [] then map[] else MergeScan(MergeAll(scans[..|scans| - 1]), scans[|scans| - 1])
  }

  /** `e` is the entry of contract `k` for these scans: union of providers, largest LastLT. */
  ghost predicate IsEntry(scans: seq<Scan>, k: string, e: Entry) {
    && (forall p :: p in e.providers <==> exists i :: 0 <= i < |scans| && k in scans[i] && p in scans[i][k].providers)
    && (forall i | 0 <= i < |scans| && k in scans[i] :: scans[i][k].lastLT <= e.lastLT)
    && (exists i :: 0 <= i < |scans| && k in scans[i] && scans[i][k].lastLT == e.lastLT)
  }

  ghost predicate Seen(scans: seq<Scan>, k: string) { exists i :: 0 <= i < |scans| && k in scans[i] }

  lemma {:induction false} EntrySnoc(init: seq<Scan>, s: Scan, k: string, e: Entry)
    requires IsEntry(init, k, e) && k !in s
    ensures IsEntry(init + [s], k, e)
  {
    var scans := init + [s];
    var m :| 0 <= m < |init| && k in init[m] && init[m][k].lastLT == e.lastLT;
    assert scans[m] == init[m];
    forall p ensures p in e.providers <==> exists i :: 0 <= i < |scans| && k in scans[i] && p in scans[i][k].providers {
      if p in e.providers {
        var i :| 0 <= i < |init| && k in init[i] && p in init[i][k].providers;
        assert scans[i] == init[i];
      }
    }
  }

  lemma {:induction false} EntryFirst(init: seq<Scan>, s: Scan, k: string)
    requires !Seen(init, k) && k in s
    ensures IsEntry(init + [s], k, s[k])
  {
    var scans := init + [s];
    assert scans[|init|] == s;
    forall i | 0 <= i < |init| ensures k !in scans[i] { assert scans[i] == init[i]; }
  }

  lemma {:induction false} EntryJoin(init: seq<Scan>, s: Scan, k: string, e: Entry)
    requires IsEntry(init, k, e) && k in s
    ensures IsEntry(init + [s], k, Join(e, s[k]))
  {
    var scans, j := init + [s], Join(e, s[k]);
    assert scans[|init|] == s;
    var m :| 0 <= m < |init| && k in init[m] && init[m][k].lastLT == e.lastLT;
    assert scans[m] == init[m];
    forall p ensures p in j.providers <==> exists i :: 0 <= i < |scans| && k in scans[i] && p in scans[i][k].providers {
      if p in e.providers {
        var i :| 0 <= i < |init| && k in init[i] && p in init[i][k].providers;
        assert scans[i] == init[i];
      }
    }
    assert exists i :: 0 <= i < |scans| && k in scans[i] && scans[i][k].lastLT == j.lastLT by {
      assert scans[if e.lastLT < s[k].lastLT then |init| else m][k].lastLT == j.lastLT;
    }
  }

  /** The merged map: keys and provider sets are unions, LastLT is the maximum over the scans. */
  lemma {:induction false} MergeIsUnion(scans: seq<Scan>, k: string)
    ensures k in MergeAll(scans) <==> Seen(scans, k)
    ensures k in MergeAll(scans) ==> IsEntry(scans, k, MergeAll(scans)[k])
  {
    if scans != [] {
      var n := |scans| - 1;
      var init, s := scans[..n], scans[n];
      MergeIsUnion(init, k);
      assert scans == init + [s];
      assert Seen(init, k) ==> Seen(scans, k) by {
        if Seen(init, k) { var i :| 0 <= i < n && k in init[i]; assert k in scans[i]; }
      }
      if k in MergeAll(init) {
        if k in s { EntryJoin(init, s, k, MergeAll(init)[k]); } else { EntrySnoc(init, s, k, MergeAll(init)[k]); }
      } else if k in s {
        EntryFirst(init, s, k);
      }
    }
  }

  ghost predicate SameScans(a: seq<Scan>, b: seq<Scan>) {
    && (forall i | 0 <= i < |a| :: a[i] in b)
    && (forall i | 0 <= i < |b| :: b[i] in a)
  }

  lemma {:induction false} SeenInBoth(a: seq<Scan>, b: seq<Scan>, k: string)
    requires SameScans(a, b) && Seen(a, k)
    ensures Seen(b, k)
  {
    var i :| 0 <= i < |a| && k in a[i];
    assert a[i] in b;
  }

  lemma {:induction false} EntryIsUnique(a: seq<Scan>, b: seq<Scan>, k: string, x: Entry, y: Entry)
    requires SameScans(a, b) && IsEntry(a, k, x) && IsEntry(b, k, y)
    ensures x == y
  {
    EntryBelow(a, b, k, x, y);
    EntryBelow(b, a, k, y, x);
    assert x.providers == y.providers;
  }

  lemma {:induction false} EntryBelow(a: seq<Scan>, b: seq<Scan>, k: string, x: Entry, y: Entry)
    requires SameScans(a, b) && IsEntry(a, k, x) && IsEntry(b, k, y)
    ensures x.providers <= y.providers && x.lastLT <= y.lastLT
  {
    forall p | p in x.providers ensures p in y.providers {
      var i :| 0 <= i < |a| && k in a[i] && p in a[i][k].providers;
      assert a[i] in b;
    }
    var m :| 0 <= m < |a| && k in a[m] && a[m][k].lastLT == x.lastLT;
    assert a[m] in b;
  }

  /** The merge depends on which scans there were, not on the order in which they finished. */
  lemma {:induction false} MergeIgnoresOrder(a: seq<Scan>, b: seq<Scan>)
    requires SameScans(a, b)
    ensures MergeAll(a) == MergeAll(b)
  {
    var x, y := MergeAll(a), MergeAll(b);
    forall k ensures k in x <==> k in y {
      MergeIsUnion(a, k);
      MergeIsUnion(b, k);
      if k in x { SeenInBoth(a, b, k); }
      if k in y { SeenInBoth(b, a, k); }
    }
    forall k | k in x && k in y ensures x[k] == y[k] {
      MergeIsUnion(a, k);
      MergeIsUnion(b, k);
      EntryIsUnique(a, b, k, x[k], y[k]);
    }
  }

  // ---- The collector ----

  function JoinAt(acc: Scan, k: string, e: Entry): Entry { if k in acc then Join(acc[k], e) else e }

  /** All keys of `s` outside `todo` have been merged into `acc`. */
  ghost predicate MergedBut(out: Scan, acc: Scan, s: Scan, todo: set<string>) {
    && out.Keys == acc.Keys + (s.Keys - todo)
    && forall k | k in out :: out[k] == if k in s && k !in todo then JoinAt(acc, k, s[k]) else acc[k]
  }

  lemma {:induction false} MergedButNext(out: Scan, acc: Scan, s: Scan, todo: set<string>, src: string)
    requires MergedBut(out, acc, s, todo) && src in todo && todo <= s.Keys
    ensures MergedBut(out[src := JoinAt(out, src, s[src])], acc, s, todo - {src})
  {
    assert s.Keys - (todo - {src}) == (s.Keys - todo) + {src};
    assert JoinAt(out, src, s[src]) == JoinAt(acc, src, s[src]);
  }

  lemma {:induction false} MergedButNothing(out: Scan, acc: Scan, s: Scan)
    requires MergedBut(out, acc, s, {})
    ensures out == MergeScan(acc, s)
  {
    assert s.Keys - {} == s.Keys;
  }

  /** The critical section of one finished scan, in any iteration order of its map. */
  method MergeOne(acc: Scan, s: Scan) returns (out: Scan)
    ensures out == MergeScan(acc, s)
  {
    out := acc;
    var todo := s.Keys;
    assert s.Keys - todo == {};
    while todo != {}
      invariant todo <= s.Keys && MergedBut(out, acc, s, todo)
      decreases |todo|
    {
      var src :| src in todo;
      var tx := s[src];
      MergedButNext(out, acc, s, todo, src);
      todo := todo - {src};
      if src in out {
        var v := out[src];
        out := out[src := Entry(v.providers + tx.providers, if v.lastLT < tx.lastLT then tx.lastLT else v.lastLT)];
      } else {
        out := out[src := tx];
      }
    }
    MergedButNothing(out, acc, s);
  }

  datatype Update = Update(pubkey: string, lt: nat)

  /** One wallet and what fetching its transactions gave; None is a failed call. */
  datatype Fetch = Fetch(wallet: Wallet, txs: Option<seq<Option<Tx>>>)

  function ScanResult(f: Fetch): Scan { if f.txs.None? then map[] else ScanOf(f.txs.value, f.wallet.address) }

  function UpdateOf(f: Fetch): seq<Update> {
    if f.txs.None? || Watermark(f.txs.value, f.wallet.lt) == f.wallet.lt then []
    else [Update(f.wallet.pubkey, Watermark(f.txs.value, f.wallet.lt))]
  }

  function Results(fs: seq<Fetch>): (r: seq<Scan>)
    ensures |r| == |fs| && forall i | 0 <= i < |fs| :: r[i] == ScanResult(fs[i])
  {
    if fs == [] then [] else Results(fs[..|fs| - 1]) + [ScanResult(fs[|fs| - 1])]
  }

  function Updates(fs: seq<Fetch>): seq<Update> {
    if fs == [] then [] else Updates(fs[..|fs| - 1]) + UpdateOf(fs[|fs| - 1])
  }

  lemma {:induction false} MergeNone(acc: Scan)
    ensures MergeScan(acc, map[]) == acc
  {
  }

  /** What one goroutine adds under the two locks. */
  method Absorb(f: Fetch, contracts: Scan, updates: seq<Update>) returns (contracts': Scan, updates': seq<Update>)
    ensures contracts' == MergeScan(contracts, ScanResult(f)) && updates' == updates + UpdateOf(f)
  {
    contracts', updates' := contracts, updates;
    MergeNone(contracts);
    if f.txs.None? { return; }
    var sc, lastLT := ScanProviderTransactions(f.txs.value, f.wallet);
    if |sc| > 0 {
      contracts' := MergeOne(contracts, sc);
    } else {
      assert sc == map[];
    }
    if lastLT != f.wallet.lt { updates' := updates + [Update(f.wallet.pubkey, lastLT)]; }
  }

  /** The goroutines' critical sections in the order `fs` in which they got the locks. */
  method CollectScans(fs: seq<Fetch>) returns (contracts: Scan, updates: seq<Update>)
    ensures contracts == MergeAll(Results(fs)) && updates == Updates(fs)
  {
    contracts, updates := map[], [];
    for k := 0 to |fs|
      invariant contracts == MergeAll(Results(fs[..k])) && updates == Updates(fs[..k])
    {
      MergeNext(contracts, fs, k);
      contracts, updates := Absorb(fs[k], contracts, updates);
      assert fs[..k + 1][..k] == fs[..k];
    }
    assert fs[..|fs|] == fs;
  }

  lemma {:induction false} MergeNext(acc: Scan, fs: seq<Fetch>, k: nat)
    requires k < |fs| && acc == MergeAll(Results(fs[..k]))
    ensures MergeAll(Results(fs[..k + 1])) == MergeScan(acc, ScanResult(fs[k]))
  {
    assert fs[..k + 1][..k] == fs[..k];
    assert Results(fs[..k + 1])[..k] == Results(fs[..k]);
  }

  /** Each written watermark is above the stored one of its wallet. */
  lemma {:induction false} UpdatesAdvance(fs: seq<Fetch>, u: Update)
    requires u in Updates(fs)
    ensures exists i :: 0 <= i < |fs| && u.pubkey == fs[i].wallet.pubkey && u.lt > fs[i].wallet.lt
  {
    var n := |fs| - 1;
    if u in UpdateOf(fs[n]) {
      WatermarkIsMax(fs[n].txs.value, fs[n].wallet.lt);
    } else {
      UpdatesAdvance(fs[..n], u);
      var i :| 0 <= i < n && u.pubkey == fs[..n][i].wallet.pubkey && u.lt > fs[..n][i].wallet.lt;
      assert fs[i] == fs[..n][i];
    }
  }

  predicate Moves(f: Fetch, u: Update) {
    f.txs.Some? && u.pubkey == f.wallet.pubkey && u.lt == Watermark(f.txs.value, f.wallet.lt) && u.lt > f.wallet.lt
  }

  ghost predicate SomeMoves(fs: seq<Fetch>, u: Update) { exists i :: 0 <= i < |fs| && Moves(fs[i], u) }

  lemma {:induction false} SomeMovesSnoc(fs: seq<Fetch>, u: Update)
    requires fs != []
    ensures SomeMoves(fs, u) <==> SomeMoves(fs[..|fs| - 1], u) || Moves(fs[|fs| - 1], u)
  {
    var init := fs[..|fs| - 1];
    if SomeMoves(init, u) {
      var i :| 0 <= i < |init| && Moves(init[i], u);
      assert Moves(fs[i], u);
    }
    if SomeMoves(fs, u) {
      var i :| 0 <= i < |fs| && Moves(fs[i], u);
      assert i < |init| ==> Moves(init[i], u);
    }
  }

  lemma {:induction false} UpdateOfExact(f: Fetch, u: Update)
    ensures u in UpdateOf(f) <==> Moves(f, u)
  {
    if f.txs.Some? { WatermarkIsMax(f.txs.value, f.wallet.lt); }
  }

  /** A watermark is written exactly for the wallets whose scan succeeded and found something newer. */
  lemma {:induction false} UpdatesExact(fs: seq<Fetch>, u: Update)
    ensures u in Updates(fs) <==> SomeMoves(fs, u)
  {
    if fs != [] {
      UpdatesExact(fs[..|fs| - 1], u);
      UpdateOfExact(fs[|fs| - 1], u);
      SomeMovesSnoc(fs, u);
    }
  }

  ghost function Writes(u: Update): Fetch -> nat { (f: Fetch) => multiset(UpdateOf(f))[u] }

  lemma {:induction false} UpdatesCount(fs: seq<Fetch>, u: Update)
    ensures multiset(Updates(fs))[u] == Sum(Writes(u), fs)
  {
    if fs != [] { UpdatesCount(fs[..|fs| - 1], u); }
  }

  /** Whatever order the scans finish in, the collected contracts are the same, and the same watermarks are written as often. */
  lemma {:induction false} CollectionIgnoresOrder(fs: seq<Fetch>, gs: seq<Fetch>)
    requires multiset(fs) == multiset(gs)
    ensures MergeAll(Results(fs)) == MergeAll(Results(gs))
    ensures multiset(Updates(fs)) == multiset(Updates(gs))
  {
    SameMembers(fs, gs);
    SameMembers(gs, fs);
    MergeIgnoresOrder(Results(fs), Results(gs));
    forall u ensures multiset(Updates(fs))[u] == multiset(Updates(gs))[u] {
      UpdatesCount(fs, u);
      UpdatesCount(gs, u);
      SumPermutation(Writes(u), fs, gs);
    }
  }

  lemma {:induction false} SameMembers(fs: seq<Fetch>, gs: seq<Fetch>)
    requires multiset(fs) == multiset(gs)
    ensures forall i | 0 <= i < |fs| :: fs[i] in gs && Results(fs)[i] in Results(gs)
  {
    forall i | 0 <= i < |fs| ensures fs[i] in gs && Results(fs)[i] in Results(gs) {
      assert fs[i] in multiset(gs);
      var j :| 0 <= j < |gs| && gs[j] == fs[i];
      assert Results(gs)[j] == Results(fs)[i];
    }
  }
}
