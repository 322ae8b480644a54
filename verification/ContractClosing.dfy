/** Which storage contracts a proof cycle closes, and which it goes on to check. */
module ContractClosing {
  import opened Domain

  const SECONDS_PER_DAY: nat := 86400
  const BYTES_PER_MB: nat := 1048576
  /** Rate units: price per megabyte and day. */
  const UNIT: nat := SECONDS_PER_DAY * BYTES_PER_MB
  /** 0.05 TON in nano. */
  const STORAGE_FEE: nat := 50_000_000
  const GRACE: nat := 3600

  /** A provider as the storage contract lists it. Times are Unix seconds; `checkedAt` is the clock when it is tested. */
  datatype Listed = Listed(key: string, ratePerMBDay: nat, maxSpan: nat, lastProof: int, checkedAt: int)

  datatype ContractReport = ContractReport(address: string, balance: nat, liteServerError: bool, providers: seq<Listed>)

  // ---- Low balance ----

  function Bounty(size: nat, p: Listed): nat { p.ratePerMBDay * size * p.maxSpan / UNIT + STORAGE_FEE }

  predicate RemovedByLowBalance(size: nat, p: Listed, balance: nat) {
    balance < Bounty(size, p) && p.lastProof > 0 && p.checkedAt > p.lastProof + p.maxSpan + GRACE
  }

  /** The balance test without the division: one more nano than the fee leaves would not cover the span. */
  lemma {:induction false} BalanceCovers(size: nat, p: Listed, balance: nat)
    ensures balance >= Bounty(size, p) <==>
              balance >= STORAGE_FEE && p.ratePerMBDay * size * p.maxSpan < (balance - STORAGE_FEE + 1) * UNIT
  {
  }

  // ---- Sizes and report entries: the last one for an address wins ----

  function LastSize(rs: seq<Relation>, address: string): nat {
    if rs == [] then 0
    else if rs[|rs| - 1].address == address then rs[|rs| - 1].size else LastSize(rs[..|rs| - 1], address)
  }

  /** The size of a contract is that of its last relation. */
  lemma {:induction false} LastSizeIsLast(rs: seq<Relation>, address: string, i: nat)
    requires i < |rs| && rs[i].address == address && forall j | i < j < |rs| :: rs[j].address != address
    ensures LastSize(rs, address) == rs[i].size
  {
    var n := |rs| - 1;
    if i < n { LastSizeIsLast(rs[..n], address, i); }
  }

  function ReportFor(report: seq<ContractReport>, address: string): Option<ContractReport> {
    if report == [] then None
    else if report[|report| - 1].address == address then Some(report[|report| - 1])
    else ReportFor(report[..|report| - 1], address)
  }

  lemma {:induction false} ReportForIsLast(report: seq<ContractReport>, address: string)
    ensures ReportFor(report, address).None? <==> forall i | 0 <= i < |report| :: report[i].address != address
    ensures ReportFor(report, address).Some? ==>
              exists i :: 0 <= i < |report| && report[i] == ReportFor(report, address).value && report[i].address == address
                          && forall j | i < j < |report| :: report[j].address != address
  {
    if report != [] {
      var n := |report| - 1;
      ReportForIsLast(report[..n], address);
      if report[n].address != address && ReportFor(report[..n], address).Some? {
        var i :| 0 <= i < n && report[..n][i] == ReportFor(report[..n], address).value && report[..n][i].address == address
                 && forall j | i < j < n :: report[..n][j].address != address;
        assert report[i] == ReportFor(report, address).value;
      }
    }
  }

  /** What one decision depends on. */
  datatype Ledger = Ledger(relations: seq<Relation>, report: seq<ContractReport>)

  ghost predicate Serves(l: Ledger, c: ContractReport, key: string) {
    exists i :: 0 <= i < |c.providers| && c.providers[i].key == key
                && !RemovedByLowBalance(LastSize(l.relations, c.address), c.providers[i], c.balance)
  }

  /**
   * A relation is closed when its contract is missing from the report, or the report is genuine
   * and lists its provider at most as removed for low balance.
   */
  ghost predicate IsClosed(l: Ledger, r: Relation) {
    var found := ReportFor(l.report, r.address);
    found.None? || (!found.value.liteServerError && !Serves(l, found.value, r.pubkey))
  }

  ghost function Part(l: Ledger, rs: seq<Relation>, closed: bool): seq<Relation> {
    if rs == [] then []
    else Part(l, rs[..|rs| - 1], closed) + (if IsClosed(l, rs[|rs| - 1]) == closed then [rs[|rs| - 1]] else [])
  }

  // ---- The partition ----

  ghost function Positions(l: Ledger, rs: seq<Relation>, closed: bool): seq<nat> {
    if rs == [] then []
    else Positions(l, rs[..|rs| - 1], closed) + (if IsClosed(l, rs[|rs| - 1]) == closed then [|rs| - 1] else [])
  }

  lemma {:induction false} PartEmbeds(l: Ledger, rs: seq<Relation>, closed: bool)
    ensures Embeds(Positions(l, rs, closed), Part(l, rs, closed), rs)
  {
    if rs != [] {
      var init, last := rs[..|rs| - 1], rs[|rs| - 1];
      PartEmbeds(l, init, closed);
      assert rs == init + [last];
      if IsClosed(l, last) == closed {
        EmbedsKeep(Positions(l, init, closed), Part(l, init, closed), init, last);
      } else {
        EmbedsSkip(Positions(l, init, closed), Part(l, init, closed), init, last);
        assert Part(l, rs, closed) == Part(l, init, closed) && Positions(l, rs, closed) == Positions(l, init, closed);
      }
    }
  }

  lemma {:induction false} PositionsExact(l: Ledger, rs: seq<Relation>, closed: bool, i: nat)
    requires i < |rs|
    ensures i in Positions(l, rs, closed) <==> IsClosed(l, rs[i]) == closed
  {
    var n := |rs| - 1;
    if i < n {
      PositionsExact(l, rs[..n], closed, i);
    } else {
      PositionsBelow(l, rs[..n], closed);
    }
  }

  lemma {:induction false} PositionsBelow(l: Ledger, rs: seq<Relation>, closed: bool)
    ensures forall p | p in Positions(l, rs, closed) :: p < |rs|
  {
    PartEmbeds(l, rs, closed);
  }

  /** Active and closed relations stand in input order, and each position is in exactly one list. */
  lemma {:induction false} OrderPreservingPartition(l: Ledger, rs: seq<Relation>, closed: bool)
    ensures Embeds(Positions(l, rs, closed), Part(l, rs, closed), rs)
    ensures forall i | 0 <= i < |rs| :: i in Positions(l, rs, closed) <==> IsClosed(l, rs[i]) == closed
    ensures forall i | i in Positions(l, rs, closed) :: i < |rs|
  {
    PartEmbeds(l, rs, closed);
    PositionsBelow(l, rs, closed);
    forall i | 0 <= i < |rs| ensures i in Positions(l, rs, closed) <==> IsClosed(l, rs[i]) == closed { PositionsExact(l, rs, closed, i); }
  }

  // ---- Balance and clock ----

  /** The same contract with a balance at least as high and every provider tested no later. */
  ghost predicate Kinder(x: ContractReport, y: ContractReport) {
    && y.balance >= x.balance && |y.providers| == |x.providers|
    && y == x.(balance := y.balance, providers := y.providers)
    && forall i | 0 <= i < |x.providers| ::
         y.providers[i].checkedAt <= x.providers[i].checkedAt && y.providers[i] == x.providers[i].(checkedAt := y.providers[i].checkedAt)
  }

  ghost predicate KinderReport(a: seq<ContractReport>, b: seq<ContractReport>) {
    |a| == |b| && forall i | 0 <= i < |a| :: Kinder(a[i], b[i])
  }

  lemma {:induction false} KinderEntry(a: seq<ContractReport>, b: seq<ContractReport>, address: string)
    requires KinderReport(a, b)
    ensures ReportFor(a, address).Some? == ReportFor(b, address).Some?
    ensures ReportFor(a, address).Some? ==> Kinder(ReportFor(a, address).value, ReportFor(b, address).value)
  {
    if a != [] { KinderEntry(a[..|a| - 1], b[..|b| - 1], address); }
  }

  lemma {:induction false} KinderServes(a: Ledger, b: Ledger, x: ContractReport, y: ContractReport, key: string)
    requires a.relations == b.relations && Kinder(x, y) && Serves(a, x, key)
    ensures Serves(b, y, key)
  {
    var i :| 0 <= i < |x.providers| && x.providers[i].key == key
             && !RemovedByLowBalance(LastSize(a.relations, x.address), x.providers[i], x.balance);
    assert y.providers[i].key == key && Bounty(LastSize(a.relations, x.address), y.providers[i]) == Bounty(LastSize(a.relations, x.address), x.providers[i]);
  }

  /** Raising balances or testing earlier never closes a relation. */
  lemma {:induction false} ClosingMonotone(a: Ledger, b: Ledger, r: Relation)
    requires a.relations == b.relations && KinderReport(a.report, b.report)
    ensures IsClosed(b, r) ==> IsClosed(a, r)
  {
    KinderEntry(a.report, b.report, r.address);
    var x, y := ReportFor(a.report, r.address), ReportFor(b.report, r.address);
    if x.Some? && Serves(a, x.value, r.pubkey) { KinderServes(a, b, x.value, y.value, r.pubkey); }
  }

  /** So relations only move from closed to active when a balance rises, and only back when the clock advances. */
  lemma {:induction false} ActiveGrows(a: Ledger, b: Ledger, rs: seq<Relation>)
    requires a.relations == b.relations && KinderReport(a.report, b.report)
    ensures forall i | i in Positions(a, rs, false) :: i in Positions(b, rs, false)
    ensures forall i | i in Positions(b, rs, true) :: i in Positions(a, rs, true)
  {
    OrderPreservingPartition(a, rs, false);
    OrderPreservingPartition(b, rs, false);
    OrderPreservingPartition(a, rs, true);
    OrderPreservingPartition(b, rs, true);
    forall i | 0 <= i < |rs| ensures IsClosed(b, rs[i]) ==> IsClosed(a, rs[i]) { ClosingMonotone(a, b, rs[i]); }
  }

  /** A provider that has not proved anything yet is never closed for its balance. */
  lemma {:induction false} FreshIsKept(l: Ledger, r: Relation, c: ContractReport, i: nat)
    requires ReportFor(l.report, r.address) == Some(c)
    requires i < |c.providers| && c.providers[i].key == r.pubkey && c.providers[i].lastProof <= 0
    ensures !IsClosed(l, r)
  {
    assert Serves(l, c, r.pubkey);
  }

  /** A listing that no longer serves: proved before, overdue, and not covered by the balance. */
  ghost predicate Lapsed(size: nat, p: Listed, balance: nat) {
    && p.lastProof > 0 && p.checkedAt > p.lastProof + p.maxSpan + 3600
    && (balance < 50_000_000 || p.ratePerMBDay * size * p.maxSpan >= (balance - 50_000_000 + 1) * (24 * 60 * 60 * 1024 * 1024))
  }

  lemma {:induction false} RemovedIsLapsed(size: nat, p: Listed, balance: nat)
    ensures RemovedByLowBalance(size, p, balance) <==> Lapsed(size, p, balance)
  {
    BalanceCovers(size, p, balance);
  }

  /** The closing rule spelled out: no report, or a genuine report in which every listing of the provider has lapsed. */
  lemma {:induction false} ClosedExactly(l: Ledger, r: Relation)
    ensures IsClosed(l, r) <==>
              var found := ReportFor(l.report, r.address);
              || found.None?
              || (!found.value.liteServerError
                  && forall i | 0 <= i < |found.value.providers| && found.value.providers[i].key == r.pubkey ::
                       Lapsed(LastSize(l.relations, found.value.address), found.value.providers[i], found.value.balance))
  {
    var found := ReportFor(l.report, r.address);
    if found.Some? {
      forall i | 0 <= i < |found.value.providers|
        ensures RemovedByLowBalance(LastSize(l.relations, found.value.address), found.value.providers[i], found.value.balance)
                <==> Lapsed(LastSize(l.relations, found.value.address), found.value.providers[i], found.value.balance)
      {
        RemovedIsLapsed(LastSize(l.relations, found.value.address), found.value.providers[i], found.value.balance);
      }
    }
  }

  // ---- The worker ----

  datatype Info = Info(providers: set<string>, skip: bool)

  method SizesByAddress(rs: seq<Relation>) returns (sizes: map<string, nat>)
    ensures forall a :: (if a in sizes then sizes[a] else 0) == LastSize(rs, a)
    ensures forall a :: a in sizes <==> exists i :: 0 <= i < |rs| && rs[i].address == a
  {
    sizes := map[];
    for k := 0 to |rs|
      invariant forall a :: (if a in sizes then sizes[a] else 0) == LastSize(rs[..k], a)
      invariant forall a :: a in sizes <==> exists i :: 0 <= i < k && rs[i].address == a
    {
      assert rs[..k + 1][..k] == rs[..k];
      sizes := sizes[rs[k].address := rs[k].size];
    }
    assert rs[..|rs|] == rs;
  }

  /** Keys of the listed providers that are not removed. */
  method ServingProviders(c: ContractReport, size: nat) returns (keys: set<string>)
    ensures forall k :: k in keys <==>
              exists i :: 0 <= i < |c.providers| && c.providers[i].key == k && !RemovedByLowBalance(size, c.providers[i], c.balance)
  {
    keys := {};
    for n := 0 to |c.providers|
      invariant forall k :: k in keys <==>
                  exists i :: 0 <= i < n && c.providers[i].key == k && !RemovedByLowBalance(size, c.providers[i], c.balance)
    {
      var p := c.providers[n];
      if !RemovedByLowBalance(size, p, c.balance) { keys := keys + {p.key}; }
    }
  }

  /** `info` holds, per reported address, the last entry's serving providers and error flag. */
  ghost predicate Describes(info: map<string, Info>, l: Ledger, report: seq<ContractReport>) {
    && (forall a :: a in info <==> ReportFor(report, a).Some?)
    && (forall a, k | a in info :: k in info[a].providers <==> Serves(l, ReportFor(report, a).value, k))
    && (forall a | a in info :: info[a].skip == ReportFor(report, a).value.liteServerError)
  }

  lemma {:induction false} DescribesNext(info: map<string, Info>, l: Ledger, report: seq<ContractReport>, k: nat, keys: set<string>)
    requires k < |report| && Describes(info, l, report[..k])
    requires forall p :: p in keys <==> Serves(l, report[k], p)
    ensures Describes(info[report[k].address := Info(keys, report[k].liteServerError)], l, report[..k + 1])
  {
    assert report[..k + 1][..k] == report[..k];
    forall a ensures ReportFor(report[..k + 1], a) == if a == report[k].address then Some(report[k]) else ReportFor(report[..k], a) {}
  }

  method ActiveRelations(l: Ledger, sizes: map<string, nat>) returns (info: map<string, Info>)
    requires forall a :: (if a in sizes then sizes[a] else 0) == LastSize(l.relations, a)
    ensures Describes(info, l, l.report)
  {
    info := map[];
    for k := 0 to |l.report|
      invariant Describes(info, l, l.report[..k])
    {
      var c := l.report[k];
      var size := if c.address in sizes then sizes[c.address] else 0;
      var keys := ServingProviders(c, size);
      assert size == LastSize(l.relations, c.address);
      DescribesNext(info, l, l.report, k, keys);
      info := info[c.address := Info(keys, c.liteServerError)];
    }
    assert l.report[..|l.report|] == l.report;
  }

  method Classify(l: Ledger) returns (active: seq<Relation>, closed: seq<Relation>)
    ensures active == Part(l, l.relations, false) && closed == Part(l, l.relations, true)
  {
    var sizes := SizesByAddress(l.relations);
    var info := ActiveRelations(l, sizes);
    var rs := l.relations;
    active, closed := [], [];
    for k := 0 to |rs|
      invariant active == Part(l, rs[..k], false) && closed == Part(l, rs[..k], true)
    {
      assert rs[..k + 1][..k] == rs[..k];
      var r := rs[k];
      if r.address in info {
        if info[r.address].skip || r.pubkey in info[r.address].providers {
          active := active + [r];
        } else {
          closed := closed + [r];
        }
      } else {
        closed := closed + [r];
      }
    }
    assert rs[..|rs|] == rs;
  }

  /** `rejected` is what the repository was asked to close; nothing is asked when there is nothing to do or no report. */
  datatype Outcome = Failed(rejected: Option<seq<Relation>>) | Done(active: seq<Relation>, rejected: Option<seq<Relation>>)

  method UpdateRejectedContracts(rs: seq<Relation>, report: Option<seq<ContractReport>>, stored: bool) returns (o: Outcome)
    ensures rs == [] ==> o == Done([], None)
    ensures rs != [] && report.None? ==> o == Failed(None)
    ensures rs != [] && report.Some? ==>
              var l := Ledger(rs, report.value);
              o.rejected == Some(Part(l, rs, true)) && o.Done? == stored && (stored ==> o.active == Part(l, rs, false))
  {
    if rs == [] { return Done([], None); }
    if report.None? { return Failed(None); }
    var active, closed := Classify(Ledger(rs, report.value));
    return if stored then Done(active, Some(closed)) else Failed(Some(closed));
  }
}
