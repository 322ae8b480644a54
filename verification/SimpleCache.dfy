/** The coordinator's TTL cache, refined against a map that never drops expired entries. */
module SimpleCache {
  import opened Arithmetic
  import opened Domain

  datatype Item<V> = Item(value: V, expiry: int)
  type Items<V> = map<string, Item<V>>

  /** Operations in the order of the mutex, each with the clock reading it uses. */
  datatype Op<V> =
    | Set(key: string, value: V, now: int)
    | Get(key: string, now: int)
    | Release(key: string, now: int)
    | GetAll(now: int)
    | Cleanup(now: int)

  datatype Obs<V> = Silent | Found(value: Option<V>) | Listed(live: map<string, V>)

  // ---- The cache ----

  /** Present and not after its expiry. */
  predicate Live<V>(items: Items<V>, key: string, now: int) { key in items && now <= items[key].expiry }

  function Read<V>(items: Items<V>, key: string, now: int): Option<V> {
    if Live(items, key, now) then Some(items[key].value) else None
  }

  /** `GetAll` lists what is strictly before its expiry. */
  function ListedAt<V>(items: Items<V>, now: int): map<string, V> {
    map k | k in items && now < items[k].expiry :: items[k].value
  }

  function Swept<V>(items: Items<V>, now: int): Items<V> {
    map k | k in items && now <= items[k].expiry :: items[k]
  }

  function After<V>(items: Items<V>, op: Op<V>, ttl: int): Items<V> {
    match op
    case Set(key, value, now) => items[key := Item(value, now + ttl)]
    case Get(key, now) => if Live(items, key, now) then items else items - {key}
    case Release(key, now) => items - {key}
    case GetAll(_) => items
    case Cleanup(now) => Swept(items, now)
  }

  function Observe<V>(items: Items<V>, op: Op<V>): Obs<V> {
    match op
    case Get(key, now) => Found(Read(items, key, now))
    case Release(key, now) => Found(Read(items, key, now))
    case GetAll(now) => Listed(ListedAt(items, now))
    case _ => Silent
  }

  function Observations<V>(items: Items<V>, trace: seq<Op<V>>, ttl: int): seq<Obs<V>>
    decreases |trace|
  {
    if trace == [] then [] else [Observe(items, trace[0])] + Observations(After(items, trace[0], ttl), trace[1..], ttl)
  }

  // ---- The reference: only a successful release removes an entry ----

  function RefAfter<V>(items: Items<V>, op: Op<V>, ttl: int): Items<V> {
    match op
    case Set(key, value, now) => items[key := Item(value, now + ttl)]
    case Release(key, now) => if Live(items, key, now) then items - {key} else items
    case _ => items
  }

  function RefObservations<V>(items: Items<V>, trace: seq<Op<V>>, ttl: int): seq<Obs<V>>
    decreases |trace|
  {
    if trace == [] then [] else [Observe(items, trace[0])] + RefObservations(RefAfter(items, trace[0], ttl), trace[1..], ttl)
  }

  /**
   * A non-decreasing clock. `cleanup` reads it before taking the lock, so its reading may be older
   * than that of operations before it, but no later operation reads an earlier time.
   */
  ghost predicate ClockOk<V>(trace: seq<Op<V>>) {
    forall i, j | 0 <= i < j < |trace| && !trace[j].Cleanup? :: trace[i].now <= trace[j].now
  }

  /** Every reading still to come is at least `t`, except by `cleanup`. */
  ghost predicate NotBefore<V>(trace: seq<Op<V>>, t: int) {
    forall j | 0 <= j < |trace| && !trace[j].Cleanup? :: t <= trace[j].now
  }

  /** The cache lacks only entries that had expired by `t`. */
  ghost predicate Agrees<V>(items: Items<V>, all: Items<V>, t: int) {
    && (forall k | k in items :: k in all && all[k] == items[k])
    && (forall k | k in all && k !in items :: all[k].expiry < t)
  }

  lemma {:induction false} StepAgrees<V>(items: Items<V>, all: Items<V>, op: Op<V>, t: int, ttl: int)
    requires Agrees(items, all, t) && (!op.Cleanup? ==> t <= op.now)
    ensures Agrees(After(items, op, ttl), RefAfter(all, op, ttl), Max(t, op.now))
    ensures Observe(items, op) == Observe(all, op)
  {
    if op.GetAll? { assert ListedAt(items, op.now) == ListedAt(all, op.now); }
  }

  lemma {:induction false} RefinesFrom<V>(items: Items<V>, all: Items<V>, trace: seq<Op<V>>, t: int, ttl: int)
    requires ClockOk(trace) && NotBefore(trace, t) && Agrees(items, all, t)
    ensures Observations(items, trace, ttl) == RefObservations(all, trace, ttl)
    decreases |trace|
  {
    if trace != [] {
      StepAgrees(items, all, trace[0], t, ttl);
      RefinesFrom(After(items, trace[0], ttl), RefAfter(all, trace[0], ttl), trace[1..], Max(t, trace[0].now), ttl);
    }
  }

  /** Deleting expired entries cannot be observed, whenever and however often it happens. */
  lemma {:induction false} CacheRefinesMap<V>(trace: seq<Op<V>>, ttl: int)
    requires ClockOk(trace)
    ensures Observations(map[], trace, ttl) == RefObservations(map[], trace, ttl)
  {
    if trace != [] {
      var t := Earliest(trace);
      RefinesFrom(map[], map[], trace, t, ttl);
    }
  }

  lemma {:induction false} Earliest<V>(trace: seq<Op<V>>) returns (t: int)
    ensures NotBefore(trace, t)
  {
    if trace == [] {
      t := 0;
    } else {
      t := Earliest(trace[1..]);
      if trace[0].now < t { t := trace[0].now; }
    }
  }

  // ---- How long a value is visible ----

  function ItemsAfter<V>(items: Items<V>, trace: seq<Op<V>>, ttl: int): Items<V>
    decreases |trace|
  {
    if trace == [] then items else ItemsAfter(After(items, trace[0], ttl), trace[1..], ttl)
  }

  /** No operation of the trace stores or releases `key`. */
  ghost predicate LeavesAlone<V>(trace: seq<Op<V>>, key: string) {
    forall i | 0 <= i < |trace| :: !((trace[i].Set? || trace[i].Release?) && trace[i].key == key)
  }

  lemma {:induction false} StaysUntilExpiry<V>(items: Items<V>, trace: seq<Op<V>>, key: string, item: Item<V>, now: int, ttl: int)
    requires LeavesAlone(trace, key) && (forall i | 0 <= i < |trace| :: trace[i].now <= now)
    requires if key in items then items[key] == item else item.expiry < now
    ensures Read(ItemsAfter(items, trace, ttl), key, now) == if now <= item.expiry then Some(item.value) else None
    decreases |trace|
  {
    if trace != [] {
      StaysUntilExpiry(After(items, trace[0], ttl), trace[1..], key, item, now, ttl);
    }
  }

  /** A value set at `t` is read back until `t + ttl` and not after, whatever happens to other keys and however often cleanup runs. */
  lemma {:induction false} VisibleUntilExpiry<V>(items: Items<V>, key: string, value: V, t: int, trace: seq<Op<V>>, now: int, ttl: int)
    requires LeavesAlone(trace, key) && (forall i | 0 <= i < |trace| :: trace[i].now <= now)
    ensures Read(ItemsAfter(items, [Set(key, value, t)] + trace, ttl), key, now) == if now <= t + ttl then Some(value) else None
  {
    var all := [Set(key, value, t)] + trace;
    assert all[1..] == trace;
    StaysUntilExpiry(After(items, all[0], ttl), trace, key, Item(value, t + ttl), now, ttl);
  }

  lemma {:induction false} StaysGone<V>(items: Items<V>, trace: seq<Op<V>>, key: string, now: int, ttl: int)
    requires LeavesAlone(trace, key) && key !in items
    ensures Read(ItemsAfter(items, trace, ttl), key, now) == None
    decreases |trace|
  {
    if trace != [] { StaysGone(After(items, trace[0], ttl), trace[1..], key, now, ttl); }
  }

  /** After a release nothing is read back until the key is set again. */
  lemma {:induction false} ReleasedIsGone<V>(items: Items<V>, key: string, t: int, trace: seq<Op<V>>, now: int, ttl: int)
    requires LeavesAlone(trace, key)
    ensures Read(ItemsAfter(items, [Release(key, t)] + trace, ttl), key, now) == None
  {
    var all := [Release(key, t)] + trace;
    assert all[1..] == trace;
    StaysGone(After(items, all[0], ttl), trace, key, now, ttl);
  }

  /** After a cleanup nothing that had expired is stored any more, and everything else still is. */
  lemma {:induction false} CleanupLeavesOnlyLive<V>(items: Items<V>, now: int, ttl: int, key: string)
    ensures key in After(items, Cleanup(now), ttl) <==> key in items && !(now > items[key].expiry)
    ensures key in After(items, Cleanup(now), ttl) ==> After(items, Cleanup(now), ttl)[key] == items[key]
  {
  }

  // ---- Each Set is released at most once ----

  function Holding<V(==)>(items: Items<V>, v: V): set<string> { set k | k in items && items[k].value == v }

  function SetsOf<V(==)>(trace: seq<Op<V>>, v: V): nat {
    if trace == [] then 0 else (if trace[0].Set? && trace[0].value == v then 1 else 0) + SetsOf(trace[1..], v)
  }

  /** How often `Release` hands out `v`. */
  function Handouts<V(==)>(items: Items<V>, trace: seq<Op<V>>, v: V, ttl: int): nat
    decreases |trace|
  {
    if trace == [] then 0
    else (if trace[0].Release? && Read(items, trace[0].key, trace[0].now) == Some(v) then 1 else 0)
         + Handouts(After(items, trace[0], ttl), trace[1..], v, ttl)
  }

  lemma {:induction false} SmallerSet<T>(a: set<T>, b: set<T>)
    requires a <= b
    ensures |a| <= |b|
  {
    assert b == a + (b - a);
  }

  lemma {:induction false} HoldingStep<V>(items: Items<V>, op: Op<V>, v: V, ttl: int)
    ensures |Holding(After(items, op, ttl), v)| + (if op.Release? && Read(items, op.key, op.now) == Some(v) then 1 else 0)
            <= |Holding(items, v)| + (if op.Set? && op.value == v then 1 else 0)
  {
    var before, after := Holding(items, v), Holding(After(items, op, ttl), v);
    if op.Set? && op.value == v {
      SmallerSet(after, before + {op.key});
      assert |before + {op.key}| <= |before| + 1;
    } else if op.Release? && Read(items, op.key, op.now) == Some(v) {
      SmallerSet(after, before - {op.key});
    } else {
      SmallerSet(after, before);
    }
  }

  lemma {:induction false} HandoutsFrom<V>(items: Items<V>, trace: seq<Op<V>>, v: V, ttl: int)
    ensures Handouts(items, trace, v, ttl) <= |Holding(items, v)| + SetsOf(trace, v)
    decreases |trace|
  {
    if trace != [] {
      HoldingStep(items, trace[0], v, ttl);
      HandoutsFrom(After(items, trace[0], ttl), trace[1..], v, ttl);
    }
  }

  /** A value is released at most as often as it was set: no Set is handed out twice. */
  lemma {:induction false} ReleasedAtMostOnce<V>(trace: seq<Op<V>>, v: V, ttl: int)
    ensures Handouts(map[], trace, v, ttl) <= SetsOf(trace, v)
  {
    HandoutsFrom(map[], trace, v, ttl);
    assert Holding(map[], v) == {};
  }

  /** `Get` and `GetAll` at the same instant disagree exactly on items that expire at that instant. */
  lemma {:induction false} ListAndReadDiffer<V>(items: Items<V>, key: string, now: int)
    ensures (Read(items, key, now).Some? != (key in ListedAt(items, now))) <==> key in items && items[key].expiry == now
    ensures key in ListedAt(items, now) ==> Read(items, key, now) == Some(ListedAt(items, now)[key])
  {
  }

  // ---- The mutable cache ----

  class Cache<V(==)> {
    var items: Items<V>
    const ttl: int

    constructor (ttl: int)
      ensures items == map[] && this.ttl == ttl
    {
      this.ttl := ttl;
      items := map[];
    }

    method SetItem(key: string, value: V, now: int)
      modifies this
      ensures items == After(old(items), Set(key, value, now), ttl)
    {
      items := items[key := Item(value, now + ttl)];
    }

    method GetItem(key: string, now: int) returns (r: Option<V>)
      modifies this
      ensures items == After(old(items), Get(key, now), ttl)
      ensures Found(r) == Observe(old(items), Get(key, now))
    {
      if key !in items || now > items[key].expiry {
        items := items - {key};
        return None;
      }
      return Some(items[key].value);
    }

    method ReleaseItem(key: string, now: int) returns (r: Option<V>)
      modifies this
      ensures items == After(old(items), Release(key, now), ttl)
      ensures Found(r) == Observe(old(items), Release(key, now))
    {
      if key !in items || now > items[key].expiry {
        items := items - {key};
        return None;
      }
      r := Some(items[key].value);
      items := items - {key};
    }

    method GetAllItems(now: int) returns (live: map<string, V>)
      ensures live == ListedAt(items, now)
    {
      live := map[];
      var todo := items.Keys;
      while todo != {}
        invariant todo <= items.Keys
        invariant forall k :: k in live <==> k in items && k !in todo && now < items[k].expiry
        invariant forall k | k in live :: live[k] == items[k].value
        decreases |todo|
      {
        var k :| k in todo;
        todo := todo - {k};
        if now < items[k].expiry { live := live[k := items[k].value]; }
      }
    }

    /** One tick of the cleanup goroutine; `now` was read before the lock was taken. */
    method CleanupOnce(now: int)
      modifies this
      ensures items == After(old(items), Cleanup(now), ttl)
    {
      var todo := items.Keys;
      while todo != {}
        invariant todo <= items.Keys <= old(items).Keys
        invariant forall k | k in items :: items[k] == old(items)[k]
        invariant forall k | k in old(items) && k !in todo :: k in items <==> now <= old(items)[k].expiry
        decreases |todo|
      {
        var k :| k in todo;
        todo := todo - {k};
        if now > items[k].expiry { items := items - {k}; }
      }
    }
  }
}
