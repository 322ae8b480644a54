/** Resolved storage endpoints and the worker's memory of them. */
module Endpoints {
  import opened Domain

  const PUBLIC_KEY_SIZE := 32

  datatype IPInfo = IPInfo(publicKey: seq<bv8>, ip: string, port: int)
  datatype ProviderIP = ProviderIP(publicKey: string, storage: IPInfo, provider: IPInfo)

  const ZERO_IP := ProviderIP("", IPInfo([], "", 0), IPInfo([], "", 0))

  predicate HasValidStorage(ip: ProviderIP) {
    !Blank(ip.storage.ip) && ip.storage.port > 0 && |ip.storage.publicKey| == PUBLIC_KEY_SIZE
  }

  datatype EndpointState = EndpointState(storageIP: string, storagePort: int, updatedAt: Option<int>)

  predicate IsStale(state: EndpointState, ttl: int, now: int) {
    || Blank(state.storageIP) || state.storagePort <= 0
    || state.updatedAt.None?
    || (ttl > 0 && now - state.updatedAt.value > ttl)
  }

  /** What the DHT lookup and, after it failed, the overlay lookup return for a provider. */
  datatype Resolution = Resolved(ip: ProviderIP) | Unresolved(partial: ProviderIP, overlay: Option<IPInfo>)

  /** Everything a refresh learns from outside. */
  datatype Outside = Outside(
    states: Option<map<string, EndpointState>>, ttl: int, now: int,
    lookup: string -> Resolution, persisted: bool)

  type Book = map<string, ProviderIP>

  function Pubkeys(rels: seq<Relation>): set<string> { set r | r in rels :: r.pubkey }

  predicate Stale(env: Outside, pk: string)
    requires env.states.Some?
  {
    pk !in env.states.value || IsStale(env.states.value[pk], env.ttl, env.now)
  }

  function Targets(rels: seq<Relation>, staleOnly: bool, env: Outside): set<string>
    requires env.states.Some?
  {
    set pk | pk in Pubkeys(rels) && (!staleOnly || Stale(env, pk))
  }

  function Known(book: Book, pk: string): Option<ProviderIP> {
    if pk in book && HasValidStorage(book[pk]) then Some(book[pk]) else None
  }

  function Prefer(ip: ProviderIP, otherwise: Option<ProviderIP>): Option<ProviderIP> {
    if HasValidStorage(ip) then Some(ip) else otherwise
  }

  /** The endpoint available for `pk` once the lookups of this refresh are done. */
  function Available(book: Book, env: Outside, target: bool, pk: string): Option<ProviderIP> {
    if !target then Known(book, pk)
    else match env.lookup(pk)
      case Resolved(ip) => Prefer(ip, Known(book, pk))
      case Unresolved(partial, overlay) =>
        var base := Prefer(partial, Known(book, pk));
        var learned := OverlayEndpoint(base, overlay);
        if learned.Some? then learned else base
  }

  /** The overlay fallback replaces the storage endpoint of a provider whose own address is known. */
  function OverlayEndpoint(base: Option<ProviderIP>, overlay: Option<IPInfo>): Option<ProviderIP> {
    var ip := if base.Some? then base.value else ZERO_IP;
    if Blank(ip.provider.ip) || overlay.None? then None
    else Prefer(ip.(storage := overlay.value), None)
  }

  /** What this refresh writes to the worker's memory for `pk`. */
  function Learned(book: Book, env: Outside, target: bool, pk: string): Option<ProviderIP> {
    if !target then None
    else match env.lookup(pk)
      case Resolved(ip) => Prefer(ip, None)
      case Unresolved(partial, overlay) => OverlayEndpoint(Prefer(partial, Known(book, pk)), overlay)
  }

  function AvailableMap(book: Book, env: Outside, rels: seq<Relation>, targets: set<string>): map<string, ProviderIP> {
    map pk | pk in Pubkeys(rels) && Available(book, env, pk in targets, pk).Some? :: Available(book, env, pk in targets, pk).value
  }

  function BookAfter(book: Book, env: Outside, targets: set<string>): Book {
    book + map pk | pk in targets && Learned(book, env, true, pk).Some? :: Learned(book, env, true, pk).value
  }

  function ToPersist(book: Book, env: Outside, targets: set<string>): set<string> {
    set pk | pk in targets && Learned(book, env, true, pk).Some?
  }

  /** Returned map (None for an error) and new memory. */
  function Refresh(book: Book, rels: seq<Relation>, staleOnly: bool, env: Outside): (Option<map<string, ProviderIP>>, Book) {
    if rels == [] then (Some(map[]), book)
    else if env.states.None? then (None, book)
    else
      var targets := Targets(rels, staleOnly, env);
      if staleOnly && targets == {} then (Some(map[]), book)
      else
        var book' := BookAfter(book, env, targets);
        (if ToPersist(book, env, targets) != {} && !env.persisted then None else Some(AvailableMap(book, env, rels, targets)), book')
  }

  ghost predicate AllValid(m: map<string, ProviderIP>) {
    forall pk | pk in m :: HasValidStorage(m[pk])
  }

  datatype Call = Call(rels: seq<Relation>, staleOnly: bool, env: Outside)

  /** Memory after a sequence of refreshes, and what each of them returned. */
  function RefreshAll(book: Book, calls: seq<Call>): (seq<Option<map<string, ProviderIP>>>, Book) {
    if calls == [] then ([], book)
    else
      var n := |calls| - 1;
      var (outs, mid) := RefreshAll(book, calls[..n]);
      var (out, after) := Refresh(mid, calls[n].rels, calls[n].staleOnly, calls[n].env);
      (outs + [out], after)
  }

  /** Over any sequence of refreshes, everything remembered and everything returned is a valid endpoint. */
  lemma {:induction false} RefreshesStayValid(book: Book, calls: seq<Call>)
    requires AllValid(book)
    ensures AllValid(RefreshAll(book, calls).1)
    ensures |RefreshAll(book, calls).0| == |calls|
    ensures forall i | 0 <= i < |calls| && RefreshAll(book, calls).0[i].Some? ::
              && AllValid(RefreshAll(book, calls).0[i].value)
              && forall pk | pk in RefreshAll(book, calls).0[i].value :: pk in Pubkeys(calls[i].rels)
  {
    if calls != [] {
      var n := |calls| - 1;
      RefreshesStayValid(book, calls[..n]);
      RefreshStaysValid(RefreshAll(book, calls[..n]).1, calls[n].rels, calls[n].staleOnly, calls[n].env);
    }
  }

  /** Whatever is remembered, a refresh returns only valid endpoints, and only of the providers asked for. */
  lemma {:induction false} RefreshReturnsValid(book: Book, rels: seq<Relation>, staleOnly: bool, env: Outside)
    ensures var out := Refresh(book, rels, staleOnly, env).0;
            out.Some? ==> AllValid(out.value) && out.value.Keys <= Pubkeys(rels)
  {
    if rels != [] && env.states.Some? {
      AvailableMapValid(book, env, rels, Targets(rels, staleOnly, env));
    }
  }

  lemma {:induction false} RefreshStaysValid(book: Book, rels: seq<Relation>, staleOnly: bool, env: Outside)
    requires AllValid(book)
    ensures AllValid(Refresh(book, rels, staleOnly, env).1)
    ensures var out := Refresh(book, rels, staleOnly, env).0;
            out.Some? ==> AllValid(out.value) && out.value.Keys <= Pubkeys(rels)
  {
    RefreshReturnsValid(book, rels, staleOnly, env);
    if rels != [] && env.states.Some? {
      BookAfterValid(book, env, Targets(rels, staleOnly, env));
    }
  }

  /** A stale-only refresh looks up exactly the providers whose stored state is missing, incomplete or too old. */
  lemma {:induction false} TargetsExact(rels: seq<Relation>, staleOnly: bool, env: Outside, pk: string)
    requires env.states.Some?
    ensures pk in Targets(rels, staleOnly, env) <==>
              && (exists r :: r in rels && r.pubkey == pk)
              && (staleOnly ==>
                    || pk !in env.states.value
                    || Blank(env.states.value[pk].storageIP) || env.states.value[pk].storagePort <= 0
                    || env.states.value[pk].updatedAt.None?
                    || (env.ttl > 0 && env.now > env.states.value[pk].updatedAt.value + env.ttl))
  {
  }

  /** The valid endpoint remembered for a provider, if any. */
  ghost predicate Remembered(book: Book, pk: string, ip: Option<ProviderIP>) {
    if pk in book && HasValidStorage(book[pk]) then ip == Some(book[pk]) else ip.None?
  }

  /**
   * What a refresh returns and remembers for a provider it asked about: the lookup's answer where
   * that is valid, the remembered endpoint where nothing was looked up or found, and after a failed
   * lookup the overlay's storage endpoint beside the provider's known own address.
   */
  lemma {:induction false} RefreshAnswers(book: Book, rels: seq<Relation>, staleOnly: bool, env: Outside, pk: string)
    requires rels != [] && env.states.Some? && pk in Pubkeys(rels) && Refresh(book, rels, staleOnly, env).0.Some?
    requires !staleOnly || Targets(rels, staleOnly, env) != {}
    ensures var got, known := Get(Refresh(book, rels, staleOnly, env).0.value, pk), Get(Refresh(book, rels, staleOnly, env).1, pk);
            if pk !in Targets(rels, staleOnly, env) then Remembered(book, pk, got) && known == Get(book, pk)
            else match env.lookup(pk)
              case Resolved(ip) =>
                if HasValidStorage(ip) then got == Some(ip) && known == Some(ip) else Remembered(book, pk, got) && known == Get(book, pk)
              case Unresolved(partial, overlay) =>
                exists base :: && (if HasValidStorage(partial) then base == Some(partial) else Remembered(book, pk, base))
                               && (if OverlayHelps(base, overlay)
                                   then got.Some? && known == got && got.value.storage == overlay.value && base == Some(got.value.(storage := base.value.storage))
                                   else got == base && known == Get(book, pk))
  {
    var targets := Targets(rels, staleOnly, env);
    var m := AvailableMap(book, env, rels, targets);
    assert Get(m, pk) == Available(book, env, pk in targets, pk);
    if pk in targets && env.lookup(pk).Unresolved? {
      var partial := env.lookup(pk).partial;
      var base := Prefer(partial, Known(book, pk));
      assert if HasValidStorage(partial) then base == Some(partial) else Remembered(book, pk, base);
    }
  }

  /** A refresh fails exactly when the stored states cannot be read, or something was learned and cannot be stored. */
  lemma {:induction false} RefreshFailsIff(book: Book, rels: seq<Relation>, staleOnly: bool, env: Outside)
    ensures Refresh(book, rels, staleOnly, env).0.None? <==>
              && rels != []
              && (env.states.None?
                  || (!env.persisted && exists pk :: pk in Targets(rels, staleOnly, env) && Learned(book, env, true, pk).Some?))
  {
    if rels != [] && env.states.Some? {
      var targets := Targets(rels, staleOnly, env);
      if pk :| pk in targets && Learned(book, env, true, pk).Some? { assert pk in ToPersist(book, env, targets); }
    }
  }

  /** What was learned is remembered even when it could not be stored, and nothing else changes. */
  lemma {:induction false} RefreshRemembers(book: Book, rels: seq<Relation>, staleOnly: bool, env: Outside, pk: string)
    ensures Get(Refresh(book, rels, staleOnly, env).1, pk) ==
              if rels != [] && env.states.Some? && pk in Targets(rels, staleOnly, env) && Learned(book, env, true, pk).Some?
              then Learned(book, env, true, pk) else Get(book, pk)
  {
  }

  /** The overlay found a complete storage endpoint for a provider whose own address is known. */
  predicate OverlayHelps(base: Option<ProviderIP>, overlay: Option<IPInfo>) {
    && base.Some? && !Blank(base.value.provider.ip)
    && overlay.Some? && !Blank(overlay.value.ip) && overlay.value.port > 0 && |overlay.value.publicKey| == PUBLIC_KEY_SIZE
  }

  lemma {:induction false} AvailableMapValid(book: Book, env: Outside, rels: seq<Relation>, targets: set<string>)
    ensures AllValid(AvailableMap(book, env, rels, targets))
    ensures AvailableMap(book, env, rels, targets).Keys <= Pubkeys(rels)
  {
    forall pk | pk in AvailableMap(book, env, rels, targets)
      ensures HasValidStorage(AvailableMap(book, env, rels, targets)[pk])
    {
      AvailableValid(book, env, pk in targets, pk);
    }
  }

  lemma {:induction false} BookAfterValid(book: Book, env: Outside, targets: set<string>)
    requires AllValid(book)
    ensures AllValid(BookAfter(book, env, targets))
  {
    forall pk | pk in BookAfter(book, env, targets) ensures HasValidStorage(BookAfter(book, env, targets)[pk]) {
      AvailableValid(book, env, true, pk);
    }
  }

  lemma {:induction false} AvailableValid(book: Book, env: Outside, target: bool, pk: string)
    ensures Available(book, env, target, pk).Some? ==> HasValidStorage(Available(book, env, target, pk).value)
    ensures Learned(book, env, target, pk).Some? ==> HasValidStorage(Learned(book, env, target, pk).value)
  {
  }

  function Get(m: map<string, ProviderIP>, pk: string): Option<ProviderIP> {
    if pk in m then Some(m[pk]) else None
  }

  function Put(m: map<string, ProviderIP>, pk: string, ip: Option<ProviderIP>): map<string, ProviderIP> {
    if ip.Some? then m[pk := ip.value] else m
  }

  lemma {:induction false} MapsAgree(a: map<string, ProviderIP>, b: map<string, ProviderIP>)
    requires forall pk :: Get(a, pk) == Get(b, pk)
    ensures a == b
  {
    forall pk ensures pk in a <==> pk in b { assert Get(a, pk) == Get(b, pk); }
    forall pk | pk in a ensures a[pk] == b[pk] { assert Get(a, pk) == Get(b, pk); }
  }

  /** `Available` and `Learned` before the overlay fallback. */
  function Direct(book: Book, env: Outside, done: bool, pk: string): Option<ProviderIP> {
    if !done then Known(book, pk)
    else match env.lookup(pk)
      case Resolved(ip) => Prefer(ip, Known(book, pk))
      case Unresolved(partial, _) => Prefer(partial, Known(book, pk))
  }

  function DirectLearned(env: Outside, pk: string): Option<ProviderIP> {
    match env.lookup(pk)
    case Resolved(ip) => Prefer(ip, None)
    case Unresolved(_, _) => None
  }

  // ---- The two loops, one provider at a time ----

  ghost predicate Holds(m: map<string, ProviderIP>, expected: string -> Option<ProviderIP>) {
    forall pk :: Get(m, pk) == expected(pk)
  }

  /** Changing one entry to what is now expected there, and expecting nothing else new, keeps a map right. */
  lemma {:induction false} PutHolds(
    m: map<string, ProviderIP>, before: string -> Option<ProviderIP>, after: string -> Option<ProviderIP>, pk: string, ip: Option<ProviderIP>)
    requires Holds(m, before) && (forall q | q != pk :: before(q) == after(q))
    requires after(pk) == if ip.Some? then ip else before(pk)
    ensures Holds(Put(m, pk, ip), after)
  {
    forall q ensures Get(Put(m, pk, ip), q) == after(q) { assert Get(m, q) == before(q); }
  }

  ghost function Resolving(rels: seq<Relation>, book: Book, env: Outside, done: set<string>): string -> Option<ProviderIP> {
    (pk: string) => if pk in Pubkeys(rels) then Direct(book, env, pk in done, pk) else None
  }

  ghost function Remembering(book: Book, env: Outside, done: set<string>): string -> Option<ProviderIP> {
    (pk: string) => if pk in done && DirectLearned(env, pk).Some? then DirectLearned(env, pk) else Get(book, pk)
  }

  ghost function Overlaying(rels: seq<Relation>, book: Book, env: Outside, targets: set<string>, left: set<string>): string -> Option<ProviderIP> {
    (pk: string) => if pk !in Pubkeys(rels) then None
                    else if pk in left then Direct(book, env, true, pk) else Available(book, env, pk in targets, pk)
  }

  ghost function Learning(book: Book, env: Outside, done: set<string>): string -> Option<ProviderIP> {
    (pk: string) => if pk in done && Learned(book, env, true, pk).Some? then Learned(book, env, true, pk) else Get(book, pk)
  }

  /** What a finished lookup offers for the returned map. */
  function FoundBy(env: Outside, pk: string): Option<ProviderIP> {
    match env.lookup(pk) case Resolved(ip) => Prefer(ip, None) case Unresolved(partial, _) => Prefer(partial, None)
  }

  lemma {:induction false} OfferStep(
    rels: seq<Relation>, book: Book, env: Outside, done: set<string>, pk: string, available: map<string, ProviderIP>)
    requires Holds(available, Resolving(rels, book, env, done)) && pk in Pubkeys(rels) && pk !in done
    ensures Holds(Put(available, pk, FoundBy(env, pk)), Resolving(rels, book, env, done + {pk}))
  {
    PutHolds(available, Resolving(rels, book, env, done), Resolving(rels, book, env, done + {pk}), pk, FoundBy(env, pk));
  }

  lemma {:induction false} RememberStep(book: Book, env: Outside, done: set<string>, pk: string, known: Book)
    requires Holds(known, Remembering(book, env, done)) && pk !in done
    ensures Holds(Put(known, pk, DirectLearned(env, pk)), Remembering(book, env, done + {pk}))
  {
    PutHolds(known, Remembering(book, env, done), Remembering(book, env, done + {pk}), pk, DirectLearned(env, pk));
  }

  lemma {:induction false} ResolveStep(
    rels: seq<Relation>, book: Book, env: Outside, done: set<string>, pk: string, available: map<string, ProviderIP>, known: Book)
    requires Holds(available, Resolving(rels, book, env, done)) && Holds(known, Remembering(book, env, done)) && pk in Pubkeys(rels) && pk !in done
    ensures var found := match env.lookup(pk) case Resolved(ip) => Prefer(ip, None) case Unresolved(partial, _) => Prefer(partial, None);
            && Holds(Put(available, pk, found), Resolving(rels, book, env, done + {pk}))
            && Holds(Put(known, pk, DirectLearned(env, pk)), Remembering(book, env, done + {pk}))
  {
    OfferStep(rels, book, env, done, pk, available);
    RememberStep(book, env, done, pk, known);
  }

  lemma {:induction false} OverlayStep(
    rels: seq<Relation>, book: Book, env: Outside, targets: set<string>, left: set<string>, pk: string,
    available: map<string, ProviderIP>, known: Book)
    requires Holds(available, Overlaying(rels, book, env, targets, left)) && Holds(known, Learning(book, env, targets - left))
    requires pk in left && pk in targets && pk in Pubkeys(rels) && env.lookup(pk).Unresolved?
    ensures var learned := OverlayEndpoint(Get(available, pk), env.lookup(pk).overlay);
            && learned == Learned(book, env, true, pk)
            && Holds(Put(available, pk, learned), Overlaying(rels, book, env, targets, left - {pk}))
            && Holds(Put(known, pk, learned), Learning(book, env, targets - (left - {pk})))
  {
    var learned := OverlayEndpoint(Get(available, pk), env.lookup(pk).overlay);
    assert Get(available, pk) == Overlaying(rels, book, env, targets, left)(pk);
    PutHolds(available, Overlaying(rels, book, env, targets, left), Overlaying(rels, book, env, targets, left - {pk}), pk, learned);
    PutHolds(known, Learning(book, env, targets - left), Learning(book, env, targets - (left - {pk})), pk, learned);
  }

  function LearnedBy(env: Outside, done: set<string>): set<string> { set pk | pk in done && DirectLearned(env, pk).Some? }
  function Missing(env: Outside, done: set<string>): set<string> { set pk | pk in done && env.lookup(pk).Unresolved? }

  lemma {:induction false} OneMoreDone(env: Outside, done: set<string>, pk: string)
    ensures LearnedBy(env, done + {pk}) == LearnedBy(env, done) + (if DirectLearned(env, pk).Some? then {pk} else {})
    ensures Missing(env, done + {pk}) == Missing(env, done) + (if env.lookup(pk).Unresolved? then {pk} else {})
  {
  }

  lemma {:induction false} OneMorePersisted(book: Book, env: Outside, targets: set<string>, left: set<string>, pk: string)
    requires pk in left && pk in targets
    ensures ToPersist(book, env, targets - (left - {pk}))
            == ToPersist(book, env, targets - left) + (if Learned(book, env, true, pk).Some? then {pk} else {})
  {
  }

  lemma {:induction false} BeforeOverlays(rels: seq<Relation>, book: Book, env: Outside, targets: set<string>, m: map<string, ProviderIP>, known: Book)
    requires Holds(m, Resolving(rels, book, env, targets)) && Holds(known, Remembering(book, env, targets))
    ensures Holds(m, Overlaying(rels, book, env, targets, Missing(env, targets)))
    ensures Holds(known, Learning(book, env, targets - Missing(env, targets)))
    ensures LearnedBy(env, targets) == ToPersist(book, env, targets - Missing(env, targets))
  {
    forall pk ensures Get(m, pk) == Overlaying(rels, book, env, targets, Missing(env, targets))(pk) {
      assert Get(m, pk) == Resolving(rels, book, env, targets)(pk);
    }
    forall pk ensures Get(known, pk) == Learning(book, env, targets - Missing(env, targets))(pk) {
      assert Get(known, pk) == Remembering(book, env, targets)(pk);
    }
  }

  lemma {:induction false} AfterOverlays(rels: seq<Relation>, book: Book, env: Outside, targets: set<string>, m: map<string, ProviderIP>, known: Book)
    requires Holds(m, Overlaying(rels, book, env, targets, {})) && Holds(known, Learning(book, env, targets))
    ensures m == AvailableMap(book, env, rels, targets) && known == BookAfter(book, env, targets)
  {
    forall pk ensures Get(m, pk) == Get(AvailableMap(book, env, rels, targets), pk) {
      assert Get(m, pk) == Overlaying(rels, book, env, targets, {})(pk);
    }
    forall pk ensures Get(known, pk) == Get(BookAfter(book, env, targets), pk) {
      assert Get(known, pk) == Learning(book, env, targets)(pk);
    }
    MapsAgree(m, AvailableMap(book, env, rels, targets));
    MapsAgree(known, BookAfter(book, env, targets));
  }

  /** The worker's `lastKnownIPs` and the refresh that maintains it. */
  class Memory {
    var lastKnownIPs: map<string, ProviderIP>

    constructor ()
      ensures lastKnownIPs == map[]
    {
      lastKnownIPs := map[];
    }

    /** The lookups of the targets finish in any order. */
    method RefreshProvidersEndpoints(rels: seq<Relation>, staleOnly: bool, env: Outside)
      returns (out: Option<map<string, ProviderIP>>)
      modifies this
      ensures (out, lastKnownIPs) == Refresh(old(lastKnownIPs), rels, staleOnly, env)
    {
      if |rels| == 0 { return Some(map[]); }
      if env.states.None? { return None; }
      var targets := Targets(rels, staleOnly, env);
      if staleOnly && targets == {} { return Some(map[]); }

      var available, persist := RefreshTargets(rels, targets, env);
      if persist != {} && !env.persisted { return None; }
      out := Some(available);
    }

    method RefreshTargets(rels: seq<Relation>, targets: set<string>, env: Outside)
      returns (available: map<string, ProviderIP>, persist: set<string>)
      requires targets <= Pubkeys(rels)
      modifies this
      ensures available == AvailableMap(old(lastKnownIPs), env, rels, targets)
      ensures lastKnownIPs == BookAfter(old(lastKnownIPs), env, targets)
      ensures persist == ToPersist(old(lastKnownIPs), env, targets)
    {
      ghost var book := lastKnownIPs;
      available := map pk | pk in Pubkeys(rels) && Known(lastKnownIPs, pk).Some? :: lastKnownIPs[pk];
      var notFound;
      available, persist, notFound := ResolveTargets(rels, targets, env, available);
      BeforeOverlays(rels, book, env, targets, available, lastKnownIPs);
      available, persist := OverlayFallback(rels, targets, env, available, persist, notFound, book);
      AfterOverlays(rels, book, env, targets, available, lastKnownIPs);
    }

    /** The concurrent lookups; each one writes its own provider's entries under the mutex. */
    method ResolveTargets(rels: seq<Relation>, targets: set<string>, env: Outside, cached: map<string, ProviderIP>)
      returns (available: map<string, ProviderIP>, persist: set<string>, notFound: set<string>)
      requires targets <= Pubkeys(rels) && Holds(cached, Resolving(rels, lastKnownIPs, env, {}))
      modifies this
      ensures Holds(available, Resolving(rels, old(lastKnownIPs), env, targets))
      ensures Holds(lastKnownIPs, Remembering(old(lastKnownIPs), env, targets))
      ensures persist == LearnedBy(env, targets) && notFound == Missing(env, targets)
    {
      available, persist, notFound := cached, {}, {};
      var running := targets;
      ghost var done: set<string> := {};
      while running != {}
        invariant running <= targets && done == targets - running
        invariant Holds(available, Resolving(rels, old(lastKnownIPs), env, done))
        invariant Holds(lastKnownIPs, Remembering(old(lastKnownIPs), env, done))
        invariant persist == LearnedBy(env, done) && notFound == Missing(env, done)
      {
        var pk :| pk in running;
        ResolveStep(rels, old(lastKnownIPs), env, done, pk, available, lastKnownIPs);
        OneMoreDone(env, done, pk);
        match env.lookup(pk) {
          case Unresolved(partial, _) =>
            notFound := notFound + {pk};
            if HasValidStorage(partial) { available := available[pk := partial]; }
          case Resolved(ip) =>
            if HasValidStorage(ip) {
              available := available[pk := ip];
              persist := persist + {pk};
              lastKnownIPs := lastKnownIPs[pk := ip];
            }
        }
        running := running - {pk};
        done := done + {pk};
      }
    }

    /** The sequential overlay fallback for the providers whose lookup failed. */
    method OverlayFallback(
      rels: seq<Relation>, targets: set<string>, env: Outside,
      direct: map<string, ProviderIP>, persisted: set<string>, notFound: set<string>, ghost book: Book)
      returns (available: map<string, ProviderIP>, persist: set<string>)
      requires targets <= Pubkeys(rels) && notFound == Missing(env, targets)
      requires Holds(direct, Overlaying(rels, book, env, targets, notFound))
      requires Holds(lastKnownIPs, Learning(book, env, targets - notFound))
      requires persisted == ToPersist(book, env, targets - notFound)
      modifies this
      ensures Holds(available, Overlaying(rels, book, env, targets, {}))
      ensures Holds(lastKnownIPs, Learning(book, env, targets))
      ensures persist == ToPersist(book, env, targets)
    {
      available, persist := direct, persisted;
      var left := notFound;
      while left != {}
        invariant left <= notFound
        invariant Holds(available, Overlaying(rels, book, env, targets, left))
        invariant Holds(lastKnownIPs, Learning(book, env, targets - left))
        invariant persist == ToPersist(book, env, targets - left)
      {
        var pk :| pk in left;
        OverlayStep(rels, book, env, targets, left, pk, available, lastKnownIPs);
        OneMorePersisted(book, env, targets, left, pk);
        var ip := if pk in available then available[pk] else ZERO_IP;
        var overlay := env.lookup(pk).overlay;
        if !Blank(ip.provider.ip) && overlay.Some? {
          var merged := ip.(storage := overlay.value);
          if HasValidStorage(merged) {
            available := available[pk := merged];
            persist := persist + {pk};
            lastKnownIPs := lastKnownIPs[pk := merged];
          }
        }
        left := left - {pk};
      }
      assert targets - {} == targets;
    }
  }
}
