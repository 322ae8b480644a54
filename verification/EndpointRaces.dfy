/** Several endpoint refreshes at once, interleaved at the lock of the worker's memory. */
module EndpointRaces {
  import opened Domain
  import opened Endpoints

  /** What a refresh still has to do: read the memory, finish lookups, try overlays. */
  datatype Phase = Reading(todo: set<string>) | Resolving(running: set<string>) | Overlaying(left: set<string>) | Returned

  /** One refresh under way, with its local maps. */
  datatype Task = Task(
    rels: seq<Relation>, targets: set<string>, lookup: string -> Resolution, phase: Phase,
    available: map<string, ProviderIP>, notFound: set<string>)

  datatype State = State(book: Book, tasks: seq<Task>)

  /** One provider's step of task `t`, or the end of its phase. */
  datatype Action = Handle(t: nat, pk: string) | Advance(t: nat)

  ghost predicate Initial(s: State) {
    && AllValid(s.book)
    && forall t | 0 <= t < |s.tasks| ::
         var k := s.tasks[t];
         k.targets <= Pubkeys(k.rels) && k.phase == Reading(Pubkeys(k.rels)) && k.available == map[] && k.notFound == {}
  }

  function Open(p: Phase): set<string> {
    match p case Reading(todo) => todo case Resolving(running) => running case Overlaying(left) => left case Returned => {}
  }

  predicate Enabled(s: State, a: Action) {
    match a
    case Handle(t, pk) => t < |s.tasks| && pk in Open(s.tasks[t].phase)
    case Advance(t) => t < |s.tasks| && !s.tasks[t].phase.Returned? && Open(s.tasks[t].phase) == {}
  }

  /** What a step adds to the local map, and what it stores in the shared memory under its lock. */
  function Offered(book: Book, k: Task, pk: string): (Option<ProviderIP>, Option<ProviderIP>) {
    match k.phase
    case Reading(_) => (Known(book, pk), None)
    case Resolving(_) =>
      (match k.lookup(pk)
       case Resolved(ip) => (Prefer(ip, None), Prefer(ip, None))
       case Unresolved(partial, _) => (Prefer(partial, None), None))
    case Overlaying(_) =>
      var base := if pk in k.available then Some(k.available[pk]) else None;
      var learned := if k.lookup(pk).Unresolved? then OverlayEndpoint(base, k.lookup(pk).overlay) else None;
      (learned, learned)
    case Returned => (None, None)
  }

  function Closing(p: Phase, pk: string): Phase {
    match p
    case Reading(todo) => Reading(todo - {pk})
    case Resolving(running) => Resolving(running - {pk})
    case Overlaying(left) => Overlaying(left - {pk})
    case Returned => Returned
  }

  function Next(k: Task): Phase {
    match k.phase
    case Reading(_) => Resolving(k.targets)
    case Resolving(_) => Overlaying(k.notFound)
    case _ => Returned
  }

  function Handled(book: Book, k: Task, pk: string): Task {
    k.(phase := Closing(k.phase, pk), available := Put(k.available, pk, Offered(book, k, pk).0),
       notFound := if k.phase.Resolving? && k.lookup(pk).Unresolved? then k.notFound + {pk} else k.notFound)
  }

  function Apply(s: State, a: Action): State
    requires Enabled(s, a)
  {
    match a
    case Handle(t, pk) =>
      var k := s.tasks[t];
      s.(book := Put(s.book, pk, Offered(s.book, k, pk).1), tasks := s.tasks[t := Handled(s.book, k, pk)])
    case Advance(t) => s.(tasks := s.tasks[t := s.tasks[t].(phase := Next(s.tasks[t]))])
  }

  function Exec(s0: State, run: seq<Action>): Option<State> {
    if run == [] then Some(s0)
    else
      var m := Exec(s0, run[..|run| - 1]);
      if m.Some? && Enabled(m.value, run[|run| - 1]) then Some(Apply(m.value, run[|run| - 1])) else None
  }

  // ---- Invariant ----

  /** The lookup of `pk` has been handled. */
  predicate LookedUp(k: Task, pk: string) {
    k.phase.Overlaying? || k.phase.Returned? || (k.phase.Resolving? && pk !in k.phase.running)
  }

  /** The provider's own lookup found a valid endpoint. */
  predicate Found(k: Task, pk: string) { k.lookup(pk).Resolved? && HasValidStorage(k.lookup(pk).ip) }

  ghost predicate TaskOk(k: Task) {
    && k.targets <= Pubkeys(k.rels) && Open(k.phase) <= Pubkeys(k.rels) && k.notFound <= k.targets
    && AllValid(k.available) && k.available.Keys <= Pubkeys(k.rels)
    && (forall pk | pk in k.notFound :: k.lookup(pk).Unresolved?)
    && (k.phase.Resolving? ==> k.phase.running <= k.targets) && (k.phase.Overlaying? ==> k.phase.left <= k.notFound)
    && (forall pk | pk in k.targets && LookedUp(k, pk) && Found(k, pk) :: pk in k.available && k.available[pk] == k.lookup(pk).ip)
  }

  ghost predicate Inv(s: State) { AllValid(s.book) && forall t | 0 <= t < |s.tasks| :: TaskOk(s.tasks[t]) }

  lemma {:induction false} OfferedValid(book: Book, k: Task, pk: string)
    ensures var (local, shared) := Offered(book, k, pk);
            && (local.Some? ==> HasValidStorage(local.value))
            && (shared.Some? ==> HasValidStorage(shared.value))
  {
  }

  lemma {:induction false} HandledOk(book: Book, k: Task, pk: string)
    requires TaskOk(k) && pk in Open(k.phase)
    ensures TaskOk(Handled(book, k, pk))
  {
    OfferedValid(book, k, pk);
  }

  lemma {:induction false} AdvancedOk(k: Task)
    requires TaskOk(k) && Open(k.phase) == {}
    ensures TaskOk(k.(phase := Next(k)))
  {
  }

  lemma {:induction false} InvStep(s: State, a: Action)
    requires Inv(s) && Enabled(s, a)
    ensures Inv(Apply(s, a))
  {
    match a
    case Handle(t, pk) =>
      OfferedValid(s.book, s.tasks[t], pk);
      HandledOk(s.book, s.tasks[t], pk);
    case Advance(t) => AdvancedOk(s.tasks[t]);
  }

  lemma {:induction false} InvReachable(s0: State, run: seq<Action>)
    requires Initial(s0) && Exec(s0, run).Some?
    ensures Inv(Exec(s0, run).value)
  {
    if run != [] {
      InvReachable(s0, run[..|run| - 1]);
      InvStep(Exec(s0, run[..|run| - 1]).value, run[|run| - 1]);
    }
  }

  /**
   * However the steps of concurrent refreshes interleave: every remembered endpoint and every
   * endpoint in a refresh's result is valid, a result speaks only of the providers asked for, and
   * a refresh that has returned holds its own lookup's answer wherever that was valid.
   */
  lemma {:induction false} RacesStayValid(s0: State, run: seq<Action>, t: nat)
    requires Initial(s0) && Exec(s0, run).Some? && t < |Exec(s0, run).value.tasks|
    ensures var s := Exec(s0, run).value; var k := s.tasks[t];
            && AllValid(s.book) && AllValid(k.available) && k.available.Keys <= Pubkeys(k.rels)
            && (k.phase.Returned? ==>
                  forall pk | pk in k.targets && Found(k, pk) :: pk in k.available && k.available[pk] == k.lookup(pk).ip)
  {
    InvReachable(s0, run);
    assert TaskOk(Exec(s0, run).value.tasks[t]);
  }
}
