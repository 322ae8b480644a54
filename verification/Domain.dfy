/** The records the coordinator and the agent exchange, and Go's string order. */
module Domain {

  datatype Option<+T> = None | Some(value: T)

  /** Verdict of one bag check; the coordinator and the agent share the codes. */
  datatype Reason =
    | ValidStorageProof
    | IPNotFound | NotFound | UnavailableProvider | CantCreatePeer | UnknownPeer
    | PingFailed | InvalidBagID | FailedInitialPing
    | GetInfoFailed | InvalidHeader
    | CantGetPiece | CantParseBoC | ProofCheckFailed

  /** One (storage contract, provider) relation the coordinator has to prove. */
  datatype Relation = Relation(pubkey: string, providerAddress: string, address: string, bagId: string, size: nat)

  datatype ContractRef = ContractRef(address: string, bagId: string)

  datatype Endpoint = Endpoint(ip: string, port: int, adnlPubkey: seq<bv8>)

  /** All contracts of one provider. Pointers of the wire format may be nil. */
  datatype Batch = Batch(
    pubkey: string,
    providerAddress: string,
    endpoint: Option<Endpoint>,
    contracts: seq<Option<ContractRef>>)

  /** The non-nil entries of a slice of pointers, in order. */
  function Somes<T>(s: seq<Option<T>>): seq<T> {
    if s == [] then [] else Somes(s[..|s| - 1]) + (if s[|s| - 1].Some? then [s[|s| - 1].value] else [])
  }

  lemma {:induction false} SomesMember<T>(s: seq<Option<T>>, x: T)
    ensures x in Somes(s) <==> Some(x) in s
  {
    if s != [] {
      SomesMember(s[..|s| - 1], x);
      assert s == s[..|s| - 1] + [s[|s| - 1]];
    }
  }

  /** Nanoseconds. */
  const SECOND: int := 1_000_000_000

  /** Go map read: a missing key, or a nil map, yields the empty string. */
  function Lookup(m: map<string, string>, k: string): string {
    if k in m then m[k] else ""
  }

  /** `sub` keeps some entries of `s`, those at the positions `ps`, in their order. */
  ghost predicate Embeds<T>(ps: seq<nat>, sub: seq<T>, s: seq<T>) {
    && |ps| == |sub|
    && (forall i | 0 <= i < |ps| :: ps[i] < |s| && s[ps[i]] == sub[i])
    && (forall i, j | 0 <= i < j < |ps| :: ps[i] < ps[j])
  }

  lemma {:induction false} EmbedsKeep<T>(ps: seq<nat>, sub: seq<T>, s: seq<T>, x: T)
    requires Embeds(ps, sub, s)
    ensures Embeds(ps + [|s|], sub + [x], s + [x])
  {
  }

  lemma {:induction false} EmbedsSkip<T>(ps: seq<nat>, sub: seq<T>, s: seq<T>, x: T)
    requires Embeds(ps, sub, s)
    ensures Embeds(ps, sub, s + [x])
  {
  }

  ghost predicate Distinct<T>(s: seq<T>) {
    forall i, j | 0 <= i < j < |s| :: s[i] != s[j]
  }

  /** `order` lists every element of `s` once: one possible iteration order of a Go map. */
  ghost predicate Enumerates<T(!new)>(order: seq<T>, s: set<T>) {
    && Distinct(order)
    && forall x :: x in order <==> x in s
  }

  lemma {:induction false} DistinctCounts<T>(s: seq<T>, x: T)
    requires Distinct(s)
    ensures multiset(s)[x] == if x in s then 1 else 0
  {
    if s != [] {
      var n := |s| - 1;
      assert s == s[..n] + [s[n]];
      DistinctCounts(s[..n], x);
      assert s[n] !in s[..n];
    }
  }

  lemma {:induction false} EnumeratesMore<T(!new)>(order: seq<T>, s: set<T>, x: T)
    requires Enumerates(order, s) && x !in s
    ensures Enumerates(order + [x], s + {x})
  {
  }

  lemma {:induction false} MultisetSnoc<T>(s: seq<T>)
    requires s != []
    ensures multiset(s) == multiset(s[..|s| - 1]) + multiset{s[|s| - 1]}
  {
    assert s == s[..|s| - 1] + [s[|s| - 1]];
  }

  /** Two iteration orders of one map are permutations of each other. */
  lemma {:induction false} EnumerationsAgree<T(!new)>(a: seq<T>, b: seq<T>, s: set<T>)
    requires Enumerates(a, s) && Enumerates(b, s)
    ensures multiset(a) == multiset(b)
  {
    forall x ensures multiset(a)[x] == multiset(b)[x] {
      DistinctCounts(a, x);
      DistinctCounts(b, x);
    }
  }

  /** The code points `strings.TrimSpace` removes. */
  predicate IsSpace(c: char) {
    var n := c as int;
    || 0x09 <= n <= 0x0d || n == 0x20 || n == 0x85 || n == 0xa0 || n == 0x1680
    || 0x2000 <= n <= 0x200a || n == 0x2028 || n == 0x2029 || n == 0x202f || n == 0x205f || n == 0x3000
  }

  /** `strings.TrimSpace(s) == ""`. */
  predicate Blank(s: string) {
    forall i | 0 <= i < |s| :: IsSpace(s[i])
  }

  /** Go's `<` on strings. */
  predicate StringLess(a: string, b: string) {
    if b == "" then false
    else if a == "" then true
    else if a[0] != b[0] then a[0] < b[0]
    else StringLess(a[1..], b[1..])
  }

  lemma {:induction false} StringLessTotal(a: string, b: string)
    ensures a != b ==> StringLess(a, b) || StringLess(b, a)
    ensures StringLess(a, b) ==> !StringLess(b, a) && a != b
  {
    if a != "" && b != "" && a[0] == b[0] {
      StringLessTotal(a[1..], b[1..]);
      assert a == [a[0]] + a[1..] && b == [b[0]] + b[1..];
    }
  }

  lemma {:induction false} StringLessTransitive(a: string, b: string, c: string)
    requires StringLess(a, b) && StringLess(b, c)
    ensures StringLess(a, c)
  {
    if a != "" && a[0] == b[0] == c[0] {
      StringLessTransitive(a[1..], b[1..], c[1..]);
    }
  }
}
