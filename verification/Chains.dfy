/** Rebuilding issuer order from certificates in any order (chain.go). */
module Chains {
  import opened Sorting

  newtype Byte = b: int | 0 <= b < 256

  type Bytes = seq<Byte>

  function ByteRank(b: Byte): int {
    b as int
  }

  predicate BytesLeq(a: Bytes, b: Bytes) {
    LexLeq(ByteRank, a, b)
  }

  lemma BytesLeqIsOrder()
    ensures Total(BytesLeq) && Antisymmetric(BytesLeq)
  {
    LexIsOrder(ByteRank);
    var leq := (a: Bytes, b: Bytes) => LexLeq(ByteRank, a, b);
    assert forall a: Bytes, b: Bytes :: BytesLeq(a, b) == leq(a, b);
  }

  /** A certificate is its DER encoding. */
  type Certificate = Bytes

  /** What the X.509 library reads out of an encoding; verifies(child, parent) checks a signature. */
  datatype X509 = X509(
    parses: Bytes -> bool,
    issuer: Certificate -> Bytes,
    subject: Certificate -> Bytes,
    verifies: (Certificate, Certificate) -> bool,
    publicKey: Certificate -> Bytes,
    notBefore: Certificate -> int,
    notAfter: Certificate -> int,
    dnsNames: Certificate -> seq<string>)

  predicate NameMatch(x: X509, child: Certificate, parent: Certificate) {
    x.issuer(child) == x.subject(parent)
  }

  predicate Issued(x: X509, child: Certificate, parent: Certificate) {
    NameMatch(x, child, parent) && x.verifies(child, parent)
  }

  predicate IsSelfSigned(x: X509, cert: Certificate) {
    Issued(x, cert, cert)
  }

  // ----- The walk, over the certificates not used yet -----

  /** Where the issuer of child stands in a pool: a verifying one, else a name match, else its length. */
  function IssuerIn(x: X509, child: Certificate, pool: seq<Certificate>): (i: nat)
    ensures i <= |pool|
  {
    var verifying := FirstWhere((c: Certificate) => Issued(x, child, c), pool);
    if verifying < |pool| then verifying else FirstWhere((c: Certificate) => NameMatch(x, child, c), pool)
  }

  /** The certificates that link on to current, and those left over. */
  function Walk(x: X509, current: Certificate, pool: seq<Certificate>): (seq<Certificate>, seq<Certificate>)
    decreases |pool|
  {
    var i := IssuerIn(x, current, pool);
    if i == |pool| then ([], pool)
    else if IsSelfSigned(x, pool[i]) then ([pool[i]], RemoveAt(pool, i))
    else
      var (linked, left) := Walk(x, pool[i], RemoveAt(pool, i));
      ([pool[i]] + linked, left)
  }

  function OrderedChain(x: X509, leaf: Certificate, rest: seq<Certificate>): seq<Certificate> {
    var (linked, left) := Walk(x, leaf, rest);
    linked + Sort(BytesLeq, left)
  }

  // ----- The used-array loop refines the walk -----

  ghost function Unused(rest: seq<Certificate>, used: seq<bool>): seq<Certificate>
    requires |rest| == |used|
  {
    if rest == [] then [] else (if used[0] then [] else [rest[0]]) + Unused(rest[1..], used[1..])
  }

  lemma {:induction false} UnusedSplits(rest: seq<Certificate>, used: seq<bool>, i: nat)
    requires |rest| == |used| && i < |rest|
    ensures Unused(rest, used) ==
            Unused(rest[..i], used[..i]) + ((if used[i] then [] else [rest[i]]) + Unused(rest[i + 1..], used[i + 1..]))
  {
    if i > 0 {
      UnusedSplits(rest[1..], used[1..], i - 1);
      assert rest[1..][..i - 1] == rest[..i][1..] && used[1..][..i - 1] == used[..i][1..];
      assert rest[1..][i..] == rest[i + 1..] && used[1..][i..] == used[i + 1..];
    }
  }

  /** Marking i as used takes it out of the pool. */
  lemma MarkedIsRemoved(rest: seq<Certificate>, used: seq<bool>, i: nat)
    requires |rest| == |used| && i < |rest| && !used[i]
    ensures var k, pool := |Unused(rest[..i], used[..i])|, Unused(rest, used);
            k < |pool| && pool[k] == rest[i] && RemoveAt(pool, k) == Unused(rest, used[i := true])
  {
    UnusedSplits(rest, used, i);
    UnusedSplits(rest, used[i := true], i);
    assert used[i := true][..i] == used[..i] && used[i := true][i + 1..] == used[i + 1..];
    RemovedMiddle(Unused(rest[..i], used[..i]), rest[i], Unused(rest[i + 1..], used[i + 1..]));
    assert [] + Unused(rest[i + 1..], used[i + 1..]) == Unused(rest[i + 1..], used[i + 1..]);
  }

  lemma {:induction false} UnusedMembers(rest: seq<Certificate>, used: seq<bool>)
    requires |rest| == |used|
    ensures forall c :: c in Unused(rest, used) <==> exists i :: 0 <= i < |rest| && !used[i] && rest[i] == c
  {
    if rest != [] {
      UnusedMembers(rest[1..], used[1..]);
      forall c
        ensures c in Unused(rest, used) <==> exists i :: 0 <= i < |rest| && !used[i] && rest[i] == c
      {
        if c in Unused(rest[1..], used[1..]) {
          var i :| 0 <= i < |rest[1..]| && !used[1..][i] && rest[1..][i] == c;
          assert !used[i + 1] && rest[i + 1] == c;
        }
        if i :| 0 <= i < |rest| && !used[i] && rest[i] == c {
          if i > 0 {
            assert !used[1..][i - 1] && rest[1..][i - 1] == c;
          }
        }
      }
    }
  }

  lemma FirstAfter<T>(p: T -> bool, before: seq<T>, x: T, after: seq<T>)
    requires p(x) && forall y | y in before :: !p(y)
    ensures FirstWhere(p, before + ([x] + after)) == |before|
  {
    var s := before + ([x] + after);
    var i := FirstWhere(p, s);
    assert s[|before|] == x;
    assert forall k | 0 <= k < |before| :: s[k] == before[k] && before[k] in before;
  }

  lemma FirstNowhere<T>(p: T -> bool, s: seq<T>)
    requires forall y | y in s :: !p(y)
    ensures FirstWhere(p, s) == |s|
  {
  }

  /** The scan of findIssuer picks what IssuerIn picks among the unused. */
  method FindIssuer(x: X509, child: Certificate, candidates: seq<Certificate>, used: array<bool>) returns (idx: int)
    requires used.Length == |candidates|
    ensures -1 <= idx < |candidates| && (idx >= 0 ==> !used[idx])
    ensures var pool := Unused(candidates, used[..]);
            IssuerIn(x, child, pool) == if idx < 0 then |pool| else |Unused(candidates[..idx], used[..idx])|
  {
    var nameMatch := -1;
    for i := 0 to |candidates|
      invariant -1 <= nameMatch < i
      invariant forall k | 0 <= k < i && !used[k] :: !Issued(x, child, candidates[k])
      invariant nameMatch >= 0 ==> !used[nameMatch] && NameMatch(x, child, candidates[nameMatch])
      invariant forall k | 0 <= k < (if nameMatch < 0 then i else nameMatch) && !used[k] :: !NameMatch(x, child, candidates[k])
    {
      if used[i] || !NameMatch(x, child, candidates[i]) {
        continue;
      }
      if x.verifies(child, candidates[i]) {
        VerifyingIsPicked(x, child, candidates, used[..], i);
        return i;
      }
      if nameMatch < 0 {
        nameMatch := i;
      }
    }
    if nameMatch < 0 {
      NothingIsPicked(x, child, candidates, used[..]);
    } else {
      MatchIsPicked(x, child, candidates, used[..], nameMatch);
    }
    return nameMatch;
  }

  lemma VerifyingIsPicked(x: X509, child: Certificate, candidates: seq<Certificate>, used: seq<bool>, i: nat)
    requires |used| == |candidates| && i < |candidates| && !used[i] && Issued(x, child, candidates[i])
    requires forall k | 0 <= k < i && !used[k] :: !Issued(x, child, candidates[k])
    ensures IssuerIn(x, child, Unused(candidates, used)) == |Unused(candidates[..i], used[..i])|
  {
    UnusedSplits(candidates, used, i);
    UnusedMembers(candidates[..i], used[..i]);
    FirstAfter((c: Certificate) => Issued(x, child, c), Unused(candidates[..i], used[..i]), candidates[i],
               Unused(candidates[i + 1..], used[i + 1..]));
  }

  lemma MatchIsPicked(x: X509, child: Certificate, candidates: seq<Certificate>, used: seq<bool>, i: nat)
    requires |used| == |candidates| && i < |candidates| && !used[i] && NameMatch(x, child, candidates[i])
    requires forall k | 0 <= k < |candidates| && !used[k] :: !Issued(x, child, candidates[k])
    requires forall k | 0 <= k < i && !used[k] :: !NameMatch(x, child, candidates[k])
    ensures IssuerIn(x, child, Unused(candidates, used)) == |Unused(candidates[..i], used[..i])|
  {
    UnusedMembers(candidates, used);
    FirstNowhere((c: Certificate) => Issued(x, child, c), Unused(candidates, used));
    UnusedSplits(candidates, used, i);
    UnusedMembers(candidates[..i], used[..i]);
    FirstAfter((c: Certificate) => NameMatch(x, child, c), Unused(candidates[..i], used[..i]), candidates[i],
               Unused(candidates[i + 1..], used[i + 1..]));
  }

  lemma NothingIsPicked(x: X509, child: Certificate, candidates: seq<Certificate>, used: seq<bool>)
    requires |used| == |candidates|
    requires forall k | 0 <= k < |candidates| && !used[k] :: !NameMatch(x, child, candidates[k])
    ensures IssuerIn(x, child, Unused(candidates, used)) == |Unused(candidates, used)|
  {
    UnusedMembers(candidates, used);
    FirstNowhere((c: Certificate) => Issued(x, child, c), Unused(candidates, used));
    FirstNowhere((c: Certificate) => NameMatch(x, child, c), Unused(candidates, used));
  }

  lemma {:induction false} AllUnused(rest: seq<Certificate>, used: seq<bool>)
    requires |rest| == |used| && forall i | 0 <= i < |used| :: !used[i]
    ensures Unused(rest, used) == rest
  {
    if rest != [] {
      AllUnused(rest[1..], used[1..]);
    }
  }

  /** Where a walk stands: certificates ordered so far, and the walk still ahead. */
  ghost predicate Underway(x: X509, all: (seq<Certificate>, seq<Certificate>), ordered: seq<Certificate>, current: Certificate, pool: seq<Certificate>) {
    all.0 == ordered + Walk(x, current, pool).0 && all.1 == Walk(x, current, pool).1
  }

  /** One step of the walk, in terms of the used array. */
  lemma WalkStep(x: X509, all: (seq<Certificate>, seq<Certificate>), ordered: seq<Certificate>, current: Certificate,
                 rest: seq<Certificate>, used: seq<bool>, idx: nat)
    requires |used| == |rest| && idx < |rest| && !used[idx]
    requires IssuerIn(x, current, Unused(rest, used)) == |Unused(rest[..idx], used[..idx])|
    requires Underway(x, all, ordered, current, Unused(rest, used))
    ensures var next, later := rest[idx], Unused(rest, used[idx := true]);
            && |later| < |Unused(rest, used)|
            && if IsSelfSigned(x, next) then all == (ordered + [next], later) else Underway(x, all, ordered + [next], next, later)
  {
    MarkedIsRemoved(rest, used, idx);
  }

  lemma WalkEnds(x: X509, all: (seq<Certificate>, seq<Certificate>), ordered: seq<Certificate>, current: Certificate, pool: seq<Certificate>)
    requires IssuerIn(x, current, pool) == |pool| && Underway(x, all, ordered, current, pool)
    ensures all == (ordered, pool)
  {
    assert ordered + [] == ordered;
  }

  /** The loop of orderChain: walk outwards from the leaf until nothing more links on. */
  method FollowIssuers(x: X509, leaf: Certificate, rest: seq<Certificate>, used: array<bool>) returns (ordered: seq<Certificate>)
    requires used.Length == |rest|
    modifies used
    ensures Walk(x, leaf, Unused(rest, old(used[..]))) == (ordered, Unused(rest, used[..]))
  {
    ordered := [];
    var current := leaf;
    ghost var all := Walk(x, leaf, Unused(rest, used[..]));
    assert [] + all.0 == all.0;
    while true
      invariant Underway(x, all, ordered, current, Unused(rest, used[..]))
      decreases |Unused(rest, used[..])|
    {
      var idx := FindIssuer(x, current, rest, used);
      if idx < 0 {
        WalkEnds(x, all, ordered, current, Unused(rest, used[..]));
        return ordered;
      }
      ghost var was := used[..];
      WalkStep(x, all, ordered, current, rest, was, idx);
      used[idx] := true;
      assert used[..] == was[idx := true];
      ordered := ordered + [rest[idx]];
      if IsSelfSigned(x, rest[idx]) {
        return ordered;
      }
      current := rest[idx];
    }
  }

  method OrderChain(x: X509, leaf: Certificate, rest: seq<Certificate>) returns (chain: seq<Certificate>)
    ensures chain == OrderedChain(x, leaf, rest)
  {
    if |rest| == 0 {
      return [];
    }
    var used := new bool[|rest|](_ => false);
    AllUnused(rest, used[..]);
    var ordered := FollowIssuers(x, leaf, rest, used);
    var orphans := CollectUnused(rest, used);
    return ordered + Sort(BytesLeq, orphans);
  }

  method CollectUnused(rest: seq<Certificate>, used: array<bool>) returns (orphans: seq<Certificate>)
    requires used.Length == |rest|
    ensures orphans == Unused(rest, used[..])
  {
    orphans := [];
    for i := 0 to |rest|
      invariant orphans + Unused(rest[i..], used[i..]) == Unused(rest, used[..])
    {
      assert rest[i..][1..] == rest[i + 1..] && used[i..][1..] == used[i + 1..];
      if !used[i] {
        orphans := orphans + [rest[i]];
      }
    }
  }

  // ----- What the order promises -----

  /** A best issuer of child in a pool: one that verifies, or any name match when none verifies. */
  ghost predicate IsBest(x: X509, child: Certificate, pool: multiset<Certificate>, c: Certificate) {
    c in pool && NameMatch(x, child, c) && (x.verifies(child, c) || forall d | d in pool :: !Issued(x, child, d))
  }

  lemma PickIsBest(x: X509, child: Certificate, pool: seq<Certificate>)
    ensures var i := IssuerIn(x, child, pool);
            if i < |pool| then IsBest(x, child, multiset(pool), pool[i]) else forall c | c in multiset(pool) :: !NameMatch(x, child, c)
  {
  }

  lemma {:induction false} WalkConserves(x: X509, current: Certificate, pool: seq<Certificate>)
    ensures multiset(Walk(x, current, pool).0) + multiset(Walk(x, current, pool).1) == multiset(pool)
    decreases |pool|
  {
    var i := IssuerIn(x, current, pool);
    if i < |pool| {
      RemovedOne(pool, i);
      if !IsSelfSigned(x, pool[i]) {
        WalkConserves(x, pool[i], RemoveAt(pool, i));
      }
    }
  }

  /** Conservation: no certificate is lost, repeated or made up. */
  lemma ChainConserves(x: X509, leaf: Certificate, rest: seq<Certificate>)
    ensures multiset(OrderedChain(x, leaf, rest)) == multiset(rest)
  {
    WalkConserves(x, leaf, rest);
    SortKeeps(BytesLeq, Walk(x, leaf, rest).1);
  }

  /**
   Issuer order (section 6.1 of RFC 5280 for the name chaining): each certificate is a best
   issuer of the one before it, among those not used before; the order ends with a
   self-signed certificate, or when no unused name matches.
   */
  ghost predicate IssuerOrder(x: X509, current: Certificate, linked: seq<Certificate>, left: multiset<Certificate>)
    decreases linked
  {
    if linked == [] then forall c | c in left :: !NameMatch(x, current, c)
    else
      && IsBest(x, current, multiset(linked) + left, linked[0])
      && if IsSelfSigned(x, linked[0]) then |linked| == 1 else IssuerOrder(x, linked[0], linked[1..], left)
  }

  lemma {:induction false} WalkIsIssuerOrder(x: X509, current: Certificate, pool: seq<Certificate>)
    ensures IssuerOrder(x, current, Walk(x, current, pool).0, multiset(Walk(x, current, pool).1))
    decreases |pool|
  {
    var i := IssuerIn(x, current, pool);
    PickIsBest(x, current, pool);
    WalkConserves(x, current, pool);
    if i < |pool| && !IsSelfSigned(x, pool[i]) {
      WalkIsIssuerOrder(x, pool[i], RemoveAt(pool, i));
      assert Walk(x, current, pool).0[1..] == Walk(x, pool[i], RemoveAt(pool, i)).0;
    }
  }

  /** The chain is in issuer order as far as it links, and what is left follows sorted by encoding. */
  lemma ChainIsOrdered(x: X509, leaf: Certificate, rest: seq<Certificate>) returns (k: nat)
    ensures var chain := OrderedChain(x, leaf, rest);
            k <= |chain| && IssuerOrder(x, leaf, chain[..k], multiset(chain[k..])) && Sorted(BytesLeq, chain[k..])
  {
    var (linked, left) := Walk(x, leaf, rest);
    WalkIsIssuerOrder(x, leaf, rest);
    BytesLeqIsOrder();
    SortSorts(BytesLeq, left);
    SortKeeps(BytesLeq, left);
    k := |linked|;
    assert OrderedChain(x, leaf, rest)[..k] == linked && OrderedChain(x, leaf, rest)[k..] == Sort(BytesLeq, left);
  }

  /** The certificate that chain[i] has to be the issuer of. */
  function Child(leaf: Certificate, chain: seq<Certificate>, i: nat): Certificate
    requires i <= |chain|
  {
    if i == 0 then leaf else chain[i - 1]
  }

  /** Names its own subject as its issuer, with a signature that verifies. */
  ghost predicate IsRoot(x: X509, cert: Certificate) {
    x.issuer(cert) == x.subject(cert) && x.verifies(cert, cert)
  }

  lemma {:induction false} OrderMeans(x: X509, current: Certificate, linked: seq<Certificate>, left: multiset<Certificate>, i: nat)
    requires IssuerOrder(x, current, linked, left) && i < |linked|
    ensures x.subject(linked[i]) == x.issuer(Child(current, linked, i))
    ensures !x.verifies(Child(current, linked, i), linked[i]) ==>
              forall d | d in multiset(linked[i..]) + left && x.subject(d) == x.issuer(Child(current, linked, i)) :: !x.verifies(Child(current, linked, i), d)
    ensures i < |linked| - 1 ==> !IsRoot(x, linked[i])
    ensures IsRoot(x, linked[|linked| - 1]) || forall d | d in left :: x.subject(d) != x.issuer(linked[|linked| - 1])
    decreases linked
  {
    assert linked[0..] == linked;
    if !IsRoot(x, linked[0]) && |linked| > 1 {
      OrderMeans(x, linked[0], linked[1..], left, if i > 0 then i - 1 else 0);
      assert i > 0 ==> linked[1..][i - 1..] == linked[i..];
    }
  }

  /** Certificate i of a chain is an issuer of the one before it, and verifies it if any from there on does. */
  ghost predicate LinksAt(x: X509, leaf: Certificate, chain: seq<Certificate>, i: nat)
    requires i < |chain|
  {
    var child := Child(leaf, chain, i);
    && x.subject(chain[i]) == x.issuer(child)
    && (x.verifies(child, chain[i]) || forall j | i <= j < |chain| && x.subject(chain[j]) == x.issuer(child) :: !x.verifies(child, chain[j]))
  }

  /** Nothing from k on is the issuer of the certificate before. */
  ghost predicate EndsAt(x: X509, leaf: Certificate, chain: seq<Certificate>, k: nat)
    requires k <= |chain|
  {
    forall j | k <= j < |chain| :: x.subject(chain[j]) != x.issuer(Child(leaf, chain, k))
  }

  /**
   What a chain promises: up to some point each certificate is issued by the next, which
   verifies whenever one of those still unused does; a root comes only last, and where
   there is none, nothing left over is the issuer of the last.
   */
  lemma ChainLinks(x: X509, leaf: Certificate, rest: seq<Certificate>) returns (k: nat)
    ensures var chain := OrderedChain(x, leaf, rest);
            && k <= |chain|
            && (forall i | 0 <= i < k :: LinksAt(x, leaf, chain, i))
            && (forall i | 0 <= i < k - 1 :: !IsRoot(x, chain[i]))
            && ((k > 0 && IsRoot(x, chain[k - 1])) || EndsAt(x, leaf, chain, k))
  {
    hide IssuerOrder, OrderedChain, BytesLeq, IsRoot, LinksAt, EndsAt;
    k := ChainIsOrdered(x, leaf, rest);
    var chain := OrderedChain(x, leaf, rest);
    forall i | 0 <= i < k
      ensures LinksAt(x, leaf, chain, i) && (i < k - 1 ==> !IsRoot(x, chain[i]))
    {
      LinkedAt(x, leaf, chain, k, i);
    }
    EndedAt(x, leaf, chain, k);
  }

  lemma LinkedAt(x: X509, leaf: Certificate, chain: seq<Certificate>, k: nat, i: nat)
    requires i < k <= |chain| && IssuerOrder(x, leaf, chain[..k], multiset(chain[k..]))
    ensures LinksAt(x, leaf, chain, i) && (i < k - 1 ==> !IsRoot(x, chain[i]))
  {
    hide IssuerOrder, IsRoot;
    OrderMeans(x, leaf, chain[..k], multiset(chain[k..]), i);
    forall j | i <= j < |chain|
      ensures chain[j] in multiset(chain[..k][i..]) + multiset(chain[k..])
    {
      StillUnused(chain, k, i, j);
    }
  }

  lemma EndedAt(x: X509, leaf: Certificate, chain: seq<Certificate>, k: nat)
    requires k <= |chain| && IssuerOrder(x, leaf, chain[..k], multiset(chain[k..]))
    ensures (k > 0 && IsRoot(x, chain[k - 1])) || EndsAt(x, leaf, chain, k)
  {
    hide IssuerOrder, IsRoot;
    if k > 0 {
      OrderMeans(x, leaf, chain[..k], multiset(chain[k..]), k - 1);
    } else {
      assert chain[..0] == [];
      NothingLinks(x, leaf, multiset(chain[k..]));
    }
    forall j | k <= j < |chain|
      ensures chain[j] in multiset(chain[k..])
    {
      assert chain[k..][j - k] == chain[j];
    }
  }

  lemma StillUnused(chain: seq<Certificate>, k: nat, i: nat, j: nat)
    requires i < k <= |chain| && i <= j < |chain|
    ensures chain[j] in multiset(chain[..k][i..]) + multiset(chain[k..])
  {
    if j < k {
      assert chain[..k][i..][j - i] == chain[j];
    } else {
      assert chain[k..][j - k] == chain[j];
    }
  }

  lemma NothingLinks(x: X509, leaf: Certificate, left: multiset<Certificate>)
    requires IssuerOrder(x, leaf, [], left)
    ensures forall d | d in left :: x.subject(d) != x.issuer(leaf)
  {
  }

  // ----- The chain, in terms of the input -----

  /** Where a certificate not used yet stands among the unused. */
  ghost function Place(rest: seq<Certificate>, used: seq<bool>, j: nat): nat
    requires |rest| == |used| && j < |rest|
  {
    |Unused(rest[..j], used[..j])|
  }

  lemma PlaceIs(rest: seq<Certificate>, used: seq<bool>, j: nat)
    requires |rest| == |used| && j < |rest| && !used[j]
    ensures var p := Place(rest, used, j); p < |Unused(rest, used)| && Unused(rest, used)[p] == rest[j]
  {
    UnusedSplits(rest, used, j);
  }

  lemma PlacesAreInOrder(rest: seq<Certificate>, used: seq<bool>, i: nat, j: nat)
    requires |rest| == |used| && i < j < |rest| && !used[i]
    ensures Place(rest, used, i) < Place(rest, used, j)
  {
    UnusedSplits(rest[..j], used[..j], i);
    assert rest[..j][..i] == rest[..i] && used[..j][..i] == used[..i];
  }

  lemma {:induction false} PlaceOf(rest: seq<Certificate>, used: seq<bool>, p: nat) returns (j: nat)
    requires |rest| == |used| && p < |Unused(rest, used)|
    ensures j < |rest| && !used[j] && Place(rest, used, j) == p
  {
    if !used[0] && p == 0 {
      j := 0;
      assert Unused(rest[..0], used[..0]) == [];
    } else {
      var k := PlaceOf(rest[1..], used[1..], if used[0] then p else p - 1);
      j := k + 1;
      assert rest[..j][1..] == rest[1..][..k] && used[..j][1..] == used[1..][..k];
    }
  }

  /**
   The issuer at index j: its subject is the issuer of child. It is the first unused one that
   verifies child; or, where none does, the first unused one of that name.
   */
  ghost predicate FirstIssuer(x: X509, child: Certificate, rest: seq<Certificate>, used: set<nat>, j: nat) {
    && j < |rest| && j !in used && x.subject(rest[j]) == x.issuer(child)
    && if x.verifies(child, rest[j])
       then forall i: nat | i < j && i !in used :: !(x.subject(rest[i]) == x.issuer(child) && x.verifies(child, rest[i]))
       else (forall i: nat | i < |rest| && i !in used :: !(x.subject(rest[i]) == x.issuer(child) && x.verifies(child, rest[i])))
            && forall i: nat | i < j && i !in used :: x.subject(rest[i]) != x.issuer(child)
  }

  ghost predicate NoIssuer(x: X509, child: Certificate, rest: seq<Certificate>, used: set<nat>) {
    forall i: nat | i < |rest| && i !in used :: x.subject(rest[i]) != x.issuer(child)
  }

  ghost predicate Marked(used: seq<bool>, marks: set<nat>) {
    forall j: nat | j < |used| :: used[j] <==> j in marks
  }

  /** What the scan finds, in terms of indices. */
  lemma ScanMeans(x: X509, child: Certificate, rest: seq<Certificate>, used: seq<bool>, marks: set<nat>) returns (j: int)
    requires |rest| == |used| && Marked(used, marks)
    ensures -1 <= j < |rest|
    ensures var pool := Unused(rest, used);
            IssuerIn(x, child, pool) == if j < 0 then |pool| else Place(rest, used, j)
    ensures if j < 0 then NoIssuer(x, child, rest, marks) else !used[j] && FirstIssuer(x, child, rest, marks, j)
  {
    var pool := Unused(rest, used);
    var p := IssuerIn(x, child, pool);
    j := -1;
    if p < |pool| {
      j := PlaceOf(rest, used, p);
      PlaceIs(rest, used, j);
    }
    forall i: nat | i < |rest| && !used[i]
      ensures Place(rest, used, i) < |pool| && pool[Place(rest, used, i)] == rest[i]
      ensures i < j ==> Place(rest, used, i) < p
    {
      PlaceIs(rest, used, i);
      if i < j {
        PlacesAreInOrder(rest, used, i, j);
      }
    }
  }

  /** A walk from child through the certificates at these indices, others being used already. */
  ghost predicate IsWalk(x: X509, child: Certificate, rest: seq<Certificate>, used: set<nat>, at: seq<nat>)
    decreases at
  {
    if at == [] then NoIssuer(x, child, rest, used)
    else
      && FirstIssuer(x, child, rest, used, at[0])
      && if IsRoot(x, rest[at[0]]) then |at| == 1 else IsWalk(x, rest[at[0]], rest, used + {at[0]}, at[1..])
  }

  lemma {:induction false} WalkMeans(x: X509, child: Certificate, rest: seq<Certificate>, used: seq<bool>, marks: set<nat>) returns (at: seq<nat>)
    requires |rest| == |used| && Marked(used, marks)
    ensures IsWalk(x, child, rest, marks, at)
    ensures |at| == |Walk(x, child, Unused(rest, used)).0|
    ensures forall i | 0 <= i < |at| :: at[i] < |rest| && Walk(x, child, Unused(rest, used)).0[i] == rest[at[i]]
    decreases |Unused(rest, used)|
  {
    hide FirstIssuer, NoIssuer, IssuerIn, Unused, Marked;
    var pool := Unused(rest, used);
    var j := ScanMeans(x, child, rest, used, marks);
    if j < 0 {
      at := [];
    } else {
      MarkedIsRemoved(rest, used, j);
      WalkGoesOn(x, child, pool, rest[j], Place(rest, used, j));
      if IsRoot(x, rest[j]) {
        at := [j];
      } else {
        OneMoreMark(used, marks, j);
        var later := WalkMeans(x, rest[j], rest, used[j := true], marks + {j});
        at := [j] + later;
        assert at[1..] == later;
      }
    }
  }

  lemma OneMoreMark(used: seq<bool>, marks: set<nat>, j: nat)
    requires j < |used| && Marked(used, marks)
    ensures Marked(used[j := true], marks + {j})
  {
  }

  lemma WalkGoesOn(x: X509, child: Certificate, pool: seq<Certificate>, next: Certificate, i: nat)
    requires i < |pool| && IssuerIn(x, child, pool) == i && pool[i] == next
    ensures Walk(x, child, pool).0 == [next] + if IsRoot(x, next) then [] else Walk(x, next, RemoveAt(pool, i)).0
  {
  }

  /** Bytewise: the first differing byte decides, and a beginning comes before what continues it. */
  ghost predicate BytewiseLeq(a: Bytes, b: Bytes) {
    a <= b || exists k: nat :: k < |a| && k < |b| && a[..k] == b[..k] && a[k] < b[k]
  }

  lemma BytesLeqMeans(a: Bytes, b: Bytes)
    ensures BytesLeq(a, b) <==> BytewiseLeq(a, b)
  {
    LexMeans(ByteRank, a, b);
    assert forall k: nat :: DipsAt(ByteRank, a, b, k) <==> k < |a| && k < |b| && a[..k] == b[..k] && a[k] < b[k];
  }

  /**
   The chain in terms of the input alone: the certificates at these indices, each the first
   issuer of the one before it among those not used by then, up to a root or to one whose issuer
   is not there; then everything else, bytewise in order.
   */
  lemma ChainMeans(x: X509, leaf: Certificate, rest: seq<Certificate>) returns (at: seq<nat>)
    ensures IsWalk(x, leaf, rest, {}, at)
    ensures var chain := OrderedChain(x, leaf, rest);
            && multiset(chain) == multiset(rest) && |at| <= |chain|
            && (forall i | 0 <= i < |at| :: at[i] < |rest| && chain[i] == rest[at[i]])
            && forall i, j | |at| <= i < j < |chain| :: BytewiseLeq(chain[i], chain[j])
  {
    var used := seq(|rest|, _ => false);
    AllUnused(rest, used);
    at := WalkMeans(x, leaf, rest, used, {});
    ChainConserves(x, leaf, rest);
    BytesLeqIsOrder();
    var left := Walk(x, leaf, rest).1;
    SortSorts(BytesLeq, left);
    var chain := OrderedChain(x, leaf, rest);
    forall i, j | |at| <= i < j < |chain|
      ensures BytewiseLeq(chain[i], chain[j])
    {
      assert BytesLeq(Sort(BytesLeq, left)[i - |at|], Sort(BytesLeq, left)[j - |at|]);
      BytesLeqMeans(chain[i], chain[j]);
    }
  }

  // ----- When the input order does not matter -----

  /** At every step of the walk there is at most one best issuer. */
  ghost predicate Unambiguous(x: X509, child: Certificate, pool: multiset<Certificate>)
    decreases |pool|
  {
    forall c | c in pool && IsBest(x, child, pool, c) ::
      && (forall d | d in pool && IsBest(x, child, pool, d) :: d == c)
      && (IsSelfSigned(x, c) || Unambiguous(x, c, pool - multiset{c}))
  }

  lemma PickExists(x: X509, child: Certificate, pool: seq<Certificate>)
    ensures IssuerIn(x, child, pool) < |pool| <==> exists c :: c in multiset(pool) && NameMatch(x, child, c)
  {
    PickIsBest(x, child, pool);
  }

  lemma {:induction false} WalkIgnoresOrder(x: X509, current: Certificate, a: seq<Certificate>, b: seq<Certificate>)
    requires multiset(a) == multiset(b) && Unambiguous(x, current, multiset(a))
    ensures Walk(x, current, a).0 == Walk(x, current, b).0
    ensures multiset(Walk(x, current, a).1) == multiset(Walk(x, current, b).1)
    decreases |a|
  {
    assert |multiset(a)| == |a| && |multiset(b)| == |b|;
    var i, j := IssuerIn(x, current, a), IssuerIn(x, current, b);
    PickIsBest(x, current, a);
    PickIsBest(x, current, b);
    PickExists(x, current, a);
    PickExists(x, current, b);
    if i < |a| {
      RemovedOne(a, i);
      RemovedOne(b, j);
      assert a[i] == b[j];
      if !IsSelfSigned(x, a[i]) {
        WalkIgnoresOrder(x, a[i], RemoveAt(a, i), RemoveAt(b, j));
      }
    }
  }

  /** Which index two chains first differ at. */
  ghost predicate DifferAt(a: seq<Certificate>, b: seq<Certificate>, k: nat) {
    k < |a| && k < |b| && a[k] != b[k]
  }

  lemma BestComesFirst(x: X509, child: Certificate, c: Certificate, others: seq<Certificate>)
    requires IsBest(x, child, multiset([c] + others), c)
    ensures IssuerIn(x, child, [c] + others) == 0 && RemoveAt([c] + others, 0) == others
  {
    var pool := [c] + others;
    if !x.verifies(child, c) {
      forall d | d in pool
        ensures !Issued(x, child, d)
      {
        assert d in multiset(pool);
      }
      FirstNowhere((d: Certificate) => Issued(x, child, d), pool);
    }
  }

  ghost function Listed(pool: multiset<Certificate>): (s: seq<Certificate>)
    ensures multiset(s) == pool
  {
    if pool == multiset{} then [] else
    var c :| c in pool;
    assert pool == multiset{c} + (pool - multiset{c});
    [c] + Listed(pool - multiset{c})
  }

  /** A pool listed with one of its best issuers in front starts its walk there. */
  lemma WalkFrom(x: X509, child: Certificate, pool: multiset<Certificate>, c: Certificate, others: seq<Certificate>)
    requires IsBest(x, child, pool, c) && multiset(others) == pool - multiset{c}
    ensures multiset([c] + others) == pool
    ensures var linked := Walk(x, child, [c] + others).0;
            linked != [] && linked[0] == c && (!IsSelfSigned(x, c) ==> linked == [c] + Walk(x, c, others).0)
  {
    assert multiset([c] + others) == pool;
    BestComesFirst(x, child, c, others);
  }

  lemma TwoBestDiffer(x: X509, child: Certificate, pool: multiset<Certificate>, c: Certificate, d: Certificate)
    returns (a: seq<Certificate>, b: seq<Certificate>, k: nat)
    requires IsBest(x, child, pool, c) && IsBest(x, child, pool, d) && c != d
    ensures multiset(a) == pool && multiset(b) == pool
    ensures DifferAt(Walk(x, child, a).0, Walk(x, child, b).0, k)
  {
    var others, others' := Listed(pool - multiset{c}), Listed(pool - multiset{d});
    a, b, k := [c] + others, [d] + others', 0;
    WalkFrom(x, child, pool, c, others);
    WalkFrom(x, child, pool, d, others');
  }

  /** Where an ambiguous walk is in two minds: here, or further on. */
  lemma AmbiguousAt(x: X509, child: Certificate, pool: multiset<Certificate>) returns (c: Certificate, d: Certificate)
    requires !Unambiguous(x, child, pool)
    ensures IsBest(x, child, pool, c) && IsBest(x, child, pool, d)
    ensures c != d || (!IsSelfSigned(x, c) && !Unambiguous(x, c, pool - multiset{c}))
    ensures |pool - multiset{c}| < |pool|
  {
    c :| c in pool && IsBest(x, child, pool, c) &&
      !((forall d | d in pool && IsBest(x, child, pool, d) :: d == c) && (IsSelfSigned(x, c) || Unambiguous(x, c, pool - multiset{c})));
    d := c;
    if e :| e in pool && IsBest(x, child, pool, e) && e != c {
      d := e;
    }
  }

  /** Two orders of an ambiguous pool whose walks part ways. */
  lemma {:induction false} AmbiguousWalksDiffer(x: X509, child: Certificate, pool: multiset<Certificate>)
    returns (a: seq<Certificate>, b: seq<Certificate>, k: nat)
    requires !Unambiguous(x, child, pool)
    ensures multiset(a) == pool && multiset(b) == pool
    ensures DifferAt(Walk(x, child, a).0, Walk(x, child, b).0, k)
    decreases |pool|
  {
    var c, d := AmbiguousAt(x, child, pool);
    if c != d {
      a, b, k := TwoBestDiffer(x, child, pool, c, d);
    } else {
      var p, q, i := AmbiguousWalksDiffer(x, c, pool - multiset{c});
      a, b, k := LaterWalksDiffer(x, child, pool, c, p, q, i);
    }
  }

  lemma LaterWalksDiffer(x: X509, child: Certificate, pool: multiset<Certificate>, c: Certificate,
                         p: seq<Certificate>, q: seq<Certificate>, i: nat)
    returns (a: seq<Certificate>, b: seq<Certificate>, k: nat)
    requires IsBest(x, child, pool, c) && !IsSelfSigned(x, c)
    requires multiset(p) == multiset(q) == pool - multiset{c}
    requires DifferAt(Walk(x, c, p).0, Walk(x, c, q).0, i)
    ensures multiset(a) == multiset(b) == pool
    ensures DifferAt(Walk(x, child, a).0, Walk(x, child, b).0, k)
  {
    a, b, k := [c] + p, [c] + q, i + 1;
    WalkFrom(x, child, pool, c, p);
    WalkFrom(x, child, pool, c, q);
    DifferLater(c, Walk(x, c, p).0, Walk(x, c, q).0, i);
  }

  lemma DifferLater(c: Certificate, a: seq<Certificate>, b: seq<Certificate>, k: nat)
    requires DifferAt(a, b, k)
    ensures DifferAt([c] + a, [c] + b, k + 1)
  {
  }

  /**
   The order of the input is irrelevant exactly when the walk is never in two minds: every
   permutation gives the same chain if and only if each step has at most one best issuer.
   */
  lemma OrderIsIrrelevantIff(x: X509, leaf: Certificate, rest: seq<Certificate>)
    ensures Unambiguous(x, leaf, multiset(rest)) <==>
            forall other | multiset(other) == multiset(rest) :: OrderedChain(x, leaf, other) == OrderedChain(x, leaf, rest)
  {
    if Unambiguous(x, leaf, multiset(rest)) {
      BytesLeqIsOrder();
      forall other | multiset(other) == multiset(rest)
        ensures OrderedChain(x, leaf, other) == OrderedChain(x, leaf, rest)
      {
        WalkIgnoresOrder(x, leaf, rest, other);
        SortOfPermutation(BytesLeq, Walk(x, leaf, rest).1, Walk(x, leaf, other).1);
      }
    } else {
      var a, b, k := AmbiguousWalksDiffer(x, leaf, multiset(rest));
      assert OrderedChain(x, leaf, a)[k] != OrderedChain(x, leaf, b)[k];
    }
  }

  /** At most one distinct candidate for each issuer name: no cross-signed certificates. */
  ghost predicate UniqueIssuers(x: X509, leaf: Certificate, rest: multiset<Certificate>) {
    forall child, c, d | (child == leaf || child in rest) && c in rest && d in rest && NameMatch(x, child, c) && NameMatch(x, child, d) ::
      c == d
  }

  /** A bundle without cross-signing is never ambiguous. */
  lemma {:induction false} UniqueIssuersAreUnambiguous(x: X509, leaf: Certificate, pool: multiset<Certificate>)
    requires UniqueIssuers(x, leaf, pool)
    ensures Unambiguous(x, leaf, pool)
    decreases |pool|
  {
    forall c | c in pool && IsBest(x, leaf, pool, c)
      ensures Unambiguous(x, c, pool - multiset{c})
    {
      assert forall d :: d in pool - multiset{c} ==> d in pool;
      UniqueIssuersAreUnambiguous(x, c, pool - multiset{c});
    }
  }
}
