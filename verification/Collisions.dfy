/** Making certificate names unique (resolveNameCollisions in wildcard.go). */
module Collisions {
  import opened Sorting
  import opened Text
  import opened Naming
  import opened Packing

  function NameOf(cert: CertificateRequest): string {
    cert.name
  }

  function Names(certs: seq<CertificateRequest>): seq<string> {
    Map(NameOf, certs)
  }

  function Fallback(rules: NameRules, cert: CertificateRequest): string {
    rules.fallback(cert.name, Join(cert.dnsNames, ','))
  }

  function Renamed(rules: NameRules, cert: CertificateRequest, seen: seq<string>): CertificateRequest {
    if cert.name in seen then cert.(name := Fallback(rules, cert)) else cert
  }

  /** Each certificate in turn keeps its name unless a name actually used before it is the same. */
  function Resolved(rules: NameRules, certs: seq<CertificateRequest>): (r: seq<CertificateRequest>)
    ensures |r| == |certs|
  {
    if certs == [] then [] else
    var before := Resolved(rules, certs[..|certs| - 1]);
    before + [Renamed(rules, certs[|certs| - 1], Names(before))]
  }

  lemma {:induction false} ResolvedPrefix(rules: NameRules, certs: seq<CertificateRequest>, n: nat)
    requires n <= |certs|
    ensures Resolved(rules, certs)[..n] == Resolved(rules, certs[..n])
    decreases |certs|
  {
    if n == |certs| {
      assert certs[..n] == certs;
    } else {
      var init := certs[..|certs| - 1];
      ResolvedPrefix(rules, init, n);
      assert init[..n] == certs[..n];
    }
  }

  lemma ResolvedAt(rules: NameRules, certs: seq<CertificateRequest>, i: nat)
    requires i < |certs|
    ensures var r := Resolved(rules, certs); r[i] == Renamed(rules, certs[i], Names(r[..i]))
  {
    ResolvedPrefix(rules, certs, i + 1);
    ResolvedPrefix(rules, certs, i);
    assert certs[..i + 1][..i] == certs[..i];
    var r := Resolved(rules, certs);
    assert r[i] == r[..i + 1][i];
  }

  method ResolveNameCollisions(rules: NameRules, certs: array<CertificateRequest>)
    modifies certs
    ensures certs[..] == Resolved(rules, old(certs[..]))
  {
    ghost var was := certs[..];
    var seen: set<string> := {};
    for i := 0 to certs.Length
      invariant certs[..i] == Resolved(rules, was[..i]) && certs[i..] == was[i..]
      invariant seen == Elements(Names(Resolved(rules, was[..i])))
    {
      assert certs[i] == certs[i..][0] && certs[i..][1..] == was[i..][1..];
      ResolvedStep(rules, was, i);
      var cert := certs[i];
      var name := cert.name;
      if name in seen {
        name := Fallback(rules, cert);
      }
      seen := seen + {name};
      certs[i] := cert.(name := name);
    }
    assert was[..certs.Length] == was;
  }

  lemma ResolvedStep(rules: NameRules, certs: seq<CertificateRequest>, i: nat)
    requires i < |certs|
    ensures var before, next := Resolved(rules, certs[..i]), Renamed(rules, certs[i], Names(Resolved(rules, certs[..i])));
            && Resolved(rules, certs[..i + 1]) == before + [next]
            && Elements(Names(before + [next])) == Elements(Names(before)) + {next.name}
  {
    assert certs[..i + 1][..i] == certs[..i];
    var before, next := Resolved(rules, certs[..i]), Renamed(rules, certs[i], Names(Resolved(rules, certs[..i])));
    MapAppend(NameOf, before, [next]);
  }

  /** Whether certificate i has to give up its name, told from the names before repair alone. */
  ghost predicate Taken(rules: NameRules, certs: seq<CertificateRequest>, i: nat)
    requires i < |certs|
    decreases i
  {
    exists j | 0 <= j < i ::
      certs[j].name == certs[i].name || (Taken(rules, certs, j) && Fallback(rules, certs[j]) == certs[i].name)
  }

  /** The name certificate i ends up with. */
  ghost function FinalName(rules: NameRules, certs: seq<CertificateRequest>, i: nat): string
    requires i < |certs|
  {
    if Taken(rules, certs, i) then Fallback(rules, certs[i]) else certs[i].name
  }

  /** A name is taken exactly when an earlier certificate ends up with it. */
  lemma {:induction false} TakenMeansUsed(rules: NameRules, certs: seq<CertificateRequest>, i: nat)
    requires i < |certs|
    ensures Taken(rules, certs, i) <==> exists j | 0 <= j < i :: FinalName(rules, certs, j) == certs[i].name
    decreases i
  {
    if Taken(rules, certs, i) {
      var j :| 0 <= j < i &&
        (certs[j].name == certs[i].name || (Taken(rules, certs, j) && Fallback(rules, certs[j]) == certs[i].name));
      if FinalName(rules, certs, j) != certs[i].name {
        TakenMeansUsed(rules, certs, j);
        var k :| 0 <= k < j && FinalName(rules, certs, k) == certs[j].name;
        assert FinalName(rules, certs, k) == certs[i].name;
      }
    }
  }

  /** Repair changes nothing but names, and each final name is the predicted one. */
  lemma {:induction false} ResolvedIsFinal(rules: NameRules, certs: seq<CertificateRequest>, i: nat)
    requires i < |certs|
    ensures Resolved(rules, certs)[i] == certs[i].(name := FinalName(rules, certs, i))
    decreases i
  {
    var r := Resolved(rules, certs);
    ResolvedAt(rules, certs, i);
    TakenMeansUsed(rules, certs, i);
    forall j | 0 <= j < i
      ensures Names(r[..i])[j] == FinalName(rules, certs, j)
    {
      ResolvedIsFinal(rules, certs, j);
    }
    if certs[i].name in Names(r[..i]) {
      var j :| 0 <= j < i && Names(r[..i])[j] == certs[i].name;
    }
  }

  /** Where repair goes wrong: a fallback name that is an earlier natural or fallback name. */
  ghost predicate Clash(rules: NameRules, certs: seq<CertificateRequest>, j: nat, i: nat)
    requires j < i < |certs|
  {
    && Taken(rules, certs, i)
    && (Fallback(rules, certs[i]) == certs[j].name
        || (Taken(rules, certs, j) && Fallback(rules, certs[i]) == Fallback(rules, certs[j])))
  }

  lemma NoClashNoRepeat(rules: NameRules, certs: seq<CertificateRequest>, j: nat, i: nat)
    requires j < i < |certs| && !Clash(rules, certs, j, i)
    ensures FinalName(rules, certs, j) != FinalName(rules, certs, i)
  {
    TakenMeansUsed(rules, certs, i);
  }

  lemma ClashRepeats(rules: NameRules, certs: seq<CertificateRequest>, j: nat, i: nat) returns (k: nat)
    requires j < i < |certs| && Clash(rules, certs, j, i)
    ensures k < i && FinalName(rules, certs, k) == FinalName(rules, certs, i)
  {
    k := j;
    if FinalName(rules, certs, j) != FinalName(rules, certs, i) {
      TakenMeansUsed(rules, certs, j);
      k :| 0 <= k < j && FinalName(rules, certs, k) == certs[j].name;
    }
  }

  /** Repair makes names unique exactly when no fallback name clashes with what came before it. */
  lemma RepairIsUniqueIff(rules: NameRules, certs: seq<CertificateRequest>)
    ensures Distinct(Names(Resolved(rules, certs))) <==> forall j, i | 0 <= j < i < |certs| :: !Clash(rules, certs, j, i)
  {
    var names := Names(Resolved(rules, certs));
    forall i | 0 <= i < |certs|
      ensures names[i] == FinalName(rules, certs, i)
    {
      ResolvedIsFinal(rules, certs, i);
    }
    if j, i :| 0 <= j < i < |certs| && Clash(rules, certs, j, i) {
      var k := ClashRepeats(rules, certs, j, i);
      assert names[k] == names[i];
    } else {
      forall j, i | 0 <= j < i < |certs|
        ensures names[j] != names[i]
      {
        NoClashNoRepeat(rules, certs, j, i);
      }
    }
  }

  /** The short digest tells the SAN lists of a plan apart. */
  ghost predicate DigestSeparates(digest: ShortDigest, certs: seq<CertificateRequest>) {
    forall j, i | 0 <= j < i < |certs| :: digest(Join(certs[j].dnsNames, ',')) != digest(Join(certs[i].dnsNames, ','))
  }

  /** A name that lost its claim, has no room for the suffix, and is cut back to an earlier name. */
  ghost predicate CutBack(digest: ShortDigest, certs: seq<CertificateRequest>, j: nat, i: nat)
    requires j < i < |certs|
  {
    && |certs[i].name| + SUFFIX_LENGTH > MAX_VAULT_NAME_LENGTH
    && Taken(VaultNames(digest), certs, i)
    && Fallback(VaultNames(digest), certs[i]) == certs[j].name
  }

  /** Among sorted names whose digests differ, being cut back is the only way to clash. */
  lemma ClashIsCutBack(digest: ShortDigest, certs: seq<CertificateRequest>, j: nat, i: nat)
    requires j < i < |certs| && NameLeq(certs[j], certs[i])
    requires digest(Join(certs[j].dnsNames, ',')) != digest(Join(certs[i].dnsNames, ','))
    ensures Clash(VaultNames(digest), certs, j, i) <==> CutBack(digest, certs, j, i)
  {
    hide Taken;
    DisambiguatedEndsWithDigest(digest, certs[i].name, Join(certs[i].dnsNames, ','));
    DisambiguatedEndsWithDigest(digest, certs[j].name, Join(certs[j].dnsNames, ','));
    if |certs[i].name| + SUFFIX_LENGTH <= MAX_VAULT_NAME_LENGTH {
      FallbackIsFresh(digest, certs[j], certs[i]);
    }
  }

  /**
   The input being sorted is what makes repair all but sound: a fallback name that keeps its
   original whole sorts after every natural name met so far, and two fallback names differ in
   their digests. Names come out distinct exactly when none is cut back to an earlier one.
   */
  lemma RepairIsUniqueUnlessCutBack(digest: ShortDigest, certs: seq<CertificateRequest>)
    requires Sorted(NameLeq, certs) && DigestSeparates(digest, certs)
    ensures Distinct(Names(Resolved(VaultNames(digest), certs))) <==> forall j, i | 0 <= j < i < |certs| :: !CutBack(digest, certs, j, i)
  {
    hide Clash, CutBack, Taken, Resolved, NameLeq;
    RepairIsUniqueIff(VaultNames(digest), certs);
    forall j, i | 0 <= j < i < |certs|
      ensures Clash(VaultNames(digest), certs, j, i) <==> CutBack(digest, certs, j, i)
    {
      ClashIsCutBack(digest, certs, j, i);
    }
  }

  lemma FinalNames(rules: NameRules, certs: seq<CertificateRequest>, i: nat)
    requires i < |certs|
    ensures |Names(Resolved(rules, certs))| == |certs| && Names(Resolved(rules, certs))[i] == FinalName(rules, certs, i)
  {
    ResolvedIsFinal(rules, certs, i);
  }

  /** More closely, two certificates share a name only if the later was cut back to the name of the earlier. */
  lemma RepeatIsCutBack(digest: ShortDigest, certs: seq<CertificateRequest>, j: nat, i: nat)
    requires Sorted(NameLeq, certs) && DigestSeparates(digest, certs) && j < i < |certs|
    requires FinalName(VaultNames(digest), certs, j) == FinalName(VaultNames(digest), certs, i)
    ensures CutBack(digest, certs, j, i) && certs[j].name == FinalName(VaultNames(digest), certs, j)
  {
    hide Taken, NameLeq, Fallback;
    if !Clash(VaultNames(digest), certs, j, i) {
      NoClashNoRepeat(VaultNames(digest), certs, j, i);
    }
    ClashIsCutBack(digest, certs, j, i);
  }

  /** And a name something is cut back to is always shared. */
  lemma CutBackRepeats(digest: ShortDigest, certs: seq<CertificateRequest>, j: nat, i: nat) returns (k: nat)
    requires j < i < |certs| && CutBack(digest, certs, j, i)
    ensures k < i && FinalName(VaultNames(digest), certs, k) == FinalName(VaultNames(digest), certs, i) == certs[j].name
  {
    hide Taken, Fallback;
    k := ClashRepeats(VaultNames(digest), certs, j, i);
  }

  /** So names that are short enough to take the suffix whole always come out distinct. */
  lemma RepairIsUnique(digest: ShortDigest, certs: seq<CertificateRequest>)
    requires Sorted(NameLeq, certs) && DigestSeparates(digest, certs)
    requires forall c | c in certs :: |c.name| + SUFFIX_LENGTH <= MAX_VAULT_NAME_LENGTH
    ensures Distinct(Names(Resolved(VaultNames(digest), certs)))
  {
    hide Resolved, NameLeq, Fallback;
    RepairIsUniqueUnlessCutBack(digest, certs);
  }

  lemma FallbackIsFresh(digest: ShortDigest, earlier: CertificateRequest, later: CertificateRequest)
    requires NameLeq(earlier, later)
    requires |later.name| + SUFFIX_LENGTH <= MAX_VAULT_NAME_LENGTH
    requires digest(Join(earlier.dnsNames, ',')) != digest(Join(later.dnsNames, ','))
    ensures Fallback(VaultNames(digest), later) != earlier.name
    ensures Fallback(VaultNames(digest), later) != Fallback(VaultNames(digest), earlier)
  {
    LeqIsOrder();
    DisambiguatedSortsAfter(digest, later.name, Join(later.dnsNames, ','));
    DisambiguatedEndsWithDigest(digest, later.name, Join(later.dnsNames, ','));
    DisambiguatedEndsWithDigest(digest, earlier.name, Join(earlier.dnsNames, ','));
  }

  /** Repair never touches zones or SANs. */
  lemma {:induction false} ResolvedKeepsSans(rules: NameRules, certs: seq<CertificateRequest>)
    ensures Sans(Resolved(rules, certs)) == Sans(certs)
  {
    forall i | 0 <= i < |certs|
      ensures Resolved(rules, certs)[i].dnsNames == certs[i].dnsNames
    {
      ResolvedIsFinal(rules, certs, i);
    }
    SansByDnsNames(Resolved(rules, certs), certs);
  }

  lemma {:induction false} SansByDnsNames(a: seq<CertificateRequest>, b: seq<CertificateRequest>)
    requires |a| == |b| && forall i | 0 <= i < |a| :: a[i].dnsNames == b[i].dnsNames
    ensures Sans(a) == Sans(b)
  {
    if a != [] {
      SansByDnsNames(a[1..], b[1..]);
    }
  }
}
