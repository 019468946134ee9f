/** What certificate names promise across a whole plan. */
module PlanNames {
  import opened Outcomes
  import opened Sorting
  import opened Text
  import opened Naming
  import opened Zones
  import opened Packing
  import opened Collisions
  import opened Limit
  import opened Planning
  import opened PlanTheorems
  import opened PlanStability

  // ----- Names are legal and truthful -----

  /** Under the operator's rules a zone is named after one of its own SANs. */
  lemma PrimaryBelongs(digest: ShortDigest, hosts: set<string>, zones: set<string>)
    requires Allowlist(zones) && Tidy(zones) && AllLower(hosts)
    ensures PrimaryIsMember(VaultNames(digest), Required(hosts, zones))
  {
    hide NormalizeHost, DemandOf, SortedSet;
    var required := Required(hosts, zones);
    forall z | z in required
      ensures VaultNames(digest).primary(SortedSet(required[z])) in required[z]
    {
      forall san | san in required[z]
        ensures NormalizeHost(san) == san && san != ""
      {
        RequiredUnderOneZone(hosts, zones, z, san);
        NeededIsNormal(hosts, zones, san);
      }
      RequiredNotEmpty(hosts, zones, z);
      PrimaryOfNormalNames(SortedSet(required[z]), required[z]);
    }
  }

  lemma RequiredNotEmpty(hosts: set<string>, zones: set<string>, zone: string)
    requires zone in Required(hosts, zones)
    ensures Required(hosts, zones)[zone] != {}
  {
  }

  lemma PrimaryOfNormalNames(list: seq<string>, names: set<string>)
    requires list == SortedSet(names) && names != {}
    requires forall n | n in names :: NormalizeHost(n) == n && n != ""
    ensures Primary(list) in names
  {
    SortedSetHolds(names);
    assert forall n :: n in list <==> n in Elements(list);
    NormalHostsStay(list);
    BestIsMember(list);
  }

  lemma BestIsMember(list: seq<string>)
    requires list != [] && "" !in list
    ensures PrimaryFrom(list, "") in list
  {
    PrimaryFromIsPrimary(list, "", {});
    assert list[0] in {} + Elements(list);
  }

  /** Every certificate name of a plan is a valid Key Vault name. */
  lemma PlanNamesAreLegal(digest: ShortDigest, registry: Registry, input: PlanInput, plan: Plan, cert: CertificateRequest)
    requires IsPlan(VaultNames(digest), registry, input, Ok(plan)) && cert in plan.certificates
    ensures ValidName(cert.name)
  {
    hide NormalizeHost, DemandOf, Natural, IsPlan, Truthful;
    var certs, keep := PlanWitness(VaultNames(digest), registry, input, plan);
    var i := UncappedCertificate(VaultNames(digest), input, certs, keep, cert);
    var required := Required(Elements(AllHosts(input)), ZoneSet(input.zones));
    FinalNameIsLegal(digest, Natural(VaultNames(digest), required, Defaulted(input.grouping)).value, i, required);
  }

  lemma FinalNameIsLegal(digest: ShortDigest, natural: seq<CertificateRequest>, i: nat, required: map<string, set<string>>)
    requires i < |natural| && Truthful(VaultNames(digest), natural[i], required)
    ensures ValidName(FinalName(VaultNames(digest), natural, i))
  {
    TruthfulNameIsShort(digest, natural[i], required);
    DisambiguatedIsValid(digest, natural[i].name, Join(natural[i].dnsNames, ','));
  }

  /** A natural name is valid, and no longer than its seed with the wildcard spelt out. */
  lemma TruthfulNameIsShort(digest: ShortDigest, cert: CertificateRequest, required: map<string, set<string>>)
    requires Truthful(VaultNames(digest), cert, required)
    ensures ValidName(cert.name)
    ensures PrimaryIsMember(VaultNames(digest), required) && (forall san | san in cert.dnsNames :: NormalizeHost(san) == san) ==>
              exists san :: san in cert.dnsNames && |cert.name| <= |san| + |WILDCARD_PREFIX| - |WILDCARD|
  {
    var rules := VaultNames(digest);
    var seed :| rules.derive(seed) == Ok(cert.name) && (PrimaryIsMember(rules, required) ==> seed in cert.dnsNames);
    DerivationSucceedsIff(digest, seed);
  }

  /** Named after a SAN it carries, or by the fallback for that name. */
  ghost predicate NamedAfter(digest: ShortDigest, cert: CertificateRequest, san: string) {
    && san in cert.dnsNames && DeriveVaultCertificateName(digest, san).Ok?
    && var name := DeriveVaultCertificateName(digest, san).value;
       cert.name == name || cert.name == DisambiguateVaultName(digest, name, Join(cert.dnsNames, ','))
  }

  /**
   Each certificate is named after a SAN it carries, or, when that name was taken, by its
   fallback: a listener wired to the name gets a certificate that serves it.
   */
  lemma PlanNamesAreTruthful(digest: ShortDigest, registry: Registry, input: PlanInput, plan: Plan, cert: CertificateRequest)
    requires IsPlan(VaultNames(digest), registry, input, Ok(plan)) && cert in plan.certificates
    requires Tidy(ZoneSet(input.zones))
    ensures exists san :: NamedAfter(digest, cert, san)
  {
    hide NormalizeHost, DemandOf, Natural, IsPlan, Truthful, NamedAfter;
    var certs, keep := PlanWitness(VaultNames(digest), registry, input, plan);
    var i := UncappedCertificate(VaultNames(digest), input, certs, keep, cert);
    var required := Required(Elements(AllHosts(input)), ZoneSet(input.zones));
    AllHostsAreLower(input);
    PrimaryBelongs(digest, Elements(AllHosts(input)), ZoneSet(input.zones));
    FinalNameIsTruthful(digest, Natural(VaultNames(digest), required, Defaulted(input.grouping)).value, i, required, cert);
  }

  lemma FinalNameIsTruthful(digest: ShortDigest, natural: seq<CertificateRequest>, i: nat, required: map<string, set<string>>, cert: CertificateRequest)
    requires i < |natural| && Truthful(VaultNames(digest), natural[i], required) && PrimaryIsMember(VaultNames(digest), required)
    requires cert == natural[i].(name := FinalName(VaultNames(digest), natural, i))
    ensures exists san :: NamedAfter(digest, cert, san)
  {
    TruthfulSeed(digest, natural[i], required);
    var san :| san in natural[i].dnsNames && DeriveVaultCertificateName(digest, san) == Ok(natural[i].name);
    assert NamedAfter(digest, cert, san);
  }

  lemma TruthfulSeed(digest: ShortDigest, cert: CertificateRequest, required: map<string, set<string>>)
    requires Truthful(VaultNames(digest), cert, required) && PrimaryIsMember(VaultNames(digest), required)
    ensures exists san :: san in cert.dnsNames && DeriveVaultCertificateName(digest, san) == Ok(cert.name)
  {
    var rules := VaultNames(digest);
    var seed :| rules.derive(seed) == Ok(cert.name) && seed in cert.dnsNames;
    assert DeriveVaultCertificateName(digest, seed) == rules.derive(seed);
  }

  // ----- Names are distinct -----

  /** Different SAN lists of a plan have different short digests. */
  ghost predicate NoDigestCollision(digest: ShortDigest, certs: seq<CertificateRequest>) {
    forall c, d | c in certs && d in certs && c.dnsNames != d.dnsNames :: digest(Join(c.dnsNames, ',')) != digest(Join(d.dnsNames, ','))
  }

  /** The longest SAN whose certificate name still has room for a digest. */
  const MAX_ROOMY_SAN: nat := MAX_VAULT_NAME_LENGTH - SUFFIX_LENGTH - (|WILDCARD_PREFIX| - |WILDCARD|)

  /** The certificates of a plan before repair, sorted by name. */
  ghost function Unrepaired(digest: ShortDigest, input: PlanInput): Result<seq<CertificateRequest>> {
    Natural(VaultNames(digest), Required(Elements(AllHosts(input)), ZoneSet(input.zones)), Defaulted(input.grouping))
  }

  /** What the theorems about repeated names need of a plan. */
  lemma UnrepairedIsSorted(digest: ShortDigest, input: PlanInput, certs: seq<CertificateRequest>) returns (natural: seq<CertificateRequest>)
    requires Uncapped(VaultNames(digest), input) == Ok(certs) && NoDigestCollision(digest, certs)
    requires Allowlist(ZoneSet(input.zones)) && Tidy(ZoneSet(input.zones))
    ensures Unrepaired(digest, input) == Ok(natural) && certs == Resolved(VaultNames(digest), natural)
    ensures Sorted(NameLeq, natural) && DigestSeparates(digest, natural)
    ensures forall c | c in natural :: Truthful(VaultNames(digest), c, Required(Elements(AllHosts(input)), ZoneSet(input.zones)))
  {
    hide NormalizeHost, DemandOf, Natural, Resolved, Truthful, NoDigestCollision, DigestSeparates, Required, RequiredSans, NameLeq;
    AllHostsAreLower(input);
    natural := SortedAndSeparate(digest, Elements(AllHosts(input)), ZoneSet(input.zones), Defaulted(input.grouping), certs);
  }

  lemma SortedAndSeparate(digest: ShortDigest, hosts: set<string>, zones: set<string>, grouping: Grouping, certs: seq<CertificateRequest>)
    returns (natural: seq<CertificateRequest>)
    requires Allowlist(zones) && Tidy(zones) && AllLower(hosts)
    requires Grouped(VaultNames(digest), Required(hosts, zones), grouping) == Ok(certs) && NoDigestCollision(digest, certs)
    ensures Natural(VaultNames(digest), Required(hosts, zones), grouping) == Ok(natural) && certs == Resolved(VaultNames(digest), natural)
    ensures Sorted(NameLeq, natural) && DigestSeparates(digest, natural)
    ensures forall c | c in natural :: Truthful(VaultNames(digest), c, Required(hosts, zones))
  {
    hide Natural, Resolved, Truthful, NoDigestCollision, DigestSeparates, Required, RequiredSans, NameLeq, Tidy, AllLower, Sans;
    var required := Required(hosts, zones);
    natural := Natural(VaultNames(digest), required, grouping).value;
    NaturalHolds(VaultNames(digest), required, grouping);
    PrimaryBelongs(digest, hosts, zones);
    RequiredIsNeeded(hosts, zones);
    AtMostOnceEach(Sans(natural), AllNeeded(hosts, zones));
    DisjointListsSeparate(digest, natural, certs, required);
  }

  lemma AtMostOnceEach(sans: multiset<string>, needed: set<string>)
    requires sans == multiset(needed)
    ensures forall san :: sans[san] <= 1
  {
  }

  /** The names of a plan before its cap are distinct exactly when none is cut back to an earlier one. */
  lemma UncappedNamesAreDistinctIff(digest: ShortDigest, input: PlanInput, certs: seq<CertificateRequest>) returns (natural: seq<CertificateRequest>)
    requires Uncapped(VaultNames(digest), input) == Ok(certs) && NoDigestCollision(digest, certs)
    requires Allowlist(ZoneSet(input.zones)) && Tidy(ZoneSet(input.zones))
    ensures Unrepaired(digest, input) == Ok(natural)
    ensures Distinct(Names(certs)) <==> forall j, i | 0 <= j < i < |natural| :: !CutBack(digest, natural, j, i)
  {
    hide Uncapped, NoDigestCollision, CutBack, Resolved, Unrepaired, Truthful, Required, NameLeq, DigestSeparates;
    natural := UnrepairedIsSorted(digest, input, certs);
    RepairIsUniqueUnlessCutBack(digest, natural);
  }

  /** Whether something is cut back to one of these names. */
  ghost predicate CutBackTo(digest: ShortDigest, natural: seq<CertificateRequest>, among: set<string>) {
    exists j, i :: 0 <= j < i < |natural| && CutBack(digest, natural, j, i) && natural[j].name in among
  }

  /** Exactly when a plan repeats a name, whatever the cap: when it holds a name that something is cut back to. */
  lemma PlanNamesAreDistinctIff(digest: ShortDigest, registry: Registry, input: PlanInput, plan: Plan) returns (natural: seq<CertificateRequest>)
    requires IsPlan(VaultNames(digest), registry, input, Ok(plan)) && Tidy(ZoneSet(input.zones))
    requires NoDigestCollision(digest, Uncapped(VaultNames(digest), input).value)
    ensures Unrepaired(digest, input) == Ok(natural)
    ensures Distinct(Names(plan.certificates)) <==> !CutBackTo(digest, natural, Elements(Names(plan.certificates)))
  {
    hide NormalizeHost, DemandOf, Uncapped, IsPlan, NoDigestCollision, CutBackTo, Resolved, Unrepaired, Truthful, Required, NameLeq,
         DigestSeparates, IsSelection, Tidy, Allowlist;
    var certs, keep := PlanWitness(VaultNames(digest), registry, input, plan);
    natural := UnrepairedIsSorted(digest, input, certs);
    KeptNamesAreDistinctIff(digest, natural, certs, keep);
  }

  lemma KeptNamesAreDistinctIff(digest: ShortDigest, natural: seq<CertificateRequest>, certs: seq<CertificateRequest>, keep: set<string>)
    requires Sorted(NameLeq, natural) && DigestSeparates(digest, natural) && certs == Resolved(VaultNames(digest), natural)
    ensures Distinct(Names(Kept(certs, keep))) <==> !CutBackTo(digest, natural, Elements(Names(Kept(certs, keep))))
  {
    hide CutBackTo, Repeats, Resolved, NameLeq, DigestSeparates, VaultNames, Kept, Keeping, Distinct;
    NamesOfKept(certs, keep);
    KeptIsDistinctIff(Names(certs), keep);
    RepeatsAreCutBack(digest, natural, keep);
    CutBackToKept(digest, natural, certs, keep);
  }

  lemma CutBackToKept(digest: ShortDigest, natural: seq<CertificateRequest>, certs: seq<CertificateRequest>, keep: set<string>)
    requires certs == Resolved(VaultNames(digest), natural)
    ensures CutBackTo(digest, natural, keep) <==> CutBackTo(digest, natural, Elements(Names(Kept(certs, keep))))
  {
    hide CutBack, Resolved, VaultNames, Kept, FinalName;
    forall j, i | 0 <= j < i < |natural| && CutBack(digest, natural, j, i)
      ensures natural[j].name in keep <==> natural[j].name in Elements(Names(Kept(certs, keep)))
    {
      var k := CutBackRepeats(digest, natural, j, i);
      FinalNames(VaultNames(digest), natural, i);
      InKeptNames(certs, keep, natural[j].name);
    }
  }

  lemma RepeatsAreCutBack(digest: ShortDigest, natural: seq<CertificateRequest>, among: set<string>)
    requires Sorted(NameLeq, natural) && DigestSeparates(digest, natural)
    ensures Repeats(Names(Resolved(VaultNames(digest), natural)), among) <==> CutBackTo(digest, natural, among)
  {
    hide CutBack, Resolved, NameLeq, DigestSeparates, FinalName, VaultNames;
    var rules := VaultNames(digest);
    var names := Names(Resolved(rules, natural));
    if j, i :| 0 <= j < i < |names| && names[j] == names[i] && names[j] in among {
      FinalNames(rules, natural, j);
      FinalNames(rules, natural, i);
      RepeatIsCutBack(digest, natural, j, i);
    }
    if j, i :| 0 <= j < i < |natural| && CutBack(digest, natural, j, i) && natural[j].name in among {
      var k := CutBackRepeats(digest, natural, j, i);
      FinalNames(rules, natural, k);
      FinalNames(rules, natural, i);
    }
  }

  /**
   So no two certificates of a plan share a name, kept or over the cap, as long as the SANs
   are not so long that a repaired name has to be truncated.
   */
  lemma PlanNamesAreDistinct(digest: ShortDigest, registry: Registry, input: PlanInput, plan: Plan)
    requires IsPlan(VaultNames(digest), registry, input, Ok(plan))
    requires Tidy(ZoneSet(input.zones))
    requires forall san | san in AllNeeded(Elements(AllHosts(input)), ZoneSet(input.zones)) :: |san| <= MAX_ROOMY_SAN
    requires NoDigestCollision(digest, Uncapped(VaultNames(digest), input).value)
    ensures Distinct(Names(Uncapped(VaultNames(digest), input).value))
    ensures Distinct(Names(plan.certificates))
  {
    hide NormalizeHost, DemandOf, Uncapped, IsPlan, NoDigestCollision;
    var certs, keep := PlanWitness(VaultNames(digest), registry, input, plan);
    UncappedNamesAreDistinct(digest, input, certs);
    NamesOfKept(certs, keep);
    KeepingStaysDistinct(Names(certs), keep);
  }

  lemma UncappedNamesAreDistinct(digest: ShortDigest, input: PlanInput, certs: seq<CertificateRequest>)
    requires Uncapped(VaultNames(digest), input) == Ok(certs)
    requires Allowlist(ZoneSet(input.zones)) && Tidy(ZoneSet(input.zones))
    requires forall san | san in AllNeeded(Elements(AllHosts(input)), ZoneSet(input.zones)) :: |san| <= MAX_ROOMY_SAN
    requires NoDigestCollision(digest, certs)
    ensures Distinct(Names(certs))
  {
    hide Uncapped, NoDigestCollision, Resolved, Truthful, Required, NameLeq, DigestSeparates, AllNeeded, Tidy;
    var natural := UnrepairedIsSorted(digest, input, certs);
    AllHostsAreLower(input);
    NaturalNamesAreShort(digest, Elements(AllHosts(input)), ZoneSet(input.zones), natural);
    RepairIsUnique(digest, natural);
  }

  // ----- The cap -----

  /** Whether something is cut back to a name that the cap lets through, told before it is applied. */
  ghost predicate CutBackInside(digest: ShortDigest, natural: seq<CertificateRequest>, names: seq<string>, max: int, existing: set<string>) {
    exists j, i :: 0 <= j < i < |natural| && CutBack(digest, natural, j, i) && natural[j].name in names && |Ahead(names, existing, natural[j].name)| < max
  }

  /**
   Exactly when a plan keeps to its cap, in terms of its input alone: when there are no more
   certificates than the cap to begin with, or nothing is cut back to a name inside it.
   */
  lemma PlanKeepsItsCapUnlessCutBack(digest: ShortDigest, registry: Registry, input: PlanInput, plan: Plan) returns (natural: seq<CertificateRequest>)
    requires IsPlan(VaultNames(digest), registry, input, Ok(plan)) && Tidy(ZoneSet(input.zones)) && input.maxCertificates > 0
    requires NoDigestCollision(digest, Uncapped(VaultNames(digest), input).value)
    ensures Unrepaired(digest, input) == Ok(natural)
    ensures var names := Names(Resolved(VaultNames(digest), natural));
            |plan.certificates| <= input.maxCertificates <==>
            |natural| <= input.maxCertificates || !CutBackInside(digest, natural, names, input.maxCertificates, Elements(input.existing))
  {
    hide NormalizeHost, DemandOf, Uncapped, IsPlan, NoDigestCollision, CutBackTo, CutBackInside, Resolved, Unrepaired, Truthful, Required, NameLeq,
         DigestSeparates, IsSelection, Tidy, Allowlist, Distinct, NoDigestCollision, Kept, Dropped, AllHosts, Skips, Overflowed;
    var certs, keep := PlanWitness(VaultNames(digest), registry, input, plan);
    natural := UnrepairedIsSorted(digest, input, certs);
    KeptNamesAreDistinctIff(digest, natural, certs, keep);
    CutBackToKept(digest, natural, certs, keep);
    PlanKeepsItsCapIff(VaultNames(digest), registry, input, plan);
    if |natural| > input.maxCertificates {
      InsideIsKept(digest, natural, input.maxCertificates, Elements(input.existing), keep);
    }
  }

  lemma InsideIsKept(digest: ShortDigest, natural: seq<CertificateRequest>, max: int, existing: set<string>, keep: set<string>)
    requires 0 < max < |natural|
    requires IsSelection(Names(Resolved(VaultNames(digest), natural)), max, existing, keep)
    ensures CutBackInside(digest, natural, Names(Resolved(VaultNames(digest), natural)), max, existing) <==> CutBackTo(digest, natural, keep)
  {
    hide CutBack, Resolved, IsSelection, VaultNames, Ahead, Names;
    forall j, i | 0 <= j < i < |natural| && CutBack(digest, natural, j, i)
      ensures var names := Names(Resolved(VaultNames(digest), natural));
              natural[j].name in names && (natural[j].name in keep <==> |Ahead(names, existing, natural[j].name)| < max)
    {
      CutBackNameIsKeptIff(digest, natural, max, existing, keep, j, i);
    }
  }

  lemma CutBackNameIsKeptIff(digest: ShortDigest, natural: seq<CertificateRequest>, max: int, existing: set<string>, keep: set<string>, j: nat, i: nat)
    requires 0 < max < |natural| && j < i < |natural| && CutBack(digest, natural, j, i)
    requires IsSelection(Names(Resolved(VaultNames(digest), natural)), max, existing, keep)
    ensures var names := Names(Resolved(VaultNames(digest), natural));
            natural[j].name in names && (natural[j].name in keep <==> |Ahead(names, existing, natural[j].name)| < max)
  {
    hide CutBack, Resolved, IsSelection, VaultNames, FinalName, Ahead;
    var names := Names(Resolved(VaultNames(digest), natural));
    var k := CutBackRepeats(digest, natural, j, i);
    FinalNames(VaultNames(digest), natural, i);
    assert names[i] == natural[j].name;
    KeptIff(names, max, existing, keep, natural[j].name);
  }

  /** So a plan whose SANs have at most 111 characters keeps to its cap. */
  lemma RoomyPlanKeepsItsCap(digest: ShortDigest, registry: Registry, input: PlanInput, plan: Plan)
    requires IsPlan(VaultNames(digest), registry, input, Ok(plan)) && Tidy(ZoneSet(input.zones)) && input.maxCertificates > 0
    requires forall san | san in AllNeeded(Elements(AllHosts(input)), ZoneSet(input.zones)) :: |san| <= MAX_ROOMY_SAN
    requires NoDigestCollision(digest, Uncapped(VaultNames(digest), input).value)
    ensures |plan.certificates| == Min(|Uncapped(VaultNames(digest), input).value|, input.maxCertificates)
  {
    hide NormalizeHost, DemandOf, Uncapped, IsPlan, NoDigestCollision, AllNeeded, Tidy, Distinct;
    PlanNamesAreDistinct(digest, registry, input, plan);
    PlanKeepsItsCapIff(VaultNames(digest), registry, input, plan);
    NoMoreThanUncapped(VaultNames(digest), registry, input, plan);
  }

  lemma NoMoreThanUncapped(rules: NameRules, registry: Registry, input: PlanInput, plan: Plan)
    requires IsPlan(rules, registry, input, Ok(plan))
    ensures Uncapped(rules, input).Ok? && |plan.certificates| <= |Uncapped(rules, input).value|
  {
    hide Uncapped, IsSelection;
    var certs, keep := PlanWitness(rules, registry, input, plan);
    LimitSplits(certs, keep);
    assert |multiset(certs)| == |multiset(Kept(certs, keep))| + |multiset(Dropped(certs, keep))|;
  }

  /** With no comma in a SAN, joined lists can be told apart, so only the hash itself can collide. */
  lemma OnlyTheHashCollides(digest: ShortDigest, certs: seq<CertificateRequest>)
    requires forall c | c in certs :: c.dnsNames != [] && forall san | san in c.dnsNames :: ',' !in san
    ensures NoDigestCollision(digest, certs) <==>
            forall c, d | c in certs && d in certs && Join(c.dnsNames, ',') != Join(d.dnsNames, ',') ::
              digest(Join(c.dnsNames, ',')) != digest(Join(d.dnsNames, ','))
  {
    forall c, d | c in certs && d in certs
      ensures c.dnsNames == d.dnsNames <==> Join(c.dnsNames, ',') == Join(d.dnsNames, ',')
    {
      if Join(c.dnsNames, ',') == Join(d.dnsNames, ',') {
        JoinInjective(c.dnsNames, d.dnsNames, ',');
      }
    }
  }

  lemma NaturalNamesAreShort(digest: ShortDigest, hosts: set<string>, zones: set<string>, natural: seq<CertificateRequest>)
    requires Allowlist(zones) && Tidy(zones) && AllLower(hosts)
    requires forall san | san in AllNeeded(hosts, zones) :: |san| <= MAX_ROOMY_SAN
    requires forall c | c in natural :: Truthful(VaultNames(digest), c, Required(hosts, zones))
    ensures forall c | c in natural :: |c.name| + SUFFIX_LENGTH <= MAX_VAULT_NAME_LENGTH
  {
    hide AllNeeded, Required, Truthful, VaultNames, PrimaryIsMember, Tidy, Allowlist, AllLower;
    PrimaryBelongs(digest, hosts, zones);
    forall c | c in natural
      ensures |c.name| + SUFFIX_LENGTH <= MAX_VAULT_NAME_LENGTH
    {
      NaturalNameIsShort(digest, hosts, zones, c);
    }
  }

  lemma NaturalNameIsShort(digest: ShortDigest, hosts: set<string>, zones: set<string>, cert: CertificateRequest)
    requires Allowlist(zones) && Tidy(zones) && AllLower(hosts)
    requires forall san | san in AllNeeded(hosts, zones) :: |san| <= MAX_ROOMY_SAN
    requires Truthful(VaultNames(digest), cert, Required(hosts, zones)) && PrimaryIsMember(VaultNames(digest), Required(hosts, zones))
    ensures |cert.name| + SUFFIX_LENGTH <= MAX_VAULT_NAME_LENGTH
  {
    hide NormalizeHost, DemandOf, AllNeeded, Required, PrimaryIsMember, VaultNames;
    forall san | san in cert.dnsNames
      ensures |san| <= MAX_ROOMY_SAN && NormalizeHost(san) == san
    {
      RequiredUnderOneZone(hosts, zones, cert.zone, san);
      NeededIsNormal(hosts, zones, san);
    }
    TruthfulNameIsShort(digest, cert, Required(hosts, zones));
  }

  lemma DisjointListsSeparate(digest: ShortDigest, natural: seq<CertificateRequest>, certs: seq<CertificateRequest>, required: map<string, set<string>>)
    requires certs == Resolved(VaultNames(digest), natural) && NoDigestCollision(digest, certs)
    requires forall c | c in natural :: Truthful(VaultNames(digest), c, required)
    requires PrimaryIsMember(VaultNames(digest), required)
    requires forall san :: Sans(natural)[san] <= 1
    ensures DigestSeparates(digest, natural)
  {
    hide Truthful, Resolved, FinalName, VaultNames, PrimaryIsMember;
    forall j, i | 0 <= j < i < |natural|
      ensures digest(Join(natural[j].dnsNames, ',')) != digest(Join(natural[i].dnsNames, ','))
    {
      TruthfulSeed(digest, natural[j], required);
      var san :| san in natural[j].dnsNames;
      CountedOnceIsDisjoint(natural, j, i, san);
      ResolvedIsFinal(VaultNames(digest), natural, j);
      ResolvedIsFinal(VaultNames(digest), natural, i);
      assert certs[j] in certs && certs[i] in certs;
    }
  }
}
