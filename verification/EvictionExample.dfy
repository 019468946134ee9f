/** Two zones for which the run of Evictions takes place, whatever digest is used. */
module EvictionExample {
  import opened Outcomes
  import opened Sorting
  import opened Text
  import opened Naming
  import opened Zones
  import opened Packing
  import opened Collisions
  import opened Planning
  import opened PlanStability
  import opened PinnedNames
  import opened RepairLimits
  import opened SmallPlans
  import opened Planner
  import opened Cluster
  import opened Reconciling
  import opened Evictions

  /** A policy that issues zone wildcards, one certificate at most, and prunes. */
  function ZonesPolicy(zones: seq<string>): Policy {
    Policy("policy", zones, 1, PerZone, true, "", Prune, None)
  }

  // ----- What a policy without hosts asks for -----

  ghost function OwnWildcards(zones: set<string>): map<string, set<string>> {
    map z | z in zones :: {SeedOf(z)}
  }

  /** Without hosts, each zone requires its own wildcard and nothing else. */
  lemma NoHostsRequireSeeds(input: PlanInput)
    requires input.hosts == [] && input.issueZoneWildcards
    requires Allowlist(ZoneSet(input.zones)) && Tidy(ZoneSet(input.zones))
    ensures Required(Elements(AllHosts(input)), ZoneSet(input.zones)) == OwnWildcards(ZoneSet(input.zones))
  {
    hide Required, SeedOf, DemandOf, Allowlist, Tidy, OwnWildcards, NormalizeHost;
    AllHostsSplit(input);
    SeedHostsAre(input);
    assert Elements(NormalizeAll([])) == {};
    SeedsRequireThemselves(Elements(AllHosts(input)), ZoneSet(input.zones));
  }

  lemma SeedsRequireThemselves(hosts: set<string>, zones: set<string>)
    requires Allowlist(zones) && Tidy(zones)
    requires forall h :: h in hosts <==> exists z :: z in zones && h == SeedOf(z)
    ensures Required(hosts, zones) == OwnWildcards(zones)
  {
    forall z | z in zones
      ensures Demands(zones)(SeedOf(z)) == Needs(z, SeedOf(z))
    {
      SeedDemandsItself(z, zones);
    }
    RequiredByDemand(hosts, Demands(zones), zones);
  }

  lemma RequiredByDemand(hosts: set<string>, demand: string -> Demand, zones: set<string>)
    requires forall z | z in zones :: demand(SeedOf(z)) == Needs(z, SeedOf(z))
    requires forall h :: h in hosts <==> exists z :: z in zones && h == SeedOf(z)
    ensures RequiredBy(hosts, demand, zones) == OwnWildcards(zones)
  {
    forall z | z in zones
      ensures NeededBy(hosts, demand, z) == {SeedOf(z)}
    {
      assert SeedOf(z) in hosts;
    }
  }

  /** The certificate for a zone's own wildcard. */
  function Own(name: string, zone: string): CertificateRequest {
    CertificateRequest(name, zone, [SeedOf(zone)])
  }

  function OwnPart(zone: string): Part {
    Part(zone, SeedOf(zone), [SeedOf(zone)])
  }

  /** One zone gives one certificate. */
  lemma OneZone(rules: NameRules, zone: string, name: string)
    requires rules.derive(SeedOf(zone)) == Ok(name)
    ensures Natural(rules, OwnWildcards({zone}), PerZone) == Ok([Own(name, zone)])
  {
    OwnRequest(rules, zone, name);
    OneZonePlan(rules, OwnWildcards({zone}), OwnPart(zone), Own(name, zone));
  }

  /** Two zones give two. */
  lemma TwoZones(rules: NameRules, a: string, b: string, nameA: string, nameB: string)
    requires a != b && Leq(a, b) && Leq(nameA, nameB)
    requires rules.derive(SeedOf(a)) == Ok(nameA) && rules.derive(SeedOf(b)) == Ok(nameB)
    ensures Natural(rules, OwnWildcards({a, b}), PerZone) == Ok([Own(nameA, a), Own(nameB, b)])
  {
    OwnRequest(rules, a, nameA);
    OwnRequest(rules, b, nameB);
    TwoZonePlan(rules, OwnWildcards({a, b}), OwnPart(a), OwnPart(b), Own(nameA, a), Own(nameB, b));
  }

  lemma OwnRequest(rules: NameRules, zone: string, name: string)
    requires rules.derive(SeedOf(zone)) == Ok(name)
    ensures NewRequest(rules, OwnPart(zone)) == Ok(Own(name, zone))
    ensures PerZoneNameSeed(rules, zone, [SeedOf(zone)]) == SeedOf(zone)
  {
    SortsToItself(SeedOf(zone));
    assert SeedOf(zone) in [SeedOf(zone)];
  }

  // ----- The two zones -----

  /** A zone of one letter under "io". */
  function Zone(letter: char): string {
    [letter] + ".io"
  }

  function ZoneName(letter: char): string {
    WILDCARD_PREFIX + ([letter] + "-io")
  }

  lemma ZoneIsNormal(letter: char)
    requires 'a' <= letter <= 'z'
    ensures NormalizeHost(Zone(letter)) == Zone(letter) && NormalizeHost(SeedOf(Zone(letter))) == SeedOf(Zone(letter))
  {
    NormalIsFixpoint(Zone(letter));
    NormalIsFixpoint(SeedOf(Zone(letter)));
  }

  lemma ZoneIsUsable(registry: Registry, letter: char)
    requires 'a' <= letter <= 'z' && registry(Zone(letter))
    ensures IsNormal(Zone(letter)) && Issuable(registry, Zone(letter))
  {
  }

  lemma ZoneNameIsValid(letter: char)
    requires 'a' <= letter <= 'z'
    ensures ValidName(ZoneName(letter))
  {
    AllNameCharsAppend(WILDCARD_PREFIX, [letter] + "-io");
  }

  lemma ZoneNameIsSpelt(letter: char)
    requires 'a' <= letter <= 'z'
    ensures Spelling(SeedOf(Zone(letter))) == ZoneName(letter)
  {
    hide Spelling;
    WildcardSpelling(Zone(letter));
    ZoneIsDashed(letter);
  }

  lemma ZoneIsDashed(letter: char)
    requires 'a' <= letter <= 'z'
    ensures Dashed(Zone(letter)) == [letter] + "-io"
  {
  }

  lemma ZoneNameIsDerived(digest: ShortDigest, letter: char)
    requires 'a' <= letter <= 'z'
    ensures DeriveVaultCertificateName(digest, SeedOf(Zone(letter))) == Ok(ZoneName(letter))
  {
    ZoneIsNormal(letter);
    ZoneNameIsSpelt(letter);
    ZoneNameIsValid(letter);
    NameFromSpelling(digest, SeedOf(Zone(letter)), ZoneName(letter));
  }

  lemma NameFromSpelling(digest: ShortDigest, host: string, name: string)
    requires host != "" && Spelling(host) == name && ValidName(name)
    ensures NameOfHost(digest, host) == Ok(name)
  {
  }

  lemma ZonesInOrder(a: char, b: char)
    requires a < b
    ensures Zone(a) != Zone(b) && Leq(Zone(a), Zone(b))
    ensures ZoneName(a) != ZoneName(b) && Leq(ZoneName(a), ZoneName(b))
  {
    assert Zone(a)[0] == a && Zone(b)[0] == b;
    var x, y := [a] + "-io", [b] + "-io";
    assert x[0] == a && y[0] == b;
    LexCommonPrefix(Rank, WILDCARD_PREFIX, x, y);
    assert ZoneName(a)[|WILDCARD_PREFIX|] == a && ZoneName(b)[|WILDCARD_PREFIX|] == b;
  }

  /** What the policy asks for without hosts, for zones given in normal form. */
  lemma AskedOfZones(rules: NameRules, registry: Registry, zones: seq<string>, all: seq<CertificateRequest>)
    requires zones != [] && (forall z | z in zones :: NormalizeHost(z) == z && Issuable(registry, z)) && Tidy(Elements(zones))
    requires Natural(rules, OwnWildcards(Elements(zones)), PerZone) == Ok(all) && Distinct(Names(all))
    ensures AsksFor(rules, registry, ZonesPolicy(zones), [], all)
  {
    NormalHostsStay(zones);
    var input := InputOf([], SpecFor(ZonesPolicy(zones), []));
    assert ZoneSet(input.zones) == Elements(zones);
    UncappedOfZones(rules, registry, input, all);
  }

  lemma UncappedOfZones(rules: NameRules, registry: Registry, input: PlanInput, all: seq<CertificateRequest>)
    requires ZonesUsable(registry, input.zones) && Tidy(ZoneSet(input.zones))
    requires input.hosts == [] && input.issueZoneWildcards && input.grouping == PerZone
    requires Natural(rules, OwnWildcards(ZoneSet(input.zones)), PerZone) == Ok(all) && Distinct(Names(all))
    ensures Uncapped(rules, input) == Ok(all)
  {
    hide ZonesUsable;
    UsableZonesAreAllowlist(registry, input.zones);
    NoHostsRequireSeeds(input);
    DistinctNeedNoRepair(rules, all);
  }

  lemma OneZoneAsks(rules: NameRules, registry: Registry, zone: string, name: string)
    requires IsNormal(zone) && Issuable(registry, zone) && rules.derive(SeedOf(zone)) == Ok(name)
    ensures AsksFor(rules, registry, ZonesPolicy([zone]), [], [Own(name, zone)])
  {
    hide AsksFor, NormalizeHost;
    NormalIsFixpoint(zone);
    OneZone(rules, zone, name);
    assert Elements([zone]) == {zone};
    AskedOfZones(rules, registry, [zone], [Own(name, zone)]);
  }

  lemma TwoZonesAsk(rules: NameRules, registry: Registry, a: string, b: string, nameA: string, nameB: string)
    requires IsNormal(a) && IsNormal(b) && Issuable(registry, a) && Issuable(registry, b)
    requires a != b && Leq(a, b) && nameA != nameB && Leq(nameA, nameB)
    requires rules.derive(SeedOf(a)) == Ok(nameA) && rules.derive(SeedOf(b)) == Ok(nameB)
    ensures AsksFor(rules, registry, ZonesPolicy([a, b]), [], [Own(nameA, a), Own(nameB, b)])
  {
    hide AsksFor, NormalizeHost, IsNormal, Issuable, Leq, Natural, OwnWildcards, Tidy, Names;
    TwoZones(rules, a, b, nameA, nameB);
    BothUsable(registry, a, b);
    DistinctPair(Own(nameA, a), Own(nameB, b));
    AskedOfZones(rules, registry, [a, b], [Own(nameA, a), Own(nameB, b)]);
  }

  lemma BothUsable(registry: Registry, a: string, b: string)
    requires IsNormal(a) && IsNormal(b) && Issuable(registry, a) && Issuable(registry, b)
    ensures Elements([a, b]) == {a, b} && Tidy({a, b})
    ensures forall z | z in [a, b] :: NormalizeHost(z) == z && Issuable(registry, z)
  {
    hide NormalizeHost;
    NormalIsFixpoint(a);
    NormalIsFixpoint(b);
  }

  lemma DistinctPair(a: CertificateRequest, b: CertificateRequest)
    requires a.name != b.name
    ensures Distinct(Names([a, b]))
  {
  }

  /**
   Under the operator's own rules, for any digest and any registry that knows two such
   zones: a pass over the second zone alone is interrupted after its first write; the first
   zone is added; the next pass deletes the Certificate it finds to make room for a new one.
   */
  lemma AddingAZoneEvicts(digest: ShortDigest, registry: Registry, a: char, b: char) returns (first: Pass, second: Pass)
    requires 'a' <= a < b <= 'z' && registry(Zone(a)) && registry(Zone(b))
    ensures IsPass(VaultNames(digest), registry, first) && first.policy == ZonesPolicy([Zone(b)])
    ensures IsPass(VaultNames(digest), registry, second) && second.policy == ZonesPolicy([Zone(a), Zone(b)])
    ensures first.before == NO_RESOURCES && second.before == first.after
    ensures Evicts(second, [ZoneName(a), ZoneName(b)], ZoneName(b), ZoneName(a))
  {
    hide IsPass, DeriveVaultCertificateName, Leq, IsNormal, Issuable, Mine;
    ZoneIsUsable(registry, a);
    ZoneIsUsable(registry, b);
    ZoneNameIsDerived(digest, a);
    ZoneNameIsDerived(digest, b);
    ZonesInOrder(a, b);
    first, second := NamedZonesEvict(VaultNames(digest), registry, Zone(a), Zone(b), ZoneName(a), ZoneName(b));
  }

  lemma NamedZonesEvict(rules: NameRules, registry: Registry, a: string, b: string, nameA: string, nameB: string) returns (first: Pass, second: Pass)
    requires IsNormal(a) && IsNormal(b) && Issuable(registry, a) && Issuable(registry, b)
    requires a != b && Leq(a, b) && nameA != nameB && Leq(nameA, nameB)
    requires rules.derive(SeedOf(a)) == Ok(nameA) && rules.derive(SeedOf(b)) == Ok(nameB)
    ensures IsPass(rules, registry, first) && first.policy == ZonesPolicy([b])
    ensures IsPass(rules, registry, second) && second.policy == ZonesPolicy([a, b])
    ensures first.before == NO_RESOURCES && second.before == first.after
    ensures Evicts(second, [nameA, nameB], nameB, nameA)
  {
    hide AsksFor, IsPass;
    OneZoneAsks(rules, registry, b, nameB);
    TwoZonesAsk(rules, registry, a, b, nameA, nameB);
    first, second := EvictionRun(rules, registry, ZonesPolicy([b]), ZonesPolicy([a, b]), [], Own(nameA, a), Own(nameB, b));
    assert Names([Own(nameA, a), Own(nameB, b)]) == [nameA, nameB];
  }
}
