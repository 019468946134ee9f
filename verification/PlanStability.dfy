/** How a plan answers to a change of its input. */
module PlanStability {
  import opened Outcomes
  import opened Sorting
  import opened Text
  import opened Naming
  import opened Zones
  import opened Packing
  import opened Collisions
  import opened Limit
  import opened Planning
  import opened PlanTheorems

  // ----- Determinism -----

  /** Inputs that differ only in the order and repetition of their hosts, zones and existing names. */
  ghost predicate SameInputs(a: PlanInput, b: PlanInput) {
    && Elements(NormalizeAll(a.hosts)) == Elements(NormalizeAll(b.hosts))
    && SameSettings(a, b)
  }

  ghost predicate SameSettings(a: PlanInput, b: PlanInput) {
    && ZoneSet(a.zones) == ZoneSet(b.zones)
    && Elements(a.existing) == Elements(b.existing)
    && a.maxCertificates == b.maxCertificates
    && Defaulted(a.grouping) == Defaulted(b.grouping)
    && a.issueZoneWildcards == b.issueZoneWildcards
  }

  ghost function SeedHosts(input: PlanInput): seq<string> {
    if input.issueZoneWildcards then NormalizeAll(Seeds(SortedSet(ZoneSet(input.zones)))) else []
  }

  lemma AllHostsSplit(input: PlanInput)
    ensures AllHosts(input) == SeedHosts(input) + NormalizeAll(input.hosts)
    ensures Elements(AllHosts(input)) == Elements(SeedHosts(input)) + Elements(NormalizeAll(input.hosts))
  {
    if input.issueZoneWildcards {
      MapAppend(NormalizeHost, Seeds(SortedSet(ZoneSet(input.zones))), input.hosts);
    } else {
      assert [] + NormalizeAll(input.hosts) == NormalizeAll(input.hosts);
    }
  }

  // ----- What a plan is about -----

  ghost predicate IsNormalized(raw: seq<string>, host: string) {
    exists i :: 0 <= i < |raw| && host == NormalizeHost(raw[i])
  }

  /** The wildcard of a zone, as a host. */
  ghost predicate IsZoneWildcard(zones: seq<string>, host: string) {
    exists i :: 0 <= i < |zones| && host == NormalizeHost("*." + NormalizeHost(zones[i]))
  }

  /** A plan looks at the discovered hosts and, when zone wildcards are issued, at the wildcard of each zone; at nothing else. */
  lemma AllHostsMean(input: PlanInput, host: string)
    ensures host in AllHosts(input) <==>
            IsNormalized(input.hosts, host) || (input.issueZoneWildcards && IsZoneWildcard(input.zones, host))
  {
    hide NormalizeHost, AllHosts, IsNormalized, IsZoneWildcard;
    AllHostsSplit(input);
    assert host in AllHosts(input) <==> host in Elements(AllHosts(input));
    NormalizedMeans(input.hosts, host);
    if input.issueZoneWildcards {
      ZoneWildcardsMean(input.zones, host);
    }
  }

  lemma NormalizedMeans(raw: seq<string>, host: string)
    ensures host in Elements(NormalizeAll(raw)) <==> IsNormalized(raw, host)
  {
    hide NormalizeHost;
    if i :| 0 <= i < |raw| && host == NormalizeHost(raw[i]) {
      assert NormalizeAll(raw)[i] == host;
    }
  }

  lemma ZoneWildcardsMean(zones: seq<string>, host: string)
    ensures host in Elements(NormalizeAll(Seeds(SortedSet(ZoneSet(zones))))) <==> IsZoneWildcard(zones, host)
  {
    hide NormalizeHost, SortedSet;
    var order := SortedSet(ZoneSet(zones));
    SortedSetHolds(ZoneSet(zones));
    MapMembers(SeedOf, order);
    MapMembers(NormalizeHost, Seeds(order));
    MapMembers(NormalizeHost, zones);
    if host in NormalizeAll(Seeds(order)) {
      var seed :| seed in Seeds(order) && host == NormalizeHost(seed);
      var zone :| zone in order && seed == SeedOf(zone);
      assert zone in Elements(order);
      var i :| 0 <= i < |zones| && NormalizeAll(zones)[i] == zone;
      assert host == NormalizeHost("*." + NormalizeHost(zones[i]));
    }
    if i :| 0 <= i < |zones| && host == NormalizeHost("*." + NormalizeHost(zones[i])) {
      assert NormalizeAll(zones)[i] in Elements(order);
      assert SeedOf(NormalizeAll(zones)[i]) in Seeds(order);
    }
  }

  /** Only discovered hosts, and the wildcards of the zones where those are issued, have anything issued. */
  lemma EverySanIsAskedFor(rules: NameRules, registry: Registry, input: PlanInput, plan: Plan, cert: CertificateRequest, san: string)
    returns (host: string)
    requires IsPlan(rules, registry, input, Ok(plan))
    requires cert in plan.certificates && san in cert.dnsNames
    ensures Covers(san, host)
    ensures IsNormalized(input.hosts, host) || (input.issueZoneWildcards && IsZoneWildcard(input.zones, host))
  {
    hide IsPlan, DemandOf, NormalizeHost, AllHosts;
    EverySanIsDemanded(rules, registry, input, plan, cert, san);
    host :| host in AllHosts(input) && DemandOf(host, ZoneSet(input.zones)) == Needs(cert.zone, san) && Covers(san, host);
    AllHostsMean(input, host);
  }

  lemma UsableBySet(registry: Registry, a: seq<string>, b: seq<string>)
    requires ZoneSet(a) == ZoneSet(b)
    ensures ZonesUsable(registry, a) <==> ZonesUsable(registry, b)
  {
    assert a == [] <==> ZoneSet(a) == {} by {
      if a != [] {
        assert NormalizeAll(a)[0] in ZoneSet(a);
      }
    }
    assert b == [] <==> ZoneSet(b) == {} by {
      if b != [] {
        assert NormalizeAll(b)[0] in ZoneSet(b);
      }
    }
    assert forall z :: z in NormalizeAll(a) <==> z in ZoneSet(a);
    assert forall z :: z in NormalizeAll(b) <==> z in ZoneSet(b);
  }

  /** The uncapped certificates depend on the settings and on the set of hosts alone. */
  lemma UncappedBySet(rules: NameRules, a: PlanInput, b: PlanInput)
    requires SameInputs(a, b)
    ensures Uncapped(rules, a) == Uncapped(rules, b)
  {
    AllHostsSplit(a);
    AllHostsSplit(b);
  }

  /**
   The plan is deterministic. Its certificates, or its error, do not change when hosts,
   zones or existing names are permuted or repeated; permuting the hosts leaves the whole
   plan as it was, skipped list included.
   */
  lemma PlanIsDeterministic(rules: NameRules, registry: Registry, a: PlanInput, b: PlanInput, ra: Result<Plan>, rb: Result<Plan>)
    requires IsPlan(rules, registry, a, ra) && IsPlan(rules, registry, b, rb) && SameInputs(a, b)
    ensures ra.Ok? <==> rb.Ok?
    ensures ra.Err? ==> ra == rb
    ensures ra.Ok? ==> ra.value.certificates == rb.value.certificates
    ensures multiset(NormalizeAll(a.hosts)) == multiset(NormalizeAll(b.hosts)) ==> ra == rb
  {
    UsableBySet(registry, a.zones, b.zones);
    UncappedBySet(rules, a, b);
    if ra.Ok? {
      var certs, keep := PlanWitness(rules, registry, a, ra.value);
      var _, keep' := PlanWitness(rules, registry, b, rb.value);
      SelectionIsUnique(Names(certs), a.maxCertificates, Elements(a.existing), keep, keep');
      if multiset(NormalizeAll(a.hosts)) == multiset(NormalizeAll(b.hosts)) {
        AllHostsSplit(a);
        AllHostsSplit(b);
        SkipsOfPermutation(AllHosts(a), AllHosts(b), ZoneSet(a.zones));
        ArrangementIsIrrelevant(Skips(AllHosts(a), ZoneSet(a.zones)), Skips(AllHosts(b), ZoneSet(a.zones)), Overflowed(Dropped(certs, keep)));
      }
    }
  }

  // ----- More hosts, and the plan's own SANs as hosts -----

  /** More hosts only ever grow what each zone requires. */
  lemma RequiredIsMonotone(few: set<string>, many: set<string>, zones: set<string>, zone: string)
    requires few <= many && zone in Required(few, zones)
    ensures zone in Required(many, zones) && Required(few, zones)[zone] <= Required(many, zones)[zone]
  {
    var demand := Demands(zones);
    assert NeededBy(few, demand, zone) <= NeededBy(many, demand, zone);
  }

  lemma NeededIsMonotone(few: set<string>, many: set<string>, zones: set<string>)
    requires few <= many
    ensures AllNeeded(few, zones) <= AllNeeded(many, zones)
  {
  }

  /** Without a cap, adding hosts never uncovers a SAN, and never moves one to another zone. */
  lemma MoreHostsKeepEverySan(rules: NameRules, registry: Registry, a: PlanInput, b: PlanInput, p: Plan, q: Plan, cert: CertificateRequest, san: string)
    returns (other: CertificateRequest)
    requires IsPlan(rules, registry, a, Ok(p)) && IsPlan(rules, registry, b, Ok(q))
    requires SameSettings(a, b) && a.maxCertificates <= 0
    requires Elements(NormalizeAll(a.hosts)) <= Elements(NormalizeAll(b.hosts))
    requires cert in p.certificates && san in cert.dnsNames
    ensures other in q.certificates && san in other.dnsNames && other.zone == cert.zone
  {
    var zones := ZoneSet(a.zones);
    AllHostsSplit(a);
    AllHostsSplit(b);
    NeededIsMonotone(Elements(AllHosts(a)), Elements(AllHosts(b)), zones);
    CarriedIsNeeded(rules, registry, a, p, cert, san);
    UncappedPlanCarriesAll(rules, registry, b, q);
    assert san in multiset(AllNeeded(Elements(AllHosts(b)), zones));
    var i := CountedSansAreCarried(q.certificates, san);
    other := q.certificates[i];
    CarriedIsNeeded(rules, registry, b, q, other, san);
  }

  lemma CarriedIsNeeded(rules: NameRules, registry: Registry, input: PlanInput, plan: Plan, cert: CertificateRequest, san: string)
    requires IsPlan(rules, registry, input, Ok(plan))
    requires cert in plan.certificates && san in cert.dnsNames
    ensures san in AllNeeded(Elements(AllHosts(input)), ZoneSet(input.zones))
    ensures DemandOf(san, ZoneSet(input.zones)) == Needs(cert.zone, san)
  {
    var certs, keep := PlanWitness(rules, registry, input, plan);
    var i := UncappedCertificate(rules, input, certs, keep, cert);
    RequiredUnderOneZone(Elements(AllHosts(input)), ZoneSet(input.zones), cert.zone, san);
  }

  lemma UncappedPlanCarriesAll(rules: NameRules, registry: Registry, input: PlanInput, plan: Plan)
    requires IsPlan(rules, registry, input, Ok(plan)) && input.maxCertificates <= 0
    ensures Uncapped(rules, input) == Ok(plan.certificates)
    ensures Sans(plan.certificates) == multiset(AllNeeded(Elements(AllHosts(input)), ZoneSet(input.zones)))
    ensures plan.skipped == Sort(SkipLeq, Skips(AllHosts(input), ZoneSet(input.zones)) + [])
  {
    var certs, keep := PlanWitness(rules, registry, input, plan);
    NamesHoldNames(certs);
    KeepAll(certs, keep);
    UncappedCarriesEachOnce(rules, input);
  }

  /** What the SANs demand is what the hosts that led to them demand. */
  lemma SansDemandThemselves(hosts: set<string>, seeds: set<string>, zones: set<string>)
    requires Allowlist(zones) && seeds <= hosts
    ensures Required(seeds + AllNeeded(hosts, zones), zones) == Required(hosts, zones)
  {
    var sans := AllNeeded(hosts, zones);
    var demand := Demands(zones);
    forall zone
      ensures NeededBy(seeds + sans, demand, zone) == NeededBy(hosts, demand, zone)
    {
      forall san | san in NeededBy(hosts, demand, zone)
        ensures san in NeededBy(seeds + sans, demand, zone)
      {
        var h :| h in hosts && demand(h) == Needs(zone, san);
        NeededSan(h, zones, zone, san);
        assert san in sans && demand(san) == Needs(zone, san);
      }
      forall san | san in NeededBy(seeds + sans, demand, zone)
        ensures san in NeededBy(hosts, demand, zone)
      {
        var s :| s in seeds + sans && demand(s) == Needs(zone, san);
        if s !in seeds {
          var h :| h in hosts && DemandOf(h, zones).Needs? && DemandOf(h, zones).san == s;
          NeededSan(h, zones, DemandOf(h, zones).zone, s);
          assert demand(h) == Needs(zone, san);
        }
      }
    }
  }

  /** A zone's own wildcard, as a host, asks for itself. */
  lemma SeedDemandsItself(zone: string, zones: set<string>)
    requires Allowlist(zones) && Tidy(zones) && zone in zones
    ensures NormalizeHost(SeedOf(zone)) == SeedOf(zone)
    ensures DemandOf(SeedOf(zone), zones) == Needs(zone, SeedOf(zone))
  {
    NormalIsFixpoint(SeedOf(zone));
    forall z | z in zones && Within(zone, z)
      ensures |z| <= |zone|
    {
      WithinIsSuffix(zone, z);
    }
    assert SeedOf(zone)[2..] == zone;
    BestZoneIs(zone, zones, zone);
  }

  lemma SeedHostsAre(input: PlanInput)
    requires Allowlist(ZoneSet(input.zones)) && Tidy(ZoneSet(input.zones))
    ensures forall h :: h in SeedHosts(input) <==> input.issueZoneWildcards && exists z :: z in ZoneSet(input.zones) && h == SeedOf(z)
  {
    if input.issueZoneWildcards {
      SeedsAre(ZoneSet(input.zones), SortedSet(ZoneSet(input.zones)));
    }
  }

  lemma SeedsAre(zones: set<string>, order: seq<string>)
    requires Allowlist(zones) && Tidy(zones) && order == SortedSet(zones)
    ensures forall h :: h in NormalizeAll(Seeds(order)) <==> exists z :: z in zones && h == SeedOf(z)
  {
    SortedSetHolds(zones);
    MapMembers(SeedOf, order);
    assert forall z :: z in order <==> z in Elements(order);
    forall h | h in Seeds(order)
      ensures NormalizeHost(h) == h
    {
      var z :| z in order && h == SeedOf(z);
      SeedDemandsItself(z, zones);
    }
    NormalHostsStay(Seeds(order));
  }

  lemma HostsThatAskSkipNothing(hosts: seq<string>, zones: set<string>)
    requires forall h | h in hosts :: DemandOf(h, zones).Needs?
    ensures Skips(hosts, zones) == []
  {
    var skips := Skips(hosts, zones);
    if skips != [] {
      var e := skips[0];
      assert e in skips;
      SkipsMean(hosts, Demands(zones), e);
    }
  }

  /**
   Planning is a closure. Without a cap, handing a plan's own SANs back as the hosts to plan
   for gives the same certificates, and skips nothing.
   */
  lemma ReplanningIsStable(rules: NameRules, registry: Registry, input: PlanInput, plan: Plan, again: PlanInput, r: Result<Plan>)
    requires IsPlan(rules, registry, input, Ok(plan)) && IsPlan(rules, registry, again, r)
    requires SameSettings(input, again) && input.maxCertificates <= 0
    requires Tidy(ZoneSet(input.zones))
    requires forall san :: san in again.hosts <==> san in Sans(plan.certificates)
    ensures r == Ok(Plan(plan.certificates, []))
  {
    hide NormalizeHost, DemandOf, Grouped, IsSelection, Sans, NeededBy;
    var certs, keep := PlanWitness(rules, registry, input, plan);
    UsableBySet(registry, input.zones, again.zones);
    UncappedPlanCarriesAll(rules, registry, input, plan);
    HostsOfReplan(input, plan, again);
    var zones := ZoneSet(input.zones);
    SansDemandThemselves(Elements(AllHosts(input)), Elements(SeedHosts(input)), zones);
    UncappedPlanCarriesAll(rules, registry, again, r.value);
    HostsThatAskSkipNothing(AllHosts(again), zones);
    assert Skips(AllHosts(again), zones) + [] == [];
  }

  lemma HostsOfReplan(input: PlanInput, plan: Plan, again: PlanInput)
    requires SameSettings(input, again) && Allowlist(ZoneSet(input.zones)) && Tidy(ZoneSet(input.zones))
    requires Sans(plan.certificates) == multiset(AllNeeded(Elements(AllHosts(input)), ZoneSet(input.zones)))
    requires forall san :: san in again.hosts <==> san in Sans(plan.certificates)
    ensures Elements(SeedHosts(input)) <= Elements(AllHosts(input))
    ensures Elements(AllHosts(again)) == Elements(SeedHosts(input)) + AllNeeded(Elements(AllHosts(input)), ZoneSet(input.zones))
    ensures forall h | h in AllHosts(again) :: DemandOf(h, ZoneSet(input.zones)).Needs?
  {
    hide NormalizeHost, DemandOf, AllNeeded, Sans, Tidy, Allowlist, AllHosts, AllLower;
    var needed := AllNeeded(Elements(AllHosts(input)), ZoneSet(input.zones));
    AllHostsSplit(input);
    AllHostsSplit(again);
    AllHostsAreLower(input);
    forall san | san in needed
      ensures NormalizeHost(san) == san && DemandOf(san, ZoneSet(input.zones)).Needs?
    {
      NeededIsNormal(Elements(AllHosts(input)), ZoneSet(input.zones), san);
    }
    assert forall san :: san in again.hosts <==> san in multiset(needed);
    NormalHostsStay(again.hosts);
    assert Elements(again.hosts) == needed;
    SeedsAsk(input);
    AskingIsUnion(SeedHosts(input), again.hosts, AllHosts(again), ZoneSet(input.zones));
  }

  lemma AskingIsUnion(a: seq<string>, b: seq<string>, all: seq<string>, zones: set<string>)
    requires Elements(all) == Elements(a) + Elements(b)
    requires forall h | h in a || h in b :: DemandOf(h, zones).Needs?
    ensures forall h | h in all :: DemandOf(h, zones).Needs?
  {
    forall h | h in all
      ensures h in a || h in b
    {
      assert h in Elements(all);
    }
  }

  lemma SeedsAsk(input: PlanInput)
    requires Allowlist(ZoneSet(input.zones)) && Tidy(ZoneSet(input.zones))
    ensures forall h | h in SeedHosts(input) :: DemandOf(h, ZoneSet(input.zones)).Needs?
  {
    SeedHostsAre(input);
    forall h | h in SeedHosts(input)
      ensures DemandOf(h, ZoneSet(input.zones)).Needs?
    {
      var z :| z in ZoneSet(input.zones) && h == SeedOf(z);
      SeedDemandsItself(z, ZoneSet(input.zones));
    }
  }

  ghost predicate AllLower(hosts: set<string>) {
    forall h, c | h in hosts && c in h :: !IsUpper(c)
  }

  lemma AllHostsAreLower(input: PlanInput)
    ensures AllLower(Elements(AllHosts(input)))
  {
    NormalizedAreLower(if input.issueZoneWildcards then Seeds(SortedSet(ZoneSet(input.zones))) + input.hosts else input.hosts);
  }

  lemma NormalizedAreLower(hosts: seq<string>)
    ensures AllLower(Elements(NormalizeAll(hosts)))
  {
    MapMembers(NormalizeHost, hosts);
    forall h, c | h in NormalizeAll(hosts) && c in h
      ensures !IsUpper(c)
    {
      var raw :| raw in hosts && h == NormalizeHost(raw);
      NormalizedIsLower(raw);
    }
  }

  lemma NeededIsNormal(hosts: set<string>, zones: set<string>, san: string)
    requires Allowlist(zones) && Tidy(zones) && AllLower(hosts) && san in AllNeeded(hosts, zones)
    ensures NormalizeHost(san) == san && san != ""
    ensures DemandOf(san, zones).Needs? && DemandOf(san, zones).san == san
  {
    var h :| h in hosts && DemandOf(h, zones).Needs? && DemandOf(h, zones).san == san;
    NeededSan(h, zones, DemandOf(h, zones).zone, san);
    NeededSanIsNormal(h, zones, DemandOf(h, zones).zone, san);
    NormalIsFixpoint(san);
  }
}
