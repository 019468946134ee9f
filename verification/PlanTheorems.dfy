/** What every successful plan guarantees. */
module PlanTheorems {
  import opened Outcomes
  import opened Sorting
  import opened Text
  import opened Naming
  import opened Zones
  import opened Packing
  import opened Collisions
  import opened Limit
  import opened Planning

  /** The certificates and the choice behind a successful plan. */
  lemma PlanWitness(rules: NameRules, registry: Registry, input: PlanInput, plan: Plan)
    returns (certs: seq<CertificateRequest>, keep: set<string>)
    requires IsPlan(rules, registry, input, Ok(plan))
    ensures Uncapped(rules, input) == Ok(certs) && IsPlanFor(rules, input, certs, keep, plan)
    ensures Allowlist(ZoneSet(input.zones)) && ZoneSet(input.zones) != {}
  {
    UsableZonesAreAllowlist(registry, input.zones);
    certs := Uncapped(rules, input).value;
    keep :| IsPlanFor(rules, input, certs, keep, plan);
  }

  /** Any selection from the uncapped certificates is a plan. */
  lemma PlanExists(rules: NameRules, registry: Registry, input: PlanInput, all: seq<CertificateRequest>, keep: set<string>) returns (plan: Plan)
    requires ZonesUsable(registry, input.zones) && Uncapped(rules, input) == Ok(all)
    requires IsSelection(Names(all), input.maxCertificates, Elements(input.existing), keep)
    ensures IsPlan(rules, registry, input, Ok(plan)) && plan.certificates == Kept(all, keep)
  {
    plan := Plan(Kept(all, keep), Sort(SkipLeq, Skips(AllHosts(input), ZoneSet(input.zones)) + Overflowed(Dropped(all, keep))));
    assert IsPlanFor(rules, input, all, keep, plan);
  }

  /**
   Under a cap that is positive, a plan holds no more certificates than it allows exactly when
   there were no more to begin with, or no name of the plan repeats; it never holds fewer than
   it may.
   */
  lemma PlanKeepsItsCapIff(rules: NameRules, registry: Registry, input: PlanInput, plan: Plan)
    requires IsPlan(rules, registry, input, Ok(plan)) && input.maxCertificates > 0
    ensures var n, max := |Uncapped(rules, input).value|, input.maxCertificates;
            && (|plan.certificates| <= max <==> n <= max || Distinct(Names(plan.certificates)))
            && |plan.certificates| >= Min(n, max)
  {
    hide Uncapped, IsSelection;
    var certs, keep := PlanWitness(rules, registry, input, plan);
    CapIsExact(certs, input.maxCertificates, Elements(input.existing), keep);
  }

  // ----- SANs are conserved and globally disjoint -----

  /** Every SAN that some host needs. */
  ghost function AllNeeded(hosts: set<string>, zones: set<string>): set<string> {
    set h | h in hosts && DemandOf(h, zones).Needs? :: DemandOf(h, zones).san
  }

  /** A SAN is required under one zone only: its own longest match. */
  lemma RequiredUnderOneZone(hosts: set<string>, zones: set<string>, zone: string, san: string)
    requires Allowlist(zones) && zone in Required(hosts, zones) && san in Required(hosts, zones)[zone]
    ensures DemandOf(san, zones) == Needs(zone, san) && san in AllNeeded(hosts, zones)
  {
    var h :| h in hosts && DemandOf(h, zones).Needs? && DemandOf(h, zones).zone == zone && DemandOf(h, zones).san == san;
    NeededSan(h, zones, zone, san);
  }

  lemma NeededIsRequired(hosts: set<string>, zones: set<string>, h: string)
    requires h in hosts && DemandOf(h, zones).Needs?
    ensures var d := DemandOf(h, zones); d.zone in Required(hosts, zones) && d.san in Required(hosts, zones)[d.zone]
  {
    var d := DemandOf(h, zones);
    DemandInZones(h, zones);
    assert d.san in NeededBy(hosts, Demands(zones), d.zone);
  }

  lemma {:induction false} RequiredOnce(zones: seq<string>, required: map<string, set<string>>, san: string)
    requires Distinct(zones)
    requires forall y, z | y in required && z in required && san in required[y] && san in required[z] :: y == z
    ensures RequiredSans(zones, required)[san] ==
            if exists z :: z in zones && z in required && san in required[z] then 1 else 0
  {
    if zones != [] {
      RequiredOnce(zones[1..], required, san);
      if zones[0] in required && san in required[zones[0]] {
        assert zones[0] in zones;
      } else {
        assert forall z :: z in zones[1..] ==> z in zones;
        assert forall z :: z in zones && z != zones[0] ==> z in zones[1..];
      }
    }
  }

  /** Before the cap, each SAN that any host needs is carried exactly once, and nothing else is carried. */
  lemma UncappedCarriesEachOnce(rules: NameRules, input: PlanInput)
    requires Allowlist(ZoneSet(input.zones)) && Uncapped(rules, input).Ok?
    ensures Sans(Uncapped(rules, input).value) == multiset(AllNeeded(Elements(AllHosts(input)), ZoneSet(input.zones)))
  {
    var hosts, zones := Elements(AllHosts(input)), ZoneSet(input.zones);
    var required := Required(hosts, zones);
    var natural := Natural(rules, required, Defaulted(input.grouping)).value;
    NaturalHolds(rules, required, Defaulted(input.grouping));
    ResolvedKeepsSans(rules, natural);
    RequiredIsNeeded(hosts, zones);
  }

  lemma RequiredIsNeeded(hosts: set<string>, zones: set<string>)
    requires Allowlist(zones)
    ensures RequiredSans(SortedSet(Required(hosts, zones).Keys), Required(hosts, zones)) == multiset(AllNeeded(hosts, zones))
  {
    hide DemandOf, RequiredSans, Required;
    var required := Required(hosts, zones);
    var order := SortedSet(required.Keys);
    SortedSetHolds(required.Keys);
    assert forall z :: z in order <==> z in Elements(order);
    forall san
      ensures RequiredSans(order, required)[san] == multiset(AllNeeded(hosts, zones))[san]
    {
      forall y, z | y in required && z in required && san in required[y] && san in required[z]
        ensures y == z
      {
        RequiredUnderOneZone(hosts, zones, y, san);
        RequiredUnderOneZone(hosts, zones, z, san);
      }
      RequiredOnce(order, required, san);
      if z :| z in required && san in required[z] {
        RequiredUnderOneZone(hosts, zones, z, san);
      } else if san in AllNeeded(hosts, zones) {
        var h :| h in hosts && DemandOf(h, zones).Needs? && DemandOf(h, zones).san == san;
        NeededIsRequired(hosts, zones, h);
      }
    }
  }

  /** What the theorems below need of a plan: how its two lists arise from hosts, zones and certificates. */
  ghost predicate Built(hosts: seq<string>, zones: set<string>, certs: seq<CertificateRequest>, keep: set<string>, plan: Plan) {
    && plan.certificates == Kept(certs, keep)
    && plan.skipped == Sort(SkipLeq, Skips(hosts, zones) + Overflowed(Dropped(certs, keep)))
    && Sans(certs) == multiset(AllNeeded(Elements(hosts), zones))
    && Allowlist(zones)
  }

  lemma PlanIsBuilt(rules: NameRules, registry: Registry, input: PlanInput, plan: Plan)
    returns (certs: seq<CertificateRequest>, keep: set<string>)
    requires IsPlan(rules, registry, input, Ok(plan))
    ensures Built(AllHosts(input), ZoneSet(input.zones), certs, keep, plan)
  {
    certs, keep := PlanWitness(rules, registry, input, plan);
    UncappedCarriesEachOnce(rules, input);
  }

  /** A SAN reported as over the cap. */
  ghost predicate IsOverCap(plan: Plan, san: string) {
    SkippedHost(san, ReasonMaxCertificates) in plan.skipped
  }

  /**
   Conservation over the whole plan: the SANs kept and the SANs reported over the cap are
   together exactly the SANs the hosts need, each of them once.
   */
  lemma PlanConservesSans(rules: NameRules, registry: Registry, input: PlanInput, plan: Plan) returns (over: seq<CertificateRequest>)
    requires IsPlan(rules, registry, input, Ok(plan))
    ensures Sans(plan.certificates) + Sans(over) == multiset(AllNeeded(Elements(AllHosts(input)), ZoneSet(input.zones)))
    ensures forall san :: IsOverCap(plan, san) <==> san in Sans(over)
  {
    var certs, keep := PlanIsBuilt(rules, registry, input, plan);
    over := Dropped(certs, keep);
    BuiltConservesSans(AllHosts(input), ZoneSet(input.zones), certs, keep, plan);
  }

  lemma BuiltConservesSans(hosts: seq<string>, zones: set<string>, certs: seq<CertificateRequest>, keep: set<string>, plan: Plan)
    requires Built(hosts, zones, certs, keep, plan)
    ensures Sans(plan.certificates) + Sans(Dropped(certs, keep)) == multiset(AllNeeded(Elements(hosts), zones))
    ensures forall san :: IsOverCap(plan, san) <==> san in Sans(Dropped(certs, keep))
  {
    LimitKeepsSans(certs, keep);
    forall san
      ensures IsOverCap(plan, san) <==> san in Sans(Dropped(certs, keep))
    {
      SkippedMeans(hosts, Demands(zones), Dropped(certs, keep), plan.skipped, SkippedHost(san, ReasonMaxCertificates));
    }
  }

  /** No two certificates of a plan share a SAN. */
  lemma PlanIsDisjoint(rules: NameRules, registry: Registry, input: PlanInput, plan: Plan, i: nat, j: nat, san: string)
    requires IsPlan(rules, registry, input, Ok(plan))
    requires i < j < |plan.certificates| && san in plan.certificates[i].dnsNames
    ensures san !in plan.certificates[j].dnsNames
  {
    var over := PlanConservesSans(rules, registry, input, plan);
    AtMostOnce(plan.certificates, over, AllNeeded(Elements(AllHosts(input)), ZoneSet(input.zones)), san);
    CountedOnceIsDisjoint(plan.certificates, i, j, san);
  }

  lemma AtMostOnce(certs: seq<CertificateRequest>, over: seq<CertificateRequest>, needed: set<string>, san: string)
    requires Sans(certs) + Sans(over) == multiset(needed)
    ensures Sans(certs)[san] <= 1
  {
    assert Sans(certs)[san] + Sans(over)[san] == multiset(needed)[san];
  }

  /** Whether a SAN lies in a zone, with no further wildcard, and in no longer zone. */
  ghost predicate BelongsTo(san: string, zone: string, zones: set<string>) {
    var body := TrimPrefix(san, WILDCARD);
    && zone in zones && Within(body, zone) && '*' !in body
    && (forall z | z in zones && Within(body, z) :: |z| <= |zone|)
    && (san == body ==> san == zone)
  }

  lemma NeededBelongs(san: string, zones: set<string>, zone: string)
    requires Allowlist(zones) && DemandOf(san, zones) == Needs(zone, san)
    ensures BelongsTo(san, zone, zones)
  {
    NeededSan(san, zones, zone, san);
    assert IsBestZone(TrimPrefix(san, WILDCARD), zones, zone);
  }

  /** A certificate of a plan belongs to an allowed zone, and each of its SANs has that zone as its longest match. */
  lemma PlanStaysInZones(rules: NameRules, registry: Registry, input: PlanInput, plan: Plan, cert: CertificateRequest, san: string)
    requires IsPlan(rules, registry, input, Ok(plan))
    requires cert in plan.certificates && san in cert.dnsNames
    ensures BelongsTo(san, cert.zone, ZoneSet(input.zones))
  {
    var certs, keep := PlanWitness(rules, registry, input, plan);
    var i := UncappedCertificate(rules, input, certs, keep, cert);
    RequiredUnderOneZone(Elements(AllHosts(input)), ZoneSet(input.zones), cert.zone, san);
    NeededBelongs(san, ZoneSet(input.zones), cert.zone);
  }

  /** Where a planned certificate comes from. */
  lemma UncappedCertificate(rules: NameRules, input: PlanInput, certs: seq<CertificateRequest>, keep: set<string>, cert: CertificateRequest)
    returns (i: nat)
    requires Uncapped(rules, input) == Ok(certs) && (cert in Kept(certs, keep) || cert in Dropped(certs, keep))
    ensures var required := Required(Elements(AllHosts(input)), ZoneSet(input.zones));
            var natural := Natural(rules, required, Defaulted(input.grouping));
            && natural.Ok? && i < |natural.value| && certs == Resolved(rules, natural.value)
            && cert == natural.value[i].(name := FinalName(rules, natural.value, i))
            && Truthful(rules, natural.value[i], required)
  {
    hide Required, AllHosts, Truthful, Resolved, FinalName, Kept, Dropped, Natural;
    var required := Required(Elements(AllHosts(input)), ZoneSet(input.zones));
    NaturalHolds(rules, required, Defaulted(input.grouping));
    i := OriginOf(rules, Natural(rules, required, Defaulted(input.grouping)).value, keep, cert);
  }

  lemma OriginOf(rules: NameRules, natural: seq<CertificateRequest>, keep: set<string>, cert: CertificateRequest) returns (i: nat)
    requires cert in Kept(Resolved(rules, natural), keep) || cert in Dropped(Resolved(rules, natural), keep)
    ensures i < |natural| && cert == natural[i].(name := FinalName(rules, natural, i))
  {
    var certs := Resolved(rules, natural);
    LimitSplits(certs, keep);
    assert cert in multiset(certs);
    i :| 0 <= i < |certs| && certs[i] == cert;
    ResolvedIsFinal(rules, natural, i);
  }

  // ----- Every host is accounted for -----

  /** Exactly what the skipped list reports. */
  lemma SkippedMeans(hosts: seq<string>, demand: string -> Demand, over: seq<CertificateRequest>, skipped: seq<SkippedHost>, e: SkippedHost)
    requires skipped == Sort(SkipLeq, SkipsBy(hosts, demand) + Overflowed(over))
    ensures e in skipped <==>
            match e.reason
            case ReasonOutsideAllowlist => e.host in hosts && demand(e.host).OutsideAllowlist?
            case ReasonMalformed => e.host in hosts && demand(e.host).Malformed?
            case ReasonMaxCertificates => e.host in Sans(over)
  {
    SortKeeps(SkipLeq, SkipsBy(hosts, demand) + Overflowed(over));
    SkipsMean(hosts, demand, e);
    OverflowedMeans(over, e);
  }

  lemma SkipsMean(hosts: seq<string>, demand: string -> Demand, e: SkippedHost)
    ensures e in SkipsBy(hosts, demand) <==>
            e.host in hosts && ((e.reason.ReasonOutsideAllowlist? && demand(e.host).OutsideAllowlist?) ||
                                (e.reason.ReasonMalformed? && demand(e.host).Malformed?))
  {
    var f := (h: string) => SkipOf(h, demand(h));
    FlatMapMembers(f, hosts);
    assert e in SkipsBy(hosts, demand) <==> e in FlatMap(f, hosts);
    if h :| h in hosts && e in f(h) {
      assert e.host == h;
    }
    assert f(e.host) == SkipOf(e.host, demand(e.host));
  }

  lemma {:induction false} OverflowedMeans(certs: seq<CertificateRequest>, e: SkippedHost)
    ensures e in Overflowed(certs) <==> e.reason.ReasonMaxCertificates? && e.host in Sans(certs)
  {
    if certs != [] {
      OverflowedMeans(certs[1..], e);
      var names := certs[0].dnsNames;
      var over := OverCapAll(certs[0]);
      if e in over {
        var i :| 0 <= i < |over| && over[i] == e;
        assert names[i] == e.host;
      }
      if e.reason == ReasonMaxCertificates && e.host in names {
        var i :| 0 <= i < |names| && names[i] == e.host;
        assert over[i] == e;
      }
    }
  }

  /** Entries come by host and, for one host, by the texts of their reasons: malformed, outside the allowlist, over the cap. */
  ghost predicate ListedBefore(d: SkippedHost, e: SkippedHost) {
    && Leq(d.host, e.host)
    && (d.host == e.host ==> d.reason == e.reason || d.reason.ReasonMalformed? || e.reason.ReasonMaxCertificates?)
  }

  /** The skipped list is sorted. */
  lemma SkippedIsSorted(rules: NameRules, registry: Registry, input: PlanInput, plan: Plan, i: nat, j: nat)
    requires IsPlan(rules, registry, input, Ok(plan)) && i < j < |plan.skipped|
    ensures ListedBefore(plan.skipped[i], plan.skipped[j])
  {
    hide Uncapped, IsSelection;
    var certs, keep := PlanWitness(rules, registry, input, plan);
    SkipLeqIsOrder();
    SortSorts(SkipLeq, Skips(AllHosts(input), ZoneSet(input.zones)) + Overflowed(Dropped(certs, keep)));
    assert SkipLeq(plan.skipped[i], plan.skipped[j]);
    LeqIsOrder();
  }

  /** A SAN some certificate of the plan carries. */
  ghost predicate IsCarried(plan: Plan, san: string) {
    exists c :: c in plan.certificates && san in c.dnsNames
  }

  /** What became of a host: skipped for its own fault, or covered by a SAN carried or over the cap. */
  ghost predicate Accounted(plan: Plan, host: string, zones: set<string>) {
    var body := TrimPrefix(host, WILDCARD);
    if forall z | z in zones :: !Within(body, z) then SkippedHost(host, ReasonOutsideAllowlist) in plan.skipped
    else if '*' in body then SkippedHost(host, ReasonMalformed) in plan.skipped
    else exists san :: Covers(san, host) && (IsCarried(plan, san) || IsOverCap(plan, san))
  }

  /** Nothing is dropped silently: every discovered host that is not empty is accounted for. */
  lemma EveryHostIsAccountedFor(rules: NameRules, registry: Registry, input: PlanInput, plan: Plan, raw: string)
    requires IsPlan(rules, registry, input, Ok(plan))
    requires raw in input.hosts && NormalizeHost(raw) != ""
    ensures Accounted(plan, NormalizeHost(raw), ZoneSet(input.zones))
  {
    var certs, keep := PlanIsBuilt(rules, registry, input, plan);
    HostIsListed(input, raw);
    HostIsAccountedFor(AllHosts(input), ZoneSet(input.zones), certs, keep, plan, NormalizeHost(raw));
  }

  lemma HostIsListed(input: PlanInput, raw: string)
    requires raw in input.hosts
    ensures NormalizeHost(raw) in AllHosts(input)
  {
    var listed := if input.issueZoneWildcards then Seeds(SortedSet(ZoneSet(input.zones))) + input.hosts else input.hosts;
    assert raw in listed;
    var i :| 0 <= i < |listed| && listed[i] == raw;
    assert AllHosts(input)[i] == NormalizeHost(listed[i]);
  }

  lemma HostIsAccountedFor(hosts: seq<string>, zones: set<string>, certs: seq<CertificateRequest>, keep: set<string>, plan: Plan, host: string)
    requires Built(hosts, zones, certs, keep, plan)
    requires host in hosts && host != ""
    ensures Accounted(plan, host, zones)
  {
    var demand := Demands(zones);
    SkippedFor(host, zones);
    SkippedMeans(hosts, demand, Dropped(certs, keep), plan.skipped, SkippedHost(host, ReasonOutsideAllowlist));
    SkippedMeans(hosts, demand, Dropped(certs, keep), plan.skipped, SkippedHost(host, ReasonMalformed));
    if demand(host).Needs? {
      var san := demand(host).san;
      NeededSan(host, zones, demand(host).zone, san);
      assert host in Elements(hosts) && san in AllNeeded(Elements(hosts), zones);
      BuiltConservesSans(hosts, zones, certs, keep, plan);
      CarriedOrOverCap(plan, Dropped(certs, keep), AllNeeded(Elements(hosts), zones), san);
    }
  }

  lemma CarriedOrOverCap(plan: Plan, over: seq<CertificateRequest>, needed: set<string>, san: string)
    requires Sans(plan.certificates) + Sans(over) == multiset(needed) && san in needed
    requires forall s :: IsOverCap(plan, s) <==> s in Sans(over)
    ensures IsCarried(plan, san) || IsOverCap(plan, san)
  {
    assert san in multiset(needed);
    if san in Sans(plan.certificates) {
      var i := CountedSansAreCarried(plan.certificates, san);
      assert plan.certificates[i] in plan.certificates;
    }
  }

  /** Conversely, nothing is issued that no host asks for. */
  lemma EverySanIsDemanded(rules: NameRules, registry: Registry, input: PlanInput, plan: Plan, cert: CertificateRequest, san: string)
    requires IsPlan(rules, registry, input, Ok(plan))
    requires cert in plan.certificates && san in cert.dnsNames
    ensures exists host :: host in AllHosts(input) && DemandOf(host, ZoneSet(input.zones)) == Needs(cert.zone, san) && Covers(san, host)
  {
    var certs, keep := PlanWitness(rules, registry, input, plan);
    var zones := ZoneSet(input.zones);
    var hosts := Elements(AllHosts(input));
    var i := UncappedCertificate(rules, input, certs, keep, cert);
    assert san in NeededBy(hosts, Demands(zones), cert.zone);
    var h :| h in hosts && Demands(zones)(h).Needs? && Demands(zones)(h).zone == cert.zone && Demands(zones)(h).san == san;
    NeededSan(h, zones, cert.zone, san);
  }
}
