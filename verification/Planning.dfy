/** From host names and zones to a plan (BuildPlan in wildcard.go). */
module Planning {
  import opened Outcomes
  import opened Sorting
  import opened Text
  import opened Naming
  import opened Zones
  import opened Packing
  import opened Collisions
  import opened Limit

  datatype Reason = ReasonOutsideAllowlist | ReasonMalformed | ReasonMaxCertificates {
    /** The reasons in the alphabetical order of their messages. */
    function Order(): int {
      match this
      case ReasonMalformed => 0
      case ReasonOutsideAllowlist => 1
      case ReasonMaxCertificates => 2
    }
  }

  datatype SkippedHost = SkippedHost(host: string, reason: Reason)

  datatype PlanInput = PlanInput(
    hosts: seq<string>,
    zones: seq<string>,
    maxCertificates: int,
    existing: seq<string>,
    grouping: Grouping,
    issueZoneWildcards: bool)

  datatype Plan = Plan(certificates: seq<CertificateRequest>, skipped: seq<SkippedHost>)

  predicate SkipLeq(a: SkippedHost, b: SkippedHost) {
    if a.host != b.host then Leq(a.host, b.host) else a.reason.Order() <= b.reason.Order()
  }

  lemma SkipLeqIsOrder()
    ensures Total(SkipLeq) && Antisymmetric(SkipLeq)
  {
    LeqIsOrder();
  }

  // ----- What a plan has to be -----

  function SeedOf(zone: string): string {
    WILDCARD + zone
  }

  function Seeds(zones: seq<string>): seq<string> {
    Map(SeedOf, zones)
  }

  /** Every host the plan looks at, normalised: the seeds, then what was discovered. */
  ghost function AllHosts(input: PlanInput): seq<string> {
    NormalizeAll(if input.issueZoneWildcards then Seeds(SortedSet(ZoneSet(input.zones))) + input.hosts else input.hosts)
  }

  /** The SANs that hosts need under one zone, given what each host demands. */
  ghost function NeededBy(hosts: set<string>, demand: string -> Demand, zone: string): set<string> {
    set h | h in hosts && demand(h).Needs? && demand(h).zone == zone :: demand(h).san
  }

  ghost function RequiredBy(hosts: set<string>, demand: string -> Demand, zones: set<string>): map<string, set<string>> {
    map z | z in zones && NeededBy(hosts, demand, z) != {} :: NeededBy(hosts, demand, z)
  }

  ghost function Demands(zones: set<string>): string -> Demand {
    h => DemandOf(h, zones)
  }

  /** The SANs each zone has to cover; a zone nothing asks for is absent. */
  ghost function Required(hosts: set<string>, zones: set<string>): map<string, set<string>> {
    RequiredBy(hosts, Demands(zones), zones)
  }

  ghost function SkipOf(host: string, demand: Demand): seq<SkippedHost> {
    match demand
    case OutsideAllowlist => [SkippedHost(host, ReasonOutsideAllowlist)]
    case Malformed => [SkippedHost(host, ReasonMalformed)]
    case _ => []
  }

  ghost function SkipsBy(hosts: seq<string>, demand: string -> Demand): seq<SkippedHost> {
    FlatMap((h: string) => SkipOf(h, demand(h)), hosts)
  }

  ghost function Skips(hosts: seq<string>, zones: set<string>): seq<SkippedHost> {
    SkipsBy(hosts, Demands(zones))
  }

  function OverCap(name: string): SkippedHost {
    SkippedHost(name, ReasonMaxCertificates)
  }

  function OverCapAll(cert: CertificateRequest): seq<SkippedHost> {
    Map(OverCap, cert.dnsNames)
  }

  function Overflowed(certs: seq<CertificateRequest>): seq<SkippedHost> {
    FlatMap(OverCapAll, certs)
  }

  function Defaulted(grouping: Grouping): Grouping {
    if grouping == Unset then PerZone else grouping
  }

  /** The certificates a plan would hold without a cap. */
  ghost function Uncapped(rules: NameRules, input: PlanInput): Result<seq<CertificateRequest>> {
    Grouped(rules, Required(Elements(AllHosts(input)), ZoneSet(input.zones)), Defaulted(input.grouping))
  }

  /** Packed, sorted by name, and repaired. */
  ghost function Grouped(rules: NameRules, required: map<string, set<string>>, grouping: Grouping): Result<seq<CertificateRequest>> {
    var certs :- Natural(rules, required, grouping);
    Ok(Resolved(rules, certs))
  }

  ghost predicate IsPlanFor(rules: NameRules, input: PlanInput, certs: seq<CertificateRequest>, keep: set<string>, plan: Plan) {
    && IsSelection(Names(certs), input.maxCertificates, Elements(input.existing), keep)
    && plan.certificates == Kept(certs, keep)
    && plan.skipped == Sort(SkipLeq, Skips(AllHosts(input), ZoneSet(input.zones)) + Overflowed(Dropped(certs, keep)))
  }

  ghost predicate IsPlan(rules: NameRules, registry: Registry, input: PlanInput, r: Result<Plan>) {
    if !ZonesUsable(registry, input.zones) then r == Err(InvalidZone)
    else match Uncapped(rules, input)
      case Err(e) => r == Err(e)
      case Ok(certs) => r.Ok? && exists keep :: IsPlanFor(rules, input, certs, keep, r.value)
  }

  // ----- How it is built -----

  /** One more demand taken into account. */
  function Plus(required: map<string, set<string>>, demand: Demand): map<string, set<string>> {
    match demand
    case Needs(zone, san) => required[zone := (if zone in required then required[zone] else {}) + {san}]
    case _ => required
  }

  lemma NeededGrows(hosts: set<string>, demand: string -> Demand, h: string, zone: string)
    ensures NeededBy(hosts + {h}, demand, zone) ==
            NeededBy(hosts, demand, zone) + if demand(h).Needs? && demand(h).zone == zone then {demand(h).san} else {}
  {
    assert h in hosts + {h};
  }

  lemma RequiredGrows(hosts: set<string>, demand: string -> Demand, zones: set<string>, h: string)
    requires demand(h).Needs? ==> demand(h).zone in zones
    ensures RequiredBy(hosts + {h}, demand, zones) == Plus(RequiredBy(hosts, demand, zones), demand(h))
  {
    var was, now := RequiredBy(hosts, demand, zones), RequiredBy(hosts + {h}, demand, zones);
    var plus := Plus(was, demand(h));
    forall z
      ensures z in now <==> z in plus
      ensures z in now ==> now[z] == plus[z]
    {
      NeededGrows(hosts, demand, h, z);
    }
  }

  /** The planning loop, over hosts already in normal form. */
  method CollectRequired(hosts: seq<string>, zones: seq<string>)
    returns (required: map<string, set<string>>, skipped: seq<SkippedHost>)
    requires Sorted(LongerFirst, zones)
    ensures required == Required(Elements(hosts), Elements(zones))
    ensures skipped == Skips(hosts, Elements(zones))
  {
    required, skipped := map[], [];
    for i := 0 to |hosts|
      invariant required == Required(Elements(hosts[..i]), Elements(zones))
      invariant skipped + Skips(hosts[i..], Elements(zones)) == Skips(hosts, Elements(zones))
      invariant i == |hosts| ==> hosts[..i] == hosts
    {
      NextHost(hosts, i, Elements(zones));
      var skip;
      var demand := FindDemand(hosts[i], zones);
      required, skip := Consider(hosts[i], demand, required);
      skipped := skipped + skip;
    }
  }

  /** The body of the planning loop: what one host asks for. */
  method FindDemand(host: string, zones: seq<string>) returns (demand: Demand)
    requires Sorted(LongerFirst, zones)
    ensures demand == DemandOf(host, Elements(zones))
  {
    if host == "" {
      return Nothing;
    }
    var zone := LongestMatchingZone(host, zones);
    if zone.None? {
      return OutsideAllowlist;
    }
    var name := RequiredName(host, zone.value);
    if name.Err? {
      return Malformed;
    }
    return Needs(zone.value, name.value);
  }

  /** The body of the planning loop: what becomes of the host. */
  method Consider(host: string, demand: Demand, required: map<string, set<string>>)
    returns (more: map<string, set<string>>, skip: seq<SkippedHost>)
    ensures more == Plus(required, demand) && skip == SkipOf(host, demand)
  {
    more, skip := required, [];
    match demand
    case Nothing =>
    case OutsideAllowlist =>
      skip := [SkippedHost(host, ReasonOutsideAllowlist)];
    case Malformed =>
      skip := [SkippedHost(host, ReasonMalformed)];
    case Needs(zone, name) =>
      if zone !in more {
        more := more[zone := {}];
      }
      more := more[zone := more[zone] + {name}];
  }

  lemma DemandInZones(host: string, zones: set<string>)
    ensures DemandOf(host, zones).Needs? ==> DemandOf(host, zones).zone in zones
  {
  }

  lemma NextHost(all: seq<string>, i: nat, zones: set<string>)
    requires i < |all|
    ensures Required(Elements(all[..i + 1]), zones) == Plus(Required(Elements(all[..i]), zones), DemandOf(all[i], zones))
    ensures Skips(all[i..], zones) == SkipOf(all[i], DemandOf(all[i], zones)) + Skips(all[i + 1..], zones)
    ensures i + 1 == |all| ==> all[..i + 1] == all
  {
    SeenGrows(all, i);
    DemandInZones(all[i], zones);
    RequiredGrows(Elements(all[..i]), Demands(zones), zones, all[i]);
    assert all[i..][1..] == all[i + 1..];
  }

  method ReportOverflow(overflow: seq<CertificateRequest>) returns (skipped: seq<SkippedHost>)
    ensures skipped == Overflowed(overflow)
  {
    skipped := [];
    for i := 0 to |overflow|
      invariant skipped + Overflowed(overflow[i..]) == Overflowed(overflow)
    {
      assert overflow[i..][0] == overflow[i] && overflow[i..][1..] == overflow[i + 1..];
      skipped := ReportCertificate(skipped, overflow[i]);
    }
  }

  method ReportCertificate(before: seq<SkippedHost>, cert: CertificateRequest) returns (skipped: seq<SkippedHost>)
    ensures skipped == before + OverCapAll(cert)
  {
    skipped := before;
    for i := 0 to |cert.dnsNames|
      invariant skipped == before + OverCapAll(cert)[..i]
    {
      skipped := skipped + [SkippedHost(cert.dnsNames[i], ReasonMaxCertificates)];
    }
  }

  /** group: pack, sort by name, then repair the names in place. */
  method Group(rules: NameRules, required: map<string, set<string>>, grouping: Grouping)
    returns (r: Result<seq<CertificateRequest>>)
    ensures r == Grouped(rules, required, grouping)
  {
    var natural := GroupNaturally(rules, required, grouping);
    if natural.Err? {
      return Err(natural.error);
    }
    var certs := new CertificateRequest[|natural.value|](i requires 0 <= i < |natural.value| => natural.value[i]);
    assert certs[..] == natural.value;
    ResolveNameCollisions(rules, certs);
    return Ok(certs[..]);
  }

  method BuildPlan(rules: NameRules, registry: Registry, input: PlanInput) returns (r: Result<Plan>)
    ensures IsPlan(rules, registry, input, r)
  {
    var zones := NormalizeZones(registry, input.zones);
    if zones.Err? {
      return Err(zones.error);
    }
    var hosts := input.hosts;
    if input.issueZoneWildcards {
      hosts := Seeds(zones.value) + hosts;
    }
    var required, skipped := CollectRequired(NormalizeAll(hosts), zones.value);
    SeedOrderIsIrrelevant(input, zones.value);
    var certs := Group(rules, required, Defaulted(input.grouping));
    if certs.Err? {
      return Err(certs.error);
    }
    var kept, overflow := ApplyLimit(certs.value, input.maxCertificates, input.existing);
    ghost var keep :| IsLimited(certs.value, input.maxCertificates, Elements(input.existing), keep, kept, overflow);
    var over := ReportOverflow(overflow);
    ArrangementIsIrrelevant(skipped, Skips(AllHosts(input), ZoneSet(input.zones)), over);
    var plan := Plan(kept, Sort(SkipLeq, skipped + over));
    assert IsPlanFor(rules, input, certs.value, keep, plan);
    return Ok(plan);
  }

  /** The hosts the loop walks over when the zones are listed in this order. */
  ghost function HostsOver(input: PlanInput, zones: seq<string>): seq<string> {
    NormalizeAll(if input.issueZoneWildcards then Seeds(zones) + input.hosts else input.hosts)
  }

  lemma SeedOrderIsIrrelevant(input: PlanInput, zones: seq<string>)
    requires Distinct(zones) && Elements(zones) == ZoneSet(input.zones)
    ensures Elements(HostsOver(input, zones)) == Elements(AllHosts(input))
    ensures multiset(Skips(HostsOver(input, zones), Elements(zones))) == multiset(Skips(AllHosts(input), Elements(zones)))
  {
    var sorted := SortedSet(ZoneSet(input.zones));
    SortedSetHolds(ZoneSet(input.zones));
    DistinctArrangements(zones, sorted);
    assert multiset(HostsOver(input, zones)) == multiset(AllHosts(input)) by {
      if input.issueZoneWildcards {
        NormalizedSeeds(zones, sorted, input.hosts);
      }
    }
    SameElements(HostsOver(input, zones), AllHosts(input));
    SkipsOfPermutation(HostsOver(input, zones), AllHosts(input), Elements(zones));
  }

  lemma ArrangementIsIrrelevant(a: seq<SkippedHost>, b: seq<SkippedHost>, over: seq<SkippedHost>)
    requires multiset(a) == multiset(b)
    ensures Sort(SkipLeq, a + over) == Sort(SkipLeq, b + over)
  {
    SkipLeqIsOrder();
    SortOfPermutation(SkipLeq, a + over, b + over);
  }

  lemma NormalizedSeeds(a: seq<string>, b: seq<string>, hosts: seq<string>)
    requires multiset(a) == multiset(b)
    ensures multiset(NormalizeAll(Seeds(a) + hosts)) == multiset(NormalizeAll(Seeds(b) + hosts))
  {
    MapOfPermutation(SeedOf, a, b);
    MapOfPermutation(NormalizeHost, Seeds(a) + hosts, Seeds(b) + hosts);
  }

  lemma SkipsOfPermutation(a: seq<string>, b: seq<string>, zones: set<string>)
    requires multiset(a) == multiset(b)
    ensures multiset(Skips(a, zones)) == multiset(Skips(b, zones))
  {
    var demand := Demands(zones);
    FlatMapOfPermutation((h: string) => SkipOf(h, demand(h)), a, b);
    assert multiset(SkipsBy(a, demand)) == multiset(SkipsBy(b, demand));
  }
}
