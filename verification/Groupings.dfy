/** What each grouping promises: which SANs share a certificate, and what it is named after. */
module Groupings {
  import opened Outcomes
  import opened Sorting
  import opened Text
  import opened Naming
  import opened Zones
  import opened Packing
  import opened Collisions
  import opened Limit
  import opened Planning
  import opened PlanTheorems

  // ----- The promise -----

  /** A SAN some host needs under a zone. */
  ghost predicate IsNeeded(input: PlanInput, zone: string, san: string) {
    exists h :: h in AllHosts(input) && DemandOf(h, ZoneSet(input.zones)) == Needs(zone, san)
  }

  /** The SANs needed under a zone. */
  ghost predicate AreNeeded(input: PlanInput, zone: string, names: set<string>) {
    forall san :: san in names <==> IsNeeded(input, zone, san)
  }

  /**
   The SAN that leads a certificate of a zone needing these names. For each wildcard: every
   wildcard, and every name whose wildcard is not needed. For each zone: the wildcard of the zone
   if that is needed, or else the primary name.
   */
  ghost predicate IsLead(rules: NameRules, grouping: Grouping, zone: string, names: set<string>, lead: string) {
    if grouping.PerWildcard? then lead in names && ("*." <= lead || "*." + lead !in names)
    else names != {} && lead == if "*." + zone in names then "*." + zone else rules.primary(SortedSet(names))
  }

  /** What a certificate with that lead carries: a wildcard takes its apex along; or it is everything the zone needs. */
  ghost function Carried(grouping: Grouping, names: set<string>, lead: string): set<string> {
    if !grouping.PerWildcard? then names
    else if "*." <= lead && lead[2..] in names && !("*." <= lead[2..]) then {lead, lead[2..]}
    else {lead}
  }

  /** Named after a SAN, or by the fallback for the name when it was taken. */
  ghost predicate IsNamed(rules: NameRules, cert: CertificateRequest, lead: string) {
    && rules.derive(lead).Ok?
    && var name := rules.derive(lead).value;
       cert.name == name || cert.name == rules.fallback(name, Join(cert.dnsNames, ','))
  }

  ghost predicate IsLedBy(rules: NameRules, grouping: Grouping, names: set<string>, cert: CertificateRequest, lead: string) {
    && IsLead(rules, grouping, cert.zone, names, lead)
    && multiset(cert.dnsNames) == multiset(Carried(grouping, names, lead))
    && Sorted(Leq, cert.dnsNames) && IsNamed(rules, cert, lead)
  }

  // ----- Parts -----

  /** A part of a zone that needs these names. */
  ghost predicate IsPart(rules: NameRules, grouping: Grouping, zone: string, names: set<string>, p: Part) {
    && p.zone == zone && IsLead(rules, grouping, zone, names, p.seed)
    && multiset(p.members) == multiset(Carried(grouping, names, p.seed))
  }

  /** A part made of one of these wildcards, with its apex if that is there, or of an apex without its wildcard. */
  ghost predicate Rides(zone: string, wildcards: seq<string>, apexes: seq<string>, p: Part) {
    && p.zone == zone
    && if p.seed in wildcards then "*." <= p.seed && p.members == [p.seed] + (if p.seed[2..] in apexes then [p.seed[2..]] else [])
       else p.seed in apexes && "*." + p.seed !in wildcards && p.members == [p.seed]
  }

  lemma {:induction false} ApexPartsRide(zone: string, apexes: seq<string>)
    ensures forall p | p in ApexParts(zone, apexes) :: p.zone == zone && p.seed in apexes && p.members == [p.seed]
  {
    if apexes != [] {
      ApexPartsRide(zone, apexes[1..]);
    }
  }

  lemma {:induction false} WithoutMembers(list: seq<string>, drop: string)
    ensures forall x :: x in Without(list, drop) <==> x in list && x != drop
  {
    if list != [] {
      WithoutMembers(list[1..], drop);
    }
  }

  lemma {:induction false} WildcardPartsRide(zone: string, wildcards: seq<string>, apexes: seq<string>)
    requires Distinct(wildcards) && (forall w | w in wildcards :: "*." <= w) && (forall a | a in apexes :: !("*." <= a))
    ensures forall p | p in WildcardParts(zone, wildcards, apexes) :: Rides(zone, wildcards, apexes, p)
    decreases wildcards
  {
    if wildcards == [] {
      ApexPartsRide(zone, apexes);
    } else {
      var w := wildcards[0];
      assert w in wildcards;
      var left := if w[2..] in apexes then Without(apexes, w[2..]) else apexes;
      WithoutMembers(apexes, w[2..]);
      assert forall v :: v in wildcards[1..] ==> v in wildcards;
      WildcardPartsRide(zone, wildcards[1..], left);
      forall p | p in WildcardParts(zone, wildcards[1..], left)
        ensures Rides(zone, wildcards, apexes, p)
      {
        LaterPartRides(zone, wildcards, apexes, left, p);
      }
    }
  }

  lemma LaterPartRides(zone: string, wildcards: seq<string>, apexes: seq<string>, left: seq<string>, p: Part)
    requires wildcards != [] && Distinct(wildcards) && (forall w | w in wildcards :: "*." <= w) && (forall a | a in apexes :: !("*." <= a))
    requires "*." <= wildcards[0] && forall x :: x in left <==> x in apexes && x != wildcards[0][2..]
    requires Rides(zone, wildcards[1..], left, p)
    ensures Rides(zone, wildcards, apexes, p)
  {
    var w := wildcards[0];
    assert w == "*." + w[2..];
    if p.seed in wildcards[1..] {
      assert p.seed != w && p.seed == "*." + p.seed[2..];
    }
  }

  /** The parts of a zone. */
  lemma ZonePartIs(rules: NameRules, zone: string, names: set<string>, grouping: Grouping, p: Part)
    requires names != {} && (grouping.PerZone? || grouping.PerWildcard?)
    requires p in ZoneParts(rules, zone, SortedSet(names), grouping)
    ensures IsPart(rules, grouping, zone, names, p)
  {
    hide SortedSet, WildcardParts;
    var list := SortedSet(names);
    SortedSetHolds(names);
    assert forall n :: n in list <==> n in Elements(list);
    if grouping.PerWildcard? {
      Kinds(list);
      WildcardPartsRide(zone, Wildcards(list), Apexes(list));
      RiderIsPart(rules, zone, names, Wildcards(list), Apexes(list), p);
    }
  }

  lemma {:induction false} Kinds(list: seq<string>)
    requires Distinct(list)
    ensures Distinct(Wildcards(list)) && Distinct(Apexes(list))
    ensures forall n :: n in Wildcards(list) <==> n in list && "*." <= n
    ensures forall n :: n in Apexes(list) <==> n in list && !("*." <= n)
  {
    if list != [] {
      assert list[0] !in list[1..];
      Kinds(list[1..]);
      assert Wildcards(list) == (if "*." <= list[0] then [list[0]] else []) + Wildcards(list[1..]);
      assert Apexes(list) == (if "*." <= list[0] then [] else [list[0]]) + Apexes(list[1..]);
    }
  }

  lemma RiderIsPart(rules: NameRules, zone: string, names: set<string>, wildcards: seq<string>, apexes: seq<string>, p: Part)
    requires Rides(zone, wildcards, apexes, p)
    requires forall n :: n in wildcards <==> n in names && "*." <= n
    requires forall n :: n in apexes <==> n in names && !("*." <= n)
    ensures IsPart(rules, PerWildcard, zone, names, p)
  {
    if p.seed in wildcards {
      assert p.seed[2..] != p.seed;
    } else {
      assert "*." <= "*." + p.seed;
    }
  }

  lemma {:induction false} PartOrigin(rules: NameRules, zones: seq<string>, required: map<string, set<string>>, grouping: Grouping, p: Part)
    requires p in Parts(rules, zones, required, grouping)
    ensures exists zone :: zone in zones && p in ZoneParts(rules, zone, SortedSet(Lookup(required, zone)), grouping)
  {
    if p in ZoneParts(rules, zones[0], SortedSet(Lookup(required, zones[0])), grouping) {
      assert zones[0] in zones;
    } else {
      PartOrigin(rules, zones[1..], required, grouping, p);
      var zone :| zone in zones[1..] && p in ZoneParts(rules, zone, SortedSet(Lookup(required, zone)), grouping);
      assert zone in zones;
    }
  }

  lemma {:induction false} PartsInclude(rules: NameRules, zones: seq<string>, required: map<string, set<string>>, grouping: Grouping, zone: string, p: Part)
    requires zone in zones && p in ZoneParts(rules, zone, SortedSet(Lookup(required, zone)), grouping)
    ensures p in Parts(rules, zones, required, grouping)
  {
    if zone != zones[0] {
      PartsInclude(rules, zones[1..], required, grouping, zone, p);
    }
  }

  // ----- Certificates -----

  /** A certificate before repair. */
  ghost predicate IsNaturallyLed(rules: NameRules, grouping: Grouping, names: set<string>, cert: CertificateRequest, lead: string) {
    && IsLead(rules, grouping, cert.zone, names, lead)
    && multiset(cert.dnsNames) == multiset(Carried(grouping, names, lead))
    && Sorted(Leq, cert.dnsNames) && rules.derive(lead) == Ok(cert.name)
  }

  lemma NaturalIsLed(rules: NameRules, required: map<string, set<string>>, grouping: Grouping, cert: CertificateRequest) returns (lead: string)
    requires Natural(rules, required, grouping).Ok? && cert in Natural(rules, required, grouping).value
    requires forall z | z in required :: required[z] != {}
    ensures cert.zone in required && IsNaturallyLed(rules, grouping, required[cert.zone], cert, lead)
  {
    hide SortedSet, ZoneParts, SortStrings, IsLead, Carried, Parts;
    var zones := SortedSet(required.Keys);
    SortedSetHolds(required.Keys);
    assert forall z :: z in zones <==> z in Elements(zones);
    var p := OriginOfRequest(rules, Parts(rules, zones, required, grouping), cert);
    PartOrigin(rules, zones, required, grouping, p);
    var zone :| zone in zones && p in ZoneParts(rules, zone, SortedSet(Lookup(required, zone)), grouping);
    ZonePartIs(rules, zone, required[zone], grouping, p);
    lead := p.seed;
    RequestIsSorted(p.members);
  }

  lemma RequestIsSorted(members: seq<string>)
    ensures Sorted(Leq, SortStrings(members)) && multiset(SortStrings(members)) == multiset(members)
  {
    LeqIsOrder();
    SortSorts(Leq, members);
    SortKeeps(Leq, members);
  }

  lemma OriginOfRequest(rules: NameRules, parts: seq<Part>, cert: CertificateRequest) returns (p: Part)
    requires Requests(rules, [], parts).Ok? && cert in Sort(NameLeq, Requests(rules, [], parts).value)
    ensures p in parts && RequestOf(rules, cert, p)
  {
    RequestsHold(rules, [], parts);
    SortKeeps(NameLeq, Requests(rules, [], parts).value);
    var i :| 0 <= i < |parts| && Requests(rules, [], parts).value[i] == cert;
    p := parts[i];
  }

  /** What a zone needs, as the planner has it. */
  lemma RequiredIsWhatIsNeeded(input: PlanInput, zone: string)
    requires zone in Required(Elements(AllHosts(input)), ZoneSet(input.zones))
    ensures var names := Required(Elements(AllHosts(input)), ZoneSet(input.zones))[zone]; names != {} && AreNeeded(input, zone, names)
  {
    hide AllHosts, DemandOf;
    var names := Required(Elements(AllHosts(input)), ZoneSet(input.zones))[zone];
    forall san
      ensures san in names <==> IsNeeded(input, zone, san)
    {
      if h :| h in AllHosts(input) && DemandOf(h, ZoneSet(input.zones)) == Needs(zone, san) {
        assert h in Elements(AllHosts(input)) && Demands(ZoneSet(input.zones))(h).san == san;
      }
    }
  }

  /** Every certificate of a plan is led by a SAN that its zone needs, and carries what goes with that. */
  lemma PlannedIsLed(rules: NameRules, registry: Registry, input: PlanInput, plan: Plan, cert: CertificateRequest)
    returns (names: set<string>, lead: string)
    requires IsPlan(rules, registry, input, Ok(plan)) && cert in plan.certificates
    ensures AreNeeded(input, cert.zone, names) && IsLedBy(rules, Defaulted(input.grouping), names, cert, lead)
  {
    hide IsPlan, Natural, Truthful, Required, IsNaturallyLed, AreNeeded, AllHosts;
    var certs, keep := PlanWitness(rules, registry, input, plan);
    var i := UncappedCertificate(rules, input, certs, keep, cert);
    var required := Required(Elements(AllHosts(input)), ZoneSet(input.zones));
    var natural := Natural(rules, required, Defaulted(input.grouping)).value;
    NothingIsRequiredForNothing(input);
    lead := NaturalIsLed(rules, required, Defaulted(input.grouping), natural[i]);
    names := required[cert.zone];
    RequiredIsWhatIsNeeded(input, cert.zone);
    RepairedIsLed(rules, Defaulted(input.grouping), names, natural, i, lead);
  }

  lemma NothingIsRequiredForNothing(input: PlanInput)
    ensures var required := Required(Elements(AllHosts(input)), ZoneSet(input.zones)); forall z | z in required :: required[z] != {}
  {
  }

  lemma RepairedIsLed(rules: NameRules, grouping: Grouping, names: set<string>, natural: seq<CertificateRequest>, i: nat, lead: string)
    requires i < |natural| && IsNaturallyLed(rules, grouping, names, natural[i], lead)
    ensures IsLedBy(rules, grouping, names, natural[i].(name := FinalName(rules, natural, i)), lead)
  {
    hide IsLead, Carried, Taken;
  }

  /**
   One certificate for each wildcard: its SANs are a wildcard, a wildcard with its apex, or an
   apex alone. An apex and its wildcard share a certificate whenever both are needed in the
   zone; and the certificate is named after the wildcard, if it carries one.
   */
  lemma PerWildcardPlan(rules: NameRules, registry: Registry, input: PlanInput, plan: Plan, cert: CertificateRequest) returns (lead: string)
    requires IsPlan(rules, registry, input, Ok(plan)) && cert in plan.certificates && input.grouping.PerWildcard?
    ensures lead in cert.dnsNames && IsNamed(rules, cert, lead)
    ensures |cert.dnsNames| == 1 || ("*." <= lead && |cert.dnsNames| == 2 && lead[2..] in cert.dnsNames && !("*." <= lead[2..]))
    ensures "*." <= lead && !("*." <= lead[2..]) ==> (lead[2..] in cert.dnsNames <==> IsNeeded(input, cert.zone, lead[2..]))
    ensures !("*." <= lead) ==> !IsNeeded(input, cert.zone, "*." + lead)
  {
    hide IsPlan, IsNamed, IsNeeded, Sorted;
    var names;
    names, lead := PlannedIsLed(rules, registry, input, plan, cert);
    HoldsJust(cert.dnsNames, Carried(PerWildcard, names, lead));
    assert "*." <= lead ==> |lead[2..]| < |lead|;
  }

  lemma HoldsJust(list: seq<string>, names: set<string>)
    requires multiset(list) == multiset(names)
    ensures |list| == |names| && forall n :: n in list <==> n in names
  {
    SetArrangement(names, list);
    assert |multiset(list)| == |list|;
    assert forall n :: n in list <==> n in Elements(list);
  }

  /** So an apex and its wildcard are carried together exactly when the zone needs both. */
  lemma ApexRidesIff(rules: NameRules, registry: Registry, input: PlanInput, plan: Plan, cert: CertificateRequest, apex: string)
    requires IsPlan(rules, registry, input, Ok(plan)) && cert in plan.certificates && input.grouping.PerWildcard?
    requires !("*." <= apex) && (apex in cert.dnsNames || "*." + apex in cert.dnsNames)
    ensures apex in cert.dnsNames && "*." + apex in cert.dnsNames <==>
            IsNeeded(input, cert.zone, apex) && IsNeeded(input, cert.zone, "*." + apex)
  {
    hide IsPlan, IsNamed, IsNeeded, Sorted, IsLead;
    var names, lead := PlannedIsLed(rules, registry, input, plan, cert);
    var wildcard := "*." + apex;
    assert wildcard[2..] == apex;
    HoldsJust(cert.dnsNames, Carried(PerWildcard, names, lead));
    assert "*." <= lead ==> lead == "*." + lead[2..];
    LeadsTheApex(rules, cert.zone, names, lead, apex);
  }

  lemma LeadsTheApex(rules: NameRules, zone: string, names: set<string>, lead: string, apex: string)
    requires IsLead(rules, PerWildcard, zone, names, lead)
    ensures lead in names && (lead == apex ==> "*." <= apex || "*." + apex !in names)
  {
  }

  /** One certificate for each zone: it carries all the zone needs, and is named after the zone's wildcard or the primary name. */
  lemma PerZonePlan(rules: NameRules, registry: Registry, input: PlanInput, plan: Plan, cert: CertificateRequest) returns (lead: string)
    requires IsPlan(rules, registry, input, Ok(plan)) && cert in plan.certificates
    requires input.grouping.PerZone? || input.grouping.Unset?
    ensures Distinct(cert.dnsNames) && forall san :: san in cert.dnsNames <==> IsNeeded(input, cert.zone, san)
    ensures IsNamed(rules, cert, lead)
    ensures lead == if IsNeeded(input, cert.zone, "*." + cert.zone) then "*." + cert.zone else rules.primary(cert.dnsNames)
  {
    hide IsPlan, IsNamed, IsNeeded, Sorted, SortedSet;
    var names;
    names, lead := PlannedIsLed(rules, registry, input, plan, cert);
    HoldsJust(cert.dnsNames, names);
    SetArrangement(names, cert.dnsNames);
    SortedArrangement(names, cert.dnsNames);
  }

  lemma SortedArrangement(names: set<string>, list: seq<string>)
    requires multiset(list) == multiset(names) && Sorted(Leq, list)
    ensures list == SortedSet(names)
  {
    LeqIsOrder();
    SortedSetHolds(names);
    SortedUnique(Leq, list, SortedSet(names));
  }

  /** And no zone has two. */
  lemma OneForEachZone(rules: NameRules, registry: Registry, input: PlanInput, plan: Plan, i: nat, j: nat)
    requires IsPlan(rules, registry, input, Ok(plan)) && i < j < |plan.certificates|
    requires input.grouping.PerZone? || input.grouping.Unset?
    ensures plan.certificates[i].zone != plan.certificates[j].zone
  {
    hide IsPlan, IsNamed, IsNeeded, AreNeeded;
    var c, d := plan.certificates[i], plan.certificates[j];
    var lead := PerZonePlan(rules, registry, input, plan, c);
    var lead' := PerZonePlan(rules, registry, input, plan, d);
    var names, first := PlannedIsLed(rules, registry, input, plan, c);
    HoldsJust(c.dnsNames, names);
    var san :| san in names;
    PlanIsDisjoint(rules, registry, input, plan, i, j, san);
  }

  /** Under the operator's rules, the primary name is the least wildcard, or the least name if there is no wildcard. */
  lemma PerZoneLead(digest: ShortDigest, registry: Registry, input: PlanInput, plan: Plan, cert: CertificateRequest) returns (lead: string)
    requires IsPlan(VaultNames(digest), registry, input, Ok(plan)) && cert in plan.certificates
    requires input.grouping.PerZone? || input.grouping.Unset?
    ensures IsNamed(VaultNames(digest), cert, lead)
    ensures if "*." + cert.zone in cert.dnsNames then lead == "*." + cert.zone else IsPrimary(Elements(NormalizeAll(cert.dnsNames)), lead)
  {
    hide IsPlan, IsNamed, IsNeeded, IsPrimary, NormalizeAll;
    lead := PerZonePlan(VaultNames(digest), registry, input, plan, cert);
    PrimaryIs(cert.dnsNames);
  }

  // ----- Which of several certificates keeps a name -----

  /** Parts come zone by zone; within a zone wildcards come first, and then each kind in order. */
  ghost predicate PartLeq(p: Part, q: Part) {
    Leq(p.zone, q.zone) && (p.zone == q.zone ==> Preferred(p.seed, q.seed))
  }

  ghost predicate InOrder(parts: seq<Part>) {
    forall i, j | 0 <= i < j < |parts| :: PartLeq(parts[i], parts[j])
  }

  lemma {:induction false} ApexPartsInOrder(zone: string, apexes: seq<string>)
    requires Sorted(Leq, apexes) && forall a | a in apexes :: !("*." <= a)
    ensures InOrder(ApexParts(zone, apexes))
  {
    LeqIsOrder();
    if apexes != [] {
      assert forall a :: a in apexes[1..] ==> a in apexes;
      ApexPartsInOrder(zone, apexes[1..]);
      ApexPartsRide(zone, apexes[1..]);
      forall a | a in apexes[1..]
        ensures Leq(apexes[0], a)
      {
        var k :| 0 <= k < |apexes[1..]| && apexes[1..][k] == a;
        assert apexes[k + 1] == a;
      }
      FirstInOrder(Part(zone, apexes[0], [apexes[0]]), ApexParts(zone, apexes[1..]));
    }
  }

  lemma FirstInOrder(p: Part, parts: seq<Part>)
    requires InOrder(parts) && forall q | q in parts :: PartLeq(p, q)
    ensures InOrder([p] + parts)
  {
  }

  lemma {:induction false} WithoutInOrder(list: seq<string>, drop: string)
    requires Sorted(Leq, list)
    ensures Sorted(Leq, Without(list, drop))
  {
    if list != [] {
      WithoutInOrder(list[1..], drop);
      WithoutMembers(list[1..], drop);
      forall x | x in list[1..]
        ensures Leq(list[0], x)
      {
        var k :| 0 <= k < |list[1..]| && list[1..][k] == x;
        assert list[k + 1] == x;
      }
    }
  }

  lemma {:induction false} WildcardPartsInOrder(zone: string, wildcards: seq<string>, apexes: seq<string>)
    requires Sorted(Leq, wildcards) && Sorted(Leq, apexes) && Distinct(wildcards)
    requires (forall w | w in wildcards :: "*." <= w) && (forall a | a in apexes :: !("*." <= a))
    ensures InOrder(WildcardParts(zone, wildcards, apexes))
    decreases wildcards
  {
    hide PartLeq, Leq, Rides;
    if wildcards == [] {
      ApexPartsInOrder(zone, apexes);
    } else {
      var w := wildcards[0];
      assert w in wildcards;
      var left := if w[2..] in apexes then Without(apexes, w[2..]) else apexes;
      WithoutMembers(apexes, w[2..]);
      WithoutInOrder(apexes, w[2..]);
      assert forall v :: v in wildcards[1..] ==> v in wildcards;
      WildcardPartsInOrder(zone, wildcards[1..], left);
      WildcardPartsRide(zone, wildcards[1..], left);
      var p := WildcardParts(zone, wildcards, apexes)[0];
      forall q | q in WildcardParts(zone, wildcards[1..], left)
        ensures PartLeq(p, q)
      {
        FirstWildcardFirst(zone, wildcards, left, p, q);
      }
      FirstInOrder(p, WildcardParts(zone, wildcards[1..], left));
    }
  }

  lemma FirstWildcardFirst(zone: string, wildcards: seq<string>, left: seq<string>, p: Part, q: Part)
    requires wildcards != [] && Sorted(Leq, wildcards) && (forall w | w in wildcards :: "*." <= w) && (forall a | a in left :: !("*." <= a))
    requires p.zone == zone && p.seed == wildcards[0] && Rides(zone, wildcards[1..], left, q)
    ensures PartLeq(p, q)
  {
    LeqIsOrder();
    assert wildcards[0] in wildcards;
    if q.seed in wildcards[1..] {
      var k :| 0 <= k < |wildcards[1..]| && wildcards[1..][k] == q.seed;
      assert wildcards[k + 1] == q.seed && q.seed in wildcards;
    }
  }

  lemma {:induction false} SelectedStaysSorted(p: string -> bool, list: seq<string>)
    requires Sorted(Leq, list)
    ensures Sorted(Leq, Select(p, list))
  {
    forall a, b | 0 <= a < b < |Select(p, list)|
      ensures Leq(Select(p, list)[a], Select(p, list)[b])
    {
      var i, j := SelectedFromInOrder(p, list, a, b);
    }
  }

  lemma ZonePartsInOrder(rules: NameRules, zone: string, names: set<string>, grouping: Grouping)
    ensures InOrder(ZoneParts(rules, zone, SortedSet(names), grouping))
  {
    hide SortedSet, WildcardParts;
    var list := SortedSet(names);
    SortedSetHolds(names);
    if grouping != PerZone {
      Kinds(list);
      SelectedStaysSorted((n: string) => IsWildcard(n), list);
      SelectedStaysSorted((n: string) => !IsWildcard(n), list);
      WildcardPartsInOrder(zone, Wildcards(list), Apexes(list));
    }
  }

  lemma {:induction false} PartsInOrder(rules: NameRules, zones: seq<string>, required: map<string, set<string>>, grouping: Grouping)
    requires Sorted(Leq, zones) && Distinct(zones)
    ensures InOrder(Parts(rules, zones, required, grouping))
  {
    hide SortedSet, ZoneParts;
    if zones != [] {
      var first := ZoneParts(rules, zones[0], SortedSet(Lookup(required, zones[0])), grouping);
      var rest := Parts(rules, zones[1..], required, grouping);
      ZonePartsInOrder(rules, zones[0], Lookup(required, zones[0]), grouping);
      PartsInOrder(rules, zones[1..], required, grouping);
      forall p, q | p in first && q in rest
        ensures PartLeq(p, q)
      {
        ZonePartsBelong(rules, zones[0], SortedSet(Lookup(required, zones[0])), grouping, p);
        PartOrigin(rules, zones[1..], required, grouping, q);
        var zone :| zone in zones[1..] && q in ZoneParts(rules, zone, SortedSet(Lookup(required, zone)), grouping);
        ZonePartsBelong(rules, zone, SortedSet(Lookup(required, zone)), grouping, q);
        var k :| 0 <= k < |zones[1..]| && zones[1..][k] == zone;
        assert zones[k + 1] == zone;
      }
    }
  }

  lemma ZonePartsBelong(rules: NameRules, zone: string, names: seq<string>, grouping: Grouping, p: Part)
    requires p in ZoneParts(rules, zone, names, grouping)
    ensures p.zone == zone
  {
    if grouping != PerZone {
      WildcardPartsHold(zone, Wildcards(names), Apexes(names));
    }
  }

  /**
   Certificates that derive the same name stand in the order of their zones and, within a zone,
   wildcards first. Repair leaves the name to the first of them.
   */
  lemma NamesakesInOrder(rules: NameRules, required: map<string, set<string>>, grouping: Grouping, i: nat, j: nat)
    returns (p: Part, q: Part)
    requires Natural(rules, required, grouping).Ok? && i < j < |Natural(rules, required, grouping).value|
    requires Natural(rules, required, grouping).value[i].name == Natural(rules, required, grouping).value[j].name
    ensures var certs := Natural(rules, required, grouping).value; RequestOf(rules, certs[i], p) && RequestOf(rules, certs[j], q)
    ensures Leq(p.zone, q.zone) && (p.zone == q.zone ==> Preferred(p.seed, q.seed))
  {
    hide SortedSet, Parts, RequestOf, Preferred, Sort;
    var zones := SortedSet(required.Keys);
    SortedSetHolds(required.Keys);
    var parts := Parts(rules, zones, required, grouping);
    PartsInOrder(rules, zones, required, grouping);
    var unsorted := Requests(rules, [], parts).value;
    RequestsHold(rules, [], parts);
    var name := Natural(rules, required, grouping).value[i].name;
    var named := (c: CertificateRequest) => c.name == name;
    LeqIsOrder();
    var a, b := SortedAlike(NameLeq, named, unsorted, i, j);
    p, q := parts[a], parts[b];
    assert RequestOf(rules, unsorted[0 + a], parts[a]) && RequestOf(rules, unsorted[0 + b], parts[b]);
  }

  // ----- When there is no plan -----

  /** A lead whose name cannot be derived. */
  ghost predicate CannotBeNamed(rules: NameRules, grouping: Grouping, input: PlanInput, zone: string, names: set<string>, lead: string) {
    AreNeeded(input, zone, names) && IsLead(rules, grouping, zone, names, lead) && rules.derive(lead).Err?
  }

  lemma {:induction false} FirstFailure(rules: NameRules, done: seq<CertificateRequest>, parts: seq<Part>) returns (p: Part)
    requires Requests(rules, done, parts).Err?
    ensures p in parts && rules.derive(p.seed) == Err(Requests(rules, done, parts).error)
    decreases parts
  {
    if rules.derive(parts[0].seed).Err? {
      p := parts[0];
    } else {
      p := FirstFailure(rules, done + [NewRequest(rules, parts[0]).value], parts[1..]);
    }
  }

  lemma {:induction false} FailureStops(rules: NameRules, done: seq<CertificateRequest>, parts: seq<Part>, p: Part)
    requires p in parts && rules.derive(p.seed).Err?
    ensures Requests(rules, done, parts).Err?
    decreases parts
  {
    if rules.derive(parts[0].seed).Ok? {
      FailureStops(rules, done + [NewRequest(rules, parts[0]).value], parts[1..], p);
    }
  }

  /** Every lead leads a part. */
  lemma LeadHasPart(rules: NameRules, zone: string, names: set<string>, grouping: Grouping, lead: string) returns (p: Part)
    requires grouping.PerZone? || grouping.PerWildcard?
    requires IsLead(rules, grouping, zone, names, lead)
    ensures p in ZoneParts(rules, zone, SortedSet(names), grouping) && p.seed == lead
  {
    hide SortedSet, WildcardParts;
    var list := SortedSet(names);
    SortedSetHolds(names);
    assert forall n :: n in list <==> n in Elements(list);
    var parts := ZoneParts(rules, zone, list, grouping);
    if grouping.PerZone? {
      p := parts[0];
    } else {
      ZonePartsHold(rules, zone, list, grouping);
      assert lead in multiset(list);
      p := PartCarrying(parts, lead);
      ZonePartIs(rules, zone, names, grouping, p);
      LedByItself(rules, zone, names, p, lead);
    }
  }

  lemma LedByItself(rules: NameRules, zone: string, names: set<string>, p: Part, lead: string)
    requires IsPart(rules, PerWildcard, zone, names, p) && IsLead(rules, PerWildcard, zone, names, lead) && lead in p.members
    ensures p.seed == lead
  {
    HoldsJust(p.members, Carried(PerWildcard, names, p.seed));
    assert "*." <= p.seed ==> p.seed == "*." + p.seed[2..];
  }

  lemma {:induction false} PartCarrying(parts: seq<Part>, san: string) returns (p: Part)
    requires san in PartSans(parts)
    ensures p in parts && san in p.members
  {
    if san in parts[0].members {
      p := parts[0];
    } else {
      p := PartCarrying(parts[1..], san);
    }
  }

  lemma NaturalFails(rules: NameRules, required: map<string, set<string>>, grouping: Grouping) returns (zone: string, lead: string)
    requires grouping.PerZone? || grouping.PerWildcard?
    requires Natural(rules, required, grouping).Err? && forall z | z in required :: required[z] != {}
    ensures zone in required && IsLead(rules, grouping, zone, required[zone], lead)
    ensures rules.derive(lead) == Err(Natural(rules, required, grouping).error)
  {
    hide SortedSet, ZoneParts, IsLead, Parts;
    var zones := SortedSet(required.Keys);
    SortedSetHolds(required.Keys);
    assert forall z :: z in zones <==> z in Elements(zones);
    var p := FirstFailure(rules, [], Parts(rules, zones, required, grouping));
    PartOrigin(rules, zones, required, grouping, p);
    zone :| zone in zones && p in ZoneParts(rules, zone, SortedSet(Lookup(required, zone)), grouping);
    ZonePartIs(rules, zone, required[zone], grouping, p);
    lead := p.seed;
  }

  lemma LeadStopsNatural(rules: NameRules, required: map<string, set<string>>, grouping: Grouping, zone: string, lead: string)
    requires grouping.PerZone? || grouping.PerWildcard?
    requires zone in required && IsLead(rules, grouping, zone, required[zone], lead) && rules.derive(lead).Err?
    ensures Natural(rules, required, grouping).Err?
  {
    hide SortedSet, ZoneParts, IsLead, Parts;
    var zones := SortedSet(required.Keys);
    SortedSetHolds(required.Keys);
    assert forall z :: z in zones <==> z in Elements(zones);
    var p := LeadHasPart(rules, zone, required[zone], grouping, lead);
    PartsInclude(rules, zones, required, grouping, zone, p);
    FailureStops(rules, [], Parts(rules, zones, required, grouping), p);
  }

  /**
   With usable zones there is no plan exactly when a lead cannot be named, or when something is
   needed under a grouping that is not known; and the error says which.
   */
  lemma PlanFailsIff(rules: NameRules, registry: Registry, input: PlanInput, r: Result<Plan>)
    requires IsPlan(rules, registry, input, r) && ZonesUsable(registry, input.zones)
    ensures input.grouping.Other? ==>
              (r.Err? <==> exists zone, san :: IsNeeded(input, zone, san)) && (r.Err? ==> r.error == UnknownGrouping)
    ensures !input.grouping.Other? ==>
              (r.Err? <==> exists zone, names, lead :: CannotBeNamed(rules, Defaulted(input.grouping), input, zone, names, lead))
    ensures !input.grouping.Other? && r.Err? ==> exists lead :: rules.derive(lead) == Err(r.error)
  {
    hide Natural, IsSelection, Required, IsNeeded, AreNeeded, IsLead, AllHosts;
    var hosts, zones := Elements(AllHosts(input)), ZoneSet(input.zones);
    var required := Required(hosts, zones);
    NothingIsRequiredForNothing(input);
    if input.grouping.Other? {
      UnknownGroupingFails(rules, input, required);
    } else {
      var grouping := Defaulted(input.grouping);
      if r.Err? {
        var zone, lead := NaturalFails(rules, required, grouping);
        RequiredIsWhatIsNeeded(input, zone);
        assert CannotBeNamed(rules, grouping, input, zone, required[zone], lead);
      }
      if zone, names, lead :| CannotBeNamed(rules, grouping, input, zone, names, lead) {
        NeededIsWhatIsRequired(rules, input, grouping, zone, names, lead);
        LeadStopsNatural(rules, required, grouping, zone, lead);
      }
    }
  }

  lemma UnknownGroupingFails(rules: NameRules, input: PlanInput, required: map<string, set<string>>)
    requires required == Required(Elements(AllHosts(input)), ZoneSet(input.zones)) && input.grouping.Other?
    ensures Natural(rules, required, input.grouping) == if exists zone, san :: IsNeeded(input, zone, san) then Err(UnknownGrouping) else Ok([])
  {
    hide AllHosts, Required, Natural, IsNeeded, AreNeeded;
    if z :| z in required {
      NothingIsRequiredForNothing(input);
      RequiredIsWhatIsNeeded(input, z);
      SomethingIsNeeded(input, z, required[z]);
      SomethingUnknown(rules, required, input.grouping);
    } else {
      NothingNaturally(rules, required, input.grouping);
      if zone, san :| IsNeeded(input, zone, san) {
        NeededZoneIsRequired(input, zone, san);
        assert false;
      }
    }
  }

  lemma SomethingIsNeeded(input: PlanInput, zone: string, names: set<string>)
    requires AreNeeded(input, zone, names) && names != {}
    ensures exists zone, san :: IsNeeded(input, zone, san)
  {
    hide IsNeeded;
    var san :| san in names;
    assert IsNeeded(input, zone, san);
  }

  lemma SomethingUnknown(rules: NameRules, required: map<string, set<string>>, grouping: Grouping)
    requires required.Keys != {} && grouping.Other?
    ensures Natural(rules, required, grouping) == Err(UnknownGrouping)
  {
  }

  lemma NothingNaturally(rules: NameRules, required: map<string, set<string>>, grouping: Grouping)
    requires forall z :: z !in required
    ensures Natural(rules, required, grouping) == Ok([])
  {
    hide SortedSet;
    assert required.Keys == {};
    SortedSetHolds({});
    assert |multiset(SortedSet({}))| == 0;
  }

  lemma NeededZoneIsRequired(input: PlanInput, zone: string, san: string)
    requires IsNeeded(input, zone, san)
    ensures zone in Required(Elements(AllHosts(input)), ZoneSet(input.zones))
  {
    hide AllHosts, Required, DemandOf;
    var h :| h in AllHosts(input) && DemandOf(h, ZoneSet(input.zones)) == Needs(zone, san);
    NeededIsRequired(Elements(AllHosts(input)), ZoneSet(input.zones), h);
  }

  lemma NeededIsWhatIsRequired(rules: NameRules, input: PlanInput, grouping: Grouping, zone: string, names: set<string>, lead: string)
    requires AreNeeded(input, zone, names) && IsLead(rules, grouping, zone, names, lead)
    ensures var required := Required(Elements(AllHosts(input)), ZoneSet(input.zones)); zone in required && required[zone] == names
  {
    hide AllHosts, Required, DemandOf, IsNeeded;
    assert names != {};
    var san :| san in names;
    NeededZoneIsRequired(input, zone, san);
    RequiredIsWhatIsNeeded(input, zone);
  }
}
