/** Issuing zone wildcards pins the names of a plan, whatever is discovered. */
module PinnedNames {
  import opened Outcomes
  import opened Sorting
  import opened Text
  import opened Zones
  import opened Packing
  import opened Collisions
  import opened Limit
  import opened Planning
  import opened PlanTheorems
  import opened PlanStability

  /** Names for a list of seeds, in order, or the first error. */
  ghost function DerivedNames(rules: NameRules, done: seq<string>, seeds: seq<string>): Result<seq<string>>
    decreases seeds
  {
    if seeds == [] then Ok(done) else
    var name :- rules.derive(seeds[0]);
    DerivedNames(rules, done + [name], seeds[1..])
  }

  /** The names of requests depend on their seeds alone. */
  lemma {:induction false} RequestNames(rules: NameRules, done: seq<CertificateRequest>, parts: seq<Part>, seeds: seq<string>)
    requires |seeds| == |parts| && forall i | 0 <= i < |parts| :: parts[i].seed == seeds[i]
    ensures match Requests(rules, done, parts)
            case Ok(certs) => DerivedNames(rules, Names(done), seeds) == Ok(Names(certs))
            case Err(e) => DerivedNames(rules, Names(done), seeds) == Err(e)
    decreases parts
  {
    if parts != [] {
      var request := NewRequest(rules, parts[0]);
      if request.Ok? {
        MapAppend(NameOf, done, [request.value]);
        assert Names(done + [request.value]) == Names(done) + [request.value.name];
        assert request.value.name == rules.derive(seeds[0]).value;
        RequestNames(rules, done + [request.value], parts[1..], seeds[1..]);
      }
    }
  }

  /** Sorting requests by name sorts their names. */
  lemma {:induction false} NamesOfInsert(x: CertificateRequest, s: seq<CertificateRequest>)
    ensures Names(Insert(NameLeq, x, s)) == Insert(Leq, x.name, Names(s))
  {
    if s == [] || NameLeq(x, s[0]) {
      assert ([x] + s)[1..] == s;
    } else {
      NamesOfInsert(x, s[1..]);
      assert Insert(NameLeq, x, s)[1..] == Insert(NameLeq, x, s[1..]);
    }
  }

  lemma {:induction false} NamesOfSort(s: seq<CertificateRequest>)
    ensures Names(Sort(NameLeq, s)) == SortStrings(Names(s))
  {
    if s != [] {
      NamesOfSort(s[1..]);
      NamesOfInsert(s[0], Sort(NameLeq, s[1..]));
    }
  }

  /** Where no two names agree there is nothing to repair. */
  lemma DistinctNeedNoRepair(rules: NameRules, certs: seq<CertificateRequest>)
    requires Distinct(Names(certs))
    ensures Resolved(rules, certs) == certs
  {
    forall i | 0 <= i < |certs|
      ensures Resolved(rules, certs)[i] == certs[i]
    {
      NothingTaken(rules, certs, i);
      ResolvedIsFinal(rules, certs, i);
    }
  }

  lemma {:induction false} NothingTaken(rules: NameRules, certs: seq<CertificateRequest>, i: nat)
    requires Distinct(Names(certs)) && i < |certs|
    ensures !Taken(rules, certs, i)
    decreases i
  {
    forall j | 0 <= j < i
      ensures certs[j].name != certs[i].name && !Taken(rules, certs, j)
    {
      assert Names(certs)[j] != Names(certs)[i];
      NothingTaken(rules, certs, j);
    }
  }

  /** Whether every zone is required, its own wildcard among its SANs. */
  ghost predicate Seeded(required: map<string, set<string>>, zones: set<string>) {
    required.Keys == zones && forall z | z in zones :: SeedOf(z) in required[z]
  }

  /** With its own wildcard required, a zone is one certificate named after that wildcard. */
  lemma {:induction false} SeededParts(rules: NameRules, order: seq<string>, required: map<string, set<string>>)
    requires forall z | z in order :: z in required && SeedOf(z) in required[z]
    ensures var parts := Parts(rules, order, required, PerZone);
            |parts| == |order| && forall i | 0 <= i < |order| :: parts[i].seed == SeedOf(order[i])
  {
    hide SortedSet;
    if order != [] {
      SeededParts(rules, order[1..], required);
      SortedSetHolds(required[order[0]]);
      assert SeedOf(order[0]) in Elements(SortedSet(required[order[0]]));
      var first := ZoneParts(rules, order[0], SortedSet(required[order[0]]), PerZone);
      var rest := Parts(rules, order[1..], required, PerZone);
      assert first + rest == Parts(rules, order, required, PerZone);
      assert |first| == 1 && first[0].seed == SeedOf(order[0]);
      forall i | 0 <= i < |order|
        ensures (first + rest)[i].seed == SeedOf(order[i])
      {
        if i > 0 {
          assert (first + rest)[i] == rest[i - 1] && order[i] == order[1..][i - 1];
        }
      }
    }
  }

  /** The names of a seeded plan: one for each zone, told from the zones alone. */
  ghost function Pinned(rules: NameRules, zones: set<string>): Result<seq<string>> {
    var names :- DerivedNames(rules, [], Seeds(SortedSet(zones)));
    Ok(SortStrings(names))
  }

  lemma SeededNames(rules: NameRules, required: map<string, set<string>>, zones: set<string>)
    requires Seeded(required, zones)
    ensures match Natural(rules, required, PerZone)
            case Ok(certs) => Pinned(rules, zones) == Ok(Names(certs))
            case Err(e) => Pinned(rules, zones) == Err(e)
  {
    SeededRequests(rules, SortedSet(zones), required, zones);
    var requests := Requests(rules, [], Parts(rules, SortedSet(zones), required, PerZone));
    if requests.Ok? {
      NamesOfSort(requests.value);
    }
  }

  lemma SeededRequests(rules: NameRules, order: seq<string>, required: map<string, set<string>>, zones: set<string>)
    requires Seeded(required, zones) && order == SortedSet(zones)
    ensures match Requests(rules, [], Parts(rules, order, required, PerZone))
            case Ok(certs) => DerivedNames(rules, [], Seeds(order)) == Ok(Names(certs))
            case Err(e) => DerivedNames(rules, [], Seeds(order)) == Err(e)
  {
    SortedSetHolds(zones);
    assert forall z :: z in order <==> z in Elements(order);
    SeededParts(rules, order, required);
    RequestNames(rules, [], Parts(rules, order, required, PerZone), Seeds(order));
  }

  lemma SeedsAreHosts(input: PlanInput)
    requires Allowlist(ZoneSet(input.zones)) && Tidy(ZoneSet(input.zones)) && input.issueZoneWildcards
    ensures forall z | z in ZoneSet(input.zones) :: SeedOf(z) in Elements(AllHosts(input))
  {
    AllHostsSplit(input);
    SeedHostsAre(input);
    forall z | z in ZoneSet(input.zones)
      ensures SeedOf(z) in Elements(AllHosts(input))
    {
      assert SeedOf(z) in SeedHosts(input);
    }
  }

  lemma SeedsAreRequired(input: PlanInput)
    requires Allowlist(ZoneSet(input.zones)) && Tidy(ZoneSet(input.zones)) && input.issueZoneWildcards
    ensures Seeded(Required(Elements(AllHosts(input)), ZoneSet(input.zones)), ZoneSet(input.zones))
  {
    var zones := ZoneSet(input.zones);
    SeedsAreHosts(input);
    forall z | z in zones
      ensures z in Required(Elements(AllHosts(input)), zones) && SeedOf(z) in Required(Elements(AllHosts(input)), zones)[z]
    {
      SeedDemandsItself(z, zones);
      NeededIsRequired(Elements(AllHosts(input)), zones, SeedOf(z));
    }
  }

  /** A plan that seeds its zones has the pinned names, before the cap. */
  lemma UncappedIsPinned(rules: NameRules, input: PlanInput)
    requires Allowlist(ZoneSet(input.zones)) && Tidy(ZoneSet(input.zones))
    requires input.issueZoneWildcards && Defaulted(input.grouping) == PerZone
    requires Pinned(rules, ZoneSet(input.zones)).Ok? ==> Distinct(Pinned(rules, ZoneSet(input.zones)).value)
    ensures match Uncapped(rules, input)
            case Ok(certs) => Pinned(rules, ZoneSet(input.zones)) == Ok(Names(certs))
            case Err(e) => Pinned(rules, ZoneSet(input.zones)) == Err(e)
  {
    var required := Required(Elements(AllHosts(input)), ZoneSet(input.zones));
    SeedsAreRequired(input);
    SeededNames(rules, required, ZoneSet(input.zones));
    var natural := Natural(rules, required, PerZone);
    if natural.Ok? {
      DistinctNeedNoRepair(rules, natural.value);
    }
  }

  /**
   With zone wildcards issued and zone names that do not collide, whether the plan succeeds,
   which names it holds and which of them it keeps are the same for every host list; the
   plan is never empty, and no zone's own wildcard is skipped as unusable.
   */
  lemma ZoneWildcardsPinNames(rules: NameRules, registry: Registry, a: PlanInput, b: PlanInput, ra: Result<Plan>, rb: Result<Plan>)
    requires IsPlan(rules, registry, a, ra) && IsPlan(rules, registry, b, rb) && SameSettings(a, b)
    requires a.issueZoneWildcards && Defaulted(a.grouping) == PerZone && Tidy(ZoneSet(a.zones))
    requires Pinned(rules, ZoneSet(a.zones)).Ok? ==> Distinct(Pinned(rules, ZoneSet(a.zones)).value)
    ensures ra.Ok? <==> rb.Ok?
    ensures ra.Ok? ==> Names(ra.value.certificates) == Names(rb.value.certificates) != []
    ensures ra.Ok? ==> forall z | z in ZoneSet(a.zones) :: SeedIsPlanned(ra.value, z)
  {
    UsableBySet(registry, a.zones, b.zones);
    if ZonesUsable(registry, a.zones) {
      UsableZonesAreAllowlist(registry, a.zones);
      UncappedIsPinned(rules, a);
      UncappedIsPinned(rules, b);
      if ra.Ok? {
        PinnedSelection(rules, registry, a, b, ra.value, rb.value);
        SeedsArePlanned(rules, registry, a, ra.value);
      }
    }
  }

  lemma PinnedSelection(rules: NameRules, registry: Registry, a: PlanInput, b: PlanInput, p: Plan, q: Plan)
    requires IsPlan(rules, registry, a, Ok(p)) && IsPlan(rules, registry, b, Ok(q)) && SameSettings(a, b)
    requires Names(Uncapped(rules, a).value) == Names(Uncapped(rules, b).value)
    requires Pinned(rules, ZoneSet(a.zones)) == Ok(Names(Uncapped(rules, a).value))
    ensures Names(p.certificates) == Names(q.certificates) != []
  {
    var certs, keep := PlanWitness(rules, registry, a, p);
    var certs', keep' := PlanWitness(rules, registry, b, q);
    SelectionIsUnique(Names(certs), a.maxCertificates, Elements(a.existing), keep, keep');
    NamesOfKept(certs, keep);
    NamesOfKept(certs', keep');
    PinnedNotEmpty(rules, ZoneSet(a.zones));
    SelectionNotEmpty(certs, a.maxCertificates, Elements(a.existing), keep);
  }

  lemma SeedsArePlanned(rules: NameRules, registry: Registry, input: PlanInput, plan: Plan)
    requires IsPlan(rules, registry, input, Ok(plan))
    requires input.issueZoneWildcards && Tidy(ZoneSet(input.zones))
    ensures forall z | z in ZoneSet(input.zones) :: SeedIsPlanned(plan, z)
  {
    UsableZonesAreAllowlist(registry, input.zones);
    var over := PlanConservesSans(rules, registry, input, plan);
    SeedsAreHosts(input);
    SeedsCarriedOrOver(Elements(AllHosts(input)), ZoneSet(input.zones), plan, over);
    forall z | z in ZoneSet(input.zones)
      ensures SeedIsPlanned(plan, z)
    {
      SeedIsNotSkipped(rules, registry, input, plan, z);
    }
  }

  /** The wildcard of a zone is carried or over the cap, and skipped for no other reason. */
  ghost predicate SeedIsPlanned(plan: Plan, zone: string) {
    && (IsCarried(plan, SeedOf(zone)) || IsOverCap(plan, SeedOf(zone)))
    && forall e | e in plan.skipped && e.host == SeedOf(zone) :: e.reason == ReasonMaxCertificates
  }

  lemma SeedIsNotSkipped(rules: NameRules, registry: Registry, input: PlanInput, plan: Plan, zone: string)
    requires IsPlan(rules, registry, input, Ok(plan))
    requires Tidy(ZoneSet(input.zones)) && zone in ZoneSet(input.zones)
    ensures forall e | e in plan.skipped && e.host == SeedOf(zone) :: e.reason == ReasonMaxCertificates
  {
    var certs, keep := PlanWitness(rules, registry, input, plan);
    SeedDemandsItself(zone, ZoneSet(input.zones));
    forall e | e in plan.skipped && e.host == SeedOf(zone)
      ensures e.reason == ReasonMaxCertificates
    {
      SkippedMeans(AllHosts(input), Demands(ZoneSet(input.zones)), Dropped(certs, keep), plan.skipped, e);
    }
  }

  lemma SeedsCarriedOrOver(hosts: set<string>, zones: set<string>, plan: Plan, over: seq<CertificateRequest>)
    requires Allowlist(zones) && Tidy(zones) && forall z | z in zones :: SeedOf(z) in hosts
    requires Sans(plan.certificates) + Sans(over) == multiset(AllNeeded(hosts, zones))
    requires forall san :: IsOverCap(plan, san) <==> san in Sans(over)
    ensures forall z | z in zones :: IsCarried(plan, SeedOf(z)) || IsOverCap(plan, SeedOf(z))
  {
    forall z | z in zones
      ensures IsCarried(plan, SeedOf(z)) || IsOverCap(plan, SeedOf(z))
    {
      SeedDemandsItself(z, zones);
      assert SeedOf(z) in hosts;
      CarriedOrOverCap(plan, over, AllNeeded(hosts, zones), SeedOf(z));
    }
  }

  /** A plan with certificates keeps at least one of them. */
  lemma SelectionNotEmpty(certs: seq<CertificateRequest>, max: int, existing: set<string>, keep: set<string>)
    requires certs != [] && IsSelection(Names(certs), max, existing, keep)
    ensures Kept(certs, keep) != []
  {
    assert Names(certs)[0] in Elements(Names(certs));
    SubsetSize({Names(certs)[0]}, Elements(Names(certs)));
    var n :| n in keep;
    NamesOfKept(certs, keep);
    KeepingTakes(Names(certs), keep);
    assert n in Names(Kept(certs, keep));
  }

  lemma PinnedNotEmpty(rules: NameRules, zones: set<string>)
    requires zones != {} && Pinned(rules, zones).Ok?
    ensures Pinned(rules, zones).value != []
  {
    SortedSetHolds(zones);
    var z :| z in zones;
    assert z in Elements(SortedSet(zones));
    DerivedCount(rules, [], Seeds(SortedSet(zones)));
    SortKeeps(Leq, DerivedNames(rules, [], Seeds(SortedSet(zones))).value);
  }

  lemma {:induction false} DerivedCount(rules: NameRules, done: seq<string>, seeds: seq<string>)
    requires DerivedNames(rules, done, seeds).Ok?
    ensures |DerivedNames(rules, done, seeds).value| == |done| + |seeds|
    decreases seeds
  {
    if seeds != [] {
      DerivedCount(rules, done + [rules.derive(seeds[0]).value], seeds[1..]);
    }
  }
}
