/** A whole plan in which two certificates share a name (the consequence of RepairLimits). */
module RepeatedNames {
  import opened Outcomes
  import opened Sorting
  import opened Text
  import opened Naming
  import opened Zones
  import opened Packing
  import opened Collisions
  import opened Limit
  import opened Planning
  import opened PlanTheorems
  import opened RepairLimits
  import opened SmallPlans

  /** One zone routed at its apex, one by its wildcard. */
  function ApexAndWildcard(a: string, b: string): PlanInput {
    PlanInput([a, WILDCARD + b], [a, b], 0, [], PerZone, false)
  }

  /** Zones that can stand beside each other in an allowlist. */
  ghost predicate Apart(registry: Registry, a: string, b: string) {
    && IsNormal(a) && IsNormal(b) && Issuable(registry, a) && Issuable(registry, b)
    && a != b && !Within(a, b) && !Within(b, a)
  }

  lemma ApexDemand(registry: Registry, a: string, b: string)
    requires Apart(registry, a, b)
    ensures DemandOf(a, {a, b}) == Needs(a, a)
  {
    assert a != "" && a[0] in a;
    assert TrimPrefix(a, WILDCARD) == a && !(WILDCARD <= a);
    BestZoneIs(a, {a, b}, a);
  }

  lemma WildcardDemand(registry: Registry, a: string, b: string)
    requires Apart(registry, a, b)
    ensures DemandOf(WILDCARD + b, {a, b}) == Needs(b, WILDCARD + b)
  {
    assert (WILDCARD + b)[2..] == b && TrimPrefix(WILDCARD + b, WILDCARD) == b;
    BestZoneIs(b, {a, b}, b);
  }

  lemma NormalInput(registry: Registry, a: string, b: string)
    requires Apart(registry, a, b)
    ensures ZonesUsable(registry, [a, b]) && ZoneSet([a, b]) == {a, b}
    ensures Elements(AllHosts(ApexAndWildcard(a, b))) == {a, WILDCARD + b}
  {
    hide NormalizeHost;
    NormalIsFixpoint(a);
    NormalIsFixpoint(b);
    NormalIsFixpoint(WILDCARD + b);
    NormalHostsStay([a, b]);
    NormalHostsStay([a, WILDCARD + b]);
  }

  lemma RequiredOfTwo(demand: string -> Demand, a: string, b: string)
    requires a != b && demand(a) == Needs(a, a) && demand(WILDCARD + b) == Needs(b, WILDCARD + b)
    ensures RequiredBy({a, WILDCARD + b}, demand, {a, b}) == map[a := {a}, b := {WILDCARD + b}]
  {
    assert NeededBy({a, WILDCARD + b}, demand, a) == {a};
    assert NeededBy({a, WILDCARD + b}, demand, b) == {WILDCARD + b};
  }

  lemma RequiredOfInput(registry: Registry, a: string, b: string)
    requires Apart(registry, a, b)
    ensures Required(Elements(AllHosts(ApexAndWildcard(a, b))), ZoneSet([a, b])) == map[a := {a}, b := {WILDCARD + b}]
  {
    hide DemandOf;
    NormalInput(registry, a, b);
    ApexDemand(registry, a, b);
    WildcardDemand(registry, a, b);
    RequiredOfTwo(Demands({a, b}), a, b);
  }

  /** With names that spell alike, the plan of the two zones repeats a name. */
  lemma PlanOfTwo(rules: NameRules, registry: Registry, a: string, b: string, certs: seq<CertificateRequest>) returns (plan: Plan)
    requires Apart(registry, a, b) && Leq(a, b) && rules.primary([a]) == a
    requires |certs| == 2 && Requests(rules, [], [ApexPart(a), WildcardPart(b)]) == Ok(certs) && Sorted(NameLeq, certs)
    ensures IsPlan(rules, registry, ApexAndWildcard(a, b), Ok(plan)) && plan.certificates == Resolved(rules, certs)
  {
    hide Apart, IsPlan, Resolved, Requests, ApexPart, WildcardPart, Sorted, NameLeq, Leq, Uncapped, AllHosts, Kept, IsSelection;
    var input := ApexAndWildcard(a, b);
    NormalInput(registry, a, b);
    var all := Resolved(rules, certs);
    UncappedOfTwo(rules, registry, a, b, certs);
    NamesHoldNames(all);
    KeepAll(all, Elements(Names(all)));
    plan := PlanExists(rules, registry, input, all, Elements(Names(all)));
  }

  lemma UncappedOfTwo(rules: NameRules, registry: Registry, a: string, b: string, certs: seq<CertificateRequest>)
    requires Apart(registry, a, b) && Leq(a, b) && rules.primary([a]) == a
    requires |certs| == 2 && Requests(rules, [], [ApexPart(a), WildcardPart(b)]) == Ok(certs) && Sorted(NameLeq, certs)
    ensures Uncapped(rules, ApexAndWildcard(a, b)) == Ok(Resolved(rules, certs))
  {
    hide Apart, Resolved, Requests, Natural, Sorted, NameLeq, Leq, Required, AllHosts;
    RequiredOfInput(registry, a, b);
    NaturalOfTwo(rules, registry, a, b, certs);
  }

  lemma NaturalOfTwo(rules: NameRules, registry: Registry, a: string, b: string, certs: seq<CertificateRequest>)
    requires Apart(registry, a, b) && Leq(a, b) && rules.primary([a]) == a
    requires |certs| == 2 && Requests(rules, [], [ApexPart(a), WildcardPart(b)]) == Ok(certs) && Sorted(NameLeq, certs)
    ensures Natural(rules, map[a := {a}, b := {WILDCARD + b}], PerZone) == Ok(certs)
  {
    assert [ApexPart(a), WildcardPart(b)][1..] == [WildcardPart(b)];
    var first := NewRequest(rules, ApexPart(a));
    var second := NewRequest(rules, WildcardPart(b));
    TwoRequests(rules, ApexPart(a), WildcardPart(b), first.value, second.value);
    assert WILDCARD + b in [WILDCARD + b] && WILDCARD + a != a;
    assert NameLeq(certs[0], certs[1]);
    TwoZonePlan(rules, map[a := {a}, b := {WILDCARD + b}], ApexPart(a), WildcardPart(b), certs[0], certs[1]);
  }

  // ----- The two zones of RepairLimits -----

  lemma NotASuffix(s: string, t: string, k: nat)
    requires k < |t| <= |s| && s[|s| - |t| + k] != t[k]
    ensures !HasSuffix(s, t)
  {
    assert s[|s| - |t|..][k] == s[|s| - |t| + k];
  }

  /** The impostor has a hyphen where the long zone, which has none, ends. */
  lemma NeitherContainsTheOther(tail: string, hex: string)
    requires IsLongTail(tail) && IsShortDigest(hex)
    ensures var a, b := "wildcard." + tail + ("-" + hex), LongZone(tail);
            a != b && !Within(a, b) && !Within(b, a)
  {
    var a, b := "wildcard." + tail + ("-" + hex), LongZone(tail);
    assert |a| == 127 && |b| == 219 && a[118] == '-' && b[210] == tail[100];
    NotASuffix(b, "." + a, 119);
  }

  lemma WildcardNameIsNormal(tail: string, hex: string)
    requires IsLongTail(tail) && IsShortDigest(hex)
    ensures IsNormal("wildcard." + tail + ("-" + hex))
  {
    hide IsLongTail, IsShortDigest, IsNormal;
    ImpostorIsNormal("wildcard.", tail, hex);
  }

  lemma ZonesApart(digest: ShortDigest, registry: Registry, tail: string)
    requires IsLongTail(tail) && Issuable(registry, Impostor(digest, tail)) && Issuable(registry, LongZone(tail))
    ensures Apart(registry, Impostor(digest, tail), LongZone(tail))
  {
    hide Within, IsNormal, IsLongTail, IsShortDigest, LongZone, Issuable;
    var hex := digest(WILDCARD + LongZone(tail));
    assert IsShortDigest(hex);
    WildcardNameIsNormal(tail, hex);
    LongZoneIsNormal(tail);
    NeitherContainsTheOther(tail, hex);
  }

  lemma LongZoneIsNormal(tail: string)
    requires IsLongTail(tail)
    ensures IsNormal(LongZone(tail))
  {
    var zone := LongZone(tail);
    assert zone[|zone| - 1] == tail[108];
    forall c | c in zone
      ensures !IsUpper(c)
    {
      assert c == '.' || c in tail;
    }
  }

  lemma PrimaryOfOne(digest: ShortDigest, a: string)
    requires IsNormal(a)
    ensures VaultNames(digest).primary([a]) == a
  {
    hide NormalizeHost;
    NormalIsFixpoint(a);
    NormalHostsStay([a]);
    assert [a][1..] == [];
    assert PrimaryFrom([a], "") == PrimaryFrom([], a);
  }

  /**
   Whatever the digest, a successful plan for two allowed zones can hold two certificates of
   one name, so two Certificates, two syncs and two certificates in the vault become one.
   */
  lemma PlanRepeatsAName(digest: ShortDigest, registry: Registry, tail: string) returns (input: PlanInput, plan: Plan)
    requires IsLongTail(tail) && Issuable(registry, Impostor(digest, tail)) && Issuable(registry, LongZone(tail))
    ensures input == ApexAndWildcard(Impostor(digest, tail), LongZone(tail))
    ensures IsPlan(VaultNames(digest), registry, input, Ok(plan)) && |plan.certificates| == 2 && !Distinct(Names(plan.certificates))
  {
    hide IsPlan, Impostor, LongZone, Issuable, IsLongTail, DeriveVaultCertificateName, DisambiguateVaultName, Primary, Requests, Resolved;
    var a, b := Impostor(digest, tail), LongZone(tail);
    var apex, long, certs := TruncationDefeatsRepair(digest, tail);
    ZonesApart(digest, registry, tail);
    PrimaryOfOne(digest, a);
    input := ApexAndWildcard(a, b);
    plan := PlanOfTwo(VaultNames(digest), registry, a, b, certs);
  }

  lemma OneNameIsKept(all: seq<CertificateRequest>, existing: set<string>)
    requires |all| == 2 && all[0].name == all[1].name
    ensures IsSelection(Names(all), 1, existing, {all[0].name}) && Kept(all, {all[0].name}) == all
  {
    var name := all[0].name;
    assert Names(all) == [name, name];
    KeepAll(all, {name});
  }

  lemma SameName(all: seq<CertificateRequest>)
    requires |all| == 2 && !Distinct(Names(all))
    ensures all[0].name == all[1].name
  {
    assert Names(all) == [all[0].name, all[1].name];
  }

  /** The cap counts names, so a plan of two certificates with one name passes a cap of one. */
  lemma TwoPassForOne(rules: NameRules, registry: Registry, input: PlanInput, plan: Plan) returns (capped: Plan)
    requires IsPlan(rules, registry, input, Ok(plan)) && input.maxCertificates <= 0
    requires |plan.certificates| == 2 && !Distinct(Names(plan.certificates))
    ensures IsPlan(rules, registry, input.(maxCertificates := 1), Ok(capped)) && capped.certificates == plan.certificates
  {
    hide Uncapped, IsPlan, Kept, Dropped, Sort, Skips, IsSelection, Distinct, Names, Elements;
    var all, keep := PlanWitness(rules, registry, input, plan);
    CapIsExact(all, input.maxCertificates, Elements(input.existing), keep);
    SameBeforeTheCap(rules, registry, input, plan, 1);
    SameName(all);
    OneNameIsKept(all, Elements(input.existing));
    capped := PlanExists(rules, registry, input.(maxCertificates := 1), all, {all[0].name});
  }

  lemma SameBeforeTheCap(rules: NameRules, registry: Registry, input: PlanInput, plan: Plan, max: int)
    requires IsPlan(rules, registry, input, Ok(plan))
    ensures ZonesUsable(registry, input.zones) && Uncapped(rules, input.(maxCertificates := max)) == Uncapped(rules, input)
  {
    assert AllHosts(input.(maxCertificates := max)) == AllHosts(input);
  }

  /** Whatever the digest, a plan can hold more certificates than its policy allows. */
  lemma PlanExceedsItsCap(digest: ShortDigest, registry: Registry, tail: string) returns (input: PlanInput, plan: Plan)
    requires IsLongTail(tail) && Issuable(registry, Impostor(digest, tail)) && Issuable(registry, LongZone(tail))
    ensures input == ApexAndWildcard(Impostor(digest, tail), LongZone(tail)).(maxCertificates := 1)
    ensures IsPlan(VaultNames(digest), registry, input, Ok(plan)) && |plan.certificates| == 2 > input.maxCertificates
  {
    hide IsPlan, Impostor, LongZone, Issuable, IsLongTail, VaultNames;
    var uncapped, both := PlanRepeatsAName(digest, registry, tail);
    input := uncapped.(maxCertificates := 1);
    plan := TwoPassForOne(VaultNames(digest), registry, uncapped, both);
  }

  // ----- Both can be met with -----

  lemma OrdinaryLabels(tail: string, hex: string)
    requires tail == OrdinaryTail() && IsShortDigest(hex)
    ensures NoEmptyLabel("wildcard." + tail + ("-" + hex)) && NoEmptyLabel(LongZone(tail))
    ensures '*' !in "wildcard." + tail + ("-" + hex) && '*' !in LongZone(tail)
  {
    var a, b := "wildcard." + tail + ("-" + hex), LongZone(tail);
    assert forall i | 0 <= i < |tail| :: tail[i] == if i == 54 then '.' else 'x';
    assert forall i | 0 <= i < 8 :: hex[i] in hex;
    assert forall i | 0 <= i < |a| :: a[i] == '.' <==> i == 8 || i == 63;
    assert forall i | 0 <= i < |b| :: b[i] == '.' <==> i == 54 || i == 109 || i == 164;
  }

  /** Any two names without a wildcard or an empty label are accepted by some registry. */
  lemma TwoCanBeIssued(a: string, b: string) returns (registry: Registry)
    requires NoEmptyLabel(a) && NoEmptyLabel(b) && '*' !in a && '*' !in b
    ensures Issuable(registry, a) && Issuable(registry, b)
  {
    hide NoEmptyLabel;
    registry := z => z == a || z == b;
  }

  /** For every digest some registry accepts the two zones of an ordinary tail. */
  lemma OrdinaryZonesCanBeIssued(digest: ShortDigest) returns (registry: Registry)
    ensures IsLongTail(OrdinaryTail())
    ensures Issuable(registry, Impostor(digest, OrdinaryTail())) && Issuable(registry, LongZone(OrdinaryTail()))
  {
    hide IsLongTail, IsShortDigest, LongZone, OrdinaryTail, NoEmptyLabel, IsHostLength, Issuable;
    var hex := digest(WILDCARD + LongZone(OrdinaryTail()));
    assert IsShortDigest(hex);
    OrdinaryLabels(OrdinaryTail(), hex);
    LongTailsCanBeOrdinary(digest);
    registry := TwoCanBeIssued(Impostor(digest, OrdinaryTail()), LongZone(OrdinaryTail()));
  }
}
