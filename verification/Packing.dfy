/** Packing required SANs into certificate requests (group in wildcard.go). */
module Packing {
  import opened Outcomes
  import opened Sorting
  import opened Text
  import opened Naming

  datatype Grouping = Unset | PerZone | PerWildcard | Other(text: string)

  datatype CertificateRequest = CertificateRequest(name: string, zone: string, dnsNames: seq<string>)

  /** A certificate to be requested: where it belongs, what it is named after, what it covers. */
  datatype Part = Part(zone: string, seed: string, members: seq<string>)

  /**
   The naming rules packing works with: how a DNS name becomes a certificate name, which of
   several names is the primary one, and what to fall back to when a name is taken.
   */
  datatype NameRules = NameRules(
    derive: string -> Result<string>,
    primary: seq<string> -> string,
    fallback: (string, string) -> string)

  /** The rules of the operator, for one short digest. */
  function VaultNames(digest: ShortDigest): NameRules {
    NameRules(
      dnsName => DeriveVaultCertificateName(digest, dnsName),
      names => Primary(names),
      (name, seed) => DisambiguateVaultName(digest, name, seed))
  }

  // ----- Sets in sorted order -----

  ghost function Arrange(s: set<string>): (out: seq<string>)
    ensures multiset(out) == multiset(s)
  {
    if s == {} then [] else
    var x :| x in s;
    assert s == {x} + (s - {x});
    [x] + Arrange(s - {x})
  }

  ghost function SortedSet(s: set<string>): seq<string> {
    SortStrings(Arrange(s))
  }

  lemma SortedSetIs(s: set<string>, out: seq<string>)
    requires multiset(out) == multiset(s)
    ensures SortStrings(out) == SortedSet(s)
  {
    LeqIsOrder();
    SortOfPermutation(Leq, out, Arrange(s));
  }

  lemma SortedSetHolds(s: set<string>)
    ensures multiset(SortedSet(s)) == multiset(s)
    ensures Elements(SortedSet(s)) == s && Distinct(SortedSet(s)) && Sorted(Leq, SortedSet(s))
    ensures SortStrings(SortedSet(s)) == SortedSet(s)
  {
    LeqIsOrder();
    var out := SortedSet(s);
    SortKeeps(Leq, Arrange(s));
    SortSorts(Leq, Arrange(s));
    SetArrangement(s, out);
    SortedSetIs(s, out);
  }

  lemma SetArrangement(s: set<string>, out: seq<string>)
    requires multiset(out) == multiset(s)
    ensures Elements(out) == s && Distinct(out)
  {
    forall x
      ensures x in out <==> x in s
    {
      assert x in multiset(out) <==> x in multiset(s);
    }
    CountedOnceIsDistinct(out);
  }

  /** Collects the keys in whatever order the map yields them, then sorts. */
  method SortedKeys(keys: set<string>) returns (out: seq<string>)
    ensures out == SortedSet(keys)
  {
    out := [];
    var todo := keys;
    while todo != {}
      invariant todo <= keys && multiset(out) == multiset(keys - todo)
      decreases todo
    {
      var key :| key in todo;
      assert keys - (todo - {key}) == (keys - todo) + {key};
      out := out + [key];
      todo := todo - {key};
    }
    assert keys - todo == keys;
    SortedSetIs(keys, out);
    out := SortStrings(out);
  }

  // ----- One zone -----

  function PerZoneNameSeed(rules: NameRules, zone: string, names: seq<string>): string {
    if WILDCARD + zone in names then WILDCARD + zone else rules.primary(names)
  }

  function Apexes(names: seq<string>): seq<string> {
    Select((n: string) => !IsWildcard(n), names)
  }

  function Wildcards(names: seq<string>): seq<string> {
    Select((n: string) => IsWildcard(n), names)
  }

  method PartitionApex(names: seq<string>) returns (apexes: seq<string>, wildcards: seq<string>)
    ensures apexes == Apexes(names) && wildcards == Wildcards(names)
  {
    apexes, wildcards := [], [];
    for i := 0 to |names|
      invariant apexes + Apexes(names[i..]) == Apexes(names)
      invariant wildcards + Wildcards(names[i..]) == Wildcards(names)
    {
      assert names[i..][0] == names[i] && names[i..][1..] == names[i + 1..];
      if IsWildcard(names[i]) {
        wildcards := wildcards + [names[i]];
      } else {
        apexes := apexes + [names[i]];
      }
    }
  }

  function Without(list: seq<string>, drop: string): seq<string> {
    if list == [] then [] else (if list[0] != drop then [list[0]] else []) + Without(list[1..], drop)
  }

  method Remove(list: seq<string>, drop: string) returns (out: seq<string>)
    ensures out == Without(list, drop)
  {
    out := [];
    for i := 0 to |list|
      invariant out + Without(list[i..], drop) == Without(list, drop)
    {
      assert list[i..][0] == list[i] && list[i..][1..] == list[i + 1..];
      ghost var rest := list[i + 1..];
      assert Without(list[i..], drop) == (if list[i] != drop then [list[i]] else []) + Without(rest, drop);
      if list[i] != drop {
        assert (out + [list[i]]) + Without(rest, drop) == out + ([list[i]] + Without(rest, drop));
        out := out + [list[i]];
      } else {
        assert [] + Without(rest, drop) == Without(rest, drop);
      }
    }
  }

  /** The parts of the wildcards in order, each taking its apex along, then the apexes nobody took. */
  function WildcardParts(zone: string, wildcards: seq<string>, apexes: seq<string>): seq<Part> {
    if wildcards == [] then ApexParts(zone, apexes) else
    var w := wildcards[0];
    if WILDCARD <= w && w[2..] in apexes then
      [Part(zone, w, [w, w[2..]])] + WildcardParts(zone, wildcards[1..], Without(apexes, w[2..]))
    else [Part(zone, w, [w])] + WildcardParts(zone, wildcards[1..], apexes)
  }

  function ApexParts(zone: string, apexes: seq<string>): seq<Part> {
    if apexes == [] then [] else [Part(zone, apexes[0], [apexes[0]])] + ApexParts(zone, apexes[1..])
  }

  function ZoneParts(rules: NameRules, zone: string, names: seq<string>, grouping: Grouping): seq<Part> {
    if grouping == PerZone then [Part(zone, PerZoneNameSeed(rules, zone, names), names)]
    else WildcardParts(zone, Wildcards(names), Apexes(names))
  }

  // ----- All zones -----

  function Lookup(required: map<string, set<string>>, zone: string): set<string> {
    if zone in required then required[zone] else {}
  }

  ghost function Parts(rules: NameRules, zones: seq<string>, required: map<string, set<string>>, grouping: Grouping): seq<Part> {
    if zones == [] then []
    else ZoneParts(rules, zones[0], SortedSet(Lookup(required, zones[0])), grouping) + Parts(rules, zones[1..], required, grouping)
  }

  function NewRequest(rules: NameRules, part: Part): Result<CertificateRequest> {
    var name :- rules.derive(part.seed);
    Ok(CertificateRequest(name, part.zone, SortStrings(part.members)))
  }

  /** Requests for the parts in order, stopping at the first name that cannot be derived. */
  function Requests(rules: NameRules, done: seq<CertificateRequest>, parts: seq<Part>): Result<seq<CertificateRequest>>
    decreases parts
  {
    if parts == [] then Ok(done) else
    var request :- NewRequest(rules, parts[0]);
    Requests(rules, done + [request], parts[1..])
  }

  predicate NameLeq(a: CertificateRequest, b: CertificateRequest) {
    Leq(a.name, b.name)
  }

  lemma NameLeqIsTotal()
    ensures Total(NameLeq)
  {
    LeqIsOrder();
  }

  ghost function Natural(rules: NameRules, required: map<string, set<string>>, grouping: Grouping): Result<seq<CertificateRequest>> {
    if required.Keys != {} && !grouping.PerZone? && !grouping.PerWildcard? then Err(UnknownGrouping) else
    var certs :- Requests(rules, [], Parts(rules, SortedSet(required.Keys), required, grouping));
    Ok(Sort(NameLeq, certs))
  }

  method GroupByWildcard(rules: NameRules, zone: string, names: seq<string>, done: seq<CertificateRequest>)
    returns (r: Result<seq<CertificateRequest>>)
    ensures r == Requests(rules, done, ZoneParts(rules, zone, names, PerWildcard))
  {
    var certs := done;
    var apexes, wildcards := PartitionApex(names);
    for i := 0 to |wildcards|
      invariant Requests(rules, done, ZoneParts(rules, zone, names, PerWildcard)) ==
                Requests(rules, certs, WildcardParts(zone, wildcards[i..], apexes))
    {
      ghost var todo := WildcardParts(zone, wildcards[i..], apexes);
      assert wildcards[i..][0] == wildcards[i] && wildcards[i..][1..] == wildcards[i + 1..];
      var wildcard := wildcards[i];
      var members := [wildcard];
      if WILDCARD <= wildcard {
        var apex := wildcard[2..];
        if apex in apexes {
          members := members + [apex];
          assert members == [wildcard, wildcard[2..]];
          apexes := Remove(apexes, apex);
        }
      }
      assert todo == [Part(zone, wildcard, members)] + WildcardParts(zone, wildcards[i + 1..], apexes);
      var cert := NewRequest(rules, Part(zone, wildcard, members));
      if cert.Err? {
        return Err(cert.error);
      }
      certs := certs + [cert.value];
    }
    for i := 0 to |apexes|
      invariant Requests(rules, done, ZoneParts(rules, zone, names, PerWildcard)) ==
                Requests(rules, certs, ApexParts(zone, apexes[i..]))
    {
      assert apexes[i..][0] == apexes[i] && apexes[i..][1..] == apexes[i + 1..];
      var cert := NewRequest(rules, Part(zone, apexes[i], [apexes[i]]));
      if cert.Err? {
        return Err(cert.error);
      }
      certs := certs + [cert.value];
    }
    return Ok(certs);
  }

  method GroupZone(rules: NameRules, zone: string, names: seq<string>, grouping: Grouping, done: seq<CertificateRequest>)
    returns (r: Result<seq<CertificateRequest>>)
    ensures r == if grouping.PerZone? || grouping.PerWildcard? then Requests(rules, done, ZoneParts(rules, zone, names, grouping))
                 else Err(UnknownGrouping)
  {
    match grouping
    case PerZone =>
      var cert := NewRequest(rules, Part(zone, PerZoneNameSeed(rules, zone, names), names));
      if cert.Err? {
        return Err(cert.error);
      }
      return Ok(done + [cert.value]);
    case PerWildcard =>
      r := GroupByWildcard(rules, zone, names, done);
    case _ =>
      return Err(UnknownGrouping);
  }

  /** The loop of group over the zones. */
  method GroupZones(rules: NameRules, zones: seq<string>, required: map<string, set<string>>, grouping: Grouping)
    returns (r: Result<seq<CertificateRequest>>)
    requires forall z | z in zones :: z in required
    ensures r == if zones == [] || grouping.PerZone? || grouping.PerWildcard? then Requests(rules, [], Parts(rules, zones, required, grouping))
                 else Err(UnknownGrouping)
  {
    var certs: seq<CertificateRequest> := [];
    for i := 0 to |zones|
      invariant grouping.PerZone? || grouping.PerWildcard? || i == 0
      invariant Requests(rules, [], Parts(rules, zones, required, grouping)) ==
                Requests(rules, certs, Parts(rules, zones[i..], required, grouping))
    {
      var names := SortedKeys(required[zones[i]]);
      assert zones[i..][1..] == zones[i + 1..];
      NextZone(rules, certs, zones[i..], required, grouping);
      var more := GroupZone(rules, zones[i], names, grouping, certs);
      if more.Err? {
        return Err(more.error);
      }
      certs := more.value;
    }
    return Ok(certs);
  }

  /** Everything group does before it repairs names. */
  method GroupNaturally(rules: NameRules, required: map<string, set<string>>, grouping: Grouping)
    returns (r: Result<seq<CertificateRequest>>)
    ensures r == Natural(rules, required, grouping)
  {
    var zones := SortedKeys(required.Keys);
    SortedSetHolds(required.Keys);
    assert forall z :: z in zones <==> z in Elements(zones);
    var certs := GroupZones(rules, zones, required, grouping);
    if certs.Err? {
      return Err(certs.error);
    }
    return Ok(Sort(NameLeq, certs.value));
  }

  lemma NextZone(rules: NameRules, done: seq<CertificateRequest>, zones: seq<string>, required: map<string, set<string>>, grouping: Grouping)
    requires zones != []
    ensures Requests(rules, done, Parts(rules, zones, required, grouping)) ==
            match Requests(rules, done, ZoneParts(rules, zones[0], SortedSet(Lookup(required, zones[0])), grouping))
            case Err(e) => Err(e)
            case Ok(certs) => Requests(rules, certs, Parts(rules, zones[1..], required, grouping))
  {
    RequestsAppend(rules, done, ZoneParts(rules, zones[0], SortedSet(Lookup(required, zones[0])), grouping),
                   Parts(rules, zones[1..], required, grouping));
  }

  lemma {:induction false} RequestsAppend(rules: NameRules, done: seq<CertificateRequest>, a: seq<Part>, b: seq<Part>)
    ensures Requests(rules, done, a + b) ==
            match Requests(rules, done, a)
            case Err(e) => Err(e)
            case Ok(certs) => Requests(rules, certs, b)
    decreases a
  {
    if a == [] {
      assert a + b == b;
    } else {
      assert (a + b)[0] == a[0] && (a + b)[1..] == a[1..] + b;
      var request := NewRequest(rules, a[0]);
      if request.Ok? {
        RequestsAppend(rules, done + [request.value], a[1..], b);
      }
    }
  }

  // ----- Packing loses nothing and repeats nothing -----

  /** How often each SAN occurs over a list of certificates. */
  function Sans(certs: seq<CertificateRequest>): multiset<string> {
    if certs == [] then multiset{} else multiset(certs[0].dnsNames) + Sans(certs[1..])
  }

  function PartSans(parts: seq<Part>): multiset<string> {
    if parts == [] then multiset{} else multiset(parts[0].members) + PartSans(parts[1..])
  }

  lemma {:induction false} WithoutNothing(list: seq<string>, drop: string)
    requires drop !in list
    ensures Without(list, drop) == list
  {
    if list != [] {
      WithoutNothing(list[1..], drop);
      assert list == [list[0]] + list[1..];
    }
  }

  lemma {:induction false} WithoutTakesOne(list: seq<string>, drop: string)
    requires Distinct(list)
    ensures multiset(Without(list, drop)) == multiset(list) - multiset{drop}
  {
    if list != [] {
      assert list == [list[0]] + list[1..];
      if list[0] == drop {
        WithoutNothing(list[1..], drop);
      } else {
        WithoutTakesOne(list[1..], drop);
      }
    }
  }

  lemma WithoutStaysDistinct(list: seq<string>, drop: string)
    requires Distinct(list)
    ensures Distinct(Without(list, drop))
  {
    WithoutTakesOne(list, drop);
    forall x
      ensures multiset(Without(list, drop))[x] <= 1
    {
      DistinctCountsOnce(list, x);
    }
    CountedOnceIsDistinct(Without(list, drop));
  }

  lemma {:induction false} ApexPartsHold(zone: string, apexes: seq<string>)
    ensures PartSans(ApexParts(zone, apexes)) == multiset(apexes)
    ensures forall p | p in ApexParts(zone, apexes) :: p.zone == zone && p.seed in p.members
  {
    if apexes != [] {
      assert apexes == [apexes[0]] + apexes[1..];
      ApexPartsHold(zone, apexes[1..]);
    }
  }

  /** A wildcard and the apex it takes along leave the rest of the apexes. */
  lemma ApexTaken(wildcards: seq<string>, apexes: seq<string>)
    requires Distinct(apexes) && wildcards != [] && WILDCARD <= wildcards[0] && wildcards[0][2..] in apexes
    ensures var w := wildcards[0];
            && Distinct(Without(apexes, w[2..]))
            && multiset([w, w[2..]]) + (multiset(wildcards[1..]) + multiset(Without(apexes, w[2..]))) == multiset(wildcards) + multiset(apexes)
  {
    var w := wildcards[0];
    assert wildcards == [w] + wildcards[1..];
    WithoutTakesOne(apexes, w[2..]);
    WithoutStaysDistinct(apexes, w[2..]);
    assert w[2..] in multiset(apexes);
  }

  lemma {:induction false} WildcardPartsConserve(zone: string, wildcards: seq<string>, apexes: seq<string>)
    requires Distinct(apexes)
    ensures PartSans(WildcardParts(zone, wildcards, apexes)) == multiset(wildcards) + multiset(apexes)
    decreases wildcards
  {
    if wildcards == [] {
      ApexPartsHold(zone, apexes);
    } else {
      var w := wildcards[0];
      if WILDCARD <= w && w[2..] in apexes {
        ApexTaken(wildcards, apexes);
        WildcardPartsConserve(zone, wildcards[1..], Without(apexes, w[2..]));
        PartSansOfCons(Part(zone, w, [w, w[2..]]), WildcardParts(zone, wildcards[1..], Without(apexes, w[2..])));
      } else {
        WildcardPartsConserve(zone, wildcards[1..], apexes);
        PartSansOfCons(Part(zone, w, [w]), WildcardParts(zone, wildcards[1..], apexes));
        HeadAndTail(wildcards, apexes);
      }
    }
  }

  lemma HeadAndTail(wildcards: seq<string>, apexes: seq<string>)
    requires wildcards != []
    ensures multiset([wildcards[0]]) + (multiset(wildcards[1..]) + multiset(apexes)) == multiset(wildcards) + multiset(apexes)
  {
    assert wildcards == [wildcards[0]] + wildcards[1..];
  }

  lemma PartSansOfCons(part: Part, parts: seq<Part>)
    ensures PartSans([part] + parts) == multiset(part.members) + PartSans(parts)
  {
    assert ([part] + parts)[1..] == parts;
  }

  lemma {:induction false} WildcardPartsHold(zone: string, wildcards: seq<string>, apexes: seq<string>)
    ensures forall p | p in WildcardParts(zone, wildcards, apexes) :: p.zone == zone && p.seed in p.members
    decreases wildcards
  {
    if wildcards == [] {
      ApexPartsHold(zone, apexes);
    } else {
      var w := wildcards[0];
      WildcardPartsHold(zone, wildcards[1..], if WILDCARD <= w && w[2..] in apexes then Without(apexes, w[2..]) else apexes);
    }
  }

  lemma {:induction false} SplitByKind(names: seq<string>)
    ensures multiset(Wildcards(names)) + multiset(Apexes(names)) == multiset(names)
  {
    if names != [] {
      assert names == [names[0]] + names[1..];
      SplitByKind(names[1..]);
    }
  }

  /** Both packings put every required SAN of a zone in one certificate of that zone. */
  lemma ZonePartsHold(rules: NameRules, zone: string, names: seq<string>, grouping: Grouping)
    requires Distinct(names)
    requires grouping.PerZone? || grouping.PerWildcard?
    ensures PartSans(ZoneParts(rules, zone, names, grouping)) == multiset(names)
    ensures forall p | p in ZoneParts(rules, zone, names, grouping) ::
              p.zone == zone && (p.seed in p.members || (p.members == names && p.seed == rules.primary(names)))
  {
    if grouping.PerZone? {
      var parts := ZoneParts(rules, zone, names, grouping);
      assert parts[1..] == [];
    } else {
      SplitByKind(names);
      forall x
        ensures multiset(Apexes(names))[x] <= 1
      {
        DistinctCountsOnce(names, x);
        assert multiset(Apexes(names))[x] <= multiset(names)[x];
      }
      CountedOnceIsDistinct(Apexes(names));
      WildcardPartsConserve(zone, Wildcards(names), Apexes(names));
      WildcardPartsHold(zone, Wildcards(names), Apexes(names));
    }
  }

  /** How often each SAN is required over a list of zones. */
  ghost function RequiredSans(zones: seq<string>, required: map<string, set<string>>): multiset<string> {
    if zones == [] then multiset{}
    else multiset(Lookup(required, zones[0])) + RequiredSans(zones[1..], required)
  }

  /** Whether the rules name each zone after one of its own SANs. */
  ghost predicate PrimaryIsMember(rules: NameRules, required: map<string, set<string>>) {
    forall z | z in required :: rules.primary(SortedSet(required[z])) in required[z]
  }

  /** What the parts of a plan look like. */
  ghost predicate Sound(rules: NameRules, p: Part, required: map<string, set<string>>) {
    && p.zone in required && (forall m | m in p.members :: m in required[p.zone])
    && (PrimaryIsMember(rules, required) ==> p.seed in p.members)
  }

  lemma {:induction false} PartsHold(rules: NameRules, zones: seq<string>, required: map<string, set<string>>, grouping: Grouping)
    requires forall z | z in zones :: z in required
    requires grouping.PerZone? || grouping.PerWildcard?
    ensures PartSans(Parts(rules, zones, required, grouping)) == RequiredSans(zones, required)
    ensures forall p | p in Parts(rules, zones, required, grouping) :: Sound(rules, p, required)
  {
    if zones != [] {
      var names := SortedSet(required[zones[0]]);
      SortedSetHolds(required[zones[0]]);
      var first := ZoneParts(rules, zones[0], names, grouping);
      ZonePartsHold(rules, zones[0], names, grouping);
      PartsHold(rules, zones[1..], required, grouping);
      PartSansAppend(first, Parts(rules, zones[1..], required, grouping));
      forall p | p in first
        ensures Sound(rules, p, required)
      {
        ZonePartIsSound(rules, zones[0], first, p, required, grouping);
      }
    }
  }

  lemma ZonePartIsSound(rules: NameRules, zone: string, parts: seq<Part>, p: Part, required: map<string, set<string>>, grouping: Grouping)
    requires zone in required && p in parts && parts == ZoneParts(rules, zone, SortedSet(required[zone]), grouping)
    requires grouping.PerZone? || grouping.PerWildcard?
    ensures Sound(rules, p, required)
  {
    var names := SortedSet(required[zone]);
    SortedSetHolds(required[zone]);
    ZonePartsHold(rules, zone, names, grouping);
    assert forall n :: n in names <==> n in Elements(names);
    forall m | m in p.members
      ensures m in required[zone]
    {
      MemberIsPartSan(parts, p, m);
      assert m in multiset(names);
    }
  }

  lemma {:induction false} PartSansAppend(a: seq<Part>, b: seq<Part>)
    ensures PartSans(a + b) == PartSans(a) + PartSans(b)
  {
    if a == [] {
      assert a + b == b;
    } else {
      assert (a + b)[1..] == a[1..] + b;
      PartSansAppend(a[1..], b);
    }
  }

  lemma {:induction false} MemberIsPartSan(parts: seq<Part>, p: Part, m: string)
    requires p in parts && m in p.members
    ensures m in PartSans(parts)
  {
    if p != parts[0] {
      MemberIsPartSan(parts[1..], p, m);
    }
  }

  /** Each request is the request of its part. */
  ghost predicate RequestOf(rules: NameRules, cert: CertificateRequest, part: Part) {
    && rules.derive(part.seed) == Ok(cert.name)
    && cert.zone == part.zone
    && cert.dnsNames == SortStrings(part.members)
  }

  lemma {:induction false} RequestsHold(rules: NameRules, done: seq<CertificateRequest>, parts: seq<Part>)
    requires Requests(rules, done, parts).Ok?
    ensures var certs := Requests(rules, done, parts).value;
            && done <= certs && |certs| == |done| + |parts|
            && (forall i | 0 <= i < |parts| :: RequestOf(rules, certs[|done| + i], parts[i]))
    decreases parts
  {
    if parts != [] {
      var request := NewRequest(rules, parts[0]).value;
      RequestsHold(rules, done + [request], parts[1..]);
      var certs := Requests(rules, done, parts).value;
      assert (done + [request])[|done|] == request;
      forall i | 0 <= i < |parts|
        ensures RequestOf(rules, certs[|done| + i], parts[i])
      {
        if i > 0 {
          assert parts[i] == parts[1..][i - 1];
          assert certs[|done| + i] == certs[|done + [request]| + (i - 1)];
        }
      }
    }
  }

  lemma {:induction false} RequestedSans(rules: NameRules, certs: seq<CertificateRequest>, parts: seq<Part>)
    requires |certs| == |parts| && forall i | 0 <= i < |parts| :: RequestOf(rules, certs[i], parts[i])
    ensures Sans(certs) == PartSans(parts)
  {
    if parts != [] {
      assert RequestOf(rules, certs[0], parts[0]);
      SortKeeps(Leq, parts[0].members);
      RequestedSans(rules, certs[1..], parts[1..]);
    }
  }

  lemma {:induction false} InsertKeepsSans(x: CertificateRequest, s: seq<CertificateRequest>)
    ensures Sans(Insert(NameLeq, x, s)) == multiset(x.dnsNames) + Sans(s)
  {
    if s == [] || NameLeq(x, s[0]) {
      assert ([x] + s)[1..] == s;
    } else {
      InsertKeepsSans(x, s[1..]);
      assert Insert(NameLeq, x, s)[1..] == Insert(NameLeq, x, s[1..]);
    }
  }

  lemma {:induction false} SortKeepsSans(s: seq<CertificateRequest>)
    ensures Sans(Sort(NameLeq, s)) == Sans(s)
  {
    if s != [] {
      SortKeepsSans(s[1..]);
      InsertKeepsSans(s[0], Sort(NameLeq, s[1..]));
    }
  }

  /** A certificate of a natural plan stays inside its zone and is named after one of its own SANs. */
  ghost predicate Truthful(rules: NameRules, cert: CertificateRequest, required: map<string, set<string>>) {
    && cert.zone in required
    && (forall san | san in cert.dnsNames :: san in required[cert.zone])
    && Sorted(Leq, cert.dnsNames)
    && (exists seed :: rules.derive(seed) == Ok(cert.name) && (PrimaryIsMember(rules, required) ==> seed in cert.dnsNames))
  }

  /** Conservation: a natural plan carries each required SAN exactly as often as it is required. */
  lemma NaturalHolds(rules: NameRules, required: map<string, set<string>>, grouping: Grouping)
    requires Natural(rules, required, grouping).Ok?
    ensures var certs := Natural(rules, required, grouping).value;
            && Sorted(NameLeq, certs)
            && (forall c | c in certs :: Truthful(rules, c, required))
            && Sans(certs) == RequiredSans(SortedSet(required.Keys), required)
  {
    hide Truthful, Parts, Requests, Sans, RequiredSans, SortStrings, Sort;
    var zones := SortedSet(required.Keys);
    SortedSetHolds(required.Keys);
    assert forall z :: z in zones <==> z in Elements(zones);
    ZonesPlanHolds(rules, zones, required, grouping);
    SortedPlanHolds(Requests(rules, [], Parts(rules, zones, required, grouping)).value);
  }

  lemma ZonesPlanHolds(rules: NameRules, zones: seq<string>, required: map<string, set<string>>, grouping: Grouping)
    requires forall z | z in zones :: z in required
    requires zones == [] || grouping.PerZone? || grouping.PerWildcard?
    requires Requests(rules, [], Parts(rules, zones, required, grouping)).Ok?
    ensures var certs := Requests(rules, [], Parts(rules, zones, required, grouping)).value;
            (forall c | c in certs :: Truthful(rules, c, required)) && Sans(certs) == RequiredSans(zones, required)
  {
    if zones != [] {
      PartsHold(rules, zones, required, grouping);
    }
    RequestedPlanHolds(rules, Parts(rules, zones, required, grouping), required);
  }

  lemma RequestedPlanHolds(rules: NameRules, parts: seq<Part>, required: map<string, set<string>>)
    requires Requests(rules, [], parts).Ok? && forall p | p in parts :: Sound(rules, p, required)
    ensures var certs := Requests(rules, [], parts).value;
            Sans(certs) == PartSans(parts) && forall c | c in certs :: Truthful(rules, c, required)
  {
    RequestsHold(rules, [], parts);
    var certs := Requests(rules, [], parts).value;
    RequestedSans(rules, certs, parts);
    forall c | c in certs
      ensures Truthful(rules, c, required)
    {
      var i :| 0 <= i < |certs| && certs[i] == c;
      assert RequestOf(rules, certs[i], parts[i]) && parts[i] in parts;
      RequestIsTruthful(rules, c, parts[i], required);
    }
  }

  lemma SortedPlanHolds(certs: seq<CertificateRequest>)
    ensures var sorted := Sort(NameLeq, certs);
            Sorted(NameLeq, sorted) && Sans(sorted) == Sans(certs) && forall c :: c in sorted <==> c in certs
  {
    NameLeqIsTotal();
    SortSorts(NameLeq, certs);
    SortKeeps(NameLeq, certs);
    SortKeepsSans(certs);
  }

  lemma RequestIsTruthful(rules: NameRules, cert: CertificateRequest, part: Part, required: map<string, set<string>>)
    requires RequestOf(rules, cert, part) && Sound(rules, part, required)
    ensures Truthful(rules, cert, required)
  {
    LeqIsOrder();
    SortKeeps(Leq, part.members);
    SortSorts(Leq, part.members);
    assert PrimaryIsMember(rules, required) ==> part.seed in cert.dnsNames;
  }

  // ----- Counting SANs -----

  lemma {:induction false} CarriedSansCount(certs: seq<CertificateRequest>, i: nat, san: string)
    requires i < |certs| && san in certs[i].dnsNames
    ensures san in Sans(certs)
  {
    if i > 0 {
      CarriedSansCount(certs[1..], i - 1, san);
    }
  }

  lemma {:induction false} CountedSansAreCarried(certs: seq<CertificateRequest>, san: string) returns (i: nat)
    requires san in Sans(certs)
    ensures i < |certs| && san in certs[i].dnsNames
  {
    if san in certs[0].dnsNames {
      i := 0;
    } else {
      var j := CountedSansAreCarried(certs[1..], san);
      i := j + 1;
    }
  }

  /** When no SAN counts twice, no two certificates share one. */
  lemma {:induction false} CountedOnceIsDisjoint(certs: seq<CertificateRequest>, i: nat, j: nat, san: string)
    requires i < j < |certs| && san in certs[i].dnsNames && Sans(certs)[san] <= 1
    ensures san !in certs[j].dnsNames
  {
    if san in certs[j].dnsNames {
      if i == 0 {
        CarriedSansCount(certs[1..], j - 1, san);
      } else {
        CountedOnceIsDisjoint(certs[1..], i - 1, j - 1, san);
      }
    }
  }
}
