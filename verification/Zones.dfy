/** The zone allowlist, and the SAN each host name asks for (wildcard.go). */
module Zones {
  import opened Outcomes
  import opened Sorting
  import opened Text
  import opened Naming

  predicate Within(host: string, zone: string) {
    host == zone || HasSuffix(host, "." + zone)
  }

  /** A host lies within a zone exactly when its labels end with those of the zone. */
  lemma WithinMeans(host: string, zone: string)
    ensures Within(host, zone) <==> EndsIn(Split(host, '.'), Split(zone, '.'))
  {
    hide Split, Join;
    if Within(host, zone) {
      WithinByLabels(host, zone);
    }
    if EndsIn(Split(host, '.'), Split(zone, '.')) {
      LabelsWithin(host, zone);
    }
  }

  ghost predicate EndsIn(labels: seq<string>, last: seq<string>) {
    |last| <= |labels| && labels[|labels| - |last|..] == last
  }

  lemma WithinByLabels(host: string, zone: string)
    requires Within(host, zone)
    ensures EndsIn(Split(host, '.'), Split(zone, '.'))
  {
    hide Split;
    if host != zone {
      var rest := host[..|host| - |zone| - 1];
      assert host == rest + "." + zone;
      SplitAt(rest, zone, '.');
    }
  }

  lemma LabelsWithin(host: string, zone: string)
    requires EndsIn(Split(host, '.'), Split(zone, '.'))
    ensures Within(host, zone)
  {
    hide Split, Join;
    var h, z := Split(host, '.'), Split(zone, '.');
    var rest := h[..|h| - |z|];
    JoinSplit(host, '.');
    JoinSplit(zone, '.');
    JoinAppend(rest, z, '.');
    assert h == rest + z;
    assert rest != [] ==> host == Join(rest, '.') + ("." + zone);
  }

  ghost predicate NoEmptyLabel(zone: string) {
    && zone != "" && zone[0] != '.' && zone[|zone| - 1] != '.'
    && forall i | 0 <= i < |zone| - 1 :: !(zone[i] == '.' && zone[i + 1] == '.')
  }

  /** Whether the Public Suffix List calls a name registrable, which it never does of an empty label. */
  type Registry = r: string -> bool | forall z :: r(z) ==> NoEmptyLabel(z) witness (z: string) => false

  predicate Issuable(registry: Registry, zone: string) {
    '*' !in zone && registry(zone)
  }

  predicate LongerFirst(a: string, b: string) {
    |a| >= |b|
  }

  ghost predicate ZonesUsable(registry: Registry, zones: seq<string>) {
    zones != [] && forall zone | zone in NormalizeAll(zones) :: Issuable(registry, zone)
  }

  ghost function ZoneSet(zones: seq<string>): set<string> {
    Elements(NormalizeAll(zones))
  }

  lemma UsableMeans(registry: Registry, zones: seq<string>)
    ensures ZonesUsable(registry, zones) <==>
            zones != [] && forall i | 0 <= i < |zones| :: '*' !in NormalizeHost(zones[i]) && registry(NormalizeHost(zones[i]))
  {
    hide NormalizeHost;
    forall i | 0 <= i < |zones|
      ensures NormalizeHost(zones[i]) in NormalizeAll(zones)
    {
      assert NormalizeAll(zones)[i] == NormalizeHost(zones[i]);
    }
  }

  method NormalizeZones(registry: Registry, zones: seq<string>) returns (r: Result<seq<string>>)
    ensures r.Ok? <==> ZonesUsable(registry, zones)
    ensures r.Ok? <==> zones != [] && forall i | 0 <= i < |zones| :: '*' !in NormalizeHost(zones[i]) && registry(NormalizeHost(zones[i]))
    ensures r.Err? ==> r.error == InvalidZone
    ensures r.Ok? ==> Elements(r.value) == ZoneSet(zones) && Distinct(r.value) && Sorted(LongerFirst, r.value)
  {
    hide NormalizeHost;
    UsableMeans(registry, zones);
    if zones == [] {
      return Err(InvalidZone);
    }
    r := AcceptZones(registry, NormalizeAll(zones));
  }

  /** The loop of normalizeZones, over zones already in normal form. */
  method AcceptZones(registry: Registry, zones: seq<string>) returns (r: Result<seq<string>>)
    ensures r.Ok? <==> forall zone | zone in zones :: Issuable(registry, zone)
    ensures r.Err? ==> r.error == InvalidZone
    ensures r.Ok? ==> Elements(r.value) == Elements(zones) && Distinct(r.value) && Sorted(LongerFirst, r.value)
  {
    var seen: set<string> := {};
    var out: seq<string> := [];
    for i := 0 to |zones|
      invariant forall zone | zone in seen :: Issuable(registry, zone)
      invariant seen == Elements(zones[..i]) == Elements(out)
      invariant Distinct(out) && (i == |zones| ==> zones[..i] == zones)
    {
      var zone := zones[i];
      SeenGrows(zones, i);
      if zone == "" {
        assert !Issuable(registry, zone) && zone in zones;
        return Err(InvalidZone);
      }
      if !Issuable(registry, zone) {
        return Err(InvalidZone);
      }
      if zone in seen {
        continue;
      }
      seen := seen + {zone};
      out := out + [zone];
    }
    SortKeepsZones(out);
    return Ok(Sort(LongerFirst, out));
  }

  lemma SortKeepsZones(out: seq<string>)
    requires Distinct(out)
    ensures var s := Sort(LongerFirst, out);
            Elements(s) == Elements(out) && Distinct(s) && Sorted(LongerFirst, s)
  {
    SortSorts(LongerFirst, out);
    SortKeeps(LongerFirst, out);
    RearrangedIsDistinct(out, Sort(LongerFirst, out));
  }

  // ----- Longest match -----

  ghost predicate IsBestZone(host: string, zones: set<string>, zone: string) {
    zone in zones && Within(host, zone) && forall z | z in zones && Within(host, z) :: |z| <= |zone|
  }

  /** Two zones of one length cannot both contain a host, so the best zone needs no tie-break. */
  lemma BestZoneUnique(host: string, zones: set<string>, a: string, b: string)
    requires IsBestZone(host, zones, a) && IsBestZone(host, zones, b)
    ensures a == b
  {
    WithinIsSuffix(host, a);
    WithinIsSuffix(host, b);
  }

  lemma WithinIsSuffix(host: string, zone: string)
    requires Within(host, zone)
    ensures HasSuffix(host, zone)
  {
    if host != zone {
      assert host[|host| - |zone|..] == host[|host| - |zone| - 1..][1..] == ("." + zone)[1..];
    }
  }

  ghost function BestZone(host: string, zones: set<string>): Option<string> {
    if exists z :: IsBestZone(host, zones, z) then
      var z :| IsBestZone(host, zones, z);
      Some(z)
    else None
  }

  lemma BestZoneIs(host: string, zones: set<string>, zone: string)
    requires IsBestZone(host, zones, zone)
    ensures BestZone(host, zones) == Some(zone)
  {
    BestZoneUnique(host, zones, zone, BestZone(host, zones).value);
  }

  /** No zone is best only when no zone contains the host. */
  lemma {:induction false} BestZoneExists(host: string, zones: set<string>)
    ensures BestZone(host, zones) == None <==> forall z | z in zones :: !Within(host, z)
    decreases zones
  {
    if zone :| zone in zones && Within(host, zone) {
      BestZoneExists(host, zones - {zone});
      if y :| y in zones - {zone} && Within(host, y) {
        var best := BestZone(host, zones - {zone}).value;
        assert IsBestZone(host, zones, if |best| >= |zone| then best else zone);
      } else {
        assert IsBestZone(host, zones, zone);
      }
    }
  }

  method LongestMatchingZone(host: string, zones: seq<string>) returns (r: Option<string>)
    requires Sorted(LongerFirst, zones)
    ensures r == BestZone(TrimPrefix(host, WILDCARD), Elements(zones))
  {
    var candidate := TrimPrefix(host, WILDCARD);
    for i := 0 to |zones|
      invariant forall k | 0 <= k < i :: !Within(candidate, zones[k])
    {
      if Within(candidate, zones[i]) {
        forall z | z in Elements(zones) && Within(candidate, z)
          ensures |z| <= |zones[i]|
        {
          var k :| 0 <= k < |zones| && zones[k] == z;
          assert k == i || LongerFirst(zones[i], zones[k]);
        }
        BestZoneIs(candidate, Elements(zones), zones[i]);
        return Some(zones[i]);
      }
    }
    BestZoneExists(candidate, Elements(zones));
    return None;
  }

  // ----- From a host to its SAN -----

  function RequiredName(host: string, zone: string): Result<string> {
    if WILDCARD <= host then
      var wildcard := host[2..];
      if '*' in wildcard || !Within(wildcard, zone) then Err(InvalidHost) else Ok(host)
    else if '*' in host then Err(InvalidHost)
    else if host == zone then Ok(host)
    else
      var dot := IndexOf(host, '.');
      if dot == |host| || dot + 1 == |host| then Err(InvalidHost) else Ok(WILDCARD + host[dot + 1..])
  }

  /** What a normalised host asks of the plan. */
  datatype Demand = Nothing | OutsideAllowlist | Malformed | Needs(zone: string, san: string)

  ghost function DemandOf(host: string, zones: set<string>): Demand {
    if host == "" then Nothing else
    match BestZone(TrimPrefix(host, WILDCARD), zones)
    case None => OutsideAllowlist
    case Some(zone) =>
      match RequiredName(host, zone)
      case Err(_) => Malformed
      case Ok(san) => Needs(zone, san)
  }

  /**
   Section 6.4.3 of RFC 6125: a name matches a host when they are equal, or when it is a
   wildcard standing for exactly the leftmost label.
   */
  predicate Covers(san: string, host: string) {
    || san == host
    || (var dot := IndexOf(host, '.'); dot < |host| && san == WILDCARD + host[dot + 1..])
  }

  /** Normalised zones that passed the allowlist checks. */
  ghost predicate Allowlist(zones: set<string>) {
    forall z | z in zones :: '*' !in z && NoEmptyLabel(z)
  }

  lemma UsableZonesAreAllowlist(registry: Registry, zones: seq<string>)
    requires ZonesUsable(registry, zones)
    ensures Allowlist(ZoneSet(zones)) && ZoneSet(zones) != {}
  {
    assert NormalizeAll(zones)[0] in ZoneSet(zones);
  }

  /** Within a zone, cutting a host at its first dot never fails and never leaves the zone. */
  lemma ParentStaysWithin(host: string, zone: string)
    requires Within(host, zone) && host != zone && zone != ""
    ensures var dot := IndexOf(host, '.'); dot + 1 < |host| && Within(host[dot + 1..], zone)
  {
    var dotted := "." + zone;
    var cut := |host| - |dotted|;
    assert host[cut..][0] == dotted[0];
    var dot := IndexOf(host, '.');
    if dot == cut {
      assert host[dot + 1..] == host[cut..][1..] == dotted[1..] == zone;
    } else {
      SuffixOfDrop(host, dotted, dot + 1);
    }
  }

  lemma DottedWithin(host: string, zone: string, dot: nat)
    requires dot < |host| && host[dot] == '.' && Within(host[dot + 1..], zone)
    ensures Within(host, zone)
  {
    if host[dot + 1..] == zone {
      assert host[dot..] == "." + zone;
      assert |host| - |"." + zone| == dot;
    } else {
      SuffixUndrop(host, "." + zone, dot + 1);
    }
  }

  /**
   The SAN a host needs covers the host, lies in the zone it was planned under with no
   second wildcard, and is itself planned under that same zone: taking the parent of a host
   does not change its longest match.
   */
  lemma NeededSan(host: string, zones: set<string>, zone: string, san: string)
    requires Allowlist(zones) && DemandOf(host, zones) == Needs(zone, san)
    ensures zone in zones && Covers(san, host)
    ensures san == zone || (WILDCARD <= san && Within(san[2..], zone) && '*' !in san[2..])
    ensures TrimPrefix(san, WILDCARD) == if WILDCARD <= san then san[2..] else san
    ensures DemandOf(san, zones) == Needs(zone, san)
    ensures RequiredName(host, zone) == Ok(san)
  {
    var candidate := TrimPrefix(host, WILDCARD);
    assert IsBestZone(candidate, zones, zone);
    if !(WILDCARD <= host) && host != zone {
      ParentKeepsZone(host, zones, zone);
      assert san[2..] == host[IndexOf(host, '.') + 1..];
    } else if !(WILDCARD <= host) {
      assert san == zone;
    }
  }

  /** Taking the parent of a host does not change its longest match, nor bring in a wildcard. */
  lemma ParentKeepsZone(host: string, zones: set<string>, zone: string)
    requires Allowlist(zones) && IsBestZone(host, zones, zone) && host != zone
    requires '*' !in host
    ensures var dot := IndexOf(host, '.');
            && dot + 1 < |host| && BestZone(host[dot + 1..], zones) == Some(zone)
            && Within(host[dot + 1..], zone) && '*' !in host[dot + 1..]
  {
    ParentStaysWithin(host, zone);
    var parent := host[IndexOf(host, '.') + 1..];
    forall c | c in parent
      ensures c in host
    {
      var i :| 0 <= i < |parent| && parent[i] == c;
      assert host[IndexOf(host, '.') + 1 + i] == c;
    }
    forall z | z in zones && Within(parent, z)
      ensures |z| <= |zone|
    {
      DottedWithin(host, z, IndexOf(host, '.'));
    }
    BestZoneIs(parent, zones, zone);
  }

  /** Why a host is skipped, in terms of the host alone. */
  lemma SkippedFor(host: string, zones: set<string>)
    requires Allowlist(zones) && host != ""
    ensures var candidate := TrimPrefix(host, WILDCARD);
            && (DemandOf(host, zones).OutsideAllowlist? <==> forall z | z in zones :: !Within(candidate, z))
            && (DemandOf(host, zones).Malformed? <==> '*' in candidate && exists z :: z in zones && Within(candidate, z))
  {
    var candidate := TrimPrefix(host, WILDCARD);
    BestZoneExists(candidate, zones);
    match BestZone(candidate, zones)
    case None =>
    case Some(zone) =>
      if !(WILDCARD <= host) && host != zone {
        ParentStaysWithin(host, zone);
      }
  }

  /** Zones in normal form. Normalising makes them so unless one ends in white space before its root dot. */
  ghost predicate Tidy(zones: set<string>) {
    forall z | z in zones :: IsNormal(z)
  }

  /** The SANs of a plan are in normal form, so feeding them back finds them again. */
  lemma NeededSanIsNormal(host: string, zones: set<string>, zone: string, san: string)
    requires Allowlist(zones) && Tidy(zones)
    requires forall c | c in host :: !IsUpper(c)
    requires DemandOf(host, zones) == Needs(zone, san)
    ensures IsNormal(san)
  {
    NeededSan(host, zones, zone, san);
    if san != zone {
      WithinIsSuffix(san[2..], zone);
      assert san[|san| - 1] == zone[|zone| - 1];
      SanIsLower(host, zone, san);
    }
  }

  lemma SanIsLower(host: string, zone: string, san: string)
    requires RequiredName(host, zone) == Ok(san)
    requires forall c | c in host :: !IsUpper(c)
    ensures forall c | c in san :: !IsUpper(c)
  {
    if san != host {
      var dot := IndexOf(host, '.');
      forall c | c in san
        ensures !IsUpper(c)
      {
        var i :| 0 <= i < |san| && san[i] == c;
        if i >= 2 {
          assert host[dot + 1 + (i - 2)] == c;
        }
      }
    }
  }
}
