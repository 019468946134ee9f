/** Desired certificates, with everything an operator needs to serve them (planner.go). */
module Planner {
  import opened Outcomes
  import opened Sorting
  import opened Text
  import opened Zones
  import opened Packing
  import opened Planning

  const MAX_LISTENER_HOSTNAMES: nat := 5
  const MAX_REPORTED_LISTENERS: nat := 100

  // ----- Listener groups -----

  /** The groups hold the names in order, every group is full but perhaps the last, and none is empty. */
  ghost predicate IsSplit(names: seq<string>, groups: seq<seq<string>>) {
    && Concat(groups) == names
    && forall i | 0 <= i < |groups| ::
         if i < |groups| - 1 then |groups[i]| == MAX_LISTENER_HOSTNAMES else 1 <= |groups[i]| <= MAX_LISTENER_HOSTNAMES
  }

  method SplitListenerHostnames(names: seq<string>) returns (out: seq<seq<string>>)
    ensures IsSplit(names, out)
  {
    out := [];
    var start := 0;
    while start < |names|
      invariant Concat(out) == names[..if start < |names| then start else |names|]
      invariant forall i | 0 <= i < |out| ::
        if start < |names| || i < |out| - 1 then |out[i]| == MAX_LISTENER_HOSTNAMES else 1 <= |out[i]| <= MAX_LISTENER_HOSTNAMES
    {
      var end := if start + MAX_LISTENER_HOSTNAMES < |names| then start + MAX_LISTENER_HOSTNAMES else |names|;
      ConcatAppend(out, names[start..end]);
      assert names[..end] == names[..start] + names[start..end];
      out := out + [names[start..end]];
      start := start + MAX_LISTENER_HOSTNAMES;
    }
    assert names[..|names|] == names;
  }

  /** There are as few groups as five host names to a listener allow. */
  lemma {:induction false} GroupCount(names: seq<string>, groups: seq<seq<string>>)
    requires IsSplit(names, groups)
    ensures |groups| == (|names| + 4) / 5
  {
    if groups != [] {
      RestIsSplit(names, groups);
      GroupCount(names[|groups[0]|..], groups[1..]);
      assert |groups| > 1 ==> groups[1..] != [] && |groups[1..][0]| >= 1;
    }
  }

  lemma RestIsSplit(names: seq<string>, groups: seq<seq<string>>)
    requires IsSplit(names, groups) && groups != []
    ensures names == groups[0] + names[|groups[0]|..] && IsSplit(names[|groups[0]|..], groups[1..])
  {
  }

  /** A SAN list can be split in one way only. */
  lemma {:induction false} SplitIsUnique(names: seq<string>, a: seq<seq<string>>, b: seq<seq<string>>)
    requires IsSplit(names, a) && IsSplit(names, b)
    ensures a == b
    decreases a
  {
    GroupCount(names, a);
    GroupCount(names, b);
    if a != [] {
      RestIsSplit(names, a);
      RestIsSplit(names, b);
      GroupCount(names[|a[0]|..], a[1..]);
      assert |a[0]| == |b[0]|;
      SplitIsUnique(names[|a[0]|..], a[1..], b[1..]);
      assert a == [a[0]] + a[1..] && b == [b[0]] + b[1..];
    }
  }

  // ----- Desired certificates -----

  datatype DesiredCertificate = DesiredCertificate(
    request: CertificateRequest,
    secretName: string,
    secretIdentifier: string,
    listeners: seq<seq<string>>)

  datatype DesiredState = DesiredState(certificates: seq<DesiredCertificate>, skipped: seq<SkippedHost>, discoveredHosts: seq<string>)

  datatype PolicySpec = PolicySpec(
    zones: seq<string>,
    maxCertificates: int,
    existing: seq<string>,
    grouping: Grouping,
    issueZoneWildcards: bool,
    vaultURL: string)

  function InputOf(hosts: seq<string>, spec: PolicySpec): PlanInput {
    PlanInput(hosts, spec.zones, spec.maxCertificates, spec.existing, spec.grouping, spec.issueZoneWildcards)
  }

  function SecretNameOf(name: string): string {
    name + "-tls"
  }

  /** Where a listener finds the certificate: without a version, so that renewals are picked up. */
  function SecretIdentifier(vaultURL: string, name: string): string {
    TrimSuffix(vaultURL, "/") + "/secrets/" + name
  }

  function RequestIn(d: DesiredCertificate): CertificateRequest {
    d.request
  }

  function DesiredName(d: DesiredCertificate): string {
    d.request.name
  }

  function DesiredNames(certs: seq<DesiredCertificate>): seq<string> {
    Map(DesiredName, certs)
  }

  function PlanIn(state: DesiredState): Plan {
    Plan(Map(RequestIn, state.certificates), state.skipped)
  }

  ghost predicate Derived(d: DesiredCertificate, vaultURL: string) {
    && d.secretName == SecretNameOf(d.request.name)
    && d.secretIdentifier == SecretIdentifier(vaultURL, d.request.name)
    && IsSplit(d.request.dnsNames, d.listeners)
  }

  ghost predicate IsDesired(rules: NameRules, registry: Registry, hosts: Result<seq<string>>, spec: PolicySpec, r: Result<DesiredState>) {
    match hosts
    case Err(e) => r == Err(e)
    case Ok(discovered) =>
      match r
      case Err(e) => IsPlan(rules, registry, InputOf(discovered, spec), Err(e))
      case Ok(state) =>
        && IsPlan(rules, registry, InputOf(discovered, spec), Ok(PlanIn(state)))
        && state.discoveredHosts == discovered
        && forall d | d in state.certificates :: Derived(d, spec.vaultURL)
  }

  method PlanDesired(rules: NameRules, registry: Registry, hosts: Result<seq<string>>, spec: PolicySpec) returns (r: Result<DesiredState>)
    ensures IsDesired(rules, registry, hosts, spec, r)
  {
    if hosts.Err? {
      return Err(hosts.error);
    }
    var plan := BuildPlan(rules, registry, InputOf(hosts.value, spec));
    if plan.Err? {
      return Err(plan.error);
    }
    var certificates := Desire(plan.value.certificates, spec.vaultURL);
    var state := DesiredState(certificates, plan.value.skipped, hosts.value);
    assert PlanIn(state) == plan.value;
    return Ok(state);
  }

  /** The loop of PlanDesired over the planned certificates. */
  method Desire(certs: seq<CertificateRequest>, vaultURL: string) returns (out: seq<DesiredCertificate>)
    ensures Map(RequestIn, out) == certs
    ensures forall d | d in out :: Derived(d, vaultURL)
  {
    out := [];
    for i := 0 to |certs|
      invariant |out| == i && forall k | 0 <= k < i :: out[k].request == certs[k] && Derived(out[k], vaultURL)
    {
      var listeners := SplitListenerHostnames(certs[i].dnsNames);
      var name := certs[i].name;
      out := out + [DesiredCertificate(certs[i], SecretNameOf(name), SecretIdentifier(vaultURL, name), listeners)];
    }
  }

  /** Distinct names give distinct secrets, and distinct vault objects to listen to. */
  lemma DistinctNamesShareNothing(state: DesiredState, vaultURL: string, i: nat, j: nat)
    requires i < j < |state.certificates| && forall d | d in state.certificates :: Derived(d, vaultURL)
    requires Distinct(DesiredNames(state.certificates))
    ensures var d, e := state.certificates[i], state.certificates[j];
            d.secretName != e.secretName && d.secretIdentifier != e.secretIdentifier
  {
    var d, e := state.certificates[i], state.certificates[j];
    var names := DesiredNames(state.certificates);
    assert names[i] != names[j];
    assert d in state.certificates && e in state.certificates;
    assert SecretNameOf(d.request.name)[..|d.secretName| - 4] == d.request.name;
    assert SecretNameOf(e.request.name)[..|e.secretName| - 4] == e.request.name;
    var base := TrimSuffix(vaultURL, "/") + "/secrets/";
    assert (base + d.request.name)[|base|..] == d.request.name;
    assert (base + e.request.name)[|base|..] == e.request.name;
  }

  // ----- What the status reports -----

  datatype Listener = Listener(hostnames: seq<string>, secretIdentifier: string)

  /** Every listener the certificates call for, in order. */
  ghost function ListenersOf(d: DesiredCertificate): seq<Listener> {
    Map((group: seq<string>) => Listener(group, d.secretIdentifier), d.listeners)
  }

  ghost function AllListeners(certs: seq<DesiredCertificate>): seq<Listener> {
    FlatMap(ListenersOf, certs)
  }

  /** A listener for each group of host names of each certificate, and each points to that certificate. */
  lemma ListenersMean(certs: seq<DesiredCertificate>, l: Listener)
    ensures l in AllListeners(certs) <==> exists d :: d in certs && l.hostnames in d.listeners && l.secretIdentifier == d.secretIdentifier
  {
    FlatMapMembers(ListenersOf, certs);
    forall d | d in certs
      ensures l in ListenersOf(d) <==> l.hostnames in d.listeners && l.secretIdentifier == d.secretIdentifier
    {
      MapMembers((group: seq<string>) => Listener(group, d.secretIdentifier), d.listeners);
    }
  }

  function Truncate<T>(items: seq<T>, max: nat): seq<T> {
    if |items| <= max then items else items[..max]
  }

  /** The listener part of a policy's status. */
  class ListenerGuidance {
    var listeners: seq<Listener>
    var listenerCount: nat

    constructor ()
      ensures listeners == [] && listenerCount == 0
    {
      listeners, listenerCount := [], 0;
    }

    /** A bounded list, beside the true count. */
    method Record(certs: seq<DesiredCertificate>)
      modifies this
      ensures listeners == if |AllListeners(certs)| <= 100 then AllListeners(certs) else AllListeners(certs)[..100]
      ensures listenerCount == |AllListeners(certs)|
    {
      hide ListenersOf;
      ghost var all: seq<Listener> := [];
      listeners, listenerCount := [], 0;
      for i := 0 to |certs|
        invariant all + AllListeners(certs[i..]) == AllListeners(certs)
        invariant listenerCount == |all| && listeners == Truncate(all, MAX_REPORTED_LISTENERS)
      {
        assert certs[i..][0] == certs[i] && certs[i..][1..] == certs[i + 1..];
        RecordCertificate(certs[i], all);
        all := all + ListenersOf(certs[i]);
      }
      assert all + [] == all;
    }

    method RecordCertificate(d: DesiredCertificate, ghost before: seq<Listener>)
      requires listenerCount == |before| && listeners == Truncate(before, MAX_REPORTED_LISTENERS)
      modifies this
      ensures listenerCount == |before + ListenersOf(d)|
      ensures listeners == Truncate(before + ListenersOf(d), MAX_REPORTED_LISTENERS)
    {
      for j := 0 to |d.listeners|
        invariant listenerCount == |before| + j
        invariant listeners == Truncate(before + ListenersOf(d)[..j], MAX_REPORTED_LISTENERS)
      {
        listenerCount := listenerCount + 1;
        if |listeners| >= MAX_REPORTED_LISTENERS {
          continue;
        }
        listeners := listeners + [Listener(d.listeners[j], d.secretIdentifier)];
      }
    }
  }
}
