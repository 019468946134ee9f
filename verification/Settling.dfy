/** Whether reconciling a policy comes to rest: exactly when the names it plans are distinct. */
module Settling {
  import opened Outcomes
  import opened Sorting
  import opened Naming
  import opened Zones
  import opened Packing
  import opened Collisions
  import opened Limit
  import opened Planning
  import opened PlanTheorems
  import opened PlanNames
  import opened Planner
  import opened Cluster
  import opened Reconciling
  import opened PolicyPasses
  import opened PolicyRuns

  /** The certificates of a pass ask for different SANs. */
  lemma PlannedSansDiffer(digest: ShortDigest, registry: Registry, pass: Pass)
    requires Planned(VaultNames(digest), registry, pass) && pass.desired.Ok? && Tidy(ZoneSet(pass.policy.zones))
    ensures SansDiffer(pass.desired.value.certificates)
  {
    hide IsPlan, NamedAfter;
    var certs, plan := pass.desired.value.certificates, PlanIn(pass.desired.value);
    var input := InputOf(pass.view.hosts.value, SpecFor(pass.policy, pass.existing.value));
    forall i, j | 0 <= i < j < |certs|
      ensures certs[i].request.dnsNames != certs[j].request.dnsNames
    {
      assert plan.certificates[i] == certs[i].request && plan.certificates[j] == certs[j].request;
      var san := CarriesSomething(digest, registry, input, plan, plan.certificates[i]);
      PlanIsDisjoint(VaultNames(digest), registry, input, plan, i, j, san);
    }
  }

  lemma CarriesSomething(digest: ShortDigest, registry: Registry, input: PlanInput, plan: Plan, cert: CertificateRequest) returns (san: string)
    requires IsPlan(VaultNames(digest), registry, input, Ok(plan)) && cert in plan.certificates && Tidy(ZoneSet(input.zones))
    ensures san in cert.dnsNames
  {
    hide IsPlan;
    PlanNamesAreTruthful(digest, registry, input, plan, cert);
    san :| NamedAfter(digest, cert, san);
  }

  /** A pruning pass under the operator's own rules converges exactly when the names it planned are distinct. */
  lemma PolicyConvergesIff(digest: ShortDigest, registry: Registry, pass: Pass)
    requires IsPass(VaultNames(digest), registry, pass) && FinishedPrune(pass) && Tidy(ZoneSet(pass.policy.zones))
    ensures Converged(pass.policy.name, pass.desired.value.certificates, pass.after) <==> Distinct(DesiredNames(pass.desired.value.certificates))
  {
    hide Planned, Acted, Converged, Distinct;
    PlannedSansDiffer(digest, registry, pass);
    FinishedPruneConvergesIff(pass);
  }

  // ----- Where names repeat, nothing is final -----

  /** A plan is planned again from its own names. */
  lemma PlannedAgain(rules: NameRules, registry: Registry, input: PlanInput, plan: Plan, names: seq<string>)
    requires IsPlan(rules, registry, input, Ok(plan)) && Elements(names) == Elements(Names(plan.certificates))
    ensures IsPlan(rules, registry, input.(existing := names), Ok(plan))
  {
    hide IsSelection, Natural, Resolved;
    var certs, keep := PlanWitness(rules, registry, input, plan);
    CapIsExact(certs, input.maxCertificates, Elements(input.existing), keep);
    SelectionSurvivesInterruption(Names(certs), input.maxCertificates, Elements(input.existing), keep, keep, keep);
    assert AllHosts(input.(existing := names)) == AllHosts(input);
    assert IsPlanFor(rules, input.(existing := names), certs, keep, plan);
  }

  /** The last certificate of a name is the one whose resource is left. */
  lemma {:induction false} LastWriterHolds<T>(policy: string, resources: map<string, Owned<T>>, certs: seq<DesiredCertificate>, specFor: DesiredCertificate -> T, last: nat)
    requires last < |certs| && forall k | last < k < |certs| :: certs[k].request.name != certs[last].request.name
    ensures var after, name := PutAll(policy, resources, certs, specFor), certs[last].request.name;
            name in after && after[name] == Owned(Some(policy), specFor(certs[last]))
  {
    var init := certs[..|certs| - 1];
    if last < |init| {
      assert init[last] == certs[last];
      LastWriterHolds(policy, resources, init, specFor, last);
    }
  }

  /** Two certificates of one name, the later of them the last of that name. */
  lemma {:induction false} LastRepeat(certs: seq<DesiredCertificate>) returns (j: nat, last: nat)
    requires !Distinct(DesiredNames(certs))
    ensures j < last < |certs| && certs[j].request.name == certs[last].request.name
    ensures forall k | last < k < |certs| :: certs[k].request.name != certs[last].request.name
  {
    var names := DesiredNames(certs);
    j, last :| 0 <= j < last < |certs| && names[j] == names[last];
    var k := last + 1;
    while k < |certs|
      invariant j < last < k <= |certs| && names[j] == names[last]
      invariant forall m | last < m < k :: names[m] != names[last]
    {
      if names[k] == names[last] {
        last := k;
      }
      k := k + 1;
    }
    forall m | last < m < |certs|
      ensures certs[m].request.name != certs[last].request.name
    {
      assert names[m] != names[last];
    }
  }

  /** A pass that writes everything up to certificate j again, and breaks off before its sync. */
  ghost function BrokenOff(first: Pass, j: nat): Pass
    requires FinishedPrune(first) && j < |first.desired.value.certificates|
  {
    var certs, p := first.desired.value.certificates, Progress(j + 1, j, {}, {});
    Pass(first.policy, first.view, first.after, Some(DesiredNames(certs)), first.desired, p,
         Left(Written(first.policy.name, certs, first.after, p), p), Err(ClusterUnavailable))
  }

  lemma BrokenOffIsPass(rules: NameRules, registry: Registry, first: Pass, j: nat)
    requires IsPass(rules, registry, first) && FinishedPrune(first) && j < |first.desired.value.certificates|
    ensures IsPass(rules, registry, BrokenOff(first, j)) && Retries(first, BrokenOff(first, j))
  {
    hide Planned, Acted;
    BrokenOffIsPlanned(rules, registry, first, j);
    BrokenOffIsActed(first, j);
  }

  lemma BrokenOffIsPlanned(rules: NameRules, registry: Registry, first: Pass, j: nat)
    requires IsPass(rules, registry, first) && FinishedPrune(first) && j < |first.desired.value.certificates|
    ensures Planned(rules, registry, BrokenOff(first, j)) && Retries(first, BrokenOff(first, j))
  {
    hide IsPlan, Worked, Mine;
    FinishedPruneLeavesPlan(first);
    var certs := first.desired.value.certificates;
    var input := InputOf(first.view.hosts.value, SpecFor(first.policy, first.existing.value));
    NamesOfDesired(certs);
    PlannedAgain(rules, registry, input, PlanIn(first.desired.value), DesiredNames(certs));
    assert InputOf(first.view.hosts.value, SpecFor(first.policy, DesiredNames(certs))) == input.(existing := DesiredNames(certs));
  }

  lemma BrokenOffIsActed(first: Pass, j: nat)
    requires Acted(first) && FinishedPrune(first) && j < |first.desired.value.certificates|
    ensures Acted(BrokenOff(first, j))
  {
    hide PutAll, Foreign, Mine, Worked;
    NothingForeign(first);
    FinishedMeansWorked(first);
    NothingPruned(BrokenOff(first, j), first.desired.value.certificates);
  }

  lemma FinishedMeansWorked(first: Pass)
    requires Acted(first) && FinishedPrune(first)
    ensures first.view.certManager == Ok(true)
  {
  }

  /** What a finished pruning pass planned belongs to its policy afterwards. */
  lemma NothingForeign(first: Pass)
    requires Acted(first) && FinishedPrune(first)
    ensures forall d | d in first.desired.value.certificates ::
              !Foreign(first.policy.name, first.after.certificates, d.request.name) && !Foreign(first.policy.name, first.after.syncs, d.request.name)
  {
    hide Acted;
    FinishedPruneLeavesPlan(first);
    var certs, policy := first.desired.value.certificates, first.policy.name;
    MapMembers(DesiredName, certs);
    forall d | d in certs
      ensures !Foreign(policy, first.after.certificates, d.request.name) && !Foreign(policy, first.after.syncs, d.request.name)
    {
      assert DesiredName(d) in Elements(DesiredNames(certs));
      assert d.request.name in Mine(policy, first.after.certificates) && d.request.name in Mine(policy, first.after.syncs);
    }
  }

  /** A pass that broke off while writing. */
  lemma NothingPruned(pass: Pass, certs: seq<DesiredCertificate>)
    requires Applied(pass.policy.name, certs, pass.before, pass.progress) && pass.progress.goneSyncs == pass.progress.goneCertificates == {}
    requires pass.after == Left(Written(pass.policy.name, certs, pass.before, pass.progress), pass.progress) && pass.outcome == Err(ClusterUnavailable)
    ensures Worked(pass, certs)
  {
  }

  /** Where two certificates share a name, it changes the Certificate that the first pass left. */
  lemma BrokenOffChanges(first: Pass) returns (j: nat)
    requires Acted(first) && FinishedPrune(first)
    requires SansDiffer(first.desired.value.certificates) && !Distinct(DesiredNames(first.desired.value.certificates))
    ensures j < |first.desired.value.certificates| && BrokenOff(first, j).after != first.after
  {
    hide Acted, Mine;
    var certs, policy := first.desired.value.certificates, first.policy.name;
    var last;
    j, last := LastRepeat(certs);
    var name := certs[last].request.name;
    FinishedPruneLeavesPlan(first);
    assert DesiredNames(certs)[last] == name && name in Elements(DesiredNames(certs));
    LastWriterHolds(policy, first.before.certificates, certs, CertificateFor, last);
    assert first.after.certificates[name] == Owned(Some(policy), CertificateFor(certs[last]));
    PutNext(policy, first.after.certificates, certs, CertificateFor, j);
    assert BrokenOff(first, j).after.certificates[name] == Owned(Some(policy), CertificateFor(certs[j]));
    assert CertificateFor(certs[j]).dnsNames != CertificateFor(certs[last]).dnsNames;
  }

  /**
   A pruning pass that has run to its end is final exactly when the names it planned are
   distinct: then no further pass with the same request changes anything, wherever it breaks
   off; otherwise one that breaks off turns a Certificate into another one.
   */
  lemma FinishedPruneIsFinalIff(digest: ShortDigest, registry: Registry, first: Pass)
    requires IsPass(VaultNames(digest), registry, first) && FinishedPrune(first) && Tidy(ZoneSet(first.policy.zones))
    ensures Distinct(DesiredNames(first.desired.value.certificates)) <==>
            forall next | IsPass(VaultNames(digest), registry, next) && Retries(first, next) && next.before == first.after :: next.after == first.after
  {
    hide Planned, Acted, Distinct, Worked;
    var rules := VaultNames(digest);
    if Distinct(DesiredNames(first.desired.value.certificates)) {
      forall next | IsPass(rules, registry, next) && Retries(first, next) && next.before == first.after
        ensures next.after == first.after
      {
        SecondPassStays(rules, registry, first, next);
      }
    } else {
      PlannedSansDiffer(digest, registry, first);
      var j := BrokenOffChanges(first);
      BrokenOffIsPass(rules, registry, first, j);
      assert BrokenOff(first, j).before == first.after;
    }
  }

  lemma SecondPassStays(rules: NameRules, registry: Registry, first: Pass, next: Pass)
    requires IsPass(rules, registry, first) && FinishedPrune(first) && Distinct(DesiredNames(first.desired.value.certificates))
    requires IsPass(rules, registry, next) && Retries(first, next) && next.before == first.after
    ensures next.after == first.after
  {
    hide IsPass, Distinct;
    assert Retries(first, first) by {
      FirstRetriesItself(rules, registry, first);
    }
    FinishedPruneIsFinal(rules, registry, [first, next], 1);
  }

  lemma FirstRetriesItself(rules: NameRules, registry: Registry, first: Pass)
    requires IsPass(rules, registry, first) && first.desired.Ok?
    ensures Retries(first, first)
  {
    hide IsPlan;
  }
}
