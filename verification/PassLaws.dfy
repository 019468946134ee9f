/**
 What a pass does, told from the policy and the resources before and after it: what it may
 delete, what its report says, and what it writes.
 */
module PassLaws {
  import opened Outcomes
  import opened Sorting
  import opened Zones
  import opened Packing
  import opened Planning
  import opened Planner
  import opened Cluster
  import opened Reconciling
  import opened PolicyPasses

  /** The names among some resources that a policy generated. */
  ghost function OwnedBy<T>(policy: string, resources: map<string, Owned<T>>): set<string> {
    set n | n in resources && resources[n].policy == Some(policy)
  }

  /** The names of the certificates that a pass planned. */
  ghost function PlannedNames(pass: Pass): set<string>
    requires pass.desired.Ok?
  {
    set d | d in pass.desired.value.certificates :: d.request.name
  }

  /** Resources of the policy that its plan does not name. */
  ghost function Unplanned<T>(pass: Pass, resources: map<string, Owned<T>>): set<string>
    requires pass.desired.Ok?
  {
    OwnedBy(pass.policy.name, resources) - PlannedNames(pass)
  }

  lemma PlannedNamesAre(pass: Pass)
    requires pass.desired.Ok?
    ensures PlannedNames(pass) == Elements(DesiredNames(pass.desired.value.certificates))
  {
    MapMembers(DesiredName, pass.desired.value.certificates);
  }

  lemma OwnedIsMine<T>(policy: string, resources: map<string, Owned<T>>)
    ensures OwnedBy(policy, resources) == Mine(policy, resources)
  {
  }

  // ----- The guard on pruning -----

  /** The policy asks for HTTPRoutes, or for Gateways, by name, and the operator could not watch them. */
  ghost predicate RoutesAreUnseen(pass: Pass) {
    pass.policy.discovery.Some? && pass.policy.discovery.value.httpRoutes == Some(true) && !pass.view.httpRoutesAvailable
  }

  ghost predicate GatewaysAreUnseen(pass: Pass) {
    pass.policy.discovery.Some? && pass.policy.discovery.value.gateways == Some(true) && !pass.view.gatewaysAvailable
  }

  /** A plan to delete by: the policy prunes, something is planned, and nothing it asks for is out of sight. */
  ghost predicate IsTrusted(pass: Pass)
    requires pass.desired.Ok?
  {
    pass.policy.orphanPolicy.Prune? && pass.desired.value.certificates != [] && !RoutesAreUnseen(pass) && !GatewaysAreUnseen(pass)
  }

  lemma TrustedMeansPruning(pass: Pass)
    requires pass.desired.Ok?
    ensures IsTrusted(pass) <==> Pruning(pass.policy, pass.view, pass.desired.value.certificates)
  {
  }

  /**
   Nothing is deleted unless there is a plan that can be trusted: not by a policy that retains,
   not when nothing is planned, and not when a source the policy asks for is out of sight.
   */
  lemma UntrustedPassDeletesNothing(pass: Pass)
    requires Acted(pass) && (pass.desired.Ok? ==> !IsTrusted(pass))
    ensures pass.before.syncs.Keys <= pass.after.syncs.Keys && pass.before.certificates.Keys <= pass.after.certificates.Keys
    ensures OwnedBy(pass.policy.name, pass.before.syncs) <= OwnedBy(pass.policy.name, pass.after.syncs)
    ensures OwnedBy(pass.policy.name, pass.before.certificates) <= OwnedBy(pass.policy.name, pass.after.certificates)
  {
    if pass.desired.Ok? && pass.view.certManager == Ok(true) {
      TrustedMeansPruning(pass);
      var certs, p, policy := pass.desired.value.certificates, pass.progress, pass.policy.name;
      PutAllAdds(policy, pass.before.syncs, certs[..p.syncs], SyncFor);
      PutAllAdds(policy, pass.before.certificates, certs[..p.certificates], CertificateFor);
    }
  }

  /** Whether a pass got to its end with a plan and cert-manager there. */
  ghost predicate IsComplete(pass: Pass) {
    pass.desired.Ok? && pass.view.certManager == Ok(true) && pass.outcome.Ok?
  }

  /** A pass that is complete has what it planned, and, by a plan it can trust, nothing else. */
  lemma TrustedPassDeletesEveryOrphan(pass: Pass)
    requires Acted(pass) && IsComplete(pass)
    ensures PlannedNames(pass) <= OwnedBy(pass.policy.name, pass.after.syncs) && PlannedNames(pass) <= OwnedBy(pass.policy.name, pass.after.certificates)
    ensures IsTrusted(pass) ==>
              && OwnedBy(pass.policy.name, pass.after.syncs) == OwnedBy(pass.policy.name, pass.after.certificates) == PlannedNames(pass)
              && Unplanned(pass, pass.before.syncs) !! pass.after.syncs.Keys
              && Unplanned(pass, pass.before.certificates) !! pass.after.certificates.Keys
  {
    hide Acted, Mine, Worked;
    PlannedNamesAre(pass);
    TrustedMeansPruning(pass);
    CompleteMeansWorked(pass);
    MineAfterPass(pass, pass.desired.value.certificates);
    OwnedIsMine(pass.policy.name, pass.after.syncs);
    OwnedIsMine(pass.policy.name, pass.after.certificates);
    if IsTrusted(pass) {
      FinishedPruneLeavesPlan(pass);
      UnplannedAreGone(pass, pass.before.syncs, SyncFor);
      UnplannedAreGone(pass, pass.before.certificates, CertificateFor);
    }
  }

  lemma CompleteMeansWorked(pass: Pass)
    requires Acted(pass) && IsComplete(pass)
    ensures Worked(pass, pass.desired.value.certificates) && pass.progress.syncs == |pass.desired.value.certificates|
    ensures pass.outcome.value.Completed?
  {
    hide PutAll, Foreign, Mine;
  }

  lemma UnplannedAreGone<T>(pass: Pass, resources: map<string, Owned<T>>, specFor: DesiredCertificate -> T)
    requires pass.desired.Ok?
    ensures Unplanned(pass, resources) !! Held(pass.policy.name, resources, pass.desired.value.certificates, specFor).Keys
  {
    hide PutAll;
    PlannedNamesAre(pass);
    PutAllAdds(pass.policy.name, resources, pass.desired.value.certificates, specFor);
  }

  /** What the report of a complete pass says: how many orphans there were and, if there were any, why they were kept. */
  lemma ReportMeans(pass: Pass)
    requires Acted(pass) && IsComplete(pass)
    ensures pass.outcome.value.Completed?
    ensures var report := pass.outcome.value;
            && report.orphans == |Unplanned(pass, pass.before.syncs)|
            && (report.withheld.None? <==> pass.policy.orphanPolicy.Retain? || report.orphans == 0 || IsTrusted(pass))
            && (report.withheld == Some(NothingPlanned) ==> pass.desired.value.certificates == [])
            && (report.withheld == Some(RoutesUnseen) ==> RoutesAreUnseen(pass) && pass.desired.value.certificates != [])
            && (report.withheld == Some(GatewaysUnseen) ==>
                  GatewaysAreUnseen(pass) && !RoutesAreUnseen(pass) && pass.desired.value.certificates != [])
  {
    hide Foreign, PutAll;
    PlannedNamesAre(pass);
    TrustedMeansPruning(pass);
    var certs, p, policy := pass.desired.value.certificates, pass.progress, pass.policy.name;
    assert certs[..p.syncs] == certs;
    PutAllAdds(policy, pass.before.syncs, certs, SyncFor);
    assert Orphans(policy, PutAll(policy, pass.before.syncs, certs, SyncFor), certs) == Unplanned(pass, pass.before.syncs);
  }

  /** Without cert-manager a pass changes nothing and says so; what it cannot find out ends it. */
  lemma WithoutAPlan(pass: Pass)
    requires Acted(pass) && (pass.desired.Err? || pass.view.certManager != Ok(true))
    ensures pass.after == pass.before
    ensures pass.desired.Err? ==> pass.outcome == Err(pass.desired.error)
    ensures pass.desired.Ok? && pass.view.certManager.Err? ==> pass.outcome == Err(pass.view.certManager.error)
    ensures pass.desired.Ok? && pass.view.certManager == Ok(false) ==> pass.outcome == Ok(Degraded)
  {
  }

  // ----- What is planned -----

  /** The plan of a pass is for the hosts it found and the policy's own settings, in favour of the syncs that exist. */
  lemma PassPlansItsPolicy(rules: NameRules, registry: Registry, pass: Pass, existing: seq<string>)
    requires Planned(rules, registry, pass) && pass.existing == Some(existing)
    ensures forall n :: n in existing <==> n in pass.before.syncs && pass.before.syncs[n].policy == Some(pass.policy.name)
    ensures pass.view.hosts.Err? ==> pass.desired == Err(pass.view.hosts.error)
    ensures pass.view.hosts.Ok? ==>
              var p := pass.policy;
              var input := PlanInput(pass.view.hosts.value, p.zones, p.maxCertificates, existing, p.grouping, p.issueZoneWildcards);
              if pass.desired.Err? then IsPlan(rules, registry, input, Err(pass.desired.error))
              else exists plan :: IsPlan(rules, registry, input, Ok(plan))
                                  && |plan.certificates| == |pass.desired.value.certificates| && plan.skipped == pass.desired.value.skipped
                                  && forall i | 0 <= i < |plan.certificates| :: pass.desired.value.certificates[i].request == plan.certificates[i]
  {
    hide IsPlan, Derived;
    assert forall n :: n in existing <==> n in Elements(existing);
    if pass.view.hosts.Ok? && pass.desired.Ok? {
      var plan := PlanIn(pass.desired.value);
      var p := pass.policy;
      assert IsPlan(rules, registry, PlanInput(pass.view.hosts.value, p.zones, p.maxCertificates, existing, p.grouping, p.issueZoneWildcards), Ok(plan));
    }
  }

  /** A vault URL less the slash at its end. */
  ghost predicate IsBase(vaultURL: string, base: string) {
    vaultURL == base + "/" || (vaultURL == base && (base == "" || base[|base| - 1] != '/'))
  }

  /** What goes with a planned certificate: its Secret, where a listener finds it, and its names in groups of five. */
  lemma PlannedCertificateMeans(rules: NameRules, registry: Registry, pass: Pass, d: DesiredCertificate) returns (base: string)
    requires Planned(rules, registry, pass) && pass.desired.Ok? && d in pass.desired.value.certificates
    ensures d.secretName == d.request.name + "-tls"
    ensures IsBase(pass.policy.vaultURL, base) && d.secretIdentifier == base + "/secrets/" + d.request.name
    ensures Concat(d.listeners) == d.request.dnsNames
    ensures forall i | 0 <= i < |d.listeners| :: if i < |d.listeners| - 1 then |d.listeners[i]| == 5 else 1 <= |d.listeners[i]| <= 5
  {
    hide IsPlan;
    var url := pass.policy.vaultURL;
    base := if url != "" && url[|url| - 1] == '/' then url[..|url| - 1] else url;
    assert url != "" ==> url[|url| - 1..] == [url[|url| - 1]];
  }

  // ----- What is written -----

  /** The Certificate that a planned certificate of this name calls for. */
  ghost predicate IsCertificateOf(pass: Pass, name: string, resource: Owned<CertificateSpec>)
    requires pass.desired.Ok?
  {
    exists d :: d in pass.desired.value.certificates && d.request.name == name
                && resource == Owned(Some(pass.policy.name), CertificateSpec(name + "-tls", d.request.dnsNames))
  }

  lemma {:induction false} PutAllWrites<T>(policy: string, resources: map<string, Owned<T>>, certs: seq<DesiredCertificate>, specFor: DesiredCertificate -> T, name: string)
    requires name in Elements(DesiredNames(certs))
    ensures var after := PutAll(policy, resources, certs, specFor);
            name in after && exists d :: d in certs && d.request.name == name && after[name] == Owned(Some(policy), specFor(d))
  {
    var init, last := certs[..|certs| - 1], certs[|certs| - 1];
    NamesOfLast(certs);
    if name != last.request.name {
      PutAllWrites(policy, resources, init, specFor, name);
      var d :| d in init && d.request.name == name && PutAll(policy, resources, certs, specFor)[name] == Owned(Some(policy), specFor(d));
      assert d in certs;
    } else {
      assert last in certs;
    }
  }

  /** Every resource after a pass is as it was before, or is what a planned certificate of its name calls for. */
  lemma WrittenOrLeft(rules: NameRules, registry: Registry, pass: Pass, name: string)
    requires IsPass(rules, registry, pass)
    ensures name in pass.after.certificates ==>
              || (name in pass.before.certificates && pass.after.certificates[name] == pass.before.certificates[name])
              || (pass.desired.Ok? && IsCertificateOf(pass, name, pass.after.certificates[name]))
    ensures name in pass.after.syncs ==>
              || (name in pass.before.syncs && pass.after.syncs[name] == pass.before.syncs[name])
              || (pass.desired.Ok? && name in PlannedNames(pass)
                  && pass.after.syncs[name] == Owned(Some(pass.policy.name), SyncSpec(name + "-tls", name)))
  {
    hide Planned, PutAll, Foreign;
    if pass.desired.Ok? && pass.view.certManager == Ok(true) {
      var certs, p, policy := pass.desired.value.certificates, pass.progress, pass.policy.name;
      if name in Elements(DesiredNames(certs[..p.certificates])) {
        PutAllWrites(policy, pass.before.certificates, certs[..p.certificates], CertificateFor, name);
        var d :| d in certs[..p.certificates] && d.request.name == name
                 && PutAll(policy, pass.before.certificates, certs[..p.certificates], CertificateFor)[name] == Owned(Some(policy), CertificateFor(d));
        var base := PlannedCertificateMeans(rules, registry, pass, d);
      } else {
        PutAllLeaves(policy, pass.before.certificates, certs[..p.certificates], CertificateFor, name);
      }
      if name in Elements(DesiredNames(certs[..p.syncs])) {
        PutAllWrites(policy, pass.before.syncs, certs[..p.syncs], SyncFor, name);
        var d :| d in certs[..p.syncs] && d.request.name == name
                 && PutAll(policy, pass.before.syncs, certs[..p.syncs], SyncFor)[name] == Owned(Some(policy), SyncFor(d));
        var base := PlannedCertificateMeans(rules, registry, pass, d);
        PlannedNamesAre(pass);
      } else {
        PutAllLeaves(policy, pass.before.syncs, certs[..p.syncs], SyncFor, name);
      }
    }
  }

  /** A complete pass has written what it planned: a Certificate and a sync for every name. */
  lemma CompletePassWrites(rules: NameRules, registry: Registry, pass: Pass, name: string)
    requires IsPass(rules, registry, pass) && IsComplete(pass) && name in PlannedNames(pass)
    ensures name in pass.after.certificates && IsCertificateOf(pass, name, pass.after.certificates[name])
    ensures name in pass.after.syncs && pass.after.syncs[name] == Owned(Some(pass.policy.name), SyncSpec(name + "-tls", name))
  {
    hide Planned, PutAll, Foreign;
    var certs, p, policy := pass.desired.value.certificates, pass.progress, pass.policy.name;
    PlannedNamesAre(pass);
    assert certs[..p.syncs] == certs && certs[..p.certificates] == certs;
    PutAllWrites(policy, pass.before.certificates, certs, CertificateFor, name);
    var c :| c in certs && c.request.name == name && PutAll(policy, pass.before.certificates, certs, CertificateFor)[name] == Owned(Some(policy), CertificateFor(c));
    var base := PlannedCertificateMeans(rules, registry, pass, c);
    PutAllWrites(policy, pass.before.syncs, certs, SyncFor, name);
    var d :| d in certs && d.request.name == name && PutAll(policy, pass.before.syncs, certs, SyncFor)[name] == Owned(Some(policy), SyncFor(d));
    base := PlannedCertificateMeans(rules, registry, pass, d);
  }

  /** Every Certificate of the policy writes, and every sync of it reads, the Secret of its name. */
  ghost predicate SecretsAreNamed(policy: string, state: ClusterState) {
    && (forall n | n in state.certificates && state.certificates[n].policy == Some(policy) :: state.certificates[n].spec.secretName == n + "-tls")
    && (forall n | n in state.syncs && state.syncs[n].policy == Some(policy) :: state.syncs[n].spec.secretName == n + "-tls")
  }

  /** Every pass keeps it so: a sync reads the Secret that the Certificate of its name writes, wherever the pass breaks off. */
  lemma SecretsStayMatched(rules: NameRules, registry: Registry, pass: Pass, name: string)
    requires IsPass(rules, registry, pass) && SecretsAreNamed(pass.policy.name, pass.before)
    ensures SecretsAreNamed(pass.policy.name, pass.after)
    ensures name in OwnedBy(pass.policy.name, pass.after.syncs) * OwnedBy(pass.policy.name, pass.after.certificates) ==>
              pass.after.syncs[name].spec.secretName == pass.after.certificates[name].spec.secretName
  {
    hide IsPass;
    forall n | n in pass.after.certificates && pass.after.certificates[n].policy == Some(pass.policy.name)
      ensures pass.after.certificates[n].spec.secretName == n + "-tls"
    {
      WrittenOrLeft(rules, registry, pass, n);
    }
    forall n | n in pass.after.syncs && pass.after.syncs[n].policy == Some(pass.policy.name)
      ensures pass.after.syncs[n].spec.secretName == n + "-tls"
    {
      WrittenOrLeft(rules, registry, pass, n);
    }
  }

  /** A Certificate comes before its sync and goes after it: no pass leaves a sync without one that had one. */
  lemma SyncsKeepTheirCertificates(pass: Pass)
    requires Acted(pass)
    requires OwnedBy(pass.policy.name, pass.before.syncs) <= OwnedBy(pass.policy.name, pass.before.certificates)
    ensures OwnedBy(pass.policy.name, pass.after.syncs) <= OwnedBy(pass.policy.name, pass.after.certificates)
  {
    if pass.desired.Ok? && pass.view.certManager == Ok(true) {
      hide PutAll, Foreign;
      var certs, p, policy := pass.desired.value.certificates, pass.progress, pass.policy.name;
      PutAllAdds(policy, pass.before.syncs, certs[..p.syncs], SyncFor);
      PutAllAdds(policy, pass.before.certificates, certs[..p.certificates], CertificateFor);
      PrefixOfPrefix(certs, p.syncs, p.certificates);
    }
  }

  lemma PrefixOfPrefix(certs: seq<DesiredCertificate>, i: nat, j: nat)
    requires i <= j <= |certs|
    ensures Elements(DesiredNames(certs[..i])) <= Elements(DesiredNames(certs[..j]))
  {
    assert certs[..i] == certs[..j][..i];
    PrefixNames(certs[..j], i);
  }

  // ----- What is left alone -----

  /** A resource of another policy stays as it is, and so does one of nobody's unless its name is planned. */
  lemma OthersAreLeftAlone(pass: Pass, name: string)
    requires Acted(pass)
    ensures name in pass.before.certificates && pass.before.certificates[name].policy != Some(pass.policy.name)
            && (pass.before.certificates[name].policy.Some? || pass.desired.Err? || name !in PlannedNames(pass)) ==>
              name in pass.after.certificates && pass.after.certificates[name] == pass.before.certificates[name]
    ensures name in pass.before.syncs && pass.before.syncs[name].policy != Some(pass.policy.name)
            && (pass.before.syncs[name].policy.Some? || pass.desired.Err? || name !in PlannedNames(pass)) ==>
              name in pass.after.syncs && pass.after.syncs[name] == pass.before.syncs[name]
  {
    if pass.desired.Ok? && pass.view.certManager == Ok(true) {
      hide PutAll;
      var certs, p, policy := pass.desired.value.certificates, pass.progress, pass.policy.name;
      PlannedNamesAre(pass);
      if name in pass.before.certificates && name !in Mine(policy, pass.before.certificates)
         && (pass.before.certificates[name].policy.Some? || name !in PlannedNames(pass)) {
        OthersStay(policy, pass.before.certificates, certs, p.certificates, CertificateFor, p.goneCertificates, name);
      }
      if name in pass.before.syncs && name !in Mine(policy, pass.before.syncs)
         && (pass.before.syncs[name].policy.Some? || name !in PlannedNames(pass)) {
        OthersStay(policy, pass.before.syncs, certs, p.syncs, SyncFor, p.goneSyncs, name);
      }
    }
  }

  /** Whether another policy has a resource of a name this one plans. */
  ghost predicate IsTaken<T>(policy: string, certs: seq<DesiredCertificate>, resources: map<string, Owned<T>>) {
    exists d :: d in certs && d.request.name in resources
                && resources[d.request.name].policy.Some? && resources[d.request.name].policy.value != policy
  }

  lemma BlockedMeans(policy: string, certs: seq<DesiredCertificate>, before: ClusterState)
    ensures Blocked(policy, certs, before) <==> IsTaken(policy, certs, before.certificates) || IsTaken(policy, certs, before.syncs)
  {
  }

  /** A complete pass has met no resource of another policy under a name it planned. */
  lemma CompletePassTookNothing(pass: Pass)
    requires Acted(pass) && IsComplete(pass)
    ensures !IsTaken(pass.policy.name, pass.desired.value.certificates, pass.before.certificates)
    ensures !IsTaken(pass.policy.name, pass.desired.value.certificates, pass.before.syncs)
  {
    hide PutAll;
    var certs, p := pass.desired.value.certificates, pass.progress;
    assert certs[..p.syncs] == certs && certs[..p.certificates] == certs;
    BlockedMeans(pass.policy.name, certs, pass.before);
  }
}
