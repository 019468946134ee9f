/** What a pass over a policy may write, may delete, and must leave alone. */
module PolicyPasses {
  import opened Outcomes
  import opened Sorting
  import opened Zones
  import opened Packing
  import opened Collisions
  import opened Limit
  import opened Planning
  import opened PlanTheorems
  import opened Planner
  import opened Cluster
  import opened Reconciling

  ghost function NamesPlanned(pass: Pass): set<string>
    requires pass.desired.Ok?
  {
    Elements(DesiredNames(pass.desired.value.certificates))
  }

  // ----- One kind of resource -----

  /** Resources of one kind after some were written and some orphans are gone. */
  lemma MineAfter<T>(policy: string, resources: map<string, Owned<T>>, certs: seq<DesiredCertificate>, n: nat, specFor: DesiredCertificate -> T, gone: set<string>)
    requires n <= |certs| && gone <= Orphans(policy, PutAll(policy, resources, certs[..n], specFor), certs)
    ensures var before, after, planned := Mine(policy, resources), Mine(policy, PutAll(policy, resources, certs[..n], specFor) - gone), Elements(DesiredNames(certs));
            && before * planned <= after <= before + planned
            && before - gone <= after
            && after !! gone
            && (n == |certs| ==> planned <= after)
  {
    PutAllAdds(policy, resources, certs[..n], specFor);
    PrefixNames(certs, n);
  }

  lemma PrefixNames(certs: seq<DesiredCertificate>, n: nat)
    requires n <= |certs|
    ensures Elements(DesiredNames(certs[..n])) <= Elements(DesiredNames(certs))
    ensures n == |certs| ==> certs[..n] == certs
  {
    assert certs == certs[..n] + certs[n..];
    MapAppend(DesiredName, certs[..n], certs[n..]);
  }

  /** What is not mine stays as it was, unless the plan adopts a resource nobody owns. */
  lemma OthersStay<T>(policy: string, resources: map<string, Owned<T>>, certs: seq<DesiredCertificate>, n: nat, specFor: DesiredCertificate -> T, gone: set<string>, name: string)
    requires n <= |certs| && gone <= Orphans(policy, PutAll(policy, resources, certs[..n], specFor), certs)
    requires forall d | d in certs[..n] :: !Foreign(policy, resources, d.request.name)
    requires name in resources && name !in Mine(policy, resources)
    requires name in Elements(DesiredNames(certs)) ==> resources[name].policy.Some?
    ensures var after := PutAll(policy, resources, certs[..n], specFor) - gone; name in after && after[name] == resources[name]
  {
    PutAllAdds(policy, resources, certs[..n], specFor);
    PrefixNames(certs, n);
    assert name in DesiredNames(certs[..n]) ==> name in Elements(DesiredNames(certs[..n]));
    if name in DesiredNames(certs[..n]) {
      var d := NamedByOne(certs[..n], name);
    }
  }

  // ----- A whole pass -----

  /** A pass adds only planned names, and takes away only names that are not planned. */
  lemma PassStaysBetween(pass: Pass)
    requires Acted(pass)
    ensures pass.desired.Err? ==> pass.after == pass.before
    ensures pass.desired.Ok? ==> var policy, planned := pass.policy.name, NamesPlanned(pass);
              && Mine(policy, pass.before.syncs) * planned <= Mine(policy, pass.after.syncs) <= Mine(policy, pass.before.syncs) + planned
              && Mine(policy, pass.before.certificates) * planned <= Mine(policy, pass.after.certificates)
              && Mine(policy, pass.after.certificates) <= Mine(policy, pass.before.certificates) + planned
  {
    if pass.desired.Ok? && pass.view.certManager == Ok(true) {
      MineAfterPass(pass, pass.desired.value.certificates);
    }
  }

  lemma MineAfterPass(pass: Pass, certs: seq<DesiredCertificate>)
    requires Worked(pass, certs)
    ensures var policy, planned, p := pass.policy.name, Elements(DesiredNames(certs)), pass.progress;
            && Mine(policy, pass.before.syncs) * planned <= Mine(policy, pass.after.syncs) <= Mine(policy, pass.before.syncs) + planned
            && Mine(policy, pass.before.certificates) * planned <= Mine(policy, pass.after.certificates)
            && Mine(policy, pass.after.certificates) <= Mine(policy, pass.before.certificates) + planned
            && Mine(policy, pass.before.syncs) - p.goneSyncs <= Mine(policy, pass.after.syncs)
            && Mine(policy, pass.before.certificates) - p.goneCertificates <= Mine(policy, pass.after.certificates)
            && Mine(policy, pass.after.syncs) !! p.goneSyncs && Mine(policy, pass.after.certificates) !! p.goneCertificates
            && (p.syncs == |certs| ==> planned <= Mine(policy, pass.after.syncs) && planned <= Mine(policy, pass.after.certificates))
  {
    var p := pass.progress;
    MineAfter(pass.policy.name, pass.before.syncs, certs, p.syncs, SyncFor, p.goneSyncs);
    MineAfter(pass.policy.name, pass.before.certificates, certs, p.certificates, CertificateFor, p.goneCertificates);
  }

  /** What a pass planned, seen from the uncapped plan. */
  lemma PlannedFrom(rules: NameRules, registry: Registry, pass: Pass) returns (all: seq<CertificateRequest>, keep: set<string>)
    requires Planned(rules, registry, pass) && pass.desired.Ok?
    ensures pass.existing.Some? && pass.view.hosts.Ok?
    ensures var input := InputOf(pass.view.hosts.value, SpecFor(pass.policy, pass.existing.value));
            ZonesUsable(registry, input.zones) && Uncapped(rules, input) == Ok(all)
    ensures IsSelection(Names(all), pass.policy.maxCertificates, Mine(pass.policy.name, pass.before.syncs), keep)
    ensures Map(RequestIn, pass.desired.value.certificates) == Kept(all, keep)
    ensures NamesPlanned(pass) == keep
  {
    var input := InputOf(pass.view.hosts.value, SpecFor(pass.policy, pass.existing.value));
    var plan := PlanIn(pass.desired.value);
    all, keep := PlanWitness(rules, registry, input, plan);
    NamesOfDesired(pass.desired.value.certificates);
    KeptNamesAre(all, keep);
  }

  lemma NamesOfDesired(certs: seq<DesiredCertificate>)
    ensures DesiredNames(certs) == Names(Map(RequestIn, certs))
  {
  }

  /** A pass that does not prune, for whatever reason, deletes nothing. */
  lemma NothingIsDeletedUnlessPruning(rules: NameRules, registry: Registry, pass: Pass)
    requires IsPass(rules, registry, pass)
    requires pass.desired.Ok? ==> !Pruning(pass.policy, pass.view, pass.desired.value.certificates)
    ensures Mine(pass.policy.name, pass.before.syncs) <= Mine(pass.policy.name, pass.after.syncs)
    ensures Mine(pass.policy.name, pass.before.certificates) <= Mine(pass.policy.name, pass.after.certificates)
  {
    if pass.desired.Ok? && pass.view.certManager == Ok(true) {
      MineAfterPass(pass, pass.desired.value.certificates);
    }
  }

  /** Why a name that was already synced may be dropped: it is out of the plan, or more than the cap are already synced. */
  ghost predicate MayBeDropped(pass: Pass, names: seq<string>, name: string) {
    var existing, max := Mine(pass.policy.name, pass.before.syncs), pass.policy.maxCertificates;
    name in names ==> 0 < max < |existing * Elements(names)|
  }

  /**
   The deletion rule. A sync goes only when the policy prunes, the pass is not withheld and
   everything planned is in place; and then only if its name is not in the uncapped plan, or
   more names that are already synced are still planned than the cap allows, in which case
   nothing new was planned either.
   */
  lemma SyncDeletionRule(rules: NameRules, registry: Registry, pass: Pass, name: string) returns (all: seq<CertificateRequest>)
    requires IsPass(rules, registry, pass)
    requires name in Mine(pass.policy.name, pass.before.syncs) && name !in Mine(pass.policy.name, pass.after.syncs)
    ensures pass.desired.Ok? && Pruning(pass.policy, pass.view, pass.desired.value.certificates)
    ensures name !in NamesPlanned(pass) && NamesPlanned(pass) <= Mine(pass.policy.name, pass.after.syncs)
    ensures pass.existing.Some? && pass.view.hosts.Ok?
    ensures Uncapped(rules, InputOf(pass.view.hosts.value, SpecFor(pass.policy, pass.existing.value))) == Ok(all)
    ensures MayBeDropped(pass, Names(all), name)
    ensures name in Names(all) ==> NamesPlanned(pass) <= Mine(pass.policy.name, pass.before.syncs)
  {
    var keep;
    MineAfterPass(pass, pass.desired.value.certificates);
    all, keep := PlannedFrom(rules, registry, pass);
    if name in Names(all) {
      OnlyIssuedEvictIssued(Names(all), pass.policy.maxCertificates, Mine(pass.policy.name, pass.before.syncs), keep, name);
    }
  }

  /** The same for a Certificate, except for one whose sync is missing: that one has no claim to its slot. */
  lemma CertificateDeletionRule(rules: NameRules, registry: Registry, pass: Pass, name: string) returns (all: seq<CertificateRequest>)
    requires IsPass(rules, registry, pass)
    requires name in Mine(pass.policy.name, pass.before.certificates) && name !in Mine(pass.policy.name, pass.after.certificates)
    ensures pass.desired.Ok? && Pruning(pass.policy, pass.view, pass.desired.value.certificates)
    ensures name !in NamesPlanned(pass) && NamesPlanned(pass) <= Mine(pass.policy.name, pass.after.certificates)
    ensures name !in Mine(pass.policy.name, pass.after.syncs)
    ensures pass.existing.Some? && pass.view.hosts.Ok?
    ensures Uncapped(rules, InputOf(pass.view.hosts.value, SpecFor(pass.policy, pass.existing.value))) == Ok(all)
    ensures name in Mine(pass.policy.name, pass.before.syncs) ==>
              && MayBeDropped(pass, Names(all), name)
              && (name in Names(all) ==> NamesPlanned(pass) <= Mine(pass.policy.name, pass.before.syncs))
  {
    var keep;
    MineAfterPass(pass, pass.desired.value.certificates);
    all, keep := PlannedFrom(rules, registry, pass);
    if name in Names(all) && name in Mine(pass.policy.name, pass.before.syncs) {
      OnlyIssuedEvictIssued(Names(all), pass.policy.maxCertificates, Mine(pass.policy.name, pass.before.syncs), keep, name);
    }
  }

  /** No pass touches what another policy generated, whatever its outcome. */
  lemma OtherPoliciesAreSafe(pass: Pass, name: string)
    requires Acted(pass)
    ensures name in pass.before.certificates && pass.before.certificates[name].policy.Some?
            && pass.before.certificates[name].policy.value != pass.policy.name ==>
              name in pass.after.certificates && pass.after.certificates[name] == pass.before.certificates[name]
    ensures name in pass.before.syncs && pass.before.syncs[name].policy.Some?
            && pass.before.syncs[name].policy.value != pass.policy.name ==>
              name in pass.after.syncs && pass.after.syncs[name] == pass.before.syncs[name]
  {
    if pass.desired.Ok? && pass.view.certManager == Ok(true) {
      var certs, p := pass.desired.value.certificates, pass.progress;
      if Foreign(pass.policy.name, pass.before.certificates, name) {
        OthersStay(pass.policy.name, pass.before.certificates, certs, p.certificates, CertificateFor, p.goneCertificates, name);
      }
      if Foreign(pass.policy.name, pass.before.syncs, name) {
        OthersStay(pass.policy.name, pass.before.syncs, certs, p.syncs, SyncFor, p.goneSyncs, name);
      }
    }
  }

  // ----- Convergence -----

  /** The cluster holds exactly what a list of certificates asks for, as far as the policy is concerned. */
  ghost predicate Converged(policy: string, certs: seq<DesiredCertificate>, state: ClusterState) {
    && Mine(policy, state.certificates) == Elements(DesiredNames(certs))
    && Mine(policy, state.syncs) == Elements(DesiredNames(certs))
    && (forall d | d in certs :: d.request.name in state.certificates && state.certificates[d.request.name] == Owned(Some(policy), CertificateFor(d)))
    && (forall d | d in certs :: d.request.name in state.syncs && state.syncs[d.request.name] == Owned(Some(policy), SyncFor(d)))
  }

  /** A pass that prunes and runs to its end. */
  ghost predicate FinishedPrune(pass: Pass) {
    && pass.desired.Ok? && pass.outcome.Ok? && pass.outcome.value.Completed?
    && Pruning(pass.policy, pass.view, pass.desired.value.certificates)
  }

  /** It leaves Certificates and syncs for just the names it planned. */
  lemma FinishedPruneLeavesPlan(pass: Pass)
    requires Acted(pass) && FinishedPrune(pass)
    ensures Mine(pass.policy.name, pass.after.certificates) == Mine(pass.policy.name, pass.after.syncs) == NamesPlanned(pass)
    ensures var certs, policy := pass.desired.value.certificates, pass.policy.name;
            pass.after == ClusterState(Held(policy, pass.before.certificates, certs, CertificateFor), Held(policy, pass.before.syncs, certs, SyncFor))
  {
    var certs, p, policy := pass.desired.value.certificates, pass.progress, pass.policy.name;
    assert certs[..p.certificates] == certs && certs[..p.syncs] == certs;
    HeldNames(policy, pass.before.certificates, certs, CertificateFor);
    HeldNames(policy, pass.before.syncs, certs, SyncFor);
  }

  /** Everything written and every orphan gone. */
  ghost function Held<T>(policy: string, resources: map<string, Owned<T>>, certs: seq<DesiredCertificate>, specFor: DesiredCertificate -> T): map<string, Owned<T>> {
    var written := PutAll(policy, resources, certs, specFor);
    written - Orphans(policy, written, certs)
  }

  lemma HeldNames<T>(policy: string, resources: map<string, Owned<T>>, certs: seq<DesiredCertificate>, specFor: DesiredCertificate -> T)
    ensures Mine(policy, Held(policy, resources, certs, specFor)) == Elements(DesiredNames(certs))
  {
    PutAllAdds(policy, resources, certs, specFor);
  }

  lemma HeldSpecs<T>(policy: string, resources: map<string, Owned<T>>, certs: seq<DesiredCertificate>, specFor: DesiredCertificate -> T, d: DesiredCertificate)
    requires Distinct(DesiredNames(certs)) && d in certs
    ensures var held := Held(policy, resources, certs, specFor); d.request.name in held && held[d.request.name] == Owned(Some(policy), specFor(d))
  {
    MapMembers(DesiredName, certs);
    assert DesiredName(d) in DesiredNames(certs);
    PutAllHolds(policy, resources, certs, specFor, d);
  }

  /** With distinct names, Certificates, syncs and plan are in agreement after it. */
  lemma FinishedPruneConverges(pass: Pass)
    requires Acted(pass) && FinishedPrune(pass) && Distinct(DesiredNames(pass.desired.value.certificates))
    ensures Converged(pass.policy.name, pass.desired.value.certificates, pass.after)
  {
    var certs, policy := pass.desired.value.certificates, pass.policy.name;
    FinishedPruneLeavesPlan(pass);
    forall d | d in certs
      ensures d.request.name in pass.after.certificates && pass.after.certificates[d.request.name] == Owned(Some(policy), CertificateFor(d))
      ensures d.request.name in pass.after.syncs && pass.after.syncs[d.request.name] == Owned(Some(policy), SyncFor(d))
    {
      HeldSpecs(policy, pass.before.certificates, certs, CertificateFor, d);
      HeldSpecs(policy, pass.before.syncs, certs, SyncFor, d);
    }
  }

  /** No two certificates ask for the same SANs. */
  ghost predicate SansDiffer(certs: seq<DesiredCertificate>) {
    forall i, j | 0 <= i < j < |certs| :: certs[i].request.dnsNames != certs[j].request.dnsNames
  }

  /** And without them they are not: one resource cannot be what two certificates ask for. */
  lemma FinishedPruneConvergesIff(pass: Pass)
    requires Acted(pass) && FinishedPrune(pass) && SansDiffer(pass.desired.value.certificates)
    ensures Converged(pass.policy.name, pass.desired.value.certificates, pass.after) <==> Distinct(DesiredNames(pass.desired.value.certificates))
  {
    hide Acted, Mine;
    var certs := pass.desired.value.certificates;
    if Distinct(DesiredNames(certs)) {
      FinishedPruneConverges(pass);
    } else {
      var i, j :| 0 <= i < j < |certs| && DesiredNames(certs)[i] == DesiredNames(certs)[j];
      assert certs[i] in certs && certs[j] in certs;
      assert CertificateFor(certs[i]) != CertificateFor(certs[j]);
    }
  }

  /** Once converged, a pass that plans the same changes nothing, however far it gets. */
  lemma ConvergedStays(pass: Pass)
    requires Acted(pass) && (pass.desired.Ok? ==> Converged(pass.policy.name, pass.desired.value.certificates, pass.before))
    ensures pass.after == pass.before
  {
    if pass.desired.Ok? && pass.view.certManager == Ok(true) {
      var certs, p, policy := pass.desired.value.certificates, pass.progress, pass.policy.name;
      PutAllAgain(policy, pass.before.certificates, certs[..p.certificates], CertificateFor);
      PutAllAgain(policy, pass.before.syncs, certs[..p.syncs], SyncFor);
      assert p.goneSyncs == {} && p.goneCertificates == {};
    }
  }
}
