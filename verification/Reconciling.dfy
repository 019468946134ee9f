/** One pass over a policy: read, plan, apply, handle orphans (wildcardpolicy_controller.go). */
module Reconciling {
  import opened Outcomes
  import opened Sorting
  import opened Zones
  import opened Packing
  import opened Planner
  import opened Cluster

  datatype OrphanPolicy = Retain | Prune

  datatype Discovery = Discovery(httpRoutes: Option<bool>, gateways: Option<bool>)

  datatype Policy = Policy(
    name: string,
    zones: seq<string>,
    maxCertificates: int,
    grouping: Grouping,
    issueZoneWildcards: bool,
    vaultURL: string,
    orphanPolicy: OrphanPolicy,
    discovery: Option<Discovery>)

  /** What a pass finds around it: the hosts, whether cert-manager is there, and what could be watched at startup. */
  datatype View = View(hosts: Result<seq<string>>, certManager: Result<bool>, httpRoutesAvailable: bool, gatewaysAvailable: bool)

  datatype Withheld = NothingPlanned | RoutesUnseen | GatewaysUnseen

  datatype Report = Degraded | Completed(orphans: nat, withheld: Option<Withheld>)

  function SpecFor(policy: Policy, existing: seq<string>): PolicySpec {
    PolicySpec(policy.zones, policy.maxCertificates, existing, policy.grouping, policy.issueZoneWildcards, policy.vaultURL)
  }

  predicate ExplicitlyEnabled(discovery: Option<Discovery>, pick: Discovery -> Option<bool>) {
    discovery.Some? && pick(discovery.value) == Some(true)
  }

  function PruneWithheldReason(policy: Policy, view: View, planned: seq<DesiredCertificate>): Option<Withheld> {
    if policy.orphanPolicy != Prune then None
    else if planned == [] then Some(NothingPlanned)
    else if !view.httpRoutesAvailable && ExplicitlyEnabled(policy.discovery, (d: Discovery) => d.httpRoutes) then Some(RoutesUnseen)
    else if !view.gatewaysAvailable && ExplicitlyEnabled(policy.discovery, (d: Discovery) => d.gateways) then Some(GatewaysUnseen)
    else None
  }

  predicate Pruning(policy: Policy, view: View, planned: seq<DesiredCertificate>) {
    policy.orphanPolicy == Prune && PruneWithheldReason(policy, view, planned).None?
  }

  // ----- What a pass may have done by the time it ends -----

  /** How many certificates and syncs were written, and which orphans are gone. */
  datatype Progress = Progress(certificates: nat, syncs: nat, goneSyncs: set<string>, goneCertificates: set<string>)

  ghost function Written(policy: string, certs: seq<DesiredCertificate>, before: ClusterState, p: Progress): ClusterState
    requires p.certificates <= |certs| && p.syncs <= |certs|
  {
    ClusterState(
      PutAll(policy, before.certificates, certs[..p.certificates], CertificateFor),
      PutAll(policy, before.syncs, certs[..p.syncs], SyncFor))
  }

  ghost function Orphans<T>(policy: string, resources: map<string, Owned<T>>, certs: seq<DesiredCertificate>): set<string> {
    Mine(policy, resources) - Elements(DesiredNames(certs))
  }

  /** Certificates are written each before its sync, and none over another policy's. */
  ghost predicate Applied(policy: string, certs: seq<DesiredCertificate>, before: ClusterState, p: Progress) {
    && p.syncs <= p.certificates <= |certs| && p.certificates <= p.syncs + 1
    && (forall d | d in certs[..p.certificates] :: !Foreign(policy, before.certificates, d.request.name))
    && (forall d | d in certs[..p.syncs] :: !Foreign(policy, before.syncs, d.request.name))
  }

  /** Orphans go only in a pruning pass that has applied everything, syncs before certificates. */
  ghost predicate Pruned(policy: string, certs: seq<DesiredCertificate>, pruning: bool, written: ClusterState, p: Progress) {
    && p.goneSyncs <= Orphans(policy, written.syncs, certs)
    && p.goneCertificates <= Orphans(policy, written.certificates, certs)
    && (p.goneSyncs != {} || p.goneCertificates != {} ==> pruning && p.syncs == |certs|)
    && (p.goneCertificates != {} ==> p.goneSyncs == Orphans(policy, written.syncs, certs))
  }

  ghost predicate Finished(policy: string, certs: seq<DesiredCertificate>, pruning: bool, written: ClusterState, p: Progress) {
    && p.syncs == |certs|
    && (pruning ==> p.goneSyncs == Orphans(policy, written.syncs, certs) && p.goneCertificates == Orphans(policy, written.certificates, certs))
  }

  ghost function Left(written: ClusterState, p: Progress): ClusterState {
    ClusterState(written.certificates - p.goneCertificates, written.syncs - p.goneSyncs)
  }

  /** A pass: what it was given, what it read (if it could) and planned, how far it got and what it reported. */
  datatype Pass = Pass(
    policy: Policy,
    view: View,
    before: ClusterState,
    existing: Option<seq<string>>,
    desired: Result<DesiredState>,
    progress: Progress,
    after: ClusterState,
    outcome: Result<Report>)

  ghost predicate ReportIs(policy: Policy, view: View, certs: seq<DesiredCertificate>, written: ClusterState, report: Report) {
    && report.Completed?
    && report.orphans == |Orphans(policy.name, written.syncs, certs)|
    && report.withheld == if report.orphans == 0 then None else PruneWithheldReason(policy, view, certs)
  }

  /** What the cluster went through, once there was a plan and cert-manager was there. */
  ghost predicate Worked(pass: Pass, certs: seq<DesiredCertificate>) {
    var name, pruning := pass.policy.name, Pruning(pass.policy, pass.view, certs);
    && Applied(name, certs, pass.before, pass.progress)
    && var written := Written(name, certs, pass.before, pass.progress);
    && Pruned(name, certs, pruning, written, pass.progress)
    && pass.after == Left(written, pass.progress)
    && (pass.outcome.Ok? ==>
          Finished(name, certs, pruning, written, pass.progress) && ReportIs(pass.policy, pass.view, certs, written, pass.outcome.value))
    && (pass.outcome.Err? ==> pass.outcome.error == ClusterUnavailable)
  }

  /** A pass that never got to change anything. */
  ghost predicate Idled(pass: Pass) {
    pass.after == pass.before && pass.progress == Progress(0, 0, {}, {})
  }

  /** What a pass did with its plan, if it had one. */
  ghost predicate Acted(pass: Pass) {
    if pass.desired.Ok? && pass.view.certManager == Ok(true) then Worked(pass, pass.desired.value.certificates)
    else Idled(pass) && pass.outcome == match (pass.desired, pass.view.certManager)
                                       case (Err(e), _) => Err(e)
                                       case (_, Err(e)) => Err(e)
                                       case _ => Ok(Degraded)
  }

  /** Whether a pass planned from what it had read; if it could not read, it planned nothing. */
  ghost predicate Planned(rules: NameRules, registry: Registry, pass: Pass) {
    match pass.existing
    case None => pass.desired.Err?
    case Some(existing) =>
      && Elements(existing) == Mine(pass.policy.name, pass.before.syncs)
      && IsDesired(rules, registry, pass.view.hosts, SpecFor(pass.policy, existing), pass.desired)
  }

  ghost predicate IsPass(rules: NameRules, registry: Registry, pass: Pass) {
    Planned(rules, registry, pass) && Acted(pass)
  }

  // ----- The pass itself -----

  method InSomeOrder(names: set<string>) returns (out: seq<string>)
    ensures Elements(out) == names && Distinct(out)
  {
    out := [];
    var todo := names;
    while todo != {}
      invariant todo <= names && Elements(out) == names - todo && Distinct(out)
      decreases todo
    {
      var name :| name in todo;
      assert name !in Elements(out);
      assert Elements(out + [name]) == Elements(out) + {name};
      out := out + [name];
      todo := todo - {name};
    }
  }

  method Apply(api: ApiServer, policy: string, certs: seq<DesiredCertificate>) returns (done: bool, ghost p: Progress)
    modifies api
    ensures p.goneSyncs == p.goneCertificates == {}
    ensures Applied(policy, certs, old(api.State()), p)
    ensures api.State() == Written(policy, certs, old(api.State()), p)
    ensures done ==> p.syncs == |certs|
    ensures api.Faultless() && !Blocked(policy, certs, old(api.State())) ==> done
  {
    ghost var before := api.State();
    p := Progress(0, 0, {}, {});
    assert certs[..0] == [];
    for i := 0 to |certs|
      invariant p == Progress(i, i, {}, {}) && Applied(policy, certs, before, p)
      invariant api.State() == Written(policy, certs, before, p)
    {
      NextMayBeWritten(policy, certs, before, i);
      var ok := api.EnsureCertificate(policy, certs[i]);
      if api.certificates != Written(policy, certs, before, p).certificates || ok {
        p := p.(certificates := i + 1);
      }
      if !ok {
        return false, p;
      }
      ok := api.EnsureSync(policy, certs[i]);
      if api.syncs != Written(policy, certs, before, p).syncs || ok {
        p := p.(syncs := i + 1);
      }
      if !ok {
        return false, p;
      }
    }
    return true, p;
  }

  /** Whether a planned name belongs to another policy. */
  ghost predicate Blocked(policy: string, certs: seq<DesiredCertificate>, before: ClusterState) {
    exists d :: d in certs && (Foreign(policy, before.certificates, d.request.name) || Foreign(policy, before.syncs, d.request.name))
  }

  /** Up to certificate i, the names other policies own are those they owned before. */
  lemma NextMayBeWritten(policy: string, certs: seq<DesiredCertificate>, before: ClusterState, i: nat)
    requires i < |certs| && Applied(policy, certs, before, Progress(i, i, {}, {}))
    ensures var written := Written(policy, certs, before, Progress(i, i, {}, {}));
            && (Foreign(policy, written.certificates, certs[i].request.name) <==> Foreign(policy, before.certificates, certs[i].request.name))
            && (Foreign(policy, written.syncs, certs[i].request.name) <==> Foreign(policy, before.syncs, certs[i].request.name))
    ensures PutAll(policy, before.certificates, certs[..i + 1], CertificateFor) ==
            Put(policy, PutAll(policy, before.certificates, certs[..i], CertificateFor), certs[i].request.name, CertificateFor(certs[i]))
    ensures PutAll(policy, before.syncs, certs[..i + 1], SyncFor) ==
            Put(policy, PutAll(policy, before.syncs, certs[..i], SyncFor), certs[i].request.name, SyncFor(certs[i]))
    ensures certs[i] in certs && certs[..i + 1] == certs[..i] + [certs[i]]
  {
    PutAllKeepsForeign(policy, before.certificates, certs[..i], CertificateFor, certs[i].request.name);
    PutAllKeepsForeign(policy, before.syncs, certs[..i], SyncFor, certs[i].request.name);
    PutNext(policy, before.certificates, certs, CertificateFor, i);
    PutNext(policy, before.syncs, certs, SyncFor, i);
  }

  method PruneSyncs(api: ApiServer, policy: string, wanted: set<string>, pruning: bool)
    returns (done: bool, orphans: nat, ghost gone: set<string>)
    modifies api
    ensures api.State() == ClusterState(old(api.certificates), old(api.syncs) - gone)
    ensures gone <= Mine(policy, old(api.syncs)) - wanted && (gone != {} ==> pruning)
    ensures done ==> orphans == |Mine(policy, old(api.syncs)) - wanted| && (pruning ==> gone == Mine(policy, old(api.syncs)) - wanted)
    ensures api.Faultless() ==> done
  {
    var items := api.ListSyncs(policy);
    if items.None? {
      return false, 0, {};
    }
    done, orphans, gone := PruneListedSyncs(api, items.value, wanted, pruning);
  }

  method PruneListedSyncs(api: ApiServer, items: set<string>, wanted: set<string>, pruning: bool)
    returns (done: bool, orphans: nat, ghost gone: set<string>)
    modifies api
    ensures api.syncs == old(api.syncs) - gone && api.certificates == old(api.certificates)
    ensures gone <= items - wanted && (gone != {} ==> pruning)
    ensures done ==> orphans == |items - wanted| && (pruning ==> gone == items - wanted)
    ensures api.Faultless() ==> done
  {
    ghost var before := api.syncs;
    gone, orphans := {}, 0;
    var todo := items;
    while todo != {}
      invariant todo <= items && orphans == |Seen(items, wanted, todo)|
      invariant gone == if pruning then Seen(items, wanted, todo) else {}
      invariant api.syncs == before - gone && api.certificates == old(api.certificates)
      decreases todo
    {
      var name :| name in todo;
      SeenNext(items, wanted, todo, name);
      todo := todo - {name};
      if name in wanted {
        continue;
      }
      orphans := orphans + 1;
      if pruning {
        var ok;
        ok, gone := TryDeleteSync(api, name, before, gone);
        if !ok {
          return false, orphans, gone;
        }
      }
    }
    SeenAll(items, wanted);
    return true, orphans, gone;
  }

  /** The orphans among the items already looked at. */
  ghost function Seen(items: set<string>, wanted: set<string>, todo: set<string>): set<string> {
    items - wanted - todo
  }

  lemma SeenNext(items: set<string>, wanted: set<string>, todo: set<string>, name: string)
    requires name in todo && todo <= items
    ensures name !in Seen(items, wanted, todo)
    ensures Seen(items, wanted, todo - {name}) == Seen(items, wanted, todo) + if name in wanted then {} else {name}
    ensures name !in wanted ==> |Seen(items, wanted, todo - {name})| == |Seen(items, wanted, todo)| + 1
  {
  }

  lemma SeenAll(items: set<string>, wanted: set<string>)
    ensures Seen(items, wanted, items) == {} && Seen(items, wanted, {}) == items - wanted
  {
  }

  /** One deletion, and whether it took effect. */
  method TryDeleteSync(api: ApiServer, name: string, ghost before: map<string, Owned<SyncSpec>>, ghost gone: set<string>)
    returns (ok: bool, ghost now: set<string>)
    requires api.syncs == before - gone
    modifies api
    ensures api.syncs == before - now && api.certificates == old(api.certificates)
    ensures now == gone || now == gone + {name}
    ensures ok ==> now == gone + {name}
    ensures api.Faultless() ==> ok
  {
    now := if api.replies(api.calls).Refused? then gone else gone + {name};
    ok := api.DeleteSync(name);
  }

  method PruneCertificates(api: ApiServer, policy: string, wanted: set<string>) returns (done: bool, ghost gone: set<string>)
    modifies api
    ensures api.State() == ClusterState(old(api.certificates) - gone, old(api.syncs))
    ensures gone <= Mine(policy, old(api.certificates)) - wanted
    ensures done ==> gone == Mine(policy, old(api.certificates)) - wanted
    ensures api.Faultless() ==> done
  {
    ghost var before := api.certificates;
    gone := {};
    var items := api.ListCertificates(policy);
    if items.None? {
      return false, {};
    }
    var todo := items.value;
    while todo != {}
      invariant todo <= items.value && gone == items.value - wanted - todo
      invariant api.certificates == before - gone && api.syncs == old(api.syncs)
      decreases todo
    {
      var name :| name in todo;
      todo := todo - {name};
      if name in wanted {
        continue;
      }
      var ok := api.DeleteCertificate(name);
      if api.certificates == before - gone - {name} {
        gone := gone + {name};
      }
      if !ok {
        return false, gone;
      }
    }
    return true, gone;
  }

  /** Everything a pass does once it has a plan and cert-manager is there. */
  method ApplyAndPrune(policy: Policy, view: View, certs: seq<DesiredCertificate>, api: ApiServer)
    returns (r: Result<Report>, ghost p: Progress)
    modifies api
    ensures Applied(policy.name, certs, old(api.State()), p)
    ensures Pruned(policy.name, certs, Pruning(policy, view, certs), Written(policy.name, certs, old(api.State()), p), p)
    ensures api.State() == Left(Written(policy.name, certs, old(api.State()), p), p)
    ensures r.Ok? ==> Finished(policy.name, certs, Pruning(policy, view, certs), Written(policy.name, certs, old(api.State()), p), p)
    ensures r.Ok? ==> ReportIs(policy, view, certs, Written(policy.name, certs, old(api.State()), p), r.value)
    ensures r.Err? ==> r.error == ClusterUnavailable
    ensures api.Faultless() && !Blocked(policy.name, certs, old(api.State())) ==> r.Ok?
  {
    hide PutAll, Foreign, Mine;
    var done;
    done, p := Apply(api, policy.name, certs);
    if !done {
      return Err(ClusterUnavailable), p;
    }
    var wanted := Elements(DesiredNames(certs));
    var withheld := PruneWithheldReason(policy, view, certs);
    var pruning := policy.orphanPolicy == Prune && withheld.None?;
    var orphans;
    ghost var gone;
    done, orphans, gone := PruneSyncs(api, policy.name, wanted, pruning);
    p := p.(goneSyncs := gone);
    if !done {
      return Err(ClusterUnavailable), p;
    }
    if pruning {
      done, gone := PruneCertificates(api, policy.name, wanted);
      p := p.(goneCertificates := gone);
      if !done {
        return Err(ClusterUnavailable), p;
      }
    }
    if orphans == 0 {
      withheld := None;
    }
    return Ok(Completed(orphans, withheld)), p;
  }

  /** What exists is read before planning, so that the cap can prefer it. */
  method ReadAndPlan(rules: NameRules, registry: Registry, policy: Policy, view: View, api: ApiServer)
    returns (existing: Option<seq<string>>, desired: Result<DesiredState>)
    modifies api
    ensures api.State() == old(api.State())
    ensures match existing
            case None => desired.Err? && !api.Faultless()
            case Some(names) =>
              Elements(names) == Mine(policy.name, api.syncs) && IsDesired(rules, registry, view.hosts, SpecFor(policy, names), desired)
  {
    var listed := api.ListSyncs(policy.name);
    if listed.None? {
      return None, Err(ClusterUnavailable);
    }
    var names := InSomeOrder(listed.value);
    existing := Some(names);
    desired := PlanDesired(rules, registry, view.hosts, SpecFor(policy, names));
  }

  /** The rest of a pass, given what was read and planned. */
  method Act(policy: Policy, view: View, existing: Option<seq<string>>, desired: Result<DesiredState>, api: ApiServer)
    returns (r: Result<Report>, ghost pass: Pass)
    modifies api
    ensures pass == Pass(policy, view, old(api.State()), existing, desired, pass.progress, api.State(), r)
    ensures Acted(pass)
    ensures api.Faultless() && view.certManager.Ok? && desired.Ok? && !Blocked(policy.name, desired.value.certificates, old(api.State())) ==> r.Ok?
  {
    ghost var before, progress := api.State(), Progress(0, 0, {}, {});
    if desired.Err? {
      r := Err(desired.error);
    } else if view.certManager.Err? {
      r := Err(view.certManager.error);
    } else if !view.certManager.value {
      r := Ok(Degraded);
    } else {
      r, progress := ApplyAndPrune(policy, view, desired.value.certificates, api);
    }
    pass := Pass(policy, view, before, existing, desired, progress, api.State(), r);
  }

  method Reconcile(rules: NameRules, registry: Registry, policy: Policy, view: View, api: ApiServer)
    returns (r: Result<Report>, ghost pass: Pass)
    modifies api
    ensures IsPass(rules, registry, pass)
    ensures pass.policy == policy && pass.view == view && pass.outcome == r
    ensures pass.before == old(api.State()) && pass.after == api.State()
    ensures api.Faultless() ==> pass.existing.Some?
    ensures api.Faultless() && view.certManager.Ok? && pass.desired.Ok? && !Blocked(policy.name, pass.desired.value.certificates, pass.before) ==> r.Ok?
  {
    var existing, desired := ReadAndPlan(rules, registry, policy, view, api);
    r, pass := Act(policy, view, existing, desired, api);
  }
}
