/** When a pass gives the slot of a Certificate that exists to one that does not. */
module Evictions {
  import opened Outcomes
  import opened Sorting
  import opened Zones
  import opened Packing
  import opened Collisions
  import opened Limit
  import opened Planning
  import opened PlanTheorems
  import opened Planner
  import opened Cluster
  import opened Reconciling
  import opened PolicyPasses
  import opened PolicyRuns

  /** A generated Certificate is deleted although it is still asked for, and a new one is created. */
  ghost predicate Evicts(pass: Pass, names: seq<string>, gone: string, newcomer: string) {
    var policy := pass.policy.name;
    && gone in names && gone in Mine(policy, pass.before.certificates) && gone !in Mine(policy, pass.after.certificates)
    && newcomer in Mine(policy, pass.after.certificates) && newcomer !in Mine(policy, pass.before.certificates) && newcomer !in Mine(policy, pass.before.syncs)
  }

  /**
   The condition on what a pass finds: a Certificate without its sync stands outside the cap,
   and a name that has neither stands inside it.
   */
  ghost predicate Crowded(names: seq<string>, max: int, syncs: set<string>, certificates: set<string>) {
    && 0 < max < |names|
    && (exists gone :: gone in names && gone in certificates && gone !in syncs && |Ahead(names, syncs, gone)| >= max)
    && (exists newcomer :: newcomer in names && newcomer !in certificates && newcomer !in syncs && |Ahead(names, syncs, newcomer)| < max)
  }

  /**
   The cap is meant to let a new certificate overflow rather than evict one that was issued.
   It looks at syncs only, so a finished pruning pass does evict one for a new one exactly
   when a Certificate that never got its sync is crowded out.
   */
  lemma EvictsExactlyWhenCrowded(rules: NameRules, registry: Registry, pass: Pass, all: seq<CertificateRequest>)
    requires IsPass(rules, registry, pass) && Wants(rules, registry, pass, all, pass.policy.maxCertificates)
    requires FinishedPrune(pass)
    ensures (exists gone, newcomer :: Evicts(pass, Names(all), gone, newcomer)) <==>
            Crowded(Names(all), pass.policy.maxCertificates, Mine(pass.policy.name, pass.before.syncs), Mine(pass.policy.name, pass.before.certificates))
  {
    var keep := KeptByPass(rules, registry, pass, all, pass.policy.maxCertificates);
    FinishedPruneLeavesPlan(pass);
    var names, max, syncs, certs := Names(all), pass.policy.maxCertificates, Mine(pass.policy.name, pass.before.syncs), Mine(pass.policy.name, pass.before.certificates);
    if gone, newcomer :| Evicts(pass, names, gone, newcomer) {
      EvictedIsCrowded(names, max, syncs, certs, keep, gone, newcomer);
    }
    if Crowded(names, max, syncs, certs) {
      var gone :| gone in names && gone in certs && gone !in syncs && |Ahead(names, syncs, gone)| >= max;
      var newcomer :| newcomer in names && newcomer !in certs && newcomer !in syncs && |Ahead(names, syncs, newcomer)| < max;
      KeptIff(names, max, syncs, keep, gone);
      KeptIff(names, max, syncs, keep, newcomer);
      assert Evicts(pass, names, gone, newcomer);
    }
  }

  lemma EvictedIsCrowded(names: seq<string>, max: int, syncs: set<string>, certs: set<string>, keep: set<string>, gone: string, newcomer: string)
    requires IsSelection(names, max, syncs, keep)
    requires gone in names && gone in certs && gone !in keep && newcomer in keep && newcomer !in certs && newcomer !in syncs
    ensures Crowded(names, max, syncs, certs)
  {
    if gone in syncs {
      OnlyIssuedEvictIssued(names, max, syncs, keep, gone);
    }
    KeptIff(names, max, syncs, keep, gone);
    KeptIff(names, max, syncs, keep, newcomer);
  }

  /** A pass evicts only in that case, wherever it breaks off: half-way through its deletions too. */
  lemma AnyPassEvictsOnlyWhenCrowded(
      rules: NameRules, registry: Registry, pass: Pass, all: seq<CertificateRequest>, gone: string, newcomer: string)
    requires IsPass(rules, registry, pass) && Wants(rules, registry, pass, all, pass.policy.maxCertificates)
    requires Evicts(pass, Names(all), gone, newcomer)
    ensures Crowded(Names(all), pass.policy.maxCertificates, Mine(pass.policy.name, pass.before.syncs), Mine(pass.policy.name, pass.before.certificates))
  {
    hide Crowded;
    PassStaysBetween(pass);
    var keep := KeptByPass(rules, registry, pass, all, pass.policy.maxCertificates);
    EvictedIsCrowded(Names(all), pass.policy.maxCertificates, Mine(pass.policy.name, pass.before.syncs),
                     Mine(pass.policy.name, pass.before.certificates), keep, gone, newcomer);
  }

  /** No pass over a policy whose Certificates all have their syncs ever evicts, finished or not. */
  lemma SyncedCertificatesAreSafe(
      rules: NameRules, registry: Registry, pass: Pass, all: seq<CertificateRequest>, gone: string, newcomer: string)
    requires IsPass(rules, registry, pass) && Wants(rules, registry, pass, all, pass.policy.maxCertificates)
    requires Mine(pass.policy.name, pass.before.certificates) <= Mine(pass.policy.name, pass.before.syncs)
    ensures !Evicts(pass, Names(all), gone, newcomer)
  {
    if Evicts(pass, Names(all), gone, newcomer) {
      AnyPassEvictsOnlyWhenCrowded(rules, registry, pass, all, gone, newcomer);
    }
  }

  /**
   A pass that leaves no Certificate without its sync: it wrote as many syncs as Certificates,
   and of what it deleted it left no Certificate behind. So does every pass that runs to its
   end, and every pass that fails before its first write.
   */
  ghost predicate LeavesNoneStranded(pass: Pass) {
    && pass.progress.syncs == pass.progress.certificates
    && pass.progress.goneSyncs !! Mine(pass.policy.name, pass.after.certificates)
  }

  lemma FinishedPassLeavesNoneStranded(pass: Pass)
    requires Acted(pass) && (pass.outcome.Ok? || pass.progress == Progress(0, 0, {}, {}))
    ensures LeavesNoneStranded(pass)
  {
    if pass.desired.Ok? && pass.view.certManager == Ok(true) && pass.outcome.Ok? {
      var certs := pass.desired.value.certificates;
      if Pruning(pass.policy, pass.view, certs) {
        FinishedPruneLeavesPlan(pass);
      } else {
        assert pass.progress.goneSyncs == {};
      }
    }
  }

  lemma NoneStrandedAfter(pass: Pass)
    requires Acted(pass) && LeavesNoneStranded(pass)
    requires Mine(pass.policy.name, pass.before.certificates) <= Mine(pass.policy.name, pass.before.syncs)
    ensures Mine(pass.policy.name, pass.after.certificates) <= Mine(pass.policy.name, pass.after.syncs)
  {
    if pass.desired.Ok? && pass.view.certManager == Ok(true) {
      WrittenTogether(pass, pass.desired.value.certificates);
    }
  }

  lemma WrittenTogether(pass: Pass, certs: seq<DesiredCertificate>)
    requires Worked(pass, certs) && LeavesNoneStranded(pass)
    requires Mine(pass.policy.name, pass.before.certificates) <= Mine(pass.policy.name, pass.before.syncs)
    ensures Mine(pass.policy.name, pass.after.certificates) <= Mine(pass.policy.name, pass.after.syncs)
  {
    hide PutAll, Mine, Applied, Pruned, Finished;
    var policy, p := pass.policy.name, pass.progress;
    assert p.certificates <= |certs| && p.syncs <= |certs| by {
      Bounds(pass, certs);
    }
    PutAllOwns(policy, pass.before.certificates, certs[..p.certificates], CertificateFor);
    PutAllOwns(policy, pass.before.syncs, certs[..p.syncs], SyncFor);
    MineWithout(policy, PutAll(policy, pass.before.certificates, certs[..p.certificates], CertificateFor), p.goneCertificates);
    MineWithout(policy, PutAll(policy, pass.before.syncs, certs[..p.syncs], SyncFor), p.goneSyncs);
  }

  lemma Bounds(pass: Pass, certs: seq<DesiredCertificate>)
    requires Applied(pass.policy.name, certs, pass.before, pass.progress)
    ensures pass.progress.syncs <= |certs| && pass.progress.certificates <= |certs|
  {
  }

  lemma MineWithout<T>(policy: string, resources: map<string, Owned<T>>, gone: set<string>)
    ensures Mine(policy, resources - gone) == Mine(policy, resources) - gone
  {
  }

  /**
   So it takes an interruption between a Certificate and its sync: in a run of passes, whatever
   is asked for in each, none evicts as long as those before it left no Certificate stranded.
   */
  lemma UninterruptedRunsNeverEvict(
      rules: NameRules, registry: Registry, policy: string, passes: seq<Pass>, i: nat, all: seq<CertificateRequest>, gone: string, newcomer: string)
    requires Consecutive(passes) && i < |passes|
    requires forall p | p in passes :: IsPass(rules, registry, p) && p.policy.name == policy
    requires forall k | 0 <= k < i :: LeavesNoneStranded(passes[k])
    requires Mine(policy, passes[0].before.certificates) <= Mine(policy, passes[0].before.syncs)
    requires Wants(rules, registry, passes[i], all, passes[i].policy.maxCertificates)
    ensures !Evicts(passes[i], Names(all), gone, newcomer)
  {
    hide Planned, Acted, Wants, Evicts, LeavesNoneStranded;
    NoneStranded(rules, registry, policy, passes, i);
    assert passes[i] in passes;
    SyncedCertificatesAreSafe(rules, registry, passes[i], all, gone, newcomer);
  }

  lemma {:induction false} NoneStranded(rules: NameRules, registry: Registry, policy: string, passes: seq<Pass>, i: nat)
    requires Consecutive(passes) && i < |passes|
    requires forall p | p in passes :: IsPass(rules, registry, p) && p.policy.name == policy
    requires forall k | 0 <= k < i :: LeavesNoneStranded(passes[k])
    requires Mine(policy, passes[0].before.certificates) <= Mine(policy, passes[0].before.syncs)
    ensures Mine(policy, passes[i].before.certificates) <= Mine(policy, passes[i].before.syncs)
  {
    hide Planned, Acted, Mine, LeavesNoneStranded;
    if i > 0 {
      NoneStranded(rules, registry, policy, passes, i - 1);
      assert passes[i - 1] in passes;
      NoneStrandedAfter(passes[i - 1]);
    }
  }

  // ----- A run that gets there -----

  function DesiredFor(cert: CertificateRequest, vaultURL: string): DesiredCertificate {
    DesiredCertificate(cert, SecretNameOf(cert.name), SecretIdentifier(vaultURL, cert.name), [cert.dnsNames])
  }

  /** A policy that allows one certificate, and prunes. */
  ghost predicate AllowsOne(policy: Policy) {
    policy.maxCertificates == 1 && policy.orphanPolicy == Prune && policy.discovery == None
  }

  const NO_RESOURCES := ClusterState(map[], map[])

  /** What a pass sees when nothing is missing. */
  function Seeing(hosts: seq<string>): View {
    View(Ok(hosts), Ok(true), true, true)
  }

  /** The policy asks for these certificates, before the cap. */
  ghost predicate AsksFor(rules: NameRules, registry: Registry, policy: Policy, hosts: seq<string>, all: seq<CertificateRequest>) {
    ZonesUsable(registry, policy.zones) && Uncapped(rules, InputOf(hosts, SpecFor(policy, []))) == Ok(all)
  }

  /** A desired state for any selection of one-name certificates. */
  lemma StateFor(rules: NameRules, registry: Registry, policy: Policy, hosts: seq<string>, all: seq<CertificateRequest>, keep: set<string>) returns (state: DesiredState)
    requires AsksFor(rules, registry, policy, hosts, all)
    requires IsSelection(Names(all), policy.maxCertificates, {}, keep)
    requires forall c | c in all :: |c.dnsNames| == 1
    ensures IsDesired(rules, registry, Ok(hosts), SpecFor(policy, []), Ok(state))
    ensures state.certificates == DesiredAll(Kept(all, keep), policy.vaultURL)
  {
    var input := InputOf(hosts, SpecFor(policy, []));
    assert Elements(input.existing) == {};
    var plan := PlanExists(rules, registry, input, all, keep);
    state := DesiredState(DesiredAll(plan.certificates, policy.vaultURL), plan.skipped, hosts);
    KeptAreShort(all, keep);
    DesiredAllHolds(plan.certificates, policy.vaultURL);
    assert PlanIn(state) == plan;
  }

  lemma KeptAreShort(all: seq<CertificateRequest>, keep: set<string>)
    requires forall c | c in all :: |c.dnsNames| == 1
    ensures forall c | c in Kept(all, keep) :: |c.dnsNames| == 1
  {
    LimitSplits(all, keep);
    forall c | c in Kept(all, keep)
      ensures c in all
    {
      assert c in multiset(all);
    }
  }

  function DesiredAll(certs: seq<CertificateRequest>, vaultURL: string): seq<DesiredCertificate> {
    if certs == [] then [] else [DesiredFor(certs[0], vaultURL)] + DesiredAll(certs[1..], vaultURL)
  }

  lemma {:induction false} DesiredAllHolds(certs: seq<CertificateRequest>, vaultURL: string)
    requires forall c | c in certs :: |c.dnsNames| == 1
    ensures Map(RequestIn, DesiredAll(certs, vaultURL)) == certs
    ensures forall d | d in DesiredAll(certs, vaultURL) :: Derived(d, vaultURL)
  {
    if certs != [] {
      DesiredAllHolds(certs[1..], vaultURL);
      assert certs[0] in certs;
      assert Concat([certs[0].dnsNames]) == certs[0].dnsNames + [];
      assert certs == [certs[0]] + certs[1..];
      assert DesiredAll(certs, vaultURL)[1..] == DesiredAll(certs[1..], vaultURL);
    }
  }

  /** A Certificate alone in the cluster. */
  function Stranded(policy: string, d: DesiredCertificate): ClusterState {
    ClusterState(map[d.request.name := Owned(Some(policy), CertificateFor(d))], map[])
  }

  /** A Certificate with its sync. */
  function Settled(policy: string, d: DesiredCertificate): ClusterState {
    ClusterState(map[d.request.name := Owned(Some(policy), CertificateFor(d))], map[d.request.name := Owned(Some(policy), SyncFor(d))])
  }

  lemma PutOne<T>(policy: string, resources: map<string, Owned<T>>, d: DesiredCertificate, specFor: DesiredCertificate -> T)
    ensures PutAll(policy, resources, [d], specFor) == Put(policy, resources, d.request.name, specFor(d))
    ensures PutAll(policy, resources, [d][..0], specFor) == resources
  {
    assert [d][..0] == [];
  }

  /** A pass can write one Certificate and then lose the API server. */
  lemma InterruptedPass(policy: Policy, hosts: seq<string>, state: DesiredState, d: DesiredCertificate) returns (pass: Pass)
    requires state.certificates == [d]
    ensures Acted(pass)
    ensures pass == Pass(policy, Seeing(hosts), NO_RESOURCES, Some([]), Ok(state), pass.progress, Stranded(policy.name, d), pass.outcome)
  {
    pass := Pass(policy, Seeing(hosts), NO_RESOURCES, Some([]), Ok(state), Progress(1, 0, {}, {}), Stranded(policy.name, d), Err(ClusterUnavailable));
    PutOne(policy.name, NO_RESOURCES.certificates, d, CertificateFor);
    PutOne(policy.name, NO_RESOURCES.syncs, d, SyncFor);
    assert [d][..1] == [d];
  }

  /** The next pass can find another certificate planned in its place, and replace it. */
  lemma ReplacingPass(policy: Policy, hosts: seq<string>, state: DesiredState, found: DesiredCertificate, d: DesiredCertificate) returns (pass: Pass)
    requires AllowsOne(policy) && state.certificates == [d] && d.request.name != found.request.name
    ensures Acted(pass) && FinishedPrune(pass)
    ensures pass == Pass(policy, Seeing(hosts), Stranded(policy.name, found), Some([]), Ok(state), pass.progress, Settled(policy.name, d), pass.outcome)
  {
    var name, before, progress := policy.name, Stranded(policy.name, found), Progress(1, 1, {}, {found.request.name});
    pass := Pass(policy, Seeing(hosts), before, Some([]), Ok(state), progress, Settled(name, d), Ok(Completed(0, None)));
    PutOne(name, before.certificates, d, CertificateFor);
    PutOne(name, before.syncs, d, SyncFor);
    assert [d][..1] == [d] && DesiredNames([d]) == [d.request.name];
    var written := Written(name, [d], before, progress);
    assert Orphans(name, written.certificates, [d]) == {found.request.name};
    assert Orphans(name, written.syncs, [d]) == {};
  }

  lemma AloneIsKept(b: CertificateRequest, vaultURL: string)
    ensures IsSelection(Names([b]), 1, {}, {b.name}) && DesiredAll(Kept([b], {b.name}), vaultURL) == [DesiredFor(b, vaultURL)]
  {
    assert Names([b]) == [b.name];
  }

  lemma FirstIsKept(a: CertificateRequest, b: CertificateRequest, vaultURL: string)
    requires a.name != b.name
    ensures IsSelection(Names([a, b]), 1, {}, {a.name}) && DesiredAll(Kept([a, b], {a.name}), vaultURL) == [DesiredFor(a, vaultURL)]
  {
    assert Names([a, b]) == [a.name, b.name];
    assert [a, b][1..] == [b];
    assert Kept([a, b], {a.name}) == [a] + (Kept([b], {a.name}));
    assert Kept([b], {a.name}) == [];
    SmallerSubset({a.name}, Elements(Names([a, b])), b.name);
  }

  /** The first pass of the run: one certificate asked for, and an API server lost half-way. */
  lemma FirstPass(rules: NameRules, registry: Registry, policy: Policy, hosts: seq<string>, b: CertificateRequest) returns (pass: Pass)
    requires AsksFor(rules, registry, policy, hosts, [b]) && AllowsOne(policy) && |b.dnsNames| == 1
    ensures IsPass(rules, registry, pass) && pass.policy == policy && pass.view == Seeing(hosts)
    ensures pass.before == NO_RESOURCES && pass.after == Stranded(policy.name, DesiredFor(b, policy.vaultURL))
  {
    hide AsksFor, IsDesired, Planned, Acted;
    AloneIsKept(b, policy.vaultURL);
    var state := StateFor(rules, registry, policy, hosts, [b], {b.name});
    pass := InterruptedPass(policy, hosts, state, DesiredFor(b, policy.vaultURL));
    NothingExists(rules, registry, pass);
  }

  lemma NothingExists(rules: NameRules, registry: Registry, pass: Pass)
    requires pass.existing == Some([]) && pass.before.syncs == map[]
    requires IsDesired(rules, registry, pass.view.hosts, SpecFor(pass.policy, []), pass.desired)
    ensures Planned(rules, registry, pass)
  {
    assert Mine(pass.policy.name, pass.before.syncs) == {};
  }

  /** The second: another certificate asked for, whose name comes first. */
  lemma SecondPass(rules: NameRules, registry: Registry, policy: Policy, hosts: seq<string>, a: CertificateRequest, b: CertificateRequest) returns (pass: Pass)
    requires AsksFor(rules, registry, policy, hosts, [a, b]) && AllowsOne(policy)
    requires |a.dnsNames| == |b.dnsNames| == 1 && a.name != b.name
    ensures IsPass(rules, registry, pass) && pass.policy == policy && pass.view == Seeing(hosts)
    ensures pass.before == Stranded(policy.name, DesiredFor(b, policy.vaultURL)) && pass.after == Settled(policy.name, DesiredFor(a, policy.vaultURL))
  {
    hide AsksFor, IsDesired, Planned, Acted;
    FirstIsKept(a, b, policy.vaultURL);
    var state := StateFor(rules, registry, policy, hosts, [a, b], {a.name});
    pass := ReplacingPass(policy, hosts, state, DesiredFor(b, policy.vaultURL), DesiredFor(a, policy.vaultURL));
    NothingExists(rules, registry, pass);
  }

  /**
   A run in which it happens: a pass breaks off before it has created the sync of its one
   Certificate; then a name is planned that comes first. With a cap of one, the second pass
   deletes the first Certificate, which may have been issued meanwhile.
   */
  lemma EvictionRun(
      rules: NameRules, registry: Registry, early: Policy, later: Policy, hosts: seq<string>, a: CertificateRequest, b: CertificateRequest)
    returns (first: Pass, second: Pass)
    requires AsksFor(rules, registry, early, hosts, [b]) && AsksFor(rules, registry, later, hosts, [a, b])
    requires AllowsOne(early) && AllowsOne(later) && early.name == later.name && early.vaultURL == later.vaultURL
    requires |a.dnsNames| == |b.dnsNames| == 1 && a.name != b.name
    ensures IsPass(rules, registry, first) && IsPass(rules, registry, second)
    ensures first.policy == early && second.policy == later && first.view == second.view == Seeing(hosts)
    ensures first.before == NO_RESOURCES && second.before == first.after
    ensures Evicts(second, Names([a, b]), b.name, a.name)
  {
    hide AsksFor, IsPass;
    first := FirstPass(rules, registry, early, hosts, b);
    second := SecondPass(rules, registry, later, hosts, a, b);
    assert Names([a, b])[1] == b.name;
  }
}
