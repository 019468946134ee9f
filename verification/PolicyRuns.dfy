/** Passes repeated, interrupted and retried. */
module PolicyRuns {
  import opened Outcomes
  import opened Sorting
  import opened Naming
  import opened Zones
  import opened Packing
  import opened Collisions
  import opened Limit
  import opened Planning
  import opened PlanTheorems
  import opened PlanStability
  import opened PlanNames
  import opened Planner
  import opened Cluster
  import opened Reconciling
  import opened PolicyPasses

  /** What a pass is asked to plan, apart from what already exists. */
  ghost function Asked(pass: Pass): PlanInput
    requires pass.view.hosts.Ok?
  {
    InputOf(pass.view.hosts.value, SpecFor(pass.policy, []))
  }

  /** Passes over one policy that discover the same hosts, in any order, under the same settings. */
  ghost predicate SameRequest(a: Pass, b: Pass) {
    a.policy.name == b.policy.name && a.view.hosts.Ok? && b.view.hosts.Ok? && SameInputs(Asked(a), Asked(b))
  }

  /** A pass asks for these certificates, before the cap. */
  ghost predicate Wants(rules: NameRules, registry: Registry, pass: Pass, all: seq<CertificateRequest>, max: int) {
    && pass.view.hosts.Ok? && pass.policy.maxCertificates == max
    && ZonesUsable(registry, pass.policy.zones) && Uncapped(rules, Asked(pass)) == Ok(all)
  }

  lemma SameRequestWantsTheSame(rules: NameRules, registry: Registry, a: Pass, b: Pass, all: seq<CertificateRequest>, max: int)
    requires SameRequest(a, b) && Wants(rules, registry, a, all, max)
    ensures Wants(rules, registry, b, all, max)
  {
    UsableBySet(registry, Asked(a).zones, Asked(b).zones);
    UncappedBySet(rules, Asked(a), Asked(b));
  }

  lemma ExistingIsIrrelevantBeforeTheCap(rules: NameRules, hosts: seq<string>, policy: Policy, existing: seq<string>)
    ensures Uncapped(rules, InputOf(hosts, SpecFor(policy, existing))) == Uncapped(rules, InputOf(hosts, SpecFor(policy, [])))
  {
    assert AllHosts(InputOf(hosts, SpecFor(policy, existing))) == AllHosts(InputOf(hosts, SpecFor(policy, [])));
  }

  /** A pass that could read, and asks for something plannable, plans. */
  lemma WantedIsPlanned(rules: NameRules, registry: Registry, pass: Pass, all: seq<CertificateRequest>, max: int)
    requires Planned(rules, registry, pass) && Wants(rules, registry, pass, all, max) && pass.existing.Some?
    ensures pass.desired.Ok?
  {
    ExistingIsIrrelevantBeforeTheCap(rules, pass.view.hosts.value, pass.policy, pass.existing.value);
  }

  /** What a pass that planned has kept of what it asked for. */
  lemma KeptByPass(rules: NameRules, registry: Registry, pass: Pass, all: seq<CertificateRequest>, max: int) returns (keep: set<string>)
    requires Planned(rules, registry, pass) && Wants(rules, registry, pass, all, max) && pass.desired.Ok?
    ensures IsSelection(Names(all), max, Mine(pass.policy.name, pass.before.syncs), keep)
    ensures Map(RequestIn, pass.desired.value.certificates) == Kept(all, keep)
    ensures NamesPlanned(pass) == keep
  {
    var all';
    all', keep := PlannedFrom(rules, registry, pass);
    ExistingIsIrrelevantBeforeTheCap(rules, pass.view.hosts.value, pass.policy, pass.existing.value);
  }

  /** What one pass keeps, the next would keep. */
  lemma PassKeepsSelection(rules: NameRules, registry: Registry, pass: Pass, all: seq<CertificateRequest>, max: int, keep: set<string>)
    requires IsPass(rules, registry, pass) && Wants(rules, registry, pass, all, max)
    requires IsSelection(Names(all), max, Mine(pass.policy.name, pass.before.syncs), keep)
    ensures pass.existing.Some? ==> pass.desired.Ok? && Map(RequestIn, pass.desired.value.certificates) == Kept(all, keep)
    ensures IsSelection(Names(all), max, Mine(pass.policy.name, pass.after.syncs), keep)
  {
    PassStaysBetween(pass);
    if pass.existing.Some? {
      WantedIsPlanned(rules, registry, pass, all, max);
      var keep' := KeptByPass(rules, registry, pass, all, max);
      SelectionIsUnique(Names(all), max, Mine(pass.policy.name, pass.before.syncs), keep, keep');
      SelectionSurvivesInterruption(Names(all), max, Mine(pass.policy.name, pass.before.syncs), keep, Mine(pass.policy.name, pass.after.syncs), keep);
    }
  }

  /** Passes over one policy whose syncs nobody else adds or removes in between. */
  ghost predicate Linked(policy: string, mine: set<string>, passes: seq<Pass>)
    decreases passes
  {
    passes == [] ||
    (&& passes[0].policy.name == policy && Mine(policy, passes[0].before.syncs) == mine
     && Linked(policy, Mine(policy, passes[0].after.syncs), passes[1..]))
  }

  /** A pass that could read what exists and discover its hosts. */
  ghost predicate Informed(pass: Pass) {
    pass.existing.Some? && pass.view.hosts.Ok?
  }

  /** A pass over the same policy that asks for the same, or that failed to discover what to ask for. */
  ghost predicate Retries(first: Pass, pass: Pass) {
    pass.policy.name == first.policy.name && (pass.view.hosts.Err? || SameRequest(first, pass))
  }

  lemma RetriesThrough(a: Pass, b: Pass, pass: Pass)
    requires Retries(a, b) && Informed(b) && Retries(a, pass)
    ensures Retries(b, pass)
  {
  }

  /** If a pass starts from names that select what was kept, it plans just that, and leaves such names behind. */
  ghost predicate SettlesOn(pass: Pass, all: seq<CertificateRequest>, max: int, keep: set<string>) {
    IsSelection(Names(all), max, Mine(pass.policy.name, pass.before.syncs), keep) ==>
      && (Informed(pass) ==> pass.desired.Ok? && Map(RequestIn, pass.desired.value.certificates) == Kept(all, keep))
      && IsSelection(Names(all), max, Mine(pass.policy.name, pass.after.syncs), keep)
  }

  lemma RetrySettles(rules: NameRules, registry: Registry, first: Pass, pass: Pass, all: seq<CertificateRequest>, max: int, keep: set<string>)
    requires IsPass(rules, registry, pass) && Retries(first, pass) && Wants(rules, registry, first, all, max)
    ensures SettlesOn(pass, all, max, keep)
  {
    hide Uncapped, IsSelection, SameInputs, Worked;
    if pass.view.hosts.Err? {
      PassStaysBetween(pass);
    } else if IsSelection(Names(all), max, Mine(pass.policy.name, pass.before.syncs), keep) {
      SameRequestWantsTheSame(rules, registry, first, pass, all, max);
      PassKeepsSelection(rules, registry, pass, all, max, keep);
    }
  }

  lemma {:induction false} RunKeepsSelection(policy: string, mine: set<string>, passes: seq<Pass>, all: seq<CertificateRequest>, max: int, keep: set<string>, i: nat)
    requires Linked(policy, mine, passes) && i < |passes|
    requires forall p | p in passes :: SettlesOn(p, all, max, keep)
    requires IsSelection(Names(all), max, mine, keep)
    ensures Informed(passes[i]) ==> passes[i].desired.Ok? && Map(RequestIn, passes[i].desired.value.certificates) == Kept(all, keep)
    decreases passes
  {
    assert SettlesOn(passes[0], all, max, keep);
    if i > 0 {
      RunKeepsSelection(policy, Mine(policy, passes[0].after.syncs), passes[1..], all, max, keep, i - 1);
    }
  }

  /** What a pass that planned was asked for. */
  lemma PlannedPassWants(rules: NameRules, registry: Registry, pass: Pass) returns (all: seq<CertificateRequest>, keep: set<string>)
    requires Planned(rules, registry, pass) && pass.desired.Ok?
    ensures Informed(pass) && Wants(rules, registry, pass, all, pass.policy.maxCertificates)
    ensures IsSelection(Names(all), pass.policy.maxCertificates, Mine(pass.policy.name, pass.before.syncs), keep)
    ensures Map(RequestIn, pass.desired.value.certificates) == Kept(all, keep)
  {
    all, keep := PlannedFrom(rules, registry, pass);
    ExistingIsIrrelevantBeforeTheCap(rules, pass.view.hosts.value, pass.policy, pass.existing.value);
  }

  lemma PassIsPlanned(rules: NameRules, registry: Registry, pass: Pass)
    requires IsPass(rules, registry, pass)
    ensures Planned(rules, registry, pass) && Acted(pass)
  {
    hide Planned, Acted;
  }

  lemma LaterPassesAgree(rules: NameRules, registry: Registry, policy: string, mine: set<string>, passes: seq<Pass>, j: nat)
    requires Linked(policy, mine, passes) && j < |passes|
    requires forall p | p in passes :: IsPass(rules, registry, p) && Retries(passes[0], p)
    requires passes[0].desired.Ok? && Informed(passes[j])
    ensures passes[j].desired.Ok?
    ensures Map(RequestIn, passes[j].desired.value.certificates) == Map(RequestIn, passes[0].desired.value.certificates)
  {
    hide Wants, Retries, SettlesOn, IsSelection, IsPass;
    assert passes[0] in passes;
    PassIsPlanned(rules, registry, passes[0]);
    var all, keep := PlannedPassWants(rules, registry, passes[0]);
    forall p | p in passes
      ensures SettlesOn(p, all, passes[0].policy.maxCertificates, keep)
    {
      RetrySettles(rules, registry, passes[0], p, all, passes[0].policy.maxCertificates, keep);
    }
    RunKeepsSelection(policy, mine, passes, all, passes[0].policy.maxCertificates, keep, j);
  }

  lemma {:induction false} LinkedFrom(policy: string, mine: set<string>, passes: seq<Pass>, i: nat)
    requires Linked(policy, mine, passes) && i < |passes|
    ensures passes[i].policy.name == policy && Linked(policy, Mine(policy, passes[i].before.syncs), passes[i..])
    decreases passes
  {
    if i == 0 {
      assert passes[0..] == passes;
    } else {
      LinkedFrom(policy, Mine(policy, passes[0].after.syncs), passes[1..], i - 1);
      assert passes[1..][i - 1..] == passes[i..];
    }
  }

  lemma RetryPlans(rules: NameRules, registry: Registry, first: Pass, pass: Pass, all: seq<CertificateRequest>)
    requires Planned(rules, registry, pass) && Retries(first, pass) && Informed(pass)
    requires Wants(rules, registry, first, all, first.policy.maxCertificates)
    ensures pass.desired.Ok?
  {
    hide Planned, Wants, SameInputs;
    SameRequestWantsTheSame(rules, registry, first, pass, all, first.policy.maxCertificates);
    WantedIsPlanned(rules, registry, pass, all, first.policy.maxCertificates);
  }

  /** A pass that gets to plan plans, if another one with the same request has. */
  lemma OneMorePlans(rules: NameRules, registry: Registry, planned: Pass, pass: Pass)
    requires IsPass(rules, registry, planned) && IsPass(rules, registry, pass)
    requires planned.desired.Ok? && Retries(planned, pass) && Informed(pass)
    ensures pass.desired.Ok? && Informed(planned)
  {
    hide IsPass, Retries, Wants, IsSelection;
    PassIsPlanned(rules, registry, planned);
    PassIsPlanned(rules, registry, pass);
    var all, keep := PlannedPassWants(rules, registry, planned);
    RetryPlans(rules, registry, planned, pass, all);
  }

  /** What retries the request of one pass retries that of any other that could read and discover. */
  lemma RetriesFrom(rules: NameRules, registry: Registry, passes: seq<Pass>, i: nat, first: nat)
    requires i < |passes| && first < |passes| && Informed(passes[first])
    requires forall p | p in passes :: IsPass(rules, registry, p) && Retries(passes[i], p)
    ensures forall p | p in passes[first..] :: IsPass(rules, registry, p) && Retries(passes[first], p)
  {
    hide IsPass, Retries, Informed;
    forall p | p in passes[first..]
      ensures IsPass(rules, registry, p) && Retries(passes[first], p)
    {
      assert p in passes && passes[first] in passes;
      RetriesThrough(passes[i], passes[first], p);
    }
  }

  /**
   Interrupted passes agree. However often a policy is reconciled with the same request, and
   wherever each pass breaks off, at the discovery of its hosts too, whether or not it prunes:
   any two passes that get to plan plan the same certificates, so a retry only ever finishes
   what was begun.
   */
  lemma InterruptedPassesAgree(rules: NameRules, registry: Registry, policy: string, mine: set<string>, passes: seq<Pass>, i: nat, j: nat)
    requires Linked(policy, mine, passes) && i < |passes| && j < |passes|
    requires forall p | p in passes :: IsPass(rules, registry, p) && Retries(passes[i], p)
    requires passes[i].desired.Ok? && Informed(passes[j])
    ensures passes[j].desired.Ok?
    ensures Map(RequestIn, passes[j].desired.value.certificates) == Map(RequestIn, passes[i].desired.value.certificates)
  {
    hide IsPass, Retries, Informed, Linked;
    assert passes[i] in passes && passes[j] in passes;
    OneMorePlans(rules, registry, passes[i], passes[j]);
    var first, later := if i <= j then i else j, if i <= j then j else i;
    LinkedFrom(policy, mine, passes, first);
    RetriesFrom(rules, registry, passes, i, first);
    assert passes[first..][0] == passes[first] && passes[first..][later - first] == passes[later];
    LaterPassesAgree(rules, registry, policy, Mine(policy, passes[first].before.syncs), passes[first..], later - first);
  }

  /** Throughout such a run, once a name some pass plans has its sync, it is never taken away again. */
  lemma KeptSyncsStay(
      rules: NameRules, registry: Registry, policy: string, mine: set<string>, passes: seq<Pass>, planner: nat, name: string, i: nat, j: nat)
    requires Linked(policy, mine, passes) && i <= j < |passes| && planner < |passes|
    requires forall p | p in passes :: IsPass(rules, registry, p) && Retries(passes[planner], p)
    requires passes[planner].desired.Ok? && name in NamesPlanned(passes[planner])
    requires name in Mine(policy, passes[i].before.syncs)
    ensures name in Mine(policy, passes[j].after.syncs)
  {
    hide IsPass, Retries, NamesPlanned, Mine, Linked;
    var keep := NamesPlanned(passes[planner]);
    forall p | p in passes
      ensures Acted(p) && (p.desired.Ok? ==> NamesPlanned(p) == keep)
    {
      PassIsPlanned(rules, registry, p);
      if p.desired.Ok? {
        var k :| 0 <= k < |passes| && passes[k] == p;
        var all, kept := PlannedPassWants(rules, registry, p);
        InterruptedPassesAgree(rules, registry, policy, mine, passes, planner, k);
        SameRequestsSameNames(p, passes[planner]);
      }
    }
    KeptStaysFrom(policy, mine, passes, keep, name, i, j);
  }

  lemma SameRequestsSameNames(a: Pass, b: Pass)
    requires a.desired.Ok? && b.desired.Ok? && Map(RequestIn, a.desired.value.certificates) == Map(RequestIn, b.desired.value.certificates)
    ensures NamesPlanned(a) == NamesPlanned(b)
  {
    NamesOfDesired(a.desired.value.certificates);
    NamesOfDesired(b.desired.value.certificates);
  }

  lemma {:induction false} KeptStaysFrom(policy: string, mine: set<string>, passes: seq<Pass>, keep: set<string>, name: string, i: nat, j: nat)
    requires Linked(policy, mine, passes) && i <= j < |passes|
    requires forall p | p in passes :: Acted(p) && (p.desired.Ok? ==> NamesPlanned(p) == keep)
    requires name in keep && name in Mine(policy, passes[i].before.syncs)
    ensures name in Mine(policy, passes[j].after.syncs)
    decreases passes
  {
    hide Acted;
    assert passes[0] in passes;
    PassStaysBetween(passes[0]);
    var rest := passes[1..];
    if j > 0 {
      assert rest[j - 1] == passes[j];
      if i > 0 {
        assert rest[i - 1] == passes[i];
      } else {
        assert name in Mine(policy, rest[0].before.syncs);
      }
      KeptStaysFrom(policy, Mine(policy, passes[0].after.syncs), rest, keep, name, if i > 0 then i - 1 else 0, j - 1);
    }
  }

  /** Under the operator's own naming rules, exactly when the names a pass plans are distinct. */
  lemma PlannedNamesAreDistinctIff(digest: ShortDigest, registry: Registry, pass: Pass, all: seq<CertificateRequest>, max: int)
    returns (natural: seq<CertificateRequest>)
    requires Planned(VaultNames(digest), registry, pass) && Wants(VaultNames(digest), registry, pass, all, max) && pass.desired.Ok?
    requires Tidy(ZoneSet(pass.policy.zones)) && NoDigestCollision(digest, all)
    ensures Unrepaired(digest, Asked(pass)) == Ok(natural)
    ensures Distinct(DesiredNames(pass.desired.value.certificates)) <==> !CutBackTo(digest, natural, NamesPlanned(pass))
  {
    hide Planned, Uncapped, NoDigestCollision, CutBackTo, Unrepaired, Truthful, DigestSeparates, Resolved, NameLeq, IsSelection;
    var keep := KeptByPass(VaultNames(digest), registry, pass, all, max);
    UsableZonesAreAllowlist(registry, pass.policy.zones);
    natural := UnrepairedIsSorted(digest, Asked(pass), all);
    KeptNamesAreDistinctIff(digest, natural, all, keep);
    NamesOfDesired(pass.desired.value.certificates);
  }

  /** So they are as long as no SAN has more than 111 characters. */
  lemma PlannedNamesAreDistinct(digest: ShortDigest, registry: Registry, pass: Pass, all: seq<CertificateRequest>, max: int)
    requires Planned(VaultNames(digest), registry, pass) && Wants(VaultNames(digest), registry, pass, all, max) && pass.desired.Ok?
    requires Tidy(ZoneSet(pass.policy.zones)) && NoDigestCollision(digest, all)
    requires forall san | san in AllNeeded(Elements(AllHosts(Asked(pass))), ZoneSet(pass.policy.zones)) :: |san| <= MAX_ROOMY_SAN
    ensures Distinct(DesiredNames(pass.desired.value.certificates))
  {
    hide Planned, Uncapped, NoDigestCollision;
    var keep := KeptByPass(VaultNames(digest), registry, pass, all, max);
    UsableZonesAreAllowlist(registry, pass.policy.zones);
    UncappedNamesAreDistinct(digest, Asked(pass), all);
    NamesOfKept(all, keep);
    KeepingStaysDistinct(Names(all), keep);
    NamesOfDesired(pass.desired.value.certificates);
  }

  // ----- Convergence over a run -----

  /** Each pass starts from what the one before it left. */
  ghost predicate Consecutive(passes: seq<Pass>) {
    forall k | 0 < k < |passes| :: passes[k].before == passes[k - 1].after
  }

  lemma {:induction false} ConsecutiveIsLinked(policy: string, passes: seq<Pass>)
    requires Consecutive(passes) && forall p | p in passes :: p.policy.name == policy
    ensures passes != [] ==> Linked(policy, Mine(policy, passes[0].before.syncs), passes)
  {
    if passes != [] {
      var rest := passes[1..];
      forall k | 0 < k < |rest|
        ensures rest[k].before == rest[k - 1].after
      {
        assert rest[k] == passes[k + 1] && rest[k - 1] == passes[k];
      }
      ConsecutiveIsLinked(policy, rest);
      assert passes[0] in passes;
    }
  }

  lemma SameRequestsSameResources(a: DesiredState, b: DesiredState, vaultA: string, vaultB: string, policy: string, state: ClusterState)
    requires Map(RequestIn, a.certificates) == Map(RequestIn, b.certificates)
    requires (forall d | d in a.certificates :: Derived(d, vaultA)) && (forall d | d in b.certificates :: Derived(d, vaultB))
    requires Converged(policy, a.certificates, state)
    ensures Converged(policy, b.certificates, state)
  {
    hide Mine, SecretIdentifier, IsSplit;
    NamesOfDesired(a.certificates);
    NamesOfDesired(b.certificates);
    forall e | e in b.certificates
      ensures exists d :: d in a.certificates && CertificateFor(d) == CertificateFor(e) && SyncFor(d) == SyncFor(e) && d.request == e.request
    {
      var i :| 0 <= i < |b.certificates| && b.certificates[i] == e;
      assert Map(RequestIn, a.certificates)[i] == Map(RequestIn, b.certificates)[i];
      assert a.certificates[i] in a.certificates && Derived(a.certificates[i], vaultA) && Derived(e, vaultB);
    }
  }

  /**
   Once a pruning pass has run to its end, the policy's Certificates, its syncs and the plan
   agree, and any number of further passes with the same request, finished or broken off
   anywhere, leave the cluster as it is.
   */
  lemma {:induction false} FinishedPruneIsFinal(rules: NameRules, registry: Registry, passes: seq<Pass>, i: nat)
    requires Consecutive(passes) && i < |passes|
    requires forall p | p in passes :: IsPass(rules, registry, p) && Retries(passes[0], p)
    requires FinishedPrune(passes[0])
    requires Distinct(DesiredNames(passes[0].desired.value.certificates))
    ensures Converged(passes[0].policy.name, passes[0].desired.value.certificates, passes[i].after)
    ensures passes[i].after == passes[0].after
  {
    hide IsPlan, SameInputs, Worked, Converged, Mine;
    assert passes[0] in passes && passes[i] in passes;
    if i == 0 {
      FinishedPruneConverges(passes[0]);
    } else {
      FinishedPruneIsFinal(rules, registry, passes, i - 1);
      ConsecutiveIsLinked(passes[0].policy.name, passes);
      if Informed(passes[i]) {
        InterruptedPassesAgree(rules, registry, passes[0].policy.name, Mine(passes[0].policy.name, passes[0].before.syncs), passes, 0, i);
        SameRequestsSameResources(passes[0].desired.value, passes[i].desired.value, passes[0].policy.vaultURL, passes[i].policy.vaultURL,
                                  passes[0].policy.name, passes[i].before);
      }
      ConvergedStays(passes[i]);
    }
  }
}
