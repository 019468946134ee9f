/** What the syncs of one policy do to the vault, all of them together, while the policy is reconciled. */
module PolicyImports {
  import opened Outcomes
  import opened Sorting
  import opened Naming
  import opened Zones
  import opened Packing
  import opened Planning
  import opened Decisions
  import opened PlanNames
  import opened Syncing
  import opened ImportRuns
  import opened Planner
  import opened Cluster
  import opened Reconciling

  /** The sync controller's work for one policy: each sync names the Secret it reads and the object it writes. */
  function JobsOf(policy: string, state: ClusterState): map<string, Job> {
    map n | n in Mine(policy, state.syncs) :: Job(state.syncs[n].spec.secretName, state.syncs[n].spec.certificateName)
  }

  /** Every sync of the policy reads the Secret, and writes the vault object, of its own name. */
  ghost predicate SelfNamed(policy: string, syncs: map<string, Owned<SyncSpec>>) {
    forall n | n in Mine(policy, syncs) :: n != "" && syncs[n].spec == SyncSpec(SecretNameOf(n), n)
  }

  lemma {:induction false} WrittenSyncsAreSelfNamed(policy: string, syncs: map<string, Owned<SyncSpec>>, certs: seq<DesiredCertificate>)
    requires SelfNamed(policy, syncs)
    requires forall d | d in certs :: d.request.name != "" && d.secretName == SecretNameOf(d.request.name)
    ensures SelfNamed(policy, PutAll(policy, syncs, certs, SyncFor))
  {
    if certs != [] {
      WrittenSyncsAreSelfNamed(policy, syncs, certs[..|certs| - 1]);
      assert certs[|certs| - 1] in certs;
    }
  }

  lemma PlannedSyncsAreSelfNamed(digest: ShortDigest, registry: Registry, pass: Pass, d: DesiredCertificate)
    requires Planned(VaultNames(digest), registry, pass) && pass.desired.Ok? && d in pass.desired.value.certificates
    ensures d.request.name != "" && d.secretName == SecretNameOf(d.request.name)
  {
    hide IsPlan, ValidName, Planned, Derived;
    PlanBehind(VaultNames(digest), registry, pass);
    var input := InputOf(pass.view.hosts.value, SpecFor(pass.policy, pass.existing.value));
    var plan := PlanIn(pass.desired.value);
    var i :| 0 <= i < |pass.desired.value.certificates| && pass.desired.value.certificates[i] == d;
    assert plan.certificates[i] == d.request && d.request in plan.certificates;
    PlanNamesAreLegal(digest, registry, input, plan, d.request);
    ValidNamesAreNotEmpty(d.request.name);
    DerivedSecret(d, pass.policy.vaultURL);
  }

  lemma PlanBehind(rules: NameRules, registry: Registry, pass: Pass)
    requires Planned(rules, registry, pass) && pass.desired.Ok?
    ensures pass.view.hosts.Ok? && pass.existing.Some?
    ensures IsPlan(rules, registry, InputOf(pass.view.hosts.value, SpecFor(pass.policy, pass.existing.value)), Ok(PlanIn(pass.desired.value)))
    ensures forall d | d in pass.desired.value.certificates :: Derived(d, pass.policy.vaultURL)
  {
    hide IsPlan, Derived;
  }

  lemma DerivedSecret(d: DesiredCertificate, vaultURL: string)
    requires Derived(d, vaultURL)
    ensures d.secretName == SecretNameOf(d.request.name)
  {
  }

  lemma ValidNamesAreNotEmpty(name: string)
    requires ValidName(name)
    ensures name != ""
  {
  }

  /** Every pass keeps it so, however far it gets. */
  lemma PassKeepsSelfNamed(digest: ShortDigest, registry: Registry, pass: Pass)
    requires IsPass(VaultNames(digest), registry, pass) && SelfNamed(pass.policy.name, pass.before.syncs)
    ensures SelfNamed(pass.policy.name, pass.after.syncs)
  {
    hide Planned, PutAll, VaultNames;
    if pass.desired.Ok? && pass.view.certManager == Ok(true) {
      var certs := pass.desired.value.certificates;
      forall d | d in certs
        ensures d.request.name != "" && d.secretName == SecretNameOf(d.request.name)
      {
        PlannedSyncsAreSelfNamed(digest, registry, pass, d);
      }
      WrittenSyncsAreSelfNamed(pass.policy.name, pass.before.syncs, certs[..pass.progress.syncs]);
    }
  }

  /** So no two syncs of a policy ever share a vault object, nor a Secret. */
  lemma SyncsAreSoleWriters(cfg: Config, policy: string, state: ClusterState, name: string, other: string)
    requires cfg.jobs == JobsOf(policy, state) && SelfNamed(policy, state.syncs)
    requires name in Mine(policy, state.syncs) && other in Mine(policy, state.syncs) && name != other
    ensures SoleWriter(cfg, name, name) && cfg.jobs[name].secret != cfg.jobs[other].secret
  {
    SecretNamesDiffer(name, other);
  }

  lemma SecretNamesDiffer(name: string, other: string)
    ensures SecretNameOf(name) == SecretNameOf(other) <==> name == other
  {
    assert SecretNameOf(name)[..|SecretNameOf(name)| - 4] == name;
    assert SecretNameOf(other)[..|SecretNameOf(other)| - 4] == other;
  }

  // ----- Syncs and passes, interleaved -----

  datatype System = System(cluster: ClusterState, world: World)

  /** A step of some sync or of its surroundings, or a whole pass over the policy. */
  datatype Action = SyncStep(event: Event) | PolicyPass(pass: Pass)

  function Next(cfg: Config, policy: string, sys: System, a: Action): System {
    match a
    case SyncStep(e) => sys.(world := Step(cfg.(jobs := JobsOf(policy, sys.cluster)), sys.world, e))
    case PolicyPass(pass) => sys.(cluster := pass.after)
  }

  function AfterAll(cfg: Config, policy: string, sys: System, actions: seq<Action>): System
    decreases actions
  {
    if actions == [] then sys else AfterAll(cfg, policy, Next(cfg, policy, sys, actions[0]), actions[1..])
  }

  ghost predicate CanHappen(digest: ShortDigest, registry: Registry, policy: string, sys: System, a: Action) {
    a.PolicyPass? ==> IsPass(VaultNames(digest), registry, a.pass) && a.pass.policy.name == policy && a.pass.before == sys.cluster
  }

  /** A run: each pass starts from the cluster as it is, and the policy's syncs never have other names than these. */
  ghost predicate IsRun(
      digest: ShortDigest, registry: Registry, cfg: Config, policy: string, sys: System, actions: seq<Action>, ever: set<string>)
    decreases actions
  {
    && Mine(policy, sys.cluster.syncs) <= ever
    && (actions == [] ||
        (&& CanHappen(digest, registry, policy, sys, actions[0])
         && IsRun(digest, registry, cfg, policy, Next(cfg, policy, sys, actions[0]), actions[1..], ever)))
  }

  /** Whether an event changes the Secret, or the fingerprint or existence of the object, of one of these names. */
  function Disturbs(w: World, names: seq<string>, e: Event): bool {
    match e
    case SourceChanges(secret, source) => (exists n :: n in names && SecretNameOf(n) == secret) && source != Find(w.sources, secret)
    case VaultEdited(name, stored) => name in names && Reported(stored) != Reported(Find(w.vault.objects, name))
    case _ => false
  }

  /** How many actions of a run disturb these names. */
  function Disturbances(cfg: Config, policy: string, sys: System, actions: seq<Action>, names: seq<string>): nat
    decreases actions
  {
    if actions == [] then 0 else
    Count(actions[0].SyncStep? && Disturbs(sys.world, names, actions[0].event))
    + Disturbances(cfg, policy, Next(cfg, policy, sys, actions[0]), actions[1..], names)
  }

  // ----- The import bound, over a whole policy -----

  /** A sync for every name the policy ever has one for. */
  function Everyone(cfg: Config, ever: set<string>): Config {
    cfg.(jobs := map n | n in ever :: Job(SecretNameOf(n), n))
  }

  /** Whatever a step does with the syncs there are, it would do with a sync for every name, or it does nothing. */
  lemma StepAmongEveryone(cfg: Config, policy: string, state: ClusterState, w: World, e: Event, ever: set<string>)
    requires SelfNamed(policy, state.syncs) && Mine(policy, state.syncs) <= ever
    ensures var after := Step(cfg.(jobs := JobsOf(policy, state)), w, e);
            after == Step(Everyone(cfg, ever), w, e) || (e.Load? && after == w)
  {
  }

  /** How often these names occur in a list, together. */
  function Tally(list: seq<string>, names: seq<string>): nat {
    if names == [] then 0 else multiset(list)[names[0]] + Tally(list, names[1..])
  }

  /** The versions minted so far of the objects of these names. */
  function AllVersions(w: World, names: seq<string>): nat {
    Tally(w.vault.imports, names)
  }

  function AllDebts(cfg: Config, w: World, names: seq<string>): nat
    requires forall n | n in names :: n in cfg.jobs
  {
    if names == [] then 0 else Debt(cfg, w, names[0], names[0]) + AllDebts(cfg, w, names[1..])
  }

  function AllCosts(cfg: Config, w: World, names: seq<string>, e: Event): nat
    requires forall n | n in names :: n in cfg.jobs
  {
    if names == [] then 0 else Cost(cfg, w, names[0], names[0], e) + AllCosts(cfg, w, names[1..], e)
  }

  lemma {:induction false} StepPaysForAll(cfg: Config, w: World, names: seq<string>, e: Event)
    requires OnTarget(cfg, w) && forall n | n in names :: n in cfg.jobs && SoleWriter(cfg, n, n)
    ensures var after := Step(cfg, w, e);
            AllVersions(after, names) + AllDebts(cfg, after, names) <= AllVersions(w, names) + AllDebts(cfg, w, names) + AllCosts(cfg, w, names, e)
  {
    hide Step, OnTarget, Debt, Cost;
    if names != [] {
      assert names[0] in names && forall n | n in names[1..] :: n in names;
      StepPays(cfg, w, names[0], names[0], e);
      StepPaysForAll(cfg, w, names[1..], e);
    }
  }

  /** An event costs one name at most, as the names have Secrets and objects of their own. */
  lemma {:induction false} DisturbedOnce(cfg: Config, ever: set<string>, w: World, names: seq<string>, e: Event)
    requires Distinct(names) && Elements(names) <= ever
    ensures AllCosts(Everyone(cfg, ever), w, names, e) <= Count(Disturbs(w, names, e))
  {
    if names != [] {
      var n, rest := names[0], names[1..];
      assert n in Elements(names) && Elements(rest) <= Elements(names);
      DisturbedOnce(cfg, ever, w, rest, e);
      if Cost(Everyone(cfg, ever), w, n, n, e) == 1 {
        assert n in names;
        CostlyOnce(w, n, rest, e);
      } else if m :| m in rest && e.SourceChanges? && SecretNameOf(m) == e.secret {
        assert m in names;
      }
    }
  }

  lemma CostlyOnce(w: World, n: string, rest: seq<string>, e: Event)
    requires n !in rest
    requires (e.SourceChanges? && e.secret == SecretNameOf(n)) || (e.VaultEdited? && e.name == n)
    ensures !Disturbs(w, rest, e)
  {
    forall m | m in rest
      ensures SecretNameOf(m) != SecretNameOf(n)
    {
      SecretNamesDiffer(m, n);
    }
  }

  /** What every action keeps. */
  lemma NextKeeps(digest: ShortDigest, registry: Registry, cfg: Config, policy: string, sys: System, a: Action, ever: set<string>)
    requires CanHappen(digest, registry, policy, sys, a) && SelfNamed(policy, sys.cluster.syncs)
    requires Mine(policy, sys.cluster.syncs) <= ever && OnTarget(Everyone(cfg, ever), sys.world)
    ensures SelfNamed(policy, Next(cfg, policy, sys, a).cluster.syncs) && OnTarget(Everyone(cfg, ever), Next(cfg, policy, sys, a).world)
  {
    hide Step, OnTarget, SelfNamed, IsPass;
    match a
    case PolicyPass(pass) =>
      PassKeepsSelfNamed(digest, registry, pass);
    case SyncStep(e) =>
      StepAmongEveryone(cfg, policy, sys.cluster, sys.world, e, ever);
      StepKeepsTargets(Everyone(cfg, ever), sys.world, e);
  }

  /** A step of a run pays for the versions it mints, a disturbance counting once. */
  lemma NextPays(cfg: Config, policy: string, sys: System, a: Action, ever: set<string>, names: seq<string>)
    requires SelfNamed(policy, sys.cluster.syncs)
    requires Mine(policy, sys.cluster.syncs) <= ever && "" !in ever && OnTarget(Everyone(cfg, ever), sys.world)
    requires Distinct(names) && Elements(names) <= ever
    ensures var after := Next(cfg, policy, sys, a);
            AllVersions(after.world, names) + AllDebts(Everyone(cfg, ever), after.world, names) <=
            AllVersions(sys.world, names) + AllDebts(Everyone(cfg, ever), sys.world, names)
            + Count(a.SyncStep? && Disturbs(sys.world, names, a.event))
  {
    hide Step, OnTarget, SelfNamed, Debt, Cost, Disturbs;
    if a.SyncStep? {
      var all := Everyone(cfg, ever);
      NamesAreSoleWriters(cfg, ever, names);
      StepAmongEveryone(cfg, policy, sys.cluster, sys.world, a.event, ever);
      StepPaysForAll(all, sys.world, names, a.event);
      DisturbedOnce(cfg, ever, sys.world, names, a.event);
    }
  }

  lemma NamesAreSoleWriters(cfg: Config, ever: set<string>, names: seq<string>)
    requires "" !in ever && Elements(names) <= ever
    ensures forall n | n in names :: n in Everyone(cfg, ever).jobs && SoleWriter(Everyone(cfg, ever), n, n)
  {
    assert forall n | n in names :: n in Elements(names);
  }

  lemma {:induction false} RunPaysForAll(
      digest: ShortDigest, registry: Registry, cfg: Config, policy: string, sys: System, actions: seq<Action>, ever: set<string>, names: seq<string>)
    requires IsRun(digest, registry, cfg, policy, sys, actions, ever) && SelfNamed(policy, sys.cluster.syncs)
    requires "" !in ever && OnTarget(Everyone(cfg, ever), sys.world)
    requires Distinct(names) && Elements(names) <= ever
    ensures var after := AfterAll(cfg, policy, sys, actions);
            AllVersions(after.world, names) <=
            AllVersions(sys.world, names) + AllDebts(Everyone(cfg, ever), sys.world, names) + Disturbances(cfg, policy, sys, actions, names)
    decreases actions
  {
    hide OnTarget, SelfNamed, CanHappen, Disturbs, Next, Everyone;
    if actions != [] {
      NextPays(cfg, policy, sys, actions[0], ever, names);
      NextKeeps(digest, registry, cfg, policy, sys, actions[0], ever);
      RunPaysForAll(digest, registry, cfg, policy, Next(cfg, policy, sys, actions[0]), actions[1..], ever, names);
    }
  }

  lemma {:induction false} RestOwesOneEach(cfg: Config, w: World, names: seq<string>)
    requires AtRest(w) && forall n | n in names :: n in cfg.jobs
    ensures AllDebts(cfg, w, names) <= |names|
  {
    if names != [] {
      assert names[0] in names && forall n | n in names[1..] :: n in names;
      RestOwesOneEach(cfg, w, names[1..]);
    }
  }

  /**
   The import bound composes. From rest, while the policy is reconciled again and again and
   its syncs come, go, fail and are retried: the versions minted of any of its objects are at
   most one for each object, plus one for each change of a Secret of theirs, plus one for each
   edit of an object of theirs that changes its fingerprint or existence.
   */
  lemma PolicyImportBound(
      digest: ShortDigest, registry: Registry, cfg: Config, policy: string, sys: System, actions: seq<Action>, ever: set<string>, names: seq<string>)
    requires IsRun(digest, registry, cfg, policy, sys, actions, ever) && SelfNamed(policy, sys.cluster.syncs)
    requires "" !in ever && AtRest(sys.world) && Distinct(names) && Elements(names) <= ever
    ensures var after := AfterAll(cfg, policy, sys, actions);
            AllVersions(after.world, names) <= AllVersions(sys.world, names) + |names| + Disturbances(cfg, policy, sys, actions, names)
  {
    hide IsRun, SelfNamed, Disturbances, AllVersions;
    var all := Everyone(cfg, ever);
    assert forall n | n in names :: n in Elements(names);
    RestOwesOneEach(all, sys.world, names);
    RunPaysForAll(digest, registry, cfg, policy, sys, actions, ever, names);
  }

  // ----- Nothing else is imported -----

  /** What a step imports, if anything: the object of a sync that was under way. */
  lemma StepImportsOwn(cfg: Config, policy: string, state: ClusterState, w: World, e: Event, ever: set<string>) returns (minted: seq<string>)
    requires SelfNamed(policy, state.syncs) && Mine(policy, state.syncs) <= ever && "" !in ever && OnTarget(Everyone(cfg, ever), w)
    ensures Step(cfg.(jobs := JobsOf(policy, state)), w, e).vault.imports == w.vault.imports + minted
    ensures forall n | n in minted :: n in ever
  {
    hide SelfNamed, Mine, Decide;
    minted := [];
    if e.Commit? && PhaseOf(w, e.job).Importing? && !e.fate.Refused? {
      minted := [PhaseOf(w, e.job).target];
      assert e.job in w.phases && w.phases[e.job] == PhaseOf(w, e.job);
    } else {
      assert w.vault.imports + [] == w.vault.imports;
    }
  }

  lemma NextImportsOwn(cfg: Config, policy: string, sys: System, a: Action, ever: set<string>) returns (minted: seq<string>)
    requires SelfNamed(policy, sys.cluster.syncs) && Mine(policy, sys.cluster.syncs) <= ever && "" !in ever
    requires OnTarget(Everyone(cfg, ever), sys.world)
    ensures Next(cfg, policy, sys, a).world.vault.imports == sys.world.vault.imports + minted
    ensures forall n | n in minted :: n in ever
  {
    hide SelfNamed, Mine, OnTarget, Step;
    if a.SyncStep? {
      minted := StepImportsOwn(cfg, policy, sys.cluster, sys.world, a.event, ever);
    } else {
      minted := [];
      assert sys.world.vault.imports + [] == sys.world.vault.imports;
    }
  }

  /** Over a whole run, nothing is imported but the objects of the policy's own syncs. */
  lemma {:induction false} OnlyOwnObjectsAreImported(
      digest: ShortDigest, registry: Registry, cfg: Config, policy: string, sys: System, actions: seq<Action>, ever: set<string>)
    returns (minted: seq<string>)
    requires IsRun(digest, registry, cfg, policy, sys, actions, ever) && SelfNamed(policy, sys.cluster.syncs)
    requires "" !in ever && OnTarget(Everyone(cfg, ever), sys.world)
    ensures AfterAll(cfg, policy, sys, actions).world.vault.imports == sys.world.vault.imports + minted
    ensures forall n | n in minted :: n in ever
    decreases actions
  {
    hide OnTarget, SelfNamed, CanHappen, Next, Everyone, Mine;
    if actions == [] {
      minted := [];
      assert sys.world.vault.imports + [] == sys.world.vault.imports;
    } else {
      NextKeeps(digest, registry, cfg, policy, sys, actions[0], ever);
      var first := NextImportsOwn(cfg, policy, sys, actions[0], ever);
      var rest := OnlyOwnObjectsAreImported(digest, registry, cfg, policy, Next(cfg, policy, sys, actions[0]), actions[1..], ever);
      minted := first + rest;
      Joined(sys.world.vault.imports, first, rest);
    }
  }

  lemma Joined(a: seq<string>, b: seq<string>, c: seq<string>)
    ensures a + b + c == a + (b + c)
  {
  }

  lemma {:induction false} TallyAppend(a: seq<string>, b: seq<string>, names: seq<string>)
    ensures Tally(a + b, names) == Tally(a, names) + Tally(b, names)
  {
    if names != [] {
      TallyAppend(a, b, names[1..]);
    }
  }

  lemma {:induction false} TallyOne(x: string, names: seq<string>)
    requires Distinct(names)
    ensures Tally([x], names) == if x in names then 1 else 0
  {
    if names != [] {
      TallyOne(x, names[1..]);
      if names[0] == x {
        assert x !in names[1..];
      }
    }
  }

  lemma {:induction false} TallyAll(list: seq<string>, names: seq<string>)
    requires Distinct(names) && forall x | x in list :: x in names
    ensures Tally(list, names) == |list|
  {
    if list == [] {
      TallyNothing(names);
    } else {
      TallyAll(list[1..], names);
      TallyOne(list[0], names);
      assert list == [list[0]] + list[1..];
      TallyAppend([list[0]], list[1..], names);
    }
  }

  lemma {:induction false} TallyNothing(names: seq<string>)
    ensures Tally([], names) == 0
  {
    if names != [] {
      TallyNothing(names[1..]);
    }
  }

  /** So the bound is on everything the policy's syncs ever write to the vault. */
  lemma TotalImportBound(
      digest: ShortDigest, registry: Registry, cfg: Config, policy: string, sys: System, actions: seq<Action>, ever: seq<string>)
    requires IsRun(digest, registry, cfg, policy, sys, actions, Elements(ever)) && SelfNamed(policy, sys.cluster.syncs)
    requires Distinct(ever) && "" !in ever && AtRest(sys.world)
    ensures |AfterAll(cfg, policy, sys, actions).world.vault.imports| <=
            |sys.world.vault.imports| + |ever| + Disturbances(cfg, policy, sys, actions, ever)
  {
    hide IsRun, SelfNamed, Disturbances, AfterAll, Tally, Distinct;
    PolicyImportBound(digest, registry, cfg, policy, sys, actions, Elements(ever), ever);
    var minted := OnlyOwnObjectsAreImported(digest, registry, cfg, policy, sys, actions, Elements(ever));
    TallyAppend(sys.world.vault.imports, minted, ever);
    TallyAll(minted, ever);
  }

  /** The syncs never take anything out of the vault: an object goes only when somebody else removes it. */
  lemma {:induction false} ObjectsAreNeverLost(cfg: Config, policy: string, sys: System, actions: seq<Action>, name: string)
    requires name in sys.world.vault.objects
    requires forall a | a in actions && a.SyncStep? && a.event.VaultEdited? && a.event.name == name :: a.event.stored.Some?
    ensures name in AfterAll(cfg, policy, sys, actions).world.vault.objects
    decreases actions
  {
    if actions != [] {
      assert actions[0] in actions;
      ObjectsAreNeverLost(cfg, policy, Next(cfg, policy, sys, actions[0]), actions[1..], name);
    }
  }
}
