/** How many versions a run can mint, whatever is interleaved with it. */
module ImportRuns {
  import opened Outcomes
  import opened Bundles
  import opened Decisions
  import opened Syncing

  /** The versions of an object minted so far. */
  function Versions(w: World, name: string): nat {
    multiset(w.vault.imports)[name]
  }

  /** Every other job writes somewhere else, and says where. */
  ghost predicate SoleWriter(cfg: Config, job: string, name: string) {
    job in cfg.jobs && forall k | k in cfg.jobs && k != job :: cfg.jobs[k].certificateName != "" && cfg.jobs[k].certificateName != name
  }

  /** Only jobs are under way, and one that names its object is under way for that object. */
  ghost predicate OnTarget(cfg: Config, w: World) {
    forall k | k in w.phases && !w.phases[k].Idle? ::
      k in cfg.jobs && (cfg.jobs[k].certificateName != "" ==> w.phases[k].target == cfg.jobs[k].certificateName)
  }

  // ----- What the surroundings did -----

  function Source(cfg: Config, w: World, job: string): Option<Bundle>
    requires job in cfg.jobs
  {
    Find(w.sources, cfg.jobs[job].secret)
  }

  /**
   1 for a change of the job's source, or for an edit that changes what the vault reports of
   the object: its existence, its thumbprint or its tag. Disabling it, or changing its
   expiry, does not count.
   */
  function Cost(cfg: Config, w: World, job: string, name: string, e: Event): nat
    requires job in cfg.jobs
  {
    match e
    case SourceChanges(secret, source) =>
      if secret == cfg.jobs[job].secret && source != Source(cfg, w, job) then 1 else 0
    case VaultEdited(n, stored) =>
      if n == name && Reported(stored) != Reported(Find(w.vault.objects, name)) then 1 else 0
    case _ => 0
  }

  function TotalCost(cfg: Config, w: World, job: string, name: string, events: seq<Event>): nat
    requires job in cfg.jobs
    decreases events
  {
    if events == [] then 0
    else Cost(cfg, w, job, name, events[0]) + TotalCost(cfg, Step(cfg, w, events[0]), job, name, events[1..])
  }

  // ----- How many versions may still be minted without a further change -----

  function Holds(cfg: Config, w: World, name: string, bundle: Bundle): bool {
    Reported(Find(w.vault.objects, name)) == Some(FingerprintOf(cfg.h, bundle))
  }

  function Count(b: bool): nat {
    if b then 1 else 0
  }

  /** Whether the source, synced from rest, would be imported into the object. */
  function Outdated(cfg: Config, w: World, job: string, name: string): bool
    requires job in cfg.jobs
  {
    var source := Source(cfg, w, job);
    source.Some? && Target(cfg, cfg.jobs[job], source.value) == Ok(name) && !Holds(cfg, w, name, source.value)
  }

  /** Whether the source, synced after that bundle has been imported, would be imported again. */
  function Superseded(cfg: Config, w: World, job: string, name: string, bundle: Bundle): bool
    requires job in cfg.jobs
  {
    var source := Source(cfg, w, job);
    source.Some? && Target(cfg, cfg.jobs[job], source.value) == Ok(name) && FingerprintOf(cfg.h, source.value) != FingerprintOf(cfg.h, bundle)
  }

  /** What is still owed: at most one version from rest, at most two with an old bundle in hand. */
  function Debt(cfg: Config, w: World, job: string, name: string): nat
    requires job in cfg.jobs
  {
    match PhaseOf(w, job)
    case Loaded(bundle, target) =>
      if target != name then Count(Outdated(cfg, w, job, name))
      else Count(!Holds(cfg, w, name, bundle)) + Count(Superseded(cfg, w, job, name, bundle))
    case Importing(bundle, target) =>
      if target != name then Count(Outdated(cfg, w, job, name))
      else 1 + Count(Superseded(cfg, w, job, name, bundle))
    case Idle => Count(Outdated(cfg, w, job, name))
  }

  // ----- One step -----

  lemma StepKeepsTargets(cfg: Config, w: World, e: Event)
    requires OnTarget(cfg, w)
    ensures OnTarget(cfg, Step(cfg, w, e))
  {
    var after := Step(cfg, w, e);
    forall k | k in after.phases && !after.phases[k].Idle?
      ensures k in cfg.jobs && (cfg.jobs[k].certificateName != "" ==> after.phases[k].target == cfg.jobs[k].certificateName)
    {
      if PhaseOf(after, k) != PhaseOf(w, k) && e.Load? {
        assert e.job == k;
      }
    }
  }

  /** A step of another job leaves this job, its source and its object alone. */
  lemma OtherJobsKeepAway(cfg: Config, w: World, job: string, name: string, e: Event)
    requires SoleWriter(cfg, job, name) && OnTarget(cfg, w)
    requires (e.Load? || e.Check? || e.Commit? || e.Abandon?) && e.job != job
    ensures var after := Step(cfg, w, e);
            && Versions(after, name) == Versions(w, name) && PhaseOf(after, job) == PhaseOf(w, job)
            && after.sources == w.sources && Find(after.vault.objects, name) == Find(w.vault.objects, name)
  {
    hide Decide, Target, StoredFor;
    if e.Commit? && PhaseOf(w, e.job).Importing? {
      assert PhaseOf(w, e.job).target != name;
    }
  }

  lemma CheckDecides(cfg: Config, w: World, bundle: Bundle, name: string, now: int)
    ensures var r := Decide(cfg.x, cfg.h, Some(bundle), SnapshotOf(w.vault, name), now);
            r.Ok? ==> (r.value.imports <==> !Holds(cfg, w, name, bundle))
  {
    DecideImportsIff(cfg.x, cfg.h, bundle, SnapshotOf(w.vault, name), now);
  }

  /** A step of the job itself pays for every version it mints out of what is owed. */
  lemma OwnStepPays(cfg: Config, w: World, job: string, name: string, e: Event)
    requires job in cfg.jobs
    requires (e.Load? || e.Check? || e.Commit? || e.Abandon?) && e.job == job
    ensures var after := Step(cfg, w, e);
            Versions(after, name) + Debt(cfg, after, job, name) <= Versions(w, name) + Debt(cfg, w, job, name)
  {
    match e
    case Load(_) =>
    case Check(_, now) =>
      if PhaseOf(w, job).Loaded? {
        CheckDecides(cfg, w, PhaseOf(w, job).bundle, PhaseOf(w, job).target, now);
      }
    case Commit(_, fate) =>
      if PhaseOf(w, job).Importing? && !fate.Refused? {
        CommitPays(cfg, w, job, name, fate);
      }
    case Abandon(_) =>
  }

  lemma CommitPays(cfg: Config, w: World, job: string, name: string, fate: Fate)
    requires job in cfg.jobs && PhaseOf(w, job).Importing? && !fate.Refused?
    ensures var after := Step(cfg, w, Commit(job, fate));
            Versions(after, name) + Debt(cfg, after, job, name) <= Versions(w, name) + Debt(cfg, w, job, name)
  {
    var phase := PhaseOf(w, job);
    var after := Step(cfg, w, Commit(job, fate));
    assert after.vault.imports == w.vault.imports + [phase.target];
    assert PhaseOf(after, job).Idle?;
    if phase.target == name {
      assert Holds(cfg, after, name, phase.bundle);
    } else {
      assert Find(after.vault.objects, name) == Find(w.vault.objects, name);
    }
  }

  /** A change of the surroundings adds at most its cost to what is owed, and mints nothing. */
  lemma ChangeCosts(cfg: Config, w: World, job: string, name: string, e: Event)
    requires job in cfg.jobs && (e.SourceChanges? || e.VaultEdited?)
    ensures var after := Step(cfg, w, e);
            && Versions(after, name) == Versions(w, name)
            && Debt(cfg, after, job, name) <= Debt(cfg, w, job, name) + Cost(cfg, w, job, name, e)
  {
    var after := Step(cfg, w, e);
    assert PhaseOf(after, job) == PhaseOf(w, job);
    if Cost(cfg, w, job, name, e) == 0 {
      assert Source(cfg, after, job) == Source(cfg, w, job);
      assert Reported(Find(after.vault.objects, name)) == Reported(Find(w.vault.objects, name));
    } else if e.SourceChanges? {
      assert after.vault == w.vault;
    } else {
      assert after.sources == w.sources;
    }
  }

  lemma StepPays(cfg: Config, w: World, job: string, name: string, e: Event)
    requires SoleWriter(cfg, job, name) && OnTarget(cfg, w)
    ensures var after := Step(cfg, w, e);
            Versions(after, name) + Debt(cfg, after, job, name) <= Versions(w, name) + Debt(cfg, w, job, name) + Cost(cfg, w, job, name, e)
  {
    match e
    case SourceChanges(_, _) => ChangeCosts(cfg, w, job, name, e);
    case VaultEdited(_, _) => ChangeCosts(cfg, w, job, name, e);
    case _ =>
      if e.job == job {
        OwnStepPays(cfg, w, job, name, e);
      } else {
        OtherJobsKeepAway(cfg, w, job, name, e);
      }
  }

  // ----- Whole runs -----

  lemma {:induction false} RunPays(cfg: Config, w: World, job: string, name: string, events: seq<Event>)
    requires SoleWriter(cfg, job, name) && OnTarget(cfg, w)
    ensures var after := Run(cfg, w, events);
            && OnTarget(cfg, after)
            && Versions(after, name) + Debt(cfg, after, job, name) <=
               Versions(w, name) + Debt(cfg, w, job, name) + TotalCost(cfg, w, job, name, events)
    decreases events
  {
    if events != [] {
      StepPays(cfg, w, job, name, events[0]);
      StepKeepsTargets(cfg, w, events[0]);
      RunPays(cfg, Step(cfg, w, events[0]), job, name, events[1..]);
    }
  }

  /** Nothing is under way. */
  ghost predicate AtRest(w: World) {
    forall k | k in w.phases :: w.phases[k].Idle?
  }

  /**
   The import bound. From rest, whatever the interleaving of syncs that load, check, commit,
   fail, lose their reply or are abandoned and retried, of changes to the sources and of edits
   made to the vault by others: the versions minted of an object with one writer are at most
   one, plus the changes of its source, plus the edits of its fingerprint or existence.
   */
  lemma ImportBound(cfg: Config, w: World, job: string, name: string, events: seq<Event>)
    requires SoleWriter(cfg, job, name) && AtRest(w)
    ensures Versions(Run(cfg, w, events), name) <= Versions(w, name) + 1 + TotalCost(cfg, w, job, name, events)
  {
    RunPays(cfg, w, job, name, events);
  }

  /** In steady state nothing is ever written: an object that holds its source stays as it is. */
  lemma SteadyStateNeverImports(cfg: Config, w: World, job: string, name: string, events: seq<Event>)
    requires SoleWriter(cfg, job, name) && AtRest(w)
    requires Source(cfg, w, job).Some? ==> Holds(cfg, w, name, Source(cfg, w, job).value)
    requires TotalCost(cfg, w, job, name, events) == 0
    ensures Versions(Run(cfg, w, events), name) <= Versions(w, name)
  {
    RunPays(cfg, w, job, name, events);
  }

  /** Convergence: one sync of a usable source that meets no fault leaves the object holding it. */
  lemma SyncConverges(cfg: Config, job: string, bundle: Bundle, vault: VaultState, now: int)
    requires job in cfg.jobs && Target(cfg, cfg.jobs[job], bundle).Ok? && Validate(cfg.x, bundle, now).None?
    ensures var events := SyncEvents(job, now, Faults(false, false, Minted));
            var after := Run(cfg, Alone(cfg, job, Some(bundle), vault), events);
            Holds(cfg, after, Target(cfg, cfg.jobs[job], bundle).value, bundle)
  {
    UndisturbedSync(cfg, job, Some(bundle), vault, now, Faults(false, false, Minted));
    CheckDecides(cfg, Alone(cfg, job, Some(bundle), vault), bundle, Target(cfg, cfg.jobs[job], bundle).value, now);
  }

  /** Loading and checking a usable source the vault does not hold gets its import under way. */
  lemma BeginImport(cfg: Config, w: World, job: string, bundle: Bundle, name: string, now: int)
    requires job in cfg.jobs && PhaseOf(w, job).Idle? && Source(cfg, w, job) == Some(bundle)
    requires Target(cfg, cfg.jobs[job], bundle) == Ok(name) && Validate(cfg.x, bundle, now).None? && !Holds(cfg, w, name, bundle)
    ensures var after := Step(cfg, Step(cfg, w, Load(job)), Check(job, now));
            PhaseOf(after, job) == Importing(bundle, name) && after.vault == w.vault && after.sources == w.sources
  {
    CheckDecides(cfg, Step(cfg, w, Load(job)), bundle, name, now);
  }

  /** Committing an import mints one version and leaves the object holding the bundle. */
  lemma FinishImport(cfg: Config, w: World, job: string, bundle: Bundle, name: string)
    requires job in cfg.jobs && PhaseOf(w, job) == Importing(bundle, name)
    ensures var after := Step(cfg, w, Commit(job, Minted));
            && PhaseOf(after, job).Idle? && after.sources == w.sources
            && Versions(after, name) == Versions(w, name) + 1 && Holds(cfg, after, name, bundle)
  {
    assert Step(cfg, w, Commit(job, Minted)).vault.imports == w.vault.imports + [name];
  }

  /** The bound is reached: a source that changes while an old bundle is on its way costs two versions. */
  lemma BoundIsReached(cfg: Config, w: World, job: string, before: Bundle, later: Bundle, now: int)
    returns (events: seq<Event>, name: string)
    requires job in cfg.jobs && AtRest(w) && Source(cfg, w, job) == Some(before)
    requires Target(cfg, cfg.jobs[job], before).Ok? && Target(cfg, cfg.jobs[job], later) == Target(cfg, cfg.jobs[job], before)
    requires Validate(cfg.x, before, now).None? && Validate(cfg.x, later, now).None?
    requires FingerprintOf(cfg.h, before) != FingerprintOf(cfg.h, later)
    requires !Holds(cfg, w, Target(cfg, cfg.jobs[job], before).value, before)
    ensures name == Target(cfg, cfg.jobs[job], before).value
    ensures TotalCost(cfg, w, job, name, events) == 1
    ensures Versions(Run(cfg, w, events), name) == Versions(w, name) + 2
  {
    name := Target(cfg, cfg.jobs[job], before).value;
    var change := SourceChanges(cfg.jobs[job].secret, Some(later));
    events := [Load(job), Check(job, now), change, Commit(job, Minted), Load(job), Check(job, now), Commit(job, Minted)];
    SevenSteps(cfg, w, job, name, events);
    TwoImports(cfg, w, job, before, later, name, now);
  }

  lemma TwoImports(cfg: Config, w: World, job: string, before: Bundle, later: Bundle, name: string, now: int)
    requires job in cfg.jobs && AtRest(w) && Source(cfg, w, job) == Some(before)
    requires Target(cfg, cfg.jobs[job], before) == Ok(name) && Target(cfg, cfg.jobs[job], later) == Ok(name)
    requires Validate(cfg.x, before, now).None? && Validate(cfg.x, later, now).None?
    requires FingerprintOf(cfg.h, before) != FingerprintOf(cfg.h, later) && !Holds(cfg, w, name, before)
    ensures var change := SourceChanges(cfg.jobs[job].secret, Some(later));
            var w2 := Step(cfg, Step(cfg, w, Load(job)), Check(job, now));
            var w4 := Step(cfg, Step(cfg, w2, change), Commit(job, Minted));
            var w7 := Step(cfg, Step(cfg, Step(cfg, w4, Load(job)), Check(job, now)), Commit(job, Minted));
            Versions(w7, name) == Versions(w, name) + 2 && Cost(cfg, w2, job, name, change) == 1
  {
    BeginImport(cfg, w, job, before, name, now);
    var w2 := Step(cfg, Step(cfg, w, Load(job)), Check(job, now));
    var w3 := Step(cfg, w2, SourceChanges(cfg.jobs[job].secret, Some(later)));
    FinishImport(cfg, w3, job, before, name);
    var w4 := Step(cfg, w3, Commit(job, Minted));
    BeginImport(cfg, w4, job, later, name, now);
    FinishImport(cfg, Step(cfg, Step(cfg, w4, Load(job)), Check(job, now)), job, later, name);
  }

  lemma SevenSteps(cfg: Config, w: World, job: string, name: string, events: seq<Event>)
    requires |events| == 7 && job in cfg.jobs
    ensures var w1 := Step(cfg, w, events[0]);
            var w2 := Step(cfg, w1, events[1]);
            var w3 := Step(cfg, w2, events[2]);
            var w4 := Step(cfg, w3, events[3]);
            var w5 := Step(cfg, w4, events[4]);
            var w6 := Step(cfg, w5, events[5]);
            && Run(cfg, w, events) == Step(cfg, w6, events[6])
            && TotalCost(cfg, w, job, name, events) ==
               Cost(cfg, w, job, name, events[0]) + Cost(cfg, w1, job, name, events[1]) + Cost(cfg, w2, job, name, events[2]) +
               Cost(cfg, w3, job, name, events[3]) + Cost(cfg, w4, job, name, events[4]) + Cost(cfg, w5, job, name, events[5]) +
               Cost(cfg, w6, job, name, events[6])
  {
    RunSplits(cfg, w, job, name, events);
    RunSplits(cfg, Step(cfg, w, events[0]), job, name, events[1..]);
    var w2 := Step(cfg, Step(cfg, w, events[0]), events[1]);
    RunSplits(cfg, w2, job, name, events[2..]);
    var w3 := Step(cfg, w2, events[2]);
    RunSplits(cfg, w3, job, name, events[3..]);
    var w4 := Step(cfg, w3, events[3]);
    RunSplits(cfg, w4, job, name, events[4..]);
    var w5 := Step(cfg, w4, events[4]);
    RunSplits(cfg, w5, job, name, events[5..]);
    var w6 := Step(cfg, w5, events[5]);
    RunSplits(cfg, w6, job, name, events[6..]);
    assert events[1..][1..] == events[2..] && events[2..][1..] == events[3..] && events[3..][1..] == events[4..];
    assert events[4..][1..] == events[5..] && events[5..][1..] == events[6..] && events[6..][1..] == [];
  }

  lemma RunSplits(cfg: Config, w: World, job: string, name: string, events: seq<Event>)
    requires events != [] && job in cfg.jobs
    ensures Run(cfg, w, events) == Run(cfg, Step(cfg, w, events[0]), events[1..])
    ensures TotalCost(cfg, w, job, name, events) ==
            Cost(cfg, w, job, name, events[0]) + TotalCost(cfg, Step(cfg, w, events[0]), job, name, events[1..])
  {
  }
}
