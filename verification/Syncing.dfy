/** Bringing one certificate into the vault (syncer.go), and the vault it talks to. */
module Syncing {
  import opened Outcomes
  import opened Sorting
  import opened Naming
  import opened Packing
  import opened Chains
  import opened Bundles
  import opened Decisions

  // ----- The vault -----

  datatype Stored = Stored(thumbprint: Bytes, chainDigest: Option<string>, enabled: bool, notAfter: Option<int>)

  /** The current version of each object, and one entry for every version ever minted by an import. */
  datatype VaultState = VaultState(objects: map<string, Stored>, imports: seq<string>)

  function Find<V>(m: map<string, V>, name: string): Option<V> {
    if name in m then Some(m[name]) else None
  }

  function SnapshotOf(vault: VaultState, name: string): Snapshot {
    match Find(vault.objects, name)
    case None => Snapshot(false, [], "", false, None)
    case Some(o) => Snapshot(true, o.thumbprint, if o.chainDigest.Some? then o.chainDigest.value else "", o.enabled, o.notAfter)
  }

  function StoredFor(x: X509, h: Hashes, bundle: Bundle): Stored {
    Stored(Thumbprint(h, bundle), Some(DigestOf(h, bundle)), true, Some(x.notAfter(bundle.leaf)))
  }

  function AfterImport(vault: VaultState, name: string, stored: Stored): VaultState {
    VaultState(vault.objects[name := stored], vault.imports + [name])
  }

  /** What becomes of an import: a version is minted, or it is refused, or it is minted and the reply is lost. */
  datatype Fate = Minted | Refused | ReplyLost

  class KeyVault {
    var objects: map<string, Stored>
    var imports: seq<string>

    constructor ()
      ensures State() == VaultState(map[], [])
    {
      objects, imports := map[], [];
    }

    function State(): VaultState
      reads this
    {
      VaultState(objects, imports)
    }

    /** One read; a missing certificate is not an error. */
    method Snapshot(name: string) returns (snap: Snapshot)
      ensures snap == SnapshotOf(State(), name)
      ensures snap.present <==> name in objects
      ensures name in objects ==>
                var o := objects[name];
                && snap.thumbprint == o.thumbprint && snap.enabled == o.enabled && snap.notAfter == o.notAfter
                && snap.chainDigest == match o.chainDigest { case Some(tag) => tag case None => "" }
    {
      if name !in objects {
        return Decisions.Snapshot.Snapshot(false, [], "", false, None);
      }
      var o := objects[name];
      return Decisions.Snapshot.Snapshot(true, o.thumbprint, if o.chainDigest.Some? then o.chainDigest.value else "", o.enabled, o.notAfter);
    }

    /** Every import mints a version; versions are never taken away. */
    method Import(name: string, stored: Stored, fate: Fate) returns (r: Result<nat>)
      modifies this
      ensures State() == if fate.Refused? then old(State()) else AfterImport(old(State()), name, stored)
      ensures !fate.Refused? ==> objects == old(objects)[name := stored] && imports == old(imports) + [name]
      ensures r == if fate.Minted? then Ok(|imports|) else Err(VaultUnavailable)
    {
      if fate.Refused? {
        return Err(VaultUnavailable);
      }
      objects := objects[name := stored];
      imports := imports + [name];
      if fate.ReplyLost? {
        return Err(VaultUnavailable);
      }
      return Ok(|imports|);
    }
  }

  // ----- The steps of a sync, for any interleaving -----

  /** A sync resource: the Secret it reads, and the vault object it names, "" to derive one. */
  datatype Job = Job(secret: string, certificateName: string)

  datatype Config = Config(x: X509, h: Hashes, rules: NameRules, jobs: map<string, Job>)

  datatype Phase = Idle | Loaded(bundle: Bundle, target: string) | Importing(bundle: Bundle, target: string)

  datatype World = World(sources: map<string, Bundle>, vault: VaultState, phases: map<string, Phase>)

  datatype Event =
    | Load(job: string)
    | Check(job: string, now: int)
    | Commit(job: string, fate: Fate)
    | Abandon(job: string)
    | SourceChanges(secret: string, source: Option<Bundle>)
    | VaultEdited(name: string, stored: Option<Stored>)

  /** The vault object a job writes a bundle to. */
  function Target(cfg: Config, job: Job, bundle: Bundle): Result<string> {
    if job.certificateName == "" then
      var name :- cfg.rules.derive(cfg.rules.primary(cfg.x.dnsNames(bundle.leaf)));
      if ValidName(name) then Ok(name) else Err(InvalidVaultName)
    else if ValidName(job.certificateName) then Ok(job.certificateName)
    else Err(InvalidVaultName)
  }

  /**
   The vault object of a sync, under the operator's rules: the one it names, or, if it names
   none, the one whose name is derived from the primary name of the certificate.
   */
  ghost predicate IsObjectOf(digest: ShortDigest, x: X509, job: Job, bundle: Bundle, name: string) {
    && IsLegal(name)
    && if job.certificateName != "" then name == job.certificateName
       else exists p :: IsPrimary(Elements(NormalizeAll(x.dnsNames(bundle.leaf))), p) && DeriveVaultCertificateName(digest, p) == Ok(name)
  }

  lemma TargetMeans(digest: ShortDigest, cfg: Config, job: Job, bundle: Bundle, name: string)
    requires cfg.rules == VaultNames(digest)
    ensures Target(cfg, job, bundle) == Ok(name) <==> IsObjectOf(digest, cfg.x, job, bundle, name)
  {
    hide ValidName, IsLegal, DeriveVaultCertificateName, IsPrimary, NormalizeAll;
    ValidMeansLegal(name);
    var names := cfg.x.dnsNames(bundle.leaf);
    PrimaryIs(names);
    forall p | IsPrimary(Elements(NormalizeAll(names)), p)
      ensures p == Primary(names)
    {
      PrimaryIsUnique(Elements(NormalizeAll(names)), p, Primary(names));
    }
  }

  lemma TargetsAre(digest: ShortDigest, cfg: Config, job: Job, bundle: Bundle)
    requires cfg.rules == VaultNames(digest)
    ensures forall name :: Target(cfg, job, bundle) == Ok(name) <==> IsObjectOf(digest, cfg.x, job, bundle, name)
  {
    hide Target, IsObjectOf;
    forall name
      ensures Target(cfg, job, bundle) == Ok(name) <==> IsObjectOf(digest, cfg.x, job, bundle, name)
    {
      TargetMeans(digest, cfg, job, bundle, name);
    }
  }

  ghost predicate IsObject(cfg: Config, job: string, bundle: Bundle, name: string) {
    job in cfg.jobs && forall digest | cfg.rules == VaultNames(digest) :: IsObjectOf(digest, cfg.x, cfg.jobs[job], bundle, name)
  }

  lemma TargetIsObject(cfg: Config, job: string, bundle: Bundle)
    requires job in cfg.jobs && Target(cfg, cfg.jobs[job], bundle).Ok?
    ensures IsObject(cfg, job, bundle, Target(cfg, cfg.jobs[job], bundle).value)
  {
    hide Target, IsObjectOf;
    forall digest | cfg.rules == VaultNames(digest)
      ensures IsObjectOf(digest, cfg.x, cfg.jobs[job], bundle, Target(cfg, cfg.jobs[job], bundle).value)
    {
      TargetMeans(digest, cfg, cfg.jobs[job], bundle, Target(cfg, cfg.jobs[job], bundle).value);
    }
  }

  /** What an import of a bundle leaves in the vault: a new version of one object, tagged with both hashes. */
  ghost predicate Imported(cfg: Config, bundle: Bundle, before: VaultState, after: VaultState, name: string) {
    && after.imports == before.imports + [name]
    && after.objects == before.objects[name := Stored(cfg.h.sha1(bundle.leaf), Some(cfg.h.sha256(Concat([bundle.leaf] + bundle.chain))),
                                                       true, Some(cfg.x.notAfter(bundle.leaf)))]
  }

  lemma ImportedMeans(cfg: Config, bundle: Bundle, vault: VaultState, name: string)
    ensures Imported(cfg, bundle, vault, AfterImport(vault, name, StoredFor(cfg.x, cfg.h, bundle)), name)
  {
    FingerprintMeans(cfg.h, bundle);
  }

  function PhaseOf(w: World, job: string): Phase {
    if job in w.phases then w.phases[job] else Idle
  }

  function Enter(w: World, job: string, phase: Phase): World {
    w.(phases := w.phases[job := phase])
  }

  function Set<V>(m: map<string, V>, name: string, v: Option<V>): map<string, V> {
    if v.Some? then m[name := v.value] else m - {name}
  }

  /**
   One step of a sync, or of its surroundings; a step that does not apply changes nothing. A
   sync that has loaded its source goes on even if its resource is deleted meanwhile.
   */
  function Step(cfg: Config, w: World, e: Event): World {
    match e
    case Load(j) =>
      if j !in cfg.jobs || !PhaseOf(w, j).Idle? || cfg.jobs[j].secret !in w.sources then w else
      var bundle := w.sources[cfg.jobs[j].secret];
      var target := Target(cfg, cfg.jobs[j], bundle);
      if target.Err? then w else Enter(w, j, Loaded(bundle, target.value))
    case Check(j, now) =>
      if !PhaseOf(w, j).Loaded? then w else
      var phase := PhaseOf(w, j);
      var decision := Decide(cfg.x, cfg.h, Some(phase.bundle), SnapshotOf(w.vault, phase.target), now);
      Enter(w, j, if decision.Ok? && decision.value.imports then Importing(phase.bundle, phase.target) else Idle)
    case Commit(j, fate) =>
      if !PhaseOf(w, j).Importing? then w else
      var phase := PhaseOf(w, j);
      var after := Enter(w, j, Idle);
      if fate.Refused? then after
      else after.(vault := AfterImport(w.vault, phase.target, StoredFor(cfg.x, cfg.h, phase.bundle)))
    case Abandon(j) => Enter(w, j, Idle)
    case SourceChanges(secret, source) => w.(sources := Set(w.sources, secret, source))
    case VaultEdited(name, stored) => w.(vault := w.vault.(objects := Set(w.vault.objects, name, stored)))
  }

  function Run(cfg: Config, w: World, events: seq<Event>): World
    decreases events
  {
    if events == [] then w else Run(cfg, Step(cfg, w, events[0]), events[1..])
  }

  // ----- Sync, undisturbed, is three of those steps -----

  datatype SyncOutcome = SyncOutcome(certificateName: string, decision: Decision, fingerprint: Fingerprint, version: Option<nat>)

  /** What goes wrong during one sync. */
  datatype Faults = Faults(snapshot: bool, encode: bool, fate: Fate)

  function SyncEvents(job: string, now: int, faults: Faults): seq<Event> {
    if faults.snapshot then [Load(job), Abandon(job)]
    else if faults.encode then [Load(job), Check(job, now), Abandon(job)]
    else [Load(job), Check(job, now), Commit(job, faults.fate)]
  }

  /** A world in which one job is about to sync. */
  function Alone(cfg: Config, job: string, source: Option<Bundle>, vault: VaultState): World
    requires job in cfg.jobs
  {
    World(Set(map[], cfg.jobs[job].secret, source), vault, map[job := Idle])
  }

  /** What ends a sync without an outcome, in the order in which it is met. */
  function FailureOf(cfg: Config, job: string, source: Option<Bundle>, vault: VaultState, now: int, faults: Faults): Option<Error>
    requires job in cfg.jobs
  {
    if source.None? then Some(SourceUnavailable) else
    match Target(cfg, cfg.jobs[job], source.value)
    case Err(e) => Some(e)
    case Ok(target) =>
      if faults.snapshot then Some(VaultUnavailable) else
      match Decide(cfg.x, cfg.h, source, SnapshotOf(vault, target), now)
      case Err(e) => Some(e)
      case Ok(decision) =>
        if !decision.imports then None
        else if faults.encode then Some(EncodingFailed)
        else if !faults.fate.Minted? then Some(VaultUnavailable)
        else None
  }

  method Sync(cfg: Config, job: string, source: Option<Bundle>, vault: KeyVault, now: int, faults: Faults) returns (r: Result<SyncOutcome>)
    requires job in cfg.jobs
    modifies vault
    ensures vault.State() == Run(cfg, Alone(cfg, job, source, old(vault.State())), SyncEvents(job, now, faults)).vault
    ensures r.Ok? ==> source.Some? && Target(cfg, cfg.jobs[job], source.value) == Ok(r.value.certificateName)
    ensures r.Ok? ==> IsObject(cfg, job, source.value, r.value.certificateName)
    ensures vault.State() != old(vault.State()) ==>
              source.Some? && exists name :: IsObject(cfg, job, source.value, name) && Imported(cfg, source.value, old(vault.State()), vault.State(), name)
    ensures r.Ok? && r.value.version.Some? ==>
              Imported(cfg, source.value, old(vault.State()), vault.State(), r.value.certificateName) && r.value.version == Some(|vault.imports|)
    ensures r.Ok? ==> r.value.fingerprint == FingerprintOf(cfg.h, source.value) == CurrentFingerprint(vault.State(), r.value.certificateName)
    ensures r.Ok? ==> Decide(cfg.x, cfg.h, source, SnapshotOf(old(vault.State()), r.value.certificateName), now) == Ok(r.value.decision)
    ensures r.Ok? ==> (r.value.decision.imports <==> r.value.version.Some?)
    ensures r.Ok? ==> (r.value.version.Some? <==> vault.State() != old(vault.State()))
    ensures r.Ok? <==> FailureOf(cfg, job, source, old(vault.State()), now, faults).None?
    ensures r.Err? ==> FailureOf(cfg, job, source, old(vault.State()), now, faults) == Some(r.error)
    ensures r.Err? && vault.State() != old(vault.State()) ==> faults.fate.ReplyLost?
  {
    hide IsObject, Imported, Run, Target, Decide;
    ghost var w := Alone(cfg, job, source, vault.State());
    UndisturbedSync(cfg, job, source, vault.State(), now, faults);
    if source.None? {
      return Err(SourceUnavailable);
    }
    var bundle := source.value;
    var target := Target(cfg, cfg.jobs[job], bundle);
    if target.Err? {
      return Err(target.error);
    }
    TargetIsObject(cfg, job, bundle);
    ImportedMeans(cfg, bundle, vault.State(), target.value);
    if faults.snapshot {
      return Err(VaultUnavailable);
    }
    var snapshot := vault.Snapshot(target.value);
    var decision := Decide(cfg.x, cfg.h, Some(bundle), snapshot, now);
    DecideImportsIff(cfg.x, cfg.h, bundle, snapshot, now);
    if decision.Err? {
      return Err(decision.error);
    }
    var outcome := SyncOutcome(target.value, decision.value, FingerprintOf(cfg.h, bundle), None);
    if !decision.value.imports {
      return Ok(outcome);
    }
    if faults.encode {
      return Err(EncodingFailed);
    }
    var result := vault.Import(target.value, StoredFor(cfg.x, cfg.h, bundle), faults.fate);
    if result.Err? {
      return Err(result.error);
    }
    return Ok(outcome.(version := Some(result.value)));
  }

  /** The fingerprint the vault reports, if the object is there. */
  function Reported(stored: Option<Stored>): Option<Fingerprint> {
    match stored
    case None => None
    case Some(o) => Some(Fingerprint(o.thumbprint, if o.chainDigest.Some? then o.chainDigest.value else ""))
  }

  ghost function CurrentFingerprint(vault: VaultState, name: string): Fingerprint {
    match Reported(Find(vault.objects, name))
    case None => Fingerprint([], "")
    case Some(f) => f
  }

  /** Whether a certificate may be imported at some time. */
  ghost predicate IsUsable(x: X509, cert: Certificate, now: int) {
    x.notBefore(cert) <= now <= x.notAfter(cert) && x.dnsNames(cert) != []
  }

  /** Whether the vault holds a bundle under a name, as far as its hashes tell. */
  ghost predicate IsHeld(h: Hashes, vault: VaultState, name: string, bundle: Bundle) {
    && name in vault.objects && vault.objects[name].thumbprint == h.sha1(bundle.leaf)
    && h.sha256(Concat([bundle.leaf] + bundle.chain)) == match vault.objects[name].chainDigest { case Some(tag) => tag case None => "" }
  }

  /**
   A sync succeeds exactly when the Secret can be read, there is a vault object to write to that
   can be read, the certificate is usable, and either the vault holds it already or the import
   goes through.
   */
  lemma SyncSucceedsIff(digest: ShortDigest, cfg: Config, job: string, source: Option<Bundle>, vault: VaultState, now: int, faults: Faults)
    requires job in cfg.jobs && cfg.rules == VaultNames(digest)
    ensures FailureOf(cfg, job, source, vault, now, faults).None? <==>
            source.Some? && !faults.snapshot && IsUsable(cfg.x, source.value.leaf, now)
            && exists name :: IsObjectOf(digest, cfg.x, cfg.jobs[job], source.value, name)
                              && (IsHeld(cfg.h, vault, name, source.value) || (!faults.encode && faults.fate.Minted?))
  {
    hide Target, Decide, IsObjectOf;
    if source.Some? {
      var target := Target(cfg, cfg.jobs[job], source.value);
      TargetsAre(digest, cfg, cfg.jobs[job], source.value);
      if target.Ok? {
        DecideImportsIff(cfg.x, cfg.h, source.value, SnapshotOf(vault, target.value), now);
        FingerprintMeans(cfg.h, source.value);
      }
    }
  }

  /** Which of the things that can go wrong a sync reports: the first it meets. */
  lemma SyncFailsWith(digest: ShortDigest, cfg: Config, job: string, source: Option<Bundle>, vault: VaultState, now: int, faults: Faults)
    requires job in cfg.jobs && cfg.rules == VaultNames(digest)
    requires FailureOf(cfg, job, source, vault, now, faults).Some?
    ensures var e := FailureOf(cfg, job, source, vault, now, faults).value;
            if source.None? then e == SourceUnavailable
            else if forall name :: !IsObjectOf(digest, cfg.x, cfg.jobs[job], source.value, name) then e == InvalidHost || e == InvalidVaultName
            else if faults.snapshot then e == VaultUnavailable
            else if now > cfg.x.notAfter(source.value.leaf) then e == Expired
            else if now < cfg.x.notBefore(source.value.leaf) then e == NotYetValid
            else if cfg.x.dnsNames(source.value.leaf) == [] then e == NoDNSNames
            else e == if faults.encode then EncodingFailed else VaultUnavailable
  {
    hide Decide, IsObjectOf, ValidName, NormalizeHost, Spelling, Primary;
    if source.Some? {
      var target := Target(cfg, cfg.jobs[job], source.value);
      TargetsAre(digest, cfg, cfg.jobs[job], source.value);
      if target.Ok? {
        DecideImportsIff(cfg.x, cfg.h, source.value, SnapshotOf(vault, target.value), now);
      }
    }
  }

  /** And the vault changes exactly when the certificate is usable, is not held, and its import is not refused. */
  lemma SyncImportsIff(digest: ShortDigest, cfg: Config, job: string, source: Option<Bundle>, vault: VaultState, now: int, faults: Faults)
    requires job in cfg.jobs && cfg.rules == VaultNames(digest)
    ensures Run(cfg, Alone(cfg, job, source, vault), SyncEvents(job, now, faults)).vault != vault <==>
            source.Some? && !faults.snapshot && IsUsable(cfg.x, source.value.leaf, now) && !faults.encode && !faults.fate.Refused?
            && exists name :: IsObjectOf(digest, cfg.x, cfg.jobs[job], source.value, name) && !IsHeld(cfg.h, vault, name, source.value)
  {
    hide Target, Decide, IsObjectOf, Run, SyncEvents;
    UndisturbedSync(cfg, job, source, vault, now, faults);
    if source.Some? {
      var target := Target(cfg, cfg.jobs[job], source.value);
      TargetsAre(digest, cfg, cfg.jobs[job], source.value);
      if target.Ok? {
        DecideImportsIff(cfg.x, cfg.h, source.value, SnapshotOf(vault, target.value), now);
        FingerprintMeans(cfg.h, source.value);
        assert AfterImport(vault, target.value, StoredFor(cfg.x, cfg.h, source.value)).imports != vault.imports;
      }
    }
  }

  /** What an undisturbed sync does to the vault. */
  lemma UndisturbedSync(cfg: Config, job: string, source: Option<Bundle>, vault: VaultState, now: int, faults: Faults)
    requires job in cfg.jobs
    ensures Run(cfg, Alone(cfg, job, source, vault), SyncEvents(job, now, faults)).vault ==
            if source.None? || Target(cfg, cfg.jobs[job], source.value).Err? || faults.snapshot then vault else
            var target := Target(cfg, cfg.jobs[job], source.value).value;
            var decision := Decide(cfg.x, cfg.h, source, SnapshotOf(vault, target), now);
            if decision.Err? || !decision.value.imports || faults.encode || faults.fate.Refused? then vault
            else AfterImport(vault, target, StoredFor(cfg.x, cfg.h, source.value))
  {
    var w := Alone(cfg, job, source, vault);
    var events := SyncEvents(job, now, faults);
    var w1 := Step(cfg, w, events[0]);
    var w2 := Step(cfg, w1, events[1]);
    assert events[1..][0] == events[1];
    if |events| == 3 {
      assert events[1..][1..] == [events[2]];
      assert Run(cfg, w2, [events[2]]) == Step(cfg, w2, events[2]);
      assert Run(cfg, w, events) == Step(cfg, w2, events[2]);
    } else {
      assert events[1..][1..] == [];
      assert Run(cfg, w1, events[1..]) == Run(cfg, w2, []);
    }
  }
}
