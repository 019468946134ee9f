# Verification of the Key Vault certificate operator

The operator watches which host names a cluster routes, has cert-manager issue
the certificates that cover them, and brings each certificate into an Azure Key
Vault, from where Application Gateway serves it. This project models the four
places where that is hard to get right, and proves what the rest of the system
relies on.

* **The certificate planner** turns host names and allowed zones into named SAN
  certificates and a list of skipped names. The loops over maps, slices and
  arrays are methods that refine functions on sets and sequences; the theorems
  are about those functions.
* **The chain orderer** rebuilds issuer order from certificates in any order.
  The loop over a `used` array refines a walk over a multiset.
* **Reconciling a policy**: read what exists, plan, apply, handle orphans,
  against an API server that may refuse any call, or do it and lose the answer.
* **Syncing a certificate** into the vault, one step at a time, with anything
  interleaved: other syncs, changed Secrets, edits made to the vault by hand.

What the functions in these contracts compute is also stated without them, in terms of
the input alone: which SANs share a certificate and what it is called (`PerWildcardPlan`,
`PerZonePlan`, `DerivedNameMeans`), which certificates make up a chain (`ChainMeans`,
`ChainLinks`), which vault object a sync writes and when (`TargetMeans`, `SyncImportsIff`),
and what a pass deletes, reports and writes (`PassLaws`).

Four promises of the code's own comments turned out not to hold as stated; the
model follows the code. For each there is a concrete family of inputs that
breaks it, and the exact condition under which it does hold:

* *Collision repair makes names unique* (`internal/domain/wildcard.go:285-287`).
  A name too long to take the suffix whole is truncated before the suffix is
  added, and the result can be the name that was taken: `TruncationDefeatsRepair`,
  and for a whole plan of two allowed zones `PlanRepeatsAName`. Names come out
  distinct if and only if no certificate that lost its name, and has no room for
  the suffix, is cut back to the name of an earlier one:
  `RepairIsUniqueUnlessCutBack`, and for a plan `PlanNamesAreDistinctIff`. They
  always do when every SAN has at most 111 characters: `PlanNamesAreDistinct`.
* *The cap bounds the plan* (`internal/domain/wildcard.go:103`,
  `api/v1alpha1/wildcardcertificatepolicy_types.go:279-280`). The cap counts names,
  so certificates that share one pass it together: `PlanExceedsItsCap`. A plan keeps
  to its cap if and only if there were no more certificates to begin with, or no
  name of the plan repeats (`PlanKeepsItsCapIff`), which can be told before the cap
  is applied (`PlanKeepsItsCapUnlessCutBack`). With SANs of at most 111 characters
  it holds exactly as many as the cap allows: `RoomyPlanKeepsItsCap`.
* *An existing certificate is never evicted to make room for a new one*
  (`internal/domain/wildcard.go:62-68`). What exists is read from the sync
  resources, and the sync is created after its Certificate; when a pass breaks off
  in between, the Certificate has no claim to its slot, and a later pass under
  `Prune` may delete it for a name that is new: `AddingAZoneEvicts`.
  Wherever a pass breaks off, it evicts only when a Certificate that never got
  its sync is crowded out (`AnyPassEvictsOnlyWhenCrowded`), and a pruning pass that
  runs to its end evicts exactly then (`EvictsExactlyWhenCrowded`). No pass evicts
  where every Certificate has its sync (`SyncedCertificatesAreSafe`), which is so as
  long as no pass before it broke off between the two (`UninterruptedRunsNeverEvict`).
* *A chain never contains the leaf itself* (`internal/domain/certificate.go:18-19`).
  A leaf block that is repeated ends up in the chain: `RepeatedLeafIsInChain`. The
  leaf is in its chain if and only if the Secret holds it more than once:
  `LeafInChainIff`.

Names that repeat also keep a policy from coming to rest: a pruning pass that has
run to its end is final if and only if the names it planned are distinct
(`FinishedPruneIsFinalIff`).

## Files

| file | what it holds |
|---|---|
| `Outcomes`, `Sorting`, `Text` | results and errors, stable sorting, the string functions the planner uses |
| `Naming`, `Zones`, `Packing`, `Collisions`, `Limit` | the parts of the planner, each with its own laws |
| `Planning` | `BuildPlan` and the relation it meets |
| `PlanTheorems`, `PlanStability`, `Groupings`, `PlanNames`, `PinnedNames` | what holds of every plan, across inputs, of the two groupings, and of names |
| `RepairLimits`, `RepeatedNames`, `SmallPlans` | where collision repair fails, and plans of one or two zones for the examples |
| `Chains`, `Bundles`, `Decisions` | issuer order, bundles and digests, the import decision |
| `Syncing`, `ImportRuns` | the vault, the steps of a sync, and bounds on whole runs |
| `Planner`, `Cluster`, `Reconciling` | desired certificates, the API server, one pass over a policy |
| `PassLaws` | what a pass may delete, reports, and writes, told from the resources before and after it |
| `PolicyPasses`, `PolicyRuns`, `Settling`, `PolicyImports` | what one pass may do, runs of passes, when they come to rest, and what they mean for the vault |
| `Evictions`, `EvictionExample` | when the cap evicts a Certificate, and a run in which it does |

`dafny verify dfyconfig.toml` checks everything.

## Assumptions

* Strings are ASCII, one character for each byte.
* Where a theorem asks for `Tidy` zones, they are in normal form: an entry that
  has white space before its root dot is not.
* The Public Suffix List is a predicate on names that never accepts an empty
  label. A zone passes when that predicate accepts it and it holds no `*`.
* SHA-1, SHA-256 and the eight-digit digest in names are functions. Where a
  theorem needs that they do not collide, it says so, for the values at hand.
* A certificate is its DER encoding; what X.509 parsing and signature checks
  say of it are functions of that encoding. `DigestDeterminesChain` asks for
  encodings none of which is the beginning of another, as definite lengths
  ensure (section 10.1 of X.690).
* A policy's resources are those that carry both its label and its owner
  reference; the model has one field for the two.
* `ImportBound` is about an object that one sync writes. `PolicyImports` shows
  that the syncs of one policy are such writers, whatever its passes do meanwhile.

## Model

| member | source | states |
|---|---|---|
| Naming.ValidateVaultCertificateName | internal/domain/name.go:21-37 | accepts exactly names of 1 to 127 letters, digits and hyphens that begin with a letter |
| Naming.DerivationSucceedsIff | internal/domain/name.go:47-72 | deriving a name fails exactly on an empty host or one that keeps a character outside letters, digits, dots and hyphens; a derived name is valid and at most seven characters longer than the host |
| Naming.DerivedNameMeans | internal/domain/name.go:47-72 | a derived name is the normalised host with hyphens for dots, "wildcard-" for a leading "*." and "cert-" before a first character that is no letter; from 128 characters on, its first 118 less trailing hyphens, and the digest of the host; an error exactly where that is no legal name |
| Naming.DisambiguatedIsValid | internal/domain/name.go:76-82 | repairing a valid name gives a valid name |
| Naming.DisambiguatedMeans | internal/domain/name.go:76-82 | a repaired name is as much of the name as fits, less trailing hyphens, and the digest of the seed |
| Naming.DisambiguatedEndsWithDigest | internal/domain/name.go:76-82 | a repaired name ends in the digest of its seed, so repaired names with different digests differ |
| Naming.DisambiguatedSortsAfter | internal/domain/name.go:76-82 | unless truncated, a repaired name sorts strictly after the name it replaces, trailing hyphens notwithstanding |
| Naming.NormalizeMeans | internal/domain/name.go:94-98 | normalising takes the white space around a name and one dot at its end, makes capitals small, and changes nothing else |
| Naming.NormalIsFixpoint | internal/domain/name.go:96-98 | normalising leaves names in normal form alone |
| Naming.NormalizingAgainChangesIff | internal/domain/name.go:94-98 | normalising a second time changes a name if and only if what is left after the first ends in a dot or in white space |
| Naming.TwoRootDots | internal/domain/name.go:94-98 | so it is no fixpoint in general: a name with two root dots loses one each time |
| Naming.PrimaryDNSName | internal/domain/name.go:111-128 | finds the least wildcard, or the least plain name if there is no wildcard, skipping empty names |
| Naming.PrimaryIsUnique | internal/domain/name.go:104-110 | there is only one such name, so the choice does not depend on list order |
| Naming.PrimaryMeans | internal/domain/name.go:104-110 | the primary name is the least wildcard of a list, or without a wildcard its least name |
| Text.LeqMeans | internal/domain/wildcard.go:249-250 | names are compared bytewise: the first differing character decides, and a beginning comes before what continues it |
| Zones.NormalizeZones | internal/domain/wildcard.go:353-376 | succeeds exactly when there is a zone and each, normalised, holds no "*" and is accepted by the Public Suffix List; yields the set of normalised zones once each, longest first |
| Zones.WithinMeans | internal/domain/wildcard.go:405-407 | a host lies within a zone if and only if its labels end with those of the zone |
| Zones.BestZoneUnique | internal/domain/wildcard.go:373-374 | two zones of one length never contain the same host, so the longest match needs no tie-break |
| Zones.LongestMatchingZone | internal/domain/wildcard.go:394-403 | finds the longest zone that contains the host, or that there is none |
| Zones.ParentKeepsZone | internal/domain/wildcard.go:192-197 | taking the parent of a host inside its zone never fails, leaves its longest match unchanged and brings in no wildcard |
| Zones.NeededSan | internal/domain/wildcard.go:176-198 | the SAN a host needs covers it by section 6.4.3 of RFC 6125, lies in the zone it is planned under, has no second wildcard, and as a host needs itself |
| Zones.SkippedFor | internal/domain/wildcard.go:136-146 | a host is outside the allowlist exactly when no zone contains it, and malformed exactly when one does and it holds a further wildcard |
| Packing.SortedKeys | internal/domain/wildcard.go:431-438 | whatever order the map yields its keys in, the result is the sorted arrangement of the set |
| Packing.GroupNaturally | internal/domain/wildcard.go:201-249 | the packing loops meet the functional description of both groupings, including the first error met; what that means for a plan is stated by the `Groupings` rows |
| Packing.WildcardPartsConserve | internal/domain/wildcard.go:219-243 | packing by wildcard puts every SAN of a zone in exactly one part although the list of apexes is rewritten on the way |
| Packing.NaturalHolds | internal/domain/wildcard.go:201-251 | before repair: certificates are sorted by name, carry each required SAN exactly as often as required, stay in their zone and, when the primary name of each zone is one of its SANs, are named after a SAN of theirs |
| Collisions.ResolveNameCollisions | internal/domain/wildcard.go:288-301 | the in-place loop renames exactly the certificates whose name was actually used before |
| Collisions.TakenMeansUsed | internal/domain/wildcard.go:295-297 | whether a name is used before can be told from the names before repair |
| Collisions.ResolvedIsFinal | internal/domain/wildcard.go:288-301 | repair changes names only, to a name predicted from the input |
| Collisions.RepairIsUniqueIff | internal/domain/wildcard.go:285-301 | names come out distinct if and only if no fallback name equals an earlier natural name or an earlier fallback |
| Collisions.RepairIsUniqueUnlessCutBack | internal/domain/wildcard.go:249-301 | on a sorted list whose SAN lists have different digests, names come out distinct if and only if no taken name of more than 118 characters is cut back to the name of an earlier certificate |
| Collisions.RepairIsUnique | internal/domain/wildcard.go:249-301 | on a sorted list of names of at most 118 characters whose SAN lists have different digests, repair makes names distinct |
| Collisions.ResolvedKeepsSans | internal/domain/wildcard.go:288-301 | repair moves no SAN |
| RepairLimits.TruncationDefeatsRepair | internal/domain/name.go:76-82 | whatever the digest, there are two zones whose certificates keep one name through repair, because truncating and adding the digest gives the name back |
| RepeatedNames.PlanRepeatsAName | internal/domain/wildcard.go:285-301 | so a successful plan for two allowed zones can hold two certificates of one name, whatever the digest |
| RepairLimits.LongTailsCanBeOrdinary | internal/domain/name.go:76-82 | the zones involved, and the wildcard of the longer one, can keep to the lengths of section 2.3.4 of RFC 1035: labels of at most 63 characters, names of at most 253 |
| RepeatedNames.OrdinaryZonesCanBeIssued | internal/domain/wildcard.go:380-392 | for every digest some registry accepts both zones |
| Limit.ApplyLimit | internal/domain/wildcard.go:312-350 | keeps everything, or the best names up to the cap: issued before new, then plan order; both lists keep plan order |
| Limit.SelectionIsUnique | internal/domain/wildcard.go:322-325 | there is only one such choice |
| Limit.KeptIff | internal/domain/wildcard.go:322-340 | where the cap applies, a name is kept if and only if fewer than max names have a better claim |
| Limit.SelectionSurvivesInterruption | internal/domain/wildcard.go:312-350 | whatever part of an apply or a prune went through, the cap makes exactly the same choice again |
| Limit.OnlyIssuedEvictIssued | internal/domain/wildcard.go:62-68 | a name that exists and is still planned loses its slot only when more such names than the cap exist, and then nothing new is kept |
| Limit.CapIsExact | internal/domain/wildcard.go:312-350 | where the cap applies it lets at least max certificates through, and exactly max if and only if no name it keeps repeats; else it keeps everything |
| RepeatedNames.PlanExceedsItsCap | internal/domain/wildcard.go:93-103 | so a plan can hold two certificates under a cap of one, whatever the digest |
| PlanTheorems.PlanKeepsItsCapIff | internal/domain/wildcard.go:93-103 | a plan under a positive cap holds at most that many certificates if and only if there were no more before the cap, or no name of the plan repeats; it never holds fewer than it may |
| PlanNames.PlanKeepsItsCapUnlessCutBack | internal/domain/wildcard.go:93-103 | the same told from the input alone: no certificate is cut back to a name that fewer than max names outrank |
| PlanNames.RoomyPlanKeepsItsCap | internal/domain/wildcard.go:93-103 | with SANs of at most 111 characters a plan holds exactly min(max, n) certificates |
| Limit.LimitSplits | internal/domain/wildcard.go:342-349 | kept and overflow split the plan |
| Limit.LimitKeepsSans | internal/domain/wildcard.go:342-349 | kept and overflow carry together every SAN as often as before |
| Planning.CollectRequired | internal/domain/wildcard.go:130-152 | the planning loop collects, for each zone, the SANs its hosts need, and skips the others with their reason |
| Planning.BuildPlan | internal/domain/wildcard.go:108-173 | the whole planner meets the relation between input and plan that every theorem below is about |
| PlanTheorems.UncappedCarriesEachOnce | internal/domain/wildcard.go:130-160 | before the cap every SAN any host needs is carried exactly once, and nothing else |
| PlanTheorems.PlanConservesSans | internal/domain/wildcard.go:158-172 | SANs kept and SANs reported over the cap are together exactly those needed, once each |
| PlanTheorems.PlanIsDisjoint | internal/domain/wildcard.go:201-251 | no two certificates of a plan share a SAN, for both groupings |
| PlanTheorems.PlanStaysInZones | internal/domain/wildcard.go:99-106 | every SAN lies in the allowed zone of its certificate, which is its longest match, with no further wildcard |
| PlanTheorems.SkippedMeans | internal/domain/wildcard.go:138-145 | exactly what the skipped list reports, reason by reason |
| PlanTheorems.SkippedIsSorted | internal/domain/wildcard.go:440-447 | the skipped list is sorted by host and, for one host, by reason |
| PlanTheorems.EveryHostIsAccountedFor | internal/domain/wildcard.go:130-171 | every non-empty host is skipped with the right reason, or covered by a SAN that is carried or reported over the cap |
| PlanTheorems.EverySanIsDemanded | internal/domain/wildcard.go:142-151 | conversely every SAN issued is needed by some host or seed it covers |
| PlanStability.AllHostsMean | internal/domain/wildcard.go:118-135 | a plan looks at the normalised discovered hosts and, if zone wildcards are issued, at the wildcard of each zone; at nothing else |
| PlanStability.EverySanIsAskedFor | internal/domain/wildcard.go:118-152 | so every SAN issued covers one of those |
| Groupings.PerWildcardPlan | internal/domain/wildcard.go:219-243 | per wildcard, each certificate carries a wildcard, a wildcard with its apex, or one name whose wildcard is not needed; it is named after the wildcard if it has one, and takes along every apex that is needed |
| Groupings.ApexRidesIff | internal/domain/wildcard.go:219-230 | an apex and its wildcard share a certificate if and only if both are needed in the zone |
| Groupings.PerZonePlan | internal/domain/wildcard.go:209-218 | per zone, which is the default, each certificate carries exactly what its zone needs, and is named after the wildcard of the zone if that is needed, else after the primary name |
| Groupings.PerZoneLead | internal/domain/wildcard.go:253-273 | under the rules of the operator that primary name is the best of the SANs the certificate carries |
| Groupings.OneForEachZone | internal/domain/wildcard.go:15-19 | per zone, no zone has two certificates |
| Groupings.PlanFailsIff | internal/domain/wildcard.go:201-249 | with usable zones a plan fails if and only if a certificate cannot be named, or something is needed under an unknown grouping; the error says which |
| Groupings.NamesakesInOrder | internal/domain/wildcard.go:204-250 | certificates that derive one name stand in the order of their zones, wildcards first within a zone, so that repair leaves the name to the first of them |
| PlanStability.PlanIsDeterministic | internal/domain/wildcard.go:108-173 | permuting or repeating hosts, zones and existing names leaves the certificates or the error unchanged; permuting the hosts leaves the whole plan unchanged |
| PlanStability.RequiredIsMonotone | internal/domain/wildcard.go:130-152 | more hosts only grow what each zone requires |
| PlanStability.MoreHostsKeepEverySan | internal/domain/wildcard.go:108-173 | without a cap, adding hosts never uncovers a SAN nor moves it to another zone |
| PlanStability.ReplanningIsStable | internal/domain/wildcard.go:108-173 | without a cap, planning a plan's own SANs gives the same certificates and skips nothing |
| PlanNames.PlanNamesAreLegal | internal/domain/wildcard.go:275-301 | every certificate name of a plan is a valid Key Vault name |
| PlanNames.PlanNamesAreTruthful | internal/domain/wildcard.go:253-265 | every certificate is named after a SAN it carries, or by the fallback of that name |
| PlanNames.UncappedNamesAreDistinctIff | internal/domain/wildcard.go:249-301 | when the digest does not collide on it, the uncapped plan repeats a name if and only if, before repair, some certificate is cut back to an earlier one |
| PlanNames.PlanNamesAreDistinctIff | internal/domain/wildcard.go:249-350 | and a capped plan repeats a name if and only if it holds a name that something is cut back to |
| PlanNames.OnlyTheHashCollides | internal/domain/wildcard.go:292-294 | for SANs without commas, joining with commas tells lists apart, so only the hash itself can collide |
| PlanNames.PlanNamesAreDistinct | internal/domain/wildcard.go:249-301 | names are distinct across a plan, kept or not, when SANs have at most 111 characters and the short digest does not collide on it |
| PinnedNames.ZoneWildcardsPinNames | internal/domain/wildcard.go:118-128 | with zone wildcards, one certificate for each zone and zone names that do not collide, the list of names and its capped selection are the same for every host list; the plan is never empty and no seed is skipped as unusable |
| PinnedNames.SeedsArePlanned | internal/domain/wildcard.go:72-83 | the wildcard of every zone is carried or reported over the cap |
| Chains.FindIssuer | internal/domain/chain.go:60-74 | the scan picks a verifying issuer if there is an unused one, else the first unused name match |
| Chains.FollowIssuers | internal/domain/chain.go:29-42 | the loop over the used array is a walk over the certificates not used yet, and it terminates |
| Chains.OrderChain | internal/domain/chain.go:21-56 | the chain is the walk from the leaf, followed by what is left in byte order; `ChainMeans` and `ChainLinks` say what that is |
| Chains.ChainLinks | internal/domain/chain.go:9-42 | up to some point the subject of each certificate is the issuer of the one before, which it verifies whenever one still unused does; no root but the last, which is one unless nothing left over is its issuer |
| Chains.ChainMeans | internal/domain/chain.go:21-78 | which certificates those are, by index: at each step the first unused one that verifies, else the first of that name; then everything else in bytewise order |
| Chains.ChainConserves | internal/domain/chain.go:18-20 | no certificate is lost, repeated or made up |
| Chains.ChainIsOrdered | internal/domain/chain.go:9-20 | the linked part is in issuer order (section 6.1 of RFC 5280), prefers verifying issuers, and stops only at a self-signed certificate or when no unused name matches; the rest is sorted |
| Chains.OrderIsIrrelevantIff | internal/domain/chain.go:14-16 | every permutation of the input gives the same chain if and only if no step of the walk has two distinct best issuers |
| Chains.UniqueIssuersAreUnambiguous | internal/domain/chain.go:58-74 | a bundle without cross-signed certificates is such an input, duplicates included |
| Chains.AmbiguousWalksDiffer | internal/domain/chain.go:58-74 | for any other input there are two orders with different chains |
| Bundles.ParseCertificates | internal/domain/certificate.go:63-85 | the contents of the certificate blocks in order, other blocks ignored; an error if any of them does not parse, another if there is none |
| Bundles.CertificatesInMeans | internal/domain/certificate.go:63-85 | the certificates stand at increasing indices among the blocks, and at all indices of certificate blocks; one that does not parse is one error, none at all another |
| Bundles.SelectLeaf | internal/domain/certificate.go:128-144 | the first certificate that matches the key, and the others in order; a mismatch otherwise |
| Bundles.BundleMeans | internal/domain/certificate.go:48-59 | the leaf is the first certificate whose public key is the key's; a mismatch if and only if there is none |
| Bundles.ParseBundle | internal/domain/certificate.go:39-59 | leaf, ordered chain and key, or the first error in the order of the steps |
| Bundles.BundleIgnoresOrderIff | internal/domain/certificate.go:31-33 | reordering a Secret changes nothing about its bundle if and only if one certificate value matches the key and the chain is never ambiguous |
| Bundles.LeafInChainIff | internal/domain/certificate.go:17-20 | the leaf is in its own chain if and only if the Secret holds it more than once |
| Bundles.RepeatedLeafIsInChain | internal/domain/certificate.go:17-20 | as it does when the leaf block is repeated |
| Bundles.ChainDigest | internal/domain/certificate.go:180-187 | the loop hashes the concatenation of leaf and chain |
| Bundles.ConcatIsDecodable | internal/domain/certificate.go:180-187 | a concatenation of prefix-free encodings, however many, can be taken apart in one way only |
| Bundles.DigestDeterminesChain | internal/domain/certificate.go:172-187 | equal digests mean the same leaf and the same chain in the same order |
| Decisions.DecideImportsIff | internal/domain/decide.go:68-127 | a usable bundle is imported if and only if the vault does not hold its thumbprint and tag; which error an unusable one gives, what each cause means, and when each warning is given |
| Decisions.FingerprintMeans | internal/domain/certificate.go:152-187 | a fingerprint is the SHA-1 of the leaf, and the SHA-256 of the leaf and its chain in order |
| Decisions.OnlyTheFingerprintDecides | internal/domain/decide.go:91-104 | disabling the object, or another expiry in the vault, changes nothing but the warning |
| Decisions.ReorderingNeverImports | internal/domain/decide.go:106-126 | any order of the same certificates is up to date against what one import has stored |
| Syncing.KeyVault.Snapshot | test/e2e/fakekeyvault/server.go:193-268 | reads the current version; an absent object is not an error |
| Syncing.KeyVault.Import | test/e2e/fakekeyvault/server.go:193-268 | every import that is not refused mints a version and replaces the current one, even when the answer is lost |
| Syncing.Sync | internal/app/syncer.go:68-133 | an undisturbed sync does to the vault what its steps do one after the other: nothing, or one new version, tagged with both hashes, of the object it names or derives; it reports that object, the decision, and the version exactly when it minted one, or else the first of the things that can go wrong |
| Syncing.UndisturbedSync | internal/app/syncer.go:68-133 | which faults and decisions leave the vault unchanged, and what an import leaves in it |
| Syncing.TargetMeans | internal/app/syncer.go:74-86 | a sync writes the vault object it names or, if it names none, the one whose name derives from the primary DNS name of the certificate |
| Syncing.SyncSucceedsIff | internal/app/syncer.go:68-133 | a sync succeeds if and only if the Secret can be read, the certificate is usable, there is an object to write that can be read, and it holds the bundle already or the import goes through |
| Syncing.SyncImportsIff | internal/app/syncer.go:68-133 | it changes the vault if and only if the bundle is usable and not held, and the import is not refused |
| Syncing.SyncFailsWith | internal/app/syncer.go:68-133 | which error it reports of those that apply |
| ImportRuns.StepPays | internal/app/syncer.go:68-133 | every step of every actor pays for the versions it mints out of what is still owed |
| ImportRuns.ImportBound | internal/app/syncer.go:62-67 | over any interleaving of syncs, failures, lost answers, retries, source changes and vault edits, an object with one writer gets at most one version, plus one for each change of its source, plus one for each edit of its fingerprint or existence |
| ImportRuns.BoundIsReached | internal/app/syncer.go:68-133 | the bound is met with equality by a source that changes while the bundle before it is on its way |
| ImportRuns.SteadyStateNeverImports | internal/app/syncer.go:62-67 | an object that holds its source is never written again until something changes; disabling it is no such change |
| ImportRuns.SyncConverges | internal/app/syncer.go:94-133 | one faultless sync of a usable source leaves the object holding it, whatever the vault held before |
| Planner.SplitListenerHostnames | internal/domain/wildcard.go:411-418 | the groups hold the names in order, all full but perhaps the last, none empty |
| Planner.GroupCount | internal/domain/wildcard.go:409-410 | there are ceil(n/5) groups |
| Planner.SplitIsUnique | internal/domain/wildcard.go:409-418 | there is only one such split |
| Planner.PlanDesired | internal/app/planner.go:70-104 | a discovery error is passed on; otherwise the desired certificates are those of a plan, in order, each with its secret, its identifier and its listener groups |
| Planner.ListenersMean | internal/controller/wildcardpolicy_controller.go:441-459 | the listeners of a status are one for each group of host names of each certificate, pointing to that certificate |
| Planner.DistinctNamesShareNothing | internal/app/planner.go:93-101 | distinct names give distinct secrets and distinct vault objects |
| Planner.ListenerGuidance.Record | internal/controller/wildcardpolicy_controller.go:441-468 | the status holds the first 100 listeners, in order, and the true total |
| Cluster.ApiServer.EnsureCertificate | internal/infra/kube/certmanager.go:68-116 | creates or updates a Certificate unless another policy owns the name |
| Cluster.ApiServer.EnsureSync | internal/controller/wildcardpolicy_controller.go:296-321 | creates or updates a sync unless another policy owns the name |
| Cluster.ApiServer.DeleteSync | internal/controller/wildcardpolicy_controller.go:366-368 | deletes a sync by name; one that is gone is no error |
| Cluster.PutAllAdds | internal/controller/wildcardpolicy_controller.go:271-294 | writing adds the planned names to what the policy owns and leaves every other name alone |
| Reconciling.Apply | internal/controller/wildcardpolicy_controller.go:271-294 | wherever it breaks off, a prefix of the plan is written, each Certificate before its sync, and nothing over another policy's |
| Reconciling.PruneSyncs | internal/controller/wildcardpolicy_controller.go:351-369 | counts the orphans and, when pruning, deletes just them; a failure leaves the others |
| Reconciling.ApplyAndPrune | internal/controller/wildcardpolicy_controller.go:330-428 | orphans go only after everything planned is in place, syncs before Certificates; what is reported as withheld |
| Reconciling.Reconcile | internal/controller/wildcardpolicy_controller.go:85-208 | one pass, broken off at any call, is a pass of the relation the theorems below are about; without faults it runs to its end |
| PassLaws.UntrustedPassDeletesNothing | internal/controller/wildcardpolicy_controller.go:330-428 | no pass deletes anything if the policy retains, if nothing is planned, or if a source the policy enables was not there at startup |
| PassLaws.TrustedPassDeletesEveryOrphan | internal/controller/wildcardpolicy_controller.go:330-392 | in every other case a complete pass leaves the policy just the Certificates and syncs it planned; and in any case it has those |
| PassLaws.ReportMeans | internal/controller/wildcardpolicy_controller.go:330-428 | a complete pass reports how many syncs are orphans and, if there are any and it should have pruned, why it did not |
| PassLaws.WithoutAPlan | internal/controller/wildcardpolicy_controller.go:112-158 | without a plan, or without cert-manager, a pass changes nothing, and reports the error or that it is degraded |
| PassLaws.PassPlansItsPolicy | internal/controller/wildcardpolicy_controller.go:210-265 | the plan of a pass is for the hosts it found and the settings of its policy, in favour of the syncs that carry its name |
| PassLaws.PlannedCertificateMeans | internal/app/planner.go:92-101 | each planned certificate has the Secret of its name with "-tls", its versionless identifier in the vault, and its names in groups of five, in order |
| PassLaws.WrittenOrLeft | internal/controller/wildcardpolicy_controller.go:267-321 | after any pass a resource is what it was, or what a planned certificate of its name calls for: the Secret of that name, and in a Certificate its DNS names, in a sync its name in the vault |
| PassLaws.CompletePassWrites | internal/controller/wildcardpolicy_controller.go:267-321 | a complete pass has written both for every name it planned |
| PassLaws.SecretsStayMatched | internal/controller/wildcardpolicy_controller.go:267-321 | so a sync reads the Secret that the Certificate of its name writes, after any pass, wherever it breaks off |
| PassLaws.SyncsKeepTheirCertificates | internal/controller/wildcardpolicy_controller.go:271-390 | Certificates are written before their syncs and deleted after them: no pass leaves a sync without its Certificate |
| PassLaws.OthersAreLeftAlone | internal/controller/wildcardpolicy_controller.go:267-392 | resources of other policies, and unowned ones that are not planned, stay as they are |
| PassLaws.CompletePassTookNothing | internal/controller/wildcardpolicy_controller.go:296-321 | a pass that meets a resource of another policy under a planned name does not complete |
| PolicyPasses.PassStaysBetween | internal/controller/wildcardpolicy_controller.go:271-392 | wherever a pass breaks off, it has added only planned names and taken away only names that are not planned |
| PolicyPasses.NothingIsDeletedUnlessPruning | internal/controller/wildcardpolicy_controller.go:394-428 | a pass under Retain, or with pruning withheld, deletes nothing |
| PolicyPasses.SyncDeletionRule | internal/controller/wildcardpolicy_controller.go:330-392 | a sync goes only in a pruning pass that has everything planned in place, and only if its name is not planned before the cap or more existing names than the cap are; then nothing new was planned |
| PolicyPasses.CertificateDeletionRule | internal/controller/wildcardpolicy_controller.go:330-392 | the same, whole, for a Certificate that has its sync; no kept name is ever deleted, and the sync goes before its Certificate |
| PolicyPasses.OtherPoliciesAreSafe | internal/controller/wildcardpolicy_controller.go:271-392 | no pass changes what another policy generated |
| PolicyPasses.FinishedPruneConverges | internal/controller/wildcardpolicy_controller.go:330-392 | after a pruning pass that ran to its end and planned distinct names, Certificates, syncs and planned names are the same, with the right contents |
| PolicyPasses.FinishedPruneConvergesIff | internal/controller/wildcardpolicy_controller.go:330-392 | for certificates with different SANs it is so if and only if the planned names are distinct |
| PolicyPasses.ConvergedStays | internal/controller/wildcardpolicy_controller.go:271-392 | a pass that plans what is there changes nothing |
| PolicyRuns.PassKeepsSelection | internal/controller/wildcardpolicy_controller.go:112-119 | what one pass keeps, interrupted or not, the next one asked for the same keeps |
| PolicyRuns.InterruptedPassesAgree | internal/controller/wildcardpolicy_controller.go:85-208 | in any run of passes with the same request, each broken off anywhere, at the discovery of hosts too, any two passes that plan plan the same certificates |
| PolicyRuns.KeptSyncsStay | internal/controller/wildcardpolicy_controller.go:330-392 | throughout such a run, once a name that some pass plans has its sync it is never taken away, whatever is pruned |
| PolicyRuns.PlannedNamesAreDistinctIff | internal/domain/wildcard.go:285-301 | under the operator's naming rules the names a pass plans are distinct if and only if it plans no name that something is cut back to |
| PolicyRuns.PlannedNamesAreDistinct | internal/domain/wildcard.go:285-301 | so they are when every SAN has at most 111 characters |
| PolicyRuns.FinishedPruneIsFinal | internal/controller/wildcardpolicy_controller.go:85-208 | after a finished pruning pass with distinct names, any number of further passes with the same request, broken off anywhere, leave the cluster as it is |
| Settling.PolicyConvergesIff | internal/controller/wildcardpolicy_controller.go:330-392 | under the operator's naming rules a finished pruning pass converges if and only if the names it planned are distinct |
| Settling.FinishedPruneIsFinalIff | internal/controller/wildcardpolicy_controller.go:85-208 | and only then is it final: otherwise a further pass with the same request, broken off, changes a Certificate |
| Evictions.EvictsExactlyWhenCrowded | internal/controller/wildcardpolicy_controller.go:210-228 | a finished pruning pass deletes a Certificate that is still asked for while creating a new one if and only if a Certificate without its sync stands outside the cap and a name with neither stands inside it |
| Evictions.AnyPassEvictsOnlyWhenCrowded | internal/controller/wildcardpolicy_controller.go:330-392 | wherever a pass breaks off, it evicts only in that case |
| Evictions.SyncedCertificatesAreSafe | internal/domain/wildcard.go:62-68 | no pass over a policy whose Certificates all have their syncs evicts, finished or not |
| Evictions.FinishedPassLeavesNoneStranded | internal/controller/wildcardpolicy_controller.go:106-208 | a pass that runs to its end, or fails before its first write, writes a sync for each Certificate it writes, and leaves no Certificate behind whose sync it deleted |
| Evictions.UninterruptedRunsNeverEvict | internal/domain/wildcard.go:303-311 | in a run that begins like that, whatever each pass asks for, no pass evicts as long as those before it left no Certificate stranded |
| Evictions.EvictionRun | internal/controller/wildcardpolicy_controller.go:271-294 | a run of two passes, the first of them interrupted, in which it happens |
| EvictionExample.AddingAZoneEvicts | internal/domain/wildcard.go:62-68 | it happens under the operator's own naming rules, for any digest, when a zone is added whose name comes first |
| PolicyImports.PassKeepsSelfNamed | internal/controller/wildcardpolicy_controller.go:303-316 | every pass keeps each sync reading the Secret and writing the vault object of its own name |
| PolicyImports.SyncsAreSoleWriters | internal/controller/wildcardpolicy_controller.go:303-316 | so no two syncs of a policy share a vault object or a Secret |
| PolicyImports.PolicyImportBound | internal/app/syncer.go:62-67 | over any run of sync steps interleaved with passes that bring syncs and take them away, the versions minted of any objects of a policy are at most one for each, plus one for each event that changes a Secret, or the fingerprint or existence of an object, of theirs |
| PolicyImports.TotalImportBound | internal/app/syncer.go:62-67 | the same bound holds of everything the policy's syncs write to the vault |
| PolicyImports.OnlyOwnObjectsAreImported | internal/app/syncer.go:68-133 | over such a run nothing is imported but the objects of syncs the policy has had |
| PolicyImports.ObjectsAreNeverLost | internal/controller/wildcardpolicy_controller.go:323-329 | the vault never loses an object to a sync or to a pass |

## Left out

- PEM, X.509 and private-key decoding, PKCS#12 encoding and the hashes themselves: library code, taken as functions of bytes; a key of an unsupported kind counts as one that was not there.
- The Azure client, credentials, the vault URL and the allowlist of vaults, throttling: a vault is a map of objects with a Snapshot and an Import.
- Kubernetes clients, caches, watches, finalizers, events, metrics, conditions and their messages: a cluster is two maps of resources by name, in one namespace.
- Reading a stale list from the cache: a pass sees the syncs as they are when it reads them, and nobody else writes the policy's resources during it. Beside the steps of syncs a pass is one action.
- Listing hosts from Ingress, HTTPRoute and Gateway: a pass is given any list of hosts, or an error.
- Labels and owner references that disagree: one field says which policy generated a resource. Of a Certificate the secret and the DNS names are kept, of a sync the secret and the vault object; the rest comes from the policy unchanged.
- Deleting a policy: its finalizer and the garbage collector are Kubernetes' own.
- Status writing other than listeners, and the second failure when writing a status after a failure.
- Jitter, resync intervals and which errors are retried: runs are any sequences of steps and passes.
- The tags of a stored certificate other than its chain digest.
- remove and the candidate slices of group: modelled on sequences; the source rewrites a slice of its own in place, which no other variable sees.
- Messages of errors and warnings: errors are told apart by kind only, and skip reasons keep the alphabetical order of their texts.
- Bodies of the longer loops are methods of their own, one for each loop body or loop.
- PlanNames.PlanNamesAreDistinct: asks for SANs of at most 111 characters, since RepairLimits.TruncationDefeatsRepair shows that longer ones can fail; PlanNames.PlanNamesAreDistinctIff is the exact condition.
- Decisions.ReorderingNeverImports: asks for one leaf and an unambiguous chain, which Bundles.BundleIgnoresOrderIff shows to be exactly what it takes for the bundle to stay the same.
