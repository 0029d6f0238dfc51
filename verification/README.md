# RepoTrial: a verified model of its hardening loop

RepoTrial boots a repository's Compose file in a sandbox, looks for risky settings, tries one hardening
mutation at a time against the repository's own journeys, keeps what still works, and reports one override
file that turns the baseline into the hardened document. This project models the parts of it that decide
what happens, and proves what they keep:

* **The Compose tree** (`ComposeValues`, `ComposeMerge`, `Overlay`, `OverlayFaithful`, `OverlayWhole`, `OverlayReset`): the
  loaded tree with its tags and key order, its canonical form and node budget, the override that is
  written for a candidate, and an independent definition of merging after the "Merge" section of the Compose
  Specification ("Reset value", "Replace value"), with any function for how two lists combine. The main result is a
  diff/patch theorem with its exact condition.
* **Findings and mutations** (`Risk`, `RiskFindings`, `VolumePrinting`, `Mutations`, `MutationLaws`, `MutationEffects`,
  `MutationRisk`, `MutationMeaning`, `Evidence`, `EvidenceLaws`): the risk analysis, what each finding means and what a volume entry is
  read as, the seven mutations as edits in place, their effect and frame, what they do to the score, their behaviour
  under reordering of keys, and the bounded copy of a finding's evidence.
* **Documents with aliases** (`SharedMutation`, `SharedReach`, `SharedDocument`, `SharedCandidate`, `SharedOverlay`,
  `SharedLasts`): the same mutations on Python objects that YAML aliases make shared, and exactly which documents they
  treat as the trees they stand for.
* **The run** (`Policy`, `PolicyHistory`, `PolicyLaws`, `Replay`, `Hardened`, `RunGraph`, `RunProofs`, `RunTheorems`,
  `RunFlow`, `RunCoverage`, `RunRecords`, `RunEnds`, `RunBaselines`, `RunPlans`): the policy, the stage machine with every boot,
  experiment and read-back chosen by the environment, and the theorems about every run: where each stage leads, what its inputs
  make of its boots, journeys and records, the chain of kept mutations, fresh ids, stale proposals, the length of a run, what the baseline's
  compatibility plan rules out, and the report's override.
* **The sandbox lifecycle** (`Lifecycle`, `LifecycleLog`): creation, body, destruction and template finalization, under failing audit
  writes, failing provider calls, cancellation of the caller at every wait, and cancellation of the cleanup task before
  its first step, while its call runs, and in the step in which the call ends.
* **Ports** (`Ports`, `PortPrinting`, `PortPlan`, `PortMeaning`, `SharedPorts`): the port-entry parser, a printer of every
  entry it reads, the plan that widens one publication, what that plan depends on, and what aliases among the entries do to it.
* **Texts** (`TextSearch`, `PrefixSearch`, `Truncation`, `PemScanner`, `PemBlocks`, `Credentials`, `CredentialLines`,
  `CredentialBlocks`): the failure-function search, and the redaction of truncated secrets, of private keys and of
  credential assignments, with what the latter two make of the blocks, lines and values as they are written.
* **YAML events** (`YamlEvents`, `YamlLaws`): the checks on the event stream, and the node graph it denotes.
* **Caches** (`FlightCache`, `FlightHistory`, `RepositoryCache`, `RepositoryLaws`): the bounded cache with one leader per key, in every
  interleaving, and
  the directory-size worklist that guards the repository cache's budget.

`Basics` holds the shared datatypes and Python's ordering of keys. Where the source works in place or in a loop, the
model is a class or a method with loop invariants, specified by a function, and the properties are lemmas about
that function. Where the source copies a value and works on the copy (the run, the document), the model is a value.
Hashing is a function parameter of which only determinism and the form of a digest are ever used.

Some properties one would expect turn out not to hold for every input; the code is then modelled as it is, and
a lemma proves exactly when the property holds, or names the inputs on which it fails:

* An override does not always restore its candidate (`OverlayFaithful.RestoresIffRestorable`): not when a tag is all that
  changed in a mapping, when a baseline mapping is itself tagged `!reset`, when the candidate holds a `!reset` sequence, or
  below nesting depth 128, which a loaded document can exceed through aliases.
* `SET_READ_ONLY` is refused although the finding is there when `read_only` is 1 or 1.0, which Python takes to equal
  `True`; and `apply_mutation` refuses an empty service name, which findings can carry.
* Two experiments can get the same id when one service's name is another's followed by `:after-tmpfs`
  (`PolicyHistory.TwinIdRepeats` gives such a history for every name); exactly when is `PolicyHistory.RecordedIffRepeats`.
* The alias check also refuses an acyclic stream (`YamlEvents.ShadowedIsRefused`): exactly when some alias names an anchor
  that is open while every alias stands for a node that is complete (`YamlEvents.AliasCheckRightIff`).
* The compatibility overlay does not merge to the widened file when the service itself is tagged `!reset` or the file's
  root is (for files as trees exactly then, `PortPlan.OverlayMergesToPatched`), and the report's override does not merge
  to the hardened file when the baseline's root is (`RunEnds.RunsEndHardened`).
* Widening a port entry in the long form changes other entries of the list that reach it through an alias, as in
  `ports: [&p {target: 80, published: 8080, host_ip: 127.0.0.1}, {target: 81, published: 8081, x-note: *p}]`
  (`SharedPorts.SecondEntryChanges`), and exactly then writes another list than planned (`SharedPorts.WidenedListIff`).
* A sandbox can be left behind: when the cleanup task is cancelled before its first step, as a loop that shuts down can
  do, `destroy` is never called, and that cancellation alone is raised (`Lifecycle.SandboxIsLeft`). Exactly then
  (`Lifecycle.NoSandboxIsAbandoned`). The other failures are gone whenever the task ends as cancelled and is not the only
  failure (`Lifecycle.NothingIsLost`). The finalization of a template is lost in the same way (`Lifecycle.ManagedTemplate`).
* A mutation reaches beyond its service when another top-level key shares the `services` mapping through an alias:
  `x-all: &s {web: {privileged: true}}` with `services: *s` (`SharedOverlay.TopLevelAliasChanges`). The overlay is then
  refused for a change outside the services (`SharedOverlay.CandidateAdmittedIff`).
* Removing the Docker socket changes other keys of the service that reach its `volumes` list through an alias, such as
  `volumes: &v [...]` with `x-mounts: *v` (`SharedOverlay.AliasedVolumesChange`). Together with the point before, these are
  all the documents on which the objects and the trees part: `SharedCandidate.DocumentIsMutatedIff`.
* A finding's evidence is copied without a marker and yet not as it is when it holds what a copy has no place for
  (`Evidence.EvidenceMirrorsIff`).
* The redaction of cut-off secrets can leave a secret's prefix before a truncation marker when a secret itself holds the
  marker's text (`Truncation.MarkedValueMisleads`). It leaves none when no secret does, nor in a text in which what those
  secrets have before the marker stands before no marker (`Truncation.NoPrefixBeforeMarkers`); and a redaction can reach
  back over another marker exactly when some value holds one (`Truncation.StaysBehindIff`).

The theorems about mutations, overlays and runs on trees speak of documents without that kind of sharing: no top-level key
but `services` reaches the services, and no key of a service but `volumes` reaches its volumes list. `SharedLasts.UnsharedLasts`
shows that a mutation keeps a document so.

## Model

| member | source | states |
|---|---|---|
| ComposeValues.CanonicalIffSameUpToKeyOrder | src/repotrial/compose/parser.py:221-327 | for all trees: canonical trees are equal iff the trees are equal up to the order of mapping keys, with tags and scalar kinds kept apart |
| ComposeValues.SameMeaningSameSupport | src/repotrial/compose/parser.py:230-327 | whether a tree can be canonicalised at all does not depend on key order |
| ComposeValues.NodeBudget.Consume | src/repotrial/compose/parser.py:46-52 | each node counts once, and the call fails exactly past 100000 |
| ComposeValues.CanonicalSequence | src/repotrial/compose/parser.py:293-310 | succeeds iff every item is supported and budget remains for all of them, and spends exactly the number of nodes of the items |
| ComposeValues.CanonicalMapping | src/repotrial/compose/parser.py:265-290 | the same for mappings, whose keys are sorted and counted besides their values |
| ComposeValues.CanonicalNode | src/repotrial/compose/parser.py:230-262 | succeeds iff the tree is supported and its values plus keys fit what is left of the budget, and then spends exactly that number; otherwise supported trees fail with the resource error |
| ComposeValues.CanonicalTree | src/repotrial/compose/parser.py:221-227 | one traversal with a fresh budget computes the canonical form whose equality the first row characterises |
| YamlEvents.ValidateEvents | src/repotrial/compose/parser.py:162-203 | the counters, the anchor stack and the count map of the loop find the first fault of the stream, as read off the whole prefix before it |
| YamlEvents.MapCountsStack | src/repotrial/compose/parser.py:166-198 | after every event of any stream the stack mirrors the open collections and the map holds how often each of their anchors is open |
| YamlEvents.HeldIffCounted | src/repotrial/compose/parser.py:166-198 | after every event of any stream an anchor is in the count map iff a collection then open carries it |
| YamlEvents.AcceptedIff | src/repotrial/compose/parser.py:162-218 | a stream passes iff it has one document, at most 100000 nodes, never more than 128 open collections, allowed tags, short integers, no unmatched end, and no alias to an open collection's anchor |
| YamlLaws.AcceptedLaw | src/repotrial/compose/parser.py:162-218 | the same told by counting events: one document, at most 100000 nodes, never more than 128 collections opened and not closed, no tag but the two of Compose, no integer beyond 4300 digits, no end without its beginning and no alias to the anchor of a collection that is open |
| YamlLaws.StackIsOpen | src/repotrial/compose/parser.py:166-198 | after every event the stack holds exactly the collections behind whose opening at no point more were closed than opened |
| YamlEvents.AcceptedIsAcyclic | src/repotrial/compose/parser.py:162-203 | every accepted stream denotes an acyclic node graph when an alias stands for the latest node with its anchor (section 3.2.2.2 of YAML 1.2.2) |
| YamlEvents.AcyclicIff | src/repotrial/compose/parser.py:174-198 | that graph has a cycle iff some alias stands for a collection that is still open |
| YamlEvents.RefusedIffCyclic | src/repotrial/compose/parser.py:174-198 | where no anchor is given again inside a collection that carries it, the alias check refuses exactly the cyclic streams |
| YamlEvents.AliasCheckRightIff | src/repotrial/compose/parser.py:174-198 | for every stream: the check agrees with cyclicity iff it accepts, or some alias stands for a node that is not complete |
| YamlEvents.ShadowedIsRefused | src/repotrial/compose/parser.py:174-198 | a stream for which it does not: acyclic and refused |
| Overlay.Compare | src/repotrial/compose/overlay.py:168-174 | the canonical comparison, with its failure for values that have no canonical form |
| Overlay.CompareIsSame | src/repotrial/compose/overlay.py:168-174 | between values that have a canonical form the comparison tells exactly equality up to key order; otherwise it fails |
| Overlay.BuildEdit | src/repotrial/compose/overlay.py:123-165 | what one candidate key contributes to the override: nothing, a reset, a replacement, or a nested override |
| Overlay.BuildServiceChanges | src/repotrial/compose/overlay.py:123-151 | the loops that fill the override in place give a reset for each dropped key, then the edit of each candidate key, or the first error |
| Overlay.BuildCumulativeOverlay | src/repotrial/compose/overlay.py:62-80 | the loop over the changed services gives the document the theorems below are about, or the first error |
| OverlayFaithful.ChangesField | src/repotrial/compose/overlay.py:123-151 | the override mentions a key iff its value differs or it was dropped, with the edit of that key or a reset |
| OverlayFaithful.NoDifferenceIsSame | src/repotrial/compose/overlay.py:90-120 | mappings without a differing entry have equal canonical trees |
| OverlayFaithful.RestoresIffRestorable | src/repotrial/compose/overlay.py:123-165 | diff/patch for mappings at any depth: the override exists and merging it over the baseline gives the candidate, iff the pair is restorable |
| OverlayFaithful.UntaggedRestorable | src/repotrial/compose/overlay.py:123-165 | every untagged candidate over a baseline without tags on mappings, within the depth limit, is restorable; differing values are never reported as unchanged |
| OverlayFaithful.TagOnlyChangeIsRefused | src/repotrial/compose/overlay.py:136-150 | dropping a mapping's tag alone is a difference for which the "unchanged" error is raised |
| OverlayFaithful.ResetMappingIsNotRestored | src/repotrial/compose/overlay.py:123-151 | a baseline mapping tagged to be reset, whose override loses a kept key: a concrete pair |
| OverlayFaithful.ResetSequenceIsNotRestored | src/repotrial/compose/overlay.py:159-165 | a changed candidate sequence tagged to be reset is never restored |
| OverlayWhole.ChangedServicesExact | src/repotrial/compose/overlay.py:90-120 | once the frame was admitted the changed services are found without error, each once, and are exactly those whose canonical trees differ |
| OverlayReset.DocumentRestoredIff | src/repotrial/compose/overlay.py:62-80 | for every admitted pair of documents, whatever is tagged: the cumulative overlay exists and merges to the candidate iff the candidate's root and `services` are not reset; over a reset root, all its other keys are; over services that are not reset, every changed service is restorable; and over reset ones, each changed service is restorable over nothing and each other one is reset |
| OverlayWhole.UntaggedDocumentRestored | src/repotrial/compose/overlay.py:62-165 | for every baseline without mapping tags and every untagged candidate with admitted changes, nested within 128 collections, merging the overlay gives the candidate |
| Risk.CheckScalarMode | src/repotrial/compose/risk.py:260-278 | the scan by indices decides whether the range spells comma-separated mount options |
| Risk.ScanShortVolume | src/repotrial/compose/risk.py:234-248 | the right-to-left scan returns a split only when it is the single acceptable one, and none only if there is not exactly one |
| Risk.CollectFindings | src/repotrial/compose/risk.py:64-85 | the list built in place is the per-service analysis, service by service, that the lemmas below are about |
| RiskFindings.FindingIff | src/repotrial/compose/risk.py:64-194 | a document has a finding iff its service of that name shows the risk: which values under which key, read under which tags, make each of the nine kinds |
| RiskFindings.FindingsOnce | src/repotrial/compose/risk.py:64-85 | no finding is reported twice |
| RiskFindings.ScoreLaw | src/repotrial/compose/risk.py:88-90 | the score is the sum of the weights of the findings, from 100 for a privileged service to 25 for a writable root file system or host mount |
| VolumePrinting.WrittenVolumeReads | src/repotrial/compose/risk.py:217-333 | every short entry written from a source, a target and any list of options is a bind of that source iff the source is a path of the host, and may be written to iff `ro` is not among the options |
| VolumePrinting.WrittenSocketReads | src/repotrial/compose/risk.py:164-194 | which of those entries are the Docker socket, the finding of the socket, and the finding of another host path |
| VolumePrinting.LongVolumeReads | src/repotrial/compose/risk.py:197-214 | what a long entry is read as |
| MutationRisk.FlagsAfter | src/repotrial/compose/mutations.py:71-126 | after an accepted mutation a service carries exactly its earlier findings less the kinds that mutation clears |
| MutationRisk.MutationLowersRisk | src/repotrial/compose/risk.py:64-194 | for every document and accepted mutation the score falls by exactly the severity of the cleared findings of that service, and no finding is new |
| MutationRisk.FindingIsActionable | src/repotrial/compose/mutations.py:71-126 | the four findings that settle the matter imply that their mutation is accepted |
| MutationRisk.ReadOnlyActionableIff | src/repotrial/compose/mutations.py:71-87 | SET_READ_ONLY is accepted iff the finding is there, the tag is readable, and the value is neither 1 nor 1.0 |
| MutationRisk.DropCapsActionableIff | src/repotrial/compose/mutations.py:71-87 | DROP_ALL_CAPS is accepted iff the tag is readable and `cap_drop` is not already the list of ALL alone |
| MutationRisk.OtherKeysKeepActionable | src/repotrial/compose/mutations.py:79-126 | a mutation stays acceptable through any change of the keys it does not read |
| Mutations.TargetService.Mutate | src/repotrial/compose/mutations.py:33-126 | the seven edits in place give the entries that the lemmas about mutations speak of, or the error with the entries as they were; what those entries are is MutationEffects.MutationEffect |
| Mutations.DeleteSockets | src/repotrial/compose/mutations.py:107-120 | deleting by index from the back leaves exactly the volumes that do not bind the Docker socket, in order |
| MutationLaws.ApplyMutationFrame | src/repotrial/compose/mutations.py:20-48 | on trees, which the files of `SharedCandidate.DocumentIsMutatedIff` behave as: an accepted mutation changes one key of one service, all other keys, services, tags and the order of keys are as before, and the document stays well formed |
| MutationLaws.MutationSatisfies | src/repotrial/compose/mutations.py:71-126 | a mutation just applied is refused as already satisfied, so none can be kept twice in a row |
| MutationEffects.MutationEffect | src/repotrial/compose/mutations.py:20-126 | the effect of each of the seven mutations on the document: the value under its key and nothing else; ADD_TMPFS leaves exactly the earlier mounts other than "/tmp", in order and each as often, and "/tmp" behind them, and REMOVE_DOCKER_SOCKET exactly the volumes that are no socket |
| MutationEffects.RefusedIff | src/repotrial/compose/mutations.py:71-126 | a mutation of a service is refused exactly for a tag or value it cannot read, or when the service already answers it, told value by value |
| MutationEffects.AppliesIff | src/repotrial/compose/mutations.py:20-68 | a mutation of a document is accepted iff it has an id, no parameters and names a service of the document that is a mapping, and that service does not refuse it |
| MutationMeaning.ApplyMutationMeaning | src/repotrial/compose/mutations.py:20-48 | documents (as trees) equal up to key order are accepted alike, refused with the same error, and mutated to documents equal up to key order |
| MutationMeaning.ApplyMutationChanges | src/repotrial/compose/mutations.py:20-48 | every accepted mutation changes the canonical meaning of the document (as a tree) and cannot be applied again |
| SharedMutation.AliasesAreSafe | src/repotrial/compose/mutations.py:20-48 | with objects shared through aliases, after the copies and edits in place the base document and every other service of the candidate unfold to the same trees as before; the other top-level keys are the matter of SharedCandidate |
| SharedMutation.KeyMutationIsExact | src/repotrial/compose/mutations.py:20-48 | on shared objects too, the target service unfolds to the tree the mutation of its unfolding gives |
| SharedMutation.SharedListLosesSockets | src/repotrial/compose/mutations.py:107-120 | a key of the service that is itself an alias of the list unfolds, afterwards, to the list without its socket entries |
| SharedDocument.SharedFieldDiffers | src/repotrial/compose/mutations.py:107-120 | any key of the service that reaches the list, however indirectly, means something else afterwards |
| SharedReach.UnreachedUnfolds | src/repotrial/compose/mutations.py:20-48 | after any edit of one object, whatever does not reach it, directly or through others, stands for the same tree as before |
| SharedReach.ReachedDiffers | src/repotrial/compose/mutations.py:20-48 | and whatever reaches it stands for a tree of another meaning, if the object itself does |
| SharedDocument.SocketRemovalExactIff | src/repotrial/compose/mutations.py:107-120 | the socket removal gives the service the tree that the mutation of its tree gives iff no key of the service but `volumes` reaches the list |
| SharedCandidate.DocumentIsMutatedIff | src/repotrial/compose/mutations.py:20-48 | the candidate document, on shared objects, stands for the mutation of the document's tree iff no top-level key but `services` reaches the services and, where a socket is removed, no key of the service but `volumes` reaches its list |
| SharedOverlay.RefusedAlike | src/repotrial/compose/mutations.py:20-48 | sharing makes no difference to which mutations are refused, nor to the error |
| SharedOverlay.CandidateAdmittedIff | src/repotrial/compose/overlay.py:90-120 | for every document and accepted mutation, which error the check of what changed gives: one for documents that have no canonical form, else one for a change outside the services iff another top-level key reaches them, else one for a service that is no mapping, else none |
| SharedOverlay.CandidateIsValid | src/repotrial/compose/mutations.py:20-48 | however its parts are shared, the candidate has no key twice in any mapping |
| SharedOverlay.TopLevelAliasChanges | src/repotrial/compose/mutations.py:20-48 | a concrete document, `services` an alias of another top-level key, for which the candidate is not the mutated tree: the other key changes as well |
| SharedOverlay.AliasedVolumesChange | src/repotrial/compose/mutations.py:107-120 | a concrete service, another key an alias of its volumes, for which the socket goes from both |
| SharedLasts.UnsharedLasts | src/repotrial/compose/mutations.py:20-48 | on a document without either kind of sharing every accepted mutation of every service is exact, and the candidate is without them again |
| Evidence.EvidenceBudget.Consume | src/repotrial/compose/risk.py:23-30 | takes one node iff one is left; never below zero |
| Evidence.EvidenceBudget.Reserve | src/repotrial/compose/risk.py:32-36 | takes the whole count or nothing |
| Evidence.JsonSafeValue | src/repotrial/compose/risk.py:403-442 | the recursive copy with its mutable budget computes the outcome and the remaining budget the lemmas below bound |
| Evidence.JsonSafeCollection | src/repotrial/compose/risk.py:445-503 | the loops over keys or items do so through every pending and halt path |
| Evidence.JsonSafeEvidence | src/repotrial/compose/risk.py:385-400 | the entry point, on the evidence's own keys |
| Evidence.ValueNests | src/repotrial/compose/risk.py:403-503 | for every object graph the budget only falls and no copy nests past the levels left |
| Evidence.ValueFits | src/repotrial/compose/risk.py:403-503 | a value without cycles whose cost fits the budget and whose height fits the levels is copied as without limits and uses exactly its cost |
| Evidence.ValueMarks | src/repotrial/compose/risk.py:403-527 | any copy is that of a copier without budget and limits, or says with a marker that something is missing |
| Evidence.EvidenceIsExactOrMarked | src/repotrial/compose/risk.py:385-400 | for whole evidence: never past 48 levels, the unlimited copy when it fits 10000 nodes, marked otherwise |
| Evidence.CopyMirrorsIff | src/repotrial/compose/risk.py:403-527 | the unlimited copy of an object shows it as it is, tags, kinds and children, iff nothing in it is without a place in a copy: a cycle, an unknown tag or scalar, a key that is no string |
| Evidence.EvidenceMirrorsIff | src/repotrial/compose/risk.py:385-400 | evidence copied without a marker is shown as it is iff it holds nothing of that kind |
| EvidenceLaws.EvidenceIsShown | src/repotrial/compose/risk.py:385-503 | a copy of any evidence holds `$evidence_unsupported` with depth_limit or node_limit, or shows all of it: the keys sorted, each with its own object, `$yaml_tag` beside `value`, null for what JSON cannot hold and for an object inside itself |
| EvidenceLaws.TooManyKeys | src/repotrial/compose/risk.py:385-389 | evidence with more than 9999 keys is the node_limit marker alone |
| EvidenceLaws.EndlessIsCut | src/repotrial/compose/risk.py:403-503 | lists inside lists without end are shown 46 deep around the depth_limit marker |
| Policy.CollectCandidates | src/repotrial/hardening/policy.py:57-83 | the dictionary built in the loop holds, for each untried pair of mutation and service, the highest severity among its findings |
| Policy.TakeFirst | src/repotrial/hardening/policy.py:76-86 | the candidate that comes first by mutation rank, then by the higher severity, then by service name |
| Policy.ProposeMutation | src/repotrial/hardening/policy.py:37-86 | stops for the first reason that applies, else follows up on the last experiment, else proposes the first candidate |
| Policy.DecidesUnique | src/repotrial/hardening/policy.py:37-146 | the relation the policy is specified by admits one decision per state |
| PolicyLaws.DecisionLaw | src/repotrial/hardening/policy.py:37-86 | a proposal follows every history that has no STOP, is shorter than eight and does not end in three roll-backs, after a journey passed, as long as a follow-up or an untried finding remains; otherwise the policy stops for the first of its reasons |
| PolicyLaws.MostUrgentFirst | src/repotrial/hardening/policy.py:57-86 | a proposal that is no follow-up is for the most urgent type any open finding asks for, of that for a service with a finding as severe as any, and of those for the first by name |
| Policy.ReplayJourneys | src/repotrial/hardening/engine.py:773-812 | KEEP iff the boot and every replayed journey pass; the replay stops behind the first one that does not |
| PolicyHistory.ProposalShape | src/repotrial/hardening/policy.py:53-146 | every proposal is an allowed ADD_TMPFS or retry on the service just tried, or a first try of a candidate |
| PolicyHistory.ProposalsNameFindings | src/repotrial/hardening/policy.py:57-146 | in every history each experiment is on a service some baseline finding names |
| PolicyHistory.RepeatIsRetry | src/repotrial/hardening/policy.py:125-160 | in every history a pair of mutation and service returns only as the permitted retry |
| PolicyHistory.ReadOnlyAtMostTwice | src/repotrial/hardening/policy.py:125-160 | hence SET_READ_ONLY is tried at most twice on a service |
| PolicyHistory.TmpfsOnce | src/repotrial/hardening/policy.py:111-146 | and ADD_TMPFS at most once |
| PolicyLaws.TmpfsProposedIff | src/repotrial/hardening/policy.py:93-122 | in every history ADD_TMPFS is asked for exactly when the last experiment made the service read-only, was rolled back and changed /tmp, and the service never had ADD_TMPFS |
| PolicyLaws.RetryProposedIff | src/repotrial/hardening/policy.py:125-146 | in every history SET_READ_ONLY is asked for again exactly when ADD_TMPFS was just kept on the service, right behind such an experiment, and does not hash like its parent |
| PolicyHistory.RecordedIffNamesCollide | src/repotrial/agent/graph.py:1459-1462 | in every history the next proposal's id is already recorded iff two service names collide through the retry suffix |
| PolicyHistory.RecordedIffRepeats | src/repotrial/agent/graph.py:1459-1462 | in terms of what was tried: iff the proposal is the retry for a service whose name with the suffix was tried, or the first try on a service named like the retry of one that was tried twice |
| PolicyHistory.TwinIdRepeats | src/repotrial/agent/graph.py:1459-1462 | for every service name a concrete history of the policy after which the next proposal has the id of a recorded one |
| PolicyHistory.FreshIds | src/repotrial/hardening/policy.py:53-146 | when no finding's service is another's name with that suffix, as with names free of colons, every proposal's id is fresh |
| Replay.ReplayExperiments | src/repotrial/agent/graph.py:1541-1563 | the loop over the experiments replays the chain of kept mutations or fails on the first record that does not fit |
| Replay.ReplayCounts | src/repotrial/agent/graph.py:1541-1565 | a chain that replays ends on the hash of the last kept record and counts the kept ones |
| Replay.SameMeaningSameHash | src/repotrial/agent/graph.py:1849-1851 | documents equal up to key order hash alike, so a file written and read back keeps its hash |
| Hardened.DerivedMeaning | src/repotrial/agent/graph.py:1541-1567 | key order makes no difference to what a document derives from |
| Hardened.DerivedChanged | src/repotrial/compose/overlay.py:62-165 | what kept mutations lead to always has changed services that can be restored, if any service differs |
| Hardened.DerivedRestored | src/repotrial/compose/overlay.py:62-165 | and its cumulative overlay exists and merges back to it |
| RunProofs.ChainStarts | src/repotrial/agent/graph.py:320-420 | the baseline stage starts the chain invariant, whether the file needs a compatibility overlay, needs none, or cannot be planned for and stops the run |
| RunProofs.EngineNeverObjects | src/repotrial/hardening/engine.py:322-352 | the chain invariant makes the engine's parent and path checks pass |
| RunProofs.EngineMakes | src/repotrial/hardening/engine.py:302-350 | a record the engine returns fits the run: its parent is the current hash, its candidate the hash of the mutated current file |
| RunProofs.KeepKeepsChain | src/repotrial/agent/graph.py:1464-1472 | keeping an experiment, with the written file read back in any key order, keeps the chain invariant |
| RunProofs.RecordKeepsChain | src/repotrial/agent/graph.py:1468-1475 | recording an experiment that was not kept does too |
| RunTheorems.StepKeepsInv | src/repotrial/agent/graph.py:294-1510 | every stage, whatever the environment answers, keeps the invariant of the chain of kept mutations, of the counters and of the pending proposal; what the boots, journeys and experiments make of a run is RunCoverage and RunRecords |
| RunTheorems.RunInv | src/repotrial/agent/graph.py:150-181 | the invariant holds after any number of stages of any run, and the history has one entry a stage |
| RunTheorems.RunsAreShort | src/repotrial/agent/graph.py:1611-1614 | no run has more than 42 stages, so the limit of 64 never fires; boot attempts stay at most 4, repeated errors at most 3 |
| RunFlow.RunFollows | src/repotrial/agent/graph.py:150-181 | in every run: the baseline takes findings and hashes from the chosen file and boots iff nothing is wrong around it and its ports can be planned for, else stops; a proposal is tried and a stop of the policy ends the run with its reason, whatever decision the policy allows; a report without a stop proposes again, with one it ends; the other stages lead where the edges say |
| RunFlow.HistoryIsTrail | src/repotrial/agent/graph.py:1611-1614 | the history of every run is the list of the stages it went through |
| RunCoverage.BootsByInputs | src/repotrial/agent/graph.py:463-848 | in every run, by its inputs alone: the boots are stages 2 to 6; a failed boot that says to retry or to set the environment is followed by another, unless all four failed with one fingerprint or four were made; every other boot leads to the journeys or to the stop its result names |
| RunCoverage.ExperimentsNeedCoverage | src/repotrial/agent/graph.py:1178-1217 | behind every experiment, decision and record of every run stands a boot with a journey that passed |
| RunCoverage.CoverageIsEnough | src/repotrial/agent/graph.py:1178-1217 | after such a boot no run stops with insufficient_coverage, unless the engine itself raises that |
| RunCoverage.NoCoverageStops | src/repotrial/agent/graph.py:1178-1217 | after a boot none of whose journeys passed, every run stops with insufficient_coverage and without an experiment |
| RunRecords.RecordsComeFromInputs | src/repotrial/agent/graph.py:1227-1484 | every record of every run is what the engine reported of that experiment: KEEP iff the sandbox booted and every journey, of at least one, passed, ROLLBACK iff the boot failed or the first journey that did not pass failed, and /tmp as reported |
| RunRecords.RunExperimented | src/repotrial/agent/graph.py:1227-1452 | in every run an experiment goes to its decision iff the proposal applies and the engine gives a result; otherwise the run stops |
| RunRecords.RunDecided | src/repotrial/agent/graph.py:1455-1484 | in every run the decision appends the record, only a STOP ends the run, and only a KEEP moves the current configuration |
| RunEnds.StaleProposalApplies | src/repotrial/compose/mutations.py:20-48 | in every reachable state a first proposal drawn from the baseline's findings applies to the current file iff its service name is not empty and it applied to the baseline |
| RunEnds.SettledProposalsApply | src/repotrial/hardening/policy.py:57-86 | so DROP_PRIVILEGED, REMOVE_DOCKER_SOCKET, SET_NON_ROOT and BRIDGE_NETWORK are never refused on the current file |
| RunEnds.OverlayWrittenIff | src/repotrial/compose/overlay.py:22-38 | the experiment's overlay can be written for an applied proposal iff every service of the file is a mapping, on files whose services no other top-level key reaches |
| RunEnds.EngineChecksPass | src/repotrial/hardening/engine.py:436-453 | in every reachable state the recomputed accepted path is the run's path and the engine never objects |
| RunEnds.DuplicateIffNamesCollide | src/repotrial/agent/graph.py:1459-1462 | the duplicate check fires in a reachable state iff two service names collide |
| RunEnds.DuplicateIffRepeats | src/repotrial/agent/graph.py:1459-1462 | in terms of what the run tried, as in `PolicyHistory.RecordedIffRepeats` |
| RunEnds.DuplicateCheckIsDead | src/repotrial/agent/graph.py:1455-1484 | in no run whose findings are on no two services S and S + ":after-tmpfs" does the check fire or the decision stage raise |
| RunEnds.OnlyDuplicatesCrash | src/repotrial/agent/graph.py:1455-1484 | after the baseline, of the ways to raise that the model has, no stage takes any but that check; cleanup errors, cancellation and checks of files that raise are not part of this model |
| RunEnds.HardenedIffKept | src/repotrial/agent/graph.py:1512-1608 | the terminal replay rejects no reachable run with at least one KEEP and accepts none without; what it gives is the overlay between the two ends |
| RunEnds.HardenedRestores | src/repotrial/agent/graph.py:1512-1608 | the hardened overlay merged over the baseline is the file the run ended on, iff the baseline's root is not tagged to be reset |
| RunEnds.RunsEndHardened | src/repotrial/agent/graph.py:1486-1608 | every run that ends reports a hardened overlay iff something was kept; it merges to the file the run ended on iff the baseline's root is not tagged to be reset |
| RunBaselines.PlanMeansNoHostNetwork | src/repotrial/compose/compatibility.py:121-163 | a document that gets past the compatibility plan has no finding of host networking |
| RunBaselines.BridgeNetworkIsNeverTried | src/repotrial/agent/graph.py:356-377 | so no run ever experiments with BRIDGE_NETWORK: a file with the finding that asks for it stops at the baseline |
| RunBaselines.PlanStays | src/repotrial/agent/graph.py:892-938 | in every run, at every experiment, planning for the current file succeeds as it did for the baseline, selects the same binding, and gives an overlay equal up to key order |
| RunPlans.PlanIsTheSame | src/repotrial/agent/graph.py:892-938 | in every run whose written files read back with their keys in order the two overlays are equal to the letter, so that their bytes, which the check compares, are the same |
| RunBaselines.OverlaysAreWritten | src/repotrial/compose/overlay.py:22-38 | in every run every service of the current file is a mapping, and the overlay of every proposal that applies is written |
| Ports.SplitShortParts | src/repotrial/compose/compatibility.py:220-247 | the scan with its bracket flag cuts at the colons outside brackets, or refuses |
| Ports.SplitJoin | src/repotrial/compose/compatibility.py:220-247 | joining the parts with colons gives the body back, and each part would be one part by itself |
| Ports.JoinedSplits | src/repotrial/compose/compatibility.py:220-247 | splitting what was joined from such parts gives the parts back |
| Ports.WidenedShortReparses | src/repotrial/compose/compatibility.py:176-262 | the rewritten short entry parses to what the entry it replaces does, on every address; what that is, PortPrinting.WrittenEntryReads says |
| Ports.WidenedEntryReparses | src/repotrial/compose/compatibility.py:265-351 | so does any rewritten entry, short or long; entries without short parts are mappings |
| PortPrinting.WrittenEntryReads | src/repotrial/compose/compatibility.py:176-262 | round trip from the written side: for every published and target port as digits or as the default of a variable, with or without leading zeros, every host form and every protocol suffix, the entry is read as that binding; out of range or without an address it is refused |
| PortPrinting.ReadEntryIsWritten | src/repotrial/compose/compatibility.py:176-262 | and nothing else is read: every entry that is read is written so |
| PortPrinting.PortReads | src/repotrial/compose/compatibility.py:319-351 | a written port is read as its number from 1 to 65535 and refused otherwise |
| PortPrinting.PlainHost | src/repotrial/compose/compatibility.py:176-247 | any text without a colon, slash, dollar or brace can stand as the host |
| PortPrinting.LongEntryReads | src/repotrial/compose/compatibility.py:265-316 | a long entry is read as the binding its fields say |
| PortPrinting.ShortEntryReads | src/repotrial/compose/compatibility.py:166-173 | a text among the entries is read as a short one |
| PortPlan.CollectPorts | src/repotrial/compose/compatibility.py:136-147 | the bindings of one service's list, in order, or the first error, each entry read as PortPrinting has it |
| PortPlan.CollectBindings | src/repotrial/compose/compatibility.py:121-147 | the bindings of all services, in order, or the first error |
| PortPlan.SelectedStandsAlone | src/repotrial/compose/compatibility.py:82-113 | the single matching binding is planned for iff no other shares its published port and protocol |
| PortPlan.PatchedBindings | src/repotrial/compose/compatibility.py:354-390 | in the widened file all bindings are as before, in order, but for the widened one |
| PortPlan.PlannedOnce | src/repotrial/compose/compatibility.py:82-113 | planning the widened file again yields nothing |
| PortPlan.HostNetworkStopsPlanning | src/repotrial/compose/compatibility.py:150-163 | a service with the host-network finding makes planning fail |
| PortPlan.OverlayMergesToPatched | src/repotrial/compose/compatibility.py:354-390 | for every file as a tree: the overlay merged over it is the widened file iff neither its root nor the service is itself tagged to be reset; which files the edit in place treats as trees is SharedPorts.WidenedListIff |
| SharedPorts.WidenedListIff | src/repotrial/compose/compatibility.py:354-390 | with entries shared through aliases: setting the host of a long entry in place, in the copied document, leaves the list that the tree's plan has iff no other entry of the list reaches the widened one |
| SharedPorts.ShortWidenedIs | src/repotrial/compose/compatibility.py:354-390 | replacing a short entry always does |
| SharedPorts.LoopbackHost | src/repotrial/compose/compatibility.py:265-303 | a long entry that is planned for names a host other than 0.0.0.0, so that widening changes it |
| SharedPorts.SecondEntryChanges | src/repotrial/compose/compatibility.py:354-390 | a concrete list of two entries, the second referring to the first: widening the first changes both |
| PortMeaning.PlanDependsOnPublishing | src/repotrial/compose/compatibility.py:82-147 | the plan depends on nothing but what each service has under `ports` and `network_mode`, up to the order of all keys: files alike there get no overlay, or overlays that widen the same binding and mean the same |
| PrefixSearch.FailureFunction | src/repotrial/trial/boot.py:818-826 | the array filled in place holds, for every prefix, its longest proper border |
| PrefixSearch.LongestPrefixAtEnd | src/repotrial/trial/boot.py:811-827 | for every value and text the result is at least the greatest k for which the text ends with the value's first k characters, and equals it for every value that has no NUL in front or nothing but NULs |
| PrefixSearch.NoLongBorder | src/repotrial/trial/boot.py:815-818 | the separator grown past the suffix's NULs keeps borders from crossing it |
| PrefixSearch.SearchExactIff | src/repotrial/trial/boot.py:811-827 | those are exactly the values that are searched for rightly in every text: any other is misjudged in some text; such values are refused before they can become sensitive (boot.py:533) |
| Truncation.LongestAmong | src/repotrial/trial/boot.py:798-804 | the longest prefix of any sensitive value at the end of the text before a marker, exactly for the values of `PrefixSearch.SearchExactIff` |
| Truncation.RedactTruncatedPrefixes | src/repotrial/trial/boot.py:791-808 | the loop over the markers from last to first, in place, redacts exactly the longest such prefix before the place each marker had at the start |
| Truncation.LoopIsRedacted | src/repotrial/trial/boot.py:791-808 | under the same condition as `Truncation.NoPrefixBeforeMarkers` the loop gives the text from left to right, with the longest sensitive prefix before each of its markers replaced, although it edits from right to left and keeps the old indexes |
| Truncation.StaysBehindIff | src/repotrial/trial/boot.py:796-807 | in every text each redaction leaves the start of the marker before it, iff no value holds a whole marker |
| Truncation.MarkedValueMisleads | src/repotrial/trial/boot.py:796-807 | three values, one of which holds a marker, and a text after which a prefix of another stands before a marker |
| Truncation.NoPrefixBeforeMarkers | src/repotrial/trial/boot.py:791-808 | for values that hold no whole marker and any text, line breaks or not, and for others in any text where what such a value has before its marker stands before no marker and is nothing a redaction ends with: in the output, before each truncation marker stands a redaction or no sensitive prefix at all |
| PemScanner.FindFooter | src/repotrial/trial/boot.py:748-757 | the end of the first recognised footer at or after a position, none if there is none |
| PemScanner.RedactPrivateKeys | src/repotrial/trial/boot.py:726-745 | for every text the scan ends, and keeps everything outside the private-key blocks, in order, with one redaction a block |
| PemScanner.NoKeyLeft | src/repotrial/trial/boot.py:726-780 | the output holds no private-key header the scan would recognise, not even one a redaction helped to form |
| PemScanner.ScrubbingSettles | src/repotrial/trial/boot.py:726-780 | scrubbing the output again changes nothing |
| PemBlocks.BlockGoes | src/repotrial/trial/boot.py:726-780 | a block from a header of five dashes, BEGIN, a label that ends with PRIVATE KEY and five dashes, to the first such footer, is replaced by one redaction; the text before it and behind it is kept |
| PemBlocks.OpenBlockGoes | src/repotrial/trial/boot.py:726-780 | without a footer everything from the header on goes |
| PemBlocks.OtherBlockKept | src/repotrial/trial/boot.py:760-780 | a block with any other label is kept |
| PemBlocks.NoHeaderKept | src/repotrial/trial/boot.py:726-745 | a text without the beginning of a header is kept |
| Lifecycle.RecordKeeps | src/repotrial/sandbox/lifecycle.py:92-112 | a record stops nothing and drops nothing: the log only grows, by that event or, when the write fails, by nothing, and then the failure is among those kept; all failures of writes so far are kept |
| Lifecycle.CloseKeeps | src/repotrial/sandbox/lifecycle.py:115-119 | closing the audit file ends the log whether or not it fails, and a failure is kept with the earlier ones |
| Lifecycle.BodyIsDone | src/repotrial/sandbox/lifecycle.py:328-341 | behind a created sandbox the body starts iff the record of its creation was written, what was logged stays, and every failure of the body and of the writes is kept |
| Lifecycle.Outcome.AwaitCleanup | src/repotrial/sandbox/lifecycle.py:344-350 | the wait for the cleanup task collects every cancellation of the caller and lasts until the task is done, returned or cancelled |
| Lifecycle.Outcome.RetryCleanup | src/repotrial/sandbox/lifecycle.py:182-232 | a partly created sandbox is destroyed and recorded before the failure is raised, unless the task ends as cancelled, which is then raised at once |
| Lifecycle.Outcome.Destroy | src/repotrial/sandbox/lifecycle.py:343-362 | destruction, its record and what is raised at the end, or the cancellation of the task, raised at once, as the session whose log LifecycleLog.LogOfSession gives |
| Lifecycle.ManagedSandbox | src/repotrial/sandbox/lifecycle.py:290-362 | the whole context manager, in every environment of the model, as the session the theorems are about; its log is that of LifecycleLog.LogOfSession |
| Lifecycle.DrainExact | src/repotrial/sandbox/lifecycle.py:122-138 | the caller gets the task's result with every cancellation of its own; the task does nothing but destroy, an ended call is in the log iff it got its first step, and what it returns is how the last call ended |
| Lifecycle.RaiseOutcomeCarries | src/repotrial/sandbox/lifecycle.py:147-179 | what is raised carries exactly the recorded failures, as a multiset, besides the cause its primary already had |
| Lifecycle.NothingIsLost | src/repotrial/sandbox/lifecycle.py:290-362 | in every environment none is raised iff nothing failed, and the exception raised carries every body, create, destroy, audit and caller-cancellation failure that happened, each as often, iff the cleanup task did not end as cancelled or that is the only failure |
| Lifecycle.NoSandboxIsAbandoned | src/repotrial/sandbox/lifecycle.py:290-362 | for every id that `create` gave away, partly or not: control leaves with its `destroy` call ended iff the cleanup task got its first step, with the file closed iff the task did not end as cancelled, and it does leave iff the task ends; the records are the matter of LifecycleLog.OutcomeIsRecorded |
| Lifecycle.SandboxIsLeft | src/repotrial/sandbox/lifecycle.py:343-351 | a concrete session in which nothing else fails and `destroy` is never called |
| LifecycleLog.LogOfSession | src/repotrial/sandbox/lifecycle.py:182-362 | the whole log of every session that ends, entry by entry: each record by its name, left out only if its own write fails, the calls of `destroy`, one and one more for each cancellation the task swallowed, the end of the last, its record and the closing |
| LifecycleLog.OutcomesAreBacked | src/repotrial/sandbox/lifecycle.py:182-362 | in every session, ended or waiting, a record of success or failure of a destruction or of its retry stands right behind the end of a `destroy` call of that sandbox with that outcome, and a record of a failed creation behind the call of `create` |
| LifecycleLog.OutcomeIsRecorded | src/repotrial/sandbox/lifecycle.py:210-229 | when control leaves and the task did not end as cancelled, the one `destroy` call that ended is followed by the record of its outcome and the closing; only a failure of that write, the last one, leaves it out |
| LifecycleLog.CreatedIs | src/repotrial/sandbox/lifecycle.py:301-362 | the log of a created sandbox, and what is raised: a failed destruction with all else, or the body's failure first, then the first cancellation, then the first failed write |
| LifecycleLog.PartialLogIs | src/repotrial/sandbox/lifecycle.py:182-232 | the same for a partly created sandbox |
| Lifecycle.BodyNeedsItsRecord | src/repotrial/sandbox/lifecycle.py:301-341 | the body runs iff both creation records were written and `create` succeeded |
| Lifecycle.FinalizeTemplate | src/repotrial/sandbox/lifecycle.py:242-262 | the shielded wait for the finalization collects every cancellation of the caller and ends with the task's result |
| Lifecycle.FinalizedIff | src/repotrial/sandbox/lifecycle.py:242-262 | once the task is done, the finalizing call has ended iff the task got its first step |
| LifecycleLog.FinalizedAt | src/repotrial/sandbox/lifecycle.py:242-262 | the result of a finalization is what the first event that ends its task says, with the caller's cancellations until then in order |
| LifecycleLog.NotFinalized | src/repotrial/sandbox/lifecycle.py:242-262 | without such an event the caller is still waiting |
| Lifecycle.ManagedTemplate | src/repotrial/sandbox/lifecycle.py:265-288 | control leaves with the finalization ended iff its task got its first step; a failed finalization names every failure, otherwise the body's failure comes first; a task that ends as cancelled raises that alone, and loses the rest iff there is any |
| FlightCache.Client.Claim | src/repotrial/local_web/git_metadata.py:237-260 | a fresh entry is served, an expired one dropped, a flight joined, or the caller made the one leader |
| FlightCache.Client.Store | src/repotrial/local_web/git_metadata.py:262-280 | replaces the key's entry, drops the oldest entries until the new one fits, and keeps the byte counter true |
| FlightCache.Client.MakeRoom | src/repotrial/local_web/repository.py:455-463 | the loop drops exactly the shortest oldest-first prefix that makes room |
| FlightCache.Client.Remove | src/repotrial/local_web/git_metadata.py:282-285 | drops the key's entry, if any, with its bytes |
| FlightCache.Client.Release | src/repotrial/local_web/git_metadata.py:133-141 | takes the leader's flight off and gives the event to set |
| FlightCache.StoredIsBounded | src/repotrial/local_web/repository.py:437-463 | storing keeps both limits and drops a shortest oldest-first prefix |
| FlightCache.ReleaseKeeps | src/repotrial/local_web/git_metadata.py:133-141 | a leader's release sets its event and keeps the invariant of all threads |
| FlightCache.EveryInterleaving | src/repotrial/local_web/repository.py:371-435 | after every interleaving of calls the counter is the sum of the sizes, the limits hold, a key has at most one leader, and every event in flight belongs to a live leader |
| FlightCache.WaitersAreWoken | src/repotrial/local_web/git_metadata.py:102-141 | a waiting thread has a leader whose release lets it go on |
| FlightCache.ClientLimits | src/repotrial/local_web/repository.py:28-33 | in every interleaving the two clients stay within 16 entries and 16 MiB, and 64 entries and 8 MiB |
| FlightHistory.HitIsFresh | src/repotrial/local_web/git_metadata.py:237-260 | in every interleaving a hit finds the entry its key's leader stored last, less than its time to live before |
| FlightHistory.EntriesAreStored | src/repotrial/local_web/git_metadata.py:262-285 | in every interleaving each entry of the cache is the last one a leader of its key stored |
| FlightHistory.StoredIsFound | src/repotrial/local_web/git_metadata.py:237-280 | what a leader stores is found by the next claim until its time to live is over, and not any longer |
| RepositoryCache.TreeSize | src/repotrial/intake/repository_cache.py:668-703 | the worklist returns the recursive weighted sum for every tree, and raises iff an entry is unsupported, the entries exceed the scan limit or the sum exceeds the size limit |
| RepositoryCache.OrderDoesNotMatter | src/repotrial/intake/repository_cache.py:668-703 | the sum, the count, support and hence whether a tree can be measured do not depend on the order in which any directory is scanned, at any depth |
| RepositoryCache.PermutedIsSame | src/repotrial/intake/repository_cache.py:668-703 | two listings of the same entries, in any order, are such reorderings of each other |
| RepositoryCache.Cache.Retained | src/repotrial/intake/repository_cache.py:276-288 | the sum of the retained entries, each measured within what the earlier ones left |
| RepositoryCache.Cache.Budget | src/repotrial/intake/repository_cache.py:646-665 | the source's budget, or none when its repository or worktree cannot be measured |
| RepositoryCache.Cache.Store | src/repotrial/intake/repository_cache.py:245-426 | one store, with every early refusal and the eviction of an owned shallow entry |
| RepositoryCache.StoreInBudget | src/repotrial/intake/repository_cache.py:276-417 | one store keeps the budget, whatever git built in between |
| RepositoryCache.CacheStaysInBudget | src/repotrial/intake/repository_cache.py:41-48 | any sequence of stores keeps at most 16 entries of at most 128 MiB each and 512 MiB in all |
| RepositoryCache.MeasuringFails | src/repotrial/intake/repository_cache.py:280-288 | within the budget the retained entries fail to measure only for an entry that is itself unmeasurable |
| RepositoryLaws.MeasureLaw | src/repotrial/intake/repository_cache.py:668-703 | the size, the count and the support of a tree are those of the list of everything in it at any depth |
| RepositoryLaws.StoreLaw | src/repotrial/intake/repository_cache.py:245-426 | which entries a store leaves: exactly when the new one is published behind the others, in which limits, and what is dropped before |
| Credentials.FindQuotedEnd | src/repotrial/journey/http_runner.py:391-401 | where a quoted text ends, past escaped characters, and whether it was closed |
| Credentials.FindAssignment | src/repotrial/journey/http_runner.py:404-435 | the key and the start of the value, if an assignment starts at the position; what is one, CredentialLines says |
| Credentials.FindValueEnd | src/repotrial/journey/http_runner.py:438-458 | the end of an assignment's value, always in bounds and not before its start |
| Credentials.ValueStops | src/repotrial/journey/http_runner.py:438-458 | a value without quotes ends with its line or right before another assignment |
| Credentials.ScanTile | src/repotrial/journey/http_runner.py:474-497 | every turn of the scan makes progress and finds the next tile of the line |
| Credentials.TilesCover | src/repotrial/journey/http_runner.py:474-497 | the tiles lie side by side from left to right, cover the line, and each is what stands there |
| Credentials.TilesAreUnique | src/repotrial/journey/http_runner.py:474-497 | there is one such tiling only |
| Credentials.CredentialsAreCaught | src/repotrial/journey/http_runner.py:461-499 | wherever a credential assignment, as the scan finds them, starts, its value is redacted there or lies inside a tile that began before |
| Credentials.RedactLine | src/repotrial/journey/http_runner.py:471-498 | the line's text outside secret values, in order, each value replaced, and the block the line opens |
| CredentialLines.CredentialRedacted | src/repotrial/journey/http_runner.py:404-498 | for every key of a credential, bare or closed in quotes, at the start of a line or behind text without a sign or quote that ends in white space (after a dash or not), a bracket or a comma, either sign and any blanks around it, and every value without a quote and without a later assignment: the output is the text up to the value, the redaction and the line's ending |
| CredentialLines.QuotedRedacted | src/repotrial/journey/http_runner.py:438-442 | of a quoted value the quoted text goes and what stands behind it stays |
| CredentialLines.TwoAssignments | src/repotrial/journey/http_runner.py:438-498 | of two assignments on a line each value is redacted iff its key is a credential's, and all else stays, the separator included |
| CredentialLines.SignlessKept | src/repotrial/journey/http_runner.py:404-435 | a line without a colon and an equals sign is given out as it is |
| Credentials.PlainLineKept | src/repotrial/journey/http_runner.py:471-498 | a line without a credential's value is kept as it is |
| Credentials.DroppedIff | src/repotrial/journey/http_runner.py:463-469 | a line is dropped iff an earlier kept line opened a block that every line since belongs to |
| CredentialBlocks.CredentialOpens | src/repotrial/journey/http_runner.py:489-492 | a credential's line opens a block, at the column of its key, iff its value is white space or begins with a block sign |
| CredentialBlocks.BlockRedacted | src/repotrial/journey/http_runner.py:461-499 | the deeper and blank lines behind it are dropped, up to the first line that is not; that one is redacted like any other |
| Credentials.RedactAssignments | src/repotrial/journey/http_runner.py:461-499 | the text is the kept lines, each redacted, in order |

## Left out

- Docker, git, HTTP, Playwright, the web server, the command line and the reports: input and output; the environment chooses what they answer.
- Files, links, permissions and their identities: a file that was written reads back with the same canonical form, in any key order.
- SHA-256, JSON and YAML texts: the canonical tree is compared itself; a digest is any function into 64 hexadecimal digits with its prefix; events are given, not parsed.
- `ipaddress`, Unicode character classes and the list of credential keys: function parameters.
- `ipaddress` apart, what is asked of the character classes is that white space is in no key, and neither are signs, quotes and brackets (`CredentialLines.Sane`).
- Keys that are not strings: the loader refuses them before any of this code runs.
- The canonicaliser's check for cycles among Python objects: the trees of `ComposeValues` are finite; that accepted streams are acyclic is shown in `YamlEvents`.
- Resuming a run from a checkpoint: runs start with no experiments and no file under the directory of accepted documents.
- Whether an observation shows a change under /tmp: one flag of a record, chosen by the environment.
- The sorting of findings by the report and their identifiers: presentation.
- Recovery actions and boot verdicts: arbitrary inputs of the boot stage; the planner, image templates and startup inputs are not part of this model.
- Runtime-template evidence files: logging.
- The cooldown after a rate limit, the cache of latest revisions and the lengths of timeouts: clocks.
- `_BoundedGzipReader`, archive reading, and the choice of a Compose file in a repository: short validations that would add only easy members.
- Restoring and pinning of cached repositories and the git steps of a store: the environment; a store is given the entry git built.
- The redaction of bearer tokens, JSON bodies and environment assignments by regular expression: libraries.
- The two collection copiers of the evidence are one method, for they differ in what they reserve and in their keys; the set of active objects is passed as a value.
- Evidence.JsonSafeValue: the objects are a function from identities to their contents and are not changed while they are copied.
- RunTheorems.StepKeepsInv: the run is a value, as the source copies it before every change; objects shared between two copies are not modelled.
- MutationLaws.ApplyMutationFrame: stated on trees; on objects shared through aliases it holds exactly for the documents of `SharedCandidate.DocumentIsMutatedIff`.
- RunEnds.OnlyDuplicatesCrash: cleanup errors, cancellation and the checks of files that raise in `_experiment` and `_decide` are not modelled.
- RunEnds.OverlayWrittenIff: the files of a run are trees; runs on files in which another top-level key reaches the services, or another key of a service its volumes, are left out, and a written file is taken to read back with no more sharing than it was written with.
- Credentials.RedactAssignments: takes the lines of the text with their endings, for what ends a line is a table of Python's library.
- Lifecycle.NothingIsLost: a cancellation of the cleanup task while its `destroy` call runs is swallowed by the task, which calls again; it is not among the failures that are carried. Nor is the context that Python attaches by itself to an exception raised while another is handled: only causes and the fields of the errors count.
- Lifecycle.ManagedTemplate: a cancellation of the finalizing task while its call runs is the call's failure, unless the provider makes another of it.
- Truncation.RedactTruncatedPrefixes: nothing is said of values that begin with NUL and hold another character, which `trial/boot.py:533` refuses.
- Truncation.NoPrefixBeforeMarkers: for values that hold a whole truncation marker the condition on the text is sufficient, and `Truncation.MarkedValueMisleads` shows that some condition is needed; an exact one is not given.
- SharedMutation.SharedListLosesSockets: direct aliases of the list only; every other key that reaches it is the matter of `SharedDocument.SharedFieldDiffers`.
- FlightCache.EveryInterleaving: one step of a thread is one stretch under the lock, as in the source; that a thread is ever scheduled again is not stated.
