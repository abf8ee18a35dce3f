# go-witness, modelled and verified in Dafny

go-witness collects signed attestations about the steps of a software build and checks them against a policy. This
project models the parts of it whose correctness is hardest to see from the code, and proves what they guarantee.

* **Policy verification.** A bounded search follows back references from the digests one starts with, two filters decide
  which collections count, a pass over the steps prunes those whose artifacts do not fit, and one verdict comes out. Go
  ranges over maps in any order; every loop over a map here picks its keys arbitrarily, and the theorems say which
  results depend on the order and which do not.
  `Digests`, `Collections`, `Functionaries`, `Steps`, `StepTheorems`, `PolicyEngine`, `Pruning`, `Soundness`,
  `RecordedTypes`, `PredicateTypes`, `BackRefSearch`, `VerdictOrder`, `OneRound`, `TwoStepVerdicts`, `FirstFound`,
  `OrderExamples`, `EndToEnd`.
* **Signatures and sources.** The pre-authentication encoding of the DSSE protocol, signing, counting signatures against
  a threshold, the in-memory index and the verified source on top of it.
  `PreAuth`, `Weights`, `Envelopes`, `Thresholds`, `DistinctVerifiers`, `Signing`, `Sources`.
* **Concurrency.** The hooks that must have run before a traced command may run, the barrier between the stages of
  attestors, and the channels that gather the answers of several sources. Each is a transition system; a theorem about it
  speaks of every schedule. The operations that hold a lock are methods of a class, and the functions that specify
  those that change its state are steps of the transition system: `Registered` for the hooks, `AfterCompletion`,
  `AfterMaterials` and `AfterProducts` for the stages. A round of hooks is many steps; `RoundsFollowRunHooks` says that
  together they call what the method calls.
  `Hooks`, `HookProtocol`, `Tracing`, `Stages`, `StageBarrier`, `Gather`.
* **Connection linking.** The BPF programs that send a client's connection to a proxy and tell the proxy where it was
  going, and the bounded walk that decides whether a process is watched.
  `AncestorWalk`, `Linking`, `CookieLinks`.
* **Two recursions.** Recording files through symbolic links that may form cycles, and scanning content for secrets
  through layers of encodings.
  `FileWalk`, `FileRecorder`, `SecretScan`, `SecretLayers`.

`dafny verify dfyconfig.toml` checks everything. Loops and in-place updates of the original are methods, proved against
functions and predicates; what the original promises is proved about those.

Libraries appear as function-valued fields that are arbitrary but fixed for one run: signature verification, certificate
paths, timestamp tokens, rego evaluation, decoding of payloads, the secret detector, globs and the clock. No property
assumes anything about them beyond what its own `requires` says. A policy is taken to be well formed when each step is
filed under its own, non-empty name.

## What turned out not to hold

* The verdict can depend on the order in which Go ranges over the steps. If the last round of the search still leads to
  new valid collections, one order may find them and another not (`OneRoundDependsOnOrder`, `ChainExists`). Within
  enough rounds the collections found do not depend on the order (`SettledSearchIgnoresOrder`, `TwoRoundsAreEnough`);
  with one round they do not if and only if no step finds anything that leads another one on
  (`OneRoundListsAlikeIff`). For two steps without suppliers the verdict depends on the order at one search depth at most
  (`TwoStepVerdictsAgreeIff`, `TakesOneMoreOnce`).
* Only the first passed collection of a supplying step is ever compared (`VerifyCollectionArtifacts`), so even then the
  order of discovery can decide (`FirstFoundDecides`, `ForkDecides`), unless all hits of that step compare alike
  (`VerdictIgnoresOrder`).
* The in-memory source picks collections by what their attestors answer as their type, validation by the type written
  beside them. A collection it returns can therefore lack an expected attestation, and does for some step unless its
  attestors' types are all recorded (`FoundMeansCompleteIff`, `SbomIsFoundAndMissing`); and it can fail to return a
  complete one, unless the recorded types are all answered (`CompleteMeansFoundIff`, `SbomIsCompleteAndNotFound`).
* A statement that is not of the collection's predicate type is recorded among the rejected ones and checked all the
  same, so it can pass and carry a verdict (`VerdictCanRestOnOtherType`). The type makes no difference to any verdict
  (`VerdictIgnoresTypes`), and all that pass have it if and only if nothing else would pass (`PassedHaveTypeIff`).
* The threshold counts acceptances, so one key can meet a threshold of two (`OneKeyMeetsTwo`). It counts verifiers if
  and only if none is counted twice (`ThresholdsCountVerifiersIff`).
* Pruning leaves the same verdict for every order but not always the same lists (`SameResultsIff`).
* The comment above `Artifacts` speaks of the end state of the files after all attestors ran, but a product always
  overrides a material, even one that a later attestation reports (`ArtifactsAreLastWins`). The two agree if and only if
  no later material has other digests than the last product of its path (`ArtifactsAreEndStateIff`,
  `ArtifactsCanMissTheEndState`).
* A declaration made after all earlier ones were registered leaves the channel closed although a hook is missing
  (`DeclareKeepsExactIff`). `RunAttestors` declares everything first.
* A command killed by a signal comes out of the hooks-only loop with exit code 0 (`ExitCodesAgreeIff`).
* A connection to the proxy from a client whose established event was not stored can be given an earlier client's
  destination (`StaleTupleMislinks`); `LookupFindsPeerIff` and `PassiveEntryIs` say exactly when.
* A file behind a symbolic link is recorded if and only if it should be under its path from the link's target as well as
  where the link stands, and likewise through any number of links (`FileBehindLinksIff`). A link straight to a file,
  which has no path from itself, loses the file in a traced run (`LinkedFileIsLost`).
* Adding the first timestamp verifiers to a verification can lose an acceptance, if and only if the certificate path is
  accepted now and at none of the times they read from the stamps (`FirstTimestampVerifiersLoseIff`).

## Model

| member | source | states |
|---|---|---|
| EndToEnd.VerifyStored | policy/policy.go:210-292 | Over a verified in-memory source, a positive verdict means that the policy has not expired and its trust bundles parse, and for every step that a loaded collection of that name is listed, signed over its type and payload under a verifier that one of the step's functionaries names or constrains, with every expected attestation recorded and its rego policies accepting the last one recorded, and with materials whose digests agree with what the first collection of each supplier leaves |
| EndToEnd.ReadyPolicyPasses | policy/policy.go:210-292 | A policy without suppliers passes in every order when each step has a loaded collection that the seeds lead to, signed by a functionary's key, with everything expected of it |
| EndToEnd.StepHoldsIff | policy/policy.go:331-413 | A step holds if and only if one of its collections fits the first one of every supplier: on each path the last material agrees with the last product, or without one the last material, of the other |
| PolicyEngine.Verify | policy/policy.go:210-292 | Each refusal is given exactly when its condition holds and none before it does; no verdict without an error is given to an expired policy or without a source, digests, a depth or trust bundles; and it is explained by a run under the policy's own bundles and the given rego evaluation that covers every step in every round, one pruning order, and what is left |
| PolicyEngine.SearchRounds | policy/policy.go:239-276 | For any source and any step order in every round, the loop produces a legal run, and on success one in which every step is visited in every round and the merged results are those of the run; it stops early only at a search that fails |
| PolicyEngine.CheckReply | policy/policy.go:248-255 | An empty reply is replaced by a single statement with an error; what comes out is the two filters applied one after the other, rejections of both kept |
| PolicyEngine.GatherBackRefs | policy/policy.go:268-274 | Whatever order the maps are walked in, the digests appended are exactly those the passed collections refer back to |
| PolicyEngine.VerifyCollectionArtifacts | policy/policy.go:373-394 | Although it walks all passed collections of each supplier, it accepts if and only if the first one of each supplier agrees with the materials |
| PolicyEngine.VerifyArtifacts | policy/policy.go:331-371 | Walks the steps once each in an arbitrary order and returns what pruning in that order leaves; the only error names a step without a result |
| Pruning.PruneVerdict | policy/policy.go:331-371 | In every order something is left for each step if and only if each step held against the results pruning started from, and then nothing has changed |
| Pruning.PruneClears | policy/policy.go:354-366 | A step that does not hold to begin with is empty once visited, whatever was cleared before it |
| Pruning.PruneStepAppends | policy/policy.go:343-366 | A visit leaves other steps alone and, exactly when nothing is left for its own, adds one reason: that nothing had passed, or that no collection fits |
| Pruning.PruningOnlyAppends | policy/policy.go:331-371 | In any order pruning keeps every rejection there was, and a list of passed collections whole or not at all |
| Pruning.SameResultsIff | policy/policy.go:331-371 | The lists left over (not only the verdict) are the same for every order if and only if no step that holds relies on one that does not |
| Pruning.PrunedResultsCanDependOnOrder | policy/policy.go:331-371 | A policy and results for which two orders leave different lists |
| Soundness.MergeLosesNothing | policy/policy.go:257-266 | After all rounds a step's passed and rejected lists are those of its visits, end to end |
| Soundness.PassedAreFound | policy/policy.go:248-266 | A collection is listed for a step if and only if some search for that step returned a statement that both filters turned into it, and no listed collection carries an error |
| Soundness.OutcomeRejectedMembers | policy/policy.go:248-255 | A visit rejects exactly the statements the functionary check turns down, and those it lets through that are for the step and not complete, with the reasons |
| Soundness.NothingFoundIsRejected | policy/policy.go:248-250 | A search that finds nothing leaves nothing passed, and one statement without verifiers rejected for that |
| Soundness.VerdictIff | policy/policy.go:278-291 | For every step order the verdict is positive if and only if each step has a listed collection acceptable against the results of the search; analysing a result amounts to asking whether anything is left; a positive verdict returns the results unpruned |
| Soundness.NoStepResultIsMissing | policy/policy.go:338-340 | The error for a step without a result never occurs for a well-formed policy |
| Soundness.PositiveVerdictIsSound | policy/policy.go:210-292 | Behind a positive verdict stands, for every step, a returned collection some search produced for it, error-free, named for the step or not at all, signed by one of the step's functionaries, with every expected attestation accepted by its rego policies and with materials that agree with the first returned collection of every supplier |
| RecordedTypes.FoundMeansCompleteIff | policy/step.go:154-176 | Whenever the in-memory source returns a collection for a step no expected attestation is missing, for every step and every digests, if and only if each type its attestors answer is also recorded beside one of them |
| RecordedTypes.CompleteMeansFoundIff | source/memory.go:97-140 | Whenever a collection has all that a step expects the source returns it for every digest that leads to it, if and only if each recorded type is answered by one of its attestors |
| RecordedTypes.SbomIsFoundAndMissing | attestation/sbom/sbom.go:56-136 | A collection with a software bill of materials, whose attestor changes its type on decoding: the source returns it for the type of the document, and validation then calls that attestation missing |
| RecordedTypes.SbomIsCompleteAndNotFound | attestation/sbom/sbom.go:56-136 | The same collection is complete for a step that expects the recorded type, and the source does not return it |
| Soundness.SignedMeansVerifiedSignature | source/verified.go:46-85 | With a verified source, being signed for a step means that a signature of that very envelope holds under a verifier one of the step's functionaries accepts |
| BackRefSearch.VisitPassesHits | policy/policy.go:243-254 | A visit passes the loaded collections that qualify for the step and that one of its digests leads to, and no others |
| BackRefSearch.DigestsBetweenLayersAndFixpoint | policy/policy.go:239-276 | For every step order in every round, the digests after d rounds contain everything within d back-reference hops and nothing outside any set closed under hops, hence nothing outside the least fixpoint |
| BackRefSearch.LayerCollected | policy/policy.go:240-276 | Once d rounds are complete within a longer run, everything within d hops has been collected |
| BackRefSearch.DigestsInClosed | policy/policy.go:268-274 | At no moment of a run has a digest outside a closed set been collected |
| BackRefSearch.DigestsOnlyAppended | policy/policy.go:268-274 | Digests are only appended, so every query extends the one before |
| BackRefSearch.SettledSearchIsExhaustive | policy/policy.go:239-276 | If one more hop would lead to no further valid collection, the digests are exactly the least closed set and each step lists exactly the valid collections it leads to |
| BackRefSearch.SettledSearchIgnoresOrder | policy/policy.go:241-276 | In that case two searches list the same collections for every step, whatever orders they took |
| BackRefSearch.SettledStaysSettled | policy/policy.go:240-276 | Hops that have settled at some depth are settled at every greater depth and reach nothing further |
| VerdictOrder.VerdictIgnoresOrder | policy/policy.go:210-292 | Two whole verifications against the same store reach the same verdict, whatever orders they took, when the hops settle at any depth below the number of rounds and it is immaterial which hit of a supplier comes first |
| OneRound.OneRoundListsAlikeIff | policy/policy.go:240-276 | All searches of one round, in whatever order, list the same collections for every step if and only if what any step finds from the seeds leads no other step to anything further |
| TwoStepVerdicts.TwoStepVerdictsAgreeIff | policy/policy.go:239-291 | For a policy of two steps that take no artifacts from each other and any search depth, all whole verifications reach the same verdict if and only if neither step takes exactly as many visits of the other alone as there are rounds to be led to |
| TwoStepVerdicts.TakesOneMoreOnce | policy/policy.go:239-276 | So the order decides at one search depth at most, and for one of the two steps only |
| TwoStepVerdicts.VerdictIs | policy/policy.go:239-291 | At all other depths the verdict is positive if and only if each step is led to by what the other finds alone in one round less |
| VerdictOrder.OneRoundDependsOnOrder | policy/policy.go:240-276 | The first condition is needed: with one round and two chained steps the order of a Go map decides, and both verdicts are possible against the same store |
| OrderExamples.ChainExists | policy/policy.go:240-276 | A concrete store and policy of that kind, for any keys that accept the signatures |
| OrderExamples.TwoRoundsAreEnough | policy/policy.go:240-276 | With two rounds the same policy and store get a positive verdict in every order |
| FirstFound.FirstFoundDecides | policy/policy.go:378-390 | The second condition is needed: if one step leads to a supplier's collection that fits and another to one that does not, both verdicts are possible although the hops have settled |
| FirstFound.VerdictByFirst | policy/policy.go:373-394 | For such a policy the verdict is whether the collection found first fits |
| OrderExamples.ForkDecides | policy/policy.go:378-390 | A concrete store and policy of that kind, with both verdicts at a depth at which every order finds all collections |
| VerdictOrder.StoreSearchAnswers | source/verified.go:46-85 | Every run over the verified in-memory store gets its replies from that store |
| Steps.CheckFunctionaries | policy/policy.go:296-327 | Rewrites the statements in place and returns the admitted and the rejected ones; a wrong predicate type is recorded and the check goes on |
| Steps.SettleInPlace | policy/policy.go:305-314 | Over both loops only the last match and the last warning survive, appended to the loop's own copy, and no other slot changes |
| Steps.ValidateAttestations | policy/step.go:142-197 | Splits its input into passed and rejected with the reasons for every rejection; collections for other steps leave no trace |
| Steps.Analyze | policy/step.go:66-90 | True if and only if something passed and nothing that passed carries an error |
| StepTheorems.AdmittedIff | policy/policy.go:304-323 | A statement is admitted if and only if a functionary of the step accepts one of its verifiers, or it arrived with verifiers and functionaries already filled in |
| StepTheorems.PriorFunctionariesBypassTheCheck | policy/policy.go:316-320 | Such a statement is admitted even by a step without functionaries |
| StepTheorems.OnlyLastMatchSurvives | policy/policy.go:311 | Of all matching verifiers a fresh statement keeps the last one only |
| StepTheorems.LastMatchIs | policy/policy.go:305-314 | There is a last match if and only if some verifier matches, and no later verifier matches |
| StepTheorems.LastWarningIs | policy/policy.go:307-310 | The warning that is kept names the last functionary that did not accept the last verifier to have one |
| StepTheorems.FunctionaryPassedMembers | policy/policy.go:298-324 | What passes is exactly what is admitted, as it stands after the check |
| StepTheorems.FunctionaryPassedInOrder | policy/policy.go:298-324 | Those that pass keep the order they came in |
| StepTheorems.FunctionaryRejectedMembers | policy/policy.go:300-324 | Turned down are the statements of a wrong type, those without verifiers, and those nobody entitled signed that came without functionaries, each for that reason |
| StepTheorems.FunctionaryCheckConserves | policy/policy.go:296-327 | The envelopes passed and rejected are, as a multiset, those of the statements, with those of a wrong predicate type once more |
| PredicateTypes.PassedHaveTypeIff | policy/policy.go:298-302 | All that pass are collections by their predicate type if and only if no statement of another type meets the conditions for passing: the check of the type keeps none out |
| PredicateTypes.VerdictIgnoresTypes | policy/policy.go:298-302 | A whole verification has a verdict if and only if it has the same one when every statement is given another predicate type |
| PredicateTypes.VerdictCanRestOnOtherType | policy/policy.go:298-302 | A positive verdict all of whose collections are in statements of another predicate type |
| StepTheorems.NoFailuresIff | policy/step.go:154-182 | No failure is noted if and only if the envelope has no error and every expected attestation is recorded and has no policies or policies that accept the one recorded last |
| StepTheorems.FailuresAre | policy/step.go:154-182 | The failures noted are the envelope's errors, a type that nothing is recorded under, and a type whose policies deny the one recorded last, or deny its absence, and no others |
| StepTheorems.DenialRejects | policy/step.go:178-194 | A denial by the policies of one expected attestation keeps the collection from passing, and rejects it with that among the reasons |
| StepTheorems.ValidationPassedMembers | policy/step.go:148-194 | What passes is exactly what came in, is for the step and is complete |
| StepTheorems.ValidationPassedInOrder | policy/step.go:148-194 | What passes keeps the order it came in |
| StepTheorems.ValidationRejectedMembers | policy/step.go:183-194 | Rejected is exactly what is for the step and not complete, with all its failures |
| StepTheorems.ValidationConserves | policy/step.go:142-197 | Passed, rejected and skipped together are the input, each collection in exactly one of them |
| Functionaries.CheckCertConstraint | policy/constraints.go:136-173 | Accepts if and only if the constraints are just the allow-all, or the values are pairwise distinct and equal to the constraints as a set, a single empty string counting as nothing |
| Functionaries.ConstraintsAreASet | policy/constraints.go:155-158 | Neither the order nor the repetition of constraints matters |
| Functionaries.RepeatedValueFails | policy/constraints.go:160-166 | A value the certificate lists twice fails every constraint but allow-all |
| Functionaries.MeetsIff | policy/constraints.go:136-173 | Met means: allow-all; or both blank; or neither blank, the same values on both sides, and none twice in the certificate |
| Functionaries.CheckTrustBundles | policy/constraints.go:83-101 | Accepts if and only if the certificate belongs to the root of some named bundle, or of any bundle under allow-all |
| Functionaries.Check | policy/constraints.go:44-81 | The errors are exactly the violated constraints |
| Functionaries.Validate | policy/step.go:114-138 | Accepts by key ID, or a certificate verifier whose certificate meets the whole constraint when that names some root |
| Functionaries.FunctionaryAcceptsIff | policy/step.go:114-138 | Accepted is a verifier with the functionary's key ID, or one whose certificate has the common name, DNS names, emails, organizations, URIs and extensions asked for and belongs to a named root |
| Collections.Artifacts | attestation/collection.go:109-131 | The last-wins union of materials and products, products over materials, in any map order |
| Collections.ArtifactsAreLastWins | attestation/collection.go:109-131 | A path is an artifact if and only if some attestation supplies it; the last product decides its digests, and the last material only when there is no product |
| Collections.ArtifactsAreEndStateIff | attestation/collection.go:104-131 | The artifacts are the end state after all attestations in order if and only if no path has a last product and, in a later attestation, a last material with another digest set |
| Collections.EndStateIsLastSupplier | attestation/collection.go:104-131 | In the end state a path has the digests its last supplier gives it, product before material within one attestation |
| Collections.ArtifactsCanMissTheEndState | attestation/collection.go:121-128 | A collection of two attestations whose artifacts are not the end state |
| Collections.Materials | attestation/collection.go:133-144 | The last-wins union of the materials |
| Collections.MaterialLastWins | attestation/collection.go:135-141 | The last attestation to supply a path decides its digests |
| Collections.BackRefs | attestation/collection.go:146-157 | The tagged back references of all attestations, later ones over earlier ones |
| Collections.BackRefLastWins | attestation/collection.go:146-157 | Under recorded type, slash and reference stand the digests of the last attestation to give that key |
| Collections.BackRefHasGiver | attestation/collection.go:146-157 | And no key is there that no attestation gives |
| Collections.BackRefDigestsIff | policy/policy.go:268-274 | The digests followed are those of the last givers, under every hash function |
| Collections.TagAll | attestation/collection.go:150-152 | Distinct references of one attestation never overwrite each other, in any order |
| Collections.CompareArtifacts | policy/policy.go:396-413 | Accepts, in any map order, if and only if the digests agree on every path both sides know; a refusal names a path on which they do not |
| Collections.EmptyDigestSetNeverCompatible | policy/policy.go:403 | A material without digests fails as soon as the other side knows its path |
| Digests.Equal | cryptoutil/digestset.go:128-144 | In any map order, true if and only if the sets share a hash function and agree under all shared ones |
| Digests.AgreeIsSymmetric | cryptoutil/digestset.go:125-127 | Agreement is symmetric |
| Digests.AgreeIsReflexiveOnNonEmpty | cryptoutil/digestset.go:125-127 | A set agrees with itself if and only if it is not empty |
| Digests.AgreeIsNotTransitive | cryptoutil/digestset.go:128-144 | Agreement is not transitive, by example |
| Digests.ToNameMap | cryptoutil/digestset.go:146-158 | Fails if and only if some hash has no name, and otherwise lists every digest under its name |
| Digests.NewDigestSet | cryptoutil/digestset.go:160-172 | Fails if and only if some name is unknown, and otherwise files every digest under the named hash |
| Digests.NamesAreInverse | cryptoutil/digestset.go:29-85 | The two tables are inverse to each other |
| Digests.WellKnownNames | cryptoutil/digestset.go:29-85 | The five names, each for the hash it names |
| Digests.NameMapRoundTrip | cryptoutil/digestset.go:146-172 | Writing a digest set by names and reading it back gives the set |
| Sources.MemorySource.LoadEnvelope | source/memory.go:77-104 | Keeps the four maps an index of the loads; a duplicate or undecodable load is refused and changes nothing |
| Sources.MemorySource.Search | source/memory.go:106-146 | Returns exactly what a linear scan of the loads picks, in load order |
| Sources.ScanMembers | source/memory.go:106-146 | Picked are the loaded envelopes with the name, some given subject digest and all given types, and no others |
| Sources.ScanPicksIff | source/memory.go:106-146 | An envelope is picked if and only if it is loaded, has the name, has a subject with one of the digests, and an attestor for each of the types |
| Sources.ScanInOrder | source/memory.go:106-146 | And those picked come in the order in which they were loaded |
| Sources.ScanMonotone | source/memory.go:115-140 | More digests only add results, more types only remove some, and what stays keeps its order |
| Sources.IndexesAfterLoad | source/memory.go:87-102 | The updated maps are the index of the extended loads |
| Sources.VerifiedSource.Search | source/verified.go:46-85 | Keeps order and length; a result has no error if and only if it has a verifier, and carries every acceptance of its envelope if verification succeeded and none otherwise |
| Sources.ResultVerifiersVouch | source/verified.go:65-81 | Every verifier on a result accepted a signature of that result's own envelope |
| Gather.NeverPanics | source/multi.go:62-74 | No schedule sends on a closed channel |
| Gather.NoDeadlock | source/multi.go:31-85 | In every reachable state before the return some goroutine can move |
| Gather.StepsDecrease | source/multi.go:31-85 | Every step lowers a measure |
| Gather.RunsEnd | source/multi.go:31-85 | So no schedule takes more than six steps per source plus nine |
| Gather.AnswerIsGathered | source/multi.go:79-84 | The answer is the error of the source first heard to fail if there is one, and otherwise all sources' results, one contiguous block each in its own order |
| Gather.BlocksOneMore | source/multi.go:44-48 | The block of a source heard later comes after those heard before |
| Gather.AnswerIgnoresSchedule | source/multi.go:31-85 | Two runs agree on success, and successful ones on the multiset of results |
| Gather.Invariant | source/multi.go:41-77 | In every reachable state the wait group counts the busy workers, a closed channel means all workers are done, and the collected lists are those of the workers that have sent, in order of receipt |
| Envelopes.Verify | dsse/verify.go:75-190 | The verified count is the number of error-free entries; success, no match and threshold not met are told apart by it, and on success the error-free entries are the acceptances in order |
| Envelopes.CheckSignature | dsse/verify.go:95-181 | One signature adds the acceptances of its certificate path and of the plain verifiers, or nothing at all when its certificate does not parse |
| Envelopes.CheckCertificate | dsse/verify.go:102-162 | The certificate path adds at most one acceptance |
| Envelopes.TryTimestamps | dsse/verify.go:127-145 | Over all timestamp verifiers and timestamps, the verifiers that accepted at a vouched time, in order |
| Thresholds.CertPathIff | dsse/verify.go:102-162 | The certificate path accepts if and only if some verifier made from the signature's certificate, its parsed intermediates before the configured ones, accepts the signature with its trusted time the current one, or with timestamp verifiers one that such a verifier reads from a stamp; and whom it accepts is such a verifier |
| Thresholds.LastTimeDecides | dsse/verify.go:127-152 | Of several times that work the last one found is the trusted time |
| Thresholds.ParsedInOrder | dsse/verify.go:104-112 | The intermediates that parse, and no others, in order |
| Thresholds.AcceptingInOrder | dsse/verify.go:165-181 | The plain acceptances in the order of the verifiers, none left out |
| Thresholds.PassedInOrder | dsse/verify.go:94-181 | The error-free entries in order |
| Envelopes.AcceptedStep | dsse/verify.go:94-181 | The acceptances signature by signature |
| Thresholds.CountIsSum | dsse/verify.go:94-181 | The count is the sum over the usable signatures of their accepting verifiers plus at most one for the certificate path |
| DistinctVerifiers.ThresholdsCountVerifiersIff | dsse/verify.go:165-189 | Meeting any threshold takes that many different verifiers if and only if no verifier backs two of the signatures, none that accepts one is supplied twice, and no supplied one is the certificate's own |
| DistinctVerifiers.OneKeyMeetsTwo | dsse/verify.go:165-189 | Otherwise one key can meet a threshold of two: with its signature twice, or with the key supplied twice |
| DistinctVerifiers.BackersAre | dsse/verify.go:95-181 | The different verifiers behind a verification are those supplied that accept a usable signature and those of the certificate paths |
| Thresholds.CountIsMonotone | dsse/verify.go:165-189 | More signatures or more plain verifiers never lower the count, so never undo a success |
| Thresholds.CountIgnoresOrder | dsse/verify.go:95-181 | Permuting signatures or plain verifiers changes neither the count nor the success |
| Thresholds.MoreTimestampVerifiersHelp | dsse/verify.go:127-152 | Adding to a non-empty list of timestamp verifiers never loses an acceptance |
| Thresholds.FirstTimestampVerifiersLoseIff | dsse/verify.go:113-152 | Adding the first timestamp verifiers loses the certificate path of a signature if and only if it is accepted now and at no time any of them reads from a stamp, and gains it in the opposite case only |
| Thresholds.FirstTimestampVerifierCanHurt | dsse/verify.go:113-127 | An instance: a signature without stamps whose certificate is valid now loses its acceptance |
| Thresholds.AcceptedVouch | dsse/verify.go:95-181 | Every acceptance is by a verifier that is supplied, or made from the signature's certificate for a time at which that may be checked, of a signature of the envelope |
| Thresholds.AcceptingVerifierCounts | dsse/verify.go:165-175 | A supplied verifier that accepts a usable signature is among the acceptances |
| PreAuth.DecodeEncode | dsse/dsse.go:90-96 | A decoder recovers type and body from the encoding, for all byte strings |
| PreAuth.EncodeDecode | dsse/dsse.go:90-96 | Whatever the decoder accepts is the encoding of what it returns |
| PreAuth.EncodingIsInjective | dsse/dsse.go:90-96 | Different pairs of type and body have different encodings |
| PreAuth.ProtocolExample | dsse/dsse.go:90-96 | The example in the description of the protocol is encoded as it says |
| PreAuth.DecimalRoundTrip | dsse/dsse.go:95 | Printing a length and reading it back gives the length |
| Signing.Sign | dsse/sign.go:47-115 | Without signers an error; otherwise one signature for each signer that is present, in order, or the first error met |
| Signing.SignOne | dsse/sign.go:72-109 | One signer's signature over the encoding, with its timestamps, certificate and intermediates |
| Signing.SignThenVerify | dsse/verify.go:75-190 | An envelope with one signature for each of n signers verifies at every threshold from 1 to n, when the verifiers include each signer's own |
| Signing.SignThenVerifyStamped | dsse/verify.go:102-162 | Signatures made with timestamps verify through the signers' certificates alone, at every threshold up to their number, when the certificates vouch for them at the stamped times, whatever time it is |
| Signing.PresentInOrder | dsse/sign.go:65-71 | The signers that are not nil sign in the order given |
| Signing.SignAndVerify | dsse/sign.go:47-115 | The two methods run one after the other: what Sign returns for n signers, Verify accepts at every threshold from 1 to n |
| Hooks.ExecuteHooks.Declare | attestation/execute_hooks.go:84-102 | A second declaration is refused and changes nothing |
| Hooks.ExecuteHooks.RegisterHook | attestation/execute_hooks.go:116-144 | Succeeds if and only if the hook is declared and not yet registered, and then puts it after those registered before; closes the channel when that completes the declarations and it was still open |
| Hooks.ExecuteHooks.WaitForDeclaredHooks | attestation/execute_hooks.go:155-183 | Goes on at once when nothing is declared, and otherwise only once the channel is closed; a timeout names exactly what is missing |
| Hooks.ExecuteHooks.RunHooks | attestation/execute_hooks.go:189-216 | Calls nothing before every hook of the stage is ready; then the hooks of the stage, by their positions among all registered ones, none left out before the last call, up to the first failure; the error names that hook |
| Hooks.CalledHooksInOrder | attestation/execute_hooks.go:192-216 | The positions of the hooks called increase, and all of the stage are called when none fails |
| Hooks.ExecuteHooks.HasHooks | attestation/execute_hooks.go:219-228 | True if and only if some hook of the stage is registered |
| Hooks.RegisterKeeps | attestation/execute_hooks.go:116-144 | Every declaration stays fulfilled exactly when one hook for it is registered, and the channel is closed at most once |
| Hooks.RegisterKeepsExact | attestation/execute_hooks.go:137-141 | Registering keeps closed equivalent to something declared and all of it registered |
| Hooks.DeclareKeepsExactIff | attestation/execute_hooks.go:84-102 | Declaring keeps that if and only if it is refused or comes before the channel is closed |
| HookProtocol.NeverResumedTooEarly | attestation/commandrun/tracing_linux.go:98-152 | In no interleaving has the command run before every declared PreExec hook was registered, ready, and called exactly once with success, and of two hooks the one that stands earlier among the registered ones first |
| HookProtocol.CalledAsRegistered | attestation/execute_hooks.go:116-144 | Of two PreExec hooks the one whose registration step came first is called first, in every interleaving |
| HookProtocol.ClosedOnceAndExactly | attestation/execute_hooks.go:116-153 | In every reachable state the channel was closed at most once, and was closed if and only if something was declared and all of it is registered |
| HookProtocol.RoundsFollowRunHooks | attestation/execute_hooks.go:189-216 | In every interleaving the calls of a stage are those RunHooks makes for the registered hooks: the first few within its round, and outside it none or all; all of them when the command has been resumed (PreExec) and when the exit stop is left (PreExit) |
| HookProtocol.WaitMakesFlagsFinal | attestation/commandrun/commandrun.go:191-199 | After a wait that returned nil, HasHooks says for each stage whether something was declared for it |
| HookProtocol.StuckIff | attestation/execute_hooks.go:203-206 | The runner stands still for good if and only if it waits for a registered hook that is not ready; no timer covers that wait |
| HookProtocol.Invariant | attestation/commandrun/commandrun.go:169-229 | In every reachable state past the wait everything declared is registered, the flags say which stages have hooks, the calls made are the ready hooks in registration order, and the declarations are those made at the start |
| Tracing.TraceLoop | attestation/commandrun/tracing_linux.go:154-211 | Ends at the first death of the command with its code, or 128 more than its signal; every event before that is answered in order by exactly one Go for its process, with the signal it was sent unless the stop is of ptrace's making, and at an exit stop of the command the PreExit hooks run directly before it; nothing else is done |
| Tracing.WaitForExitOnly | attestation/commandrun/tracing_linux.go:214-288 | Ends at the first death or exit stop with its code, running the PreExit hooks at the exit stop only and before letting go |
| Tracing.ContinuedInOrder | attestation/commandrun/tracing_linux.go:222-287 | Until then it answers the stops, in order, and nothing else |
| Tracing.ModesAgreeUpToExit | attestation/commandrun/tracing_linux.go:222-287 | Up to the exit stop the hooks-only loop lets the process go on exactly as full tracing does |
| Tracing.SignalsPassThrough | attestation/commandrun/tracing_linux.go:168-205 | Traced processes get the signals they were sent, in order, and no others |
| Tracing.HooksFollowExitStops | attestation/commandrun/tracing_linux.go:195-199 | The PreExit hooks run once for each exit stop of the command and for no other process |
| Tracing.ExitCodesAgreeIff | attestation/commandrun/tracing_linux.go:258-261 | The exit code taken at the exit stop is the one full tracing reports if and only if the command was not killed by a signal; if it was, with or without a core dump, the code is 0 |
| Stages.Plan | attestation/context.go:182-200 | Verify alone when all attestors are of that type, the five stages when none is; refused exactly for an unset run type, or for verify mixed with others |
| Stages.Declare | attestation/context.go:205-221 | Going through the group of a run type: it may start if and only if no attestor of that type fails to declare, or declares where it may not |
| StageBarrier.EveryoneCompletesInOrder | attestation/context.go:202-237 | For every interleaving a nil return means each attestor of a listed run type completed exactly once, no other ran, and completions are sorted by stage |
| StageBarrier.KindsCompleteInOrder | attestation/context.go:202-237 | At every moment prematerial and material attestors have completed before the command, and that before product and postproduct ones |
| StageBarrier.EarlierStagesAreVisible | attestation/context.go:240-277 | For each path in what an attestor reads the value comes from the latest stage that has supplied it so far, and every successful attestor of the stages before its own is among those that have |
| StageBarrier.FinalValuesAreLatest | attestation/context.go:335-347 | Each final material or product comes from a successful attestor in the latest stage that supplied its path, and none is lost |
| StageBarrier.Invariant | attestation/context.go:223-235 | In every reachable state earlier stages are over and later ones idle, completions are recorded once and sorted by stage, and every value comes from the latest stage that supplied it so far |
| StageBarrier.PlansAreValid | attestation/context.go:43-49 | The stages of every plan are distinct |
| Stages.AttestationContext.Complete | attestation/context.go:245-262 | Appends one completion and changes nothing else |
| Stages.AttestationContext.AddMaterials | attestation/context.go:335-340 | Writes the new materials over the old ones, in any map order, and changes nothing else |
| Stages.AttestationContext.AddProducts | attestation/context.go:342-347 | Writes the new products over the old ones, in any map order, and changes nothing else |
| AncestorWalk.IsPidAllowed | attestation/networktrace/bpf/headers/helpers.h:43-95 | Once an injection time is set, true if and only if the process is listed itself or has a covering proper ancestor within 64 hops, before a missing parent or a pid of at most 1 |
| AncestorWalk.PidAllowedIff | attestation/networktrace/bpf/headers/helpers.h:43-95 | Along the chain of parents: listed itself and started before the injection, or an ancestor among the first 64 that is listed with descendants and started before it, with no pid of at most 1 up to there |
| AncestorWalk.ReachesSixtyFourGenerations | attestation/networktrace/bpf/headers/helpers.h:69-92 | A process covered by one ancestor only is watched if and only if that is at most 64 generations up |
| AncestorWalk.Intercepts | attestation/networktrace/bpf/headers/helpers.h:97-118 | Process, control group or command name is listed |
| Linking.Programs.InterceptConnect | attestation/networktrace/bpf/connect.bpf.c:33-165 | Rewrites the destination to the proxy if and only if it has recorded it under the socket's cookie; otherwise neither the maps nor the address change |
| Linking.RedirectsIff | attestation/networktrace/bpf/connect.bpf.c:33-75 | Stream sockets of watched processes in the host namespace, and not to port 53 in network byte order |
| Linking.ProxyAddressIs | attestation/networktrace/bpf/connect.bpf.c:80-165 | The address written is the proxy's with its four bytes in network order, and the IPv6 loopback address |
| Linking.HandlesIff | attestation/networktrace/bpf/sockops.bpf.c:31-70 | The established events of watched stream sockets, in the host namespace once that is known |
| Linking.Programs.TcpSockops | attestation/networktrace/bpf/sockops.bpf.c:31-261 | The client's event stores its cookie under the tuple; the accepted socket's event copies the destination found through the swapped tuple; all other events change nothing |
| Linking.EndsAgreeOnTuple | attestation/networktrace/bpf/sockops.bpf.c:80-154 | Both ends of a connection build the same key, although each gets the other's port in network byte order |
| Linking.Swap32IsInvolution | attestation/networktrace/bpf/sockops.bpf.c:84 | Swapping the bytes of a word twice gives the word |
| Linking.SwapsFourBytes | attestation/networktrace/bpf/sockops.bpf.c:84 | The four bytes of a word come out in reverse order |
| CookieLinks.RunConnect | attestation/networktrace/bpf/connect.bpf.c:33-165 | Running the connect program takes the connect step of the histories the next rows speak of, and leaves the other address family alone |
| CookieLinks.RunSockops | attestation/networktrace/bpf/sockops.bpf.c:31-261 | Running the established program takes the active or the passive step of those histories, and leaves the other address family alone |
| CookieLinks.AcceptedEntriesAreThePeers | attestation/networktrace/bpf/sockops.bpf.c:134-193 | In every reachable state an entry under the cookie of an accepted socket is the destination its peer recorded at connect, if that peer's established event was stored, whatever other sockets did |
| CookieLinks.PassiveEntryIs | attestation/networktrace/bpf/sockops.bpf.c:134-193 | At the event of an accepted socket: it gets an entry if and only if the client the tuple names recorded one, and that client's; the client is the peer if and only if the peer was stored; the entry is the peer's destination if and only if it comes from the peer or equals it |
| CookieLinks.StoredPeersAreLinked | attestation/networktrace/bpf/sockops.bpf.c:157-175 | An accepted socket whose peer was stored gets an entry if and only if the peer had recorded a destination |
| CookieLinks.LookupFindsPeerIff | attestation/networktrace/bpf/sockops.bpf.c:156-160 | The tuple names the live peer if and only if the peer's own established event was stored |
| CookieLinks.StaleTupleMislinks | attestation/networktrace/bpf/sockops.bpf.c:72-193 | Otherwise a tuple left by an earlier client can link a socket to that client's destination, by example |
| CookieLinks.Invariant | attestation/networktrace/bpf/sockops.bpf.c:71-193 | In every reachable state a client's entry is what it last recorded, all other entries belong to accepted sockets, and a stored live owner is the one its tuple names |
| FileRecorder.Recorder.RecordArtifacts | attestation/file/file.go:30-108 | Terminates on every file system, cyclic links included, and walks each link target at most once across the recursion; every entry derives from a real file or hashed directory; without an error every recordable file and hashed directory reached without a link is recorded, every link reached has its target marked, and the same holds below each target newly walked, whose recordable entries are in the result |
| FileRecorder.Recorder.FollowLink | attestation/file/file.go:64-93 | A broken link or a marked target adds nothing and changes nothing; any other target is marked before it is walked, once, and its entries that should be recorded where the link stands are in the result, each stemming from a real file or hashed directory |
| FileRecorder.Recorder.WalkEntries | attestation/file/file.go:32-105 | What earlier entries of a directory contributed survives the later ones, and each entry is dealt with as the walk promises |
| FileRecorder.Recorder.RecordDir | attestation/file/file.go:44-62 | A directory whose path matches a hash glob is recorded under its path with a slash; it fails if and only if the hash does |
| FileRecorder.Recorder.Rebase | attestation/file/file.go:79-90 | In any map order, every entry that should be recorded where the link stands is in the result with its own digests, so no two fall on one path, and every entry of the result stems from one behind the link |
| FileRecorder.ShouldRecordArtifact | attestation/file/file.go:114-122 | True unless the run was traced and the path not opened, or the artifact equals the one already known |
| FileRecorder.EntriesShouldBeRecorded | attestation/file/file.go:84-102 | Every entry should be recorded at the path it is recorded under, except the directly hashed directories |
| FileRecorder.HashedDirectoryIsRecorded | attestation/file/file.go:44-62 | A directory that a glob matches, reached without a link, is recorded by its hash under its path with a slash |
| FileRecorder.LinkIsMarked | attestation/file/file.go:64-79 | A link reached without another one could be resolved, and its target is marked |
| FileRecorder.WalkedTargetsAreClosed | attestation/file/file.go:64-93 | Below every target walked everything is dealt with in the same way: files and hashed directories found, links marked |
| FileRecorder.FileBehindLinksIff | attestation/file/file.go:64-90 | A file behind any number of links followed one from the target of the other is recorded if and only if it should be under its path from each of the targets and under its final path |
| FileRecorder.FileBehindLinkIff | attestation/file/file.go:79-90 | The case of one link |
| FileRecorder.LinkedFileIsLost | attestation/file/file.go:79-90 | A link straight to a file, in a traced run that opened the link: the file should be recorded at its final path, and is not |
| SecretScan.Scan.ScanBytes | attestation/secretscan/scanner.go:36-162 | Each finding has a key of its own, fresh, made from what explains the finding; every key newly taken has its finding, except keys whose secret's digests cannot be computed; and no match, value or layer within reach is passed over |
| SecretScan.Scan.ProcessDetected | attestation/secretscan/findings.go:31-80 | Every match not on the allow-list has its key taken, each key newly taken has its finding if the digests can be computed, and findings are what the detector reported for this layer |
| SecretScan.Scan.CheckDecoded | attestation/secretscan/envscan.go:193-337 | Every value met in the decoded layer has its key taken, each key newly taken has its finding, and findings are such values with the encoding as their path |
| SecretScan.Scan.PrependEncoding | attestation/secretscan/scanner.go:133-147 | Puts the encoding in front of every path in place, and marks every location approximate |
| SecretScan.FindingsHaveProvenance | attestation/secretscan/scanner.go:81-154 | Each path of a whole scan is a real chain of candidate, decode and trim steps, outermost first, no longer than the decode layers or one more than the recursion limit, and empty if and only if the location is exact |
| SecretScan.EverySecretIsReported | attestation/secretscan/findings.go:31-80 | A whole scan reports a finding with the digests of every secret whose key is its own and that the detector matches in any layer within reach, allow-listed matches and failing digests apart |
| SecretScan.EveryValueIsReported | attestation/secretscan/envscan.go:193-337 | And a finding under the key of every value of a sensitive variable met in a decoded layer within reach, unless a secret whose digests failed has used that key up |
| SecretScan.EveryEnvValueIsReported | attestation/secretscan/envscan.go:140-190 | And for every value met in the content itself, unless the content is on the allow-list |
| SecretLayers.LayeredSecretIsReported | attestation/secretscan/scanner.go:36-154 | Whatever layers can be taken off one after the other, a secret with a key of its own is reported from them: at most three deep, none of them on the allow-list, each found by a scanner, decoded to at least four characters, any below the top, or padded, and trimmed |
| SecretLayers.LayeredValueIsReported | attestation/secretscan/envscan.go:193-337 | And a variable's value from any layer so decoded, unless its key is spent |
| SecretLayers.FindingWasMet | attestation/secretscan/scanner.go:81-154 | Every finding of a whole scan was met, with its key, in a layer that taking off such layers along its path leads to |
| SecretScan.ChainIsBounded | attestation/secretscan/scanner.go:36-40 | From any depth a chain stays within the decode layers and within one layer below the recursion limit |
| SecretScan.ExhaustedByLayers | attestation/secretscan/scanner.go:82-154 | Once every uncovered layer is exhausted and the content covered, so is everything below |

## Left out

- VerdictOrder.VerdictIgnoresOrder: goes one way only; both conditions are shown to be needed by examples, but a policy can meet neither and still have one verdict, for instance when some step can never pass. `OneRound.OneRoundListsAlikeIff` is exact about the collections listed in one round, `TwoStepVerdicts.TwoStepVerdictsAgreeIff` about the verdict on two steps without suppliers at any depth.
- FileRecorder.Recorder.RecordArtifacts: which of several links to one target gets to walk it depends on the order of the walk; the contract says that one of them does, and what follows for that one.
- Hooks.ExecuteHooks.WaitForDeclaredHooks: what the call does at one moment; waiting over time is a step of `HookProtocol`, where the timer may fire at any moment.
- SecretScan.EverySecretIsReported: speaks of secrets whose key nothing else has; a secret and a variable's value can share one (`path:secret` and `path:line:value`), and then the code reports the first only, which is what `ScanBytes` states for any keys.
- RecordedTypes.FoundMeansCompleteIff: speaks of collections that some digest leads to, since no search returns the others.
- StageBarrier.EveryoneCompletesInOrder: assumes that every `Attest` call returns, since the wait for a stage has no time limit, and takes the counting of the wait group as given; `Gather` counts it.
- CookieLinks.AcceptedEntriesAreThePeers: takes from the kernel that cookies are unique, that a tuple has one live client socket, and that the client's established event is handled before its peer's.
- A rego denial of a missing attestor makes the code call a method on nil and panic (policy/rego.go:92); the model records a denial instead.
- A second read of a slice that `append` shares (`append(statement.Warnings, ...)`, policy/policy.go:308) is not modelled; sequences are values here.
- Parsing of a policy's trust bundles and the building of `verifyOptions` from options are inputs.
- Signer providers, the archivista client and source, command-line glue, schema generation and registries are plumbing.
- JSON and PEM formats, certificate paths (RFC 5280), timestamp tokens (RFC 3161), globs, regular expressions and the detector's rules are parameters.
- The individual attestors other than the network trace hooks are environment reads and field copying.
- The proxy's sockets, deadlines and shutdown are not part of this model.
- Full maps and failed updates of a BPF map are one step that changes nothing; eviction does not occur in hash maps.
- A task's chain of parents is finite here, whereas the kernel's ends in a process that is its own parent; both walks stop at pid 1.
- Failures of ptrace calls in the wait loops are logged by the code and do not change the loop; the model leaves them out.
- File systems that change during a walk are not modelled; a link target that cannot be looked up is an error.
- Message texts, log output, start and end times.
