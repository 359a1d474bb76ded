# Verified model of the Catalog activation and AIHub protocols

This project models, in Dafny, the control logic by which the model registry operator
rolls out catalog data images, and the protocols by which AIHub migrates and tears down
what it owns. It proves what that logic keeps over every run, under stale reads,
conflicting writes and interleaved reconciles.

A Catalog selects two data images. A reconcile resolves them against ImageStream import
history, fingerprints the request into a persisted attempt (Pending, Failed or
Succeeded), publishes that status, applies the workload of the attempt, certifies it from
pod evidence within a ten-minute recovery deadline, and reduces everything to Ready,
Available and Degraded. A failed attempt is contained by scaling the workload down. AIHub
creates that Catalog, moves it to ImageStreams once, recreates Deployments whose
immutable selector changed, and removes everything in order when it is deleted.

## Layout

| file | subject |
|---|---|
| `CatalogTypes` | conditions, attempt, status, the Catalog object |
| `ImageStatus` | the readiness reducer |
| `PodEvidence`, `PodVerdicts`, `DeploymentStatus` | verdicts on pods, Deployment conditions and the certifying workload |
| `Activation`, `AttemptLifecycle` | preparing and observing an attempt, and when it is replaced, failed or ready |
| `RecoveryWindow` | runs of one attempt: latch, deadline, recovery window |
| `ImageRefs`, `DataImages`, `StreamVerdicts`, `ImageResolution`, `TagMerge` | image references, resolution over raw stream fields, what it guarantees, import sources |
| `CatalogRuns`, `CatalogGuarantees` | runs of a whole Catalog and what they keep |
| `StatusPatch`, `StoredStatus`, `FirstImport` | status writes as JSON merge patches, and what they store, pass after pass |
| `RolloutProtocol`, `RolloutSafety`, `RolloutFailures`, `RolloutSteps`, `Containment` | concurrent reconciles against versioned objects |
| `Teardown`, `TeardownGuarantees`, `SelectorMigration`, `StreamMigration`, `HubReadiness` | the AIHub protocols |

Code that updates objects step by step is modelled by methods with loops or by classes,
each proved against a function; the properties are then proved of that function and of
runs built from it. Protocols are state machines whose steps are single API calls, with
everything other actors may do in between; the teardown, containment, selector and
migration methods are proved to take exactly the steps of their machine.

## Where the code differs from what is written about it

* A recovery window is documented as ten uninterrupted healthy minutes
  (api/catalog/v1alpha1/catalog_types.go:194-195). The code counts unready periods without a
  reported failure as healthy: `RecoveryWindow.UnreadyCountsAsHealthy`.
* Stored times have whole seconds, so two restarts of the recovery deadline can be up to
  one second closer than ten minutes, exactly when the earlier one does not fall on a
  whole second: `RecoveryWindow.StoredTimesShortenTheWindow`,
  `RecoveryWindow.RestartSpacingExactly`.
* Failed attempts are documented to remain scaled down across reconciliation
  (docs/catalog-image-activation.md:81-83). A reconcile that reads an older status with
  nothing to write meets no version check and starts the workload again:
  `RolloutFailures.StaleReconcileRestartsFailed`, `RolloutFailures.FailedAttemptRestartsExactly`.
* Stage "Selection" is never newly assigned, because the two spellings of its reason
  differ: `ImageResolution.GatesAgreeAfterResolution`.
* A failed import keeps Degraded True through generation changes unless an error ahead of
  resolution reduces the status at the new generation first:
  `CatalogGuarantees.DegradedSurvivesExactly`, `CatalogGuarantees.EarlyErrorLosesDegraded`.
* The second status write of a reconcile loses fields that were changed and put back;
  during a first import a constantly ready attempt alternates between Pending and
  Succeeded: `StatusPatch.SecondWriteExact`, `FirstImport.FirstImportAlternates`.
* A resolved reference names a repository unless the import event consists of a tag only:
  `ImageRefs.ImportedImageIsPinned`, `ImageRefs.RepositoryCanBeEmpty`.
* `repoBase` is documented to strip any tag; a source without a slash keeps its tag:
  `ImageRefs.BareNameKeepsTag`.
* AIHub deletes the Catalog by name, without a UID precondition. A foreign Catalog that
  takes the name in between is deleted, and a lagging cache releases the AIHub early:
  `TeardownGuarantees.ReplacedCatalogIsDeleted`,
  `TeardownGuarantees.LaggingReadDeletesForeign`,
  `TeardownGuarantees.LaggingReadReleasesEarly`.

## Model

| member | source | states |
|---|---|---|
| `RolloutSafety.ScaleDownNeverHitsNewerAttempt` | internal/controller/catalog_controller.go:311-347 | in every interleaving of reconciles, with any stale Catalog and Deployment reads, a scale-down that passes the lock hits a Deployment of the failed attempt or of one first published before it |
| `RolloutSafety.PublishedBeforeApplied` | internal/controller/catalog_controller.go:407-431 | in every interleaving, each Deployment version ever applied carries an attempt and image pair held by an earlier published status; a render is preceded by its own published status, which is not Ready if the attempt was replaced or the generation is newly observed |
| `RolloutSafety.RunsStaySound` | internal/controller/catalog_controller.go:224-306 | every state of every run keeps the invariant: distinct publication order, the current attempt is the latest, applied attempts are published, no two workers hold the same unpublished attempt |
| `RolloutSafety.StepKeepsSound` | internal/controller/catalog_controller.go:224-306 | each single step keeps that invariant |
| `RolloutSafety.ContainmentSparesNewerAttempts` | internal/controller/catalog_controller.go:330-345 | in any state with the invariant, a scale-down that lands spares newer attempts |
| `RolloutSafety.PreparationIsNotReady` | internal/controller/catalog_activation_protocol.go:61-80 | a replaced attempt, or one whose readiness was observed at another generation, is prepared as not Ready |
| `RolloutFailures.FailedAttemptRestartsExactly` | internal/controller/catalog_controller.go:407-431 | in every interleaving, a render of an attempt whose failure is published starts replicas iff the status it renders from precedes that failure |
| `RolloutFailures.RunsStayLatched` | internal/controller/catalog_controller.go:224-306 | in every run no later version of an attempt takes its published failure back |
| `RolloutFailures.StaleReconcileRestartsFailed` | internal/controller/catalog_controller.go:752-762 | from every sound cluster, a reconcile of an older, settled version of a contained attempt starts its workload again |
| `RolloutProtocol.ContainCatalogImageFailure` | internal/controller/catalog_controller.go:311-347 | the two checks around the cached read and the locked patch are exactly the four containment steps of the protocol, whatever the server does between them |
| `Containment.ContainmentStopsExactly` | internal/controller/catalog_controller.go:314-346 | containment stores the Deployment it read at zero replicas iff no call fails, both rereads find the same object, attempt and request, it has replicas and no newer version exists; otherwise nothing changes |
| `Containment.RenderedWorkloadIsStopped` | internal/controller/catalog_controller.go:333-344 | a workload with its rendered replica is stopped if nothing moves in between |
| `RolloutSteps.PublishWritesExactly` | internal/controller/catalog_controller.go:752-762 | the prepared status is stored iff it differs and nothing was stored since; what the reconcile does next in each case |
| `RolloutSteps.RenderWritesExactly` | internal/controller/util.go:168-207 | the workload is stored iff what was read differs and is still current, or was absent and still is |
| `RolloutSteps.ObserveWritesExactly` | internal/controller/catalog_controller.go:730-749 | the second write, and containment of a failed attempt unless it conflicts |
| `RecoveryWindow.RestartsAreTenMinutesApart` | internal/controller/catalog_activation_protocol.go:108-125 | any two restarts of the deadline within an attempt are ten minutes apart, counted from the stored second of the earlier; exactly ten minutes without storage in between |
| `RecoveryWindow.StoredTimesShortenTheWindow` | internal/controller/catalog_activation_protocol.go:108-125 | for every time of a first retry, a run with storage whose two restarts are ten minutes apart less the dropped fraction of a second |
| `RecoveryWindow.RestartSpacingExactly` | internal/controller/catalog_activation_protocol.go:108-125 | ten full minutes separate a restart from every later one, in every run with storage, iff it falls on a whole second |
| `RecoveryWindow.FlappingCannotOutrunDeadline` | internal/controller/catalog_activation_protocol.go:117-143 | while every recovery is followed by a retry within ten minutes, the deadline of the first retry stands, and a retry past it leaves the attempt Failed for good |
| `RecoveryWindow.UnreadyCountsAsHealthy` | internal/controller/catalog_activation_protocol.go:117-125 | preparations, failure-free observations and storage, ready or not, keep the recovery record up to its whole second, so a later retry restarts the deadline iff ten minutes have passed since that record |
| `RecoveryWindow.PendingIsWithinDeadline` | internal/controller/catalog_activation_protocol.go:133-143 | after every observation, Pending implies an age of at most ten minutes |
| `RecoveryWindow.FailureLatches` | internal/controller/catalog_activation_protocol.go:58-73 | a Failed attempt keeps its identity, images and state over any preparations, observations and clock, and every render of it has no replicas |
| `RecoveryWindow.FailureVerdictSettles` | internal/controller/catalog_activation_protocol.go:91-98 | one observation fixes the stage and reason of a failure for good |
| `RecoveryWindow.CertifiedThroughout` | internal/controller/catalog_activation_protocol.go:108-116 | over any run Succeeded implies that LastSuccessful names this attempt |
| `RecoveryWindow.UnreadyEndsSucceededExactly` | internal/controller/catalog_activation_protocol.go:61-143 | a certified attempt with no reported failure is failed by an unready pass iff resolution reports a fault, or is unresolved past the deadline |
| `CatalogGuarantees.LastSuccessfulIsLastCertified` | internal/controller/catalog_activation_protocol.go:45-57 | from an empty status, LastSuccessful is always the most recently certified attempt with its images, and Succeeded means that certificate is the attempt's own |
| `CatalogGuarantees.FailureOutlivesAttempts` | internal/controller/catalog_activation_protocol.go:145-156 | a published activation failure keeps Degraded True and Ready False over new attempts, edits, imports and errors until the then-current attempt is certified |
| `CatalogGuarantees.FailedAttemptStays` | internal/controller/catalog_activation_protocol.go:37-73 | in a whole Catalog run with unchanged requests, a Failed attempt stays current, Failed and without replicas |
| `CatalogGuarantees.ImportFailureBlocks` | internal/controller/catalog_data_images.go:97-173 | for a target that keeps following stable, every resolution after an observed import failure blocks until an import succeeds |
| `CatalogGuarantees.AwaitingAfterResolutionExactly` | internal/controller/catalog_data_images.go:97-173 | when exactly a resolution leaves a target waiting for recovery |
| `CatalogGuarantees.DegradedSurvivesExactly` | internal/controller/catalog_image_status.go:29-46 | while a failed import only waits, Degraded survives iff the status is never reduced at a generation before that generation is resolved |
| `CatalogGuarantees.DegradedSurvives` | internal/controller/catalog_image_status.go:29-46 | the same latch over runs in which anything else may happen too |
| `CatalogGuarantees.EarlyErrorLosesDegraded` | internal/controller/catalog_controller.go:679-689 | every such Catalog loses Degraded to a spec edit followed by an error ahead of resolution, although its updates stay blocked |
| `CatalogRuns.PublishedStatusIsTruthful` | internal/controller/catalog_image_status.go:17-72 | in every run: Ready equals Available, never with Degraded, is True at the current generation iff selection, workload and attempt are confirmed there with no latched failure |
| `CatalogRuns.StepKeepsReachable` | internal/controller/catalog_controller.go:679-750 | every step of the controller keeps the invariant behind that statement |
| `ImageStatus.ReduceCatalogImageReadiness` | internal/controller/catalog_image_status.go:17-72 | the in-place reduction equals the function `Reduced` |
| `ImageStatus.ReadyExactly` | internal/controller/catalog_image_status.go:48-72 | Ready iff the reducer's inputs confirm the selected images; without the reason invariant exactly one more way exists |
| `ImageStatus.DegradedExactly` | internal/controller/catalog_image_status.go:29-46 | Degraded iff the selection failed, a blocked retry carries it, or an activation failure is latched |
| `ImageStatus.ReadyReasonExactly` | internal/controller/catalog_image_status.go:48-71 | the reason of Ready in every case |
| `ImageStatus.DegradedReasonExactly` | internal/controller/catalog_image_status.go:18-46 | the reasons of Degraded and of the selection, and the selection's status |
| `ImageStatus.ReductionKeepsInputs` | internal/controller/catalog_image_status.go:17-72 | a reduction touches nothing but its own conditions |
| `ImageStatus.ReduceIdempotent` | internal/controller/catalog_image_status.go:17-72 | reducing twice is reducing once, although Degraded feeds back |
| `ImageStatus.NeverReadyAndDegraded` | internal/controller/catalog_image_status.go:29-72 | with agreeing gates Ready and Degraded are never both True |
| `Activation.PrepareActivation` | internal/controller/catalog_activation_protocol.go:26-81 | keeps the attempt iff the request is unchanged, carries LastSuccessful over, gates it on resolution, renders from it, and reduces; fails only without a resolution |
| `Activation.ObserveActivation` | internal/controller/catalog_activation_protocol.go:85-158 | the whole new status as a function of the old one, the verdict and certification; an unreadable workload changes nothing |
| `Activation.ObserveWorkload` | internal/controller/catalog_activation_protocol.go:108-143 | the attempt after an examined workload |
| `AttemptLifecycle.RequestsAgreeExactly` | internal/controller/catalog_activation_protocol.go:31-43 | two requests are equal iff UID, both selections, images, both operator images, resolution verdict, evidence, legacy flag and retry annotation agree |
| `AttemptLifecycle.PreparationReplacesExactly` | internal/controller/catalog_activation_protocol.go:44-57 | on resolved images the attempt is kept as it is iff the request is the one it was created for; otherwise a fresh Pending one starts now and inherits the last success |
| `AttemptLifecycle.RetryRevivesFailedAttempt` | internal/controller/catalog_activation_protocol.go:37-74 | a changed retry annotation replaces a Failed attempt by a Pending one with one replica |
| `AttemptLifecycle.PreparationGatesExactly` | internal/controller/catalog_activation_protocol.go:58-71 | what unresolved images do to an attempt |
| `AttemptLifecycle.ObservationFailsExactly` | internal/controller/catalog_activation_protocol.go:99-143 | an observation fails an attempt iff the failure is terminal, or it is unready past 600 seconds while retrying without a restart of the deadline, or while Pending without a failure |
| `AttemptLifecycle.ObservationReportsExactly` | internal/controller/catalog_activation_protocol.go:99-143 | stage and reason after every kind of observation |
| `AttemptLifecycle.RetryWindowExactly` | internal/controller/catalog_activation_protocol.go:109-125 | when an observation moves the deadline and the recovery time, and to what |
| `AttemptLifecycle.FailedObservationExactly` | internal/controller/catalog_activation_protocol.go:91-98 | an observation of a Failed attempt changes only what it says |
| `AttemptLifecycle.ObservationKeepsIdentity` | internal/controller/catalog_activation_protocol.go:108-116 | identity and images never change; the certificate and the recovery time are written exactly once each |
| `AttemptLifecycle.NeverFailsEarly` | internal/controller/catalog_activation_protocol.go:117-143 | no run of retries and unready observations within ten minutes fails an attempt |
| `AttemptLifecycle.CertificationExactly` | internal/controller/catalog_activation_protocol.go:160-203 | a workload certifies an attempt iff all was read, its template and images are the attempt's, it serves, and the validated pods are as many as desired, at least one |
| `AttemptLifecycle.ReadFailureExactly` | internal/controller/catalog_activation_protocol.go:163-178 | the question stays open iff the Deployment, or the pods of one that would otherwise certify, could not be read |
| `AttemptLifecycle.StorageRoundsTimes` | api/catalog/v1alpha1/catalog_types.go:192-197 | storing rounds the two times of the attempt down to whole seconds and nothing else |
| `AttemptLifecycle.ReadinessIsCertifiedNow` | internal/controller/catalog_activation_protocol.go:145-149 | DataActivationReady is True after an observation iff that observation certified the attempt |
| `AttemptLifecycle.UnreadableWorkloadIsUnknown` | internal/controller/catalog_controller.go:721-725 | an unreadable workload changes nothing but DataActivationReady, and the Catalog is not Ready |
| `AttemptLifecycle.ObservationPublishesAvailability` | internal/controller/catalog_controller.go:714-729 | otherwise the availability verdict is published at the current generation |
| `AttemptLifecycle.ReadyWasJustCertified` | internal/controller/catalog_image_status.go:61-71 | in every run, Ready at the current generation means the last observation, at that generation, certified the attempt |
| `DeploymentStatus.ValidatedCatalogWorkload` | internal/controller/catalog_activation_protocol.go:162-203 | True iff the attempt's own template and images serve and exactly the desired, positive number of its live pods passed validation and are ready |
| `DeploymentStatus.CheckDeploymentAvailability` | internal/controller/catalog_controller.go:764-873 | True iff the workload serves the images, never with the reason of a failed reconcile; when exactly each other reason is reported |
| `DeploymentStatus.RolledOutExactly` | internal/controller/catalog_controller.go:774-806 | the replica counts of a complete rollout |
| `DeploymentStatus.MisconfiguredExactly` | internal/controller/catalog_controller.go:883-890 | a container that waits, unready, for anything but its creation |
| `DeploymentStatus.TemplateImagesExactly` | internal/controller/catalog_controller.go:784-793 | the template's images are those of the last init container of each name |
| `DeploymentStatus.ServingExactly` | internal/controller/catalog_controller.go:838-849 | an endpoint with an address that is not marked unready |
| `DeploymentStatus.ServesExactly` | internal/controller/catalog_controller.go:857-869 | availability takes effect after five seconds |
| `DeploymentStatus.FindServingEndpoint` | internal/controller/catalog_controller.go:764-873 | found iff some endpoint of some slice is ready and has an address |
| `DeploymentStatus.HasMisconfiguredContainer` | internal/controller/catalog_controller.go:875-896 | found iff some container of some pod waits for another reason than its creation |
| `DeploymentStatus.ReadTemplateImages` | internal/controller/catalog_controller.go:764-873 | the images of the two data init containers |
| `DeploymentStatus.ParseDeploymentConditions` | internal/controller/modelregistry_controller_status.go:225-255 | the scan satisfies the order-free rule ReplicaFailure over Progressing over Available |
| `DeploymentStatus.ScanFollowsRule` | internal/controller/modelregistry_controller_status.go:225-255 | the same rule for every list of distinct condition types |
| `DeploymentStatus.VerdictIgnoresOrder` | internal/controller/modelregistry_controller_status.go:225-255 | permuted conditions get the same verdict |
| `PodEvidence.CatalogActivationFailure` | internal/controller/catalog_activation.go:61-85 | the class of the verdict is the one the pods warrant as a multiset; the verdict is one eligible pod's, sanitized if terminal |
| `PodEvidence.ExaminePod` | internal/controller/catalog_activation.go:71-83 | the class of one pod's report, and that the report is its own |
| `PodVerdicts.PodReportsExactly` | internal/controller/catalog_activation.go:113-165 | over raw fields, a pod reports its failed phase, or its first troubled container, init containers first, with the stage and reason of that trouble, or nothing |
| `PodVerdicts.PodClassExactly` | internal/controller/catalog_activation.go:87-165 | terminal, retrying or none over waiting reasons, exit codes, crash loops and the phase |
| `PodVerdicts.ReportsExactly` | internal/controller/catalog_activation.go:71-83 | a pod counts for the list's verdict with the class of its own, if eligible |
| `PodVerdicts.SafeExactly` | internal/controller/catalog_activation.go:28-59 | which reasons survive sanitizing, and the stage of each |
| `PodVerdicts.EligibleExactly` | internal/controller/catalog_activation.go:71-111 | a pod counts iff it is live, of the attempt, and first runs the template's two data images and catalog image |
| `PodVerdicts.ValidatedExactly` | internal/controller/catalog_activation_protocol.go:181-196 | a certifying pod over raw statuses |
| `PodEvidence.VerdictIsNotSelection` | internal/controller/catalog_activation.go:113-165 | no pod reports a selection failure |
| `PodEvidence.VerdictIgnoresOrderAndStrangers` | internal/controller/catalog_activation.go:71-89 | the class depends neither on pod order nor on pods of other attempts |
| `PodEvidence.SafeIsTerminalFixpoint` | internal/controller/catalog_activation.go:28-59 | sanitizing stage and reason is idempotent and always terminal |
| `PodEvidence.CountValidatedPods` | internal/controller/catalog_activation_protocol.go:179-197 | the count is the number of certifying pods |
| `PodEvidence.IsPodValidated` | internal/controller/catalog_activation_protocol.go:181-196 | a live pod of the attempt with matching images, a passed validation and a ready catalog container |
| `ImageResolution.ResolvedImageIsCurrentOrServing` | internal/controller/catalog_data_images.go:150-178 | for every stream, a target reported ImageStreamResolved uses the current import or, while a re-import is pending, exactly the image the Succeeded attempt requested, pinned by digest |
| `ImageResolution.HealthyImportIsCurrent` | internal/controller/catalog_data_images.go:292-331 | with a healthy import the image handed on is the newest history entry, imported at or after the requested generation without a failure since |
| `ImageResolution.LastImportedIsPinned` | internal/controller/catalog_data_images.go:419-431 | whatever history yields is pinned by digest |
| `ImageResolution.OutcomeKinds` | internal/controller/catalog_data_images.go:96-193 | the verdicts one target can get |
| `StreamVerdicts.ImportHealthExactly` | internal/controller/catalog_data_images.go:292-331 | import health over the first stable history entry and the requested generation |
| `StreamVerdicts.LastImportedAt` | internal/controller/catalog_data_images.go:419-431 | the last import is the first usable event in history order |
| `StreamVerdicts.StreamResolvesExactly` | internal/controller/catalog_data_images.go:150-178 | a stream resolves its target iff its import is healthy, or pending while the image resolved at this generation and requested by the Succeeded attempt keeps serving |
| `StreamVerdicts.StreamFaultsExactly` | internal/controller/catalog_data_images.go:125-173 | the faults of a target that follows its stream, which fall back to the release image |
| `StreamVerdicts.UntrackedSelectionExactly` | internal/controller/catalog_data_images.go:107-128 | the verdict, image and health of a selection that follows no stream |
| `StreamVerdicts.ReleaseSourcedExactly` | internal/controller/catalog_data_images.go:140-149 | a stream follows the release iff its stable tag imports the release image |
| `StreamVerdicts.ResolvedByOwnStream` | internal/controller/catalog_data_images.go:129-178 | each target is resolved by its own stream, the benchmark by the catalog's iff the sources are equal and it was fetched |
| `StreamVerdicts.TargetsReadTheirOwnStreams` | internal/controller/catalog_data_images.go:55-61 | with separate sources neither stream touches the other target |
| `StreamVerdicts.TargetsUseTheirOwnInputs` | internal/controller/catalog_data_images.go:86-124 | release and pinned selections take the target's own release image or source |
| `StreamVerdicts.PinnedSelectionExactly` | internal/controller/catalog_data_images.go:119-124 | a pinned digest is used from the configured repository and tracks no stream |
| `StreamVerdicts.SelectionExactly` | internal/controller/catalog_data_images.go:36-44 | how a selection is read |
| `StreamVerdicts.FirstImportKeepsAppliedImage` | internal/controller/catalog_data_images.go:179-192 | a first import uses the applied image of its target |
| `StreamVerdicts.AppliedImageExactly` | internal/controller/catalog_data_images.go:333-350 | which is the last one of its init container, or the release's |
| `StreamVerdicts.EvidenceAgreesExactly` | internal/controller/catalog_data_images.go:248-263 | evidence tells streams, targets, verdicts and, unless healthy, requested generations apart |
| `StreamVerdicts.EvidenceOfTarget` | internal/controller/catalog_data_images.go:159-163 | the verdict that goes into the evidence |
| `StreamVerdicts.RetriedImportIsNewRequest` | internal/controller/catalog_data_images.go:248-263 | asking for another import of an unresolved stream is a new request |
| `StreamVerdicts.RetriedBenchmarkImportIsNewRequest` | internal/controller/catalog_data_images.go:248-263 | the same for the benchmark stream, shared or not |
| `StreamVerdicts.AggregateExactly` | internal/controller/catalog_data_images.go:265-287 | the first fault, else the first verdict that is not True, else agreement |
| `StreamVerdicts.FaultExactly` | internal/controller/catalog_data_images.go:222-237 | the blocking reason is a wait only if no target has a confirmed fault |
| `StreamVerdicts.BlockIsPublished` | internal/controller/catalog_data_images.go:238-243 | the block is published with that reason, or as allowed updates |
| `StreamVerdicts.PublishedPairExactly` | internal/controller/catalog_data_images.go:208-221 | when a pair is published, which one, and that its change marks the workload as updating |
| `ImageResolution.BlocksExactly` | internal/controller/catalog_data_images.go:206-246 | resolution blocks iff some target is neither resolved nor an ordinary first import |
| `ImageResolution.GatesAgreeAfterResolution` | internal/controller/catalog_activation_protocol.go:61-71 | without a block, preparation never newly fails an attempt; block and resolved are never both True at one generation; stage Selection is never new |
| `ImageResolution.ReimportsKeepAttempt` | internal/controller/catalog_data_images.go:150-177 | any number of pending re-imports and imports of the same digests keep the attempt, its images and its deadline |
| `ImageResolution.CertifiedPassIsSteady` | internal/controller/catalog_data_images.go:150-177 | a certified pass over resolved images establishes what that statement starts from |
| `DataImages.ResolveCatalogDataImages` | internal/controller/catalog_data_images.go:82-246 | status, parameters and block as functions of the old status and what was read |
| `DataImages.ResolveTarget` | internal/controller/catalog_data_images.go:96-193 | one target's conditions, image and evidence are its outcome |
| `DataImages.ResolveStableTarget` | internal/controller/catalog_data_images.go:140-192 | the same for a target that follows its stream |
| `ImageResolution.LegacyFileExactly` | internal/controller/catalog_data_images.go:85-204 | a resolved selection may use the legacy runtime file iff its content is the release's: the default, a stream importing the release source, or an import of the release digest; never a pinned digest |
| `ImageResolution.MirrorKeepsLegacyFile` | internal/controller/catalog_data_images.go:195-204 | a mirror importing the release digest from any repository may use it |
| `ImageResolution.BlockedStreamKeepsLegacyFile` | internal/controller/catalog_data_images.go:166-204 | a blocked stream falls back to the release image and so to its file |
| `DataImages.BenchmarkIgnoresCatalogOutcome` | internal/controller/catalog_data_images.go:96-193 | the second target does not depend on what the first one published |
| `DataImages.PublishResolution` | internal/controller/catalog_data_images.go:206-246 | aggregates, published pair, block and reduction |
| `ImageRefs.ImportedImageIsPinned` | internal/controller/catalog_data_images.go:433-446 | the reference is the event's repository without its tag at a digest of 64 hexadecimal characters; the repository is empty iff the event names only a tag |
| `ImageRefs.RepositoryCanBeEmpty` | internal/controller/catalog_data_images.go:433-446 | the events for which no repository remains |
| `ImageRefs.ImportedImageExactly` | internal/controller/catalog_data_images.go:433-446 | which events are usable |
| `ImageRefs.DigestExactly` | internal/controller/catalog_data_images.go:34-34 | a digest is sha256, a colon and 64 hexadecimal digits |
| `ImageRefs.TagIsStripped` | internal/controller/catalog_data_images.go:441-445 | a tag is stripped from any repository |
| `ImageRefs.PortIsKept` | internal/controller/catalog_data_images.go:441-445 | a registry port is not |
| `ImageRefs.RepoBaseExactly` | internal/controller/config/defaults.go:136-149 | tag and digest are stripped from a source with a slash, its port is kept |
| `ImageRefs.BareNameKeepsTag` | internal/controller/config/defaults.go:136-149 | a source without a slash keeps its tag |
| `ImageRefs.PinnedImageKeepsRepository` | internal/controller/config/defaults.go:139-169 | a pinned digest keeps the configured repository |
| `TagMerge.MergeTags` | internal/controller/catalog_data_images.go:376-411 | the nested loops compute the merge of every desired tag |
| `TagMerge.UnrelatedTagsAreKept` | internal/controller/catalog_data_images.go:376-388 | other tags keep place and content; only desired tags are appended |
| `TagMerge.EveryDesiredTagIsMerged` | internal/controller/catalog_data_images.go:376-411 | every desired tag is merged into the first tag of its name or appended as it is |
| `TagMerge.SourceReplacedExactly` | internal/controller/catalog_data_images.go:389-411 | the configured source is used iff there was none, it was it already, or the operator wrote the old one; a fresh import is requested iff it changed; policies always follow |
| `TagMerge.MergeIsIdempotent` | internal/controller/catalog_data_images.go:376-411 | merging again changes nothing, also after the import got a generation |
| `TagMerge.ManagedTagFollowsConfiguration` | internal/controller/catalog_data_images.go:389-405 | over any run a managed tag has the last configured source |
| `TagMerge.OverrideIsKeptExactly` | internal/controller/catalog_data_images.go:389-405 | an overridden source is kept over any run, and becomes managed again iff that very source is configured |
| `StatusPatch.SecondWriteExact` | internal/controller/catalog_controller.go:253-260 | the second merge patch stores the in-memory status iff no field was changed and put back |
| `StatusPatch.FirstWriteExact` | internal/controller/catalog_controller.go:752-762 | a patch against the stored status is exact |
| `StoredStatus.KeptAttemptIsStoredExactly` | internal/controller/catalog_controller.go:253-260 | with a kept attempt and resolved images, both writes together store exactly the in-memory status, whichever generation the status was settled at before |
| `StoredStatus.StatusDetermined` | api/catalog/v1alpha1/catalog_types.go:141-200 | the stored document determines the status |
| `StoredStatus.PutBackStateIsLost` | internal/controller/catalog_controller.go:253-260 | a state put back to that of the snapshot is not stored |
| `StoredStatus.FirstImportLosesState` | internal/controller/catalog_controller.go:253-260 | during a first import a ready, certified attempt is stored held back, with nothing but the new recovery time of its certification |
| `StoredStatus.FirstImportRegainsState` | internal/controller/catalog_controller.go:253-260 | and one held back is stored certified |
| `FirstImport.FirstImportAlternates` | internal/controller/catalog_controller.go:253-260 | over any number of ready passes the stored status is Succeeded after an even and Pending after an odd number, and otherwise unchanged |
| `FirstImport.PassStoresNextAttempt` | internal/controller/catalog_controller.go:253-260 | the whole status that one such pass stores |
| `FirstImport.ReadyPassWaits` | internal/controller/catalog_controller.go:691-730 | a ready pass over a kept, once certified attempt leads into that situation |
| `Teardown.Client.CleanupOnDelete` | internal/controller/aihub_controller.go:593-652 | one pass takes exactly the steps of the teardown machine, under any interference, lag and failures |
| `Teardown.Client.TakeOverCatalogFinalization` | internal/controller/aihub_controller.go:684-735 | operands, then the finalizer with retry on conflict, as steps of that machine |
| `Teardown.Client.CatalogOperatorCanFinalize` | internal/controller/aihub_controller.go:659-674 | able iff found, first Available condition True and a replica available |
| `TeardownGuarantees.FinalizerStrippedOnlyAfterCleanup` | internal/controller/aihub_controller.go:684-735 | in every run the Catalog finalizer is dropped only after the operator was found unable and all three operands were removed in the same pass; one still present was created since |
| `TeardownGuarantees.ForeignCatalogsAreSpared` | internal/controller/aihub_controller.go:606-612 | with a current first read and no replacement under a pass, only own Catalogs are deleted or stripped, and stripped only while deleting |
| `TeardownGuarantees.ReplacedCatalogIsDeleted` | internal/controller/aihub_controller.go:614-618 | any Catalog that takes the name between read and delete is deleted |
| `TeardownGuarantees.LaggingReadDeletesForeign` | internal/controller/aihub_controller.go:598-618 | so is a foreign Catalog that a lagging cache shows as an earlier own one |
| `TeardownGuarantees.ReleasedOnlyWhenNothingIsLeft` | internal/controller/aihub_controller.go:192-208 | with a current first read and no Catalog handed over during release, the AIHub finalizer is dropped only when no Catalog it controls remains |
| `TeardownGuarantees.LaggingReadReleasesEarly` | internal/controller/aihub_controller.go:598-601 | a cache one version behind releases the AIHub while its Catalog remains |
| `TeardownGuarantees.TeardownIsBlamelessExactly` | internal/controller/aihub_controller.go:593-735 | in every run only own Catalogs are deleted or stripped and the release leaves none behind, iff no call acts after the Catalog under the name has come to or gone from the AIHub since the version its pass read first |
| `TeardownGuarantees.RunsKnowOwner` | internal/controller/aihub_controller.go:598-612 | a pass that goes on has read an own Catalog, and one that releases has not |
| `TeardownGuarantees.TeardownEndsInTwoPassesExactly` | internal/controller/aihub_controller.go:593-652 | left alone, teardown ends within two passes iff no own Catalog is in the way or only its own finalizer is and the operator cannot remove it; otherwise never |
| `Teardown.IsDeploymentAvailable` | internal/controller/aihub_controller.go:908-915 | the first Available condition decides |
| `Teardown.CanFinalizeExactly` | internal/controller/aihub_controller.go:659-674 | the operator can finalize iff its first Available condition is True and a replica is available |
| `TeardownGuarantees.ConflictsAreRetried` | internal/controller/aihub_controller.go:721-734 | a conflicting update is retried on a fresh read, five updates in all |
| `TeardownGuarantees.FailedCallEndsPass` | internal/controller/aihub_controller.go:593-735 | a failed call changes nothing and ends the pass |
| `SelectorMigration.Reconciler.ReconcileIncompatibleSelectors` | internal/controller/aihub_controller.go:505-580 | the loop computes `Pass`, including errors and the uncached fallback |
| `SelectorMigration.MatchingDeploymentIsNeverDeleted` | internal/controller/aihub_controller.go:555-576 | in every run, however stale the reads, a deleted Deployment had a selector other than the one rendered for it |
| `SelectorMigration.DeleteHitsWhatWasRead` | internal/controller/aihub_controller.go:563-575 | an object with the UID of any version ever read has the selector that was read |
| `SelectorMigration.BoundDeleteExactly` | internal/controller/aihub_controller.go:563-576 | a delete bound to a UID touches that object alone |
| `SelectorMigration.NoDeletionAfterMigration` | internal/controller/aihub_controller.go:505-580 | once migrated, no run deletes anything, even on reads of old Deployments |
| `SelectorMigration.QuietPassIsExact` | internal/controller/aihub_controller.go:505-580 | an undisturbed pass is pending iff something is outdated, leaves nothing incompatible undeleted and touches nothing else |
| `SelectorMigration.QuietPassFailsExactly` | internal/controller/aihub_controller.go:512-525 | an undisturbed pass fails iff some Deployment's rendered selector cannot be read |
| `SelectorMigration.VisitFailsExactly` | internal/controller/aihub_controller.go:512-576 | when exactly the visit of one resource fails, with any interference |
| `SelectorMigration.QuietPassMigrates` | internal/controller/aihub_controller.go:505-580 | without finalizers one such pass completes the migration |
| `StreamMigration.Store.MigrateCatalogImageStreams` | internal/controller/aihub_controller.go:448-467 | one locked write, or none |
| `StreamMigration.Store.EnsureCatalog` | internal/controller/aihub_controller.go:386-420 | creates the Catalog if the read finds none, and migrates what it finds |
| `StreamMigration.MigrationIsAtomic` | internal/controller/aihub_controller.go:390-467 | whatever was read, an update changes both selections and the marker together and nothing else; a new Catalog starts on the streams and marked iff on OpenShift |
| `StreamMigration.MigratedSelectionsBelongToAdministrators` | internal/controller/aihub_controller.go:448-467 | once marked, every interleaving with AIHub leaves exactly the versions the other writers leave |
| `StreamMigration.MarkedAfterReconcileExactly` | internal/controller/aihub_controller.go:386-467 | when exactly a reconcile leaves the Catalog marked |
| `StreamMigration.RemovedMarkerMigratesAgain` | internal/controller/aihub_controller.go:448-467 | removing the marker hands the selections back to AIHub |
| `HubReadiness.ReconcileCatalogReadiness` | internal/controller/aihub_controller.go:471-485 | ready iff Ready and not Degraded at the current generation; reason and failure |
| `HubReadiness.HubReadyExactly` | internal/controller/aihub_controller.go:469-485 | after any Catalog run AIHub is ready iff the status is current and the selected images are served; the Degraded check never decides |

## Left out

- Message texts: conditions, attempts and failures carry status, reason and stage only; events, logs and requeue delays are not modelled.
- SHA-256 of the encoded request is an injective constructor and import evidence is a structured value; nonces are parameters, distinct where a statement says so; encoding and random-source errors are not modelled.
- Each observation has one clock reading, and repeated reads of one object within an observation see one version.
- Stored documents write times as they are held; what whole-second storage does to them is in `RecoveryWindow`.
- Conditions are a record with one entry per type; their transition times and list order are not modelled.
- Catalog runs start from an empty status and are in-memory transitions; `StoredStatus.KeptAttemptIsStoredExactly` says when the stored status is the same, and `RolloutProtocol` lets the second write store either condition list.
- RolloutProtocol: reconciles are steps on values, so in-place update of the Deployment object is not captured there; the Deployment is its attempt, images and replicas.
- A failed API call has no effect; calls that take effect and then report an error are covered only as actions of others.
- AIHub has one instances namespace for its lifetime, as docs/aihub-dsc-v3-migration.md requires.
- TeardownGuarantees.ForeignCatalogsAreSpared: conditional, because deletion by name is not bound to the object that was read; the two counterexamples show that each condition is needed, and `TeardownIsBlamelessExactly` has the exact condition.
- TeardownGuarantees.ReleasedOnlyWhenNothingIsLeft: conditional on a current first read, for the reason shown by the counterexample beside it.
- CatalogGuarantees.DegradedSurvives: one direction only, because with other failures in the run Degraded can be set again for their own reasons.
- Configured image tags in `ResolveImage`: selections are validated to be empty, stable or a digest before it is called.
- The TLS profile, templates other than the replica rule, Services, Roles, Routes, NetworkPolicies, ConfigMaps, Secrets, webhooks, conversion and content validation would only add easy members.
- The AIHub condition manager, the Deployer, ServiceMonitor and provisioning order are not modelled.
- The ModelRegistry controller apart from its Deployment condition parser is not part of this model.
