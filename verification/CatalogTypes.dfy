/** The Catalog resource: conditions, the persisted activation attempt and the
    object that the controller's functions update in place. Condition and attempt
    message texts are not modelled. */
module CatalogTypes {

  datatype Option<+T> = None | Some(value: T)

  datatype ConditionStatus = ConditionTrue | ConditionFalse | ConditionUnknown

  /** Every reason the controller writes; `OtherReason` stands for text persisted by
      other operator versions. */
  datatype Reason =
    | SelectionPending | DataImagesHealthy | DataImagesUnavailable | WorkloadPending
    | ActivationPending | ResourcesUnavailable
    | ReleaseDefault | DigestPinned | ImageStreamResolved | IndependentSelections
    | InvalidDataImageSelection | InvalidImageSelection | UnsupportedDataImageSelection
    | ImageStreamUnavailable | NotTrackingImageStream | AppliedImageReadFailed
    | ImportPending | ImportFailed | InvalidImportedImage | ImportSucceeded
    | AwaitingSuccessfulImport | NoSuccessfulImport | UpdatesAllowed | ImagesUpdating
    | WorkloadValidated | ActivationTimedOut
    | DataImagePullRetrying | CatalogRestarting
    | CatalogStartupFailed | DataImagePullFailed | CatalogPodFailed | CatalogContainerFailed
    | DataImageInitializationFailed | CatalogContentInvalid | BenchmarkContentInvalid | ActivationFailed
    | DeploymentAvailable | DeploymentUnavailable | DeploymentCooldown | ConfigurationError | ScaledDown
    | CatalogContainmentFailed | WorkloadStatusUnknown | ActivationStatusUnknown
    | OtherReason(text: string)

  datatype Condition = Condition(status: ConditionStatus, reason: Reason, observedGeneration: int)

  /** Status conditions are unique per type, so the list is a record with one
      optional entry per type. */
  datatype Conditions = Conditions(
    resolved: Option<Condition>,               // DataImageResolved
    importHealthy: Option<Condition>,          // DataImageImportHealthy
    updateBlocked: Option<Condition>,          // DataImageUpdateBlocked
    catalogResolved: Option<Condition>,        // CatalogDataImageResolved
    benchmarkResolved: Option<Condition>,      // BenchmarkDataImageResolved
    catalogImportHealthy: Option<Condition>,   // CatalogDataImageImportHealthy
    benchmarkImportHealthy: Option<Condition>, // BenchmarkDataImageImportHealthy
    selectionReady: Option<Condition>,         // ImageSelectionReady
    workload: Option<Condition>,               // WorkloadAvailable
    activationReady: Option<Condition>,        // DataActivationReady
    activationFailed: Option<Condition>,       // DataImageActivationFailed
    degraded: Option<Condition>,               // Degraded
    ready: Option<Condition>,                  // Ready
    available: Option<Condition>)              // Available

  const NoConditions := Conditions(None, None, None, None, None, None, None, None, None, None, None, None, None, None)

  predicate Holds(c: Option<Condition>) {
    c.Some? && c.value.status == ConditionTrue
  }

  predicate ObservedAt(c: Option<Condition>, generation: int) {
    c.Some? && c.value.observedGeneration == generation
  }

  predicate HoldsAt(c: Option<Condition>, generation: int) {
    Holds(c) && c.value.observedGeneration == generation
  }

  datatype Images = Images(catalog: string, benchmark: string)

  datatype AttemptState = Pending | Failed | Succeeded

  datatype Stage =
    | StageActivation | StageImport | StageSelection | StageLoading | StageInitialization | StagePull
    | OtherStage(text: string)

  /** One quoted field group of the import evidence. */
  datatype Evidence = Evidence(streamUID: string, target: string, status: ConditionStatus, generation: Option<int>)

  /** Everything whose change starts a new attempt. */
  datatype Request = Request(
    uid: string, catalogSelection: string, benchmarkSelection: string,
    images: Images, restImage: string, operatorImage: string,
    resolvedStatus: ConditionStatus, resolvedReason: Reason,
    evidence: seq<Evidence>, allowLegacyRuntimeFile: bool, retry: string)

  /** SHA-256 of the encoded request, as a symbolic injective digest. */
  datatype Fingerprint = Sha256(request: Request)

  datatype Success = Success(catalogUID: string, attemptID: string, images: Images, activatedAt: int)

  datatype Attempt = Attempt(
    catalogUID: string, attemptID: string, requestHash: Fingerprint,
    requestedImages: Images, images: Images,
    state: AttemptState, stage: Stage, reason: Reason,
    startedAt: int, recoveredAt: Option<int>, lastSuccessful: Option<Success>)

  datatype CatalogStatus = CatalogStatus(
    conditions: Conditions, activation: Option<Attempt>,
    resolvedImages: Option<Images>, observedGeneration: int)

  const EmptyStatus := CatalogStatus(NoConditions, None, None, 0)

  /** Metadata and spec fields that the protocol reads. */
  datatype CatalogMeta = CatalogMeta(
    uid: string, generation: int,
    catalogSelection: Option<string>, benchmarkSelection: Option<string>, retry: string)

  /** Template parameters that the protocol reads or writes. */
  datatype Params = Params(
    images: Images, evidence: seq<Evidence>, allowLegacyRuntimeFile: bool,
    activationAttempt: string, activationBlocked: bool)

  /** The in-memory Catalog that one reconcile updates field by field. */
  class Catalog {
    var meta: CatalogMeta
    var conditions: Conditions
    var activation: Option<Attempt>
    var resolvedImages: Option<Images>
    var observedGeneration: int

    constructor (m: CatalogMeta, s: CatalogStatus)
      ensures meta == m && Status() == s
    {
      meta := m;
      conditions, activation := s.conditions, s.activation;
      resolvedImages, observedGeneration := s.resolvedImages, s.observedGeneration;
    }

    function Status(): CatalogStatus
      reads this
    {
      CatalogStatus(conditions, activation, resolvedImages, observedGeneration)
    }
  }
}
