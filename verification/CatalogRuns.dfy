/** Runs of a whole Catalog: spec edits, image resolution, attempts, observations and
    error reports in any order, from an empty status. */
module CatalogRuns {
  import opened CatalogTypes
  import opened ImageStatus
  import opened PodEvidence
  import opened DeploymentStatus
  import opened Activation
  import opened DataImages
  import opened ImageResolution
  import RecoveryWindow

  datatype World = World(meta: CatalogMeta, status: CatalogStatus)

  datatype Step =
    /** An administrator edits the spec or the annotations. */
    | Edit(meta: CatalogMeta)
    | ResolveImages(seen: ResolutionReads)
    | Prepare(runtime: Runtime, params: Params, nonce: string, now: int)
    /** updateStatus: observe the attempt, then record the availability verdict. */
    | Observe(failure: Option<Failure>, workload: WorkloadReads, availability: Condition)
    /** Any error path that records an unavailable or unknown workload. */
    | Report(verdict: Condition)
    /** The status is stored, with times in whole seconds. */
    | Store

  predicate Allowed(w: World, step: Step) {
    match step
    case Edit(meta) => meta.uid == w.meta.uid && meta.generation >= w.meta.generation
    case Observe(failure, _, availability) =>
      && (availability.status == ConditionTrue ==> availability.reason == DeploymentAvailable)
      && (failure.Some? ==> failure.value.stage != StageSelection)
    case Report(verdict) => verdict.status != ConditionTrue
    case _ => true
  }

  /** Every step that writes status ends in a reduction. */
  predicate Reduces(step: Step) {
    step.ResolveImages? || step.Prepare? || step.Observe? || step.Report?
  }

  function WithWorkload(s: CatalogStatus, workload: Condition, generation: int): CatalogStatus {
    s.(conditions := s.conditions.(workload := Some(workload.(observedGeneration := generation))))
  }

  /** The current attempt is examined in this step and its workload certifies it. */
  ghost predicate CertifiesNow(w: World, step: Step) {
    && step.Observe? && w.status.activation.Some?
    && var a := w.status.activation.value;
       Examines(a, step.failure) && Certifies(step.workload, a.attemptID, a.images)
  }

  ghost predicate ObservationFails(w: World, step: Step)
    requires step.Observe?
  {
    && w.status.activation.Some?
    && var a := w.status.activation.value;
       Examines(a, step.failure) && ReadFailed(step.workload, a.attemptID, a.images)
  }

  ghost function Observed(w: World, step: Step): CatalogStatus
    requires step.Observe?
  {
    var generation := w.meta.generation;
    if ObservationFails(w, step) then
      w.status.(conditions := w.status.conditions.(activationReady := Some(Condition(ConditionFalse,
          ActivationStatusUnknown, generation))))
    else
      var s := w.status;
      var ready := s.activation.Some? && Certifies(step.workload, s.activation.value.attemptID,
          s.activation.value.images);
      WithWorkload(ObservedStatus(s, generation, step.failure, ready, step.workload.now), step.availability, generation)
  }

  function Prepared(w: World, runtime: Runtime, params: Params, nonce: string, now: int): CatalogStatus {
    if w.status.conditions.resolved.None? then w.status
    else
      var resolved := w.status.conditions.resolved.value;
      PreparedStatus(w.status, w.meta.generation,
        PreparedAttempt(w.status.activation, RequestOf(w.meta, runtime, params, resolved), resolved, nonce, now),
            resolved)
  }

  function StoredStatus(s: CatalogStatus): CatalogStatus {
    if s.activation.None? then s else s.(activation := Some(RecoveryWindow.Stored(s.activation.value)))
  }

  ghost function After(w: World, step: Step): World {
    match step
    case Edit(meta) => w.(meta := meta)
    case ResolveImages(seen) => w.(status := Resolve(w.status, w.meta, seen))
    case Prepare(runtime, params, nonce, now) => w.(status := Prepared(w, runtime, params, nonce, now))
    case Observe(_, _, _) => w.(status := Reduced(Observed(w, step), w.meta.generation))
    case Report(verdict) => w.(status := Reduced(WithWorkload(w.status, verdict, w.meta.generation), w.meta.generation))
    case Store => w.(status := StoredStatus(w.status))
  }

  ghost function Run(w: World, steps: seq<Step>): World
    decreases |steps|
  {
    if steps == [] then w else Run(After(w, steps[0]), steps[1..])
  }

  ghost predicate Possible(w: World, steps: seq<Step>)
    decreases |steps|
  {
    steps == [] || (Allowed(w, steps[0]) && Possible(After(w, steps[0]), steps[1..]))
  }

  // ---- What every reachable status satisfies ----

  predicate AttemptSound(s: CatalogStatus) {
    s.activation.Some? ==>
      var a := s.activation.value;
      && RecoveryWindow.SucceededIsCertified(a)
      && a.images == a.requestedImages == a.requestHash.request.images
      && a.stage != StageSelection
  }

  /** A latched activation failure and a succeeded attempt exclude each other. */
  predicate FailureSound(s: CatalogStatus) {
    Holds(s.conditions.activationFailed) ==> s.activation.Some? && s.activation.value.state != Succeeded
  }

  predicate ResolutionSound(c: Conditions) {
    && (c.resolved.Some? <==> c.updateBlocked.Some?)
    && (c.resolved.Some? ==>
          && c.resolved.value.observedGeneration == c.updateBlocked.value.observedGeneration
          && c.resolved.value.reason != InvalidImageSelection)
    && GatesAgree(c)
  }

  /** The inputs of the reducer are sound. */
  predicate Sound(s: CatalogStatus) {
    AttemptSound(s) && FailureSound(s) && ResolutionSound(s.conditions) && WorkloadReasonSound(s.conditions)
  }

  /** What the published conditions say at the current generation. */
  predicate Truthful(w: World) {
    var c := w.status.conditions;
    && c.ready == c.available && (c.ready.Some? <==> c.degraded.Some?)
    && (c.ready.Some? ==>
          && c.ready.value.observedGeneration == c.degraded.value.observedGeneration <= w.meta.generation
          && !(Holds(c.ready) && Holds(c.degraded))
          && (Holds(c.activationFailed) ==> Holds(c.degraded) && c.ready.value.status == ConditionFalse))
    && (Holds(c.activationFailed) ==> c.ready.Some?)
    && (ObservedAt(c.ready, w.meta.generation) ==>
        (Holds(c.ready) <==> ServesSelectedImages(w.status, w.meta.generation)))
  }

  predicate Reachable(w: World) {
    Sound(w.status) && Truthful(w)
  }

  lemma ReductionIsTruthful(meta: CatalogMeta, s: CatalogStatus)
    requires Sound(s)
    ensures Reachable(World(meta, Reduced(s, meta.generation)))
  {
    ReadyExactly(s, meta.generation);
    DegradedExactly(s, meta.generation);
    NeverReadyAndDegraded(s, meta.generation);
  }

  lemma ResolutionKeepsSound(w: World, seen: ResolutionReads)
    requires Sound(w.status)
    ensures Reachable(After(w, ResolveImages(seen)))
  {
    BlocksExactly(w.status, w.meta, seen);
    var oc, ob := CatalogOutcome(w.status, w.meta, seen), BenchmarkOutcome(w.status, w.meta, seen);
    var c := TargetConditions(w.status, w.meta.generation, oc, ob);
    var images := PublishedImages(w.status.activation, Aggregate(oc.resolved, ob.resolved), Images(oc.image, ob.image));
    var before := w.status.(
      conditions := c.(workload := if w.status.resolvedImages != images
          then At(Health(ConditionFalse, ImagesUpdating), w.meta.generation) else c.workload,
                       updateBlocked := At(BlockCondition(oc, ob), w.meta.generation)),
      resolvedImages := images);
    ReductionIsTruthful(w.meta, before);
  }

  lemma PreparationKeepsSound(w: World, runtime: Runtime, params: Params, nonce: string, now: int)
    requires Reachable(w)
    ensures Reachable(After(w, Prepare(runtime, params, nonce, now)))
  {
    if w.status.conditions.resolved.Some? {
      var resolved := w.status.conditions.resolved.value;
      var a := PreparedAttempt(w.status.activation, RequestOf(w.meta, runtime, params, resolved), resolved, nonce, now);
      ReductionIsTruthful(w.meta, w.status.(
        activation := Some(a),
        resolvedImages := if resolved.status == ConditionTrue then Some(a.images) else w.status.resolvedImages));
    }
  }

  lemma SafeIsNotSelection(f: Failure)
    ensures Safe(f).stage != StageSelection
  {
  }

  lemma ObservedStage(a: Attempt, failure: Option<Failure>, ready: bool, now: int)
    requires a.stage != StageSelection && (failure.Some? ==> failure.value.stage != StageSelection)
    ensures ObservedAttempt(a, failure, ready, now).stage != StageSelection
  {
    SafeIsNotSelection(Failure(a.stage, a.reason));
    if failure.Some? {
      SafeIsNotSelection(failure.value);
    }
  }

  lemma ObservedAttemptSound(a: Attempt, failure: Option<Failure>, ready: bool, now: int)
    requires RecoveryWindow.SucceededIsCertified(a)
    requires a.images == a.requestedImages == a.requestHash.request.images
    requires a.stage != StageSelection && (failure.Some? ==> failure.value.stage != StageSelection)
    ensures var b := ObservedAttempt(a, failure, ready, now);
            && RecoveryWindow.SucceededIsCertified(b) && b.stage != StageSelection
            && b.images == b.requestedImages == b.requestHash.request.images
  {
    ObservedStage(a, failure, ready, now);
  }

  /** A latched failure and success still exclude each other after an observation. */
  lemma ObservedFailureSound(s: CatalogStatus, generation: int, failure: Option<Failure>, ready: bool, now: int)
    requires FailureSound(s)
    ensures FailureSound(ObservedStatus(s, generation, failure, ready, now))
  {
  }

  lemma ObservedSound(w: World, step: Step)
    requires Sound(w.status) && step.Observe? && Allowed(w, step)
    ensures Sound(Observed(w, step))
  {
    var s := w.status;
    if s.activation.Some? {
      var a := s.activation.value;
      var ready := Certifies(step.workload, a.attemptID, a.images);
      ObservedAttemptSound(a, step.failure, ready, step.workload.now);
      ObservedFailureSound(s, w.meta.generation, step.failure, ready, step.workload.now);
    }
  }

  lemma ObservationKeepsSound(w: World, step: Step)
    requires Sound(w.status) && step.Observe? && Allowed(w, step)
    ensures Reachable(After(w, step))
  {
    ObservedSound(w, step);
    ReductionIsTruthful(w.meta, Observed(w, step));
  }

  lemma StepKeepsReachable(w: World, step: Step)
    requires Reachable(w) && Allowed(w, step)
    ensures Reachable(After(w, step))
  {
    match step
    case Edit(meta) =>
    case ResolveImages(seen) => ResolutionKeepsSound(w, seen);
    case Prepare(runtime, params, nonce, now) => PreparationKeepsSound(w, runtime, params, nonce, now);
    case Observe(_, _, _) => ObservationKeepsSound(w, step);
    case Report(verdict) => ReductionIsTruthful(w.meta, WithWorkload(w.status, verdict, w.meta.generation));
    case Store =>
  }

  lemma {:induction false} RunsStayReachable(w: World, steps: seq<Step>)
    requires Reachable(w) && Possible(w, steps)
    ensures Reachable(Run(w, steps))
    decreases |steps|
  {
    if steps != [] {
      StepKeepsReachable(w, steps[0]);
      RunsStayReachable(After(w, steps[0]), steps[1..]);
    }
  }

  /** In every run from an empty status: Ready equals Available; Ready and Degraded are
      never both True; Ready observed at the current generation is True exactly when the
      selection, the workload and the current attempt are confirmed at that generation
      with no latched failure; and a latched activation failure means Degraded and not
      Ready. */
  lemma PublishedStatusIsTruthful(meta: CatalogMeta, steps: seq<Step>)
    requires Possible(World(meta, EmptyStatus), steps)
    ensures Reachable(Run(World(meta, EmptyStatus), steps))
  {
    RunsStayReachable(World(meta, EmptyStatus), steps);
  }
}
