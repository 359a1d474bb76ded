/** When attempts are replaced, fail, and are reported ready. */
module AttemptLifecycle {
  import opened CatalogTypes
  import opened ImageStatus
  import opened PodEvidence
  import opened DeploymentStatus
  import opened Activation
  import opened RecoveryWindow
  import Runs = CatalogRuns

  // ----- Requests -----

  /** What an administrator selects, as text; an absent selection reads as empty. */
  predicate SameText(a: Option<string>, b: Option<string>) {
    || a == b
    || (a.None? && b == Some(""))
    || (a == Some("") && b.None?)
  }

  /** Two requests are the same exactly if every one of these inputs is. */
  lemma RequestsAgreeExactly(
    m: CatalogMeta, n: CatalogMeta, r: Runtime, s: Runtime, p: Params, q: Params, c: Condition, d: Condition)
    ensures RequestOf(m, r, p, c) == RequestOf(n, s, q, d) <==>
              && m.uid == n.uid && m.retry == n.retry
              && SameText(m.catalogSelection, n.catalogSelection)
                  && SameText(m.benchmarkSelection, n.benchmarkSelection)
              && r.restImage == s.restImage && r.operatorImage == s.operatorImage
              && p.images.catalog == q.images.catalog && p.images.benchmark == q.images.benchmark
              && p.evidence == q.evidence && p.allowLegacyRuntimeFile == q.allowLegacyRuntimeFile
              && c.status == d.status && c.reason == d.reason
  {
  }

  /** An attempt created for this request. */
  predicate IsFresh(a: Attempt, meta: CatalogMeta, params: Params, nonce: string, now: int) {
    && a.catalogUID == meta.uid && a.attemptID == nonce
    && a.images == params.images && a.requestedImages == params.images
    && a.state == Pending && a.stage == StageActivation && a.reason == ActivationPending
    && a.startedAt == now && a.recoveredAt.None?
  }

  /** Preparation on resolved images keeps the attempt exactly as it is if every input is
      the one it was created for; otherwise it starts a fresh one, whatever became of the
      old, and hands on the last success. */
  lemma PreparationReplacesExactly(
    previous: Option<Attempt>, m: CatalogMeta, r: Runtime, p: Params, resolved: Condition,
    n: CatalogMeta, s: Runtime, q: Params, created: Condition, nonce: string, now: int)
    requires resolved.status == ConditionTrue
    requires previous.Some? ==> previous.value.requestHash == Sha256(RequestOf(n, s, q, created))
    ensures var a := PreparedAttempt(previous, RequestOf(m, r, p, resolved), resolved, nonce, now);
            var same := previous.Some? && RequestOf(m, r, p, resolved) == RequestOf(n, s, q, created);
            && (same ==> a == previous.value)
            && (!same ==>
                  && IsFresh(a, m, p, nonce, now) && a.requestHash == Sha256(RequestOf(m, r, p, resolved))
                  && a.lastSuccessful == (if previous.Some? then previous.value.lastSuccessful else None))
  {
  }

  /** So a retry request, like any other change, revives a failed Catalog with one replica. */
  lemma RetryRevivesFailedAttempt(
    failed: Attempt, m: CatalogMeta, retry: string, r: Runtime, p: Params, resolved: Condition, nonce: string, now: int)
    requires failed.state == Failed && failed.requestHash == Sha256(RequestOf(m, r, p, resolved))
    requires resolved.status == ConditionTrue && retry != m.retry
    ensures var a := PreparedAttempt(Some(failed), RequestOf(m.(retry := retry), r, p, resolved), resolved, nonce, now);
            && IsFresh(a, m, p, nonce, now) && a.lastSuccessful == failed.lastSuccessful
            && RenderParams(p, a).activationAttempt == nonce && RenderedReplicas(RenderParams(p, a)) == 1
  {
    RequestsAgreeExactly(m, m.(retry := retry), r, r, p, p, resolved, resolved);
    PreparationReplacesExactly(Some(failed), m.(retry := retry), r, p, resolved, m, r, p, resolved, nonce, now);
  }

  /** What unresolved images do to the attempt that preparation keeps or creates: a failed
      one stays as it is, a fault fails it, and anything else holds it back. */
  lemma PreparationGatesExactly(a: Attempt, resolved: Condition)
    ensures var b := Gated(a, resolved);
            && b == a.(state := b.state, stage := b.stage, reason := b.reason)
            && (resolved.status == ConditionTrue || a.state == Failed ==> b == a)
            && (resolved.status != ConditionTrue && a.state != Failed ==>
                  && b.reason == resolved.reason
                  && b.stage == (if resolved.reason == InvalidImageSelection then StageSelection else StageImport)
                  && b.state == (if resolved.status == ConditionFalse && resolved.reason != NoSuccessfulImport
                                 then Failed else Pending))
  {
  }

  // ----- Observations -----

  const TenMinutesInNanoseconds := 600_000_000_000

  /** What one observation does to an attempt that has not failed. */
  lemma ObservationFailsExactly(a: Attempt, failure: Option<Failure>, ready: bool, now: int)
    requires a.state != Failed
    ensures var b := ObservedAttempt(a, failure, ready, now);
            var terminal := failure.Some? && failure.value.reason !in {DataImagePullRetrying, CatalogRestarting};
            var retrying := failure.Some? && !terminal;
            b.state == Failed <==>
              || terminal
              || (&& retrying && !ready && now - a.startedAt > TenMinutesInNanoseconds
                  && !(&& a.state == Succeeded
                       && (a.recoveredAt.None? || now - a.recoveredAt.value >= TenMinutesInNanoseconds)))
              || (failure.None? && !ready && a.state == Pending && now - a.startedAt > TenMinutesInNanoseconds)
  {
  }

  /** And what it says about it. */
  lemma ObservationReportsExactly(a: Attempt, failure: Option<Failure>, ready: bool, now: int)
    requires a.state != Failed
    ensures var b := ObservedAttempt(a, failure, ready, now);
            var terminal := failure.Some? && failure.value.reason !in {DataImagePullRetrying, CatalogRestarting};
            && (terminal ==> b.reason == Safe(failure.value).reason && b.stage == Safe(failure.value).stage)
            && (!terminal && ready ==>
                b.state == Succeeded && b.reason == WorkloadValidated && b.stage == StageActivation)
            && (!terminal && !ready && failure.Some? ==>
                  if b.state == Pending then b.stage == failure.value.stage && b.reason == failure.value.reason
                  else if failure.value.reason == DataImagePullRetrying then b.stage == StagePull
                      && b.reason == DataImagePullFailed
                  else b.stage == StageActivation && b.reason == CatalogStartupFailed)
            && (!terminal && !ready && failure.None? ==>
                  if b.state == Failed then b.stage == StageActivation && b.reason == ActivationTimedOut
                  else b == a)
  {
  }

  /** A retry restarts the deadline exactly for a certified attempt whose last recovery, if
      any, is ten minutes old, and ends the recovery. Nothing else moves either time. */
  lemma RetryWindowExactly(a: Attempt, failure: Option<Failure>, ready: bool, now: int)
    requires a.state != Failed
    ensures var b := ObservedAttempt(a, failure, ready, now);
            var retries := failure.Some? && failure.value.reason in {DataImagePullRetrying, CatalogRestarting}
                && !ready;
            && b.startedAt == (if && retries && a.state == Succeeded
                                  && (a.recoveredAt.None? || now - a.recoveredAt.value >= TenMinutesInNanoseconds)
                               then now else a.startedAt)
            && (retries ==> b.recoveredAt == if a.state == Succeeded then None else a.recoveredAt)
            && (!retries && b.recoveredAt != a.recoveredAt ==> b.state == Succeeded && b.recoveredAt == Some(now))
  {
  }

  /** What never changes in an observation, and the certificate that a first one writes. */
  lemma ObservationKeepsIdentity(a: Attempt, failure: Option<Failure>, ready: bool, now: int)
    ensures var b := ObservedAttempt(a, failure, ready, now);
            && b.catalogUID == a.catalogUID && b.attemptID == a.attemptID && b.requestHash == a.requestHash
            && b.requestedImages == a.requestedImages && b.images == a.images
            && (b.lastSuccessful != a.lastSuccessful ==>
                  && b.state == Succeeded && !OwnSuccess(a)
                  && b.lastSuccessful == Some(Success(a.catalogUID, a.attemptID, a.images, now)))
            && (b.state == Succeeded && a.state != Succeeded && !OwnSuccess(a) ==> b.recoveredAt == a.recoveredAt)
            && (b.state == Succeeded && a.state != Succeeded && OwnSuccess(a) ==> b.recoveredAt == Some(now))
  {
  }

  /** An observation of a failed attempt only tidies up what it says: import and selection
      failures keep their words, all others get known ones. */
  lemma FailedObservationExactly(a: Attempt, failure: Option<Failure>, ready: bool, now: int)
    requires a.state == Failed
    ensures ObservedAttempt(a, failure, ready, now) ==
              if a.stage in {StageImport, StageSelection} then a
              else a.(stage := Safe(Failure(a.stage, a.reason)).stage,
                  reason := Safe(Failure(a.stage, a.reason)).reason)
  {
  }

  /** Nothing that fails an attempt: retries and unready observations within ten minutes
      of `t`, down to its stored second, and no fault of the images. */
  predicate Harmless(step: Step, t: int) {
    match step
    case Store => true
    case Prepare(resolved) => resolved.status != ConditionFalse || resolved.reason == NoSuccessfulImport
    case Observe(failure, ready, now) =>
      && (failure.Some? ==> failure.value.reason in {DataImagePullRetrying, CatalogRestarting})
      && (ready || now - WholeSecond(t) <= TenMinutesInNanoseconds)
  }

  /** No run fails an attempt before its ten minutes are over. */
  lemma {:induction false} NeverFailsEarly(a: Attempt, steps: seq<Step>, t: int, clock: int)
    requires a.state != Failed && WholeSecond(t) <= a.startedAt && t <= clock && Timed(steps, clock)
    requires forall i :: 0 <= i < |steps| ==> Harmless(steps[i], t)
    ensures Run(a, steps).state != Failed
    decreases |steps|
  {
    if steps != [] {
      var step, next := steps[0], After(a, steps[0]);
      WholeSecondMonotone(t, t);
      WholeSecondMonotone(WholeSecond(t), a.startedAt);
      NeverFailsEarly(next, steps[1..], t, if step.Observe? then step.now else clock);
    }
  }

  // ----- Readiness -----

  /** A workload certifies an attempt exactly if everything was read, the Deployment's
      template is the attempt's with its images, it serves, and the pods that passed
      validation for the attempt are as many as desired, at least one. */
  lemma CertificationExactly(w: WorkloadReads, attempt: string, images: Images)
    ensures Certifies(w, attempt, images) <==>
              && !w.getFailed && w.deployment.Some? && w.pods.Some?
              && w.deployment.value.templateAttempt == attempt && TemplateImages(w.deployment.value) == images
              && ServesSometime(w.deployment.value, None, w.around)
              && w.now - Scanned(w.deployment.value.conditions).verdict.availableSince >= 5_000_000_000
              && var desired := if w.deployment.value.replicas.None? then 1 else w.deployment.value.replicas.value;
                 && desired > 0
                 && desired == |set i | 0 <= i < |w.pods.value|
                                        && PodValidated(w.pods.value[i], w.deployment.value.template, attempt)|
  {
    if w.deployment.Some? {
      ServesExactly(w.deployment.value, Some(images), w.around, w.now);
    }
    if w.deployment.Some? && w.pods.Some? {
      assert CertifyingPods(w.pods.value, w.deployment.value.template, attempt)
             == set i | 0 <= i < |w.pods.value| && PodValidated(w.pods.value[i], w.deployment.value.template, attempt);
    }
  }

  /** The question is left open exactly if the Deployment could not be read, or the pods of
      one that would otherwise certify could not be listed. */
  lemma ReadFailureExactly(w: WorkloadReads, attempt: string, images: Images)
    ensures ReadFailed(w, attempt, images) <==>
              || w.getFailed
              || (&& w.deployment.Some? && w.pods.None?
                  && w.deployment.value.templateAttempt == attempt && TemplateImages(w.deployment.value) == images
                  && ServesSometime(w.deployment.value, None, w.around)
                  && w.now - Scanned(w.deployment.value.conditions).verdict.availableSince >= 5_000_000_000)
  {
    if w.deployment.Some? {
      ServesExactly(w.deployment.value, Some(images), w.around, w.now);
    }
  }

  /** Storing a status rounds the two times of its attempt down to whole seconds. */
  lemma StorageRoundsTimes(w: Runs.World)
    ensures var s := Runs.After(w, Runs.Store).status;
            && s == w.status.(activation := s.activation) && (s.activation.Some? <==> w.status.activation.Some?)
            && (s.activation.Some? ==>
                  var a, b := w.status.activation.value, s.activation.value;
                  && b == a.(startedAt := b.startedAt, recoveredAt := b.recoveredAt)
                  && b.startedAt % 1_000_000_000 == 0 && 0 <= a.startedAt - b.startedAt < 1_000_000_000
                  && (b.recoveredAt.Some? <==> a.recoveredAt.Some?)
                  && (b.recoveredAt.Some? ==>
                        && b.recoveredAt.value % 1_000_000_000 == 0
                        && 0 <= a.recoveredAt.value - b.recoveredAt.value < 1_000_000_000))
  {
  }

  /** DataActivationReady is True after an observation exactly if that observation found
      the attempt's own workload validated; being Succeeded is not enough. */
  lemma ReadinessIsCertifiedNow(w: Runs.World, step: Runs.Step)
    requires step.Observe? && w.status.activation.Some?
    ensures HoldsAt(Runs.After(w, step).status.conditions.activationReady, w.meta.generation) <==>
        Runs.CertifiesNow(w, step)
  {
  }

  /** An observation that cannot read the workload changes nothing but DataActivationReady,
      which becomes False. */
  lemma UnreadableWorkloadIsUnknown(w: Runs.World, step: Runs.Step)
    requires step.Observe? && Runs.ObservationFails(w, step) && WorkloadReasonSound(w.status.conditions)
    ensures var s, c := Runs.After(w, step).status, w.status.conditions;
            && s.activation == w.status.activation && s.resolvedImages == w.status.resolvedImages
            && s.conditions.activationReady == Some(Condition(ConditionFalse, ActivationStatusUnknown,
                w.meta.generation))
            && s.conditions.activationFailed == c.activationFailed && s.conditions.workload == c.workload
            && !Holds(s.conditions.ready)
  {
  }

  /** Otherwise the availability verdict is published beside the attempt's own. */
  lemma ObservationPublishesAvailability(w: Runs.World, step: Runs.Step)
    requires step.Observe? && !Runs.ObservationFails(w, step)
    ensures Runs.After(w, step).status.conditions.workload
         == Some(Condition(step.availability.status, step.availability.reason, w.meta.generation))
  {
  }

  /** The last observation of a run, at the generation it was made. */
  datatype Sighting = NotObserved | Sighting(certified: bool, generation: int)

  ghost function LastSighting(w: Runs.World, steps: seq<Runs.Step>, last: Sighting): Sighting
    decreases |steps|
  {
    if steps == [] then last
    else
      LastSighting(Runs.After(w, steps[0]), steps[1..],
        if steps[0].Observe? && w.status.activation.Some?
        then Sighting(Runs.CertifiesNow(w, steps[0]), w.meta.generation) else last)
  }

  predicate Reflects(s: CatalogStatus, last: Sighting) {
    match last
    case NotObserved => s.conditions.activationReady.None?
    case Sighting(certified, generation) =>
      && s.conditions.activationReady.Some? && s.conditions.activationReady.value.observedGeneration == generation
      && (Holds(s.conditions.activationReady) <==> certified)
  }

  lemma StepReflects(w: Runs.World, step: Runs.Step, last: Sighting)
    requires Reflects(w.status, last)
    ensures Reflects(Runs.After(w, step).status,
              if step.Observe? && w.status.activation.Some?
              then Sighting(Runs.CertifiesNow(w, step), w.meta.generation) else last)
  {
  }

  lemma {:induction false} RunReflects(w: Runs.World, steps: seq<Runs.Step>, last: Sighting)
    requires Reflects(w.status, last)
    ensures Reflects(Runs.Run(w, steps).status, LastSighting(w, steps, last))
    decreases |steps|
  {
    if steps != [] {
      StepReflects(w, steps[0], last);
      RunReflects(Runs.After(w, steps[0]), steps[1..],
        if steps[0].Observe? && w.status.activation.Some?
        then Sighting(Runs.CertifiesNow(w, steps[0]), w.meta.generation) else last);
    }
  }

  /** In every run, a Catalog that is Ready at the current generation was certified by the
      last observation of the run, made at that generation. */
  lemma ReadyWasJustCertified(meta: CatalogMeta, steps: seq<Runs.Step>)
    requires Runs.Possible(Runs.World(meta, EmptyStatus), steps)
    ensures var w := Runs.Run(Runs.World(meta, EmptyStatus), steps);
            HoldsAt(w.status.conditions.ready, w.meta.generation) ==>
              LastSighting(Runs.World(meta, EmptyStatus), steps, NotObserved) == Sighting(true, w.meta.generation)
  {
    Runs.PublishedStatusIsTruthful(meta, steps);
    RunReflects(Runs.World(meta, EmptyStatus), steps, NotObserved);
  }
}
