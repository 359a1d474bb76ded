/** The activation attempt: prepared before the workload is applied, observed after. */
module Activation {
  import opened CatalogTypes
  import opened ImageStatus
  import opened PodEvidence
  import opened DeploymentStatus

  const TenMinutes := 600 * Second

  /** Images of the running operator release, part of every request. */
  datatype Runtime = Runtime(restImage: string, operatorImage: string)

  function SelectionText(selection: Option<string>): string {
    if selection.Some? then selection.value else ""
  }

  function RequestOf(meta: CatalogMeta, runtime: Runtime, params: Params, resolved: Condition): Request {
    Request(meta.uid, SelectionText(meta.catalogSelection), SelectionText(meta.benchmarkSelection),
            params.images, runtime.restImage, runtime.operatorImage,
            resolved.status, resolved.reason, params.evidence, params.allowLegacyRuntimeFile, meta.retry)
  }

  predicate Keeps(activation: Option<Attempt>, request: Request) {
    activation.Some? && activation.value.requestHash == Sha256(request)
  }

  function NewAttempt(previous: Option<Attempt>, request: Request, nonce: string, now: int): Attempt {
    Attempt(request.uid, nonce, Sha256(request), request.images, request.images,
            Pending, StageActivation, ActivationPending, now, None,
            if previous.Some? then previous.value.lastSuccessful else None)
  }

  /** Unresolved images hold the attempt back; a confirmed fault fails it. */
  function Gated(a: Attempt, resolved: Condition): Attempt {
    if resolved.status == ConditionTrue || a.state == Failed then a
    else a.(
         state := if resolved.status == ConditionFalse && resolved.reason != NoSuccessfulImport then Failed
             else Pending,
         stage := if resolved.reason == InvalidImageSelection then StageSelection else StageImport,
         reason := resolved.reason)
  }

  function PreparedAttempt(
    activation: Option<Attempt>, request: Request, resolved: Condition, nonce: string, now: int): Attempt {
    Gated(if Keeps(activation, request) then activation.value else NewAttempt(activation, request, nonce, now),
        resolved)
  }

  function PreparedStatus(s: CatalogStatus, generation: int, a: Attempt, resolved: Condition): CatalogStatus {
    Reduced(s.(activation := Some(a),
               resolvedImages := if resolved.status == ConditionTrue then Some(a.images) else s.resolvedImages),
            generation)
  }

  /** The parameters the Deployment is rendered from. */
  function RenderParams(params: Params, a: Attempt): Params {
    params.(images := a.images, activationAttempt := a.attemptID, activationBlocked := a.state == Failed)
  }

  /** The template renders no replicas for a blocked attempt. */
  function RenderedReplicas(params: Params): int {
    if params.activationBlocked then 0 else 1
  }

  method PrepareActivation(catalog: Catalog, runtime: Runtime, params: Params, nonce: string, now: int)
    returns (ok: bool, rendered: Params)
    modifies catalog
    ensures catalog.meta == old(catalog.meta)
    ensures ok == old(catalog.conditions.resolved).Some?
    ensures !ok ==> catalog.Status() == old(catalog.Status()) && rendered == params
    ensures ok ==>
              var resolved := old(catalog.conditions.resolved).value;
              var a := PreparedAttempt(old(catalog.activation), RequestOf(catalog.meta, runtime, params, resolved),
                  resolved, nonce, now);
              && catalog.Status() == PreparedStatus(old(catalog.Status()), catalog.meta.generation, a, resolved)
              && rendered == RenderParams(params, a)
  {
    rendered := params;
    if catalog.conditions.resolved.None? {
      return false, rendered;
    }
    ok := true;
    var resolved := catalog.conditions.resolved.value;
    var fingerprint := Sha256(RequestOf(catalog.meta, runtime, params, resolved));
    if catalog.activation.None? || catalog.activation.value.requestHash != fingerprint {
      var previous := None;
      if catalog.activation.Some? {
        previous := catalog.activation.value.lastSuccessful;
      }
      catalog.activation := Some(Attempt(
        catalog.meta.uid, nonce, fingerprint, params.images, params.images,
        Pending, StageActivation, ActivationPending, now, None, previous));
    }
    var a := catalog.activation.value;
    if resolved.status != ConditionTrue && a.state != Failed {
      a := a.(state := Pending, stage := StageImport, reason := resolved.reason);
      if resolved.status == ConditionFalse && resolved.reason != NoSuccessfulImport {
        a := a.(state := Failed);
      }
      if resolved.reason == InvalidImageSelection {
        a := a.(stage := StageSelection);
      }
    }
    catalog.activation := Some(a);
    rendered := rendered.(activationAttempt := a.attemptID, activationBlocked := a.state == Failed, images := a.images);
    if resolved.status == ConditionTrue {
      catalog.resolvedImages := Some(a.images);
    }
    ReduceCatalogImageReadiness(catalog);
  }

  /** A failed attempt keeps its verdict; only stage and reason are sanitized. */
  function NormalizedFailure(a: Attempt): Attempt {
    if a.stage == StageImport || a.stage == StageSelection then a
    else var safe := Safe(Failure(a.stage, a.reason)); a.(stage := safe.stage, reason := safe.reason)
  }

  function Certified(a: Attempt, now: int): Attempt {
    var own := a.lastSuccessful.Some? && a.lastSuccessful.value.attemptID == a.attemptID;
    a.(recoveredAt := if a.state == Pending && own then Some(now) else a.recoveredAt,
       state := Succeeded, stage := StageActivation, reason := WorkloadValidated,
       lastSuccessful := if own then a.lastSuccessful else Some(Success(a.catalogUID, a.attemptID, a.images, now)))
  }

  /** A certified attempt that starts retrying begins a recovery window, unless its
      last recovery is less than ten minutes old. */
  predicate RestartsDeadline(a: Attempt, now: int) {
    a.state == Succeeded && (a.recoveredAt.None? || now - a.recoveredAt.value >= TenMinutes)
  }

  function Retried(a: Attempt, failure: Failure, now: int): Attempt {
    var started := if RestartsDeadline(a, now) then now else a.startedAt;
    var waiting := a.(startedAt := started, recoveredAt := if a.state == Succeeded then None else a.recoveredAt,
                      state := Pending, stage := failure.stage, reason := failure.reason);
    if now - started > TenMinutes then
      var safe := Safe(Failure(failure.stage, if failure.reason == DataImagePullRetrying then DataImagePullFailed
          else CatalogStartupFailed));
      waiting.(state := Failed, stage := safe.stage, reason := safe.reason)
    else waiting
  }

  /** The attempt after one observation. */
  function ObservedAttempt(a: Attempt, failure: Option<Failure>, ready: bool, now: int): Attempt {
    if a.state == Failed then NormalizedFailure(a)
    else if failure.Some? && !Retryable(failure.value) then
      var safe := Safe(failure.value); a.(state := Failed, stage := safe.stage, reason := safe.reason)
    else if ready then Certified(a, now)
    else if failure.Some? then Retried(a, failure.value, now)
    else if now - a.startedAt > TenMinutes && a.state == Pending then
      a.(state := Failed, stage := StageActivation, reason := ActivationTimedOut)
    else a
  }

  /** Whether the observation gets as far as examining the workload. */
  predicate Examines(a: Attempt, failure: Option<Failure>) {
    a.state != Failed && (failure.Some? ==> Retryable(failure.value))
  }

  /** The two activation conditions published for an observed attempt. A pending
      attempt does not touch an earlier failure verdict. */
  function ActivationConditions(c: Conditions, a: Attempt, currentReady: bool, generation: int): Conditions {
    c.(activationReady := Some(Condition(if a.state == Succeeded && currentReady then ConditionTrue
        else ConditionFalse, a.reason, generation)),
       activationFailed := if a.state != Pending || c.activationFailed.None?
                           then Some(Condition(if a.state == Failed then ConditionTrue else ConditionFalse, a.reason,
                               generation))
                           else c.activationFailed)
  }

  function ObservedStatus(
    s: CatalogStatus, generation: int, failure: Option<Failure>, ready: bool, now: int): CatalogStatus {
    if s.activation.None? then s
    else
      var a := ObservedAttempt(s.activation.value, failure, ready, now);
      s.(activation := Some(a),
         conditions := ActivationConditions(s.conditions, a, ready && Examines(s.activation.value, failure),
             generation))
  }

  /** Fails, changing nothing, exactly when the examined workload could not be read. */
  method ObserveActivation(catalog: Catalog, failure: Option<Failure>, workload: WorkloadReads) returns (ok: bool)
    modifies catalog
    ensures catalog.meta == old(catalog.meta)
    ensures !ok <==> && old(catalog.activation).Some? && Examines(old(catalog.activation).value, failure)
                     && ReadFailed(workload, old(catalog.activation).value.attemptID,
                         old(catalog.activation).value.images)
    ensures !ok ==> catalog.Status() == old(catalog.Status())
    ensures ok ==>
              var ready := old(catalog.activation).Some?
                && Certifies(workload, old(catalog.activation).value.attemptID, old(catalog.activation).value.images);
              catalog.Status() == ObservedStatus(old(catalog.Status()), catalog.meta.generation, failure, ready,
                  workload.now)
  {
    if catalog.activation.None? {
      return true;
    }
    var now := workload.now;
    var a := catalog.activation.value;
    var currentReady := false;
    if a.state == Failed {
      if a.stage != StageImport && a.stage != StageSelection {
        var safe := Safe(Failure(a.stage, a.reason));
        a := a.(stage := safe.stage, reason := safe.reason);
      }
    } else if failure.Some? && !Retryable(failure.value) {
      var safe := Safe(failure.value);
      a := a.(state := Failed, stage := safe.stage, reason := safe.reason);
    } else {
      var ready := ValidatedCatalogWorkload(workload, a.attemptID, a.images);
      if ready.None? {
        return false;
      }
      currentReady := ready.value;
      a := ObserveWorkload(a, failure, currentReady, now);
    }
    catalog.activation := Some(a);
    catalog.conditions := catalog.conditions.(activationReady :=
      Some(Condition(if a.state == Succeeded && currentReady then ConditionTrue else ConditionFalse, a.reason,
          catalog.meta.generation)));
    if a.state != Pending || catalog.conditions.activationFailed.None? {
      catalog.conditions := catalog.conditions.(activationFailed :=
        Some(Condition(if a.state == Failed then ConditionTrue else ConditionFalse, a.reason,
            catalog.meta.generation)));
    }
    return true;
  }

  method ObserveWorkload(before: Attempt, failure: Option<Failure>, ready: bool, now: int) returns (a: Attempt)
    requires Examines(before, failure)
    ensures a == ObservedAttempt(before, failure, ready, now)
  {
    a := before;
    if ready {
      if a.state == Pending && a.lastSuccessful.Some? && a.lastSuccessful.value.attemptID == a.attemptID {
        a := a.(recoveredAt := Some(now));
      }
      a := a.(state := Succeeded, stage := StageActivation, reason := WorkloadValidated);
      if a.lastSuccessful.None? || a.lastSuccessful.value.attemptID != a.attemptID {
        a := a.(lastSuccessful := Some(Success(a.catalogUID, a.attemptID, a.images, now)));
      }
    } else if failure.Some? {
      if a.state == Succeeded {
        if a.recoveredAt.None? || now - a.recoveredAt.value >= TenMinutes {
          a := a.(startedAt := now);
        }
        a := a.(recoveredAt := None);
      }
      a := a.(state := Pending, stage := failure.value.stage, reason := failure.value.reason);
      if now - a.startedAt > TenMinutes {
        var reason := CatalogStartupFailed;
        if failure.value.reason == DataImagePullRetrying {
          reason := DataImagePullFailed;
        }
        var safe := Safe(Failure(failure.value.stage, reason));
        a := a.(state := Failed, stage := safe.stage, reason := safe.reason);
      }
    } else if now - a.startedAt > TenMinutes && a.state == Pending {
      a := a.(state := Failed, stage := StageActivation, reason := ActivationTimedOut);
    }
  }
}
