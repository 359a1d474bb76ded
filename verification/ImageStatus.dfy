/** The readiness reducer, the only writer of Ready, Available and Degraded. */
module ImageStatus {
  import opened CatalogTypes

  /** The selection verdict counts only when observed at this generation; an
      ordinary first import is progress, not a failure. */
  function SelectionStatus(c: Conditions, generation: int): ConditionStatus {
    if ObservedAt(c.resolved, generation) && c.resolved.value.reason != NoSuccessfulImport
    then c.resolved.value.status else ConditionUnknown
  }

  function SelectionReason(c: Conditions, generation: int): Reason {
    if ObservedAt(c.resolved, generation) then c.resolved.value.reason else SelectionPending
  }

  /** A confirmed import failure is carried through pending retries. */
  predicate CarriesDegraded(c: Conditions, generation: int) {
    HoldsAt(c.updateBlocked, generation) && Holds(c.degraded)
  }

  function DegradedCondition(c: Conditions, generation: int): Condition {
    if SelectionStatus(c, generation) == ConditionFalse then
      Condition(ConditionTrue, SelectionReason(c, generation), generation)
    else if CarriesDegraded(c, generation) then
      Condition(ConditionTrue, c.degraded.value.reason, generation)
    else if Holds(c.activationFailed) then
      Condition(ConditionTrue, c.activationFailed.value.reason, generation)
    else
      Condition(ConditionFalse, DataImagesHealthy, generation)
  }

  predicate ActivationReady(s: CatalogStatus, generation: int) {
    s.activation.Some? && s.activation.value.state == Succeeded && HoldsAt(s.conditions.activationReady, generation)
  }

  function ReadyCondition(s: CatalogStatus, generation: int): Condition {
    var c := s.conditions;
    var selection := SelectionStatus(c, generation);
    if selection == ConditionFalse then
      Condition(ConditionFalse, DataImagesUnavailable, generation)
    else if Holds(c.activationFailed) then
      Condition(ConditionFalse, c.activationFailed.value.reason, generation)
    else if selection == ConditionUnknown then
      Condition(ConditionFalse, SelectionReason(c, generation), generation)
    else
      var reason := if ObservedAt(c.workload, generation) then c.workload.value.reason else WorkloadPending;
      if !ActivationReady(s, generation) && reason != ResourcesUnavailable then
        Condition(ConditionFalse, ActivationPending, generation)
      else
        Condition(if HoldsAt(c.workload, generation) then ConditionTrue else ConditionFalse, reason, generation)
  }

  /** The whole effect of one reduction. */
  function Reduced(s: CatalogStatus, generation: int): CatalogStatus {
    var c := s.conditions;
    var ready := ReadyCondition(s, generation);
    s.(observedGeneration := generation,
       conditions := c.(
         selectionReady := Some(Condition(SelectionStatus(c, generation), SelectionReason(c, generation), generation)),
         degraded := Some(DegradedCondition(c, generation)),
         ready := Some(ready), available := Some(ready)))
  }

  method ReduceCatalogImageReadiness(catalog: Catalog)
    modifies catalog
    ensures catalog.meta == old(catalog.meta)
    ensures catalog.Status() == Reduced(old(catalog.Status()), catalog.meta.generation)
  {
    var generation := catalog.meta.generation;
    catalog.observedGeneration := generation;
    var selectionStatus, reason := ConditionUnknown, SelectionPending;
    if ObservedAt(catalog.conditions.resolved, generation) {
      selectionStatus, reason := catalog.conditions.resolved.value.status, catalog.conditions.resolved.value.reason;
      if reason == NoSuccessfulImport {
        selectionStatus := ConditionUnknown;
      }
    }
    catalog.conditions := catalog.conditions.(selectionReady := Some(Condition(selectionStatus, reason, generation)));

    var degradedStatus, degradedReason := ConditionFalse, DataImagesHealthy;
    if selectionStatus == ConditionFalse {
      degradedStatus, degradedReason := ConditionTrue, reason;
    } else if HoldsAt(catalog.conditions.updateBlocked, generation) {
      if Holds(catalog.conditions.degraded) {
        degradedStatus, degradedReason := catalog.conditions.degraded.value.status,
            catalog.conditions.degraded.value.reason;
      }
    }
    var activationFailed := Holds(catalog.conditions.activationFailed);
    if activationFailed && degradedStatus == ConditionFalse {
      degradedStatus, degradedReason := ConditionTrue, catalog.conditions.activationFailed.value.reason;
    }
    catalog.conditions := catalog.conditions.(degraded := Some(Condition(degradedStatus, degradedReason, generation)));

    var ready := ConditionFalse;
    match selectionStatus {
      case ConditionFalse =>
        reason := DataImagesUnavailable;
      case ConditionTrue =>
        reason := WorkloadPending;
        if ObservedAt(catalog.conditions.workload, generation) {
          reason := catalog.conditions.workload.value.reason;
          if catalog.conditions.workload.value.status == ConditionTrue {
            ready := ConditionTrue;
          }
        }
      case ConditionUnknown =>
    }
    if catalog.activation.None? || catalog.activation.value.state != Succeeded
        || !HoldsAt(catalog.conditions.activationReady, generation) {
      if selectionStatus == ConditionTrue && reason != ResourcesUnavailable {
        ready, reason := ConditionFalse, ActivationPending;
      }
    }
    if activationFailed && selectionStatus != ConditionFalse {
      ready, reason := ConditionFalse, catalog.conditions.activationFailed.value.reason;
    }
    catalog.conditions := catalog.conditions.(ready := Some(Condition(ready, reason, generation)));
    catalog.conditions := catalog.conditions.(available := Some(Condition(ready, reason, generation)));
  }

  /** Invariant of every writer of WorkloadAvailable: the reason used for failed
      reconciles never accompanies a True status. */
  predicate WorkloadReasonSound(c: Conditions) {
    c.workload.Some? && c.workload.value.reason == ResourcesUnavailable ==> c.workload.value.status != ConditionTrue
  }

  /** What Ready promises. */
  predicate ServesSelectedImages(s: CatalogStatus, generation: int) {
    && HoldsAt(s.conditions.resolved, generation)
    && s.conditions.resolved.value.reason != NoSuccessfulImport
    && HoldsAt(s.conditions.workload, generation)
    && ActivationReady(s, generation)
    && !Holds(s.conditions.activationFailed)
  }

  /** Ready and Available agree, and Ready is True exactly when the selection, the
      workload and the current attempt are all confirmed at this generation and no
      activation failure is latched. Without the reason invariant there is exactly
      one other way to become Ready. */
  lemma ReadyExactly(s: CatalogStatus, generation: int)
    ensures var c := Reduced(s, generation).conditions;
            c.ready == c.available && ObservedAt(c.ready, generation)
    ensures Holds(Reduced(s, generation).conditions.ready) <==>
              || ServesSelectedImages(s, generation)
              || (&& SelectionStatus(s.conditions, generation) == ConditionTrue
                  && HoldsAt(s.conditions.workload, generation)
                  && s.conditions.workload.value.reason == ResourcesUnavailable
                  && !Holds(s.conditions.activationFailed))
    ensures WorkloadReasonSound(s.conditions) ==>
              (Holds(Reduced(s, generation).conditions.ready) <==> ServesSelectedImages(s, generation))
  {
  }

  /** Degraded is True exactly for a failed selection, a blocked retry of an already
      degraded Catalog, or a latched activation failure. */
  lemma DegradedExactly(s: CatalogStatus, generation: int)
    ensures Holds(Reduced(s, generation).conditions.degraded) <==>
              || SelectionStatus(s.conditions, generation) == ConditionFalse
              || CarriesDegraded(s.conditions, generation)
              || Holds(s.conditions.activationFailed)
  {
  }

  /** Why a Catalog is not Ready, in order: its images, a latched failure, a pending
      selection, an unconfirmed attempt, its workload. */
  lemma ReadyReasonExactly(s: CatalogStatus, generation: int)
    ensures var c, r := s.conditions, Reduced(s, generation).conditions;
            r.ready.Some? && r.ready.value.reason ==
              if ObservedAt(c.resolved, generation) && c.resolved.value.status == ConditionFalse
                 && c.resolved.value.reason != NoSuccessfulImport then DataImagesUnavailable
              else if Holds(c.activationFailed) then c.activationFailed.value.reason
              else if !ObservedAt(c.resolved, generation) then SelectionPending
              else if c.resolved.value.status == ConditionUnknown || c.resolved.value.reason == NoSuccessfulImport then
                c.resolved.value.reason
              else if ActivationReady(s, generation) || (ObservedAt(c.workload, generation)
                      && c.workload.value.reason == ResourcesUnavailable) then
                if ObservedAt(c.workload, generation) then c.workload.value.reason else WorkloadPending
              else ActivationPending
    ensures ActivationReady(s, generation) <==>
              && s.activation.Some? && s.activation.value.state == Succeeded
              && s.conditions.activationReady.Some? && s.conditions.activationReady.value.status == ConditionTrue
              && s.conditions.activationReady.value.observedGeneration == generation
  {
  }

  /** Why it is Degraded, in order: its images, the failure carried over, a latched one. */
  lemma DegradedReasonExactly(s: CatalogStatus, generation: int)
    ensures var c, r := s.conditions, Reduced(s, generation).conditions;
            r.degraded.Some? && r.degraded.value.reason ==
              if ObservedAt(c.resolved, generation) && c.resolved.value.status == ConditionFalse
                 && c.resolved.value.reason != NoSuccessfulImport then c.resolved.value.reason
              else if HoldsAt(c.updateBlocked, generation) && Holds(c.degraded) then c.degraded.value.reason
              else if Holds(c.activationFailed) then c.activationFailed.value.reason
              else DataImagesHealthy
    ensures var c, r := s.conditions, Reduced(s, generation).conditions;
            && r.selectionReady.Some? && r.selectionReady.value.observedGeneration == generation
            && r.selectionReady.value.reason ==
                 (if ObservedAt(c.resolved, generation) then c.resolved.value.reason else SelectionPending)
            && r.selectionReady.value.status ==
                 (if ObservedAt(c.resolved, generation) && c.resolved.value.reason != NoSuccessfulImport
                  then c.resolved.value.status else ConditionUnknown)
            && Reduced(s, generation).observedGeneration == generation
  {
  }

  /** A reduction touches nothing but its own conditions. */
  lemma ReductionKeepsInputs(s: CatalogStatus, generation: int)
    ensures var r := Reduced(s, generation);
            && r.activation == s.activation && r.resolvedImages == s.resolvedImages
            && r.conditions == s.conditions.(selectionReady := r.conditions.selectionReady,
                degraded := r.conditions.degraded,
                                             ready := r.conditions.ready, available := r.conditions.available)
  {
  }

  /** Reducing again changes nothing, although Degraded feeds back into itself. */
  lemma ReduceIdempotent(s: CatalogStatus, generation: int)
    ensures Reduced(Reduced(s, generation), generation) == Reduced(s, generation)
  {
  }

  /** Resolution never both confirms the images and blocks updates at one generation. */
  predicate GatesAgree(c: Conditions) {
    c.resolved.Some? && c.updateBlocked.Some?
    && c.resolved.value.observedGeneration == c.updateBlocked.value.observedGeneration ==>
      !(Holds(c.resolved) && Holds(c.updateBlocked))
  }

  lemma NeverReadyAndDegraded(s: CatalogStatus, generation: int)
    requires GatesAgree(s.conditions)
    ensures var c := Reduced(s, generation).conditions; !(Holds(c.ready) && Holds(c.degraded))
  {
  }
}
