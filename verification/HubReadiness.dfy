/** How AIHub reports the readiness of its Catalog. */
module HubReadiness {
  import opened CatalogTypes
  import opened ImageStatus
  import Runs = CatalogRuns

  /** The CatalogDataReady condition; no reason of the Catalog while its status is stale. */
  datatype Report = Report(status: ConditionStatus, reason: Option<Reason>)

  method ReconcileCatalogReadiness(
    status: CatalogStatus, generation: int) returns (ready: bool, failed: bool, report: Report)
    ensures ready <==> HoldsAt(status.conditions.ready, generation) && !HoldsAt(status.conditions.degraded, generation)
    ensures failed <==> HoldsAt(status.conditions.degraded, generation)
    ensures report.status == (if ready then ConditionTrue else ConditionFalse)
    ensures report.reason == if ObservedAt(status.conditions.ready, generation)
        then Some(status.conditions.ready.value.reason) else None
  {
    var condition, degraded := status.conditions.ready, status.conditions.degraded;
    failed := degraded.Some? && degraded.value.observedGeneration == generation
        && degraded.value.status == ConditionTrue;
    if condition.None? || condition.value.observedGeneration != generation {
      return false, failed, Report(ConditionFalse, None);
    }
    if condition.value.status != ConditionTrue || failed {
      return false, failed, Report(ConditionFalse, Some(condition.value.reason));
    }
    return true, false, Report(ConditionTrue, Some(condition.value.reason));
  }

  /** After any run of the Catalog controller, AIHub is ready exactly when the status is
      current and the selected images are served; the check against Degraded never
      decides, and a failure still latched in a current status is reported. */
  lemma HubReadyExactly(meta: CatalogMeta, steps: seq<Runs.Step>)
    requires Runs.Possible(Runs.World(meta, EmptyStatus), steps)
    ensures var w := Runs.Run(Runs.World(meta, EmptyStatus), steps);
            var c, g := w.status.conditions, w.meta.generation;
            && (HoldsAt(c.ready, g) && !HoldsAt(c.degraded, g) <==>
                ObservedAt(c.ready, g) && ServesSelectedImages(w.status, g))
            && (HoldsAt(c.ready, g) ==> !HoldsAt(c.degraded, g))
            && (Holds(c.activationFailed) && ObservedAt(c.ready, g) ==> HoldsAt(c.degraded, g) && !Holds(c.ready))
  {
    Runs.PublishedStatusIsTruthful(meta, steps);
  }
}
