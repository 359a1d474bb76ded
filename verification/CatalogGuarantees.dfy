/** Guarantees that span whole Catalog runs: certification, and the two failure latches. */
module CatalogGuarantees {
  import opened CatalogTypes
  import opened ImageStatus
  import opened Activation
  import opened DataImages
  import opened ImageResolution
  import opened CatalogRuns

  // ---- Certification ----

  /** The attempt and images of the most recent certification in a run. */
  datatype Certificate = Certificate(attemptID: string, images: Images)

  ghost function Certificates(w: World, steps: seq<Step>, last: Option<Certificate>): Option<Certificate>
    decreases |steps|
  {
    if steps == [] then last
    else
      Certificates(After(w, steps[0]), steps[1..],
        if CertifiesNow(w, steps[0])
        then Some(Certificate(w.status.activation.value.attemptID, w.status.activation.value.images)) else last)
  }

  function Recorded(s: Option<Success>): Option<Certificate> {
    if s.None? then None else Some(Certificate(s.value.attemptID, s.value.images))
  }

  /** The recovery record is the last certificate, and Succeeded means it is our own. */
  predicate RecordsCertificate(s: CatalogStatus, last: Option<Certificate>) {
    if s.activation.None? then last.None?
    else
      var a := s.activation.value;
      && Recorded(a.lastSuccessful) == last
      && (a.lastSuccessful.Some? && a.lastSuccessful.value.attemptID == a.attemptID ==>
          a.lastSuccessful.value.images == a.images)
      && (a.state == Succeeded ==> last == Some(Certificate(a.attemptID, a.images)))
  }

  /** Attempt IDs are random nonces: a new attempt never reuses the recorded one. */
  ghost predicate FreshIDs(w: World, steps: seq<Step>)
    decreases |steps|
  {
    steps == [] ||
    (&& (steps[0].Prepare? && w.status.activation.Some? && w.status.activation.value.lastSuccessful.Some? ==>
           steps[0].nonce != w.status.activation.value.lastSuccessful.value.attemptID)
     && FreshIDs(After(w, steps[0]), steps[1..]))
  }

  lemma StepRecordsCertificate(w: World, step: Step, last: Option<Certificate>)
    requires RecordsCertificate(w.status, last) && Allowed(w, step) && FreshIDs(w, [step])
    ensures RecordsCertificate(After(w, step).status,
              if CertifiesNow(w, step)
              then Some(Certificate(w.status.activation.value.attemptID, w.status.activation.value.images)) else last)
  {
  }

  lemma {:induction false} RunRecordsCertificates(w: World, steps: seq<Step>, last: Option<Certificate>)
    requires RecordsCertificate(w.status, last) && Possible(w, steps) && FreshIDs(w, steps)
    ensures RecordsCertificate(Run(w, steps).status, Certificates(w, steps, last))
    decreases |steps|
  {
    if steps != [] {
      StepRecordsCertificate(w, steps[0], last);
      var next := if CertifiesNow(w, steps[0])
        then Some(Certificate(w.status.activation.value.attemptID, w.status.activation.value.images)) else last;
      RunRecordsCertificates(After(w, steps[0]), steps[1..], next);
    }
  }

  /** From an empty status and through any number of replacements, LastSuccessful is
      always the most recently certified attempt with its images, and an attempt is
      Succeeded only if that certificate is its own: its template and images were
      serving and exactly the desired positive number of its pods were validated. */
  lemma LastSuccessfulIsLastCertified(meta: CatalogMeta, steps: seq<Step>)
    requires var w := World(meta, EmptyStatus); Possible(w, steps) && FreshIDs(w, steps)
    ensures var w := World(meta, EmptyStatus);
            RecordsCertificate(Run(w, steps).status, Certificates(w, steps, None))
  {
    RunRecordsCertificates(World(meta, EmptyStatus), steps, None);
  }

  // ---- Activation failures ----

  ghost predicate NeverCertified(w: World, steps: seq<Step>)
    decreases |steps|
  {
    steps == [] || (!CertifiesNow(w, steps[0]) && NeverCertified(After(w, steps[0]), steps[1..]))
  }

  lemma FailureOutlivesStep(w: World, step: Step)
    requires Reachable(w) && Allowed(w, step) && Holds(w.status.conditions.activationFailed)
    ensures Holds(After(w, step).status.conditions.activationFailed) || CertifiesNow(w, step)
    ensures CertifiesNow(w, step) ==> !Holds(After(w, step).status.conditions.activationFailed)
  {
  }

  /** A published activation failure keeps the Catalog Degraded and not Ready across
      new attempts, spec edits, imports and errors, until the then-current attempt is
      certified. */
  lemma {:induction false} FailureOutlivesAttempts(w: World, steps: seq<Step>)
    requires Reachable(w) && Possible(w, steps) && Holds(w.status.conditions.activationFailed)
    requires NeverCertified(w, steps)
    ensures var c := Run(w, steps).status.conditions;
            Holds(c.activationFailed) && Holds(c.degraded) && c.ready.Some? && c.ready.value.status == ConditionFalse
    decreases |steps|
  {
    if steps != [] {
      FailureOutlivesStep(w, steps[0]);
      StepKeepsReachable(w, steps[0]);
      FailureOutlivesAttempts(After(w, steps[0]), steps[1..]);
    }
  }

  // ---- Import failures ----

  function SelectionFor(meta: CatalogMeta, name: TargetName): Option<string> {
    if name.CatalogData? then meta.catalogSelection else meta.benchmarkSelection
  }

  function ReadFor(meta: CatalogMeta, seen: ResolutionReads, name: TargetName): StreamRead {
    if name.CatalogData? then seen.catalogStream else BenchmarkRead(meta, seen)
  }

  predicate FollowsStable(meta: CatalogMeta, seen: ResolutionReads, name: TargetName) {
    seen.isOpenShift && SelectionOf(SelectionFor(meta, name)).StableSelection?
  }

  predicate Imported(read: StreamRead) {
    read.StreamFound? && ImportHealth(read.stream).status == ConditionTrue
  }

  /** When a resolution leaves the target waiting for recovery. */
  lemma AwaitingAfterResolutionExactly(s: CatalogStatus, meta: CatalogMeta, seen: ResolutionReads, name: TargetName)
    ensures var read := ReadFor(meta, seen, name);
            AwaitingRecovery(Resolve(s, meta, seen).conditions, name) <==>
              && FollowsStable(meta, seen, name)
              && (|| read.StreamFailed?
                  || ImportHealth(read.stream).status == ConditionFalse
                  || (ImportHealth(read.stream).status == ConditionUnknown && AwaitingRecovery(s.conditions, name)))
  {
    TargetLeavesAwaiting(s, meta.generation, CatalogTarget(meta, seen), seen.isOpenShift, seen.catalogStream,
        seen.catalogApplied);
    TargetLeavesAwaiting(s, meta.generation, BenchmarkTarget(meta, seen), seen.isOpenShift, BenchmarkRead(meta, seen),
        seen.benchmarkApplied);
    var c := Resolve(s, meta, seen).conditions;
    assert Records(c, CatalogData, CatalogOutcome(s, meta, seen), meta.generation);
    assert Records(c, BenchmarkData, BenchmarkOutcome(s, meta, seen), meta.generation);
  }

  predicate LeavesAwaiting(o: Outcome) {
    o.health.status == ConditionFalse || o.resolved.reason == AwaitingSuccessfulImport
  }

  lemma TargetLeavesAwaiting(
    s: CatalogStatus, generation: int, t: Target, isOpenShift: bool, read: StreamRead, applied: AppliedRead)
    ensures LeavesAwaiting(TargetOutcome(s, generation, t, isOpenShift, read, applied)) <==>
              && isOpenShift && SelectionOf(t.selection).StableSelection?
              && (|| read.StreamFailed?
                  || ImportHealth(read.stream).status == ConditionFalse
                  || (ImportHealth(read.stream).status == ConditionUnknown && AwaitingRecovery(s.conditions, t.name)))
    ensures LeavesAwaiting(TargetOutcome(s, generation, t, isOpenShift, read, applied)) ==>
              var o := TargetOutcome(s, generation, t, isOpenShift, read, applied); Faulty(o) || Awaits(o)
  {
  }

  /** In this run every resolution finds the target following stable with no successful
      import to use. */
  ghost predicate KeepsFailing(w: World, steps: seq<Step>, name: TargetName)
    decreases |steps|
  {
    steps == [] ||
    (&& (steps[0].ResolveImages? ==>
           FollowsStable(w.meta, steps[0].seen, name) && !Imported(ReadFor(w.meta, steps[0].seen, name)))
     && KeepsFailing(After(w, steps[0]), steps[1..], name))
  }

  lemma ResolutionKeepsAwaiting(w: World, seen: ResolutionReads, name: TargetName)
    requires AwaitingRecovery(w.status.conditions, name)
    requires FollowsStable(w.meta, seen, name) && !Imported(ReadFor(w.meta, seen, name))
    ensures AwaitingRecovery(Resolve(w.status, w.meta, seen).conditions, name)
    ensures Blocks(w.status, w.meta, seen)
  {
    AwaitingAfterResolutionExactly(w.status, w.meta, seen, name);
    if name.CatalogData? {
      TargetLeavesAwaiting(w.status, w.meta.generation, CatalogTarget(w.meta, seen), seen.isOpenShift,
          seen.catalogStream, seen.catalogApplied);
    } else {
      TargetLeavesAwaiting(w.status, w.meta.generation, BenchmarkTarget(w.meta, seen), seen.isOpenShift,
          BenchmarkRead(w.meta, seen), seen.benchmarkApplied);
    }
  }

  lemma StepKeepsAwaiting(w: World, step: Step, name: TargetName)
    requires AwaitingRecovery(w.status.conditions, name)
    requires step.ResolveImages? ==>
        FollowsStable(w.meta, step.seen, name) && !Imported(ReadFor(w.meta, step.seen, name))
    ensures AwaitingRecovery(After(w, step).status.conditions, name)
    ensures step.ResolveImages? ==>
        Blocks(w.status, w.meta, step.seen) && HoldsAt(After(w, step).status.conditions.updateBlocked,
        w.meta.generation)
  {
    if step.ResolveImages? {
      ResolutionKeepsAwaiting(w, step.seen, name);
    }
  }

  /** After an observed import failure, every later resolution asks for containment
      through any number of pending observations, failures and generation changes. */
  lemma {:induction false} ImportFailureBlocks(w: World, steps: seq<Step>, name: TargetName, i: nat)
    requires AwaitingRecovery(w.status.conditions, name) && KeepsFailing(w, steps, name)
    requires i < |steps|
    ensures AwaitingRecovery(Run(w, steps[..i]).status.conditions, name)
    ensures steps[i].ResolveImages? ==>
              var v := Run(w, steps[..i]); Blocks(v.status, v.meta, steps[i].seen)
    decreases |steps|
  {
    StepKeepsAwaiting(w, steps[0], name);
    if i == 0 {
      assert steps[..0] == [];
    } else {
      assert steps[..i][1..] == steps[1..][..i - 1];
      ImportFailureBlocks(After(w, steps[0]), steps[1..], name, i - 1);
    }
  }

  /** A reduction at a generation that no resolution has observed yet. */
  predicate ReducesUnresolved(w: World, step: Step) {
    Reduces(step) && !step.ResolveImages? && !ObservedAt(w.status.conditions.updateBlocked, w.meta.generation)
    && (step.Prepare? ==> w.status.conditions.resolved.Some?)
  }

  /** A run in which the target only waits: no import succeeds, no selection is
      reported failed and no activation failure is latched. */
  ghost predicate OnlyWaits(w: World, steps: seq<Step>, name: TargetName)
    decreases |steps|
  {
    steps == [] ||
    (&& Allowed(w, steps[0])
     && (steps[0].ResolveImages? ==>
           FollowsStable(w.meta, steps[0].seen, name) && !Imported(ReadFor(w.meta, steps[0].seen, name)))
     && var v := After(w, steps[0]);
        && SelectionStatus(v.status.conditions, v.meta.generation) != ConditionFalse
        && !Holds(v.status.conditions.activationFailed)
        && OnlyWaits(v, steps[1..], name))
  }

  ghost predicate EverReducesUnresolved(w: World, steps: seq<Step>)
    decreases |steps|
  {
    steps != [] && (ReducesUnresolved(w, steps[0]) || EverReducesUnresolved(After(w, steps[0]), steps[1..]))
  }

  /** A latched import failure, with updates blocked at the last resolved generation. */
  predicate Blocked(w: World, name: TargetName) {
    AwaitingRecovery(w.status.conditions, name) && Holds(w.status.conditions.updateBlocked) && Reachable(w)
  }

  /** Awaiting and blocked, the part of `Blocked` that steps keep by themselves. */
  predicate AwaitsBlocked(s: CatalogStatus, name: TargetName) {
    AwaitingRecovery(s.conditions, name) && Holds(s.conditions.updateBlocked)
  }

  lemma AwaitsBlockedStays(w: World, step: Step, name: TargetName)
    requires AwaitsBlocked(w.status, name)
    requires step.ResolveImages? ==>
        FollowsStable(w.meta, step.seen, name) && !Imported(ReadFor(w.meta, step.seen, name))
    ensures AwaitsBlocked(After(w, step).status, name)
  {
    StepKeepsAwaiting(w, step, name);
  }

  lemma BlockedStays(w: World, step: Step, name: TargetName)
    requires Blocked(w, name) && Allowed(w, step)
    requires step.ResolveImages? ==>
        FollowsStable(w.meta, step.seen, name) && !Imported(ReadFor(w.meta, step.seen, name))
    ensures Blocked(After(w, step), name)
  {
    AwaitsBlockedStays(w, step, name);
    StepKeepsReachable(w, step);
  }

  /** Resolution at a blocked target: Degraded is carried over, or set anew. */
  lemma DegradedAfterResolution(w: World, seen: ResolutionReads)
    requires Blocks(w.status, w.meta, seen)
    ensures var c := Resolve(w.status, w.meta, seen).conditions;
            Holds(c.degraded) <==>
              || SelectionStatus(c, w.meta.generation) == ConditionFalse
              || Holds(w.status.conditions.degraded)
              || Holds(w.status.conditions.activationFailed)
    ensures Resolve(w.status, w.meta, seen).conditions.activationFailed == w.status.conditions.activationFailed
  {
  }

  /** Every other step: Degraded is carried over only under a current block. */
  lemma DegradedAfterOther(w: World, step: Step)
    requires !step.ResolveImages? && Holds(w.status.conditions.updateBlocked)
    ensures var v := After(w, step); var c := v.status.conditions;
            Holds(c.degraded) <==>
              if Reduces(step) && (step.Prepare? ==> w.status.conditions.resolved.Some?) then
                || SelectionStatus(c, v.meta.generation) == ConditionFalse
                || (Holds(w.status.conditions.degraded) && !ReducesUnresolved(w, step))
                || Holds(c.activationFailed)
              else Holds(w.status.conditions.degraded)
  {
  }

  lemma WaitingStep(w: World, step: Step, name: TargetName)
    requires Blocked(w, name) && Allowed(w, step)
    requires step.ResolveImages? ==>
        FollowsStable(w.meta, step.seen, name) && !Imported(ReadFor(w.meta, step.seen, name))
    requires var v := After(w, step);
             SelectionStatus(v.status.conditions, v.meta.generation) != ConditionFalse
                 && !Holds(v.status.conditions.activationFailed)
    ensures Blocked(After(w, step), name)
    ensures Holds(After(w, step).status.conditions.degraded) <==>
              Holds(w.status.conditions.degraded) && !ReducesUnresolved(w, step)
  {
    BlockedStays(w, step, name);
    if step.ResolveImages? {
      ResolutionKeepsAwaiting(w, step.seen, name);
      DegradedAfterResolution(w, step.seen);
    } else {
      DegradedAfterOther(w, step);
    }
  }

  /** While a failed import only waits for recovery, Degraded survives exactly if the
      status is never reduced at a generation before that generation is resolved, as an
      error ahead of resolution does. */
  lemma {:induction false} DegradedSurvivesExactly(w: World, steps: seq<Step>, name: TargetName)
    requires Blocked(w, name) && OnlyWaits(w, steps, name)
    ensures Holds(Run(w, steps).status.conditions.degraded) <==>
              Holds(w.status.conditions.degraded) && !EverReducesUnresolved(w, steps)
    decreases |steps|
  {
    if steps != [] {
      WaitingStep(w, steps[0], name);
      DegradedSurvivesExactly(After(w, steps[0]), steps[1..], name);
    }
  }

  /** In any run that keeps failing, whatever else happens, Degraded survives as long as
      no generation is reduced before it is resolved. */
  lemma {:induction false} DegradedSurvives(w: World, steps: seq<Step>, name: TargetName)
    requires Blocked(w, name) && Possible(w, steps) && KeepsFailing(w, steps, name) && !EverReducesUnresolved(w, steps)
    requires Holds(w.status.conditions.degraded)
    ensures Holds(Run(w, steps).status.conditions.degraded)
    decreases |steps|
  {
    if steps != [] {
      FailingStep(w, steps[0], name);
      DegradedSurvives(After(w, steps[0]), steps[1..], name);
    }
  }

  lemma FailingStep(w: World, step: Step, name: TargetName)
    requires Blocked(w, name) && Allowed(w, step) && !ReducesUnresolved(w, step)
    requires Holds(w.status.conditions.degraded)
    requires step.ResolveImages? ==>
        FollowsStable(w.meta, step.seen, name) && !Imported(ReadFor(w.meta, step.seen, name))
    ensures Blocked(After(w, step), name) && Holds(After(w, step).status.conditions.degraded)
  {
    BlockedStays(w, step, name);
    if step.ResolveImages? {
      ResolutionKeepsAwaiting(w, step.seen, name);
      DegradedAfterResolution(w, step.seen);
    } else {
      DegradedAfterOther(w, step);
    }
  }

  /** Every reachable Catalog with a latched import failure, and none of its attempts
      failed, loses Degraded to one spec edit followed by an error ahead of resolution,
      while its updates stay blocked for lack of a successful import. */
  lemma EarlyErrorLosesDegraded(w: World, edited: CatalogMeta, name: TargetName)
    requires Blocked(w, name) && !Holds(w.status.conditions.activationFailed)
    requires w.status.conditions.updateBlocked.value.observedGeneration <= w.meta.generation
    requires edited.uid == w.meta.uid && edited.generation > w.meta.generation
    ensures var end := Run(w, [Edit(edited), Report(Condition(ConditionFalse, ResourcesUnavailable, 0))]);
            && Blocked(end, name) && !Holds(end.status.conditions.degraded)
  {
    var error := Report(Condition(ConditionFalse, ResourcesUnavailable, 0));
    var v := After(w, Edit(edited));
    assert [Edit(edited), error][1..] == [error];
    assert Run(v, [error]) == After(v, error);
    StepKeepsReachable(w, Edit(edited));
    WaitingStep(v, error, name);
  }

  // ---- Failed attempts ----

  /** Every preparation in the run asks for what the current attempt was created for. */
  ghost predicate SameRequests(w: World, steps: seq<Step>)
    decreases |steps|
  {
    steps == [] ||
    (&& (steps[0].Prepare? && w.status.conditions.resolved.Some? ==>
           Keeps(w.status.activation, RequestOf(w.meta, steps[0].runtime, steps[0].params,
               w.status.conditions.resolved.value)))
     && SameRequests(After(w, steps[0]), steps[1..]))
  }

  /** A failed attempt stays the current attempt, failed and rendered without replicas,
      for as long as its request does not change, whatever imports, pods, errors and
      edits do. */
  lemma {:induction false} FailedAttemptStays(w: World, steps: seq<Step>)
    requires w.status.activation.Some? && w.status.activation.value.state == Failed && SameRequests(w, steps)
    ensures var end := Run(w, steps).status;
            && end.activation.Some?
            && var a, b := w.status.activation.value, end.activation.value;
               && b.state == Failed && b.attemptID == a.attemptID && b.requestHash == a.requestHash
                   && b.images == a.images
               && forall params :: RenderedReplicas(RenderParams(params, b)) == 0
    decreases |steps|
  {
    if steps != [] {
      FailedStep(w, steps[0]);
      FailedAttemptStays(After(w, steps[0]), steps[1..]);
    }
  }

  lemma FailedStep(w: World, step: Step)
    requires w.status.activation.Some? && w.status.activation.value.state == Failed && SameRequests(w, [step])
    ensures var end := After(w, step).status;
            && end.activation.Some?
            && var a, b := w.status.activation.value, end.activation.value;
               b.state == Failed && b.attemptID == a.attemptID && b.requestHash == a.requestHash && b.images == a.images
  {
  }
}
