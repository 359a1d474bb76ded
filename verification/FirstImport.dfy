/** Reconciles of a ready Catalog while a first import is pending: what the two status
    writes store, pass after pass. */
module FirstImport {
  import opened CatalogTypes
  import opened ImageStatus
  import opened DeploymentStatus
  import opened Activation
  import opened DataImages
  import opened ImageResolution
  import opened StatusPatch
  import opened StoredStatus

  /** What stays the same over the passes. */
  datatype Setting = Setting(meta: CatalogMeta, runtime: Runtime, seen: ResolutionReads, availability: Condition)

  /** What a pass finds: a workload that certifies the attempt, at its own time. */
  datatype Pass = Pass(nonce: string, started: int, workload: WorkloadReads)

  function Outcomes(e: Setting, s: CatalogStatus): (Outcome, Outcome) {
    (CatalogOutcome(s, e.meta, e.seen), BenchmarkOutcome(s, e.meta, e.seen))
  }

  const Awaited := Health(ConditionFalse, NoSuccessfulImport)

  function RequestIn(e: Setting, s: CatalogStatus): Request {
    var o := Outcomes(e, s);
    RequestOf(e.meta, e.runtime, ResolvedParams(e.meta, e.seen, o.0, o.1),
        Condition(Awaited.status, Awaited.reason, e.meta.generation))
  }

  function PrepareIn(e: Setting, s: CatalogStatus, p: Pass): Runs.Step {
    var o := Outcomes(e, s);
    Runs.Prepare(e.runtime, ResolvedParams(e.meta, e.seen, o.0, o.1), p.nonce, p.started)
  }

  ghost function First(e: Setting, s: CatalogStatus, p: Pass): CatalogStatus {
    FirstWrite(s, e.meta, e.seen, PrepareIn(e, s, p))
  }

  ghost function Final(e: Setting, first: CatalogStatus, p: Pass): CatalogStatus {
    Runs.After(Runs.World(e.meta, first), Runs.Observe(None, p.workload, e.availability)).status
  }

  /** The server holds `t` after a pass that read `s` and found its workload ready. */
  ghost predicate Stores(e: Setting, s: CatalogStatus, p: Pass, t: CatalogStatus) {
    && s.activation.Some? && Certifies(p.workload, s.activation.value.attemptID, s.activation.value.images)
    && forall first :: IsFirst(e, s, p, first) ==> StoredDocument(s, first, Final(e, first, p)) == StatusDocument(t)
  }

  /** What the first write of the pass publishes. */
  ghost predicate IsFirst(e: Setting, s: CatalogStatus, p: Pass, first: CatalogStatus) {
    first == First(e, s, p)
  }

  /** A target whose next import is pending while an earlier one is in use. */
  predicate Reimporting(s: CatalogStatus, t: Target, read: StreamRead) {
    && SelectionOf(t.selection).StableSelection? && read.StreamFound?
        && ImportHealth(read.stream).status == ConditionUnknown
    && ResolvedOf(s.conditions, t.name).Some? && ResolvedOf(s.conditions, t.name).value.reason == ImageStreamResolved
  }

  predicate NoReimport(e: Setting, s: CatalogStatus) {
    && !Reimporting(s, CatalogTarget(e.meta, e.seen), e.seen.catalogStream)
    && !Reimporting(s, BenchmarkTarget(e.meta, e.seen), BenchmarkRead(e.meta, e.seen))
  }

  /** The activation conditions of a certified attempt are already published. */
  predicate Reported(s: CatalogStatus, e: Setting) {
    && s.conditions.activationReady == Some(Condition(ConditionTrue, WorkloadValidated, e.meta.generation))
    && s.conditions.activationFailed == Some(Condition(ConditionFalse, WorkloadValidated, e.meta.generation))
    && s.conditions.workload == Some(e.availability.(observedGeneration := e.meta.generation))
  }

  /** A first import is pending, the request is that of the current attempt, which has
      been certified before, and there is nothing new to report. */
  predicate Waits(e: Setting, s: CatalogStatus) {
    && s.activation.Some? && (IsCertified(s.activation.value) || IsHeldBack(s.activation.value))
    && Aggregate(Outcomes(e, s).0.resolved, Outcomes(e, s).1.resolved) == Awaited
    && NoReimport(e, s)
    && s.activation.value.requestHash == Sha256(RequestIn(e, s))
    && Resolve(s, e.meta, e.seen) == s
    && Reported(s, e)
  }

  function WithAttempt(s: CatalogStatus, a: Attempt): CatalogStatus {
    s.(activation := Some(a))
  }

  /** The attempt that a ready pass stores. */
  function NextAttempt(a: Attempt, now: int): Attempt {
    if a.state == Succeeded then HeldBack(a).(recoveredAt := Some(now)) else Certified(a, now)
  }

  // ----- The attempt does not matter to a pending first import -----

  lemma TargetIgnoresAttempt(
    s: CatalogStatus, a: Attempt, generation: int, t: Target, isOpenShift: bool, read: StreamRead, applied: AppliedRead)
    requires !Reimporting(s, t, read)
    ensures TargetOutcome(WithAttempt(s, a), generation, t, isOpenShift, read, applied)
         == TargetOutcome(s, generation, t, isOpenShift, read, applied)
  {
  }

  lemma OutcomesIgnoreAttempt(e: Setting, s: CatalogStatus, a: Attempt)
    requires NoReimport(e, s)
    ensures Outcomes(e, WithAttempt(s, a)) == Outcomes(e, s)
  {
    TargetIgnoresAttempt(s, a, e.meta.generation, CatalogTarget(e.meta, e.seen), e.seen.isOpenShift,
                         e.seen.catalogStream, e.seen.catalogApplied);
    TargetIgnoresAttempt(s, a, e.meta.generation, BenchmarkTarget(e.meta, e.seen), e.seen.isOpenShift,
                         BenchmarkRead(e.meta, e.seen), e.seen.benchmarkApplied);
  }

  lemma ReductionIgnoresAttempt(s: CatalogStatus, a: Attempt, generation: int)
    requires SelectionStatus(s.conditions, generation) != ConditionTrue
    ensures Reduced(WithAttempt(s, a), generation) == WithAttempt(Reduced(s, generation), a)
  {
  }

  lemma ResolutionIgnoresAttempt(e: Setting, s: CatalogStatus, a: Attempt)
    requires Waits(e, s)
    ensures Resolve(WithAttempt(s, a), e.meta, e.seen) == WithAttempt(s, a)
    ensures Reduced(WithAttempt(s, a), e.meta.generation) == WithAttempt(s, a)
  {
    OutcomesIgnoreAttempt(e, s, a);
    var o := Outcomes(e, s);
    ResolvedStatusIgnoresAttempt(s, a, e.meta, o.0, o.1);
    ReduceIdempotent(s, e.meta.generation);
    SettledIsReduced(s, e.meta, o.0, o.1);
    SettledIsPending(s, e.meta, o.0, o.1);
    ReductionIgnoresAttempt(s, a, e.meta.generation);
  }

  lemma SettledIsReduced(s: CatalogStatus, meta: CatalogMeta, oc: Outcome, ob: Outcome)
    requires ResolvedStatus(s, meta, oc, ob) == s
    ensures Reduced(s, meta.generation) == s
  {
    var c := TargetConditions(s, meta.generation, oc, ob);
    var images := PublishedImages(s.activation, Aggregate(oc.resolved, ob.resolved), Images(oc.image, ob.image));
    ReduceIdempotent(
      s.(conditions := c.(workload := if s.resolvedImages != images
          then At(Health(ConditionFalse, ImagesUpdating), meta.generation) else c.workload,
                          updateBlocked := At(BlockCondition(oc, ob), meta.generation)),
         resolvedImages := images), meta.generation);
  }

  lemma SettledIsPending(s: CatalogStatus, meta: CatalogMeta, oc: Outcome, ob: Outcome)
    requires ResolvedStatus(s, meta, oc, ob) == s && Aggregate(oc.resolved, ob.resolved) == Awaited
    ensures s.conditions.resolved == At(Awaited, meta.generation)
    ensures SelectionStatus(s.conditions, meta.generation) == ConditionUnknown && s.resolvedImages == None
  {
    assert s.conditions.resolved == ResolvedStatus(s, meta, oc, ob).conditions.resolved;
    assert s.resolvedImages == ResolvedStatus(s, meta, oc, ob).resolvedImages;
  }

  lemma ResolvedStatusIgnoresAttempt(s: CatalogStatus, a: Attempt, meta: CatalogMeta, oc: Outcome, ob: Outcome)
    requires Aggregate(oc.resolved, ob.resolved) == Awaited
    ensures ResolvedStatus(WithAttempt(s, a), meta, oc, ob) == WithAttempt(ResolvedStatus(s, meta, oc, ob), a)
  {
  }

  // ----- One pass -----

  function Held(a: Attempt): Attempt {
    if IsCertified(a) then HeldBack(a) else a
  }

  lemma PreparationHoldsBack(a: Attempt, request: Request, generation: int, nonce: string, now: int)
    requires (IsCertified(a) || IsHeldBack(a)) && a.requestHash == Sha256(request)
    ensures var awaited := Condition(Awaited.status, Awaited.reason, generation);
            PreparedAttempt(Some(a), request, awaited, nonce, now) == Held(a)
  {
  }

  /** A pending selection publishes no images. */
  lemma PreparedIsReduced(s: CatalogStatus, generation: int, a: Attempt)
    requires Reduced(WithAttempt(s, a), generation) == WithAttempt(s, a)
    ensures PreparedStatus(s, generation, a, Condition(Awaited.status, Awaited.reason, generation)) == WithAttempt(s, a)
  {
  }

  /** Preparation changes nothing but the attempt, which it holds back. */
  lemma FirstHoldsBack(e: Setting, s: CatalogStatus, p: Pass)
    requires Waits(e, s)
    ensures First(e, s, p) == WithAttempt(s, Held(s.activation.value))
  {
    var o := Outcomes(e, s);
    SettledIsPending(s, e.meta, o.0, o.1);
    ResolutionIgnoresAttempt(e, s, Held(s.activation.value));
    PreparationHoldsBack(s.activation.value, RequestIn(e, s), e.meta.generation, p.nonce, p.started);
    PreparedIsReduced(s, e.meta.generation, Held(s.activation.value));
    FirstIsPrepared(e, s, p);
  }

  lemma FirstIsPrepared(e: Setting, s: CatalogStatus, p: Pass)
    requires Resolve(s, e.meta, e.seen) == s
    ensures var o := Outcomes(e, s);
            First(e, s, p) == Runs.Prepared(Runs.World(e.meta, s), e.runtime, ResolvedParams(e.meta, e.seen, o.0, o.1),
                p.nonce, p.started)
  {
  }

  lemma ObservationReportsNothing(e: Setting, s: CatalogStatus, held: Attempt, workload: WorkloadReads)
    requires Reported(s, e) && held.state != Failed && Certifies(workload, held.attemptID, held.images)
    ensures var observe := Runs.Observe(None, workload, e.availability);
            Runs.Observed(Runs.World(e.meta, WithAttempt(s, held)), observe)
            == WithAttempt(s, Certified(held, workload.now))
  {
    var first := WithAttempt(s, held);
    var certified := Certified(held, workload.now);
    assert ActivationConditions(s.conditions, certified, true, e.meta.generation) == s.conditions;
    assert ObservedStatus(first, e.meta.generation, None, true, workload.now) == WithAttempt(s, certified);
  }

  /** Observation certifies it again. */
  lemma FinalCertifies(e: Setting, s: CatalogStatus, held: Attempt, p: Pass)
    requires Reported(s, e) && held.state != Failed && Certifies(p.workload, held.attemptID, held.images)
    requires var certified := WithAttempt(s, Certified(held, p.workload.now));
             Reduced(certified, e.meta.generation) == certified
    ensures Final(e, WithAttempt(s, held), p) == WithAttempt(s, Certified(held, p.workload.now))
  {
    ObservationReportsNothing(e, s, held, p.workload);
  }

  lemma AttemptFieldIsStored(s: CatalogStatus, first: Attempt, final: Attempt, stored: Attempt, k: Field)
    requires s.activation.Some?
    requires Merge(AttemptDocument(first), Diff(AttemptDocument(s.activation.value),
        AttemptDocument(final))) == AttemptDocument(stored)
    ensures FieldAgrees(StoredDocument(s, WithAttempt(s, first), WithAttempt(s, final)),
        StatusDocument(WithAttempt(s, stored)), k)
  {
    StatusHasNoNulls(WithAttempt(s, final));
    StoredField(StatusDocument(s), StatusDocument(WithAttempt(s, first)), StatusDocument(WithAttempt(s, final)), k);
    if k == ActivationField && AttemptDocument(final) == AttemptDocument(s.activation.value) {
      UnchangedIsStored(AttemptDocument(first), AttemptDocument(final));
    }
  }

  /** A change of the attempt alone is stored as that change. */
  lemma AttemptIsStored(s: CatalogStatus, first: Attempt, final: Attempt, stored: Attempt)
    requires s.activation.Some?
    requires Merge(AttemptDocument(first), Diff(AttemptDocument(s.activation.value),
        AttemptDocument(final))) == AttemptDocument(stored)
    ensures StoredDocument(s, WithAttempt(s, first), WithAttempt(s, final)) == StatusDocument(WithAttempt(s, stored))
  {
    var written := StoredDocument(s, WithAttempt(s, first), WithAttempt(s, final));
    forall k
      ensures FieldAgrees(written, StatusDocument(WithAttempt(s, stored)), k)
    {
      AttemptFieldIsStored(s, first, final, stored, k);
    }
    FieldsAgree(written, StatusDocument(WithAttempt(s, stored)));
  }

  /** An empty patch leaves what is stored. */
  lemma UnchangedIsStored<K, V>(stored: Json<K, V>, same: Json<K, V>)
    requires stored.Obj? && same.Obj?
    ensures Merge(stored, Diff(same, same)) == stored
  {
    assert Diff(same, same).fields == map[];
    assert Merge(stored, Diff(same, same)).fields == stored.fields;
  }

  lemma NextAttemptIsStored(a: Attempt, now: int)
    requires IsCertified(a) || IsHeldBack(a)
    ensures var held := Held(a);
            Merge(AttemptDocument(held), Diff(AttemptDocument(a), AttemptDocument(Certified(held, now))))
            == AttemptDocument(NextAttempt(a, now))
    ensures IsCertified(NextAttempt(a, now)) <==> IsHeldBack(a)
    ensures IsHeldBack(NextAttempt(a, now)) <==> IsCertified(a)
  {
    if IsCertified(a) {
      FirstImportLosesState(a, now);
    } else {
      FirstImportRegainsState(a, now);
    }
  }

  /** The document that such a pass leaves. */
  lemma PassWritesNextAttempt(e: Setting, s: CatalogStatus, p: Pass)
    requires Waits(e, s) && Certifies(p.workload, s.activation.value.attemptID, s.activation.value.images)
    ensures var first := WithAttempt(s, Held(s.activation.value));
            && IsFirst(e, s, p, first)
            && StoredDocument(s, first, Final(e, first, p))
               == StatusDocument(WithAttempt(s, NextAttempt(s.activation.value, p.workload.now)))
  {
    var a, now := s.activation.value, p.workload.now;
    FirstHoldsBack(e, s, p);
    CertifiedIsReduced(e, s, Certified(Held(a), now));
    FinalCertifies(e, s, Held(a), p);
    NextAttemptIsStored(a, now);
    AttemptIsStored(s, Held(a), Certified(Held(a), now), NextAttempt(a, now));
  }

  lemma CertifiedIsReduced(e: Setting, s: CatalogStatus, a: Attempt)
    requires Waits(e, s)
    ensures Reduced(WithAttempt(s, a), e.meta.generation) == WithAttempt(s, a)
  {
    ResolutionIgnoresAttempt(e, s, a);
  }

  /** Whatever such a pass stores differs in the attempt alone: a certified attempt is
      stored held back and one held back is stored certified. The next pass finds the
      same situation. */
  lemma PassStoresNextAttempt(e: Setting, s: CatalogStatus, p: Pass, t: CatalogStatus)
    requires Waits(e, s) && Stores(e, s, p, t)
    ensures t == WithAttempt(s, NextAttempt(s.activation.value, p.workload.now)) && Waits(e, t)
  {
    var next := NextAttempt(s.activation.value, p.workload.now);
    PassWritesNextAttempt(e, s, p);
    StatusDetermined(t, WithAttempt(s, next));
    NextAttemptIsStored(s.activation.value, p.workload.now);
    WaitsWithNext(e, s, next);
  }

  lemma WaitsWithNext(e: Setting, s: CatalogStatus, a: Attempt)
    requires Waits(e, s) && (IsCertified(a) || IsHeldBack(a)) && a.requestHash == s.activation.value.requestHash
    ensures Waits(e, WithAttempt(s, a))
  {
    OutcomesIgnoreAttempt(e, s, a);
    ResolutionIgnoresAttempt(e, s, a);
  }

  // ----- How the situation arises -----

  /** A target that is resolved by itself, or in an ordinary first import. */
  predicate Plain(o: Outcome) {
    (IsResolved(o) || IsFirstImport(o)) && (o.health.status == ConditionUnknown ==>
        o.resolved.reason != ImageStreamResolved)
  }

  lemma PlainTargetSettles(
    s: CatalogStatus, f: CatalogStatus, generation: int, t: Target, isOpenShift: bool, read: StreamRead,
        applied: AppliedRead)
    requires Plain(TargetOutcome(s, generation, t, isOpenShift, read, applied))
    requires Records(f.conditions, t.name, TargetOutcome(s, generation, t, isOpenShift, read, applied), generation)
    ensures TargetOutcome(f, generation, t, isOpenShift, read, applied) == TargetOutcome(s, generation, t, isOpenShift,
        read, applied)
    ensures !Reimporting(f, t, read)
  {
  }

  lemma PlainOutcomesSettle(e: Setting, s: CatalogStatus, f: CatalogStatus)
    requires Plain(Outcomes(e, s).0) && Plain(Outcomes(e, s).1)
    requires Records(f.conditions, CatalogData, Outcomes(e, s).0, e.meta.generation)
    requires Records(f.conditions, BenchmarkData, Outcomes(e, s).1, e.meta.generation)
    ensures Outcomes(e, f) == Outcomes(e, s) && NoReimport(e, f)
  {
    PlainTargetSettles(s, f, e.meta.generation, CatalogTarget(e.meta, e.seen), e.seen.isOpenShift,
                       e.seen.catalogStream, e.seen.catalogApplied);
    PlainTargetSettles(s, f, e.meta.generation, BenchmarkTarget(e.meta, e.seen), e.seen.isOpenShift,
                       BenchmarkRead(e.meta, e.seen), e.seen.benchmarkApplied);
  }

  /** Everything resolution publishes about a pending first import. */
  predicate Publishes(c: Conditions, oc: Outcome, ob: Outcome, generation: int) {
    && Records(c, CatalogData, oc, generation) && Records(c, BenchmarkData, ob, generation)
    && c.resolved == At(Aggregate(oc.resolved, ob.resolved), generation)
    && c.importHealthy == At(Aggregate(oc.health, ob.health), generation)
    && c.updateBlocked == At(BlockCondition(oc, ob), generation)
  }

  lemma PublishedStaysPublished(f: CatalogStatus, meta: CatalogMeta, oc: Outcome, ob: Outcome)
    requires Publishes(f.conditions, oc, ob, meta.generation) && Reduced(f, meta.generation) == f
    requires Aggregate(oc.resolved, ob.resolved) == Awaited && f.resolvedImages == None
    ensures ResolvedStatus(f, meta, oc, ob) == f
  {
    assert TargetConditions(f, meta.generation, oc, ob) == f.conditions;
    assert f.conditions.(updateBlocked := At(BlockCondition(oc, ob), meta.generation)) == f.conditions;
  }

  lemma ResolutionPublishes(s: CatalogStatus, meta: CatalogMeta, oc: Outcome, ob: Outcome)
    requires Aggregate(oc.resolved, ob.resolved) == Awaited
    ensures var r := ResolvedStatus(s, meta, oc, ob);
            r.activation == s.activation && r.resolvedImages == None && Publishes(r.conditions, oc, ob, meta.generation)
  {
  }

  lemma PreparationPublishes(
    r: CatalogStatus, meta: CatalogMeta, a: Attempt, resolved: Condition, oc: Outcome, ob: Outcome)
    requires r.resolvedImages == None && resolved.status != ConditionTrue
    requires Publishes(r.conditions, oc, ob, meta.generation)
    ensures var f := PreparedStatus(r, meta.generation, a, resolved);
            f.activation == Some(a) && f.resolvedImages == None && Publishes(f.conditions, oc, ob, meta.generation)
  {
  }

  lemma FirstPublishes(e: Setting, s: CatalogStatus, p: Pass)
    requires s.activation.Some? && s.activation.value.state != Failed
    requires s.activation.value.requestHash == Sha256(RequestIn(e, s))
    requires Aggregate(Outcomes(e, s).0.resolved, Outcomes(e, s).1.resolved) == Awaited
    ensures var f := First(e, s, p);
            && f.activation == Some(HeldBack(s.activation.value)) && f.resolvedImages == None
            && Publishes(f.conditions, Outcomes(e, s).0, Outcomes(e, s).1, e.meta.generation)
  {
    var o := Outcomes(e, s);
    ResolutionPublishes(s, e.meta, o.0, o.1);
    var r := Resolve(s, e.meta, e.seen);
    PreparationPublishes(r, e.meta, HeldBack(s.activation.value), r.conditions.resolved.value, o.0, o.1);
    PreparationHoldsAnyBack(s.activation.value, RequestIn(e, s), e.meta.generation, p.nonce, p.started);
  }

  lemma PreparationHoldsAnyBack(a: Attempt, request: Request, generation: int, nonce: string, now: int)
    requires a.state != Failed && a.requestHash == Sha256(request)
    ensures var awaited := Condition(Awaited.status, Awaited.reason, generation);
            PreparedAttempt(Some(a), request, awaited, nonce, now) == HeldBack(a)
  {
  }

  lemma FinalReports(e: Setting, first: CatalogStatus, p: Pass, oc: Outcome, ob: Outcome)
    requires first.activation.Some? && first.activation.value.state != Failed && first.resolvedImages == None
    requires Certifies(p.workload, first.activation.value.attemptID, first.activation.value.images)
    requires Publishes(first.conditions, oc, ob, e.meta.generation)
    ensures var f := Final(e, first, p);
            && f.activation == Some(Certified(first.activation.value, p.workload.now)) && f.resolvedImages == None
            && Publishes(f.conditions, oc, ob, e.meta.generation) && Reported(f, e)
                && Reduced(f, e.meta.generation) == f
  {
    var observe := Runs.Observe(None, p.workload, e.availability);
    var w := Runs.World(e.meta, first);
    assert Runs.Observed(w, observe)
           == Runs.WithWorkload(ObservedStatus(first, e.meta.generation, None, true, p.workload.now), e.availability,
               e.meta.generation);
    ReduceIdempotent(Runs.Observed(w, observe), e.meta.generation);
  }

  /** One ready pass over a kept, once certified attempt leaves it in memory, whatever
      the status was before: this is where the alternation starts. */
  lemma ReadyPassWaits(e: Setting, s: CatalogStatus, p: Pass)
    requires s.activation.Some? && s.activation.value.state != Failed && RecoveryWindow.OwnSuccess(s.activation.value)
    requires s.activation.value.requestHash == Sha256(RequestIn(e, s))
    requires Plain(Outcomes(e, s).0) && Plain(Outcomes(e, s).1)
    requires Aggregate(Outcomes(e, s).0.resolved, Outcomes(e, s).1.resolved) == Awaited
    requires Certifies(p.workload, s.activation.value.attemptID, s.activation.value.images)
    ensures var f := Final(e, First(e, s, p), p); Waits(e, f) && IsCertified(f.activation.value)
  {
    var o := Outcomes(e, s);
    FirstPublishes(e, s, p);
    var first := First(e, s, p);
    FinalReports(e, first, p, o.0, o.1);
    SettledWaits(e, s, Final(e, first, p));
  }

  lemma SettledWaits(e: Setting, s: CatalogStatus, f: CatalogStatus)
    requires s.activation.Some? && s.activation.value.requestHash == Sha256(RequestIn(e, s))
    requires Plain(Outcomes(e, s).0) && Plain(Outcomes(e, s).1)
    requires Aggregate(Outcomes(e, s).0.resolved, Outcomes(e, s).1.resolved) == Awaited
    requires Publishes(f.conditions, Outcomes(e, s).0, Outcomes(e, s).1, e.meta.generation)
    requires Reported(f, e) && Reduced(f, e.meta.generation) == f && f.resolvedImages == None
    requires f.activation.Some? && IsCertified(f.activation.value)
    requires f.activation.value.requestHash == s.activation.value.requestHash
    ensures Waits(e, f)
  {
    PlainOutcomesSettle(e, s, f);
    PublishedStaysPublished(f, e.meta, Outcomes(e, s).0, Outcomes(e, s).1);
  }

  // ----- Any number of passes -----

  /** The statuses the server holds before and after each of the passes. */
  ghost predicate IsHistory(e: Setting, statuses: seq<CatalogStatus>, passes: seq<Pass>) {
    |statuses| == |passes| + 1 && forall i :: 0 <= i < |passes| ==> StoresAt(e, statuses, passes, i)
  }

  ghost predicate StoresAt(e: Setting, statuses: seq<CatalogStatus>, passes: seq<Pass>, i: int)
    requires 0 <= i < |passes| < |statuses|
  {
    Stores(e, statuses[i], passes[i], statuses[i + 1])
  }

  /** Only the progress of the attempt differs. */
  predicate SameButProgress(s: CatalogStatus, t: CatalogStatus) {
    && s.activation.Some? && t.activation.Some?
    && var a, b := s.activation.value, t.activation.value;
       t == WithAttempt(s, a.(state := b.state, stage := b.stage, reason := b.reason, recoveredAt := b.recoveredAt))
  }

  /** Certified becomes held back, held back becomes certified. */
  predicate Toggles(s: CatalogStatus, t: CatalogStatus) {
    && SameButProgress(s, t)
    && (IsCertified(t.activation.value) <==> IsHeldBack(s.activation.value))
    && (IsHeldBack(t.activation.value) <==> IsCertified(s.activation.value))
  }

  lemma PassToggles(e: Setting, s: CatalogStatus, p: Pass, t: CatalogStatus)
    requires Waits(e, s) && Stores(e, s, p, t)
    ensures Waits(e, t) && Toggles(s, t)
  {
    PassStoresNextAttempt(e, s, p, t);
    NextAttemptIsStored(s.activation.value, p.workload.now);
  }

  predicate AllToggle(statuses: seq<CatalogStatus>) {
    forall i :: 0 < i < |statuses| ==> Toggles(statuses[i - 1], statuses[i])
  }

  lemma {:induction false} PassesToggle(e: Setting, statuses: seq<CatalogStatus>, passes: seq<Pass>)
    requires IsHistory(e, statuses, passes) && Waits(e, statuses[0])
    ensures AllToggle(statuses)
    decreases |passes|
  {
    if passes != [] {
      assert StoresAt(e, statuses, passes, 0);
      PassToggles(e, statuses[0], passes[0], statuses[1]);
      HistoryTail(e, statuses, passes);
      PassesToggle(e, statuses[1..], passes[1..]);
      forall i | 0 < i < |statuses|
        ensures Toggles(statuses[i - 1], statuses[i])
      {
        if i > 1 {
          assert Toggles(statuses[1..][i - 2], statuses[1..][i - 1]);
        }
      }
    }
  }

  lemma {:induction false} ParityOfToggles(statuses: seq<CatalogStatus>, n: nat)
    requires n < |statuses| && AllToggle(statuses) && statuses[0].activation.Some?
    ensures SameButProgress(statuses[0], statuses[n])
    ensures var a, b := statuses[0].activation.value, statuses[n].activation.value;
            && (IsCertified(b) <==> if n % 2 == 0 then IsCertified(a) else IsHeldBack(a))
            && (IsHeldBack(b) <==> if n % 2 == 0 then IsHeldBack(a) else IsCertified(a))
  {
    if n > 0 {
      ParityOfToggles(statuses, n - 1);
      assert Toggles(statuses[n - 1], statuses[n]);
    }
  }

  lemma HistoryTail(e: Setting, statuses: seq<CatalogStatus>, passes: seq<Pass>)
    requires IsHistory(e, statuses, passes) && passes != []
    ensures IsHistory(e, statuses[1..], passes[1..])
  {
    forall i | 0 <= i < |passes| - 1
      ensures StoresAt(e, statuses[1..], passes[1..], i)
    {
      assert StoresAt(e, statuses, passes, i + 1);
    }
  }

  /** A workload that is ready all the time is stored as Succeeded after an even number
      of passes and as Pending after an odd number, with nothing else but its stage,
      reason and recovery time changing, for as long as the first import is pending. */
  lemma FirstImportAlternates(e: Setting, statuses: seq<CatalogStatus>, passes: seq<Pass>, n: nat)
    requires IsHistory(e, statuses, passes) && n < |statuses|
    requires Waits(e, statuses[0])
    ensures SameButProgress(statuses[0], statuses[n])
    ensures var a, b := statuses[0].activation.value, statuses[n].activation.value;
            && (IsCertified(b) <==> if n % 2 == 0 then IsCertified(a) else IsHeldBack(a))
            && (IsHeldBack(b) <==> if n % 2 == 0 then IsHeldBack(a) else IsCertified(a))
  {
    PassesToggle(e, statuses, passes);
    ParityOfToggles(statuses, n);
  }
}
