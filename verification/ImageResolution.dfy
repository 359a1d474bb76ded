/** What resolution guarantees: current images only, agreement with the rollout gate,
    and requests that survive imports of the digest already serving. */
module ImageResolution {
  import opened CatalogTypes
  import opened ImageStatus
  import opened ImageRefs
  import opened Activation
  import opened DataImages

  /** `image` is the newest entry of the import history, imported at or after the
      requested generation, with no failure reported since. */
  predicate IsCurrentImport(stream: ImageStream, image: string) {
    var generation := RequestedGeneration(stream);
    var history := StableHistory(stream.statusTags);
    && history.Some? && history.value.items != []
    && history.value.items[0].generation >= generation
    && (forall c :: c in history.value.conditions ==> !FailedAt(c, generation))
    && image == ItemImage(history.value.items[0])
  }

  predicate IsPinned(image: string) {
    Cut(image, '@').found && IsDigest(Cut(image, '@').after)
  }

  lemma {:induction false} NewestImportIsLast(tags: seq<StatusTag>)
    requires StableHistory(tags).Some?
    requires var items := StableHistory(tags).value.items; items != [] && ItemImage(items[0]) != ""
    ensures LastImported(tags) == ItemImage(StableHistory(tags).value.items[0])
  {
    if tags[0].tag != StableTag {
      NewestImportIsLast(tags[1..]);
    }
  }

  lemma {:induction false} FirstImportedIsPinned(items: seq<TagEvent>)
    requires FirstImported(items) != ""
    ensures IsPinned(FirstImported(items))
  {
    if ItemImage(items[0]) != "" {
      ImportedImageIsPinned(items[0].reference, items[0].image);
    } else {
      FirstImportedIsPinned(items[1..]);
    }
  }

  lemma {:induction false} LastImportedIsPinned(tags: seq<StatusTag>)
    requires LastImported(tags) != ""
    ensures IsPinned(LastImported(tags))
  {
    if tags[0].tag == StableTag && FirstImported(tags[0].items) != "" {
      FirstImportedIsPinned(tags[0].items);
    } else {
      LastImportedIsPinned(tags[1..]);
    }
  }

  /** A successful import is the image that is handed on. */
  lemma HealthyImportIsCurrent(stream: ImageStream)
    requires ImportHealth(stream).status == ConditionTrue
    ensures IsCurrentImport(stream, LastImported(stream.statusTags)) && LastImported(stream.statusTags) != ""
  {
    NewestImportIsLast(stream.statusTags);
  }

  /** Read off the branches: where a stream's own resolution comes from. */
  lemma StableResolution(s: CatalogStatus, generation: int, t: Target, stream: ImageStream, applied: AppliedRead)
    requires StableOutcome(s, generation, t, stream, applied).resolved.reason == ImageStreamResolved
    ensures StableOutcome(s, generation, t, stream, applied).image == LastImported(stream.statusTags) != ""
    ensures ImportHealth(stream).status == ConditionTrue || ServingPrevious(s, generation, t.name, stream)
  {
    HealthReasons(stream);
  }

  /** Only a target that follows its stream is resolved by it. */
  lemma StreamResolution(
    s: CatalogStatus, generation: int, t: Target, isOpenShift: bool, read: StreamRead, applied: AppliedRead)
    requires TargetOutcome(s, generation, t, isOpenShift, read, applied).resolved.reason == ImageStreamResolved
    ensures isOpenShift && read.StreamFound? && SelectionOf(t.selection).StableSelection?
    ensures TargetOutcome(s, generation, t, isOpenShift, read, applied) == StableOutcome(s, generation, t, read.stream,
        applied)
  {
  }

  /** What `image` is while a re-import is pending: exactly what the current, succeeded
      attempt requested. */
  predicate IsServing(s: CatalogStatus, name: TargetName, stream: ImageStream, image: string) {
    && ImportHealth(stream).status == ConditionUnknown
    && s.activation.Some? && s.activation.value.state == Succeeded
    && RequestedImage(s.activation.value.requestedImages, name) == image
  }

  lemma ServingIsRequested(s: CatalogStatus, generation: int, name: TargetName, stream: ImageStream)
    requires ServingPrevious(s, generation, name, stream)
    ensures IsServing(s, name, stream, LastImported(stream.statusTags))
  {
  }

  /** A target that follows its ImageStream resolves, for every stream, either to the
      current import or, while a re-import is pending, to exactly the image that the
      current, succeeded attempt requested; both are pinned by digest. */
  lemma ResolvedImageIsCurrentOrServing(
    s: CatalogStatus, generation: int, t: Target, isOpenShift: bool, read: StreamRead, applied: AppliedRead)
    requires TargetOutcome(s, generation, t, isOpenShift, read, applied).resolved.reason == ImageStreamResolved
    ensures isOpenShift && read.StreamFound? && SelectionOf(t.selection).StableSelection?
    ensures var image := TargetOutcome(s, generation, t, isOpenShift, read, applied).image;
            IsPinned(image) && (IsCurrentImport(read.stream, image) || IsServing(s, t.name, read.stream, image))
  {
    StreamResolution(s, generation, t, isOpenShift, read, applied);
    StableResolution(s, generation, t, read.stream, applied);
    LastImportedIsPinned(read.stream.statusTags);
    if ServingPrevious(s, generation, t.name, read.stream) {
      ServingIsRequested(s, generation, t.name, read.stream);
    } else {
      HealthyImportIsCurrent(read.stream);
    }
  }

  predicate IsResolved(o: Outcome) {
    o.resolved.status == ConditionTrue
  }

  /** An ordinary first import that is still under way. */
  predicate IsFirstImport(o: Outcome) {
    o.resolved == Health(ConditionFalse, NoSuccessfulImport) && o.health.status == ConditionUnknown
  }

  predicate KnownKind(o: Outcome) {
    && (IsResolved(o) || o.resolved.status == ConditionFalse
        || o.resolved == Health(ConditionUnknown, AwaitingSuccessfulImport))
    && (o.resolved.reason == AwaitingSuccessfulImport ==> o.resolved.status == ConditionUnknown)
    && (o.resolved.reason == NoSuccessfulImport ==> IsFirstImport(o))
    && o.resolved.reason != InvalidImageSelection
  }

  lemma HealthReasons(stream: ImageStream)
    ensures ImportHealth(stream).status == ConditionFalse ==>
        ImportHealth(stream).reason in {ImportFailed, InvalidImportedImage}
  {
  }

  lemma StableOutcomeKinds(s: CatalogStatus, generation: int, t: Target, stream: ImageStream, applied: AppliedRead)
    ensures KnownKind(StableOutcome(s, generation, t, stream, applied))
  {
    HealthReasons(stream);
    if ImportHealth(stream).status == ConditionTrue {
      HealthyImportIsCurrent(stream);
    }
  }

  /** The verdicts a single target can get. */
  lemma OutcomeKinds(
    s: CatalogStatus, generation: int, t: Target, isOpenShift: bool, read: StreamRead, applied: AppliedRead)
    ensures KnownKind(TargetOutcome(s, generation, t, isOpenShift, read, applied))
  {
    if read.StreamFound? {
      StableOutcomeKinds(s, generation, t, read.stream, applied);
    }
  }

  /** Containment is requested exactly when some target is neither resolved nor an
      ordinary first import; otherwise the aggregate is True or that first import. */
  lemma BlocksExactly(s: CatalogStatus, meta: CatalogMeta, seen: ResolutionReads)
    ensures var oc, ob := CatalogOutcome(s, meta, seen), BenchmarkOutcome(s, meta, seen);
            var all := Aggregate(oc.resolved, ob.resolved);
            && (!Blocks(s, meta, seen) <==>
                (IsResolved(oc) || IsFirstImport(oc)) && (IsResolved(ob) || IsFirstImport(ob)))
            && (all.status == ConditionTrue <==> IsResolved(oc) && IsResolved(ob))
            && (!Blocks(s, meta, seen) ==>
                all.status == ConditionTrue || all == Health(ConditionFalse, NoSuccessfulImport))
            && all.reason != InvalidImageSelection
            && (all.reason == NoSuccessfulImport ==> all.status == ConditionFalse)
  {
    OutcomeKinds(s, meta.generation, CatalogTarget(meta, seen), seen.isOpenShift, seen.catalogStream,
        seen.catalogApplied);
    OutcomeKinds(s, meta.generation, BenchmarkTarget(meta, seen), seen.isOpenShift, BenchmarkRead(meta, seen),
        seen.benchmarkApplied);
  }

  /** The two gates agree: unless resolution asks for containment, preparing the attempt
      never newly fails it, and a confirmed selection never coincides with a block. */
  lemma GatesAgreeAfterResolution(s: CatalogStatus, meta: CatalogMeta, seen: ResolutionReads,
      activation: Option<Attempt>, request: Request, nonce: string, now: int)
    ensures var c := Resolve(s, meta, seen).conditions;
            && c.resolved.Some? && GatesAgree(c)
            && (Holds(c.updateBlocked) <==> Blocks(s, meta, seen))
            && var a := PreparedAttempt(activation, request, c.resolved.value, nonce, now);
               && (a.stage == StageSelection ==> Keeps(activation, request) && activation.value.stage == StageSelection)
               && (!Blocks(s, meta, seen) && a.state == Failed ==>
                   Keeps(activation, request) && activation.value.state == Failed)
  {
    BlocksExactly(s, meta, seen);
  }

  /** The image is pinned at the digest that the release pins. */
  predicate AtReleaseDigest(image: string, release: string) {
    IsPinned(image) && IsPinned(release) && Cut(image, '@').after == Cut(release, '@').after
  }

  /** A resolved selection may use the legacy runtime file exactly if its content is the
      release's: the release default, a stream importing the release source, or an import
      of the release digest from any mirror. A manual override of the stream with other
      content may not, and neither may a pinned digest, even the release's own. */
  lemma LegacyFileExactly(s: CatalogStatus, meta: CatalogMeta, seen: ResolutionReads)
    requires IsResolved(CatalogOutcome(s, meta, seen))
    ensures var o := CatalogOutcome(s, meta, seen);
            ResolvedParams(meta, seen, o, BenchmarkOutcome(s, meta, seen)).allowLegacyRuntimeFile <==>
              || SelectionOf(meta.catalogSelection).ReleaseSelection?
              || (&& SelectionOf(meta.catalogSelection).StableSelection? && seen.catalogStream.StreamFound?
                  && (|| ReleaseSourced(seen.catalogStream.stream, seen.release.catalog)
                      || AtReleaseDigest(o.image, seen.release.catalog)))
  {
    var o := CatalogOutcome(s, meta, seen);
    if SelectionOf(meta.catalogSelection).StableSelection? {
      ResolvedByStream(s, meta.generation, CatalogTarget(meta, seen), seen.isOpenShift, seen.catalogStream,
          seen.catalogApplied);
    }
  }

  lemma ResolvedByStream(
    s: CatalogStatus, generation: int, t: Target, isOpenShift: bool, read: StreamRead, applied: AppliedRead)
    requires SelectionOf(t.selection).StableSelection?
    requires IsResolved(TargetOutcome(s, generation, t, isOpenShift, read, applied))
    ensures var o := TargetOutcome(s, generation, t, isOpenShift, read, applied);
            read.StreamFound? && IsPinned(o.image) && (o.releaseSourced <==>
                t.name.CatalogData? && ReleaseSourced(read.stream, t.release))
  {
    ResolvedTargetIsSteady(s, generation, t, isOpenShift, read, applied);
    LastImportedIsPinned(read.stream.statusTags);
  }

  /** A mirror that imports the release digest keeps the release's behaviour. */
  lemma MirrorKeepsLegacyFile(
    s: CatalogStatus, meta: CatalogMeta, seen: ResolutionReads, mirror: string, release: string, digest: string)
    requires SelectionOf(meta.catalogSelection).StableSelection? && IsResolved(CatalogOutcome(s, meta, seen))
    requires IsDigest(digest) && '@' !in mirror && '@' !in release
    requires CatalogOutcome(s, meta, seen).image == mirror + "@" + digest
        && seen.release.catalog == release + "@" + digest
    ensures AllowsLegacy(meta, seen, CatalogOutcome(s, meta, seen))
  {
    CutJoined(mirror, digest);
    CutJoined(release, digest);
    LegacyFileExactly(s, meta, seen);
    ResolvedByStream(s, meta.generation, CatalogTarget(meta, seen), seen.isOpenShift, seen.catalogStream,
        seen.catalogApplied);
  }

  /** A stream whose updates are blocked falls back to the release, and so to its file. */
  lemma BlockedStreamKeepsLegacyFile(s: CatalogStatus, meta: CatalogMeta, seen: ResolutionReads)
    requires var o := CatalogOutcome(s, meta, seen); !IsResolved(o) && !IsFirstImport(o)
    requires SelectionOf(meta.catalogSelection).StableSelection?
    ensures var o := CatalogOutcome(s, meta, seen); o.image == seen.release.catalog && AllowsLegacy(meta, seen, o)
  {
    OutcomeKinds(s, meta.generation, CatalogTarget(meta, seen), seen.isOpenShift, seen.catalogStream,
        seen.catalogApplied);
  }

  /** The second round of reads differs from the first only by import generations and
      by successful or pending imports of the same digests. */
  predicate SameStream(first: StreamRead, next: StreamRead, release: string) {
    && first.StreamFound? && next.StreamFound?
    && next.stream.uid == first.stream.uid
    && (ReleaseSourced(next.stream, release) <==> ReleaseSourced(first.stream, release))
    && LastImported(next.stream.statusTags) == LastImported(first.stream.statusTags) != ""
    && ImportHealth(next.stream).status != ConditionFalse
  }

  predicate SameImports(meta: CatalogMeta, first: ResolutionReads, next: ResolutionReads) {
    && first.isOpenShift == next.isOpenShift && first.release == next.release
    && first.catalogSource == next.catalogSource && first.benchmarkSource == next.benchmarkSource
    && (SelectionOf(meta.catalogSelection).StableSelection? ==>
          next.isOpenShift && SameStream(first.catalogStream, next.catalogStream, next.release.catalog))
    && (SelectionOf(meta.benchmarkSelection).StableSelection? ==>
          next.isOpenShift && SameStream(BenchmarkRead(meta, first), BenchmarkRead(meta, next), next.release.benchmark))
  }

  /** What an undisturbed target resolves to, from the first reads alone. */
  function SteadyOutcome(t: Target, read: StreamRead): Outcome
    requires SelectionOf(t.selection).StableSelection? ==> read.StreamFound?
  {
    match SelectionOf(t.selection)
    case InvalidSelection => Outcome(Health(ConditionFalse, InvalidDataImageSelection), NotTracking, t.release, [],
        false)
    case ReleaseSelection => Outcome(Health(ConditionTrue, ReleaseDefault), NotTracking, t.release, [], false)
    case PinnedSelection(digest) => Outcome(Health(ConditionTrue, DigestPinned), NotTracking,
        PinnedImage(t.source, digest), [], false)
    case StableSelection =>
      Outcome(Health(ConditionTrue, ImageStreamResolved), Health(ConditionTrue, ImportSucceeded),
          LastImported(read.stream.statusTags),
              [Evidence(read.stream.uid, TargetText(t.name), ConditionTrue, None)], t.name.CatalogData?
                  && ReleaseSourced(read.stream, t.release))
  }

  /** A target whose serving image the succeeded attempt requested. */
  predicate TargetSteady(s: CatalogStatus, generation: int, t: Target, read: StreamRead) {
    && !SelectionOf(t.selection).InvalidSelection?
    && (SelectionOf(t.selection).StableSelection? ==>
          && read.StreamFound? && LastImported(read.stream.statusTags) != ""
          && ResolvedOf(s.conditions, t.name) == Some(Condition(ConditionTrue, ImageStreamResolved, generation))
          && !AwaitingRecovery(s.conditions, t.name)
          && s.activation.Some?
          && RequestedImage(s.activation.value.requestedImages, t.name) == LastImported(read.stream.statusTags))
  }

  lemma SteadyTargetKeepsOutcome(s: CatalogStatus, generation: int, t: Target, first: StreamRead, next: StreamRead,
      isOpenShift: bool, applied: AppliedRead)
    requires TargetSteady(s, generation, t, first) && s.activation.Some? && s.activation.value.state == Succeeded
    requires SelectionOf(t.selection).StableSelection? ==> isOpenShift && SameStream(first, next, t.release)
    ensures var o := TargetOutcome(s, generation, t, isOpenShift, next, applied);
            && o.(health := SteadyOutcome(t, first).health) == SteadyOutcome(t, first)
            && o.health.status != ConditionFalse
  {
  }

  /** A succeeded attempt on the pair that the given reads resolve to. */
  predicate Steady(s: CatalogStatus, meta: CatalogMeta, runtime: Runtime, first: ResolutionReads) {
    && s.activation.Some? && s.activation.value.state == Succeeded
    && TargetSteady(s, meta.generation, CatalogTarget(meta, first), first.catalogStream)
    && TargetSteady(s, meta.generation, BenchmarkTarget(meta, first), BenchmarkRead(meta, first))
    && s.activation.value.requestHash == Sha256(SteadyRequest(meta, runtime, first))
  }

  function SteadyRequest(meta: CatalogMeta, runtime: Runtime, first: ResolutionReads): Request
    requires SelectionOf(meta.catalogSelection).StableSelection? ==> first.catalogStream.StreamFound?
    requires SelectionOf(meta.benchmarkSelection).StableSelection? ==> BenchmarkRead(meta, first).StreamFound?
  {
    var oc := SteadyOutcome(CatalogTarget(meta, first), first.catalogStream);
    var ob := SteadyOutcome(BenchmarkTarget(meta, first), BenchmarkRead(meta, first));
    var all := Aggregate(oc.resolved, ob.resolved);
    RequestOf(meta, runtime, ResolvedParams(meta, first, oc, ob), Condition(all.status, all.reason, meta.generation))
  }

  /** One quiet pass: resolve, prepare, and observe no failure. */
  datatype Quiet = Quiet(seen: ResolutionReads, ready: bool, nonce: string, now: int)

  function PrepareAfter(s: CatalogStatus, meta: CatalogMeta, runtime: Runtime, seen: ResolutionReads, nonce: string,
      now: int): CatalogStatus {
    var oc, ob := CatalogOutcome(s, meta, seen), BenchmarkOutcome(s, meta, seen);
    var r := Resolve(s, meta, seen);
    var resolved := r.conditions.resolved.value;
    PreparedStatus(r, meta.generation,
      PreparedAttempt(r.activation, RequestOf(meta, runtime, ResolvedParams(meta, seen, oc, ob), resolved), resolved,
          nonce, now), resolved)
  }

  function QuietPass(s: CatalogStatus, meta: CatalogMeta, runtime: Runtime, q: Quiet): CatalogStatus {
    ObservedStatus(PrepareAfter(s, meta, runtime, q.seen, q.nonce, q.now), meta.generation, None, q.ready, q.now)
  }

  function QuietPasses(s: CatalogStatus, meta: CatalogMeta, runtime: Runtime, passes: seq<Quiet>): CatalogStatus
    decreases |passes|
  {
    if passes == [] then s else QuietPasses(QuietPass(s, meta, runtime, passes[0]), meta, runtime, passes[1..])
  }

  lemma SameRequest(
    s: CatalogStatus, meta: CatalogMeta, runtime: Runtime, first: ResolutionReads, seen: ResolutionReads)
    requires Steady(s, meta, runtime, first) && SameImports(meta, first, seen)
    ensures var oc, ob := CatalogOutcome(s, meta, seen), BenchmarkOutcome(s, meta, seen);
            var all := Aggregate(oc.resolved, ob.resolved);
            && all.status == ConditionTrue
            && oc.health.status != ConditionFalse && ob.health.status != ConditionFalse
            && oc.resolved == SteadyOutcome(CatalogTarget(meta, first), first.catalogStream).resolved
            && ob.resolved == SteadyOutcome(BenchmarkTarget(meta, first), BenchmarkRead(meta, first)).resolved
            && RequestOf(meta, runtime, ResolvedParams(meta, seen, oc, ob),
                Condition(all.status, all.reason, meta.generation))
               == SteadyRequest(meta, runtime, first)
  {
    SteadyTargetKeepsOutcome(s, meta.generation, CatalogTarget(meta, first), first.catalogStream, seen.catalogStream,
        seen.isOpenShift, seen.catalogApplied);
    SteadyTargetKeepsOutcome(s, meta.generation, BenchmarkTarget(meta, first), BenchmarkRead(meta, first),
        BenchmarkRead(meta, seen), seen.isOpenShift, seen.benchmarkApplied);
  }

  /** The per-target conditions that resolution leaves behind. */
  predicate Records(c: Conditions, name: TargetName, o: Outcome, generation: int) {
    ResolvedOf(c, name) == At(o.resolved, generation) && HealthOf(c, name) == At(o.health, generation)
  }

  lemma PreparationRecords(
    s: CatalogStatus, meta: CatalogMeta, runtime: Runtime, seen: ResolutionReads, nonce: string, now: int)
    ensures var c := PrepareAfter(s, meta, runtime, seen, nonce, now).conditions;
            && Records(c, CatalogData, CatalogOutcome(s, meta, seen), meta.generation)
            && Records(c, BenchmarkData, BenchmarkOutcome(s, meta, seen), meta.generation)
    ensures Resolve(s, meta, seen).activation == s.activation
    ensures Resolve(s, meta, seen).conditions.resolved
            == At(Aggregate(CatalogOutcome(s, meta, seen).resolved, BenchmarkOutcome(s, meta, seen).resolved),
                meta.generation)
  {
  }

  lemma PreparationKeepsAttempt(s: CatalogStatus, meta: CatalogMeta, runtime: Runtime, first: ResolutionReads,
      seen: ResolutionReads, nonce: string, now: int)
    requires Steady(s, meta, runtime, first) && SameImports(meta, first, seen)
    ensures PrepareAfter(s, meta, runtime, seen, nonce, now).activation == s.activation
    ensures Steady(PrepareAfter(s, meta, runtime, seen, nonce, now), meta, runtime, first)
  {
    SameRequest(s, meta, runtime, first, seen);
    PreparationRecords(s, meta, runtime, seen, nonce, now);
  }

  lemma QuietPassKeepsAttempt(s: CatalogStatus, meta: CatalogMeta, runtime: Runtime, first: ResolutionReads, q: Quiet)
    requires Steady(s, meta, runtime, first) && SameImports(meta, first, q.seen)
    requires s.activation.value.lastSuccessful.Some?
        && s.activation.value.lastSuccessful.value.attemptID == s.activation.value.attemptID
    ensures var a, b := s.activation.value, QuietPass(s, meta, runtime, q).activation.value;
            b == a.(stage := b.stage, reason := b.reason)
    ensures Steady(QuietPass(s, meta, runtime, q), meta, runtime, first)
  {
    PreparationKeepsAttempt(s, meta, runtime, first, q.seen, q.nonce, q.now);
    ObservationKeepsSteady(PrepareAfter(s, meta, runtime, q.seen, q.nonce, q.now), meta, runtime, first, q.ready,
        q.now);
  }

  lemma ObservationKeepsSteady(
    s: CatalogStatus, meta: CatalogMeta, runtime: Runtime, first: ResolutionReads, ready: bool, now: int)
    requires Steady(s, meta, runtime, first)
    requires s.activation.value.lastSuccessful.Some?
        && s.activation.value.lastSuccessful.value.attemptID == s.activation.value.attemptID
    ensures var a, b := s.activation.value, ObservedStatus(s, meta.generation, None, ready, now).activation.value;
            b == a.(stage := b.stage, reason := b.reason)
    ensures Steady(ObservedStatus(s, meta.generation, None, ready, now), meta, runtime, first)
  {
  }

  /** Resolved outcomes request what an undisturbed pass requests. */
  lemma ResolvedRequestIsSteady(s: CatalogStatus, meta: CatalogMeta, runtime: Runtime, seen: ResolutionReads)
    requires IsResolved(CatalogOutcome(s, meta, seen)) && IsResolved(BenchmarkOutcome(s, meta, seen))
    ensures SelectionOf(meta.catalogSelection).StableSelection? ==> seen.catalogStream.StreamFound?
    ensures SelectionOf(meta.benchmarkSelection).StableSelection? ==> BenchmarkRead(meta, seen).StreamFound?
    ensures var oc, ob := CatalogOutcome(s, meta, seen), BenchmarkOutcome(s, meta, seen);
            var all := Aggregate(oc.resolved, ob.resolved);
            RequestOf(meta, runtime, ResolvedParams(meta, seen, oc, ob),
                Condition(all.status, all.reason, meta.generation))
            == SteadyRequest(meta, runtime, seen)
  {
    ResolvedTargetIsSteady(s, meta.generation, CatalogTarget(meta, seen), seen.isOpenShift, seen.catalogStream,
        seen.catalogApplied);
    ResolvedTargetIsSteady(s, meta.generation, BenchmarkTarget(meta, seen), seen.isOpenShift,
        BenchmarkRead(meta, seen), seen.benchmarkApplied);
  }

  /** A prepared attempt carries the request it was prepared for. */
  lemma PreparedAttemptRequests(
    activation: Option<Attempt>, request: Request, resolved: Condition, nonce: string, now: int)
    requires activation.Some? ==> activation.value.requestedImages == activation.value.requestHash.request.images
    ensures var a := PreparedAttempt(activation, request, resolved, nonce, now);
            a.requestHash == Sha256(request) && a.requestedImages == request.images
  {
  }

  /** What preparation over resolved images requests. */
  lemma PreparationRequests(
    s: CatalogStatus, meta: CatalogMeta, runtime: Runtime, seen: ResolutionReads, nonce: string, now: int)
    requires s.activation.Some? ==> s.activation.value.requestedImages == s.activation.value.requestHash.request.images
    requires IsResolved(CatalogOutcome(s, meta, seen)) && IsResolved(BenchmarkOutcome(s, meta, seen))
    ensures SelectionOf(meta.catalogSelection).StableSelection? ==> seen.catalogStream.StreamFound?
    ensures SelectionOf(meta.benchmarkSelection).StableSelection? ==> BenchmarkRead(meta, seen).StreamFound?
    ensures var a := PrepareAfter(s, meta, runtime, seen, nonce, now).activation.value;
            && a.requestHash == Sha256(SteadyRequest(meta, runtime, seen))
            && a.requestedImages == Images(CatalogOutcome(s, meta, seen).image, BenchmarkOutcome(s, meta, seen).image)
  {
    var oc, ob := CatalogOutcome(s, meta, seen), BenchmarkOutcome(s, meta, seen);
    PreparationRecords(s, meta, runtime, seen, nonce, now);
    ResolvedRequestIsSteady(s, meta, runtime, seen);
    var all := Aggregate(oc.resolved, ob.resolved);
    var resolved := Condition(all.status, all.reason, meta.generation);
    PreparedAttemptRequests(s.activation, RequestOf(meta, runtime, ResolvedParams(meta, seen, oc, ob), resolved),
        resolved, nonce, now);
  }

  /** Certification leaves resolution alone. */
  lemma ObservationKeepsTarget(s: CatalogStatus, generation: int, t: Target, read: StreamRead, now: int)
    requires s.activation.Some? && s.activation.value.state != Failed && TargetSteady(s, generation, t, read)
    ensures var o := ObservedStatus(s, generation, None, true, now);
            && TargetSteady(o, generation, t, read) && o.activation.value.state == Succeeded
            && o.activation.value.requestHash == s.activation.value.requestHash
  {
  }

  /** The hypothesis is what a certified pass over resolved images establishes. */
  lemma CertifiedPassIsSteady(s: CatalogStatus, meta: CatalogMeta, runtime: Runtime, q: Quiet)
    requires s.activation.Some? ==> s.activation.value.requestedImages == s.activation.value.requestHash.request.images
    requires q.ready && IsResolved(CatalogOutcome(s, meta, q.seen)) && IsResolved(BenchmarkOutcome(s, meta, q.seen))
    requires PrepareAfter(s, meta, runtime, q.seen, q.nonce, q.now).activation.value.state != Failed
    ensures Steady(QuietPass(s, meta, runtime, q), meta, runtime, q.seen)
  {
    var p := PrepareAfter(s, meta, runtime, q.seen, q.nonce, q.now);
    PreparationRecords(s, meta, runtime, q.seen, q.nonce, q.now);
    PreparationRequests(s, meta, runtime, q.seen, q.nonce, q.now);
    ResolvedTargetIsSteady(s, meta.generation, CatalogTarget(meta, q.seen), q.seen.isOpenShift, q.seen.catalogStream,
        q.seen.catalogApplied);
    ResolvedTargetIsSteady(s, meta.generation, BenchmarkTarget(meta, q.seen), q.seen.isOpenShift,
        BenchmarkRead(meta, q.seen), q.seen.benchmarkApplied);
    ObservationKeepsTarget(p, meta.generation, CatalogTarget(meta, q.seen), q.seen.catalogStream, q.now);
    ObservationKeepsTarget(p, meta.generation, BenchmarkTarget(meta, q.seen), BenchmarkRead(meta, q.seen), q.now);
  }

  lemma ResolvedTargetIsSteady(
    s: CatalogStatus, generation: int, t: Target, isOpenShift: bool, read: StreamRead, applied: AppliedRead)
    requires IsResolved(TargetOutcome(s, generation, t, isOpenShift, read, applied))
    ensures var o := TargetOutcome(s, generation, t, isOpenShift, read, applied);
            && !SelectionOf(t.selection).InvalidSelection?
            && (SelectionOf(t.selection).StableSelection? ==>
                  read.StreamFound? && LastImported(read.stream.statusTags) != ""
                      && o.image == LastImported(read.stream.statusTags))
            && (SelectionOf(t.selection).StableSelection? ==> read.StreamFound?)
            && o.(health := SteadyOutcome(t, read).health) == SteadyOutcome(t, read)
            && o.health.status != ConditionFalse
  {
  }

  /** While an attempt is Succeeded, any number of pending re-imports and of successful
      imports of the same digests leave the request, and so the attempt, its images and
      its deadline, untouched. */
  lemma {:induction false} ReimportsKeepAttempt(
    s: CatalogStatus, meta: CatalogMeta, runtime: Runtime, first: ResolutionReads, passes: seq<Quiet>)
    requires Steady(s, meta, runtime, first)
    requires s.activation.value.lastSuccessful.Some?
        && s.activation.value.lastSuccessful.value.attemptID == s.activation.value.attemptID
    requires forall q :: q in passes ==> SameImports(meta, first, q.seen)
    ensures var end := QuietPasses(s, meta, runtime, passes);
            && end.activation.Some?
            && var a, b := s.activation.value, end.activation.value; b == a.(stage := b.stage, reason := b.reason)
    decreases |passes|
  {
    if passes != [] {
      QuietPassKeepsAttempt(s, meta, runtime, first, passes[0]);
      ReimportsKeepAttempt(QuietPass(s, meta, runtime, passes[0]), meta, runtime, first, passes[1..]);
    }
  }
}
