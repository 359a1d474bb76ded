/** Resolution of the two data image selections against the ImageStream import history. */
module DataImages {
  import opened CatalogTypes
  import opened ImageStatus
  import opened ImageRefs
  import opened PodEvidence
  import opened DeploymentStatus

  const StableTag := "stable"
  const DockerImage := "DockerImage"

  datatype ObjectRef = ObjectRef(kind: string, name: string)

  /** `settings` stands for the reference flag and the two policies of a tag. */
  datatype SpecTag = SpecTag(name: string, from: Option<ObjectRef>, generation: Option<int>, managedSource: string,
      settings: string)

  datatype TagCondition = TagCondition(isImportSuccess: bool, status: ConditionStatus, generation: int)

  datatype TagEvent = TagEvent(reference: string, image: string, generation: int)

  datatype StatusTag = StatusTag(tag: string, conditions: seq<TagCondition>, items: seq<TagEvent>)

  datatype ImageStream = ImageStream(uid: string, specTags: seq<SpecTag>, statusTags: seq<StatusTag>)

  function ItemImage(item: TagEvent): string {
    ImportedImage(item.reference, item.image)
  }

  /** The generation of the import that the stable tag requests. */
  function RequestedImport(tags: seq<SpecTag>): Option<int> {
    if tags == [] then None
    else if tags[0].name == StableTag && tags[0].generation.Some? then tags[0].generation
    else RequestedImport(tags[1..])
  }

  function RequestedGeneration(stream: ImageStream): int {
    var requested := RequestedImport(stream.specTags);
    if requested.Some? then requested.value else 0
  }

  function StableHistory(tags: seq<StatusTag>): Option<StatusTag> {
    if tags == [] then None
    else if tags[0].tag == StableTag then Some(tags[0])
    else StableHistory(tags[1..])
  }

  predicate FailedAt(c: TagCondition, generation: int) {
    c.isImportSuccess && c.status == ConditionFalse && c.generation >= generation
  }

  datatype Health = Health(status: ConditionStatus, reason: Reason)

  function ImportHealth(stream: ImageStream): Health {
    var generation := RequestedGeneration(stream);
    match StableHistory(stream.statusTags)
    case None => Health(ConditionUnknown, ImportPending)
    case Some(tag) =>
      if exists i :: 0 <= i < |tag.conditions| && FailedAt(tag.conditions[i], generation)
          then Health(ConditionFalse, ImportFailed)
      else if tag.items == [] || tag.items[0].generation < generation then Health(ConditionUnknown, ImportPending)
      else if ItemImage(tag.items[0]) == "" then Health(ConditionFalse, InvalidImportedImage)
      else Health(ConditionTrue, ImportSucceeded)
  }

  function FirstImported(items: seq<TagEvent>): string {
    if items == [] then "" else if ItemImage(items[0]) != "" then ItemImage(items[0]) else FirstImported(items[1..])
  }

  function LastImported(tags: seq<StatusTag>): string {
    if tags == [] then ""
    else if tags[0].tag == StableTag && FirstImported(tags[0].items) != "" then FirstImported(tags[0].items)
    else LastImported(tags[1..])
  }

  datatype Selection = ReleaseSelection | StableSelection | PinnedSelection(digest: string) | InvalidSelection

  function SelectionOf(selection: Option<string>): Selection {
    if selection.None? || selection.value == "" then ReleaseSelection
    else if selection.value == StableTag then StableSelection
    else if IsDigest(selection.value) then PinnedSelection(selection.value)
    else InvalidSelection
  }

  datatype TargetName = CatalogData | BenchmarkData

  /** `release` is the image in the template parameters before resolution. */
  datatype Target = Target(name: TargetName, selection: Option<string>, source: string, release: string)

  function TargetText(name: TargetName): string {
    if name.CatalogData? then "catalog" else "benchmark"
  }

  datatype StreamRead = StreamFound(stream: ImageStream) | StreamFailed

  /** The Deployment read for the applied images: failed, absent, or its init containers. */
  datatype AppliedRead = AppliedFailed | AppliedMissing | AppliedContainers(containers: seq<Container>)

  function ResolvedOf(c: Conditions, name: TargetName): Option<Condition> {
    if name.CatalogData? then c.catalogResolved else c.benchmarkResolved
  }

  function HealthOf(c: Conditions, name: TargetName): Option<Condition> {
    if name.CatalogData? then c.catalogImportHealthy else c.benchmarkImportHealthy
  }

  function RequestedImage(images: Images, name: TargetName): string {
    if name.CatalogData? then images.catalog else images.benchmark
  }

  /** An import failure, or the wait that follows one, was observed before. */
  predicate AwaitingRecovery(c: Conditions, name: TargetName) {
    || (HealthOf(c, name).Some? && HealthOf(c, name).value.status == ConditionFalse)
    || (ResolvedOf(c, name).Some? && ResolvedOf(c, name).value.reason == AwaitingSuccessfulImport)
  }

  /** A re-import is pending while the digest that the current attempt requested, and
      that succeeded, is still the last import. */
  predicate ServingPrevious(s: CatalogStatus, generation: int, name: TargetName, stream: ImageStream) {
    var previousImage := LastImported(stream.statusTags);
    && ImportHealth(stream).status == ConditionUnknown && !AwaitingRecovery(s.conditions, name)
    && ObservedAt(ResolvedOf(s.conditions, name), generation)
    && ResolvedOf(s.conditions, name).value.reason == ImageStreamResolved
    && previousImage != "" && s.activation.Some? && s.activation.value.state == Succeeded
    && RequestedImage(s.activation.value.requestedImages, name) == previousImage
  }

  /** A healthy import of the same digest is not new evidence, so its generation is left out. */
  function ImportEvidence(stream: ImageStream, name: TargetName, status: ConditionStatus): Evidence {
    Evidence(stream.uid, TargetText(name), status, if status == ConditionTrue then None
        else RequestedImport(stream.specTags))
  }

  function AppliedImage(applied: AppliedRead, t: Target): string
    requires !applied.AppliedFailed?
  {
    if applied.AppliedMissing? then t.release
    else
      var name := if t.name.CatalogData? then CatalogDataInit else BenchmarkDataInit;
      if exists i :: 0 <= i < |applied.containers| && applied.containers[i].name == name
      then LastImageOf(applied.containers, name) else t.release
  }

  predicate ReleaseSourced(stream: ImageStream, releaseImage: string) {
    exists i :: 0 <= i < |stream.specTags| && stream.specTags[i].name == StableTag
      && stream.specTags[i].from == Some(ObjectRef(DockerImage, releaseImage))
  }

  /** What resolving one target publishes and hands on. */
  datatype Outcome = Outcome(resolved: Health, health: Health, image: string, evidence: seq<Evidence>,
      releaseSourced: bool)

  function StableOutcome(
    s: CatalogStatus, generation: int, t: Target, stream: ImageStream, applied: AppliedRead): Outcome {
    var health := ImportHealth(stream);
    var serving := ServingPrevious(s, generation, t.name, stream);
    var previousImage := LastImported(stream.statusTags);
    var evidence := [ImportEvidence(stream, t.name, if serving then ConditionTrue else health.status)];
    var sourced := t.name.CatalogData? && ReleaseSourced(stream, t.release);
    if health.status == ConditionFalse then
      Outcome(Health(ConditionFalse, health.reason), health, t.release, evidence, sourced)
    else if health.status == ConditionUnknown && AwaitingRecovery(s.conditions, t.name) then
      Outcome(Health(ConditionUnknown, AwaitingSuccessfulImport), health, t.release, evidence, sourced)
    else if previousImage != "" && (health.status == ConditionTrue || serving) then
      Outcome(Health(ConditionTrue, ImageStreamResolved), health, previousImage, evidence, sourced)
    else if applied.AppliedFailed? then
      Outcome(Health(ConditionFalse, AppliedImageReadFailed), health, t.release, evidence, sourced)
    else
      Outcome(Health(ConditionFalse, NoSuccessfulImport), health, AppliedImage(applied, t), evidence, sourced)
  }

  const NotTracking := Health(ConditionTrue, NotTrackingImageStream)

  function TargetOutcome(s: CatalogStatus, generation: int, t: Target, isOpenShift: bool, read: StreamRead,
      applied: AppliedRead): Outcome {
    match SelectionOf(t.selection)
    case InvalidSelection => Outcome(Health(ConditionFalse, InvalidDataImageSelection), NotTracking, t.release, [],
        false)
    case ReleaseSelection => Outcome(Health(ConditionTrue, ReleaseDefault), NotTracking, t.release, [], false)
    case PinnedSelection(digest) => Outcome(Health(ConditionTrue, DigestPinned), NotTracking,
        PinnedImage(t.source, digest), [], false)
    case StableSelection =>
      if !isOpenShift then Outcome(Health(ConditionFalse, UnsupportedDataImageSelection), NotTracking, t.release, [],
          false)
      else if read.StreamFailed? then
        Outcome(Health(ConditionFalse, ImageStreamUnavailable), Health(ConditionFalse, ImageStreamUnavailable),
            t.release, [], false)
      else StableOutcome(s, generation, t, read.stream, applied)
  }

  function At(h: Health, generation: int): Option<Condition> {
    Some(Condition(h.status, h.reason, generation))
  }

  function WithOutcome(c: Conditions, name: TargetName, o: Outcome, generation: int): Conditions {
    if name.CatalogData?
    then c.(catalogResolved := At(o.resolved, generation), catalogImportHealthy := At(o.health, generation))
    else c.(benchmarkResolved := At(o.resolved, generation), benchmarkImportHealthy := At(o.health, generation))
  }

  /** Actual faults take precedence over ordinary pending imports. */
  function Priority(h: Health): int {
    if h.status == ConditionFalse && h.reason != NoSuccessfulImport then 0
    else if h.status != ConditionTrue then 1
    else 2
  }

  function Aggregate(first: Health, second: Health): Health {
    var worst := if Priority(second) < Priority(first) then second else first;
    Health(worst.status, if worst.status == ConditionTrue && first.reason != second.reason then IndependentSelections
        else worst.reason)
  }

  predicate Faulty(o: Outcome) {
    o.resolved.status == ConditionFalse && (o.resolved.reason != NoSuccessfulImport
        || o.health.status != ConditionUnknown)
  }

  predicate Awaits(o: Outcome) {
    o.resolved.reason == AwaitingSuccessfulImport
  }

  /** The reason that blocks updates, if any; confirmed faults before waiting ones. */
  function Fault(first: Outcome, second: Outcome): Option<Reason> {
    if Faulty(first) && !Awaits(first) then Some(first.resolved.reason)
    else if Faulty(second) && !Awaits(second) then Some(second.resolved.reason)
    else if Awaits(first) then Some(first.resolved.reason)
    else if Awaits(second) then Some(second.resolved.reason)
    else None
  }

  datatype ResolutionReads = ResolutionReads(
    isOpenShift: bool, catalogSource: string, benchmarkSource: string, release: Images,
    catalogStream: StreamRead, benchmarkStream: StreamRead,
    catalogApplied: AppliedRead, benchmarkApplied: AppliedRead)

  function CatalogTarget(meta: CatalogMeta, seen: ResolutionReads): Target {
    Target(CatalogData, meta.catalogSelection, seen.catalogSource, seen.release.catalog)
  }

  function BenchmarkTarget(meta: CatalogMeta, seen: ResolutionReads): Target {
    Target(BenchmarkData, meta.benchmarkSelection, seen.benchmarkSource, seen.release.benchmark)
  }

  /** Identical sources share the stream that the catalog target already fetched. */
  function BenchmarkRead(meta: CatalogMeta, seen: ResolutionReads): StreamRead {
    if seen.catalogSource == seen.benchmarkSource && SelectionOf(meta.catalogSelection).StableSelection?
       && seen.catalogStream.StreamFound?
    then seen.catalogStream else seen.benchmarkStream
  }

  function CatalogOutcome(s: CatalogStatus, meta: CatalogMeta, seen: ResolutionReads): Outcome {
    TargetOutcome(s, meta.generation, CatalogTarget(meta, seen), seen.isOpenShift, seen.catalogStream,
        seen.catalogApplied)
  }

  function BenchmarkOutcome(s: CatalogStatus, meta: CatalogMeta, seen: ResolutionReads): Outcome {
    TargetOutcome(s, meta.generation, BenchmarkTarget(meta, seen), seen.isOpenShift, BenchmarkRead(meta, seen),
        seen.benchmarkApplied)
  }

  predicate SameDigest(a: string, b: string) {
    var ca, cb := Cut(a, '@'), Cut(b, '@');
    ca.found && cb.found && IsDigest(ca.after) && ca.after == cb.after
  }

  function AllowsLegacy(meta: CatalogMeta, seen: ResolutionReads, o: Outcome): bool {
    || SelectionOf(meta.catalogSelection).ReleaseSelection?
    || o.releaseSourced
    || (meta.catalogSelection == Some(StableTag)
        && (o.image == seen.release.catalog || SameDigest(seen.release.catalog, o.image)))
  }

  function ResolvedParams(meta: CatalogMeta, seen: ResolutionReads, oc: Outcome, ob: Outcome): Params {
    Params(Images(oc.image, ob.image), oc.evidence + ob.evidence, AllowsLegacy(meta, seen, oc), "", false)
  }

  /** The published pair keeps an attempt's own references while its request is unchanged. */
  function PublishedImages(activation: Option<Attempt>, aggregate: Health, images: Images): Option<Images> {
    if aggregate.status != ConditionTrue then None
    else if activation.Some? && activation.value.requestedImages == images then Some(activation.value.images)
    else Some(images)
  }

  function TargetConditions(s: CatalogStatus, generation: int, oc: Outcome, ob: Outcome): Conditions {
    WithOutcome(WithOutcome(s.conditions, CatalogData, oc, generation), BenchmarkData, ob, generation).(
      resolved := At(Aggregate(oc.resolved, ob.resolved), generation),
      importHealthy := At(Aggregate(oc.health, ob.health), generation))
  }

  function BlockCondition(oc: Outcome, ob: Outcome): Health {
    if Fault(oc, ob).Some? then Health(ConditionTrue, Fault(oc, ob).value) else Health(ConditionFalse, UpdatesAllowed)
  }

  function ResolvedStatus(s: CatalogStatus, meta: CatalogMeta, oc: Outcome, ob: Outcome): CatalogStatus {
    var c := TargetConditions(s, meta.generation, oc, ob);
    var images := PublishedImages(s.activation, Aggregate(oc.resolved, ob.resolved), Images(oc.image, ob.image));
    Reduced(
      s.(conditions := c.(workload := if s.resolvedImages != images
          then At(Health(ConditionFalse, ImagesUpdating), meta.generation) else c.workload,
                          updateBlocked := At(BlockCondition(oc, ob), meta.generation)),
         resolvedImages := images),
      meta.generation)
  }

  /** Deployment containment is requested. */
  predicate Blocks(s: CatalogStatus, meta: CatalogMeta, seen: ResolutionReads) {
    Fault(CatalogOutcome(s, meta, seen), BenchmarkOutcome(s, meta, seen)).Some?
  }

  function Resolve(s: CatalogStatus, meta: CatalogMeta, seen: ResolutionReads): CatalogStatus {
    ResolvedStatus(s, meta, CatalogOutcome(s, meta, seen), BenchmarkOutcome(s, meta, seen))
  }

  method SetTargetResolved(catalog: Catalog, name: TargetName, status: ConditionStatus, reason: Reason)
    modifies catalog`conditions
    ensures catalog.conditions == if name.CatalogData?
                                  then old(catalog.conditions).(catalogResolved := At(Health(status, reason),
                                      catalog.meta.generation))
                                  else old(catalog.conditions).(benchmarkResolved := At(Health(status, reason),
                                      catalog.meta.generation))
  {
    var condition := Some(Condition(status, reason, catalog.meta.generation));
    if name.CatalogData? {
      catalog.conditions := catalog.conditions.(catalogResolved := condition);
    } else {
      catalog.conditions := catalog.conditions.(benchmarkResolved := condition);
    }
  }

  method SetTargetHealth(catalog: Catalog, name: TargetName, status: ConditionStatus, reason: Reason)
    modifies catalog`conditions
    ensures catalog.conditions == if name.CatalogData?
                                  then old(catalog.conditions).(catalogImportHealthy := At(Health(status, reason),
                                      catalog.meta.generation))
                                  else old(catalog.conditions).(benchmarkImportHealthy := At(Health(status, reason),
                                      catalog.meta.generation))
  {
    var condition := Some(Condition(status, reason, catalog.meta.generation));
    if name.CatalogData? {
      catalog.conditions := catalog.conditions.(catalogImportHealthy := condition);
    } else {
      catalog.conditions := catalog.conditions.(benchmarkImportHealthy := condition);
    }
  }

  method ResolveStableTarget(catalog: Catalog, t: Target, stream: ImageStream, applied: AppliedRead)
    returns (image: string, evidence: seq<Evidence>, sourced: bool)
    modifies catalog`conditions
    ensures var o := StableOutcome(old(catalog.Status()), catalog.meta.generation, t, stream, applied);
            && catalog.conditions == WithOutcome(old(catalog.conditions), t.name, o, catalog.meta.generation)
            && image == o.image && evidence == o.evidence && sourced == o.releaseSourced
  {
    var awaitingRecovery := AwaitingRecovery(catalog.conditions, t.name);
    image := t.release;
    sourced := t.name.CatalogData? && ReleaseSourced(stream, t.release);
    var importHealth := ImportHealth(stream);
    var previousImage := LastImported(stream.statusTags);
    var servingPrevious := ServingPrevious(catalog.Status(), catalog.meta.generation, t.name, stream);
    var fingerprintStatus := importHealth.status;
    if servingPrevious {
      fingerprintStatus := ConditionTrue;
    }
    evidence := [ImportEvidence(stream, t.name, fingerprintStatus)];
    SetTargetHealth(catalog, t.name, importHealth.status, importHealth.reason);
    if importHealth.status == ConditionFalse {
      SetTargetResolved(catalog, t.name, ConditionFalse, importHealth.reason);
      return;
    }
    if importHealth.status == ConditionUnknown && awaitingRecovery {
      SetTargetResolved(catalog, t.name, ConditionUnknown, AwaitingSuccessfulImport);
      return;
    }
    if previousImage != "" && (importHealth.status == ConditionTrue || servingPrevious) {
      image := previousImage;
      SetTargetResolved(catalog, t.name, ConditionTrue, ImageStreamResolved);
      return;
    }
    if applied.AppliedFailed? {
      SetTargetResolved(catalog, t.name, ConditionFalse, AppliedImageReadFailed);
      return;
    }
    image := AppliedImage(applied, t);
    SetTargetResolved(catalog, t.name, ConditionFalse, NoSuccessfulImport);
  }

  method ResolveTarget(catalog: Catalog, t: Target, isOpenShift: bool, read: StreamRead, applied: AppliedRead)
    returns (image: string, evidence: seq<Evidence>, sourced: bool)
    modifies catalog`conditions
    ensures var o := TargetOutcome(old(catalog.Status()), catalog.meta.generation, t, isOpenShift, read, applied);
            && catalog.conditions == WithOutcome(old(catalog.conditions), t.name, o, catalog.meta.generation)
            && image == o.image && evidence == o.evidence && sourced == o.releaseSourced
  {
    image, evidence, sourced := t.release, [], false;
    var selection := SelectionOf(t.selection);
    if selection.StableSelection? && isOpenShift && read.StreamFound? {
      image, evidence, sourced := ResolveStableTarget(catalog, t, read.stream, applied);
      return;
    }
    if !selection.StableSelection? || !isOpenShift {
      SetTargetHealth(catalog, t.name, ConditionTrue, NotTrackingImageStream);
    }
    match selection {
      case InvalidSelection =>
        SetTargetResolved(catalog, t.name, ConditionFalse, InvalidDataImageSelection);
      case ReleaseSelection =>
        SetTargetResolved(catalog, t.name, ConditionTrue, ReleaseDefault);
      case PinnedSelection(digest) =>
        image := PinnedImage(t.source, digest);
        SetTargetResolved(catalog, t.name, ConditionTrue, DigestPinned);
      case StableSelection =>
        if !isOpenShift {
          SetTargetResolved(catalog, t.name, ConditionFalse, UnsupportedDataImageSelection);
        } else {
          SetTargetResolved(catalog, t.name, ConditionFalse, ImageStreamUnavailable);
          SetTargetHealth(catalog, t.name, ConditionFalse, ImageStreamUnavailable);
        }
    }
  }

  method LegacyRuntimeFile(
    meta: CatalogMeta, seen: ResolutionReads, image: string, sourced: bool, ghost o: Outcome) returns (allow: bool)
    requires image == o.image && sourced == o.releaseSourced
    ensures allow == AllowsLegacy(meta, seen, o)
  {
    allow := SelectionOf(meta.catalogSelection).ReleaseSelection? || sourced;
    if meta.catalogSelection == Some(StableTag) {
      if image == seen.release.catalog || SameDigest(seen.release.catalog, image) {
        allow := true;
      }
    }
  }

  /** The second target does not see what the first one published. */
  lemma BenchmarkIgnoresCatalogOutcome(s: CatalogStatus, meta: CatalogMeta, seen: ResolutionReads, o: Outcome)
    ensures BenchmarkOutcome(s.(conditions := WithOutcome(s.conditions, CatalogData, o, meta.generation)), meta, seen)
         == BenchmarkOutcome(s, meta, seen)
  {
  }

  /** Resolves both targets, then publishes the aggregate, the block and the readiness. */
  method ResolveCatalogDataImages(catalog: Catalog, seen: ResolutionReads) returns (params: Params, blocked: bool)
    modifies catalog
    ensures catalog.meta == old(catalog.meta)
    ensures catalog.Status() == Resolve(old(catalog.Status()), catalog.meta, seen)
    ensures blocked == Blocks(old(catalog.Status()), catalog.meta, seen)
    ensures params == ResolvedParams(catalog.meta, seen, CatalogOutcome(old(catalog.Status()), catalog.meta, seen),
                                     BenchmarkOutcome(old(catalog.Status()), catalog.meta, seen))
  {
    var meta := catalog.meta;
    ghost var oc := CatalogOutcome(catalog.Status(), meta, seen);
    ghost var ob := BenchmarkOutcome(catalog.Status(), meta, seen);
    var catalogImage, catalogEvidence, sourced :=
      ResolveTarget(catalog, CatalogTarget(meta, seen), seen.isOpenShift, seen.catalogStream, seen.catalogApplied);
    BenchmarkIgnoresCatalogOutcome(old(catalog.Status()), meta, seen, oc);
    var benchmarkImage, benchmarkEvidence, _ :=
      ResolveTarget(catalog, BenchmarkTarget(meta, seen), seen.isOpenShift, BenchmarkRead(meta, seen),
          seen.benchmarkApplied);
    var allowLegacy := LegacyRuntimeFile(meta, seen, catalogImage, sourced, oc);
    params := Params(Images(catalogImage, benchmarkImage), catalogEvidence + benchmarkEvidence, allowLegacy, "", false);
    blocked := PublishResolution(catalog, params.images, oc, ob);
  }

  method PublishResolution(
    catalog: Catalog, images: Images, ghost oc: Outcome, ghost ob: Outcome) returns (blocked: bool)
    requires images == Images(oc.image, ob.image)
    requires catalog.conditions.catalogResolved == At(oc.resolved, catalog.meta.generation)
    requires catalog.conditions.catalogImportHealthy == At(oc.health, catalog.meta.generation)
    requires catalog.conditions.benchmarkResolved == At(ob.resolved, catalog.meta.generation)
    requires catalog.conditions.benchmarkImportHealthy == At(ob.health, catalog.meta.generation)
    modifies catalog
    ensures catalog.meta == old(catalog.meta)
    ensures catalog.Status() == ResolvedStatus(old(catalog.Status()), catalog.meta, oc, ob)
    ensures blocked == Fault(oc, ob).Some?
  {
    var generation := catalog.meta.generation;
    var cr, br := catalog.conditions.catalogResolved.value, catalog.conditions.benchmarkResolved.value;
    var ch, bh := catalog.conditions.catalogImportHealthy.value, catalog.conditions.benchmarkImportHealthy.value;
    var resolved := Aggregate(Health(cr.status, cr.reason), Health(br.status, br.reason));
    catalog.conditions := catalog.conditions.(resolved := At(resolved, generation));
    catalog.conditions := catalog.conditions.(importHealthy := At(Aggregate(Health(ch.status, ch.reason),
        Health(bh.status, bh.reason)), generation));
    var published := None;
    if resolved.status == ConditionTrue {
      published := Some(images);
      if catalog.activation.Some? && catalog.activation.value.requestedImages == images {
        published := Some(catalog.activation.value.images);
      }
    }
    if catalog.resolvedImages != published {
      catalog.conditions := catalog.conditions.(workload := At(Health(ConditionFalse, ImagesUpdating), generation));
    }
    catalog.resolvedImages := published;
    var fault := FindFault([cr, br], [ch, bh], oc, ob);
    if fault.Some? {
      catalog.conditions := catalog.conditions.(updateBlocked := At(Health(ConditionTrue, fault.value), generation));
    } else {
      catalog.conditions := catalog.conditions.(updateBlocked := At(Health(ConditionFalse, UpdatesAllowed),
          generation));
    }
    ReduceCatalogImageReadiness(catalog);
    return fault.Some?;
  }

  method FindFault(resolved: seq<Condition>, health: seq<Condition>, ghost oc: Outcome,
      ghost ob: Outcome) returns (fault: Option<Reason>)
    requires |resolved| == 2 && |health| == 2
    requires oc.resolved == Health(resolved[0].status, resolved[0].reason) && oc.health.status == health[0].status
    requires ob.resolved == Health(resolved[1].status, resolved[1].reason) && ob.health.status == health[1].status
    ensures fault == Fault(oc, ob)
  {
    fault := None;
    for i := 0 to 2
      invariant i == 0 ==> fault == None
      invariant i == 1 ==> (!Faulty(oc) || Awaits(oc)) && fault == if Awaits(oc) then Some(oc.resolved.reason) else None
      invariant i == 2 ==> fault == Fault(oc, ob)
    {
      if resolved[i].reason == AwaitingSuccessfulImport {
        if fault.None? {
          fault := Some(resolved[i].reason);
        }
        continue;
      }
      if resolved[i].status == ConditionFalse
         && (resolved[i].reason != NoSuccessfulImport || health[i].status != ConditionUnknown) {
        fault := Some(resolved[i].reason);
        return;
      }
    }
  }
}
