/** What resolution reads off its streams, over the raw fields. */
module StreamVerdicts {
  import opened CatalogTypes
  import opened PodEvidence
  import opened DeploymentStatus
  import opened ImageRefs
  import opened Activation
  import opened DataImages
  import opened ImageResolution

  // ----- Which stream a target reads -----

  /** With separate sources, whatever happens to one stream cannot touch the other target. */
  lemma TargetsReadTheirOwnStreams(s: CatalogStatus, meta: CatalogMeta, seen: ResolutionReads, other: StreamRead)
    ensures seen.catalogSource != seen.benchmarkSource ==>
              BenchmarkOutcome(s, meta, seen.(catalogStream := other)) == BenchmarkOutcome(s, meta, seen)
    ensures CatalogOutcome(s, meta, seen.(benchmarkStream := other)) == CatalogOutcome(s, meta, seen)
  {
  }

  /** The stream that was fetched for the catalog serves the benchmark too. */
  predicate SharesStream(meta: CatalogMeta, seen: ResolutionReads) {
    && seen.catalogSource == seen.benchmarkSource && meta.catalogSelection == Some("stable")
    && seen.catalogStream.StreamFound?
  }

  predicate UsesStream(s: CatalogStatus, name: TargetName, read: StreamRead, image: string) {
    read.StreamFound? && (IsCurrentImport(read.stream, image) || IsServing(s, name, read.stream, image))
  }

  /** Each target is resolved by its own stream, and by the catalog's exactly if shared. */
  lemma ResolvedByOwnStream(s: CatalogStatus, meta: CatalogMeta, seen: ResolutionReads)
    ensures var o := CatalogOutcome(s, meta, seen);
            o.resolved.reason == ImageStreamResolved ==> UsesStream(s, CatalogData, seen.catalogStream, o.image)
    ensures var o := BenchmarkOutcome(s, meta, seen);
            o.resolved.reason == ImageStreamResolved ==>
              UsesStream(s, BenchmarkData, if SharesStream(meta, seen) then seen.catalogStream
                  else seen.benchmarkStream, o.image)
  {
    if CatalogOutcome(s, meta, seen).resolved.reason == ImageStreamResolved {
      ResolvedImageIsCurrentOrServing(s, meta.generation, CatalogTarget(meta, seen), seen.isOpenShift,
                                      seen.catalogStream, seen.catalogApplied);
    }
    if BenchmarkOutcome(s, meta, seen).resolved.reason == ImageStreamResolved {
      BenchmarkReadExactly(meta, seen);
      ResolvedImageIsCurrentOrServing(s, meta.generation, BenchmarkTarget(meta, seen), seen.isOpenShift,
                                      BenchmarkRead(meta, seen), seen.benchmarkApplied);
    }
  }

  lemma BenchmarkReadExactly(meta: CatalogMeta, seen: ResolutionReads)
    ensures BenchmarkRead(meta, seen) == if SharesStream(meta, seen) then seen.catalogStream else seen.benchmarkStream
  {
  }

  /** A stream follows the release exactly if its stable tag imports the release image. */
  lemma ReleaseSourcedExactly(stream: ImageStream, release: string)
    ensures ReleaseSourced(stream, release) <==>
              exists tag :: tag in stream.specTags && tag.name == "stable"
                  && tag.from == Some(ObjectRef("DockerImage", release))
  {
    if tag :| tag in stream.specTags && tag.name == "stable" && tag.from == Some(ObjectRef("DockerImage", release)) {
      var i :| 0 <= i < |stream.specTags| && stream.specTags[i] == tag;
      assert stream.specTags[i].name == StableTag;
    }
  }

  /** How a selection is read. */
  lemma SelectionExactly(selection: Option<string>)
    ensures SelectionOf(selection).ReleaseSelection? <==> selection.None? || selection.value == ""
    ensures SelectionOf(selection).StableSelection? <==> selection == Some("stable")
    ensures SelectionOf(selection).PinnedSelection? <==> selection.Some? && IsDigest(selection.value)
    ensures SelectionOf(selection).PinnedSelection? ==> SelectionOf(selection).digest == selection.value
  {
  }

  /** A selection that follows no stream is reported as such, and only an invalid one or
      one the platform does not support fails. */
  lemma UntrackedSelectionExactly(
    s: CatalogStatus, generation: int, t: Target, isOpenShift: bool, read: StreamRead, applied: AppliedRead)
    requires t.selection != Some("stable") || !isOpenShift
    ensures var o := TargetOutcome(s, generation, t, isOpenShift, read, applied);
            && o.health == Health(ConditionTrue, NotTrackingImageStream) && o.evidence == [] && !o.releaseSourced
            && o.resolved == (
                 if t.selection.None? || t.selection == Some("") then Health(ConditionTrue, ReleaseDefault)
                 else if t.selection == Some("stable") then Health(ConditionFalse, UnsupportedDataImageSelection)
                 else if IsDigest(t.selection.value) then Health(ConditionTrue, DigestPinned)
                 else Health(ConditionFalse, InvalidDataImageSelection))
            && (o.resolved.reason != DigestPinned ==> o.image == t.release)
  {
    SelectionExactly(t.selection);
  }

  /** Selections that need no stream take their image from the target's own inputs. */
  lemma TargetsUseTheirOwnInputs(s: CatalogStatus, meta: CatalogMeta, seen: ResolutionReads)
    ensures SelectionOf(meta.catalogSelection).ReleaseSelection? ==>
              CatalogOutcome(s, meta, seen).image == seen.release.catalog
    ensures SelectionOf(meta.benchmarkSelection).ReleaseSelection? ==>
              BenchmarkOutcome(s, meta, seen).image == seen.release.benchmark
    ensures meta.catalogSelection.Some? && IsDigest(meta.catalogSelection.value) ==>
              CatalogOutcome(s, meta, seen).image == RepoBase(seen.catalogSource) + "@" + meta.catalogSelection.value
    ensures meta.benchmarkSelection.Some? && IsDigest(meta.benchmarkSelection.value) ==>
              BenchmarkOutcome(s, meta,
                  seen).image == RepoBase(seen.benchmarkSource) + "@" + meta.benchmarkSelection.value
  {
    SelectionExactly(meta.catalogSelection);
    SelectionExactly(meta.benchmarkSelection);
  }

  // ----- Import health -----

  predicate Requests(tag: SpecTag) {
    tag.name == "stable" && tag.generation.Some?
  }

  /** The first stable tag with a generation requests `g`; without one it is zero. */
  predicate RequestsGeneration(tags: seq<SpecTag>, g: int) {
    || (exists i :: 0 <= i < |tags| && Requests(tags[i]) && tags[i].generation.value == g
          && forall j :: 0 <= j < i ==> !Requests(tags[j]))
    || (g == 0 && forall j :: 0 <= j < |tags| ==> !Requests(tags[j]))
  }

  lemma {:induction false} RequestedImportExactly(tags: seq<SpecTag>)
    ensures RequestsGeneration(tags, if RequestedImport(tags).Some? then RequestedImport(tags).value else 0)
    ensures RequestedImport(tags).None? <==> forall j :: 0 <= j < |tags| ==> !Requests(tags[j])
  {
    if tags != [] && !Requests(tags[0]) {
      var rest := tags[1..];
      RequestedImportExactly(rest);
      assert forall j :: 0 < j < |tags| ==> tags[j] == rest[j - 1];
      if i :| 0 <= i < |rest| && Requests(rest[i]) && rest[i].generation == RequestedImport(rest)
              && forall j :: 0 <= j < i ==> !Requests(rest[j]) {
        assert Requests(tags[i + 1]);
      }
    }
  }

  predicate FirstStable(tags: seq<StatusTag>, i: nat) {
    i < |tags| && tags[i].tag == "stable" && forall j :: 0 <= j < i ==> tags[j].tag != "stable"
  }

  lemma {:induction false} StableHistoryExactly(tags: seq<StatusTag>)
    ensures forall i: nat :: FirstStable(tags, i) ==> StableHistory(tags) == Some(tags[i])
    ensures StableHistory(tags).None? <==> forall j :: 0 <= j < |tags| ==> tags[j].tag != "stable"
  {
    if tags != [] && tags[0].tag != "stable" {
      var rest := tags[1..];
      StableHistoryExactly(rest);
      assert forall j :: 0 < j < |tags| ==> tags[j] == rest[j - 1];
      forall i: nat | FirstStable(tags, i)
        ensures StableHistory(tags) == Some(tags[i])
      {
        assert forall j :: 0 <= j < i - 1 ==> rest[j] == tags[j + 1];
        assert FirstStable(rest, i - 1);
      }
    }
  }

  /** A failure reported at or after the generation. */
  predicate FailedSince(tag: StatusTag, g: int) {
    exists i :: 0 <= i < |tag.conditions| && tag.conditions[i].isImportSuccess
      && tag.conditions[i].status == ConditionFalse && tag.conditions[i].generation >= g
  }

  /** Import health over the first stable history entry: a failure since the requested
      generation, then a newest entry from that generation on, then its digest. */
  lemma ImportHealthExactly(stream: ImageStream, i: nat, g: int)
    requires FirstStable(stream.statusTags, i) && RequestsGeneration(stream.specTags, g)
    ensures var tag := stream.statusTags[i];
            ImportHealth(stream) ==
              if FailedSince(tag, g) then Health(ConditionFalse, ImportFailed)
              else if !(tag.items != [] && tag.items[0].generation >= g) then Health(ConditionUnknown, ImportPending)
              else if ImportedImage(tag.items[0].reference, tag.items[0].image) == "" then
                Health(ConditionFalse, InvalidImportedImage)
              else Health(ConditionTrue, ImportSucceeded)
  {
    StableHistoryExactly(stream.statusTags);
    RequestedImportExactly(stream.specTags);
    GenerationIsUnique(stream.specTags, g, RequestedGeneration(stream));
    var tag := stream.statusTags[i];
    assert FailedSince(tag, g) <==> exists j :: 0 <= j < |tag.conditions| && FailedAt(tag.conditions[j], g);
  }

  lemma GenerationIsUnique(tags: seq<SpecTag>, g: int, h: int)
    requires RequestsGeneration(tags, g) && RequestsGeneration(tags, h)
    ensures g == h
  {
  }

  lemma NoHistoryIsPending(stream: ImageStream)
    requires forall j :: 0 <= j < |stream.statusTags| ==> stream.statusTags[j].tag != "stable"
    ensures ImportHealth(stream) == Health(ConditionUnknown, ImportPending) && LastImported(stream.statusTags) == ""
  {
    StableHistoryExactly(stream.statusTags);
    NothingLastImported(stream.statusTags);
  }

  // ----- The last import -----

  predicate Usable(item: TagEvent) {
    ImportedImage(item.reference, item.image) != ""
  }

  predicate Unusable(tag: StatusTag) {
    tag.tag == "stable" ==> forall j :: 0 <= j < |tag.items| ==> !Usable(tag.items[j])
  }

  /** The first usable event of the stable history entries, in order. */
  predicate FirstUsable(tags: seq<StatusTag>, i: nat, k: nat) {
    && i < |tags| && tags[i].tag == "stable" && k < |tags[i].items| && Usable(tags[i].items[k])
    && (forall j :: 0 <= j < k ==> !Usable(tags[i].items[j]))
    && (forall h :: 0 <= h < i ==> Unusable(tags[h]))
  }

  predicate FirstUsableItem(items: seq<TagEvent>, k: nat) {
    k < |items| && Usable(items[k]) && forall j :: 0 <= j < k ==> !Usable(items[j])
  }

  /** The first non-empty text that `f` reads off the items. */
  function FirstText(items: seq<TagEvent>, f: TagEvent -> string): string {
    if items == [] then "" else if f(items[0]) != "" then f(items[0]) else FirstText(items[1..], f)
  }

  lemma {:induction false} FirstTextAt(items: seq<TagEvent>, f: TagEvent -> string, k: nat)
    requires k < |items| && f(items[k]) != "" && forall j :: 0 <= j < k ==> f(items[j]) == ""
    ensures FirstText(items, f) == f(items[k])
  {
    if k > 0 {
      assert f(items[0]) == "";
      FirstTextAt(items[1..], f, k - 1);
    }
  }

  lemma {:induction false} NoText(items: seq<TagEvent>, f: TagEvent -> string)
    requires forall j :: 0 <= j < |items| ==> f(items[j]) == ""
    ensures FirstText(items, f) == ""
  {
    if items != [] {
      assert f(items[0]) == "";
      NoText(items[1..], f);
    }
  }

  lemma {:induction false} FirstImportedIsFirstText(items: seq<TagEvent>)
    ensures FirstImported(items) == FirstText(items, ItemImage)
  {
    if items != [] {
      FirstImportedIsFirstText(items[1..]);
    }
  }

  lemma FirstImportedAt(items: seq<TagEvent>, k: nat)
    requires FirstUsableItem(items, k)
    ensures FirstImported(items) == ItemImage(items[k]) != ""
  {
    forall j | 0 <= j < k
      ensures ItemImage(items[j]) == ""
    {
      assert !Usable(items[j]);
    }
    FirstTextAt(items, ItemImage, k);
    FirstImportedIsFirstText(items);
  }

  lemma NothingImported(items: seq<TagEvent>)
    requires forall j :: 0 <= j < |items| ==> !Usable(items[j])
    ensures FirstImported(items) == ""
  {
    forall j | 0 <= j < |items|
      ensures ItemImage(items[j]) == ""
    {
      assert !Usable(items[j]);
    }
    NoText(items, ItemImage);
    FirstImportedIsFirstText(items);
  }

  /** The first non-empty text that `g` reads off the stable entries. */
  function FirstStableText(tags: seq<StatusTag>, g: seq<TagEvent> -> string): string {
    if tags == [] then ""
    else if tags[0].tag == "stable" && g(tags[0].items) != "" then g(tags[0].items)
    else FirstStableText(tags[1..], g)
  }

  lemma {:induction false} FirstStableTextAt(tags: seq<StatusTag>, g: seq<TagEvent> -> string, i: nat)
    requires i < |tags| && tags[i].tag == "stable" && g(tags[i].items) != ""
    requires forall h :: 0 <= h < i ==> tags[h].tag != "stable" || g(tags[h].items) == ""
    ensures FirstStableText(tags, g) == g(tags[i].items)
  {
    if i > 0 {
      assert tags[0].tag != "stable" || g(tags[0].items) == "";
      FirstStableTextAt(tags[1..], g, i - 1);
    }
  }

  lemma {:induction false} LastImportedIsFirstStableText(tags: seq<StatusTag>)
    ensures LastImported(tags) == FirstStableText(tags, FirstImported)
  {
    if tags != [] {
      LastImportedIsFirstStableText(tags[1..]);
    }
  }

  lemma UnusableIsNotImported(tag: StatusTag)
    requires Unusable(tag)
    ensures tag.tag != "stable" || FirstImported(tag.items) == ""
  {
    if tag.tag == "stable" {
      NothingImported(tag.items);
    }
  }

  /** The last import is the first usable event in history order. */
  lemma LastImportedAt(tags: seq<StatusTag>, i: nat, k: nat)
    requires FirstUsable(tags, i, k)
    ensures LastImported(tags) == ItemImage(tags[i].items[k]) != ""
  {
    FirstImportedAt(tags[i].items, k);
    forall h | 0 <= h < i
      ensures tags[h].tag != "stable" || FirstImported(tags[h].items) == ""
    {
      UnusableIsNotImported(tags[h]);
    }
    FirstStableTextAt(tags, FirstImported, i);
    LastImportedIsFirstStableText(tags);
  }

  /** Without one there is none. */
  lemma {:induction false} NothingLastImported(tags: seq<StatusTag>)
    requires forall h :: 0 <= h < |tags| ==> Unusable(tags[h])
    ensures LastImported(tags) == ""
  {
    if tags != [] {
      UnusableIsNotImported(tags[0]);
      NothingLastImported(tags[1..]);
    }
  }

  // ----- What a stream decides -----

  /** A re-import may be pending while the image that the succeeded attempt requested, as
      resolved before at this very generation and not failed since, keeps serving. */
  predicate KeepsServing(s: CatalogStatus, generation: int, name: TargetName, stream: ImageStream) {
    var resolved := if name.CatalogData? then s.conditions.catalogResolved else s.conditions.benchmarkResolved;
    var health := if name.CatalogData? then s.conditions.catalogImportHealthy else s.conditions.benchmarkImportHealthy;
    && resolved.Some? && resolved.value.reason == ImageStreamResolved && resolved.value.observedGeneration == generation
    && (health.None? || health.value.status != ConditionFalse)
    && s.activation.Some? && s.activation.value.state == Succeeded
    && LastImported(stream.statusTags)
       == (if name.CatalogData? then s.activation.value.requestedImages.catalog
           else s.activation.value.requestedImages.benchmark)
    && LastImported(stream.statusTags) != ""
  }

  /** When exactly a stream resolves its target. */
  lemma StreamResolvesExactly(
    s: CatalogStatus, generation: int, t: Target, isOpenShift: bool, read: StreamRead, applied: AppliedRead)
    ensures TargetOutcome(s, generation, t, isOpenShift, read, applied).resolved == Health(ConditionTrue,
        ImageStreamResolved) <==>
              && t.selection == Some("stable") && isOpenShift && read.StreamFound?
              && (|| ImportHealth(read.stream).status == ConditionTrue
                  || (ImportHealth(read.stream).status == ConditionUnknown
                      && KeepsServing(s, generation, t.name, read.stream)))
  {
    SelectionExactly(t.selection);
    if read.StreamFound? {
      if ImportHealth(read.stream).status == ConditionTrue {
        HealthyImportIsCurrent(read.stream);
      }
      ServingExactly(s, generation, t.name, read.stream);
    }
  }

  lemma ServingExactly(s: CatalogStatus, generation: int, name: TargetName, stream: ImageStream)
    ensures ServingPrevious(s, generation, name, stream) <==>
              ImportHealth(stream).status == ConditionUnknown && KeepsServing(s, generation, name, stream)
  {
  }

  /** The other verdicts of a target that follows its stream. */
  lemma StreamFaultsExactly(
    s: CatalogStatus, generation: int, t: Target, isOpenShift: bool, read: StreamRead, applied: AppliedRead)
    requires t.selection == Some("stable")
    ensures var o := TargetOutcome(s, generation, t, isOpenShift, read, applied);
            && (!isOpenShift ==> o.resolved == Health(ConditionFalse, UnsupportedDataImageSelection))
            && (isOpenShift && read.StreamFailed? ==>
                  && o.resolved == o.health == Health(ConditionFalse, ImageStreamUnavailable)
                  && o.evidence == [] && !o.releaseSourced)
            && (isOpenShift && read.StreamFound? ==> o.health == ImportHealth(read.stream))
            && (isOpenShift && read.StreamFound? && o.health.status == ConditionFalse ==>
                  o.resolved == Health(ConditionFalse, o.health.reason))
            && (isOpenShift && read.StreamFound? && o.health.status == ConditionUnknown ==>
                  o.resolved ==
                    if WasFailing(s, t.name) then Health(ConditionUnknown, AwaitingSuccessfulImport)
                    else if KeepsServing(s, generation, t.name, read.stream)
                        then Health(ConditionTrue, ImageStreamResolved)
                    else Health(ConditionFalse, if applied.AppliedFailed? then AppliedImageReadFailed
                        else NoSuccessfulImport))
            && (o.resolved.status != ConditionTrue && o.resolved.reason != NoSuccessfulImport ==> o.image == t.release)
  {
    if read.StreamFound? {
      ServingExactly(s, generation, t.name, read.stream);
    }
  }

  /** The target's last verdict was an unhealthy import or the wait after one. */
  predicate WasFailing(s: CatalogStatus, name: TargetName) {
    var resolved := if name.CatalogData? then s.conditions.catalogResolved else s.conditions.benchmarkResolved;
    var health := if name.CatalogData? then s.conditions.catalogImportHealthy else s.conditions.benchmarkImportHealthy;
    || (health.Some? && health.value.status == ConditionFalse)
    || (resolved.Some? && resolved.value.reason == AwaitingSuccessfulImport)
  }

  /** A pinned digest is used from the configured source, and tracks no stream. */
  lemma PinnedSelectionExactly(
    s: CatalogStatus, generation: int, t: Target, isOpenShift: bool, read: StreamRead, applied: AppliedRead)
    requires t.selection.Some? && IsDigest(t.selection.value)
    ensures var o := TargetOutcome(s, generation, t, isOpenShift, read, applied);
            && o.resolved == Health(ConditionTrue, DigestPinned) && o.health.status == ConditionTrue && o.evidence == []
            && Cut(o.image, '@').before == RepoBase(t.source) && Cut(o.image, '@').after == t.selection.value
  {
    SelectionExactly(t.selection);
    PinnedImageKeepsRepository(t.source, t.selection.value);
  }

  predicate NoneNamed(containers: seq<Container>, name: ContainerName) {
    forall i :: 0 <= i < |containers| ==> containers[i].name != name
  }

  function InitName(name: TargetName): ContainerName {
    if name.CatalogData? then CatalogDataInit else BenchmarkDataInit
  }

  lemma AppliedImageExactly(t: Target, containers: seq<Container>, i: nat)
    ensures LastNamed(containers, InitName(t.name), i) ==>
        AppliedImage(AppliedContainers(containers), t) == containers[i].image
    ensures NoneNamed(containers, InitName(t.name)) ==> AppliedImage(AppliedContainers(containers), t) == t.release
    ensures AppliedImage(AppliedMissing, t) == t.release
  {
    if LastNamed(containers, InitName(t.name), i) {
      LastImageAt(containers, InitName(t.name), i);
    }
  }

  /** A first import keeps the image already applied for this target, or the release's. */
  lemma FirstImportKeepsAppliedImage(
    s: CatalogStatus, generation: int, t: Target, isOpenShift: bool, read: StreamRead, applied: AppliedRead)
    requires TargetOutcome(s, generation, t, isOpenShift, read, applied).resolved.reason == NoSuccessfulImport
    ensures !applied.AppliedFailed?
    ensures TargetOutcome(s, generation, t, isOpenShift, read, applied).image == AppliedImage(applied, t)
  {
    if read.StreamFound? {
      HealthReasons(read.stream);
    }
  }

  // ----- Evidence -----

  /** Import evidence tells streams, targets, verdicts and, unless the import is healthy,
      requested generations apart. */
  lemma EvidenceAgreesExactly(
    a: ImageStream, m: TargetName, x: ConditionStatus, b: ImageStream, n: TargetName, y: ConditionStatus)
    ensures ImportEvidence(a, m, x) == ImportEvidence(b, n, y) <==>
              && a.uid == b.uid && m == n && x == y
              && (x == ConditionTrue || RequestedImport(a.specTags) == RequestedImport(b.specTags))
  {
    assert |"catalog"| != |"benchmark"|;
  }

  /** A stream hands on a resolved image exactly if its import is healthy or serving. */
  lemma StableResolvesExactly(s: CatalogStatus, generation: int, t: Target, stream: ImageStream, applied: AppliedRead)
    ensures IsResolved(StableOutcome(s, generation, t, stream, applied)) <==>
              ImportHealth(stream).status == ConditionTrue || ServingPrevious(s, generation, t.name, stream)
  {
    if ImportHealth(stream).status == ConditionTrue {
      HealthyImportIsCurrent(stream);
    }
  }

  /** What a target that follows its stream hands on as evidence. */
  lemma EvidenceOfTarget(s: CatalogStatus, generation: int, t: Target, stream: ImageStream, applied: AppliedRead)
    requires t.selection == Some("stable")
    ensures var o := TargetOutcome(s, generation, t, true, StreamFound(stream), applied);
            o.evidence == [ImportEvidence(stream, t.name, if IsResolved(o) then ConditionTrue
                else ImportHealth(stream).status)]
  {
    SelectionExactly(t.selection);
    StableResolvesExactly(s, generation, t, stream, applied);
  }

  /** Asking for another import of a stream that does not resolve is a new request, so it
      starts a new attempt even if the verdict does not change. */
  lemma RetriedImportIsNewRequest(
    s: CatalogStatus, u: CatalogStatus, meta: CatalogMeta, runtime: Runtime, seen: ResolutionReads,
        next: ResolutionReads,
    resolved: Condition, other: Condition)
    requires meta.catalogSelection == Some("stable") && seen.isOpenShift && next.isOpenShift
    requires seen.catalogStream.StreamFound? && next.catalogStream.StreamFound?
    requires !IsResolved(CatalogOutcome(s, meta, seen)) && !IsResolved(CatalogOutcome(u, meta, next))
    requires RequestedImport(seen.catalogStream.stream.specTags) != RequestedImport(next.catalogStream.stream.specTags)
    ensures RequestOf(meta, runtime, ResolvedParams(meta, seen, CatalogOutcome(s, meta, seen),
        BenchmarkOutcome(s, meta, seen)), resolved)
         != RequestOf(meta, runtime, ResolvedParams(meta, next, CatalogOutcome(u, meta, next),
             BenchmarkOutcome(u, meta, next)), other)
  {
    var a, b := seen.catalogStream.stream, next.catalogStream.stream;
    var oc, od := CatalogOutcome(s, meta, seen), CatalogOutcome(u, meta, next);
    EvidenceOfTarget(s, meta.generation, CatalogTarget(meta, seen), a, seen.catalogApplied);
    EvidenceOfTarget(u, meta.generation, CatalogTarget(meta, next), b, next.catalogApplied);
    UnresolvedIsUnhealthy(s, meta.generation, CatalogTarget(meta, seen), a, seen.catalogApplied);
    EvidenceAgreesExactly(a, CatalogData, ImportHealth(a).status, b, CatalogData, ImportHealth(b).status);
    var first := ResolvedParams(meta, seen, oc, BenchmarkOutcome(s, meta, seen)).evidence;
    var second := ResolvedParams(meta, next, od, BenchmarkOutcome(u, meta, next)).evidence;
    assert first[0] == oc.evidence[0] && second[0] == od.evidence[0];
  }

  /** The same for the benchmark stream, shared or not. */
  lemma RetriedBenchmarkImportIsNewRequest(
    s: CatalogStatus, u: CatalogStatus, meta: CatalogMeta, runtime: Runtime,
    seen: ResolutionReads, next: ResolutionReads, resolved: Condition, other: Condition)
    requires meta.benchmarkSelection == Some("stable") && seen.isOpenShift && next.isOpenShift
    requires BenchmarkRead(meta, seen).StreamFound? && BenchmarkRead(meta, next).StreamFound?
    requires !IsResolved(BenchmarkOutcome(s, meta, seen)) && !IsResolved(BenchmarkOutcome(u, meta, next))
    requires RequestedImport(BenchmarkRead(meta, seen).stream.specTags)
          != RequestedImport(BenchmarkRead(meta, next).stream.specTags)
    ensures var p := ResolvedParams(meta, seen, CatalogOutcome(s, meta, seen), BenchmarkOutcome(s, meta, seen));
            var q := ResolvedParams(meta, next, CatalogOutcome(u, meta, next), BenchmarkOutcome(u, meta, next));
            RequestOf(meta, runtime, p, resolved) != RequestOf(meta, runtime, q, other)
  {
    var a, b := BenchmarkRead(meta, seen).stream, BenchmarkRead(meta, next).stream;
    var ob, od := BenchmarkOutcome(s, meta, seen), BenchmarkOutcome(u, meta, next);
    EvidenceOfTarget(s, meta.generation, BenchmarkTarget(meta, seen), a, seen.benchmarkApplied);
    EvidenceOfTarget(u, meta.generation, BenchmarkTarget(meta, next), b, next.benchmarkApplied);
    UnresolvedIsUnhealthy(s, meta.generation, BenchmarkTarget(meta, seen), a, seen.benchmarkApplied);
    EvidenceAgreesExactly(a, BenchmarkData, ImportHealth(a).status, b, BenchmarkData, ImportHealth(b).status);
    var first := ResolvedParams(meta, seen, CatalogOutcome(s, meta, seen), ob).evidence;
    var second := ResolvedParams(meta, next, CatalogOutcome(u, meta, next), od).evidence;
    assert first[|first| - 1] == ob.evidence[0] && second[|second| - 1] == od.evidence[0];
  }

  lemma UnresolvedIsUnhealthy(s: CatalogStatus, generation: int, t: Target, stream: ImageStream, applied: AppliedRead)
    requires t.selection == Some("stable") && !IsResolved(TargetOutcome(s, generation, t, true, StreamFound(stream),
        applied))
    ensures ImportHealth(stream).status != ConditionTrue
  {
    SelectionExactly(t.selection);
    StableResolvesExactly(s, generation, t, stream, applied);
  }

  // ----- Both targets together -----

  predicate IsFault(h: Health) {
    h.status == ConditionFalse && h.reason != NoSuccessfulImport
  }

  /** The aggregate is the first fault, else the first verdict that is not True, else
      agreement or independent selections. */
  lemma AggregateExactly(first: Health, second: Health)
    ensures Aggregate(first, second) ==
              if IsFault(first) then first
              else if IsFault(second) then second
              else if first.status != ConditionTrue then first
              else if second.status != ConditionTrue then second
              else Health(ConditionTrue, if first.reason == second.reason then first.reason else IndependentSelections)
  {
  }

  /** The reason that blocks updates is never a wait while a confirmed fault is known. */
  lemma FaultExactly(first: Outcome, second: Outcome)
    requires KnownKind(first) && KnownKind(second)
    ensures Fault(first, second) ==
              if IsFault(first.resolved) then Some(first.resolved.reason)
              else if IsFault(second.resolved) then Some(second.resolved.reason)
              else if first.resolved.status == ConditionUnknown then Some(AwaitingSuccessfulImport)
              else if second.resolved.status == ConditionUnknown then Some(AwaitingSuccessfulImport)
              else None
  {
  }

  /** The block is published with that reason, or as allowed updates. */
  lemma BlockIsPublished(s: CatalogStatus, meta: CatalogMeta, seen: ResolutionReads)
    ensures var fault := Fault(CatalogOutcome(s, meta, seen), BenchmarkOutcome(s, meta, seen));
            Resolve(s, meta, seen).conditions.updateBlocked == Some(
              if fault.Some? then Condition(ConditionTrue, fault.value, meta.generation)
              else Condition(ConditionFalse, UpdatesAllowed, meta.generation))
  {
  }

  /** The published pair, and what its change does to the reported workload. */
  lemma PublishedPairExactly(s: CatalogStatus, meta: CatalogMeta, seen: ResolutionReads)
    ensures var oc, ob := CatalogOutcome(s, meta, seen), BenchmarkOutcome(s, meta, seen);
            var r := Resolve(s, meta, seen); var pair := Images(oc.image, ob.image);
            && (r.resolvedImages.Some? <==> IsResolved(oc) && IsResolved(ob))
            && (r.resolvedImages.Some? ==>
                  r.resolvedImages.value == if s.activation.Some? && s.activation.value.requestedImages == pair
                                            then s.activation.value.images else pair)
            && r.conditions.workload == (if r.resolvedImages == s.resolvedImages then s.conditions.workload
                                         else Some(Condition(ConditionFalse, ImagesUpdating, meta.generation)))
  {
    BlocksExactly(s, meta, seen);
  }
}
