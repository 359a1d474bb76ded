/** What the two status writes of a reconcile leave stored, compared with the status the
    controller holds in memory. */
module StoredStatus {
  import opened CatalogTypes
  import opened ImageStatus
  import opened Activation
  import opened DataImages
  import opened StatusPatch
  import RecoveryWindow
  import Runs = CatalogRuns

  datatype Field =
    | ConditionsField | ActivationField | ResolvedImagesField | ObservedGenerationField
    | CatalogField | BenchmarkField
    | CatalogUIDField | AttemptIDField | RequestHashField | RequestedImagesField | ImagesField
    | StateField | StageField | ReasonField | StartedAtField | RecoveredAtField | LastSuccessfulField | ActivatedAtField

  /** The condition list is an array, hence one leaf. */
  datatype Value =
    | Text(text: string) | Number(number: int) | Digest(hash: Fingerprint)
    | StateText(state: AttemptState) | StageText(stage: Stage) | ReasonText(reason: Reason)
    | ConditionList(conditions: Conditions)

  type Document = Json<Field, Value>

  function Written(value: Value): Option<Document> {
    Some(Leaf(value))
  }

  function ImagesMember(i: Images, f: Field): Option<Document> {
    match f
    case CatalogField => Written(Text(i.catalog))
    case BenchmarkField => Written(Text(i.benchmark))
    case _ => None
  }

  function ImagesDocument(i: Images): Document {
    Obj(map f: Field | ImagesMember(i, f).Some? :: ImagesMember(i, f).value)
  }

  function SuccessMember(s: Success, f: Field): Option<Document> {
    match f
    case CatalogUIDField => Written(Text(s.catalogUID))
    case AttemptIDField => Written(Text(s.attemptID))
    case ImagesField => Some(ImagesDocument(s.images))
    case ActivatedAtField => Written(Number(s.activatedAt))
    case _ => None
  }

  function SuccessDocument(s: Success): Document {
    Obj(map f: Field | SuccessMember(s, f).Some? :: SuccessMember(s, f).value)
  }

  function AttemptMember(a: Attempt, f: Field): Option<Document> {
    match f
    case CatalogUIDField => Written(Text(a.catalogUID))
    case AttemptIDField => Written(Text(a.attemptID))
    case RequestHashField => Written(Digest(a.requestHash))
    case RequestedImagesField => Some(ImagesDocument(a.requestedImages))
    case ImagesField => Some(ImagesDocument(a.images))
    case StateField => Written(StateText(a.state))
    case StageField => Written(StageText(a.stage))
    case ReasonField => Written(ReasonText(a.reason))
    case StartedAtField => Written(Number(a.startedAt))
    case RecoveredAtField => if a.recoveredAt.Some? then Written(Number(a.recoveredAt.value)) else None
    case LastSuccessfulField => if a.lastSuccessful.Some? then Some(SuccessDocument(a.lastSuccessful.value)) else None
    case _ => None
  }

  function AttemptDocument(a: Attempt): Document {
    Obj(map f: Field | AttemptMember(a, f).Some? :: AttemptMember(a, f).value)
  }

  function StatusMember(s: CatalogStatus, f: Field): Option<Document> {
    match f
    case ConditionsField => Written(ConditionList(s.conditions))
    case ActivationField => if s.activation.Some? then Some(AttemptDocument(s.activation.value)) else None
    case ResolvedImagesField => if s.resolvedImages.Some? then Some(ImagesDocument(s.resolvedImages.value)) else None
    case ObservedGenerationField => Written(Number(s.observedGeneration))
    case _ => None
  }

  function StatusDocument(s: CatalogStatus): Document {
    Obj(map f: Field | StatusMember(s, f).Some? :: StatusMember(s, f).value)
  }

  lemma ImagesHaveNoNulls(i: Images)
    ensures NoNulls(ImagesDocument(i))
  {
    forall f | f in ImagesDocument(i).fields
      ensures ImagesDocument(i).fields[f].Leaf?
    {
    }
  }

  lemma SuccessHasNoNulls(s: Success)
    ensures NoNulls(SuccessDocument(s))
  {
    var d := SuccessDocument(s);
    ImagesHaveNoNulls(s.images);
    forall f | f in d.fields
      ensures !d.fields[f].Null? && NoNulls(d.fields[f])
    {
    }
  }

  lemma AttemptHasNoNulls(a: Attempt)
    ensures NoNulls(AttemptDocument(a))
  {
    var d := AttemptDocument(a);
    ImagesHaveNoNulls(a.images);
    ImagesHaveNoNulls(a.requestedImages);
    if a.lastSuccessful.Some? {
      SuccessHasNoNulls(a.lastSuccessful.value);
    }
    forall f | f in d.fields
      ensures !d.fields[f].Null? && NoNulls(d.fields[f])
    {
    }
  }

  lemma StatusHasNoNulls(s: CatalogStatus)
    ensures NoNulls(StatusDocument(s))
  {
    var d := StatusDocument(s);
    if s.activation.Some? {
      AttemptHasNoNulls(s.activation.value);
    }
    if s.resolvedImages.Some? {
      ImagesHaveNoNulls(s.resolvedImages.value);
    }
    forall f | f in d.fields
      ensures !d.fields[f].Null? && NoNulls(d.fields[f])
    {
    }
  }

  /** Documents determine what they were written from. */
  lemma ImagesDetermined(i: Images, j: Images)
    requires ImagesDocument(i) == ImagesDocument(j)
    ensures i == j
  {
    assert Member(ImagesDocument(i), CatalogField) == Leaf(Text(i.catalog))
        && Member(ImagesDocument(j), CatalogField) == Leaf(Text(j.catalog));
    assert Member(ImagesDocument(i), BenchmarkField) == Leaf(Text(i.benchmark))
        && Member(ImagesDocument(j), BenchmarkField) == Leaf(Text(j.benchmark));
  }

  lemma SuccessDetermined(s: Success, t: Success)
    requires SuccessDocument(s) == SuccessDocument(t)
    ensures s == t
  {
    forall f: Field ensures SuccessMember(s, f) == SuccessMember(t, f) {
      assert f in SuccessDocument(s).fields <==> f in SuccessDocument(t).fields;
    }
    assert SuccessMember(s, CatalogUIDField) == SuccessMember(t, CatalogUIDField);
    assert SuccessMember(s, AttemptIDField) == SuccessMember(t, AttemptIDField);
    assert SuccessMember(s, ActivatedAtField) == SuccessMember(t, ActivatedAtField);
    assert SuccessMember(s, ImagesField) == SuccessMember(t, ImagesField);
    ImagesDetermined(s.images, t.images);
  }

  lemma AttemptMemberDetermined(a: Attempt, b: Attempt, f: Field)
    requires AttemptDocument(a) == AttemptDocument(b)
    ensures AttemptMember(a, f) == AttemptMember(b, f)
  {
    assert f in AttemptDocument(a).fields <==> f in AttemptDocument(b).fields;
  }

  lemma AttemptTextsDetermined(a: Attempt, b: Attempt)
    requires AttemptDocument(a) == AttemptDocument(b)
    ensures a.catalogUID == b.catalogUID && a.attemptID == b.attemptID && a.requestHash == b.requestHash
    ensures a.state == b.state && a.stage == b.stage && a.reason == b.reason
    ensures a.startedAt == b.startedAt && a.recoveredAt == b.recoveredAt
  {
    AttemptMemberDetermined(a, b, CatalogUIDField);
    AttemptMemberDetermined(a, b, AttemptIDField);
    AttemptMemberDetermined(a, b, RequestHashField);
    AttemptMemberDetermined(a, b, StateField);
    AttemptMemberDetermined(a, b, StageField);
    AttemptMemberDetermined(a, b, ReasonField);
    AttemptMemberDetermined(a, b, StartedAtField);
    AttemptMemberDetermined(a, b, RecoveredAtField);
  }

  lemma AttemptDetermined(a: Attempt, b: Attempt)
    requires AttemptDocument(a) == AttemptDocument(b)
    ensures a == b
  {
    AttemptTextsDetermined(a, b);
    AttemptMemberDetermined(a, b, ImagesField);
    AttemptMemberDetermined(a, b, RequestedImagesField);
    AttemptMemberDetermined(a, b, LastSuccessfulField);
    ImagesDetermined(a.images, b.images);
    ImagesDetermined(a.requestedImages, b.requestedImages);
    if a.lastSuccessful.Some? {
      SuccessDetermined(a.lastSuccessful.value, b.lastSuccessful.value);
    }
  }

  lemma StatusDetermined(s: CatalogStatus, t: CatalogStatus)
    requires StatusDocument(s) == StatusDocument(t)
    ensures s == t
  {
    forall f: Field ensures StatusMember(s, f) == StatusMember(t, f) {
      assert f in StatusDocument(s).fields <==> f in StatusDocument(t).fields;
    }
    assert StatusMember(s, ConditionsField) == StatusMember(t, ConditionsField);
    assert StatusMember(s, ObservedGenerationField) == StatusMember(t, ObservedGenerationField);
    assert StatusMember(s, ActivationField) == StatusMember(t, ActivationField);
    if s.activation.Some? {
      AttemptDetermined(s.activation.value, t.activation.value);
    }
    assert StatusMember(s, ResolvedImagesField) == StatusMember(t, ResolvedImagesField);
    if s.resolvedImages.Some? {
      ImagesDetermined(s.resolvedImages.value, t.resolvedImages.value);
    }
  }

  /** What is stored after both writes. */
  function StoredDocument(before: CatalogStatus, first: CatalogStatus, final: CatalogStatus): Document {
    Merge(StatusDocument(first), Diff(StatusDocument(before), StatusDocument(final)))
  }

  /** Nothing can be reverted after a write that already stored the final value. */
  lemma {:induction false} FinalIsUnreverted<K, V>(before: Json<K, V>, final: Json<K, V>)
    ensures Unreverted(before, final, final)
    decreases final
  {
    if final.Obj? {
      forall k | k in final.fields
        ensures Unreverted(Member(before, k), final.fields[k], final.fields[k])
      {
        FinalIsUnreverted(Member(before, k), final.fields[k]);
      }
    }
  }

  /** Field by field, the first write either changed nothing or already stored the final value. */
  lemma FieldwiseUnreverted(before: CatalogStatus, first: CatalogStatus, final: CatalogStatus)
    requires first.activation == before.activation && before.activation.Some? && final.activation.Some?
    requires first.resolvedImages == final.resolvedImages && first.observedGeneration == final.observedGeneration
    requires final.conditions == before.conditions ==> first.conditions == before.conditions
    ensures Unreverted(StatusDocument(before), StatusDocument(first), StatusDocument(final))
  {
    var b, f, n := StatusDocument(before), StatusDocument(first), StatusDocument(final);
    UnchangedIsUnreverted(Member(b, ActivationField), Member(n, ActivationField));
    FinalIsUnreverted(Member(b, ResolvedImagesField), Member(n, ResolvedImagesField));
    assert Member(f, ActivationField) == Member(b, ActivationField);
    assert Member(f, ResolvedImagesField) == Member(n, ResolvedImagesField);
    forall k | k in b.fields.Keys + f.fields.Keys + n.fields.Keys
      ensures FieldUnreverted(b, f, n, k)
    {
      match k
      case ConditionsField =>
      case ActivationField =>
      case ResolvedImagesField =>
      case _ =>
    }
  }

  /** The first half of a reconcile: resolve the images and prepare the attempt. */
  ghost function FirstWrite(
    s: CatalogStatus, meta: CatalogMeta, seen: ResolutionReads, prepare: Runs.Step): CatalogStatus {
    Runs.After(Runs.After(Runs.World(meta, s), Runs.ResolveImages(seen)), prepare).status
  }

  /** The conditions that only resolution writes. */
  predicate SameResolution(c: Conditions, d: Conditions) {
    && c.resolved == d.resolved && c.importHealthy == d.importHealthy && c.updateBlocked == d.updateBlocked
    && c.catalogResolved == d.catalogResolved && c.benchmarkResolved == d.benchmarkResolved
    && c.catalogImportHealthy == d.catalogImportHealthy && c.benchmarkImportHealthy == d.benchmarkImportHealthy
  }

  lemma ObservationKeepsResolution(meta: CatalogMeta, s: CatalogStatus, step: Runs.Step)
    requires step.Observe? && s.activation.Some?
    ensures var t := Runs.After(Runs.World(meta, s), step).status;
            && SameResolution(t.conditions, s.conditions) && t.resolvedImages == s.resolvedImages
            && t.observedGeneration == meta.generation && t.activation.Some?
            && ObservedAt(t.conditions.ready, meta.generation)
  {
  }

  /** Restoring the resolution conditions of a settled status restores the status. */
  lemma UnchangedResolutionIsUnchanged(s: CatalogStatus, meta: CatalogMeta, seen: ResolutionReads)
    requires Reduced(s, meta.generation) == s
    requires Resolve(s, meta, seen).resolvedImages == s.resolvedImages
    requires SameResolution(Resolve(s, meta, seen).conditions, s.conditions)
    ensures Resolve(s, meta, seen) == s
  {
    var oc, ob := CatalogOutcome(s, meta, seen), BenchmarkOutcome(s, meta, seen);
    var c := TargetConditions(s, meta.generation, oc, ob);
    assert c.(updateBlocked := At(BlockCondition(oc, ob), meta.generation)) == s.conditions;
  }

  lemma FirstWriteKeepsResolution(s: CatalogStatus, meta: CatalogMeta, seen: ResolutionReads, prepare: Runs.Step)
    requires prepare.Prepare?
    requires FirstWrite(s, meta, seen, prepare).activation == s.activation && s.activation.Some?
    requires s.resolvedImages == Some(s.activation.value.images)
    requires Holds(Resolve(s, meta, seen).conditions.resolved)
    ensures var r, first := Resolve(s, meta, seen), FirstWrite(s, meta, seen, prepare);
            && first == Reduced(r.(resolvedImages := s.resolvedImages), meta.generation)
            && SameResolution(first.conditions, r.conditions)
  {
  }

  /** Conditions that end where they started were not changed by the first write. */
  lemma ConditionsAreWrittenOnce(
    s: CatalogStatus, settled: int, meta: CatalogMeta, seen: ResolutionReads, first: CatalogStatus,
        final: CatalogStatus)
    requires Reduced(s, settled) == s && Resolve(s, meta, seen).resolvedImages == s.resolvedImages
    requires first == Reduced(Resolve(s, meta, seen).(resolvedImages := s.resolvedImages), meta.generation)
    requires SameResolution(first.conditions, Resolve(s, meta, seen).conditions)
    requires SameResolution(final.conditions, first.conditions) && ObservedAt(final.conditions.ready, meta.generation)
    requires final.conditions == s.conditions
    ensures first == s
  {
    assert ObservedAt(s.conditions.ready, settled) by {
      assert s.conditions.ready == Reduced(s, settled).conditions.ready;
    }
    UnchangedResolutionIsUnchanged(s, meta, seen);
  }

  /** On a kept attempt with resolved images, what is stored after both writes is exactly
      the in-memory status, whatever the observation in between found and whichever
      generation the status was last settled at. */
  lemma KeptAttemptIsStoredExactly(
    s: CatalogStatus, settled: int, meta: CatalogMeta, seen: ResolutionReads, prepare: Runs.Step, observe: Runs.Step)
    requires Reduced(s, settled) == s && s.activation.Some? && s.resolvedImages == Some(s.activation.value.images)
    requires prepare.Prepare? && observe.Observe?
    requires FirstWrite(s, meta, seen, prepare).activation == s.activation
    requires Holds(Resolve(s, meta, seen).conditions.resolved)
    requires Resolve(s, meta, seen).resolvedImages == s.resolvedImages
    ensures var first := FirstWrite(s, meta, seen, prepare);
            var final := Runs.After(Runs.World(meta, first), observe).status;
            StoredDocument(s, first, final) == StatusDocument(final)
  {
    var first := FirstWrite(s, meta, seen, prepare);
    var final := Runs.After(Runs.World(meta, first), observe).status;
    FirstWriteKeepsResolution(s, meta, seen, prepare);
    ObservationKeepsResolution(meta, first, observe);
    if final.conditions == s.conditions {
      ConditionsAreWrittenOnce(s, settled, meta, seen, first, final);
    }
    WrittenFieldwise(s, first, final);
  }

  lemma WrittenFieldwise(before: CatalogStatus, first: CatalogStatus, final: CatalogStatus)
    requires first.activation == before.activation && before.activation.Some? && final.activation.Some?
    requires first.resolvedImages == final.resolvedImages && first.observedGeneration == final.observedGeneration
    requires final.conditions == before.conditions ==> first.conditions == before.conditions
    ensures StoredDocument(before, first, final) == StatusDocument(final)
  {
    FieldwiseUnreverted(before, first, final);
    StatusHasNoNulls(final);
    SecondWriteExact(StatusDocument(before), StatusDocument(first), StatusDocument(final));
  }

  /** A state put back to that of the snapshot is not written again. */
  lemma PutBackStateIsLost(before: Attempt, first: Attempt, final: Attempt)
    requires final.state == before.state != first.state
    ensures var stored := Merge(AttemptDocument(first), Diff(AttemptDocument(before), AttemptDocument(final)));
            && StateField in Fields(stored) && Fields(stored)[StateField] == Leaf(StateText(first.state))
            && stored != AttemptDocument(final)
  {
    var b, f, n := AttemptDocument(before), AttemptDocument(first), AttemptDocument(final);
    assert Fields(b)[StateField] == Fields(n)[StateField] == Leaf(StateText(final.state));
    assert Fields(f)[StateField] == Leaf(StateText(first.state));
    AttemptHasNoNulls(final);
    StoredField(b, f, n, StateField);
  }

  /** An attempt as certification leaves it. */
  predicate IsCertified(a: Attempt) {
    a.state == Succeeded && a.stage == StageActivation && a.reason == WorkloadValidated && RecoveryWindow.OwnSuccess(a)
  }

  /** A certified attempt as preparation holds it back during a first import. */
  predicate IsHeldBack(a: Attempt) {
    a.state == Pending && a.stage == StageImport && a.reason == NoSuccessfulImport && RecoveryWindow.OwnSuccess(a)
  }

  function HeldBack(a: Attempt): Attempt {
    a.(state := Pending, stage := StageImport, reason := NoSuccessfulImport)
  }

  /** During a first import the two writes do lose an update: a ready attempt is held back
      by preparation and certified again by observation, so the second write sends nothing
      but the recovery time, and what is stored is the attempt held back. */
  lemma FirstImportLosesState(a: Attempt, now: int)
    requires IsCertified(a)
    ensures var first := Gated(a, Condition(ConditionFalse, NoSuccessfulImport, 0));
            var final := ObservedAttempt(first, None, true, now);
            && first == HeldBack(a) && final == a.(recoveredAt := Some(now))
            && Merge(AttemptDocument(first), Diff(AttemptDocument(a), AttemptDocument(final)))
               == AttemptDocument(HeldBack(a).(recoveredAt := Some(now)))
  {
    StoredHeldBack(a, now);
  }

  lemma StoredHeldBack(a: Attempt, now: int)
    ensures var held := HeldBack(a);
            Merge(AttemptDocument(held), Diff(AttemptDocument(a), AttemptDocument(a.(recoveredAt := Some(now)))))
            == AttemptDocument(held.(recoveredAt := Some(now)))
  {
    var stored := Merge(AttemptDocument(HeldBack(a)), Diff(AttemptDocument(a),
        AttemptDocument(a.(recoveredAt := Some(now)))));
    forall k
      ensures FieldAgrees(stored, AttemptDocument(HeldBack(a).(recoveredAt := Some(now))), k)
    {
      StoredHeldBackField(a, now, k);
    }
    FieldsAgree(stored, AttemptDocument(HeldBack(a).(recoveredAt := Some(now))));
  }

  lemma StoredHeldBackField(a: Attempt, now: int, k: Field)
    ensures var held := HeldBack(a);
            var stored := Merge(AttemptDocument(held), Diff(AttemptDocument(a),
                AttemptDocument(a.(recoveredAt := Some(now)))));
            FieldAgrees(stored, AttemptDocument(held.(recoveredAt := Some(now))), k)
  {
    var final := a.(recoveredAt := Some(now));
    AttemptHasNoNulls(final);
    StoredField(AttemptDocument(a), AttemptDocument(HeldBack(a)), AttemptDocument(final), k);
    OnlyRecoveryChanges(a, now, k);
  }

  /** The fields in which the four attempts of such a pass differ. */
  lemma OnlyRecoveryChanges(a: Attempt, now: int, k: Field)
    ensures var held := HeldBack(a);
            && (k != RecoveredAtField ==>
                  && AttemptMember(a.(recoveredAt := Some(now)), k) == AttemptMember(a, k)
                  && AttemptMember(held.(recoveredAt := Some(now)), k) == AttemptMember(held, k)
                  && (AttemptMember(held, k).Some? <==> AttemptMember(a, k).Some?))
            && (k == RecoveredAtField ==> AttemptMember(held, k) == AttemptMember(a, k))
  {
  }

  /** The next reconcile of the attempt held back stores it certified again. */
  lemma FirstImportRegainsState(a: Attempt, now: int)
    requires IsHeldBack(a)
    ensures var first := Gated(a, Condition(ConditionFalse, NoSuccessfulImport, 0));
            var final := ObservedAttempt(first, None, true, now);
            && first == a && IsCertified(final)
            && Merge(AttemptDocument(first), Diff(AttemptDocument(a), AttemptDocument(final))) == AttemptDocument(final)
  {
    var final := ObservedAttempt(a, None, true, now);
    AttemptHasNoNulls(final);
    FirstWriteExact(AttemptDocument(a), AttemptDocument(final));
  }
}
