/** Verdicts on the Catalog Deployment: its conditions, its rollout and its endpoints. */
module DeploymentStatus {
  import opened CatalogTypes
  import opened PodEvidence

  const Second := 1_000_000_000 // nanoseconds
  const DeploymentDelay := 5 * Second

  datatype ConditionKind = AvailableKind | ProgressingKind | ReplicaFailureKind | OtherKind(text: string)

  datatype DeploymentCondition = DeploymentCondition(
    kind: ConditionKind, status: ConditionStatus, message: string, lastTransition: int)

  datatype Verdict = Verdict(available: bool, availableSince: int, message: string)

  predicate Failing(c: DeploymentCondition) {
    c.kind == ReplicaFailureKind && c.status == ConditionTrue
  }

  predicate Stalled(c: DeploymentCondition) {
    c.kind == ProgressingKind && c.status == ConditionFalse
  }

  /** The verdict after the first conditions, with the two overriding flags. */
  datatype Scan = Scan(verdict: Verdict, failed: bool, progressing: bool)

  function Scanned(conditions: seq<DeploymentCondition>): Scan {
    if conditions == [] then Scan(Verdict(false, 0, ""), false, true)
    else ScanNext(Scanned(conditions[..|conditions| - 1]), conditions[|conditions| - 1])
  }

  function ScanNext(s: Scan, c: DeploymentCondition): Scan {
    if c.kind == AvailableKind && !s.failed && s.progressing then
      if c.status == ConditionTrue then s.(verdict := s.verdict.(available := true, availableSince := c.lastTransition))
      else s.(verdict := s.verdict.(available := false, message := c.message))
    else if Stalled(c) && !s.failed then
      s.(verdict := s.verdict.(available := false, message := c.message), progressing := false)
    else if Failing(c) then
      s.(verdict := s.verdict.(available := false, message := c.message), failed := true)
    else s
  }

  method ParseDeploymentConditions(conditions: seq<DeploymentCondition>) returns (state: Verdict)
    ensures state == Scanned(conditions).verdict
    ensures DistinctKinds(conditions) ==> IsVerdict(multiset(conditions), state)
  {
    state := Verdict(false, 0, "");
    var failed, progressing := false, true;
    for i := 0 to |conditions|
      invariant Scan(state, failed, progressing) == Scanned(conditions[..i])
    {
      var c := conditions[i];
      assert conditions[..i + 1][..i] == conditions[..i];
      match c.kind {
        case AvailableKind =>
          if !failed && progressing {
            state := state.(available := c.status == ConditionTrue);
            if !state.available {
              state := state.(message := c.message);
            } else {
              state := state.(availableSince := c.lastTransition);
            }
          }
        case ProgressingKind =>
          if c.status == ConditionFalse && !failed {
            state := state.(available := false, message := c.message);
            progressing := false;
          }
        case ReplicaFailureKind =>
          if c.status == ConditionTrue {
            state := state.(available := false, message := c.message);
            failed := true;
          }
        case OtherKind(_) =>
      }
    }
    assert conditions[..|conditions|] == conditions;
    if DistinctKinds(conditions) {
      ScanFollowsRule(conditions);
    }
  }

  predicate DistinctKinds(conditions: seq<DeploymentCondition>) {
    forall i, j :: 0 <= i < j < |conditions| ==> conditions[i].kind != conditions[j].kind
  }

  /** The order-free rule: replica failure over stalled progress over availability. */
  ghost predicate IsVerdict(conditions: multiset<DeploymentCondition>, v: Verdict) {
    && (forall c :: c in conditions && c.kind == ReplicaFailureKind && c.status == ConditionTrue ==>
          !v.available && v.message == c.message)
    && ((forall c :: c in conditions ==> !(c.kind == ReplicaFailureKind && c.status == ConditionTrue)) ==>
          forall c :: c in conditions && c.kind == ProgressingKind && c.status == ConditionFalse ==>
            !v.available && v.message == c.message)
    && ((forall c :: c in conditions ==>
           && !(c.kind == ReplicaFailureKind && c.status == ConditionTrue)
           && !(c.kind == ProgressingKind && c.status == ConditionFalse)) ==>
          && (forall c :: c in conditions && c.kind == AvailableKind ==>
                if c.status == ConditionTrue then v.available && v.availableSince == c.lastTransition && v.message == ""
                else !v.available && v.message == c.message)
          && ((forall c :: c in conditions ==> c.kind != AvailableKind) ==> !v.available && v.message == ""))
  }

  /** What the scan of a prefix has settled. */
  ghost predicate Settled(conditions: seq<DeploymentCondition>, s: Scan) {
    && (s.failed <==> exists c :: c in conditions && Failing(c))
    && (!s.failed ==> (s.progressing <==> forall c :: c in conditions ==> !Stalled(c)))
    && IsVerdict(multiset(conditions), s.verdict)
  }

  lemma {:induction false} ScanFollowsRule(conditions: seq<DeploymentCondition>)
    requires DistinctKinds(conditions)
    ensures Settled(conditions, Scanned(conditions))
  {
    if conditions != [] {
      var n := |conditions| - 1;
      var prefix, c := conditions[..n], conditions[n];
      assert prefix + [c] == conditions;
      LastKindIsNew(prefix, c);
      ScanFollowsRule(prefix);
      ScanStep(prefix, c, Scanned(prefix));
    }
  }

  lemma LastKindIsNew(prefix: seq<DeploymentCondition>, c: DeploymentCondition)
    requires DistinctKinds(prefix + [c])
    ensures DistinctKinds(prefix) && forall d :: d in prefix ==> d.kind != c.kind
  {
    var all := prefix + [c];
    assert forall i :: 0 <= i < |prefix| ==> prefix[i] == all[i];
    forall i | 0 <= i < |prefix|
      ensures prefix[i].kind != c.kind
    {
      assert all[i].kind != all[|prefix|].kind;
    }
  }

  lemma ScanStep(prefix: seq<DeploymentCondition>, c: DeploymentCondition, s: Scan)
    requires forall d :: d in prefix ==> d.kind != c.kind
    requires Settled(prefix, s)
    ensures Settled(prefix + [c], ScanNext(s, c))
  {
    var all := prefix + [c];
    assert forall d :: d in multiset(all) <==> d in multiset(prefix) || d == c;
    assert forall d :: d in multiset(prefix) <==> d in prefix;
    assert c in all;
  }

  /** Two lists with the same conditions, in any order, get the same verdict. */
  lemma VerdictIgnoresOrder(a: seq<DeploymentCondition>, b: seq<DeploymentCondition>)
    requires DistinctKinds(a) && DistinctKinds(b) && multiset(a) == multiset(b)
    ensures var va, vb := Scanned(a).verdict, Scanned(b).verdict;
            va.available == vb.available && va.message == vb.message
                && (va.available ==> va.availableSince == vb.availableSince)
  {
    ScanFollowsRule(a);
    ScanFollowsRule(b);
    VerdictsAgree(multiset(a), Scanned(a).verdict, Scanned(b).verdict);
  }

  /** The rule leaves no choice. */
  lemma VerdictsAgree(m: multiset<DeploymentCondition>, v: Verdict, w: Verdict)
    requires IsVerdict(m, v) && IsVerdict(m, w)
    ensures v.available == w.available && v.message == w.message
        && (v.available ==> v.availableSince == w.availableSince)
  {
    if c :| c in m && Failing(c) {
      assert v.message == c.message == w.message;
    } else if c :| c in m && Stalled(c) {
      assert v.message == c.message == w.message;
    } else if c :| c in m && c.kind == AvailableKind {
      assert c.status == ConditionTrue ==> v.available && w.available;
    }
  }

  datatype Deployment = Deployment(
    templateAttempt: string, template: PodSpec, replicas: Option<int>,
    generation: int, observedGeneration: int, conditions: seq<DeploymentCondition>,
    totalReplicas: int, updatedReplicas: int, readyReplicas: int, availableReplicas: int, unavailableReplicas: int)

  datatype Endpoint = Endpoint(ready: Option<bool>, addresses: nat)

  /** What the API returned besides the Deployment: endpoint slices (None for a failed
      list) and the pods selected by the app and component labels. */
  datatype Surroundings = Surroundings(slices: Option<seq<seq<Endpoint>>>, labelledPods: seq<Pod>)

  function DesiredReplicas(d: Deployment): int {
    if d.replicas.Some? then d.replicas.value else 1
  }

  /** The image of an init container is its last entry of that name. */
  function LastImageOf(containers: seq<Container>, name: ContainerName): string {
    if containers == [] then ""
    else
      var last := containers[|containers| - 1];
      if last.name == name then last.image else LastImageOf(containers[..|containers| - 1], name)
  }

  function TemplateImages(d: Deployment): Images {
    Images(LastImageOf(d.template.initContainers, CatalogDataInit),
        LastImageOf(d.template.initContainers, BenchmarkDataInit))
  }

  predicate LastNamed(containers: seq<Container>, name: ContainerName, i: nat) {
    i < |containers| && containers[i].name == name && forall j :: i < j < |containers| ==> containers[j].name != name
  }

  lemma {:induction false} LastImageAt(containers: seq<Container>, name: ContainerName, i: nat)
    requires LastNamed(containers, name, i)
    ensures LastImageOf(containers, name) == containers[i].image
  {
    var n := |containers| - 1;
    if i < n {
      assert containers[n].name != name;
      LastImageAt(containers[..n], name, i);
    }
  }

  /** The template's images are those of the last init container of each name. */
  lemma TemplateImagesExactly(d: Deployment, i: nat, j: nat)
    requires LastNamed(d.template.initContainers, CatalogDataInit, i)
    requires LastNamed(d.template.initContainers, BenchmarkDataInit, j)
    ensures TemplateImages(d) == Images(d.template.initContainers[i].image, d.template.initContainers[j].image)
  {
    LastImageAt(d.template.initContainers, CatalogDataInit, i);
    LastImageAt(d.template.initContainers, BenchmarkDataInit, j);
  }

  predicate Serving(e: Endpoint) {
    (e.ready.None? || e.ready.value) && e.addresses > 0
  }

  ghost predicate HasServingEndpoint(slices: seq<seq<Endpoint>>) {
    exists slice, e :: slice in slices && e in slice && Serving(e)
  }

  predicate RolledOut(d: Deployment) {
    var desired := DesiredReplicas(d);
    && d.updatedReplicas == desired && d.totalReplicas == desired
    && d.readyReplicas >= desired && d.availableReplicas >= desired
  }

  /** All that serving takes, except for the cooldown. */
  ghost predicate ServesSometime(d: Deployment, images: Option<Images>, around: Surroundings) {
    && d.replicas != Some(0)
    && (images.Some? ==> TemplateImages(d) == images.value)
    && d.observedGeneration >= d.generation
    && Scanned(d.conditions).verdict.available
    && RolledOut(d)
    && around.slices.Some? && HasServingEndpoint(around.slices.value)
  }

  /** When the workload counts as available for the given images. */
  ghost predicate WorkloadServes(d: Deployment, images: Option<Images>, around: Surroundings, now: int) {
    && DesiredReplicas(d) != 0
    && (images.Some? ==> TemplateImages(d) == images.value)
    && d.observedGeneration >= d.generation
    && Scanned(d.conditions).verdict.available
    && RolledOut(d)
    && around.slices.Some? && HasServingEndpoint(around.slices.value)
    && now - Scanned(d.conditions).verdict.availableSince >= DeploymentDelay
  }

  method ReadTemplateImages(containers: seq<Container>) returns (images: Images)
    ensures images == Images(LastImageOf(containers, CatalogDataInit), LastImageOf(containers, BenchmarkDataInit))
  {
    images := Images("", "");
    for i := 0 to |containers|
      invariant images == Images(LastImageOf(containers[..i], CatalogDataInit),
          LastImageOf(containers[..i], BenchmarkDataInit))
    {
      assert containers[..i + 1][..i] == containers[..i];
      match containers[i].name {
        case CatalogDataInit => images := images.(catalog := containers[i].image);
        case BenchmarkDataInit => images := images.(benchmark := containers[i].image);
        case _ =>
      }
    }
    assert containers[..|containers|] == containers;
  }

  method FindServingEndpoint(slices: seq<seq<Endpoint>>) returns (found: bool)
    ensures found == HasServingEndpoint(slices)
  {
    for i := 0 to |slices|
      invariant forall slice, e :: slice in slices[..i] && e in slice ==> !Serving(e)
    {
      for j := 0 to |slices[i]|
        invariant forall e :: e in slices[i][..j] ==> !Serving(e)
      {
        if Serving(slices[i][j]) {
          assert slices[i] in slices && slices[i][j] in slices[i];
          return true;
        }
      }
    }
    return false;
  }

  method HasMisconfiguredContainer(pods: seq<Pod>) returns (found: bool)
    ensures found <==> exists pod, s :: pod in pods && s in pod.statuses && Misconfigured(s)
  {
    for i := 0 to |pods|
      invariant forall pod, s :: pod in pods[..i] && s in pod.statuses ==> !Misconfigured(s)
    {
      for j := 0 to |pods[i].statuses|
        invariant forall s :: s in pods[i].statuses[..j] ==> !Misconfigured(s)
      {
        if Misconfigured(pods[i].statuses[j]) {
          assert pods[i] in pods && pods[i].statuses[j] in pods[i].statuses;
          return true;
        }
      }
    }
    return false;
  }

  predicate Misconfigured(s: ContainerStatus) {
    !s.ready && s.waiting.Some? && s.waiting != Some(OtherWaiting("ContainerCreating"))
  }

  /** True exactly for a serving workload, and a True verdict never carries the reason
      of a failed reconcile. */
  method CheckDeploymentAvailability(
    d: Deployment, images: Option<Images>, around: Surroundings, now: int) returns (c: Condition)
    ensures c.status == ConditionTrue <==> WorkloadServes(d, images, around, now)
    ensures c.status != ConditionUnknown
    ensures c.status == ConditionTrue <==> c.reason == DeploymentAvailable
    ensures c.reason == ScaledDown <==> d.replicas == Some(0)
    ensures c.reason == ImagesUpdating <==> d.replicas != Some(0) && images.Some? && TemplateImages(d) != images.value
    ensures c.reason == DeploymentCooldown <==>
              now - Scanned(d.conditions).verdict.availableSince < 5_000_000_000 && ServesSometime(d, images, around)
    ensures c.reason == ConfigurationError <==>
              && d.replicas != Some(0) && (images.Some? ==> TemplateImages(d) == images.value)
              && d.observedGeneration >= d.generation && d.unavailableReplicas != 0
              && !(Scanned(d.conditions).verdict.available && RolledOut(d))
              && exists pod, s :: pod in around.labelledPods && s in pod.statuses && Misconfigured(s)
    ensures c.reason in {ScaledDown, ImagesUpdating, DeploymentUnavailable, DeploymentCooldown, ConfigurationError,
        DeploymentAvailable}
  {
    var desired := DesiredReplicas(d);
    if desired == 0 {
      return Condition(ConditionFalse, ScaledDown, 0);
    }
    if images.Some? {
      var found := ReadTemplateImages(d.template.initContainers);
      if found != images.value {
        return Condition(ConditionFalse, ImagesUpdating, 0);
      }
    }
    if d.observedGeneration < d.generation {
      return Condition(ConditionFalse, DeploymentUnavailable, 0);
    }
    var parsed := ParseDeploymentConditions(d.conditions);
    var available := parsed.available;
    if available && (d.updatedReplicas != desired || d.totalReplicas != desired
                     || d.readyReplicas < desired || d.availableReplicas < desired) {
      available := false;
    }
    c := Condition(ConditionFalse, DeploymentUnavailable, 0);
    if d.unavailableReplicas != 0 {
      var misconfigured := HasMisconfiguredContainer(around.labelledPods);
      c := Condition(ConditionFalse, if misconfigured then ConfigurationError else DeploymentUnavailable, 0);
    }
    if available {
      if around.slices.None? {
        return Condition(ConditionFalse, DeploymentUnavailable, 0);
      }
      var serving := FindServingEndpoint(around.slices.value);
      if !serving {
        return Condition(ConditionFalse, DeploymentUnavailable, 0);
      }
      if now - parsed.availableSince < DeploymentDelay {
        return Condition(ConditionFalse, DeploymentCooldown, 0);
      }
      c := Condition(ConditionTrue, DeploymentAvailable, 0);
    }
  }

  /** The rollout is complete for the desired replicas, one unless the spec says otherwise. */
  lemma RolledOutExactly(d: Deployment)
    ensures RolledOut(d) <==>
              var desired := if d.replicas.None? then 1 else d.replicas.value;
              && d.updatedReplicas == desired == d.totalReplicas
              && !(d.readyReplicas < desired) && !(d.availableReplicas < desired)
  {
  }

  /** A container is misconfigured while it waits, unready, for anything but its creation. */
  lemma MisconfiguredExactly(pods: seq<Pod>)
    ensures (exists pod, s :: pod in pods && s in pod.statuses && Misconfigured(s)) <==>
              exists i, j :: 0 <= i < |pods| && 0 <= j < |pods[i].statuses| && !pods[i].statuses[j].ready
                && pods[i].statuses[j].waiting !in {None, Some(OtherWaiting("ContainerCreating"))}
  {
    if pod, s :| pod in pods && s in pod.statuses && Misconfigured(s) {
      var i :| 0 <= i < |pods| && pods[i] == pod;
      var j :| 0 <= j < |pods[i].statuses| && pods[i].statuses[j] == s;
      assert !pods[i].statuses[j].ready;
    }
    if i, j :|
        0 <= i < |pods| && 0 <= j < |pods[i].statuses| && !pods[i].statuses[j].ready
        && pods[i].statuses[j].waiting !in {None, Some(OtherWaiting("ContainerCreating"))} {
      assert pods[i] in pods && pods[i].statuses[j] in pods[i].statuses && Misconfigured(pods[i].statuses[j]);
    }
  }

  /** An endpoint serves with an address, unless it is marked not ready. */
  lemma ServingExactly(slices: seq<seq<Endpoint>>)
    ensures HasServingEndpoint(slices) <==>
              exists i, j :: 0 <= i < |slices| && 0 <= j < |slices[i]|
                && slices[i][j].ready != Some(false) && slices[i][j].addresses != 0
  {
    if HasServingEndpoint(slices) {
      var slice, e :| slice in slices && e in slice && Serving(e);
      var i :| 0 <= i < |slices| && slices[i] == slice;
      var j :| 0 <= j < |slices[i]| && slices[i][j] == e;
      assert slices[i][j].ready != Some(false);
    }
    if i, j :|
        0 <= i < |slices| && 0 <= j < |slices[i]| && slices[i][j].ready != Some(false) && slices[i][j].addresses != 0 {
      assert slices[i] in slices && slices[i][j] in slices[i] && Serving(slices[i][j]);
    }
  }

  /** Five seconds of availability are required. */
  lemma ServesExactly(d: Deployment, images: Option<Images>, around: Surroundings, now: int)
    ensures WorkloadServes(d, images, around, now) <==>
              ServesSometime(d, images, around) && now - Scanned(d.conditions).verdict.availableSince >= 5_000_000_000
  {
  }

  /** One observation of the workload: the Deployment (None when absent, and not read
      at all when its read failed), the pods its selector lists (None for a failed
      list) and the clock. */
  datatype WorkloadReads = WorkloadReads(getFailed: bool, deployment: Option<Deployment>, around: Surroundings,
      pods: Option<seq<Pod>>, now: int)

  /** The workload certifies this attempt: its own template and images are serving and
      exactly the desired, positive number of its pods passed validation and are ready. */
  ghost predicate Certifies(w: WorkloadReads, attempt: string, images: Images) {
    && !w.getFailed && w.deployment.Some? && w.pods.Some?
    && var d := w.deployment.value;
       && d.templateAttempt == attempt
       && WorkloadServes(d, Some(images), w.around, w.now)
       && DesiredReplicas(d) > 0
       && |CertifyingPods(w.pods.value, d.template, attempt)| == DesiredReplicas(d)
  }

  /** A read that decides the question failed. */
  ghost predicate ReadFailed(w: WorkloadReads, attempt: string, images: Images) {
    || w.getFailed
    || (&& w.deployment.Some? && w.pods.None?
        && w.deployment.value.templateAttempt == attempt
        && WorkloadServes(w.deployment.value, Some(images), w.around, w.now))
  }

  method ValidatedCatalogWorkload(w: WorkloadReads, attempt: string, images: Images) returns (ready: Option<bool>)
    ensures ready.None? <==> ReadFailed(w, attempt, images)
    ensures ready == Some(true) <==> Certifies(w, attempt, images)
  {
    if w.getFailed {
      return None;
    }
    if w.deployment.None? || w.deployment.value.templateAttempt != attempt {
      return Some(false);
    }
    var d := w.deployment.value;
    var condition := CheckDeploymentAvailability(d, Some(images), w.around, w.now);
    if condition.status != ConditionTrue {
      return Some(false);
    }
    if w.pods.None? {
      return None;
    }
    var count := CountValidatedPods(w.pods.value, d.template, attempt);
    var desired := DesiredReplicas(d);
    return Some(desired > 0 && count == desired);
  }
}
