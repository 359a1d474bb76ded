/** Evidence read from pods: failure verdicts, image matching and validated pods. */
module PodEvidence {
  import opened CatalogTypes

  datatype ContainerName =
    | CatalogDataInit | BenchmarkDataInit | ContentValidation | CatalogProcess
    | OtherContainer(text: string)

  datatype Container = Container(name: ContainerName, image: string)

  datatype PodSpec = PodSpec(initContainers: seq<Container>, containers: seq<Container>)

  datatype WaitingReason =
    | CreateContainerConfigError | CreateContainerError | RunContainerError
    | ErrImagePull | ImagePullBackOff | InvalidImageName | CrashLoopBackOff
    | OtherWaiting(text: string)

  /** A failure report; `report` of a termination is the decoded termination message. */
  datatype Failure = Failure(stage: Stage, reason: Reason)

  datatype Terminated = Terminated(exitCode: int, report: Option<Failure>)

  datatype ContainerStatus = ContainerStatus(
    name: ContainerName, ready: bool,
    waiting: Option<WaitingReason>, terminated: Option<Terminated>, lastTerminated: Option<Terminated>)

  datatype Pod = Pod(
    deleting: bool, attempt: string, spec: PodSpec, phaseFailed: bool,
    initStatuses: seq<ContainerStatus>, statuses: seq<ContainerStatus>)

  predicate Retryable(f: Failure) {
    f.reason == DataImagePullRetrying || f.reason == CatalogRestarting
  }

  /** Stage and reason derived from known failure codes only. */
  function Safe(f: Failure): Failure {
    match f.reason
    case CatalogPodFailed => Failure(StageActivation, f.reason)
    case CatalogContainerFailed => Failure(StageInitialization, f.reason)
    case DataImagePullFailed => Failure(StagePull, f.reason)
    case DataImageInitializationFailed => Failure(StageInitialization, f.reason)
    case CatalogContentInvalid => Failure(StageLoading, f.reason)
    case BenchmarkContentInvalid => Failure(StageLoading, f.reason)
    case ActivationFailed => Failure(StageActivation, f.reason)
    case ActivationTimedOut => Failure(StageActivation, f.reason)
    case _ => Failure(StageActivation, CatalogStartupFailed)
  }

  /** Sanitizing is idempotent and its result is always terminal. */
  lemma SafeIsTerminalFixpoint(f: Failure)
    ensures Safe(Safe(f)) == Safe(f) && !Retryable(Safe(f))
  {
  }

  function ImageOf(containers: seq<Container>, name: ContainerName): string {
    if containers == [] then ""
    else if containers[0].name == name then containers[0].image
    else ImageOf(containers[1..], name)
  }

  predicate MatchesCatalogImages(pod: PodSpec, desired: PodSpec) {
    && (forall name | name in {CatalogDataInit, BenchmarkDataInit} ::
          ImageOf(desired.initContainers, name) != ""
          && ImageOf(pod.initContainers, name) == ImageOf(desired.initContainers, name))
    && ImageOf(desired.containers, CatalogProcess) != ""
    && ImageOf(pod.containers, CatalogProcess) == ImageOf(desired.containers, CatalogProcess)
  }

  function TerminationFailure(status: ContainerStatus, init: bool): Option<Failure> {
    var terminated :=
      if status.terminated.None? && status.waiting == Some(CrashLoopBackOff) then status.lastTerminated
      else status.terminated;
    if terminated.None? || terminated.value.exitCode == 0 then None
    else if !init then Some(Failure(StageActivation, CatalogRestarting))
    else if status.name != ContentValidation then Some(Failure(StageInitialization, DataImageInitializationFailed))
    else
      match terminated.value.report
      case Some(report) =>
        if (report.stage == StageLoading || report.stage == StageActivation)
           && (report.reason == CatalogContentInvalid || report.reason == BenchmarkContentInvalid
               || report.reason == ActivationFailed)
        then Some(report) else Some(Failure(StageActivation, CatalogStartupFailed))
      case None => Some(Failure(StageActivation, CatalogStartupFailed))
  }

  function ContainerFailure(status: ContainerStatus, init: bool): Option<Failure> {
    match status.waiting
    case Some(CreateContainerConfigError) => Some(Failure(StageInitialization, CatalogContainerFailed))
    case Some(CreateContainerError) => Some(Failure(StageInitialization, CatalogContainerFailed))
    case Some(RunContainerError) => Some(Failure(StageInitialization, CatalogContainerFailed))
    case Some(ErrImagePull) => Some(Failure(StagePull, DataImagePullRetrying))
    case Some(ImagePullBackOff) => Some(Failure(StagePull, DataImagePullRetrying))
    case Some(InvalidImageName) => Some(Failure(StagePull, DataImagePullFailed))
    case _ => TerminationFailure(status, init)
  }

  predicate Inspected(name: ContainerName, init: bool) {
    if init then name == CatalogDataInit || name == BenchmarkDataInit || name == ContentValidation
    else name == CatalogProcess
  }

  function FirstFailure(statuses: seq<ContainerStatus>, init: bool): (f: Option<Failure>)
    ensures f.Some? ==> f.value.stage != StageSelection
  {
    if statuses == [] then None
    else if Inspected(statuses[0].name, init) && ContainerFailure(statuses[0], init).Some?
        then ContainerFailure(statuses[0], init)
    else FirstFailure(statuses[1..], init)
  }

  function PodFailure(pod: Pod): Option<Failure> {
    if pod.phaseFailed then Some(Failure(StageActivation, CatalogPodFailed))
    else if FirstFailure(pod.initStatuses, true).Some? then FirstFailure(pod.initStatuses, true)
    else FirstFailure(pod.statuses, false)
  }

  /** Pods that may speak for the current attempt. */
  predicate Eligible(pod: Pod, template: PodSpec, attempt: Option<string>) {
    !pod.deleting && MatchesCatalogImages(pod.spec, template) && (attempt.Some? ==> pod.attempt == attempt.value)
  }

  predicate ReportsTerminal(pod: Pod, template: PodSpec, attempt: Option<string>) {
    Eligible(pod, template, attempt) && PodFailure(pod).Some? && !Retryable(PodFailure(pod).value)
  }

  predicate ReportsRetryable(pod: Pod, template: PodSpec, attempt: Option<string>) {
    Eligible(pod, template, attempt) && PodFailure(pod).Some? && Retryable(PodFailure(pod).value)
  }

  datatype VerdictClass = NoVerdict | RetryingVerdict | TerminalVerdict

  function ClassOf(f: Option<Failure>): VerdictClass {
    if f.None? then NoVerdict else if Retryable(f.value) then RetryingVerdict else TerminalVerdict
  }

  ghost predicate SomeTerminal(pods: multiset<Pod>, template: PodSpec, attempt: Option<string>) {
    exists pod :: pod in pods && ReportsTerminal(pod, template, attempt)
  }

  ghost predicate SomeRetryable(pods: multiset<Pod>, template: PodSpec, attempt: Option<string>) {
    exists pod :: pod in pods && ReportsRetryable(pod, template, attempt)
  }

  /** The class that a collection of pods warrants, without reference to order. */
  ghost function WarrantedClass(pods: multiset<Pod>, template: PodSpec, attempt: Option<string>): VerdictClass {
    if SomeTerminal(pods, template, attempt) then TerminalVerdict
    else if SomeRetryable(pods, template, attempt) then RetryingVerdict
    else NoVerdict
  }

  lemma SomeTerminalNext(pods: multiset<Pod>, pod: Pod, template: PodSpec, attempt: Option<string>)
    ensures SomeTerminal(pods + multiset{pod}, template, attempt) <==>
              SomeTerminal(pods, template, attempt) || ReportsTerminal(pod, template, attempt)
  {
    forall p
      ensures p in pods + multiset{pod} <==> p in pods || p == pod
    {
    }
  }

  lemma SomeRetryableNext(pods: multiset<Pod>, pod: Pod, template: PodSpec, attempt: Option<string>)
    ensures SomeRetryable(pods + multiset{pod}, template, attempt) <==>
              SomeRetryable(pods, template, attempt) || ReportsRetryable(pod, template, attempt)
  {
    forall p
      ensures p in pods + multiset{pod} <==> p in pods || p == pod
    {
    }
  }

  lemma WarrantsTerminal(pods: seq<Pod>, template: PodSpec, attempt: Option<string>, i: nat)
    requires i < |pods| && ReportsTerminal(pods[i], template, attempt)
    ensures WarrantedClass(multiset(pods), template, attempt) == TerminalVerdict
  {
    assert pods[i] in multiset(pods);
  }

  /** The class a list reaches when it is read from the front, ignoring what follows the
      first terminal report. */
  function ClassSoFar(pods: seq<Pod>, template: PodSpec, attempt: Option<string>): VerdictClass {
    if pods == [] then NoVerdict
    else
      var before, last := ClassSoFar(pods[..|pods| - 1], template, attempt), pods[|pods| - 1];
      if before.TerminalVerdict? || ReportsTerminal(last, template, attempt) then TerminalVerdict
      else if ReportsRetryable(last, template, attempt) then RetryingVerdict
      else before
  }

  lemma {:induction false} ReadingOrderIsIrrelevant(pods: seq<Pod>, template: PodSpec, attempt: Option<string>)
    ensures ClassSoFar(pods, template, attempt) == WarrantedClass(multiset(pods), template, attempt)
  {
    if pods != [] {
      var init, last := pods[..|pods| - 1], pods[|pods| - 1];
      ReadingOrderIsIrrelevant(init, template, attempt);
      assert pods == init + [last];
      assert multiset(pods) == multiset(init) + multiset{last};
      SomeTerminalNext(multiset(init), last, template, attempt);
      SomeRetryableNext(multiset(init), last, template, attempt);
    }
  }

  /** The pod's own failure, sanitized unless it is retryable. */
  predicate Voices(pod: Pod, verdict: Failure, template: PodSpec, attempt: Option<string>) {
    && Eligible(pod, template, attempt) && PodFailure(pod).Some?
    && verdict == if Retryable(PodFailure(pod).value) then PodFailure(pod).value else Safe(PodFailure(pod).value)
  }

  /** No pod speaks for the selection. */
  lemma VerdictIsNotSelection(pod: Pod, verdict: Failure, template: PodSpec, attempt: Option<string>)
    requires Voices(pod, verdict, template, attempt)
    ensures verdict.stage != StageSelection
  {
  }

  /** What one pod of the list reports, if it is eligible; terminal reports are sanitized. */
  method ExaminePod(pod: Pod, template: PodSpec, attempt: Option<string>) returns (verdict: Option<Failure>)
    ensures ReportsTerminal(pod, template, attempt) <==> ClassOf(verdict) == TerminalVerdict
    ensures ReportsRetryable(pod, template, attempt) <==> ClassOf(verdict) == RetryingVerdict
    ensures verdict.Some? ==> Voices(pod, verdict.value, template, attempt)
  {
    if !Eligible(pod, template, attempt) {
      return None;
    }
    verdict := PodFailure(pod);
    if verdict.Some? && !Retryable(verdict.value) {
      SafeIsTerminalFixpoint(verdict.value);
      verdict := Some(Safe(verdict.value));
    }
  }

  /** The verdict on a pod list has the class its pods warrant whatever their order,
      a terminal verdict is sanitized, and a retryable one is some eligible pod's. */
  method CatalogActivationFailure(
    pods: seq<Pod>, template: PodSpec, attempt: Option<string>) returns (verdict: Option<Failure>)
    ensures ClassOf(verdict) == WarrantedClass(multiset(pods), template, attempt)
    ensures verdict.Some? ==> exists i :: 0 <= i < |pods| && Voices(pods[i], verdict.value, template, attempt)
  {
    var retrying := None;
    ghost var at := -1;
    for i := 0 to |pods|
      invariant ClassSoFar(pods[..i], template, attempt) == ClassOf(retrying) != TerminalVerdict
      invariant retrying.Some? ==> 0 <= at < i && Voices(pods[at], retrying.value, template, attempt)
    {
      assert pods[..i + 1][..i] == pods[..i];
      var report := ExaminePod(pods[i], template, attempt);
      match ClassOf(report) {
        case NoVerdict =>
        case RetryingVerdict =>
          retrying, at := report, i;
        case TerminalVerdict =>
          WarrantsTerminal(pods, template, attempt, i);
          return report;
      }
    }
    assert pods[..|pods|] == pods;
    ReadingOrderIsIrrelevant(pods, template, attempt);
    return retrying;
  }

  /** Reordering the list, or adding and removing pods that do not belong to the
      attempt, cannot change the class of the verdict. */
  lemma VerdictIgnoresOrderAndStrangers(pods: seq<Pod>, others: seq<Pod>, template: PodSpec, attempt: Option<string>)
    requires forall pod :: Eligible(pod, template, attempt) ==> (pod in pods <==> pod in others)
    ensures WarrantedClass(multiset(pods), template, attempt) == WarrantedClass(multiset(others), template, attempt)
  {
    forall pod | Eligible(pod, template, attempt)
      ensures pod in multiset(pods) <==> pod in multiset(others)
    {
    }
  }

  predicate ValidationSucceeded(s: ContainerStatus) {
    s.name == ContentValidation && s.terminated.Some? && s.terminated.value.exitCode == 0
  }

  /** Readiness of a container is its last reported entry. */
  function LastReady(statuses: seq<ContainerStatus>, name: ContainerName): bool {
    if statuses == [] then false
    else
      var last := statuses[|statuses| - 1];
      if last.name == name then last.ready else LastReady(statuses[..|statuses| - 1], name)
  }

  /** A live pod of the attempt with the template's images, a passed validation and
      a ready catalog process. */
  predicate PodValidated(pod: Pod, template: PodSpec, attempt: string) {
    && Eligible(pod, template, Some(attempt))
    && (exists i :: 0 <= i < |pod.initStatuses| && ValidationSucceeded(pod.initStatuses[i]))
    && LastReady(pod.statuses, CatalogProcess)
  }

  method IsPodValidated(pod: Pod, template: PodSpec, attempt: string) returns (ok: bool)
    ensures ok == PodValidated(pod, template, attempt)
  {
    if pod.deleting || pod.attempt != attempt || !MatchesCatalogImages(pod.spec, template) {
      return false;
    }
    var validated := false;
    for i := 0 to |pod.initStatuses|
      invariant validated <==> exists j :: 0 <= j < i && ValidationSucceeded(pod.initStatuses[j])
    {
      if ValidationSucceeded(pod.initStatuses[i]) {
        validated := true;
      }
    }
    var ready: map<ContainerName, bool> := map[];
    for i := 0 to |pod.statuses|
      invariant (CatalogProcess in ready && ready[CatalogProcess]) == LastReady(pod.statuses[..i], CatalogProcess)
    {
      assert pod.statuses[..i + 1][..i] == pod.statuses[..i];
      ready := ready[pod.statuses[i].name := pod.statuses[i].ready];
    }
    assert pod.statuses[..|pod.statuses|] == pod.statuses;
    return validated && CatalogProcess in ready && ready[CatalogProcess];
  }

  /** Positions of the pods that certify the attempt. */
  function CertifyingPods(pods: seq<Pod>, template: PodSpec, attempt: string): set<int> {
    set i | 0 <= i < |pods| && PodValidated(pods[i], template, attempt)
  }

  lemma CertifyingNext(pods: seq<Pod>, template: PodSpec, attempt: string, i: nat)
    requires i < |pods|
    ensures CertifyingPods(pods[..i + 1], template, attempt)
         == CertifyingPods(pods[..i], template, attempt) + if PodValidated(pods[i], template, attempt) then {i} else {}
  {
    assert forall j :: 0 <= j < i ==> pods[..i + 1][j] == pods[..i][j];
  }

  method CountValidatedPods(pods: seq<Pod>, template: PodSpec, attempt: string) returns (count: nat)
    ensures count == |CertifyingPods(pods, template, attempt)|
  {
    count := 0;
    for i := 0 to |pods|
      invariant count == |CertifyingPods(pods[..i], template, attempt)|
    {
      var ok := IsPodValidated(pods[i], template, attempt);
      CertifyingNext(pods, template, attempt, i);
      if ok {
        count := count + 1;
      }
    }
    assert pods[..|pods|] == pods;
  }
}
