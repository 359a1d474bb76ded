/** What one pod reports, over the raw fields of its status. */
module PodVerdicts {
  import opened CatalogTypes
  import opened PodEvidence

  // ----- Container statuses -----

  predicate TerminalWait(s: ContainerStatus) {
    s.waiting in {Some(CreateContainerConfigError), Some(CreateContainerError), Some(RunContainerError),
        Some(InvalidImageName)}
  }

  predicate RetryableWait(s: ContainerStatus) {
    s.waiting in {Some(ErrImagePull), Some(ImagePullBackOff)}
  }

  /** The exit that counts: the current one, or under a crash loop the last one. */
  predicate BadExit(s: ContainerStatus) {
    if s.terminated.Some? then s.terminated.value.exitCode != 0
    else s.waiting == Some(CrashLoopBackOff) && s.lastTerminated.Some? && s.lastTerminated.value.exitCode != 0
  }

  predicate Trouble(s: ContainerStatus) {
    TerminalWait(s) || RetryableWait(s) || BadExit(s)
  }

  /** The init containers that are looked at. */
  predicate DataInit(s: ContainerStatus) {
    s.name in {CatalogDataInit, BenchmarkDataInit, ContentValidation}
  }

  predicate Process(s: ContainerStatus) {
    s.name == CatalogProcess
  }

  predicate Watched(s: ContainerStatus, init: bool) {
    if init then DataInit(s) else Process(s)
  }

  /** The first watched status that shows trouble. */
  predicate FirstTrouble(statuses: seq<ContainerStatus>, init: bool, i: nat) {
    && i < |statuses| && Watched(statuses[i], init) && Trouble(statuses[i])
    && forall j :: 0 <= j < i ==> !(Watched(statuses[j], init) && Trouble(statuses[j]))
  }

  predicate Untroubled(statuses: seq<ContainerStatus>, init: bool) {
    forall j :: 0 <= j < |statuses| ==> !(Watched(statuses[j], init) && Trouble(statuses[j]))
  }

  /** The termination message of the exit that counts. */
  function ExitReport(s: ContainerStatus): Option<Failure> {
    if s.terminated.Some? then s.terminated.value.report
    else if s.lastTerminated.Some? then s.lastTerminated.value.report
    else None
  }

  predicate TrustedReport(f: Failure) {
    && f.stage in {StageLoading, StageActivation}
    && f.reason in {CatalogContentInvalid, BenchmarkContentInvalid, ActivationFailed}
  }

  /** What a troubled container is reported as; waits come before exits. */
  predicate Explains(s: ContainerStatus, init: bool, f: Failure) {
    && (s.waiting in {Some(CreateContainerConfigError), Some(CreateContainerError), Some(RunContainerError)} ==>
          f == Failure(StageInitialization, CatalogContainerFailed))
    && (s.waiting == Some(InvalidImageName) ==> f == Failure(StagePull, DataImagePullFailed))
    && (RetryableWait(s) ==> f == Failure(StagePull, DataImagePullRetrying))
    && (!TerminalWait(s) && !RetryableWait(s) ==>
          if !init then f == Failure(StageActivation, CatalogRestarting)
          else if s.name != ContentValidation then f == Failure(StageInitialization, DataImageInitializationFailed)
          else if ExitReport(s).Some? && TrustedReport(ExitReport(s).value) then f == ExitReport(s).value
          else f == Failure(StageActivation, CatalogStartupFailed))
  }

  lemma ContainerExplained(s: ContainerStatus, init: bool)
    ensures ContainerFailure(s, init).Some? <==> Trouble(s)
    ensures Trouble(s) ==> Explains(s, init, ContainerFailure(s, init).value)
  {
  }

  lemma {:induction false} FirstFailureExplained(statuses: seq<ContainerStatus>, init: bool)
    ensures FirstFailure(statuses, init).None? <==> Untroubled(statuses, init)
    ensures forall i: nat :: FirstTrouble(statuses, init, i) ==>
              FirstFailure(statuses, init).Some? && Explains(statuses[i], init, FirstFailure(statuses, init).value)
  {
    if statuses != [] {
      var rest := statuses[1..];
      ContainerExplained(statuses[0], init);
      FirstFailureExplained(rest, init);
      if Untroubled(statuses, init) {
        assert forall j :: 0 <= j < |rest| ==> rest[j] == statuses[j + 1];
      } else if Untroubled(rest, init) {
        assert forall j :: 0 < j < |statuses| ==> statuses[j] == rest[j - 1];
      }
      forall i: nat | FirstTrouble(statuses, init, i)
        ensures FirstFailure(statuses, init).Some? && Explains(statuses[i], init, FirstFailure(statuses, init).value)
      {
        if i > 0 {
          assert rest[i - 1] == statuses[i] && forall j :: 0 <= j < i - 1 ==> rest[j] == statuses[j + 1];
          assert FirstTrouble(rest, init, i - 1);
        }
      }
    }
  }

  lemma {:induction false} TroubleHasAFirst(statuses: seq<ContainerStatus>, init: bool) returns (i: nat)
    requires !Untroubled(statuses, init)
    ensures FirstTrouble(statuses, init, i)
  {
    i := 0;
    while !(Watched(statuses[i], init) && Trouble(statuses[i]))
      invariant i < |statuses| && forall j :: 0 <= j < i ==> !(Watched(statuses[j], init) && Trouble(statuses[j]))
      decreases |statuses| - i
    {
      i := i + 1;
    }
  }

  // ----- Pods -----

  /** The status that speaks for a pod: the init containers come first. */
  ghost predicate Speaks(pod: Pod, init: bool, s: ContainerStatus) {
    if init then exists i: nat :: FirstTrouble(pod.initStatuses, true, i) && pod.initStatuses[i] == s
    else
      && Untroubled(pod.initStatuses, true)
      && exists i: nat :: FirstTrouble(pod.statuses, false, i) && pod.statuses[i] == s
  }

  /** A pod reports exactly its failed phase, or the first troubled container, init
      containers first, or nothing. */
  lemma PodReportsExactly(pod: Pod, f: Failure)
    ensures PodFailure(pod) == Some(f) <==>
              if pod.phaseFailed then f == Failure(StageActivation, CatalogPodFailed)
              else exists init, s :: Speaks(pod, init, s) && Explains(s, init, f)
    ensures PodFailure(pod).None? <==>
              !pod.phaseFailed && Untroubled(pod.initStatuses, true) && Untroubled(pod.statuses, false)
  {
    FirstFailureExplained(pod.initStatuses, true);
    FirstFailureExplained(pod.statuses, false);
    if !pod.phaseFailed && PodFailure(pod) == Some(f) {
      if !Untroubled(pod.initStatuses, true) {
        var i := TroubleHasAFirst(pod.initStatuses, true);
        assert Speaks(pod, true, pod.initStatuses[i]);
      } else {
        var i := TroubleHasAFirst(pod.statuses, false);
        assert Speaks(pod, false, pod.statuses[i]);
      }
    }
    if !pod.phaseFailed && exists init, s :: Speaks(pod, init, s) && Explains(s, init, f) {
      var init, s :| Speaks(pod, init, s) && Explains(s, init, f);
      SpeakerDecides(pod, init, s);
      ExplanationIsUnique(s, init, f, PodFailure(pod).value);
    }
  }

  lemma ExplanationIsUnique(s: ContainerStatus, init: bool, f: Failure, g: Failure)
    requires Explains(s, init, f) && Explains(s, init, g)
    ensures f == g
  {
  }

  /** The class of a pod: terminal for a failed phase, a container that cannot start and a
      failed init container; retrying for a pull that is retried and a restarting process. */
  lemma PodClassExactly(pod: Pod)
    ensures ClassOf(PodFailure(pod)) == TerminalVerdict <==>
              || pod.phaseFailed
              || (exists s :: Speaks(pod, true, s) && !RetryableWait(s))
              || (exists s :: Speaks(pod, false, s) && TerminalWait(s))
    ensures ClassOf(PodFailure(pod)) == RetryingVerdict <==>
              && !pod.phaseFailed
              && (|| (exists s :: Speaks(pod, true, s) && RetryableWait(s))
                  || (exists s :: Speaks(pod, false, s) && !TerminalWait(s)))
    ensures ClassOf(PodFailure(pod)) == NoVerdict <==>
              !pod.phaseFailed && Untroubled(pod.initStatuses, true) && Untroubled(pod.statuses, false)
  {
    if !pod.phaseFailed {
      if !Untroubled(pod.initStatuses, true) {
        var i := TroubleHasAFirst(pod.initStatuses, true);
        SpeakerDecides(pod, true, pod.initStatuses[i]);
      } else if !Untroubled(pod.statuses, false) {
        var i := TroubleHasAFirst(pod.statuses, false);
        SpeakerDecides(pod, false, pod.statuses[i]);
      } else {
        FirstFailureExplained(pod.initStatuses, true);
        FirstFailureExplained(pod.statuses, false);
      }
    }
  }

  /** A pod counts for the list's verdict exactly with the class of its own, if eligible. */
  lemma ReportsExactly(pod: Pod, template: PodSpec, attempt: Option<string>)
    ensures ReportsTerminal(pod, template, attempt) <==>
              Eligible(pod, template, attempt) && ClassOf(PodFailure(pod)) == TerminalVerdict
    ensures ReportsRetryable(pod, template, attempt) <==>
              Eligible(pod, template, attempt) && ClassOf(PodFailure(pod)) == RetryingVerdict
  {
  }

  lemma SpeakerDecides(pod: Pod, init: bool, s: ContainerStatus)
    requires !pod.phaseFailed && Speaks(pod, init, s)
    ensures PodFailure(pod).Some? && Explains(s, init, PodFailure(pod).value)
    ensures forall i, t :: Speaks(pod, i, t) ==> i == init && t == s
    ensures Retryable(PodFailure(pod).value) <==> if init then RetryableWait(s) else !TerminalWait(s)
  {
    FirstFailureExplained(pod.initStatuses, true);
    FirstFailureExplained(pod.statuses, false);
  }

  // ----- Sanitized reports and images -----

  /** The reasons that survive sanitizing, and the stage each belongs to. */
  lemma SafeExactly(f: Failure)
    ensures Safe(f).reason ==
              if f.reason in {CatalogPodFailed, CatalogContainerFailed, DataImagePullFailed,
                  DataImageInitializationFailed,
                              CatalogContentInvalid, BenchmarkContentInvalid, ActivationFailed, ActivationTimedOut}
              then f.reason else CatalogStartupFailed
    ensures Safe(f).stage == StagePull <==> f.reason == DataImagePullFailed
    ensures Safe(f).stage == StageLoading <==> f.reason in {CatalogContentInvalid, BenchmarkContentInvalid}
    ensures Safe(f).stage == StageInitialization <==>
        f.reason in {CatalogContainerFailed, DataImageInitializationFailed}
    ensures Safe(f).stage in {StagePull, StageLoading, StageInitialization, StageActivation}
  {
  }

  predicate FirstNamed(containers: seq<Container>, name: ContainerName, i: nat) {
    i < |containers| && containers[i].name == name && forall j :: 0 <= j < i ==> containers[j].name != name
  }

  /** Both lists name such a container, first with the same image, which is not empty. */
  ghost predicate SameImage(pod: seq<Container>, desired: seq<Container>, name: ContainerName) {
    exists i: nat, j: nat :: FirstNamed(pod, name, i) && FirstNamed(desired, name, j)
                             && pod[i].image == desired[j].image != ""
  }

  lemma {:induction false} ImageOfFirst(containers: seq<Container>, name: ContainerName)
    ensures forall i: nat :: FirstNamed(containers, name, i) ==> ImageOf(containers, name) == containers[i].image
    ensures (exists i: nat :: FirstNamed(containers, name, i)) || ImageOf(containers, name) == ""
  {
    if containers != [] {
      var rest := containers[1..];
      ImageOfFirst(rest, name);
      if containers[0].name == name {
        assert FirstNamed(containers, name, 0);
      } else {
        forall i: nat | FirstNamed(containers, name, i)
          ensures ImageOf(containers, name) == containers[i].image
        {
          assert forall j :: 0 <= j < i - 1 ==> rest[j] == containers[j + 1];
          assert FirstNamed(rest, name, i - 1);
        }
        if i: nat :| FirstNamed(rest, name, i) {
          assert forall j :: 0 < j < i + 1 ==> containers[j] == rest[j - 1];
          assert FirstNamed(containers, name, i + 1);
        }
      }
    }
  }

  lemma SameImageExactly(pod: seq<Container>, desired: seq<Container>, name: ContainerName)
    ensures SameImage(pod, desired, name) <==>
        ImageOf(desired, name) != "" && ImageOf(pod, name) == ImageOf(desired, name)
  {
    ImageOfFirst(pod, name);
    ImageOfFirst(desired, name);
    if ImageOf(desired, name) != "" && ImageOf(pod, name) == ImageOf(desired, name) {
      var i: nat :| FirstNamed(pod, name, i);
      var j: nat :| FirstNamed(desired, name, j);
      assert pod[i].image == desired[j].image != "";
    }
  }

  /** A pod speaks for the attempt exactly if it is live, carries the attempt, and runs both
      data images and the catalog image of the template. */
  lemma EligibleExactly(pod: Pod, template: PodSpec, attempt: Option<string>)
    ensures Eligible(pod, template, attempt) <==>
              && !pod.deleting && (attempt.None? || pod.attempt == attempt.value)
              && SameImage(pod.spec.initContainers, template.initContainers, CatalogDataInit)
              && SameImage(pod.spec.initContainers, template.initContainers, BenchmarkDataInit)
              && SameImage(pod.spec.containers, template.containers, CatalogProcess)
  {
    SameImageExactly(pod.spec.initContainers, template.initContainers, CatalogDataInit);
    SameImageExactly(pod.spec.initContainers, template.initContainers, BenchmarkDataInit);
    SameImageExactly(pod.spec.containers, template.containers, CatalogProcess);
  }

  /** A pod certifies the attempt exactly if it is eligible, some validator entry ended with
      exit code zero, and the last entry of the catalog process is ready. */
  lemma ValidatedExactly(pod: Pod, template: PodSpec, attempt: string)
    ensures PodValidated(pod, template, attempt) <==>
              && Eligible(pod, template, Some(attempt))
              && (exists i :: 0 <= i < |pod.initStatuses| && pod.initStatuses[i].name == ContentValidation
                    && pod.initStatuses[i].terminated.Some? && pod.initStatuses[i].terminated.value.exitCode == 0)
              && (exists i :: 0 <= i < |pod.statuses| && pod.statuses[i].name == CatalogProcess && pod.statuses[i].ready
                    && forall j :: i < j < |pod.statuses| ==> pod.statuses[j].name != CatalogProcess)
  {
    LastReadyExactly(pod.statuses, CatalogProcess);
    if exists i :: 0 <= i < |pod.initStatuses| && ValidationSucceeded(pod.initStatuses[i]) {
      var i :| 0 <= i < |pod.initStatuses| && ValidationSucceeded(pod.initStatuses[i]);
      assert pod.initStatuses[i].name == ContentValidation;
    }
  }

  lemma {:induction false} LastReadyExactly(statuses: seq<ContainerStatus>, name: ContainerName)
    ensures LastReady(statuses, name) <==>
              exists i :: 0 <= i < |statuses| && statuses[i].name == name && statuses[i].ready
                && forall j :: i < j < |statuses| ==> statuses[j].name != name
  {
    if statuses != [] {
      var n := |statuses| - 1;
      LastReadyExactly(statuses[..n], name);
      if statuses[n].name != name {
        if i :| 0 <= i < n && statuses[..n][i].name == name && statuses[..n][i].ready
                && forall j :: i < j < n ==> statuses[..n][j].name != name {
          assert statuses[i].name == name;
          assert forall j :: i < j < n ==> statuses[j] == statuses[..n][j];
        }
        if i :| 0 <= i < n && statuses[i].name == name && statuses[i].ready
                && forall j :: i < j < |statuses| ==> statuses[j].name != name {
          assert statuses[..n][i].name == name;
        }
      }
    }
  }
}
