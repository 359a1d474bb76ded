/** Runs of one attempt: its failure latch, its deadline and its recovery window.
    Times are nanoseconds; the API server stores them as whole seconds. */
module RecoveryWindow {
  import opened CatalogTypes
  import opened PodEvidence
  import opened DeploymentStatus
  import opened Activation

  function WholeSecond(t: int): int {
    t - t % Second
  }

  /** The attempt as read back from a stored status. */
  function Stored(a: Attempt): Attempt {
    a.(startedAt := WholeSecond(a.startedAt),
       recoveredAt := if a.recoveredAt.Some? then Some(WholeSecond(a.recoveredAt.value)) else None)
  }

  /** What happens to an attempt whose request does not change. */
  datatype Step =
    | Prepare(resolved: Condition)
    | Observe(failure: Option<Failure>, ready: bool, now: int)
    | Store

  function After(a: Attempt, step: Step): Attempt {
    match step
    case Prepare(resolved) => Gated(a, resolved)
    case Observe(failure, ready, now) => ObservedAttempt(a, failure, ready, now)
    case Store => Stored(a)
  }

  function Run(a: Attempt, steps: seq<Step>): Attempt
    decreases |steps|
  {
    if steps == [] then a else Run(After(a, steps[0]), steps[1..])
  }

  lemma {:induction false} RunSplits(a: Attempt, steps: seq<Step>, i: nat)
    requires i <= |steps|
    ensures Run(a, steps) == Run(Run(a, steps[..i]), steps[i..])
    decreases |steps|
  {
    if i > 0 {
      assert steps[..i][1..] == steps[1..][..i - 1] && steps[i..] == steps[1..][i - 1..];
      RunSplits(After(a, steps[0]), steps[1..], i - 1);
    } else {
      assert steps[i..] == steps;
    }
  }

  lemma RunPrefix(a: Attempt, steps: seq<Step>, i: nat)
    requires 0 < i <= |steps|
    ensures Run(a, steps[..i]) == Run(After(a, steps[0]), steps[1..][..i - 1])
  {
    assert steps[..i][1..] == steps[1..][..i - 1];
  }

  /** Observation times never decrease. */
  predicate Timed(steps: seq<Step>, clock: int) {
    steps == [] ||
    if steps[0].Observe? then clock <= steps[0].now && Timed(steps[1..], steps[0].now) else Timed(steps[1..], clock)
  }

  lemma {:induction false} TimedAt(steps: seq<Step>, clock: int, i: nat)
    requires Timed(steps, clock) && i < |steps|
    ensures steps[i].Observe? ==> clock <= steps[i].now && Timed(steps[i + 1..], steps[i].now)
  {
    if i > 0 {
      TimedAt(steps[1..], if steps[0].Observe? then steps[0].now else clock, i - 1);
      assert steps[1..][i..] == steps[i + 1..];
    }
  }

  predicate OwnSuccess(a: Attempt) {
    a.lastSuccessful.Some? && a.lastSuccessful.value.attemptID == a.attemptID
  }

  /** Only certification makes an attempt Succeeded. */
  predicate SucceededIsCertified(a: Attempt) {
    a.state == Succeeded ==> OwnSuccess(a)
  }

  lemma {:induction false} CertifiedThroughout(a: Attempt, steps: seq<Step>)
    requires SucceededIsCertified(a)
    ensures SucceededIsCertified(Run(a, steps))
    decreases |steps|
  {
    if steps != [] {
      CertifiedThroughout(After(a, steps[0]), steps[1..]);
    }
  }

  /** A failed attempt keeps its identity, its images and its verdict whatever the
      pods, the clock and the images do, and every render of it has no replicas. */
  lemma {:induction false} FailureLatches(a: Attempt, steps: seq<Step>)
    requires a.state == Failed
    ensures var b := Run(a, steps);
            && b.state == Failed && b.attemptID == a.attemptID && b.requestHash == a.requestHash
            && b.images == a.images && b.lastSuccessful == a.lastSuccessful
            && forall params :: RenderedReplicas(RenderParams(params, b)) == 0
    decreases |steps|
  {
    if steps != [] {
      FailureLatches(After(a, steps[0]), steps[1..]);
    }
  }

  /** Stage and reason are those of an already sanitized failure. */
  predicate Sanitized(a: Attempt) {
    a.state == Failed && NormalizedFailure(a) == a
  }

  lemma {:induction false} VerdictSettled(a: Attempt, steps: seq<Step>)
    requires Sanitized(a)
    ensures Run(a, steps).stage == a.stage && Run(a, steps).reason == a.reason
    decreases |steps|
  {
    if steps != [] {
      VerdictSettled(After(a, steps[0]), steps[1..]);
    }
  }

  /** One observation settles the published stage and reason of a failure for good. */
  lemma FailureVerdictSettles(a: Attempt, first: Step, steps: seq<Step>)
    requires a.state == Failed && first.Observe?
    ensures var b := Run(After(a, first), steps); b.stage == After(a, first).stage && b.reason == After(a, first).reason
  {
    SafeIsTerminalFixpoint(Failure(a.stage, a.reason));
    VerdictSettled(After(a, first), steps);
  }

  /** After every observation a pending attempt is at most ten minutes old. */
  lemma PendingIsWithinDeadline(a: Attempt, failure: Option<Failure>, ready: bool, now: int)
    ensures var b := ObservedAttempt(a, failure, ready, now); b.state == Pending ==> now - b.startedAt <= TenMinutes
  {
  }

  /** A retryable observation of an unready workload. */
  predicate IsRetry(step: Step) {
    step.Observe? && !step.ready && step.failure.Some? && Retryable(step.failure.value)
  }

  predicate IsRestart(a: Attempt, step: Step) {
    IsRetry(step) && RestartsDeadline(a, step.now)
  }

  /** Since the deadline was last restarted, at `t`, the attempt stays certified by
      itself and records every recovery. */
  predicate RecordsRecovery(a: Attempt, t: int, exact: bool) {
    && OwnSuccess(a)
    && (a.state == Succeeded ==>
          && a.recoveredAt.Some? && a.recoveredAt.value >= WholeSecond(t)
          && (exact ==> a.recoveredAt.value >= t))
  }

  lemma WholeSecondMonotone(s: int, t: int)
    requires s <= t
    ensures WholeSecond(s) <= WholeSecond(t) && WholeSecond(WholeSecond(t)) == WholeSecond(t)
    ensures t - Second < WholeSecond(t) <= t
  {
    var a, b := s / Second, t / Second;
    assert a <= b;
    assert WholeSecond(s) == a * Second && WholeSecond(t) == b * Second;
  }

  lemma KeepsRecordingRecovery(a: Attempt, step: Step, t: int, exact: bool)
    requires RecordsRecovery(a, t, exact) && !IsRestart(a, step)
    requires step.Observe? ==> t <= step.now
    requires exact ==> !step.Store?
    ensures RecordsRecovery(After(a, step), t, exact)
  {
    if step.Store? {
      if a.recoveredAt.Some? {
        WholeSecondMonotone(t, t);
        if a.recoveredAt.value >= WholeSecond(t) {
          WholeSecondMonotone(WholeSecond(t), a.recoveredAt.value);
        }
      }
    } else if step.Observe? {
      WholeSecondMonotone(t, step.now);
    }
  }

  lemma {:induction false} NextRestartIsLate(a: Attempt, steps: seq<Step>, t: int, exact: bool, j: nat)
    requires RecordsRecovery(a, t, exact) && Timed(steps, t)
    requires exact ==> Store !in steps
    requires j < |steps| && IsRestart(Run(a, steps[..j]), steps[j])
    ensures steps[j].now >= WholeSecond(t) + TenMinutes
    ensures exact ==> steps[j].now >= t + TenMinutes
    decreases |steps|
  {
    if j == 0 {
      assert steps[..0] == [];
    } else if IsRestart(a, steps[0]) {
      TimedAt(steps[1..], steps[0].now, j - 1);
    } else {
      KeepsRecordingRecovery(a, steps[0], t, exact);
      RunPrefix(a, steps, j);
      assert Timed(steps[1..], t) by {
        if steps[0].Observe? {
          TimedWeaken(steps[1..], steps[0].now, t);
        }
      }
      NextRestartIsLate(After(a, steps[0]), steps[1..], t, exact, j - 1);
    }
  }

  lemma {:induction false} TimedWeaken(steps: seq<Step>, clock: int, earlier: int)
    requires Timed(steps, clock) && earlier <= clock
    ensures Timed(steps, earlier)
  {
    if steps != [] && !steps[0].Observe? {
      TimedWeaken(steps[1..], clock, earlier);
    }
  }

  /** Any two restarts of the recovery deadline within one attempt are at least ten
      minutes apart, counted from the stored second of the earlier one; without a
      round trip through the API server they are ten full minutes apart. */
  lemma RestartsAreTenMinutesApart(a: Attempt, steps: seq<Step>, clock: int, i: nat, j: nat)
    requires SucceededIsCertified(a) && Timed(steps, clock)
    requires i < j < |steps|
    requires IsRestart(Run(a, steps[..i]), steps[i]) && IsRestart(Run(a, steps[..j]), steps[j])
    ensures steps[j].now >= WholeSecond(steps[i].now) + TenMinutes
    ensures Store !in steps ==> steps[j].now >= steps[i].now + TenMinutes
  {
    var before := Run(a, steps[..i]);
    CertifiedThroughout(a, steps[..i]);
    var after, rest := After(before, steps[i]), steps[i + 1..];
    TimedAt(steps, clock, i);
    var upto := steps[..j];
    RunSplits(a, upto, i);
    assert upto[..i] == steps[..i];
    assert upto[i..][0] == steps[i] && upto[i..][1..] == rest[..j - i - 1];
    assert Run(a, upto) == Run(after, rest[..j - i - 1]);
    NextRestartIsLate(after, rest, steps[i].now, Store !in steps, j - i - 1);
  }

  const PullRetry := Some(Failure(StagePull, DataImagePullRetrying))

  /** A retry, an immediate recovery that is stored, and a retry ten minutes after the
      stored second. */
  function ShortWindow(t: int): seq<Step> {
    [Observe(PullRetry, false, t), Observe(None, true, t), Store,
        Observe(PullRetry, false, WholeSecond(t) + TenMinutes)]
  }

  /** The whole-second storage is what costs the last fraction of a second: from every
      certified attempt that has not retried yet, the run restarts the deadline twice,
      ten minutes apart less the fraction that storage drops. */
  lemma StoredTimesShortenTheWindow(a: Attempt, t: int)
    requires a.state == Succeeded && OwnSuccess(a) && a.recoveredAt.None?
    ensures var steps := ShortWindow(t);
            && Timed(steps, t)
            && IsRestart(Run(a, steps[..0]), steps[0]) && IsRestart(Run(a, steps[..3]), steps[3])
            && steps[3].now - steps[0].now == TenMinutes - t % Second
  {
    var steps := ShortWindow(t);
    var a1 := After(a, steps[0]);
    var a2 := After(a1, steps[1]);
    var a3 := After(a2, steps[2]);
    assert a2.recoveredAt == Some(t) && a3.recoveredAt == Some(WholeSecond(t));
    assert steps[..0] == [] && steps[..3] == [steps[0], steps[1], steps[2]];
    RunThree(a, steps[..3]);
    WholeSecondMonotone(t, t);
    TimedFour(steps, t);
  }

  lemma RunThree(a: Attempt, steps: seq<Step>)
    requires |steps| == 3
    ensures Run(a, steps) == After(After(After(a, steps[0]), steps[1]), steps[2])
  {
    assert steps[1..][1..] == [steps[2]];
    assert Run(After(After(a, steps[0]), steps[1]), [steps[2]]) == After(After(After(a, steps[0]), steps[1]), steps[2]);
  }

  lemma TimedFour(steps: seq<Step>, t: int)
    requires steps == ShortWindow(t) && t <= steps[3].now
    ensures Timed(steps, t)
  {
    assert steps[1..] == [steps[1], Store, steps[3]] && steps[1..][1..] == [Store, steps[3]]
        && steps[1..][1..][1..] == [steps[3]];
    assert Timed([steps[3]], t);
    assert Timed([Store, steps[3]], t);
    assert Timed([steps[1], Store, steps[3]], t);
  }

  /** A run with a restart at `t` and another one less than ten minutes later. */
  ghost predicate RestartsEarly(a: Attempt, steps: seq<Step>, clock: int, i: int, j: int, t: int) {
    && SucceededIsCertified(a) && Timed(steps, clock) && 0 <= i < j < |steps|
    && IsRestart(Run(a, steps[..i]), steps[i]) && IsRestart(Run(a, steps[..j]), steps[j])
    && steps[i].now == t && steps[j].now < t + TenMinutes
  }

  /** Ten full minutes separate a restart at `t` from every later one, in every run with
      storage, if and only if `t` is a whole second. */
  lemma RestartSpacingExactly(t: int)
    ensures (forall a, steps, clock, i, j :: !RestartsEarly(a, steps, clock, i, j, t)) <==> t % Second == 0
  {
    if t % Second == 0 {
      forall a, steps, clock, i, j
        ensures !RestartsEarly(a, steps, clock, i, j, t)
      {
        if RestartsEarly(a, steps, clock, i, j, t) {
          RestartsAreTenMinutesApart(a, steps, clock, i, j);
        }
      }
    } else {
      var images := Images("", "");
      var a := Attempt("", "", Sha256(Request("", "", "", images, "", "", ConditionTrue, ReleaseDefault, [], false,
          "")), images, images,
                       Succeeded, StageActivation, WorkloadValidated, t, None, Some(Success("", "", images, t)));
      StoredTimesShortenTheWindow(a, t);
      assert RestartsEarly(a, ShortWindow(t), t, 0, 3, t);
    }
  }

  /** Neither a failure nor an unresolved selection. */
  predicate Undisturbing(step: Step) {
    (step.Observe? ==> step.failure.None?) && (step.Prepare? ==> step.resolved.status == ConditionTrue)
  }

  /** The window does not ask for uninterrupted health: reconciles without a reported
      failure, ready or not, leave the recovery record alone up to its whole second, so a
      retry restarts the deadline exactly ten minutes after the recovery even if the
      workload was unready ever since. */
  lemma {:induction false} UnreadyCountsAsHealthy(a: Attempt, steps: seq<Step>, now: int)
    requires a.state == Succeeded && OwnSuccess(a)
    requires forall i :: 0 <= i < |steps| ==> Undisturbing(steps[i])
    ensures var b := Run(a, steps);
            var kept := if Store in steps then Stored(a) else a;
            && b.state == Succeeded && OwnSuccess(b) && b.startedAt == kept.startedAt
                && b.recoveredAt == kept.recoveredAt
            && (IsRestart(b, Observe(PullRetry, false, now)) <==>
                kept.recoveredAt.None? || now - kept.recoveredAt.value >= TenMinutes)
    decreases |steps|
  {
    if steps != [] {
      var next := After(a, steps[0]);
      UnreadyCountsAsHealthy(next, steps[1..], now);
      assert Store in steps <==> steps[0] == Store || Store in steps[1..];
      StoredTwice(a);
    }
  }

  lemma StoredTwice(a: Attempt)
    ensures Stored(Stored(a)) == Stored(a)
  {
    WholeSecondMonotone(a.startedAt, a.startedAt);
    if a.recoveredAt.Some? {
      WholeSecondMonotone(a.recoveredAt.value, a.recoveredAt.value);
    }
  }

  /** Every recovery, counted from the first ready observation after a retry or a gated
      preparation, is followed by a retry less than ten minutes later, if by any. This
      is a condition on the observations alone. */
  predicate BriefRecoveries(steps: seq<Step>, recovered: Option<int>) {
    steps == [] ||
    match steps[0]
    case Store => BriefRecoveries(steps[1..], recovered)
    case Prepare(resolved) => BriefRecoveries(steps[1..], if resolved.status == ConditionTrue then recovered else None)
    case Observe(failure, ready, now) =>
      if failure.Some? && !Retryable(failure.value) then BriefRecoveries(steps[1..], recovered)
      else if ready then BriefRecoveries(steps[1..], if recovered.None? then Some(now) else recovered)
      else if failure.Some? then
        (recovered.Some? ==> now - WholeSecond(recovered.value) < TenMinutes) && BriefRecoveries(steps[1..], None)
      else BriefRecoveries(steps[1..], recovered)
  }

  /** The recovery under way, if any, is the one the attempt has recorded. */
  predicate Tracks(a: Attempt, recovered: Option<int>) {
    && OwnSuccess(a)
    && (a.state == Succeeded <==> recovered.Some?)
    && (recovered.Some? ==> a.recoveredAt.Some? && a.recoveredAt.value >= WholeSecond(recovered.value))
  }

  /** The original deadline `t`, up to whole seconds. */
  predicate KeepsDeadline(a: Attempt, t: int) {
    WholeSecond(t) <= a.startedAt <= t
  }

  lemma StoreKeepsDeadline(a: Attempt, recovered: Option<int>, t: int)
    requires Tracks(a, recovered) && KeepsDeadline(a, t)
    ensures Tracks(Stored(a), recovered) && KeepsDeadline(Stored(a), t)
  {
    WholeSecondMonotone(WholeSecond(t), a.startedAt);
    WholeSecondMonotone(a.startedAt, a.startedAt);
    WholeSecondMonotone(t, t);
    if recovered.Some? {
      WholeSecondMonotone(WholeSecond(recovered.value), a.recoveredAt.value);
      WholeSecondMonotone(recovered.value, recovered.value);
    }
  }

  /** Brief recoveries never move the deadline, and a retry past it fails the attempt. */
  lemma {:induction false} BriefRecoveriesKeepDeadline(
    a: Attempt, steps: seq<Step>, recovered: Option<int>, t: int, j: nat)
    requires a.state == Failed || (Tracks(a, recovered) && KeepsDeadline(a, t))
    requires BriefRecoveries(steps, recovered) && j < |steps|
    ensures var b := Run(a, steps[..j]); b.state == Failed || KeepsDeadline(b, t)
    ensures IsRetry(steps[j]) && steps[j].now - t > TenMinutes ==> Run(a, steps[..j + 1]).state == Failed
    decreases |steps|
  {
    RunPrefix(a, steps, j + 1);
    if a.state == Failed {
      FailureLatches(a, steps[..j]);
      FailureLatches(a, steps[..j + 1]);
    } else {
      var b := After(a, steps[0]);
      if j == 0 {
        assert steps[..0] == [] && steps[1..][..0] == [];
      } else {
        RunPrefix(a, steps, j);
        var next := NextRecovery(steps[0], recovered);
        BriefStep(a, steps, recovered, t);
        BriefRecoveriesKeepDeadline(b, steps[1..], next, t, j - 1);
      }
    }
  }

  function NextRecovery(step: Step, recovered: Option<int>): Option<int> {
    match step
    case Store => recovered
    case Prepare(resolved) => if resolved.status == ConditionTrue then recovered else None
    case Observe(failure, ready, now) =>
      if failure.Some? && !Retryable(failure.value) then recovered
      else if ready then (if recovered.None? then Some(now) else recovered)
      else if failure.Some? then None
      else recovered
  }

  lemma BriefStep(a: Attempt, steps: seq<Step>, recovered: Option<int>, t: int)
    requires steps != [] && a.state != Failed && Tracks(a, recovered) && KeepsDeadline(a, t)
    requires BriefRecoveries(steps, recovered)
    ensures var b := After(a, steps[0]); var next := NextRecovery(steps[0], recovered);
            && BriefRecoveries(steps[1..], next)
            && (b.state == Failed || (Tracks(b, next) && KeepsDeadline(b, t)))
  {
    if steps[0].Store? {
      StoreKeepsDeadline(a, recovered, t);
    } else if steps[0].Observe? {
      WholeSecondMonotone(steps[0].now, steps[0].now);
    }
  }

  /** Flapping cannot outrun the deadline: while every recovery is brief, the deadline
      set by the first retry stands, and the first retry more than ten minutes after it
      leaves the attempt failed for good. */
  lemma FlappingCannotOutrunDeadline(a: Attempt, steps: seq<Step>, j: nat)
    requires a.state == Pending && OwnSuccess(a)
    requires BriefRecoveries(steps, None) && j < |steps|
    ensures var b := Run(a, steps[..j]); b.state == Failed || KeepsDeadline(b, a.startedAt)
    ensures IsRetry(steps[j]) && steps[j].now - a.startedAt > TenMinutes ==> Run(a, steps).state == Failed
  {
    WholeSecondMonotone(a.startedAt, a.startedAt);
    BriefRecoveriesKeepDeadline(a, steps, None, a.startedAt, j);
    RunSplits(a, steps, j + 1);
    if Run(a, steps[..j + 1]).state == Failed {
      FailureLatches(Run(a, steps[..j + 1]), steps[j + 1..]);
    }
  }

  /** With no failure reported, an unready observation ends a certified attempt exactly
      when the preparation before it found the images unresolved and the deadline has
      passed: an attempt on resolved images is never timed out. */
  lemma UnreadyEndsSucceededExactly(a: Attempt, resolved: Condition, now: int)
    requires a.state == Succeeded
    ensures var b := Run(a, [Prepare(resolved), Observe(None, false, now)]);
            b.state == Failed <==>
              || (resolved.status == ConditionFalse && resolved.reason != NoSuccessfulImport)
              || (resolved.status != ConditionTrue && now - a.startedAt > TenMinutes)
  {
    var g := Gated(a, resolved);
    var steps := [Prepare(resolved), Observe(None, false, now)];
    assert steps[1..] == [Observe(None, false, now)];
    assert Run(a, steps) == Run(g, steps[1..]) == ObservedAttempt(g, None, false, now);
  }
}
