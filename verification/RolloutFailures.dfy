/** Failed attempts over concurrent reconciles: once published, a failure stays, and the
    only renders that bring its workload back are those of older statuses. */
module RolloutFailures {
  import opened CatalogTypes
  import opened Activation
  import opened DataImages
  import opened ImageResolution
  import opened RolloutProtocol
  import opened RolloutSafety

  predicate IsFailed(s: CatalogStatus) {
    s.activation.Some? && s.activation.value.state == Failed
  }

  /** A version that publishes the failure of this attempt. */
  predicate PublishesFailure(v: CatalogVersion, attempt: string) {
    v.Stored? && IsFailed(v.status) && v.status.activation.value.attemptID == attempt
  }

  /** No later version of the attempt takes its failure back. */
  ghost predicate FailureSticks(catalogs: seq<CatalogVersion>) {
    forall i, j, x ::
      0 <= i <= j < |catalogs| && PublishesFailure(catalogs[i], x) && AttemptAt(catalogs[j]) == Some(x) ==>
        PublishesFailure(catalogs[j], x)
  }

  /** A prepared status does not take back the failure of the version it started from. */
  predicate KeepsFailure(catalogs: seq<CatalogVersion>, k: Worker) {
    k.Prepared? && k.snapshot < |catalogs| && catalogs[k.snapshot].Stored? && IsFailed(catalogs[k.snapshot].status)
    && AttemptOf(k.status) == AttemptAt(catalogs[k.snapshot]) ==>
      IsFailed(k.status)
  }

  ghost predicate Latched(c: Cluster) {
    && FailureSticks(c.server.catalogs)
    && forall w :: 0 <= w < |c.workers| ==> KeepsFailure(c.server.catalogs, c.workers[w])
  }

  /** A version of no attempt, of a new one, or of the current one with its failure. */
  ghost predicate Continues(catalogs: seq<CatalogVersion>, v: CatalogVersion)
    requires catalogs != []
  {
    || AttemptAt(v).None?
    || AttemptAt(v).value !in PublicationOrder(catalogs)
    || (&& AttemptAt(v) == AttemptAt(Current(catalogs))
        && (PublishesFailure(Current(catalogs), AttemptAt(v).value) ==> PublishesFailure(v, AttemptAt(v).value)))
  }

  lemma ContinuationSticks(catalogs: seq<CatalogVersion>, v: CatalogVersion)
    requires catalogs != [] && FailureSticks(catalogs) && Continues(catalogs, v)
    ensures FailureSticks(catalogs + [v])
  {
    var all, n := catalogs + [v], |catalogs|;
    forall i, j, x | 0 <= i <= j < |all| && PublishesFailure(all[i], x) && AttemptAt(all[j]) == Some(x)
      ensures PublishesFailure(all[j], x)
    {
      if j < n {
        assert PublishesFailure(catalogs[i], x) && AttemptAt(catalogs[j]) == Some(x);
      } else if i < n {
        HeldIsPublished(catalogs, i);
        assert PublishesFailure(catalogs[i], x) && AttemptAt(catalogs[n - 1]) == Some(x);
      }
    }
  }

  /** One worker moves; the others only see the history grow. */
  lemma MoveKeepsLatch(c: Cluster, t: Server, w: nat, next: Worker)
    requires Latched(c) && WorkersSnapshots(c) && w < |c.workers|
    requires c.server.catalogs <= t.catalogs && FailureSticks(t.catalogs) && KeepsFailure(t.catalogs, next)
    ensures Latched(Move(c, t, w, next))
  {
    forall u | 0 <= u < |c.workers| && u != w
      ensures KeepsFailure(t.catalogs, c.workers[u])
    {
      assert KeepsFailure(c.server.catalogs, c.workers[u]);
      assert SnapshotExists(c.server.catalogs, c.workers[u]);
    }
  }

  predicate SnapshotExists(catalogs: seq<CatalogVersion>, k: Worker) {
    k.Prepared? ==> k.snapshot < |catalogs|
  }

  predicate WorkersSnapshots(c: Cluster) {
    forall w :: 0 <= w < |c.workers| ==> SnapshotExists(c.server.catalogs, c.workers[w])
  }

  lemma SoundSnapshots(c: Cluster)
    requires Sound(c)
    ensures WorkersSnapshots(c)
  {
    forall w | 0 <= w < |c.workers|
      ensures SnapshotExists(c.server.catalogs, c.workers[w])
    {
      assert WorkerSound(c.server, c.workers[w]);
    }
  }

  /** Preparation keeps the failure of an attempt it keeps. */
  lemma PreparationKeepsFailure(v: CatalogVersion, runtime: Runtime, seen: ResolutionReads, nonce: string, now: int)
    requires v.Stored? && IsFailed(v.status) && nonce != v.status.activation.value.attemptID
    ensures var p := PrepareAfter(v.status, v.meta, runtime, seen, nonce, now);
            AttemptOf(p) == AttemptAt(v) ==> IsFailed(p)
  {
    assert Resolve(v.status, v.meta, seen).activation == v.status.activation;
  }

  lemma BeginKeepsLatch(c: Cluster, step: Step)
    requires Sound(c) && Latched(c) && Enabled(c, step) && step.Begin?
    requires forall w :: 0 <= w < |c.workers| ==> WorkerWellFormed(c.server, c.workers[w])
    ensures Latched(After(c, step))
  {
    var v := c.server.catalogs[step.snapshot];
    var next := BeginWith(v, step.runtime, step.seen, step.nonce, step.now, step.snapshot);
    if IsFailed(v.status) {
      HeldIsPublished(c.server.catalogs, step.snapshot);
      assert v.status.activation.value.attemptID in c.server.issued;
      PreparationKeepsFailure(v, step.runtime, step.seen, step.nonce, step.now);
    }
    SoundSnapshots(c);
    MoveKeepsLatch(c, c.server.(issued := c.server.issued + {step.nonce}), step.worker, next);
  }

  lemma PublishKeepsLatch(c: Cluster, w: nat)
    requires Sound(c) && Latched(c) && w < |c.workers| && c.workers[w].Prepared?
        && WorkerWellFormed(c.server, c.workers[w])
    ensures Latched(PublishBy(c, w))
  {
    var s, p, d := c.server, c.workers[w], PublishBy(c, w);
    assert WorkerSound(s, p) && KeepsFailure(s.catalogs, p);
    if p.status != s.catalogs[p.snapshot].status && p.snapshot == |s.catalogs| - 1 {
      ContinuationSticks(s.catalogs, Stored(s.catalogs[p.snapshot].meta, Runs.StoredStatus(p.status)));
    }
    SoundSnapshots(c);
    MoveKeepsLatch(c, d.server, w, d.workers[w]);
  }

  /** Neither observation nor the second write takes a failure back. */
  lemma SecondWriteKeepsFailure(meta: CatalogMeta, first: CatalogStatus, observation: Runs.Step, stored: CatalogStatus)
    requires SecondWrite(meta, first, observation, stored) && first.activation.Some?
    ensures AttemptOf(stored) == AttemptOf(first) && (IsFailed(first) ==> IsFailed(stored))
  {
  }

  lemma ObserveKeepsLatch(c: Cluster, w: nat, observation: Runs.Step, stored: CatalogStatus, writes: bool)
    requires Sound(c) && Latched(c) && w < |c.workers| && c.workers[w].Observing?
        && WorkerWellFormed(c.server, c.workers[w])
    requires var v := c.server.catalogs[c.workers[w].version]; SecondWrite(v.meta, v.status, observation, stored)
    ensures Latched(ObserveBy(c, w, observation, stored, writes))
  {
    var s, k, d := c.server, c.workers[w], ObserveBy(c, w, observation, stored, writes);
    var base := s.catalogs[k.version];
    SecondWriteKeepsFailure(base.meta, base.status, observation, stored);
    if writes && k.version == |s.catalogs| - 1 {
      ContinuationSticks(s.catalogs, Stored(base.meta, stored));
    }
    SoundSnapshots(c);
    MoveKeepsLatch(c, d.server, w, d.workers[w]);
  }

  lemma OthersKeepLatch(c: Cluster, step: Step)
    requires Sound(c) && Latched(c) && Enabled(c, step) && !WorkerStep(step)
    requires forall w :: 0 <= w < |c.workers| ==> WorkerWellFormed(c.server, c.workers[w])
    ensures Latched(After(c, step))
  {
    var s, d := c.server, After(c, step);
    if !step.DeleteDeployment? && !step.ScaleDeployment? {
      ContinuationSticks(s.catalogs, Current(d.server.catalogs));
    }
    SoundSnapshots(c);
    forall w | 0 <= w < |c.workers|
      ensures KeepsFailure(d.server.catalogs, c.workers[w])
    {
      assert KeepsFailure(s.catalogs, c.workers[w]) && SnapshotExists(s.catalogs, c.workers[w]);
    }
  }

  lemma RenderKeepsLatch(c: Cluster, w: nat, read: nat)
    requires Sound(c) && Latched(c) && w < |c.workers| && c.workers[w].Rendering? && read < |c.server.deployments|
    ensures Latched(RenderBy(c, w, read))
  {
    var d := RenderBy(c, w, read);
    SoundSnapshots(c);
    MoveKeepsLatch(c, d.server, w, d.workers[w]);
  }

  lemma ContainKeepsLatch(c: Cluster, step: Step)
    requires Sound(c) && Latched(c) && Enabled(c, step)
    requires step.FirstCheck? || step.ReadDeployment? || step.SecondCheck? || step.Scale?
    requires WorkerWellFormed(c.server, c.workers[step.worker])
    ensures Latched(ContainBy(c, step))
  {
    var d := ContainBy(c, step);
    SoundSnapshots(c);
    MoveKeepsLatch(c, d.server, step.worker, d.workers[step.worker]);
  }

  lemma AbandonKeepsLatch(c: Cluster, w: nat)
    requires Sound(c) && Latched(c) && w < |c.workers|
    ensures Latched(Move(c, c.server, w, Idle))
  {
    SoundSnapshots(c);
    MoveKeepsLatch(c, c.server, w, Idle);
  }

  lemma StepKeepsLatch(c: Cluster, step: Step)
    requires Sound(c) && Latched(c) && Enabled(c, step)
    requires forall w :: 0 <= w < |c.workers| ==> WorkerWellFormed(c.server, c.workers[w])
    ensures Latched(After(c, step))
  {
    match step
    case Begin(_, _, _, _, _, _) => BeginKeepsLatch(c, step);
    case Publish(w) => PublishKeepsLatch(c, w);
    case Render(w, read) => RenderKeepsLatch(c, w, read);
    case Observe(w, observation, stored, writes) => ObserveKeepsLatch(c, w, observation, stored, writes);
    case FirstCheck(_) => ContainKeepsLatch(c, step);
    case ReadDeployment(_, _) => ContainKeepsLatch(c, step);
    case SecondCheck(_) => ContainKeepsLatch(c, step);
    case Scale(_) => ContainKeepsLatch(c, step);
    case Abandon(w) => AbandonKeepsLatch(c, w);
    case _ => OthersKeepLatch(c, step);
  }

  lemma FollowingKeepsLatch(c: Cluster, step: Step, d: Cluster)
    requires Sound(c) && Latched(c) && Follows(c, step, d)
    ensures Latched(d)
  {
    StepKeepsLatch(c, step);
  }

  lemma {:induction false} RunsStayLatched(clusters: seq<Cluster>, steps: seq<Step>, i: nat)
    requires IsRun(clusters, steps) && i < |clusters|
    ensures Latched(clusters[i])
  {
    if i > 0 {
      RunsStayLatched(clusters, steps, i - 1);
      RunsStaySound(clusters, steps, i - 1);
      assert Follows(clusters[i - 1], steps[i - 1], clusters[i]);
      FollowingKeepsLatch(clusters[i - 1], steps[i - 1], clusters[i]);
    }
  }

  /** In every interleaving, a render of an attempt whose failure is published starts
      replicas if and only if the status it renders from is older than that failure. */
  lemma FailedAttemptRestartsExactly(clusters: seq<Cluster>, steps: seq<Step>, i: nat, failure: nat)
    requires IsRun(clusters, steps) && i < |steps| && steps[i].Render?
    requires var c := clusters[i];
             && steps[i].worker < |c.workers| && c.workers[steps[i].worker].Rendering? && failure < |c.server.catalogs|
             && var x := c.workers[steps[i].worker].params.activationAttempt;
                && PublishesFailure(c.server.catalogs[failure], x)
                && forall k :: 0 <= k < failure ==> !PublishesFailure(c.server.catalogs[k], x)
    ensures var r := clusters[i].workers[steps[i].worker];
            RenderedReplicas(r.params) > 0 <==> r.version < failure
  {
    var c := clusters[i];
    var r := c.workers[steps[i].worker];
    RunsStaySound(clusters, steps, i);
    RunsStayLatched(clusters, steps, i);
    assert WorkerSound(c.server, r);
    assert r.params.activationBlocked <==> PublishesFailure(c.server.catalogs[r.version], r.params.activationAttempt);
  }

  /** A status that preparation leaves as it is. */
  predicate IsSettled(v: CatalogVersion, runtime: Runtime, seen: ResolutionReads, nonce: string, now: int) {
    v.Stored? && PrepareAfter(v.status, v.meta, runtime, seen, nonce, now) == v.status
        && !Blocks(v.status, v.meta, seen)
  }

  /** Nothing is written for a settled status, so nothing can conflict. */
  lemma SettledIsNotWritten(c: Cluster, w: nat, snapshot: nat, params: Params)
    requires Sound(c) && w < |c.workers| && snapshot < |c.server.catalogs| && c.server.catalogs[snapshot].Stored?
    requires c.workers[w] == Prepared(snapshot, c.server.catalogs[snapshot].status, params, false)
    ensures Follows(c, Publish(w), PublishBy(c, w))
    ensures PublishBy(c, w) == Move(c, c.server, w, Rendering(snapshot, snapshot, params))
  {
    WorkersWellFormed(c);
  }

  /** The render of a version that is not failed starts one replica. */
  lemma RenderStartsReplica(c: Cluster, w: nat, version: nat, params: Params)
    requires Sound(c) && w < |c.workers| && c.workers[w] == Rendering(version, version, params)
    requires version < |c.server.catalogs| && RendersFrom(params, c.server.catalogs[version].status)
    requires !IsFailed(c.server.catalogs[version].status)
    requires Current(c.server.deployments) == Applied(params.activationAttempt, params.images, 0)
    ensures var last := |c.server.deployments| - 1;
            && Follows(c, Render(w, last), RenderBy(c, w, last))
            && RenderBy(c, w, last).server == Apply(c.server, Applied(params.activationAttempt, params.images, 1))
  {
    WorkersWellFormed(c);
  }

  lemma SettledBegins(
    c: Cluster, w: nat, snapshot: nat, runtime: Runtime, seen: ResolutionReads, nonce: string, now: int)
    returns (begun: Cluster)
    requires Sound(c) && w < |c.workers| && c.workers[w].Idle? && nonce !in c.server.issued
    requires snapshot < |c.server.catalogs| && IsSettled(c.server.catalogs[snapshot], runtime, seen, nonce, now)
    ensures Follows(c, Begin(w, snapshot, runtime, seen, nonce, now), begun) && Sound(begun)
    ensures begun.server == c.server.(issued := c.server.issued + {nonce}) && |begun.workers| == |c.workers|
    ensures begun.workers[w].Prepared?
    ensures begun.workers[w] == Prepared(snapshot, c.server.catalogs[snapshot].status, begun.workers[w].params, false)
    ensures RendersFrom(begun.workers[w].params, c.server.catalogs[snapshot].status)
  {
    var step := Begin(w, snapshot, runtime, seen, nonce, now);
    StepKeepsSound(c, step);
    begun := After(c, step);
    assert WorkerSound(begun.server, begun.workers[w]);
  }

  /** Such renders happen: from every sound cluster in which the failed attempt has been
      contained, a reconcile that starts from an older, settled version of it publishes
      nothing, so nothing conflicts, and starts the workload again. */
  lemma StaleReconcileRestartsFailed(
    c: Cluster, w: nat, snapshot: nat, runtime: Runtime, seen: ResolutionReads, nonce: string, now: int)
    returns (begun: Cluster, published: Cluster, rendered: Cluster)
    requires Sound(c) && w < |c.workers| && c.workers[w].Idle? && nonce !in c.server.issued
    requires snapshot < |c.server.catalogs| && IsSettled(c.server.catalogs[snapshot], runtime, seen, nonce, now)
    requires var s := c.server.catalogs[snapshot].status;
             && s.activation.Some? && !IsFailed(s)
             && PublishesFailure(Current(c.server.catalogs), s.activation.value.attemptID)
             && Current(c.server.deployments) == Applied(s.activation.value.attemptID, s.activation.value.images, 0)
    ensures Follows(c, Begin(w, snapshot, runtime, seen, nonce, now), begun)
    ensures Follows(begun, Publish(w), published)
    ensures Follows(published, Render(w, |c.server.deployments| - 1), rendered)
    ensures var a := c.server.catalogs[snapshot].status.activation.value;
            && rendered.server.catalogs == c.server.catalogs
            && rendered.server.deployments == c.server.deployments + [Applied(a.attemptID, a.images, 1)]
  {
    begun := SettledBegins(c, w, snapshot, runtime, seen, nonce, now);
    var params := begun.workers[w].params;
    SettledIsNotWritten(begun, w, snapshot, params);
    published := PublishBy(begun, w);
    PublishKeepsSound(begun, w);
    RenderStartsReplica(published, w, snapshot, params);
    rendered := RenderBy(published, w, |c.server.deployments| - 1);
  }
}
