/** Safety of every interleaving of reconciles: publish before apply, and containment
    that never stops a newer attempt. */
module RolloutSafety {
  import opened CatalogTypes
  import opened ImageStatus
  import opened Activation
  import opened DataImages
  import opened ImageResolution
  import opened RolloutProtocol

  /** An attempt and its image pair are held by a published status. */
  ghost predicate Held(catalogs: seq<CatalogVersion>, attempt: string, images: Images) {
    exists k :: 0 <= k < |catalogs| && Holding(catalogs[k], attempt, images)
  }

  predicate Holding(v: CatalogVersion, attempt: string, images: Images) {
    v.Stored? && v.status.activation.Some? && v.status.activation.value.attemptID == attempt
        && v.status.activation.value.images == images
  }

  predicate Distinct(order: seq<string>) {
    forall i, j :: 0 <= i < j < |order| ==> order[i] != order[j]
  }

  /** The current attempt is the one published last. */
  ghost predicate CurrentIsLatest(catalogs: seq<CatalogVersion>)
    requires catalogs != []
  {
    var current := AttemptAt(Current(catalogs));
    current.Some? ==> PublicationOrder(catalogs) != [] && Current(PublicationOrder(catalogs)) == current.value
  }

  /** The attempt that a preparing worker invented and nobody has published. */
  ghost predicate Invented(catalogs: seq<CatalogVersion>, k: Worker, attempt: string) {
    k.Prepared? && AttemptOf(k.status) == Some(attempt) && attempt !in PublicationOrder(catalogs)
  }

  /** A replaced attempt or an advanced generation was published as not Ready. */
  predicate PublishedNotReady(from: CatalogVersion, to: CatalogStatus) {
    from.Stored? && (AttemptOf(to) != AttemptOf(from.status)
        || !ObservedAt(from.status.conditions.activationReady, from.meta.generation)) ==>
      to.conditions.ready.Some? && to.conditions.ready.value.status == ConditionFalse
  }

  predicate RendersFrom(params: Params, status: CatalogStatus) {
    && status.activation.Some? && params.activationAttempt == status.activation.value.attemptID
    && params.images == status.activation.value.images
    && (params.activationBlocked <==> status.activation.value.state == Failed)
  }

  ghost predicate WorkerSound(s: Server, k: Worker) {
    && WorkerWellFormed(s, k)
    && match k
       case Prepared(snapshot, status, params, _) =>
         && RendersFrom(params, status) && PublishedNotReady(s.catalogs[snapshot], status)
             && WorkloadReasonSound(status.conditions)
         && (AttemptOf(status) == AttemptAt(s.catalogs[snapshot])
             || (status.activation.value.attemptID in s.issued
                 && Invented(s.catalogs, k, status.activation.value.attemptID)))
       case Rendering(snapshot, version, params) =>
         RendersFrom(params, s.catalogs[version].status) && PublishedNotReady(s.catalogs[snapshot],
             s.catalogs[version].status)
       case Scaling(_, status, read, checked) =>
         && 0 < checked <= |s.catalogs| && status.activation.Some?
         && var order := PublicationOrder(s.catalogs[..checked]);
            && order != [] && Current(order) == status.activation.value.attemptID
            && s.deployments[read].attempt in order
       case _ => true
  }

  ghost predicate HistorySound(s: Server) {
    && s.catalogs != [] && s.deployments != []
    && Distinct(PublicationOrder(s.catalogs)) && CurrentIsLatest(s.catalogs)
    && (forall x :: x in PublicationOrder(s.catalogs) ==> x in s.issued)
    && (forall k :: 0 <= k < |s.catalogs| && s.catalogs[k].Stored? ==>
        WorkloadReasonSound(s.catalogs[k].status.conditions))
    && (forall j :: 0 <= j < |s.deployments| && s.deployments[j].Applied? ==>
        Held(s.catalogs, s.deployments[j].attempt, s.deployments[j].images))
  }

  ghost predicate Sound(c: Cluster) {
    && HistorySound(c.server)
    && (forall w :: 0 <= w < |c.workers| ==> WorkerSound(c.server, c.workers[w]))
    && (forall v, w, x :: 0 <= v < w < |c.workers| ==>
          !(Invented(c.server.catalogs, c.workers[v], x) && Invented(c.server.catalogs, c.workers[w], x)))
  }

  lemma {:induction false} HeldIsPublished(catalogs: seq<CatalogVersion>, k: nat)
    requires k < |catalogs| && AttemptAt(catalogs[k]).Some?
    ensures AttemptAt(catalogs[k]).value in PublicationOrder(catalogs)
  {
    if k < |catalogs| - 1 {
      HeldIsPublished(catalogs[..|catalogs| - 1], k);
    }
  }

  lemma OrderAfterAppend(catalogs: seq<CatalogVersion>, v: CatalogVersion)
    ensures PublicationOrder(catalogs + [v]) == Extend(PublicationOrder(catalogs), AttemptAt(v))
  {
    assert (catalogs + [v])[..|catalogs|] == catalogs;
  }

  lemma {:induction false} OrderIsPrefix(catalogs: seq<CatalogVersion>, n: nat)
    requires n <= |catalogs|
    ensures PublicationOrder(catalogs[..n]) <= PublicationOrder(catalogs)
  {
    if n < |catalogs| {
      var shorter := catalogs[..|catalogs| - 1];
      OrderIsPrefix(shorter, n);
      assert shorter[..n] == catalogs[..n];
    } else {
      assert catalogs[..n] == catalogs;
    }
  }

  /** Containment never lands on a newer attempt: when the scale-down passes the lock,
      the Deployment it stops carries the failed attempt or one published before it. */
  lemma ContainmentSparesNewerAttempts(c: Cluster, w: nat)
    requires Sound(c) && w < |c.workers| && c.workers[w].Scaling? && Lands(c.server, c.workers[w])
    ensures var order := PublicationOrder(c.server.catalogs);
            var failed := c.workers[w].status.activation;
            && Distinct(order) && failed.Some? && c.server.deployments != [] && Current(c.server.deployments).Applied?
            && exists i, j :: 0 <= i <= j < |order| && order[i] == Current(c.server.deployments).attempt
                && order[j] == failed.value.attemptID
  {
    var s, k := c.server, c.workers[w];
    assert WorkerSound(s, k);
    var known, order := PublicationOrder(s.catalogs[..k.checked]), PublicationOrder(s.catalogs);
    OrderIsPrefix(s.catalogs, k.checked);
    var i :| 0 <= i < |known| && known[i] == s.deployments[k.read].attempt;
    assert order[i] == known[i] && order[|known| - 1] == known[|known| - 1];
  }

  // ---- Every step keeps the invariant ----

  /** The server only gains versions, and keeps the order of what it had. */
  ghost predicate Grows(s: Server, t: Server) {
    && s.catalogs <= t.catalogs && s.deployments <= t.deployments && s.issued <= t.issued
    && (forall x :: x in PublicationOrder(s.catalogs) ==> x in PublicationOrder(t.catalogs))
  }

  /** A worker is unaffected by growth that does not publish the attempt it invented. */
  lemma GrowthKeepsWorker(s: Server, t: Server, k: Worker)
    requires Grows(s, t) && WorkerSound(s, k)
    requires forall x :: Invented(s.catalogs, k, x) ==> x !in PublicationOrder(t.catalogs)
    ensures WorkerSound(t, k)
  {
    if k.Scaling? {
      assert t.catalogs[..k.checked] == s.catalogs[..k.checked];
    }
  }

  lemma StepOfOne(c: Cluster, t: Server, w: nat, next: Worker)
    requires Sound(c) && Grows(c.server, t) && HistorySound(t) && w < |c.workers| && WorkerSound(t, next)
    requires forall u, x :: 0 <= u < |c.workers| && u != w && Invented(c.server.catalogs, c.workers[u], x) ==>
               x !in PublicationOrder(t.catalogs) && !Invented(t.catalogs, next, x)
    ensures Sound(Move(c, t, w, next))
  {
    var d := Move(c, t, w, next);
    forall u | 0 <= u < |d.workers| ensures WorkerSound(t, d.workers[u]) {
      if u != w {
        assert WorkerSound(c.server, c.workers[u]);
        GrowthKeepsWorker(c.server, t, c.workers[u]);
      }
    }
    forall u, x | 0 <= u < |c.workers| && Invented(t.catalogs, c.workers[u], x)
      ensures Invented(c.server.catalogs, c.workers[u], x)
    {
    }
  }

  lemma StepOfNone(c: Cluster, t: Server)
    requires Sound(c) && Grows(c.server, t) && HistorySound(t)
    requires forall u, x :: 0 <= u < |c.workers| && Invented(c.server.catalogs, c.workers[u], x) ==>
        x !in PublicationOrder(t.catalogs)
    ensures Sound(c.(server := t))
  {
    forall u | 0 <= u < |c.workers| ensures WorkerSound(t, c.workers[u]) {
      assert WorkerSound(c.server, c.workers[u]);
      GrowthKeepsWorker(c.server, t, c.workers[u]);
    }
    forall u, x | 0 <= u < |c.workers| && Invented(t.catalogs, c.workers[u], x)
      ensures Invented(c.server.catalogs, c.workers[u], x)
    {
    }
  }

  /** Storing a status of the current attempt, of a fresh one, or of none. */
  lemma StoreKeepsHistory(s: Server, v: CatalogVersion)
    requires HistorySound(s) && (v.Stored? ==> WorkloadReasonSound(v.status.conditions))
    requires var x := AttemptAt(v);
             x.Some? ==>
               x == AttemptAt(Current(s.catalogs)) || (x.value in s.issued && x.value !in PublicationOrder(s.catalogs))
    ensures HistorySound(Store(s, v)) && Grows(s, Store(s, v))
    ensures PublicationOrder(Store(s, v).catalogs) == Extend(PublicationOrder(s.catalogs), AttemptAt(v))
  {
    var t := Store(s, v);
    OrderAfterAppend(s.catalogs, v);
    if AttemptAt(Current(s.catalogs)).Some? {
      HeldIsPublished(s.catalogs, |s.catalogs| - 1);
    }
    forall j | 0 <= j < |t.deployments| && t.deployments[j].Applied?
      ensures Held(t.catalogs, t.deployments[j].attempt, t.deployments[j].images)
    {
      HeldStays(s.catalogs, t.catalogs, t.deployments[j].attempt, t.deployments[j].images);
    }
  }

  lemma HeldStays(a: seq<CatalogVersion>, b: seq<CatalogVersion>, attempt: string, images: Images)
    requires a <= b && Held(a, attempt, images)
    ensures Held(b, attempt, images)
  {
    var k :| 0 <= k < |a| && Holding(a[k], attempt, images);
    assert Holding(b[k], attempt, images);
  }

  lemma ApplyKeepsHistory(s: Server, v: DeploymentVersion)
    requires HistorySound(s) && (v.Applied? ==> Held(s.catalogs, v.attempt, v.images))
    ensures HistorySound(Apply(s, v)) && Grows(s, Apply(s, v))
  {
  }

  /** What preparation from any stored version yields. */
  lemma PreparationFacts(v: CatalogVersion, runtime: Runtime, seen: ResolutionReads, nonce: string, now: int)
    requires v.Stored? && WorkloadReasonSound(v.status.conditions)
    ensures var status := PrepareAfter(v.status, v.meta, runtime, seen, nonce, now);
            && status.activation.Some? && (AttemptOf(status) == Some(nonce) || AttemptOf(status) == AttemptOf(v.status))
            && WorkloadReasonSound(status.conditions)
            && (AttemptOf(status) == AttemptOf(v.status) || status.activation.value.state != Succeeded)
            && status.conditions.activationReady == v.status.conditions.activationReady
  {
    BlocksExactly(v.status, v.meta, seen);
  }

  lemma ResolutionFacts(s: CatalogStatus, meta: CatalogMeta, seen: ResolutionReads)
    requires WorkloadReasonSound(s.conditions)
    ensures var r := Resolve(s, meta, seen).conditions;
            WorkloadReasonSound(r) && r.activationReady == s.conditions.activationReady
  {
  }

  /** An attempt that is not certified at this generation is prepared as not Ready. */
  lemma PreparedIsNotReady(r: CatalogStatus, generation: int, a: Attempt, resolved: Condition)
    requires WorkloadReasonSound(r.conditions)
    requires a.state != Succeeded || !HoldsAt(r.conditions.activationReady, generation)
    ensures var c := PreparedStatus(r, generation, a, resolved).conditions;
            c.ready.Some? && c.ready.value.status == ConditionFalse
  {
  }

  /** A replaced attempt, and an attempt last observed at another generation, is
      published as not Ready before its workload is applied. */
  lemma PreparationIsNotReady(v: CatalogVersion, runtime: Runtime, seen: ResolutionReads, nonce: string, now: int)
    requires v.Stored? && WorkloadReasonSound(v.status.conditions)
    ensures PublishedNotReady(v, PrepareAfter(v.status, v.meta, runtime, seen, nonce, now))
  {
    var published := PrepareAfter(v.status, v.meta, runtime, seen, nonce, now);
    PreparationFacts(v, runtime, seen, nonce, now);
    ResolutionFacts(v.status, v.meta, seen);
    var r := Resolve(v.status, v.meta, seen);
    if AttemptOf(published) != AttemptOf(v.status)
       || !ObservedAt(v.status.conditions.activationReady, v.meta.generation) {
      PreparedIsNotReady(r, v.meta.generation, published.activation.value, r.conditions.resolved.value);
    }
  }

  lemma BegunIsSound(s: Server, snapshot: nat, runtime: Runtime, seen: ResolutionReads, nonce: string, now: int)
    requires HistorySound(s) && snapshot < |s.catalogs| && s.catalogs[snapshot].Stored? && nonce !in s.issued
    ensures var next := BeginWith(s.catalogs[snapshot], runtime, seen, nonce, now, snapshot);
            && WorkerSound(s.(issued := s.issued + {nonce}), next)
            && (forall x :: Invented(s.catalogs, next, x) ==> x == nonce)
  {
    var v := s.catalogs[snapshot];
    PreparationFacts(v, runtime, seen, nonce, now);
    PreparationIsNotReady(v, runtime, seen, nonce, now);
    if AttemptAt(v).Some? {
      HeldIsPublished(s.catalogs, snapshot);
    }
  }

  /** Invented attempts were drawn as nonces. */
  lemma InventedIsIssued(s: Server, k: Worker, x: string)
    requires WorkerSound(s, k) && Invented(s.catalogs, k, x)
    ensures x in s.issued
  {
    if AttemptOf(k.status) == AttemptAt(s.catalogs[k.snapshot]) {
      HeldIsPublished(s.catalogs, k.snapshot);
    }
  }

  lemma BeginKeepsSound(c: Cluster, w: nat, nonce: string, next: Worker)
    requires Sound(c) && w < |c.workers| && nonce !in c.server.issued
    requires WorkerSound(c.server.(issued := c.server.issued + {nonce}), next)
    requires forall x :: Invented(c.server.catalogs, next, x) ==> x == nonce
    ensures Sound(Move(c, c.server.(issued := c.server.issued + {nonce}), w, next))
  {
    var s := c.server;
    forall u, x | 0 <= u < |c.workers| && u != w && Invented(s.catalogs, c.workers[u], x)
      ensures x !in PublicationOrder(s.catalogs) && !Invented(s.catalogs, next, x)
    {
      assert WorkerSound(s, c.workers[u]);
      InventedIsIssued(s, c.workers[u], x);
    }
    StepOfOne(c, s.(issued := s.issued + {nonce}), w, next);
  }

  /** What a prepared worker may store continues the history. */
  lemma PreparedContinues(s: Server, p: Worker)
    requires HistorySound(s) && p.Prepared? && WorkerSound(s, p) && p.snapshot == |s.catalogs| - 1
    ensures var v := Stored(s.catalogs[p.snapshot].meta, Runs.StoredStatus(p.status));
            && HistorySound(Store(s, v)) && Grows(s, Store(s, v)) && AttemptAt(v) == AttemptOf(p.status)
            && PublicationOrder(Store(s, v).catalogs) == Extend(PublicationOrder(s.catalogs), AttemptOf(p.status))
  {
    StoreKeepsHistory(s, Stored(s.catalogs[p.snapshot].meta, Runs.StoredStatus(p.status)));
  }

  /** The worker after its publication. */
  lemma PublishedIsSound(c: Cluster, w: nat)
    requires Sound(c) && w < |c.workers| && c.workers[w].Prepared? && WorkerWellFormed(c.server, c.workers[w])
    requires WorkerSound(c.server, c.workers[w])
    ensures WorkerSound(PublishBy(c, w).server, PublishBy(c, w).workers[w])
    ensures !PublishBy(c, w).workers[w].Prepared?
  {
  }

  lemma PublishKeepsSound(c: Cluster, w: nat)
    requires Sound(c) && w < |c.workers| && c.workers[w].Prepared? && WorkerWellFormed(c.server, c.workers[w])
    ensures Sound(PublishBy(c, w))
  {
    var s, p, d := c.server, c.workers[w], PublishBy(c, w);
    assert WorkerSound(s, p);
    var id := p.status.activation.value.attemptID;
    PublishedIsSound(c, w);
    if p.status != s.catalogs[p.snapshot].status && p.snapshot == |s.catalogs| - 1 {
      PreparedContinues(s, p);
      assert id !in PublicationOrder(s.catalogs) ==> Invented(s.catalogs, p, id);
    }
    StepOfOne(c, d.server, w, d.workers[w]);
  }

  lemma RenderKeepsSound(c: Cluster, w: nat, read: nat)
    requires Sound(c) && w < |c.workers| && c.workers[w].Rendering? && read < |c.server.deployments|
    ensures Sound(RenderBy(c, w, read))
  {
    var s, r, d := c.server, c.workers[w], RenderBy(c, w, read);
    assert WorkerSound(s, r);
    var desired := Applied(r.params.activationAttempt, r.params.images, RenderedReplicas(r.params));
    assert Holding(s.catalogs[r.version], desired.attempt, desired.images);
    ApplyKeepsHistory(s, desired);
    StepOfOne(c, d.server, w, d.workers[w]);
  }

  lemma SecondWriteFacts(meta: CatalogMeta, first: CatalogStatus, observation: Runs.Step, stored: CatalogStatus)
    requires SecondWrite(meta, first, observation, stored) && WorkloadReasonSound(first.conditions)
        && first.activation.Some?
    ensures WorkloadReasonSound(stored.conditions) && AttemptOf(stored) == AttemptOf(first)
  {
  }

  lemma ObserveKeepsSound(c: Cluster, w: nat, observation: Runs.Step, stored: CatalogStatus, writes: bool)
    requires Sound(c) && w < |c.workers| && c.workers[w].Observing? && WorkerWellFormed(c.server, c.workers[w])
    requires var v := c.server.catalogs[c.workers[w].version]; SecondWrite(v.meta, v.status, observation, stored)
    ensures Sound(ObserveBy(c, w, observation, stored, writes))
  {
    var s, k, d := c.server, c.workers[w], ObserveBy(c, w, observation, stored, writes);
    assert WorkerSound(s, k);
    var base := s.catalogs[k.version];
    SecondWriteFacts(base.meta, base.status, observation, stored);
    if writes && k.version == |s.catalogs| - 1 {
      StoreKeepsHistory(s, Stored(base.meta, stored));
      HeldIsPublished(s.catalogs, k.version);
    }
    StepOfOne(c, d.server, w, d.workers[w]);
  }

  lemma ContainKeepsSound(c: Cluster, step: Step)
    requires Sound(c) && Enabled(c, step)
    requires step.FirstCheck? || step.ReadDeployment? || step.SecondCheck? || step.Scale?
    requires WorkerWellFormed(c.server, c.workers[step.worker])
    ensures Sound(ContainBy(c, step))
  {
    var s, k, d := c.server, c.workers[step.worker], ContainBy(c, step);
    assert WorkerSound(s, k);
    if step.SecondCheck? && d.workers[step.worker].Scaling? {
      assert s.catalogs[..|s.catalogs|] == s.catalogs;
      var applied := s.deployments[k.read];
      var held :| 0 <= held < |s.catalogs| && Holding(s.catalogs[held], applied.attempt, applied.images);
      HeldIsPublished(s.catalogs, held);
    } else if step.Scale? && Lands(s, k) {
      ApplyKeepsHistory(s, s.deployments[k.read].(replicas := 0));
    }
    StepOfOne(c, d.server, step.worker, d.workers[step.worker]);
  }

  lemma OthersKeepSound(c: Cluster, step: Step)
    requires Sound(c) && Enabled(c, step) && !WorkerStep(step)
    requires forall w :: 0 <= w < |c.workers| ==> WorkerWellFormed(c.server, c.workers[w])
    ensures Sound(After(c, step))
  {
    var s := c.server;
    var d := After(c, step);
    if step.DeleteDeployment? || step.ScaleDeployment? {
      ApplyKeepsHistory(s, Current(d.server.deployments));
    } else {
      StoreKeepsHistory(s, Current(d.server.catalogs));
      if AttemptAt(Current(s.catalogs)).Some? {
        HeldIsPublished(s.catalogs, |s.catalogs| - 1);
      }
    }
    StepOfNone(c, d.server);
  }

  lemma WorkersWellFormed(c: Cluster)
    requires Sound(c)
    ensures forall w :: 0 <= w < |c.workers| ==> WorkerWellFormed(c.server, c.workers[w])
  {
    forall w | 0 <= w < |c.workers| ensures WorkerWellFormed(c.server,
        c.workers[w]) { assert WorkerSound(c.server, c.workers[w]); }
  }

  lemma StepKeepsSound(c: Cluster, step: Step)
    requires Sound(c) && Enabled(c, step)
    ensures forall w :: 0 <= w < |c.workers| ==> WorkerWellFormed(c.server, c.workers[w])
    ensures Sound(After(c, step))
  {
    WorkersWellFormed(c);
    match step
    case Begin(w, snapshot, runtime, seen, nonce, now) =>
      BegunIsSound(c.server, snapshot, runtime, seen, nonce, now);
      BeginKeepsSound(c, w, nonce, BeginWith(c.server.catalogs[snapshot], runtime, seen, nonce, now, snapshot));
    case Publish(w) => PublishKeepsSound(c, w);
    case Render(w, read) => RenderKeepsSound(c, w, read);
    case Observe(w, observation, stored, writes) => ObserveKeepsSound(c, w, observation, stored, writes);
    case FirstCheck(_) => ContainKeepsSound(c, step);
    case ReadDeployment(_, _) => ContainKeepsSound(c, step);
    case SecondCheck(_) => ContainKeepsSound(c, step);
    case Scale(_) => ContainKeepsSound(c, step);
    case Abandon(w) => StepOfOne(c, c.server, w, Idle);
    case _ => OthersKeepSound(c, step);
  }

  /** A run is a sequence of clusters, each one enabled step after the one before. */
  ghost predicate IsRun(clusters: seq<Cluster>, steps: seq<Step>) {
    && |clusters| == |steps| + 1 && Initial(clusters[0])
    && forall i :: 0 <= i < |steps| ==> Follows(clusters[i], steps[i], clusters[i + 1])
  }

  ghost predicate Follows(c: Cluster, step: Step, d: Cluster) {
    && Enabled(c, step) && (forall w :: 0 <= w < |c.workers| ==> WorkerWellFormed(c.server, c.workers[w]))
    && d == After(c, step)
  }

  /** A new Catalog, no Deployment, and any number of idle workers. */
  predicate Initial(c: Cluster) {
    && |c.server.catalogs| == 1 && c.server.catalogs[0].Stored? && c.server.catalogs[0].status == EmptyStatus
    && c.server.deployments == [Absent] && c.server.issued == {}
    && forall w :: 0 <= w < |c.workers| ==> c.workers[w].Idle?
  }

  lemma InitialIsSound(c: Cluster)
    requires Initial(c)
    ensures Sound(c)
  {
    assert c.server.catalogs[..0] == [];
    assert PublicationOrder(c.server.catalogs) == [];
  }

  lemma {:induction false} RunsStaySound(clusters: seq<Cluster>, steps: seq<Step>, i: nat)
    requires IsRun(clusters, steps) && i < |clusters|
    ensures Sound(clusters[i])
  {
    if i == 0 {
      InitialIsSound(clusters[0]);
    } else {
      RunsStaySound(clusters, steps, i - 1);
      assert Follows(clusters[i - 1], steps[i - 1], clusters[i]);
      StepKeepsSound(clusters[i - 1], steps[i - 1]);
    }
  }

  /** In every interleaving, from any stale Catalog or Deployment reads, a scale-down
      that lands hits the failed attempt or one published before it. */
  lemma ScaleDownNeverHitsNewerAttempt(clusters: seq<Cluster>, steps: seq<Step>, i: nat)
    requires IsRun(clusters, steps) && i < |steps| && steps[i].Scale?
    requires var c := clusters[i];
             steps[i].worker < |c.workers| && c.workers[steps[i].worker].Scaling?
             && Lands(c.server, c.workers[steps[i].worker])
    ensures var c := clusters[i];
            var order := PublicationOrder(c.server.catalogs);
            var failed := c.workers[steps[i].worker].status.activation;
            && Distinct(order) && failed.Some? && c.server.deployments != [] && Current(c.server.deployments).Applied?
            && exists m, n :: 0 <= m <= n < |order| && order[m] == Current(c.server.deployments).attempt
                && order[n] == failed.value.attemptID
  {
    RunsStaySound(clusters, steps, i);
    ContainmentSparesNewerAttempts(clusters[i], steps[i].worker);
  }

  /** In every interleaving, each Deployment version ever applied carries an attempt and
      image pair that a status had published before, and the status published for a
      replaced attempt or a new generation was not Ready when its workload was applied. */
  lemma PublishedBeforeApplied(clusters: seq<Cluster>, steps: seq<Step>, i: nat)
    requires IsRun(clusters, steps) && i < |steps| && steps[i].Render?
    ensures var c, d := clusters[i], clusters[i + 1];
            && steps[i].worker < |c.workers| && c.workers[steps[i].worker].Rendering?
            && (forall j :: 0 <= j < |d.server.deployments| && d.server.deployments[j].Applied? ==>
                  Held(c.server.catalogs, d.server.deployments[j].attempt, d.server.deployments[j].images))
            && var r := c.workers[steps[i].worker];
               && r.snapshot <= r.version < |c.server.catalogs| && c.server.catalogs[r.version].Stored?
               && RendersFrom(r.params, c.server.catalogs[r.version].status)
               && PublishedNotReady(c.server.catalogs[r.snapshot], c.server.catalogs[r.version].status)
  {
    RunsStaySound(clusters, steps, i);
    RunsStaySound(clusters, steps, i + 1);
    assert Follows(clusters[i], steps[i], clusters[i + 1]);
    assert WorkerSound(clusters[i].server, clusters[i].workers[steps[i].worker]);
    assert clusters[i + 1].server.catalogs == clusters[i].server.catalogs;
  }
}
