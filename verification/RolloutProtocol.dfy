/** Concurrent reconciles against the API server: every Catalog and Deployment version,
    stale cached reads, writes under the optimistic lock, and containment. */
module RolloutProtocol {
  import opened CatalogTypes
  import opened ImageStatus
  import opened Activation
  import opened DataImages
  import opened ImageResolution
  import Runs = CatalogRuns

  datatype CatalogVersion = Gone | Stored(meta: CatalogMeta, status: CatalogStatus)

  datatype DeploymentVersion = Absent | Applied(attempt: string, images: Images, replicas: int)

  /** Where one reconcile has got to. Numbers are versions it has read or written. */
  datatype Worker =
    | Idle
    /** Resolved and prepared from a possibly stale Catalog version. */
    | Prepared(snapshot: nat, status: CatalogStatus, params: Params, blocked: bool)
    /** Its status is published as the given version; the workload is applied next. */
    | Rendering(snapshot: nat, version: nat, params: Params)
    | Observing(version: nat)
    /** Containment of the attempt of `status`: the two checks around the Deployment read. */
    | Checking(uid: string, status: CatalogStatus)
    | Reading(uid: string, status: CatalogStatus)
    | Rechecking(uid: string, status: CatalogStatus, read: nat)
    | Scaling(uid: string, status: CatalogStatus, read: nat, checked: nat)

  /** Versions are never forgotten; the last one is current and the optimistic lock
      compares positions. `issued` holds every nonce ever drawn. */
  datatype Server = Server(catalogs: seq<CatalogVersion>, deployments: seq<DeploymentVersion>, issued: set<string>)

  datatype Cluster = Cluster(server: Server, workers: seq<Worker>)

  datatype Step =
    | Begin(worker: nat, snapshot: nat, runtime: Runtime, seen: ResolutionReads, nonce: string, now: int)
    | Publish(worker: nat)
    | Render(worker: nat, read: nat)
    /** `writes` is false when the status equals the snapshot and no patch is sent. */
    | Observe(worker: nat, observation: Runs.Step, stored: CatalogStatus, writes: bool)
    | FirstCheck(worker: nat)
    | ReadDeployment(worker: nat, read: nat)
    | SecondCheck(worker: nat)
    | Scale(worker: nat)
    /** Any error ends a reconcile. */
    | Abandon(worker: nat)
    /** An error report that passes the lock. */
    | ReportError(verdict: Condition)
    | EditCatalog(meta: CatalogMeta)
    | DeleteCatalog
    | CreateCatalog(meta: CatalogMeta)
    /** Anyone may delete or scale the Deployment; only rendering sets the attempt. */
    | DeleteDeployment
    | ScaleDeployment(replicas: int)

  function AttemptOf(s: CatalogStatus): Option<string> {
    if s.activation.Some? then Some(s.activation.value.attemptID) else None
  }

  function AttemptAt(v: CatalogVersion): Option<string> {
    if v.Stored? then AttemptOf(v.status) else None
  }

  function Current<T>(versions: seq<T>): T
    requires versions != []
  {
    versions[|versions| - 1]
  }

  /** Attempts in the order of their first publication. */
  function PublicationOrder(catalogs: seq<CatalogVersion>): seq<string> {
    if catalogs == [] then []
    else Extend(PublicationOrder(catalogs[..|catalogs| - 1]), AttemptAt(Current(catalogs)))
  }

  function Extend(order: seq<string>, attempt: Option<string>): seq<string> {
    if attempt.Some? && attempt.value !in order then order + [attempt.value] else order
  }

  function Store(s: Server, v: CatalogVersion): Server {
    s.(catalogs := s.catalogs + [v])
  }

  function Apply(s: Server, v: DeploymentVersion): Server {
    s.(deployments := s.deployments + [v])
  }

  predicate WorkerStep(step: Step) {
    step.Begin? || step.Publish? || step.Render? || step.Observe? || step.FirstCheck? || step.ReadDeployment?
    || step.SecondCheck? || step.Scale? || step.Abandon?
  }

  /** Observation and the second write keep the identity of the attempt; its state and the
      condition list are patched whole, so the stored ones are those of the first or of
      the second write. */
  ghost predicate SecondWrite(meta: CatalogMeta, first: CatalogStatus, observation: Runs.Step, stored: CatalogStatus) {
    && observation.Observe? && Runs.Allowed(Runs.World(meta, first), observation)
    && var final := Runs.After(Runs.World(meta, first), observation).status;
       && (stored.conditions == final.conditions || stored.conditions == first.conditions)
       && stored.activation.Some? && final.activation.Some?
       && stored.activation.value.attemptID == final.activation.value.attemptID
       && stored.activation.value.requestHash == final.activation.value.requestHash
       && stored.activation.value.images == final.activation.value.images
       && (stored.activation.value.state == final.activation.value.state
           || (first.activation.Some? && stored.activation.value.state == first.activation.value.state))
  }

  ghost predicate Enabled(c: Cluster, step: Step) {
    var s := c.server;
    && s.catalogs != [] && s.deployments != []
    && (WorkerStep(step) ==> step.worker < |c.workers|)
    && match step
       case Begin(w, snapshot, _, _, nonce, _) =>
         c.workers[w].Idle? && snapshot < |s.catalogs| && s.catalogs[snapshot].Stored? && nonce !in s.issued
       case Publish(w) => c.workers[w].Prepared?
       case Render(w, read) => c.workers[w].Rendering? && read < |s.deployments|
       case Observe(w, observation, stored, _) =>
         && c.workers[w].Observing? && c.workers[w].version < |s.catalogs| && s.catalogs[c.workers[w].version].Stored?
         && var v := s.catalogs[c.workers[w].version]; SecondWrite(v.meta, v.status, observation, stored)
       case FirstCheck(w) => c.workers[w].Checking?
       case ReadDeployment(w, read) => c.workers[w].Reading? && read < |s.deployments|
       case SecondCheck(w) => c.workers[w].Rechecking?
       case Scale(w) => c.workers[w].Scaling?
       case Abandon(_) => true
       case ReportError(verdict) => Current(s.catalogs).Stored? && verdict.status != ConditionTrue
       case EditCatalog(meta) =>
         && Current(s.catalogs).Stored? && meta.uid == Current(s.catalogs).meta.uid
         && meta.generation >= Current(s.catalogs).meta.generation
       case DeleteCatalog => true
       case CreateCatalog(_) => Current(s.catalogs).Gone?
       case DeleteDeployment => true
       case ScaleDeployment(_) => Current(s.deployments).Applied?
  }

  function Move(c: Cluster, server: Server, w: nat, next: Worker): Cluster
    requires w < |c.workers|
  {
    Cluster(server, c.workers[w := next])
  }

  function BeginWith(
    v: CatalogVersion, runtime: Runtime, seen: ResolutionReads, nonce: string, now: int, snapshot: nat): Worker
    requires v.Stored?
  {
    var status := PrepareAfter(v.status, v.meta, runtime, seen, nonce, now);
    Prepared(snapshot, status,
             RenderParams(ResolvedParams(v.meta, seen, CatalogOutcome(v.status, v.meta, seen),
                 BenchmarkOutcome(v.status, v.meta, seen)),
                          status.activation.value),
             Blocks(v.status, v.meta, seen))
  }

  /** An unchanged status is not written and not checked against the current version; a
      changed one conflicts unless it was computed from the current version. Requested
      containment goes ahead even after a conflict. */
  function PublishBy(c: Cluster, w: nat): Cluster
    requires w < |c.workers| && c.workers[w].Prepared? && WorkerWellFormed(c.server, c.workers[w])
  {
    var p := c.workers[w];
    var base := c.server.catalogs[p.snapshot];
    if p.status == base.status then
      Move(c, c.server, w, if p.blocked then Checking(base.meta.uid, p.status)
          else Rendering(p.snapshot, p.snapshot, p.params))
    else if p.snapshot == |c.server.catalogs| - 1 then
      var stored := Runs.StoredStatus(p.status);
      Move(c, Store(c.server, Stored(base.meta, stored)), w,
           if p.blocked then Checking(base.meta.uid, stored) else Rendering(p.snapshot, |c.server.catalogs|, p.params))
    else
      Move(c, c.server, w, if p.blocked then Checking(base.meta.uid, p.status) else Idle)
  }

  /** Creates an absent Deployment or updates the version it read. */
  function RenderBy(c: Cluster, w: nat, read: nat): Cluster
    requires w < |c.workers| && c.workers[w].Rendering? && read < |c.server.deployments|
  {
    var r := c.workers[w];
    var versions := c.server.deployments;
    var desired := Applied(r.params.activationAttempt, r.params.images, RenderedReplicas(r.params));
    if versions[read] == desired then Move(c, c.server, w, Observing(r.version))
    else if read == |versions| - 1 || (versions[read].Absent? && Current(versions).Absent?) then
      Move(c, Apply(c.server, desired), w, Observing(r.version))
    else Move(c, c.server, w, Idle)
  }

  /** Unless the write conflicts, an attempt observed as failed is contained. */
  ghost function ObserveBy(c: Cluster, w: nat, observation: Runs.Step, stored: CatalogStatus, writes: bool): Cluster
    requires w < |c.workers| && c.workers[w].Observing? && WorkerWellFormed(c.server, c.workers[w])
  {
    var version := c.workers[w].version;
    var base := c.server.catalogs[version];
    var final := Runs.After(Runs.World(base.meta, base.status), observation).status;
    var next := if final.activation.Some? && final.activation.value.state == Failed then Checking(base.meta.uid, final)
        else Idle;
    if !writes then Move(c, c.server, w, next)
    else if version == |c.server.catalogs| - 1 then Move(c, Store(c.server, Stored(base.meta, stored)), w, next)
    else Move(c, c.server, w, Idle)
  }

  /** The uncached check that the persisted attempt is still the one being contained. */
  predicate SameAttempt(v: CatalogVersion, uid: string, status: CatalogStatus) {
    && v.Stored? && v.meta.uid == uid && v.status.activation.Some? && status.activation.Some?
    && v.status.activation.value.attemptID == status.activation.value.attemptID
    && v.status.activation.value.requestHash == status.activation.value.requestHash
  }

  /** The containment patch of this worker passes the optimistic lock. */
  predicate Lands(s: Server, k: Worker)
    requires k.Scaling?
  {
    k.read == |s.deployments| - 1
  }

  /** The containment steps. */
  function ContainBy(c: Cluster, step: Step): Cluster
    requires (step.FirstCheck? || step.ReadDeployment? || step.SecondCheck? || step.Scale?) && step.worker < |c.workers|
    requires c.server.catalogs != [] && WorkerWellFormed(c.server, c.workers[step.worker])
    requires step.FirstCheck? ==> c.workers[step.worker].Checking?
    requires step.ReadDeployment? ==> c.workers[step.worker].Reading? && step.read < |c.server.deployments|
    requires step.SecondCheck? ==> c.workers[step.worker].Rechecking?
    requires step.Scale? ==> c.workers[step.worker].Scaling?
  {
    var s, k := c.server, c.workers[step.worker];
    match step
    case FirstCheck(w) => Move(c, s, w, if SameAttempt(Current(s.catalogs), k.uid, k.status)
        then Reading(k.uid, k.status) else Idle)
    case ReadDeployment(w, read) =>
      Move(c, s, w, if s.deployments[read].Absent? || s.deployments[read].replicas == 0 then Idle
          else Rechecking(k.uid, k.status, read))
    case SecondCheck(w) =>
      Move(c, s, w, if SameAttempt(Current(s.catalogs), k.uid, k.status)
          then Scaling(k.uid, k.status, k.read, |s.catalogs|) else Idle)
    case Scale(w) => Move(c, if Lands(s, k) then Apply(s, s.deployments[k.read].(replicas := 0)) else s, w, Idle)
  }

  /** The server that one call of a containment finds, and whether the call fails. */
  datatype Sight = Sight(server: Server, failed: bool)

  /** One containment step at the server it finds; it is skipped once the worker is idle. */
  function ContainAt(sight: Sight, k: Worker, step: Step): (c: Cluster)
    requires sight.server.catalogs != [] && WorkerWellFormed(sight.server, k)
    requires k.Idle? || (k.Checking? && step == FirstCheck(0))
        || (k.Reading? && step.ReadDeployment? && step.worker == 0 && step.read < |sight.server.deployments|)
             || (k.Rechecking? && step == SecondCheck(0)) || (k.Scaling? && step == Scale(0))
    ensures |c.workers| == 1
  {
    if k.Idle? || sight.failed then Cluster(sight.server, [Idle]) else ContainBy(Cluster(sight.server, [k]), step)
  }

  /** The servers found by consecutive calls, each grown from the one before. */
  predicate Successive(sights: seq<Sight>) {
    && (forall i :: 0 <= i < |sights| ==> sights[i].server.catalogs != [])
    && (forall i, j :: 0 <= i < j < |sights| ==> sights[i].server.deployments <= sights[j].server.deployments)
  }

  /** The four containment steps, with anything happening in between. */
  function Contained(uid: string, status: CatalogStatus, sights: seq<Sight>, read: nat): Server
    requires |sights| == 4 && Successive(sights) && read < |sights[1].server.deployments|
  {
    var k1 := ContainAt(sights[0], Checking(uid, status), FirstCheck(0)).workers[0];
    var k2 := ContainAt(sights[1], k1, ReadDeployment(0, read)).workers[0];
    var k3 := ContainAt(sights[2], k2, SecondCheck(0)).workers[0];
    ContainAt(sights[3], k3, Scale(0)).server
  }

  /** The whole containment of one failed attempt: two uncached checks around a cached
      read of the Deployment, then a patch under the lock. */
  method ContainCatalogImageFailure(
    uid: string, status: CatalogStatus, sights: seq<Sight>, read: nat) returns (server: Server, ok: bool)
    requires |sights| == 4 && Successive(sights) && read < |sights[1].server.deployments|
    ensures server == Contained(uid, status, sights, read)
    ensures server != sights[3].server ==>
              && ok && server.deployments != []
                  && sights[3].server.deployments == server.deployments[..|server.deployments| - 1]
              && Current(server.deployments).Applied? && Current(server.deployments).replicas == 0
  {
    server := sights[3].server;
    if sights[0].failed || !SameAttempt(Current(sights[0].server.catalogs), uid, status) {
      return server, !sights[0].failed;
    }
    if sights[1].failed {
      return server, false;
    }
    var deployment := sights[1].server.deployments[read];
    if deployment.Absent? || deployment.replicas == 0 {
      return server, true;
    }
    if sights[2].failed || !SameAttempt(Current(sights[2].server.catalogs), uid, status) {
      return server, !sights[2].failed;
    }
    deployment := deployment.(replicas := 0);
    ok := !sights[3].failed && read == |server.deployments| - 1;
    if ok {
      server := server.(deployments := server.deployments + [deployment]);
    }
  }

  ghost function After(c: Cluster, step: Step): Cluster
    requires Enabled(c, step)
    requires forall w :: 0 <= w < |c.workers| ==> WorkerWellFormed(c.server, c.workers[w])
  {
    var s := c.server;
    match step
    case Begin(w, snapshot, runtime, seen, nonce, now) =>
      Move(c, s.(issued := s.issued + {nonce}), w, BeginWith(s.catalogs[snapshot], runtime, seen, nonce, now, snapshot))
    case Publish(w) => PublishBy(c, w)
    case Render(w, read) => RenderBy(c, w, read)
    case Observe(w, observation, stored, writes) => ObserveBy(c, w, observation, stored, writes)
    case FirstCheck(_) => ContainBy(c, step)
    case ReadDeployment(_, _) => ContainBy(c, step)
    case SecondCheck(_) => ContainBy(c, step)
    case Scale(_) => ContainBy(c, step)
    case Abandon(w) => Move(c, s, w, Idle)
    case ReportError(verdict) =>
      var v := Current(s.catalogs);
      c.(server := Store(s, Stored(v.meta, Reduced(Runs.WithWorkload(v.status, verdict, v.meta.generation),
          v.meta.generation))))
    case EditCatalog(meta) => c.(server := Store(s, Stored(meta, Current(s.catalogs).status)))
    case DeleteCatalog => c.(server := Store(s, Gone))
    case CreateCatalog(meta) => c.(server := Store(s, Stored(meta, EmptyStatus)))
    case DeleteDeployment => c.(server := Apply(s, Absent))
    case ScaleDeployment(replicas) => c.(server := Apply(s, Current(s.deployments).(replicas := replicas)))
  }

  /** Version numbers held by workers exist. */
  predicate WorkerWellFormed(s: Server, k: Worker) {
    match k
    case Prepared(snapshot, status, _, _) => snapshot < |s.catalogs| && s.catalogs[snapshot].Stored?
        && status.activation.Some?
    case Rendering(snapshot, version, _) =>
      && snapshot <= version < |s.catalogs| && s.catalogs[snapshot].Stored? && s.catalogs[version].Stored?
      && s.catalogs[version].status.activation.Some?
    case Observing(version) => version < |s.catalogs| && s.catalogs[version].Stored?
        && s.catalogs[version].status.activation.Some?
    case Rechecking(_, _, read) => read < |s.deployments| && s.deployments[read].Applied?
    case Scaling(_, _, read, _) => read < |s.deployments| && s.deployments[read].Applied?
    case _ => true
  }
}
