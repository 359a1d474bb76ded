/** When exactly a reconcile writes its status and its workload. */
module RolloutSteps {
  import opened CatalogTypes
  import opened RolloutProtocol

  /** A render stores the attempt's workload exactly if what it read differs and is still
      current, or was absent and still is; a conflict ends the reconcile. */
  lemma RenderWritesExactly(c: Cluster, w: nat, read: nat)
    requires w < |c.workers| && c.workers[w].Rendering? && read < |c.server.deployments|
    ensures var params := c.workers[w].params; var versions := c.server.deployments;
            var desired := Applied(params.activationAttempt, params.images, if params.activationBlocked then 0 else 1);
            var latest := read == |versions| - 1 || versions[read] == versions[|versions| - 1] == Absent;
            var d := RenderBy(c, w, read);
            && d.server == (if versions[read] != desired && latest then c.server.(deployments := versions + [desired])
                            else c.server)
            && d.workers == c.workers[w := if versions[read] == desired || latest then Observing(c.workers[w].version)
                                           else Idle]
  {
  }

  /** The first write stores the prepared status exactly if it differs and nothing was
      stored since. A conflict ends the reconcile, unless containment was asked for. */
  lemma PublishWritesExactly(c: Cluster, w: nat)
    requires w < |c.workers| && c.workers[w].Prepared? && WorkerWellFormed(c.server, c.workers[w])
    ensures var p, catalogs := c.workers[w], c.server.catalogs;
            var changed, latest := p.status != catalogs[p.snapshot].status, p.snapshot == |catalogs| - 1;
            var d := PublishBy(c, w);
            && (changed && latest ==>
                  && d.server.catalogs[..|catalogs|] == catalogs && |d.server.catalogs| == |catalogs| + 1
                  && d.server.catalogs[|catalogs|].Stored?
                      && d.server.catalogs[|catalogs|].meta == catalogs[p.snapshot].meta
                  && AttemptAt(d.server.catalogs[|catalogs|]) == AttemptOf(p.status)
                  && d.server.catalogs[|catalogs|].status.conditions == p.status.conditions)
            && (!(changed && latest) ==> d.server == c.server)
            && (p.blocked ==> d.workers[w].Checking? && d.workers[w].uid == catalogs[p.snapshot].meta.uid
                              && AttemptOf(d.workers[w].status) == AttemptOf(p.status))
            && (!p.blocked && changed && !latest ==> d.workers[w].Idle?)
            && (!p.blocked && (!changed || latest) ==>
                  && d.workers[w] == Rendering(p.snapshot, if changed then |catalogs| else p.snapshot, p.params))
  {
  }

  /** The second write goes through exactly if nothing was stored since the first. Then,
      or when there is nothing to write, a failed attempt is contained. */
  lemma ObserveWritesExactly(c: Cluster, w: nat, observation: Runs.Step, stored: CatalogStatus, writes: bool)
    requires w < |c.workers| && c.workers[w].Observing? && WorkerWellFormed(c.server, c.workers[w])
    ensures var version, catalogs := c.workers[w].version, c.server.catalogs;
            var base := catalogs[version];
            var final := Runs.After(Runs.World(base.meta, base.status), observation).status;
            var conflict := writes && version != |catalogs| - 1;
            var d := ObserveBy(c, w, observation, stored, writes);
            && d.server == (if writes && !conflict then c.server.(catalogs := catalogs + [Stored(base.meta, stored)])
                else c.server)
            && d.workers[w] == (if !conflict && final.activation.Some? && final.activation.value.state == Failed
                                then Checking(base.meta.uid, final) else Idle)
  {
  }
}
