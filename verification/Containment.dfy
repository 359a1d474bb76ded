/** When exactly containment stops a workload. */
module Containment {
  import opened CatalogTypes
  import opened RolloutProtocol

  /** The persisted Catalog is the same object and still carries this attempt for this
      request. */
  predicate CarriesAttempt(v: CatalogVersion, uid: string, failed: Attempt) {
    && v.Stored? && v.meta.uid == uid && v.status.activation.Some?
    && v.status.activation.value.attemptID == failed.attemptID
    && v.status.activation.value.requestHash == failed.requestHash
  }

  /** Both checks find the attempt, the Deployment read has replicas, and no version was
      stored since. */
  predicate Stops(uid: string, status: CatalogStatus, sights: seq<Sight>, read: nat)
    requires |sights| == 4 && Successive(sights) && read < |sights[1].server.deployments|
  {
    && (forall i :: 0 <= i < 4 ==> !sights[i].failed)
    && status.activation.Some?
    && CarriesAttempt(Current(sights[0].server.catalogs), uid, status.activation.value)
    && CarriesAttempt(Current(sights[2].server.catalogs), uid, status.activation.value)
    && sights[1].server.deployments[read].Applied? && sights[1].server.deployments[read].replicas != 0
    && read == |sights[3].server.deployments| - 1
  }

  /** Containment adds one version, the Deployment it read at zero replicas, exactly under
      these conditions; otherwise it leaves the server alone. */
  lemma ContainmentStopsExactly(uid: string, status: CatalogStatus, sights: seq<Sight>, read: nat)
    requires |sights| == 4 && Successive(sights) && read < |sights[1].server.deployments|
    ensures var before, after := sights[3].server, Contained(uid, status, sights, read);
            && (Stops(uid, status, sights, read) ==>
                  && sights[1].server.deployments[read].Applied?
                  && after == before.(deployments :=
                       before.deployments + [sights[1].server.deployments[read].(replicas := 0)]))
            && (!Stops(uid, status, sights, read) ==> after == before)
            && (after != before <==> Stops(uid, status, sights, read))
  {
  }

  /** A workload as the operator renders it, with its one replica, is stopped if nothing
      moves in between. */
  lemma RenderedWorkloadIsStopped(uid: string, failed: CatalogStatus, server: Server, attempt: string, images: Images)
    requires server.catalogs != [] && server.deployments != [] && failed.activation.Some?
    requires CarriesAttempt(Current(server.catalogs), uid, failed.activation.value)
    requires Current(server.deployments) == Applied(attempt, images, 1)
    ensures var calm := Sight(server, false);
            var after := Contained(uid, failed, [calm, calm, calm, calm], |server.deployments| - 1);
            after.catalogs == server.catalogs && after.deployments == server.deployments + [Applied(attempt, images, 0)]
  {
    var calm := Sight(server, false);
    var sights := [calm, calm, calm, calm];
    assert Successive(sights);
    assert Stops(uid, failed, sights, |server.deployments| - 1);
    ContainmentStopsExactly(uid, failed, sights, |server.deployments| - 1);
  }
}
