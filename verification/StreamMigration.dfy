/** The one-time switch of a Catalog to the configured image streams, against concurrent
    edits and stale reads. */
module StreamMigration {
  import opened CatalogTypes

  const Marker := "aihub.opendatahub.io/data-image-streams-migrated"
  const StableTag := "stable"

  datatype CatalogObject = CatalogObject(
    catalogStream: Option<string>,
    benchmarkStream: Option<string>,
    annotations: map<string, string>,
    deleting: bool,
    rest: string)

  /** Every version under the Catalog name; the last is current. */
  type Versions = v: seq<Option<CatalogObject>> | v != [] witness [None]

  datatype Step =
    /** Anything administrators and other controllers write. */
    | Edit(version: Option<CatalogObject>)
    /** An AIHub reconcile that reads some version, current or not. */
    | Reconcile(openShift: bool, read: nat, failed: bool)

  predicate Migrated(c: CatalogObject) {
    Marker in c.annotations && c.annotations[Marker] == "true"
  }

  function Current(v: Versions): Option<CatalogObject> {
    v[|v| - 1]
  }

  /** What AIHub creates when there is no Catalog. */
  function NewCatalog(openShift: bool): CatalogObject {
    if openShift then CatalogObject(Some(StableTag), Some(StableTag), map[Marker := "true"], false, "")
    else CatalogObject(None, None, map[], false, "")
  }

  function Switched(c: CatalogObject): CatalogObject {
    c.(catalogStream := Some(StableTag), benchmarkStream := Some(StableTag),
        annotations := c.annotations[Marker := "true"])
  }

  function Reconciled(v: Versions, openShift: bool, read: nat, failed: bool): Versions {
    if failed || read >= |v| then v
    else if v[read].None? then
      if Current(v).None? then v + [Some(NewCatalog(openShift))] else v
    else if openShift && !Migrated(v[read].value) && !v[read].value.deleting && read == |v| - 1 then
      v + [Some(Switched(v[read].value))]
    else v
  }

  function After(v: Versions, step: Step): Versions {
    match step
    case Edit(version) => v + [version]
    case Reconcile(openShift, read, failed) => Reconciled(v, openShift, read, failed)
  }

  function Run(v: Versions, steps: seq<Step>): Versions
    decreases |steps|
  {
    if steps == [] then v else Run(After(v, steps[0]), steps[1..])
  }

  /** The Catalog as AIHub's client stores it. */
  class Store {
    var versions: Versions

    constructor (versions: Versions)
      ensures this.versions == versions
    {
      this.versions := versions;
    }

    /** Succeeds only on the version it was computed from. */
    method PatchLocked(read: nat, updated: CatalogObject) returns (conflict: bool)
      requires read < |versions|
      modifies this
      ensures conflict == (read != |old(versions)| - 1)
      ensures versions == if conflict then old(versions) else old(versions) + [Some(updated)]
    {
      conflict := read != |versions| - 1;
      if !conflict {
        versions := versions + [Some(updated)];
      }
    }

    method MigrateCatalogImageStreams(openShift: bool, read: nat)
      requires read < |versions| && versions[read].Some?
      modifies this
      ensures versions == Reconciled(old(versions), openShift, read, false)
    {
      var catalog := versions[read].value;
      if !openShift || Migrated(catalog) || catalog.deleting {
        return;
      }
      var updated := catalog.(catalogStream := Some(StableTag), benchmarkStream := Some(StableTag));
      updated := updated.(annotations := updated.annotations[Marker := "true"]);
      var _ := PatchLocked(read, updated);
    }

    /** Creates the Catalog if the read finds none, and migrates what it finds. */
    method EnsureCatalog(openShift: bool, read: nat, failed: bool)
      requires read < |versions|
      modifies this
      ensures versions == Reconciled(old(versions), openShift, read, failed)
    {
      if failed {
        return;
      }
      if versions[read].Some? {
        MigrateCatalogImageStreams(openShift, read);
      } else if Current(versions).None? {
        versions := versions + [Some(NewCatalog(openShift))];
        MigrateCatalogImageStreams(openShift, |versions| - 1);
      }
    }
  }

  /** Whatever version AIHub read, it adds at most one version. An update changes both
      selections and the marker together, and nothing else. */
  lemma MigrationIsAtomic(v: Versions, openShift: bool, read: nat, failed: bool)
    ensures var w := Reconciled(v, openShift, read, failed);
            w != v ==>
              && |w| == |v| + 1 && w[..|v|] == v && Current(w).Some?
              && (Current(v).None? ==>
                    var d := Current(w).value;
                    && !d.deleting && d.catalogStream == d.benchmarkStream == (if openShift then Some("stable")
                        else None)
                    && (Migrated(d) <==> openShift))
              && (Current(v).Some? ==>
                    var c, d := Current(v).value, Current(w).value;
                    && openShift && !c.deleting && !Migrated(c) && Migrated(d)
                    && d.catalogStream == d.benchmarkStream == Some("stable")
                    && "aihub.opendatahub.io/data-image-streams-migrated" in d.annotations
                    && d.annotations["aihub.opendatahub.io/data-image-streams-migrated"] == "true"
                    && d.rest == c.rest && d.deleting == c.deleting
                        && d.annotations - {Marker} == c.annotations - {Marker})
  {
    var w := Reconciled(v, openShift, read, failed);
    if w != v && Current(v).Some? {
      assert (v + [Some(Switched(Current(v).value))])[..|v|] == v;
    }
  }

  predicate Marked(v: Versions) {
    Current(v).Some? && Migrated(Current(v).value)
  }

  /** Nobody removes the Catalog or its marker. */
  predicate KeepsMarker(steps: seq<Step>) {
    forall i :: 0 <= i < |steps| && steps[i].Edit? ==> steps[i].version.Some? && Migrated(steps[i].version.value)
  }

  function Edits(steps: seq<Step>): seq<Step> {
    if steps == [] then []
    else (if steps[0].Edit? then [steps[0]] else []) + Edits(steps[1..])
  }

  lemma MarkedIsLeftAlone(v: Versions, step: Step)
    requires Marked(v) && step.Reconcile?
    ensures After(v, step) == v
  {
  }

  /** After migration AIHub might as well not run: every interleaving with it leaves
      exactly the versions the other writers leave. */
  lemma {:induction false} MigratedSelectionsBelongToAdministrators(v: Versions, steps: seq<Step>)
    requires Marked(v) && KeepsMarker(steps)
    ensures Run(v, steps) == Run(v, Edits(steps)) && Marked(Run(v, steps))
    decreases |steps|
  {
    if steps != [] {
      var step, rest := steps[0], steps[1..];
      assert KeepsMarker(rest) by {
        assert forall i :: 0 <= i < |rest| ==> rest[i] == steps[i + 1];
      }
      if step.Edit? {
        assert Edits(steps) == [step] + Edits(rest);
        assert Edits(steps)[1..] == Edits(rest);
      } else {
        MarkedIsLeftAlone(v, step);
        assert Edits(steps) == Edits(rest);
      }
      MigratedSelectionsBelongToAdministrators(After(v, step), rest);
    }
  }

  /** A reconcile that reads the current version settles the matter; the condition is
      exact. */
  lemma MarkedAfterReconcileExactly(v: Versions, openShift: bool, read: nat, failed: bool)
    requires !Marked(v)
    ensures Marked(Reconciled(v, openShift, read, failed)) <==>
            && openShift && !failed && read < |v|
            && (if Current(v).None? then v[read].None? else read == |v| - 1 && !Current(v).value.deleting)
  {
  }

  /** Removing the marker hands the selections back to AIHub. */
  lemma RemovedMarkerMigratesAgain(v: Versions, c: CatalogObject)
    requires !Migrated(c) && !c.deleting
    ensures var w := After(After(v, Edit(Some(c))), Reconcile(true, |v|, false));
            |w| == |v| + 2 && Current(w) == Some(Switched(c))
  {
  }
}
