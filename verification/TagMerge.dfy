/** Merging the configured import source into the tags of an ImageStream. */
module TagMerge {
  import opened CatalogTypes
  import opened DataImages

  /** The tag rendered for a configured source. */
  function ConfiguredTag(source: string): SpecTag {
    SpecTag(StableTag, Some(ObjectRef(DockerImage, source)), None, source, "scheduled")
  }

  /** The operator last wrote this source, or there is none. */
  predicate Managed(tag: SpecTag) {
    tag.from.None? || tag.from.value == ObjectRef(DockerImage, tag.managedSource)
  }

  function MergedTag(tag: SpecTag, desired: SpecTag): (r: SpecTag)
    ensures r.name == tag.name
  {
    var replaced := Managed(tag) && tag.from != desired.from;
    var from := if replaced then desired.from else tag.from;
    tag.(from := from,
         generation := if replaced then Some(0) else tag.generation,
         managedSource := if from == desired.from && from.Some? then from.value.name else tag.managedSource,
         settings := desired.settings)
  }

  /** Position of the first tag with this name, or the length. */
  function Find(tags: seq<SpecTag>, name: string): (i: nat)
    ensures i <= |tags| && (i < |tags| ==> tags[i].name == name)
    ensures forall j :: 0 <= j < i ==> tags[j].name != name
  {
    if tags == [] || tags[0].name == name then 0 else 1 + Find(tags[1..], name)
  }

  function Merged(tags: seq<SpecTag>, desired: SpecTag): seq<SpecTag> {
    var i := Find(tags, desired.name);
    if i == |tags| then tags + [desired] else tags[i := MergedTag(tags[i], desired)]
  }

  function MergedAll(tags: seq<SpecTag>, desired: seq<SpecTag>): seq<SpecTag> {
    if desired == [] then tags
    else Merged(MergedAll(tags, desired[..|desired| - 1]), desired[|desired| - 1])
  }

  lemma FindIsUnique(tags: seq<SpecTag>, name: string, i: nat)
    requires i <= |tags| && (i < |tags| ==> tags[i].name == name)
    requires forall j :: 0 <= j < i ==> tags[j].name != name
    ensures Find(tags, name) == i
  {
  }

  method MergeTag(current: SpecTag, desired: SpecTag) returns (tag: SpecTag)
    requires desired.from.Some?
    ensures tag == MergedTag(current, desired)
  {
    tag := current;
    var managedSource := tag.managedSource;
    if tag.from.None? || (tag.from.value.kind == DockerImage && tag.from.value.name == managedSource) {
      if tag.from.None? || tag.from.value.name != desired.from.value.name
          || tag.from.value.kind != desired.from.value.kind {
        tag := tag.(from := desired.from, generation := Some(0));
      }
    }
    if tag.from.value.kind == desired.from.value.kind && tag.from.value.name == desired.from.value.name {
      tag := tag.(managedSource := desired.from.value.name);
    }
    tag := tag.(settings := desired.settings);
  }

  method MergeTags(tags: seq<SpecTag>, desired: seq<SpecTag>) returns (merged: seq<SpecTag>)
    requires forall i :: 0 <= i < |desired| ==> desired[i].from.Some?
    ensures merged == MergedAll(tags, desired)
  {
    merged := tags;
    for n := 0 to |desired|
      invariant merged == MergedAll(tags, desired[..n])
    {
      assert desired[..n + 1][..n] == desired[..n];
      var index := |merged|;
      for i := 0 to |merged|
        invariant index == |merged| && forall j :: 0 <= j < i ==> merged[j].name != desired[n].name
      {
        if merged[i].name == desired[n].name {
          index := i;
          break;
        }
      }
      FindIsUnique(merged, desired[n].name, index);
      if index == |merged| {
        merged := merged + [desired[n]];
      } else {
        var tag := MergeTag(merged[index], desired[n]);
        merged := merged[index := tag];
      }
    }
    assert desired[..|desired|] == desired;
  }

  /** Tags of other names keep their place and content, and a merge only appends. */
  lemma {:induction false} UnrelatedTagsAreKept(tags: seq<SpecTag>, desired: seq<SpecTag>)
    ensures var r := MergedAll(tags, desired);
            && |r| >= |tags|
            && (forall i :: 0 <= i < |tags| ==> r[i].name == tags[i].name)
            && (forall i :: 0 <= i < |tags| && (forall d :: d in desired ==> d.name != tags[i].name) ==>
                r[i] == tags[i])
            && (forall i :: |tags| <= i < |r| ==> exists d :: d in desired && d.name == r[i].name)
    decreases |desired|
  {
    if desired != [] {
      var init, last := desired[..|desired| - 1], desired[|desired| - 1];
      UnrelatedTagsAreKept(tags, init);
      var r, s := MergedAll(tags, init), MergedAll(tags, desired);
      assert forall d :: d in init ==> d in desired;
      forall i | |tags| <= i < |s|
        ensures exists d :: d in desired && d.name == s[i].name
      {
        if i < |r| {
          assert s[i].name == r[i].name;
        } else {
          assert last in desired && last.name == s[i].name;
        }
      }
    }
  }

  predicate DistinctNames(tags: seq<SpecTag>) {
    forall i, j :: 0 <= i < j < |tags| ==> tags[i].name != tags[j].name
  }

  /** The tag that a list ends up with for one desired tag. */
  function MergedFor(tags: seq<SpecTag>, d: SpecTag): SpecTag {
    var i := Find(tags, d.name);
    if i < |tags| then MergedTag(tags[i], d) else d
  }

  lemma MergedHolds(tags: seq<SpecTag>, d: SpecTag)
    ensures var r := Merged(tags, d);
            Find(r, d.name) < |r| && r[Find(r, d.name)] == MergedFor(tags, d)
  {
    FindIsUnique(Merged(tags, d), d.name, Find(tags, d.name));
  }

  /** Merging one tag leaves the first tag of any other name where and as it was. */
  lemma MergedSpares(tags: seq<SpecTag>, d: SpecTag, name: string)
    requires name != d.name
    ensures var r := Merged(tags, d); var i := Find(tags, name);
            if i < |tags| then Find(r, name) == i && r[i] == tags[i] else Find(r, name) == |r|
  {
    var r, i := Merged(tags, d), Find(tags, name);
    FindIsUnique(r, name, if i < |tags| then i else |r|);
  }

  /** Every desired tag is merged into the first tag of its name, or appended as it is,
      whatever the other desired tags are. */
  lemma {:induction false} EveryDesiredTagIsMerged(tags: seq<SpecTag>, desired: seq<SpecTag>, k: nat)
    requires k < |desired| && DistinctNames(desired)
    ensures var r := MergedAll(tags, desired); var i := Find(r, desired[k].name);
            i < |r| && r[i] == MergedFor(tags, desired[k])
    decreases |desired|
  {
    var n := |desired| - 1;
    var init := desired[..n];
    if k < n {
      EveryDesiredTagIsMerged(tags, init, k);
      MergedSpares(MergedAll(tags, init), desired[n], desired[k].name);
    } else {
      OtherNamesAreSpared(tags, init, desired[n].name);
      MergedHolds(MergedAll(tags, init), desired[n]);
    }
  }

  lemma {:induction false} OtherNamesAreSpared(tags: seq<SpecTag>, desired: seq<SpecTag>, name: string)
    requires forall i :: 0 <= i < |desired| ==> desired[i].name != name
    ensures var r := MergedAll(tags, desired); var i := Find(tags, name);
            if i < |tags| then Find(r, name) == i < |r| && r[i] == tags[i] else Find(r, name) == |r|
    decreases |desired|
  {
    if desired != [] {
      var n := |desired| - 1;
      OtherNamesAreSpared(tags, desired[..n], name);
      MergedSpares(MergedAll(tags, desired[..n]), desired[n], name);
    }
  }

  /** A fresh import is requested exactly when the source is replaced; what others chose
      keeps both its source and its generation. */
  lemma SourceReplacedExactly(tag: SpecTag, source: string)
    ensures var r := MergedTag(tag, ConfiguredTag(source)); var configured := Some(ObjectRef("DockerImage", source));
            && (r.from == configured <==>
                  || tag.from.None? || tag.from == configured
                  || (tag.from.value.kind == "DockerImage" && tag.from.value.name == tag.managedSource))
            && (r.from != configured ==> r.from == tag.from && r.managedSource == tag.managedSource)
            && (r.from == configured ==> r.managedSource == source)
            && r.name == tag.name && r.settings == ConfiguredTag(source).settings
            && (r.from != tag.from ==> r.generation == Some(0))
            && (r.from == tag.from ==> r.generation == tag.generation)
            && (Managed(r) <==> r.from == configured)
  {
  }

  /** A second merge of the same source changes nothing, even after the import that the
      first one requested was given a generation. */
  lemma MergeIsIdempotent(tags: seq<SpecTag>, source: string, generation: Option<int>)
    ensures var r := Merged(tags, ConfiguredTag(source));
            var i := Find(r, StableTag);
            && i < |r|
            && var imported := r[i := r[i].(generation := generation)];
               Merged(imported, ConfiguredTag(source)) == imported
  {
    var d := ConfiguredTag(source);
    var r := Merged(tags, d);
    var k := Find(tags, StableTag);
    FindIsUnique(r, StableTag, k);
    var imported := r[k := r[k].(generation := generation)];
    FindIsUnique(imported, StableTag, k);
    assert MergedTag(imported[k], d) == imported[k];
  }

  /** What happens to the stable tag over time. */
  datatype Step =
    | Configure(source: string)
    | Import(generation: Option<int>)

  function After(tag: SpecTag, step: Step): SpecTag {
    match step
    case Configure(source) => MergedTag(tag, ConfiguredTag(source))
    case Import(generation) => tag.(generation := generation)
  }

  function Run(tag: SpecTag, steps: seq<Step>): SpecTag
    decreases |steps|
  {
    if steps == [] then tag else Run(After(tag, steps[0]), steps[1..])
  }

  function LastSource(steps: seq<Step>, source: string): string
    decreases |steps|
  {
    if steps == [] then source
    else LastSource(steps[1..], if steps[0].Configure? then steps[0].source else source)
  }

  predicate Configures(steps: seq<Step>, ref: ObjectRef) {
    exists i :: 0 <= i < |steps| && steps[i].Configure? && ref == ObjectRef(DockerImage, steps[i].source)
  }

  /** A managed tag follows the configuration forever. */
  lemma {:induction false} ManagedTagFollowsConfiguration(tag: SpecTag, steps: seq<Step>)
    requires Managed(tag) && tag.from.Some?
    ensures var r := Run(tag, steps);
            Managed(r) && r.from == Some(ObjectRef(DockerImage, LastSource(steps, tag.from.value.name)))
    decreases |steps|
  {
    if steps != [] {
      ManagedTagFollowsConfiguration(After(tag, steps[0]), steps[1..]);
    }
  }

  lemma OverrideStays(tag: SpecTag, steps: seq<Step>)
    requires !Managed(tag) && !Configures(steps, tag.from.value)
    ensures !Managed(Run(tag, steps)) && Run(tag, steps).from == tag.from
    decreases |steps|
  {
    if steps != [] {
      var rest := steps[1..];
      assert forall i :: 0 <= i < |rest| ==> rest[i] == steps[i + 1];
      assert !Configures(rest, tag.from.value);
      assert steps[0].Configure? ==> tag.from.value != ObjectRef(DockerImage, steps[0].source);
      OverrideStays(After(tag, steps[0]), rest);
    }
  }

  lemma {:induction false} OverrideIsTakenBack(tag: SpecTag, steps: seq<Step>)
    requires !Managed(tag) && Configures(steps, tag.from.value)
    ensures Managed(Run(tag, steps))
    decreases |steps|
  {
    var step, rest := steps[0], steps[1..];
    var next := After(tag, step);
    if step.Configure? && tag.from.value == ObjectRef(DockerImage, step.source) {
      ManagedTagFollowsConfiguration(next, rest);
    } else {
      var i :| 0 <= i < |steps| && steps[i].Configure? && tag.from.value == ObjectRef(DockerImage, steps[i].source);
      assert rest[i - 1] == steps[i];
      OverrideIsTakenBack(next, rest);
    }
  }

  /** A source chosen by somebody else is kept over any run, until the very same source
      is configured; from then on the tag is managed again. */
  lemma OverrideIsKeptExactly(tag: SpecTag, steps: seq<Step>)
    requires !Managed(tag)
    ensures Managed(Run(tag, steps)) <==> Configures(steps, tag.from.value)
    ensures !Configures(steps, tag.from.value) ==> Run(tag, steps).from == tag.from
  {
    if Configures(steps, tag.from.value) {
      OverrideIsTakenBack(tag, steps);
    } else {
      OverrideStays(tag, steps);
    }
  }
}
