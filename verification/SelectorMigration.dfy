/** Migration of immutable Deployment selectors by delete and recreate, under cached
    reads that return any earlier version. */
module SelectorMigration {
  import opened CatalogTypes

  type Labels = map<string, string>

  /** `matchLabels` as rendered. */
  datatype RenderedSelector = NoSelector | Malformed | Rendered(labels: Labels)

  datatype Resource = Resource(kind: string, key: string, selector: RenderedSelector)

  /** `held` means finalizers delay removal; `labelled` that the cache selects it. */
  datatype Deployment = Deployment(uid: string, selector: Option<Labels>, deleting: bool, held: bool, labelled: bool)

  datatype Version = Version(key: string, deployment: Deployment)

  datatype Deletion = Deletion(key: string, deployment: Deployment, desired: Labels)

  /** `ever` holds every version that ever existed. */
  datatype Api = Api(live: map<string, Deployment>, ever: set<Version>, log: seq<Deletion>)

  datatype Action =
    | Create(key: string, deployment: Deployment)
    | Change(key: string, deleting: bool, held: bool, labelled: bool)
    | Remove(key: string)

  datatype Sight = Fresh | Lagging(version: Option<Deployment>)

  /** What surrounds the calls made for one resource. */
  datatype Turn = Turn(
    beforeGet: seq<Action>, getFailed: bool, sight: Sight,
    beforeFallback: seq<Action>, fallbackFailed: bool, secondSight: Sight,
    beforeDelete: seq<Action>, deleteFailed: bool)

  const QuietTurn := Turn([], false, Fresh, [], false, Fresh, [], false)

  datatype Progress = Progress(api: Api, pending: bool, failed: bool)

  /** A UID names one object, whose key and selector never change. */
  predicate Valid(a: Api) {
    && (forall k :: k in a.live ==> Version(k, a.live[k]) in a.ever)
    && (forall u, v :: u in a.ever && v in a.ever && u.deployment.uid == v.deployment.uid ==>
          u.key == v.key && u.deployment.selector == v.deployment.selector)
  }

  predicate Used(a: Api, uid: string) {
    exists v :: v in a.ever && v.deployment.uid == uid
  }

  function Put(a: Api, key: string, d: Deployment): Api {
    a.(live := a.live[key := d], ever := a.ever + {Version(key, d)})
  }

  /** UIDs are fresh, selectors immutable and deletion irrevocable. */
  function Act(a: Api, action: Action): Api {
    match action
    case Create(key, d) => if key in a.live || Used(a, d.uid) then a else Put(a, key, d.(deleting := false))
    case Change(key, deleting, held, labelled) =>
      if key !in a.live then a
      else Put(a, key, a.live[key].(deleting := a.live[key].deleting || deleting, held := held, labelled := labelled))
    case Remove(key) => a.(live := a.live - {key})
  }

  function Interfere(a: Api, actions: seq<Action>): Api
    decreases |actions|
  {
    if actions == [] then a else Interfere(Act(a, actions[0]), actions[1..])
  }

  function Lookup(a: Api, key: string): Option<Deployment> {
    if key in a.live then Some(a.live[key]) else None
  }

  /** The label-scoped cache shows the current version, or any earlier one, or nothing. */
  function CachedRead(a: Api, key: string, sight: Sight): Option<Deployment> {
    if sight.Fresh? then
      if key in a.live && a.live[key].labelled then Some(a.live[key]) else None
    else if sight.version.Some? && Version(key, sight.version.value) in a.ever then sight.version
    else None
  }

  /** Deletes only the object with this UID. */
  function DeleteExact(a: Api, key: string, uid: string, desired: Labels): Api {
    if key !in a.live || a.live[key].uid != uid then a
    else
      var logged := a.(log := a.log + [Deletion(key, a.live[key], desired)]);
      if a.live[key].held then Put(logged, key, a.live[key].(deleting := true)) else logged.(live := a.live - {key})
  }

  predicate Checked(r: Resource) {
    r.kind == "Deployment" && r.selector.Rendered? && r.selector.labels != map[]
  }

  predicate Incompatible(d: Deployment, desired: Labels) {
    !d.deleting && d.selector.Some? && d.selector.value != desired
  }

  /** What is done about the version that was read. */
  function Judged(a: Api, r: Resource, d: Deployment, t: Turn): Progress
    requires Checked(r)
  {
    if d.deleting then Progress(a, true, false)
    else if !Incompatible(d, r.selector.labels) then Progress(a, false, false)
    else
      var b := Interfere(a, t.beforeDelete);
      if t.deleteFailed then Progress(b, false, true)
      else Progress(DeleteExact(b, r.key, d.uid, r.selector.labels), true, false)
  }

  function Visited(a: Api, r: Resource, t: Turn, uncached: bool): Progress {
    if r.kind == "Deployment" && r.selector.Malformed? then Progress(a, false, true)
    else if !Checked(r) then Progress(a, false, false)
    else
      var b := Interfere(a, t.beforeGet);
      if t.getFailed then Progress(b, false, true)
      else
        var seen := CachedRead(b, r.key, t.sight);
        if seen.Some? then Judged(b, r, seen.value, t)
        else
          var c := Interfere(b, t.beforeFallback);
          var found := if uncached then Lookup(c, r.key) else CachedRead(c, r.key, t.secondSight);
          if t.fallbackFailed then Progress(c, false, true)
          else if found.None? then Progress(c, false, false)
          else Judged(c, r, found.value, t)
  }

  function TurnAt(turns: seq<Turn>, i: nat): Turn {
    if i < |turns| then turns[i] else QuietTurn
  }

  /** The first error ends the pass; otherwise the pass is pending if any visit was. */
  function Pass(a: Api, resources: seq<Resource>, turns: seq<Turn>, uncached: bool): Progress {
    if resources == [] then Progress(a, false, false)
    else
      var n := |resources| - 1;
      var p := Pass(a, resources[..n], turns, uncached);
      if p.failed then p
      else
        var v := Visited(p.api, resources[n], TurnAt(turns, n), uncached);
        Progress(v.api, !v.failed && (p.pending || v.pending), v.failed)
  }

  class Reconciler {
    const uncached: bool
    var live: map<string, Deployment>
    var ever: set<Version>
    var log: seq<Deletion>

    constructor (a: Api, uncached: bool)
      ensures State() == a && this.uncached == uncached
    {
      this.uncached, live, ever, log := uncached, a.live, a.ever, a.log;
    }

    function State(): Api
      reads this
    {
      Api(live, ever, log)
    }

    method Disturb(actions: seq<Action>)
      modifies this
      ensures State() == Interfere(old(State()), actions)
    {
      var a := Interfere(State(), actions);
      live, ever, log := a.live, a.ever, a.log;
    }

    /** The cached read with its uncached fallback. */
    method FindLive(key: string, t: Turn) returns (found: Option<Deployment>, failed: bool)
      modifies this
      ensures var b := Interfere(old(State()), t.beforeGet);
              var seen := CachedRead(b, key, t.sight);
              var c := Interfere(b, t.beforeFallback);
              if t.getFailed || seen.Some? then State() == b && failed == t.getFailed && found == seen
              else State() == c && failed == t.fallbackFailed
                   && found == (if uncached then Lookup(c, key) else CachedRead(c, key, t.secondSight))
    {
      Disturb(t.beforeGet);
      found, failed := CachedRead(State(), key, t.sight), t.getFailed;
      if !failed && found.None? {
        Disturb(t.beforeFallback);
        found := if uncached then Lookup(State(), key) else CachedRead(State(), key, t.secondSight);
        failed := t.fallbackFailed;
      }
    }

    /** Bound to the object that was read; a missing or replaced object is left alone. */
    method Delete(key: string, uid: string, desired: Labels)
      modifies this
      ensures State() == DeleteExact(old(State()), key, uid, desired)
    {
      if key in live && live[key].uid == uid {
        log := log + [Deletion(key, live[key], desired)];
        if live[key].held {
          var marked := live[key].(deleting := true);
          live, ever := live[key := marked], ever + {Version(key, marked)};
        } else {
          live := live - {key};
        }
      }
    }

    method ReconcileIncompatibleSelectors(
      resources: seq<Resource>, turns: seq<Turn>) returns (pending: bool, failed: bool)
      modifies this
      ensures Progress(State(), pending, failed) == Pass(old(State()), resources, turns, uncached)
    {
      pending, failed := false, false;
      for i := 0 to |resources|
        invariant !failed && Progress(State(), pending, failed) == Pass(old(State()), resources[..i], turns, uncached)
      {
        var r, t := resources[i], TurnAt(turns, i);
        assert resources[..i + 1][..i] == resources[..i];
        ghost var visited := Visited(State(), r, t, uncached);
        ghost var first := Pass(old(State()), resources[..i + 1], turns, uncached);
        assert first == Progress(visited.api, !visited.failed && (pending || visited.pending), visited.failed);
        if r.kind != "Deployment" {
          continue;
        }
        if r.selector.Malformed? {
          StopsEarly(old(State()), resources, turns, uncached, i + 1);
          return false, true;
        }
        if r.selector.NoSelector? || r.selector.labels == map[] {
          continue;
        }
        var found, broken := FindLive(r.key, t);
        if broken {
          StopsEarly(old(State()), resources, turns, uncached, i + 1);
          return false, true;
        }
        if found.None? {
          continue;
        }
        if found.value.deleting {
          pending := true;
          continue;
        }
        if found.value.selector.None? || found.value.selector.value == r.selector.labels {
          continue;
        }
        Disturb(t.beforeDelete);
        if t.deleteFailed {
          StopsEarly(old(State()), resources, turns, uncached, i + 1);
          return false, true;
        }
        Delete(r.key, found.value.uid, r.selector.labels);
        pending := true;
      }
      assert resources[..|resources|] == resources;
    }
  }

  /** Nothing after an error is visited. */
  lemma {:induction false} StopsEarly(a: Api, resources: seq<Resource>, turns: seq<Turn>, uncached: bool, n: nat)
    requires n <= |resources| && Pass(a, resources[..n], turns, uncached).failed
    ensures Pass(a, resources, turns, uncached) == Pass(a, resources[..n], turns, uncached)
    decreases |resources|
  {
    if n == |resources| {
      assert resources[..n] == resources;
    } else {
      var m := |resources| - 1;
      assert resources[..m][..n] == resources[..n];
      StopsEarly(a, resources[..m], turns, uncached, n);
    }
  }

  /** A visit fails exactly on a selector that cannot be read, or when a call it gets to
      fails: the read, the fallback of a read that found nothing, or the delete of an
      incompatible Deployment. */
  lemma VisitFailsExactly(a: Api, r: Resource, t: Turn, uncached: bool)
    ensures var b := Interfere(a, t.beforeGet);
            var c := Interfere(b, t.beforeFallback);
            var seen := CachedRead(b, r.key, t.sight);
            var found := if seen.Some? then seen
                         else if uncached then Lookup(c, r.key) else CachedRead(c, r.key, t.secondSight);
            Visited(a, r, t, uncached).failed <==>
              && r.kind == "Deployment"
              && (|| r.selector.Malformed?
                  || (&& r.selector.Rendered? && r.selector.labels != map[]
                      && (|| t.getFailed
                          || (seen.None? && t.fallbackFailed)
                          || (&& t.deleteFailed && found.Some? && !found.value.deleting && found.value.selector.Some?
                              && found.value.selector.value != r.selector.labels))))
  {
  }

  /** And the pass ends with it, pending or not. */
  lemma PassEndsWithFailure(a: Api, resources: seq<Resource>, turns: seq<Turn>, uncached: bool)
    ensures Pass(a, resources, turns, uncached).failed ==> !Pass(a, resources, turns, uncached).pending
  {
  }

  // ----- A matching Deployment is never deleted -----

  predicate Mismatch(d: Deployment, desired: Labels) {
    d.selector.Some? && d.selector.value != desired
  }

  /** The deletion hit a live Deployment whose selector differs from the one rendered
      under its name. */
  predicate Justified(e: Deletion, rendered: set<Resource>) {
    && Mismatch(e.deployment, e.desired)
    && e.desired != map[]
    && Resource("Deployment", e.key, Rendered(e.desired)) in rendered
  }

  predicate OnlyMismatches(a: Api, rendered: set<Resource>) {
    forall i :: 0 <= i < |a.log| ==> Justified(a.log[i], rendered)
  }

  lemma ActKeepsValid(a: Api, action: Action)
    requires Valid(a)
    ensures Valid(Act(a, action)) && Act(a, action).log == a.log
  {
    if action.Change? && action.key in a.live {
      assert Version(action.key, a.live[action.key]) in a.ever;
    }
  }

  lemma {:induction false} InterferenceKeepsValid(a: Api, actions: seq<Action>)
    requires Valid(a)
    ensures Valid(Interfere(a, actions)) && Interfere(a, actions).log == a.log
    ensures forall v :: v in a.ever ==> v in Interfere(a, actions).ever
    decreases |actions|
  {
    if actions != [] {
      ActKeepsValid(a, actions[0]);
      InterferenceKeepsValid(Act(a, actions[0]), actions[1..]);
    }
  }

  /** A version read at any time tells the selector of whatever carries its UID now. */
  lemma DeleteHitsWhatWasRead(a: Api, key: string, read: Deployment, desired: Labels)
    requires Valid(a) && Version(key, read) in a.ever
    ensures Valid(DeleteExact(a, key, read.uid, desired))
    ensures key in a.live && a.live[key].uid == read.uid ==> a.live[key].selector == read.selector
  {
    if key in a.live && a.live[key].uid == read.uid {
      assert Version(key, a.live[key]) in a.ever;
    }
  }

  /** A delete bound to a UID touches that object alone: it is removed, or marked if
      finalizers hold it; under another UID, or none, nothing happens. */
  lemma BoundDeleteExactly(a: Api, key: string, uid: string, desired: Labels)
    ensures var b := DeleteExact(a, key, uid, desired);
            && (forall k :: k != key ==> Lookup(b, k) == Lookup(a, k))
            && (Lookup(a, key).None? || a.live[key].uid != uid ==> b == a)
            && (Lookup(a, key).Some? && a.live[key].uid == uid ==>
                  && b.log == a.log + [Deletion(key, a.live[key], desired)]
                  && Lookup(b, key) == (if a.live[key].held then Some(a.live[key].(deleting := true)) else None))
  {
  }

  lemma JudgedIsSafe(a: Api, r: Resource, d: Deployment, t: Turn, rendered: set<Resource>)
    requires Checked(r) && r in rendered && Valid(a) && OnlyMismatches(a, rendered) && Version(r.key, d) in a.ever
    ensures Valid(Judged(a, r, d, t).api) && OnlyMismatches(Judged(a, r, d, t).api, rendered)
  {
    if Incompatible(d, r.selector.labels) {
      InterferenceKeepsValid(a, t.beforeDelete);
      DeleteHitsWhatWasRead(Interfere(a, t.beforeDelete), r.key, d, r.selector.labels);
    }
  }

  lemma VisitIsSafe(a: Api, r: Resource, t: Turn, uncached: bool, rendered: set<Resource>)
    requires r in rendered && Valid(a) && OnlyMismatches(a, rendered)
    ensures Valid(Visited(a, r, t, uncached).api) && OnlyMismatches(Visited(a, r, t, uncached).api, rendered)
  {
    if Checked(r) {
      var b := Interfere(a, t.beforeGet);
      InterferenceKeepsValid(a, t.beforeGet);
      var seen := CachedRead(b, r.key, t.sight);
      if seen.Some? {
        JudgedIsSafe(b, r, seen.value, t, rendered);
      } else {
        var c := Interfere(b, t.beforeFallback);
        InterferenceKeepsValid(b, t.beforeFallback);
        var found := if uncached then Lookup(c, r.key) else CachedRead(c, r.key, t.secondSight);
        if found.Some? {
          JudgedIsSafe(c, r, found.value, t, rendered);
        }
      }
    }
  }

  lemma {:induction false} PassIsSafe(
    a: Api, resources: seq<Resource>, turns: seq<Turn>, uncached: bool, rendered: set<Resource>)
    requires Valid(a) && OnlyMismatches(a, rendered) && forall r :: r in resources ==> r in rendered
    ensures var p := Pass(a, resources, turns, uncached).api; Valid(p) && OnlyMismatches(p, rendered)
    decreases |resources|
  {
    if resources != [] {
      var n := |resources| - 1;
      PassIsSafe(a, resources[..n], turns, uncached, rendered);
      VisitIsSafe(Pass(a, resources[..n], turns, uncached).api, resources[n], TurnAt(turns, n), uncached, rendered);
    }
  }

  /** One pass, then whatever else happens. */
  datatype Round = Round(resources: seq<Resource>, turns: seq<Turn>, uncached: bool, between: seq<Action>)

  function Rounds(a: Api, rounds: seq<Round>): Api
    decreases |rounds|
  {
    if rounds == [] then a
    else
      var r := rounds[0];
      Rounds(Interfere(Pass(a, r.resources, r.turns, r.uncached).api, r.between), rounds[1..])
  }

  predicate Renders(rounds: seq<Round>, rendered: set<Resource>) {
    forall i, r :: 0 <= i < |rounds| && r in rounds[i].resources ==> r in rendered
  }

  /** In every run, however stale the reads, no deleted Deployment had the selector
      rendered for it. */
  lemma {:induction false} MatchingDeploymentIsNeverDeleted(a: Api, rounds: seq<Round>, rendered: set<Resource>)
    requires Valid(a) && OnlyMismatches(a, rendered) && Renders(rounds, rendered)
    ensures Valid(Rounds(a, rounds)) && OnlyMismatches(Rounds(a, rounds), rendered)
    decreases |rounds|
  {
    if rounds != [] {
      var r := rounds[0];
      PassIsSafe(a, r.resources, r.turns, r.uncached, rendered);
      var p := Pass(a, r.resources, r.turns, r.uncached).api;
      InterferenceKeepsValid(p, r.between);
      MatchingDeploymentIsNeverDeleted(Interfere(p, r.between), rounds[1..], rendered);
    }
  }

  // ----- Convergence -----

  /** No live Deployment, deleting or not, has a selector other than the rendered one. */
  predicate Migrated(a: Api, rendered: set<Resource>) {
    forall r :: r in rendered && Checked(r) && r.key in a.live ==> !Mismatch(a.live[r.key], r.selector.labels)
  }

  /** Whoever creates Deployments under rendered names uses the rendered selector. */
  predicate Conforms(actions: seq<Action>, rendered: set<Resource>) {
    forall i, r ::
      0 <= i < |actions| && actions[i].Create? && r in rendered && Checked(r) && r.key == actions[i].key ==>
        !Mismatch(actions[i].deployment, r.selector.labels)
  }

  predicate TurnConforms(t: Turn, rendered: set<Resource>) {
    Conforms(t.beforeGet, rendered) && Conforms(t.beforeFallback, rendered) && Conforms(t.beforeDelete, rendered)
  }

  lemma {:induction false} InterferenceKeepsMigrated(a: Api, actions: seq<Action>, rendered: set<Resource>)
    requires Valid(a) && Migrated(a, rendered) && Conforms(actions, rendered)
    ensures var b := Interfere(a, actions); Valid(b) && Migrated(b, rendered) && b.log == a.log && a.ever <= b.ever
    decreases |actions|
  {
    if actions != [] {
      ActKeepsValid(a, actions[0]);
      var rest := actions[1..];
      assert Conforms(rest, rendered) by {
        assert forall i :: 0 <= i < |rest| ==> rest[i] == actions[i + 1];
      }
      InterferenceKeepsMigrated(Act(a, actions[0]), rest, rendered);
    }
  }

  lemma JudgedDeletesNothing(a: Api, r: Resource, d: Deployment, t: Turn, rendered: set<Resource>)
    requires Valid(a) && Migrated(a, rendered) && TurnConforms(t, rendered)
    requires Checked(r) && r in rendered && Version(r.key, d) in a.ever
    ensures var b := Judged(a, r, d, t).api; Valid(b) && Migrated(b, rendered) && b.log == a.log
  {
    if Incompatible(d, r.selector.labels) {
      var b := Interfere(a, t.beforeDelete);
      InterferenceKeepsMigrated(a, t.beforeDelete, rendered);
      DeleteHitsWhatWasRead(b, r.key, d, r.selector.labels);
    }
  }

  lemma VisitDeletesNothing(a: Api, r: Resource, t: Turn, uncached: bool, rendered: set<Resource>)
    requires Valid(a) && Migrated(a, rendered) && TurnConforms(t, rendered) && r in rendered
    ensures var b := Visited(a, r, t, uncached).api; Valid(b) && Migrated(b, rendered) && b.log == a.log
  {
    if Checked(r) {
      var b := Interfere(a, t.beforeGet);
      InterferenceKeepsMigrated(a, t.beforeGet, rendered);
      var seen := CachedRead(b, r.key, t.sight);
      if seen.Some? {
        JudgedDeletesNothing(b, r, seen.value, t, rendered);
      } else {
        var c := Interfere(b, t.beforeFallback);
        InterferenceKeepsMigrated(b, t.beforeFallback, rendered);
        var found := if uncached then Lookup(c, r.key) else CachedRead(c, r.key, t.secondSight);
        if found.Some? {
          JudgedDeletesNothing(c, r, found.value, t, rendered);
        }
      }
    }
  }

  lemma {:induction false} PassDeletesNothing(
    a: Api, resources: seq<Resource>, turns: seq<Turn>, uncached: bool, rendered: set<Resource>)
    requires Valid(a) && Migrated(a, rendered) && (forall t :: t in turns ==> TurnConforms(t, rendered))
    requires forall r :: r in resources ==> r in rendered
    ensures var p := Pass(a, resources, turns, uncached).api; Valid(p) && Migrated(p, rendered) && p.log == a.log
    decreases |resources|
  {
    if resources != [] {
      var n := |resources| - 1;
      PassDeletesNothing(a, resources[..n], turns, uncached, rendered);
      VisitDeletesNothing(Pass(a, resources[..n], turns, uncached).api, resources[n], TurnAt(turns, n), uncached,
          rendered);
    }
  }

  predicate RoundConforms(r: Round, rendered: set<Resource>) {
    && (forall x :: x in r.resources ==> x in rendered)
    && (forall t :: t in r.turns ==> TurnConforms(t, rendered)) && Conforms(r.between, rendered)
  }

  /** Once migrated, no run deletes anything, even on reads of the old Deployments. */
  lemma {:induction false} NoDeletionAfterMigration(a: Api, rounds: seq<Round>, rendered: set<Resource>)
    requires Valid(a) && Migrated(a, rendered) && forall i :: 0 <= i < |rounds| ==> RoundConforms(rounds[i], rendered)
    ensures var b := Rounds(a, rounds); Migrated(b, rendered) && b.log == a.log
    decreases |rounds|
  {
    if rounds != [] {
      var r := rounds[0];
      PassDeletesNothing(a, r.resources, r.turns, r.uncached, rendered);
      var p := Pass(a, r.resources, r.turns, r.uncached).api;
      InterferenceKeepsMigrated(p, r.between, rendered);
      NoDeletionAfterMigration(Interfere(p, r.between), rounds[1..], rendered);
    }
  }

  /** Something under this name is being, or has to be, replaced. */
  predicate Outdated(a: Api, r: Resource) {
    && r.kind == "Deployment" && r.selector.Rendered? && r.selector.labels != map[] && r.key in a.live
    && (|| a.live[r.key].deleting
        || (a.live[r.key].selector.Some? && a.live[r.key].selector.value != r.selector.labels))
  }

  predicate AnyOutdated(a: Api, resources: seq<Resource>) {
    exists i :: 0 <= i < |resources| && Outdated(a, resources[i])
  }

  predicate Clean(a: Api, r: Resource) {
    r.kind == "Deployment" && r.selector.Rendered? && r.selector.labels != map[] && r.key in a.live ==>
      || a.live[r.key].deleting || a.live[r.key].selector.None?
      || a.live[r.key].selector.value == r.selector.labels
  }

  /** Gone, or deleting but held back by finalizers. */
  predicate Doomed(before: Api, after: Api, key: string) {
    key in before.live && (key !in after.live || (before.live[key].held && after.live[key].deleting))
  }

  /** Only outdated names change, and only towards deletion. */
  ghost predicate Frame(before: Api, after: Api, resources: seq<Resource>) {
    forall k :: Lookup(after, k) != Lookup(before, k) ==>
      && Doomed(before, after, k)
      && exists i :: 0 <= i < |resources| && resources[i].key == k && Outdated(before, resources[i])
  }

  /** A Deployment whose rendered selector cannot be read. */
  predicate Unreadable(r: Resource) {
    r.kind == "Deployment" && r.selector.Malformed?
  }

  lemma QuietVisit(a: Api, r: Resource)
    requires !Unreadable(r)
    ensures var v := Visited(a, r, QuietTurn, true);
            && !v.failed && v.pending == Outdated(a, r) && Clean(v.api, r)
            && forall k :: Lookup(v.api, k) != Lookup(a, k) ==>
                 k == r.key && Outdated(a, r) && !a.live[k].deleting && Doomed(a, v.api, k)
  {
    assert Interfere(a, []) == a;
  }

  lemma FrameNext(a: Api, b: Api, c: Api, resources: seq<Resource>, r: Resource)
    requires Frame(a, b, resources)
    requires forall k :: Lookup(c, k) != Lookup(b, k) ==>
        k == r.key && Outdated(b, r) && !b.live[k].deleting && Doomed(b, c, k)
    ensures Frame(a, c, resources + [r])
  {
    var all := resources + [r];
    forall k | Lookup(c, k) != Lookup(a, k)
      ensures Doomed(a, c, k)
      ensures exists i :: 0 <= i < |all| && all[i].key == k && Outdated(a, all[i])
    {
      if Lookup(b, k) != Lookup(a, k) {
        var i :| 0 <= i < |resources| && resources[i].key == k && Outdated(a, resources[i]);
        assert all[i].key == k && Outdated(a, all[i]);
      } else {
        assert all[|resources|].key == k && Outdated(a, all[|resources|]);
      }
    }
  }

  /** The last resource is outdated before it is visited exactly if it was at the start,
      unless the pass is pending already. */
  lemma PendingNext(a: Api, b: Api, resources: seq<Resource>, r: Resource)
    requires Frame(a, b, resources)
    ensures AnyOutdated(a, resources + [r]) <==> AnyOutdated(a, resources) || Outdated(b, r)
  {
    var all := resources + [r];
    if Lookup(b, r.key) == Lookup(a, r.key) {
      assert Outdated(a, r) == Outdated(b, r);
    }
    if AnyOutdated(a, resources) {
      var i :| 0 <= i < |resources| && Outdated(a, resources[i]);
      assert Outdated(a, all[i]);
    } else if Outdated(b, r) {
      assert Outdated(a, all[|resources|]);
    }
  }

  /** A pass with current reads and no interference is pending exactly when something is
      outdated, leaves nothing incompatible undeleted, and touches nothing else. */
  lemma {:induction false} QuietPassIsExact(a: Api, resources: seq<Resource>)
    requires forall r :: r in resources ==> !Unreadable(r)
    ensures var p := Pass(a, resources, [], true);
            && !p.failed && (p.pending <==> AnyOutdated(a, resources))
            && (forall i :: 0 <= i < |resources| ==> Clean(p.api, resources[i]))
            && Frame(a, p.api, resources)
    decreases |resources|
  {
    if resources != [] {
      var n := |resources| - 1;
      var init, r := resources[..n], resources[n];
      QuietPassIsExact(a, init);
      var b := Pass(a, init, [], true).api;
      var v := Visited(b, r, QuietTurn, true);
      QuietVisit(b, r);
      assert resources == init + [r];
      FrameNext(a, b, v.api, init, r);
      PendingNext(a, b, init, r);
      forall i | 0 <= i < n
        ensures Clean(v.api, resources[i])
      {
        assert resources[i] == init[i] && Clean(b, init[i]);
        assert Lookup(v.api, init[i].key) == Lookup(b, init[i].key) || Clean(v.api, init[i]);
      }
    }
  }

  /** Left alone, a pass fails exactly on a selector that cannot be read. */
  lemma {:induction false} QuietPassFailsExactly(a: Api, resources: seq<Resource>)
    ensures Pass(a, resources, [], true).failed <==> exists i :: 0 <= i < |resources| && Unreadable(resources[i])
    ensures Pass(a, resources, [], true).failed ==> !Pass(a, resources, [], true).pending
    decreases |resources|
  {
    if resources != [] {
      var n := |resources| - 1;
      QuietPassFailsExactly(a, resources[..n]);
      assert forall i :: 0 <= i < n ==> resources[..n][i] == resources[i];
      var p := Pass(a, resources[..n], [], true);
      if !p.failed && !Unreadable(resources[n]) {
        QuietVisit(p.api, resources[n]);
      }
    }
  }

  /** Unless finalizers hold a Deployment back, one such pass completes the migration. */
  lemma QuietPassMigrates(a: Api, resources: seq<Resource>)
    requires forall r :: r in resources ==> !Unreadable(r)
    requires forall r :: r in resources && r.key in a.live ==> !a.live[r.key].deleting && !a.live[r.key].held
    ensures Migrated(Pass(a, resources, [], true).api, set r | r in resources)
  {
    QuietPassIsExact(a, resources);
    var b := Pass(a, resources, [], true).api;
    forall i | 0 <= i < |resources| && Checked(resources[i]) && resources[i].key in b.live
      ensures !Mismatch(b.live[resources[i].key], resources[i].selector.labels)
    {
      assert Clean(b, resources[i]);
      assert Lookup(b, resources[i].key) == Lookup(a, resources[i].key);
    }
  }
}
