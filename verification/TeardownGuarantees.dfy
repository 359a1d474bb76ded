/** What holds of AIHub teardown in every interleaving. */
module TeardownGuarantees {
  import opened CatalogTypes
  import opened Teardown

  predicate Begins(w: World) {
    WellFormed(w.api.cluster) && w.point.Start? && w.api.log == []
  }

  predicate Follows(v: World, w: World) {
    WellFormed(v.api.cluster) && w == Next(v)
  }

  /** A run written out as the states it goes through. */
  predicate IsRun(worlds: seq<World>) {
    && worlds != []
    && (if |worlds| == 1 then Begins(worlds[0])
        else IsRun(worlds[..|worlds| - 1]) && Follows(worlds[|worlds| - 2], worlds[|worlds| - 1]))
  }

  function Last(worlds: seq<World>): World
    requires worlds != []
  {
    worlds[|worlds| - 1]
  }

  /** The states of a run but the last. */
  function Earlier(worlds: seq<World>): seq<World>
    requires worlds != []
  {
    worlds[..|worlds| - 1]
  }

  // ----- Cleanup before the finalizer -----

  /** The event happened in the current pass. */
  predicate InPass(log: seq<Event>, e: Event) {
    && log != []
    && var last := log[|log| - 1];
       !last.PassBegan? && (last == e || InPass(log[..|log| - 1], e))
  }

  /** The operand was removed in the current pass and not created since. */
  predicate GoneInPass(log: seq<Event>, operand: Operand) {
    && log != []
    && var last := log[|log| - 1];
       !last.PassBegan? && last != Created(operand) && (last == Removed(operand)
           || GoneInPass(log[..|log| - 1], operand))
  }

  /** A finalizer is dropped only after the operator was found unable and every operand
      was removed, all in the same pass; an operand still there was created since. */
  predicate Justified(before: seq<Event>, e: Event) {
    e.Stripped? ==>
      && InPass(before, FoundUnable)
      && forall k: Operand :: InPass(before, Removed(k)) && (k in e.operands ==> !GoneInPass(before, k))
  }

  predicate AllJustified(log: seq<Event>) {
    forall i :: 0 <= i < |log| ==> Justified(log[..i], log[i])
  }

  predicate AllRemoved(log: seq<Event>) {
    && InPass(log, FoundUnable) && InPass(log, Removed(GatewayRoute))
    && InPass(log, Removed(AuthDelegatorBinding)) && InPass(log, Removed(ProxyConfig))
  }

  predicate Removals(log: seq<Event>, p: Point) {
    match p
    case Removing(operand) =>
      && InPass(log, FoundUnable)
      && (operand != GatewayRoute ==> InPass(log, Removed(GatewayRoute)))
      && (operand == ProxyConfig ==> InPass(log, Removed(AuthDelegatorBinding)))
    case Rereading(_) => AllRemoved(log)
    case Updating(_, _) => AllRemoved(log)
    case _ => true
  }

  predicate GoneAreAbsent(a: Api) {
    forall k: Operand :: GoneInPass(a.log, k) ==> k !in a.cluster.operands
  }

  predicate Tidy(a: Api, p: Point) {
    AllJustified(a.log) && Removals(a.log, p) && GoneAreAbsent(a)
  }

  lemma Appended(log: seq<Event>, e: Event)
    ensures forall f :: InPass(log + [e], f) <==> !e.PassBegan? && (e == f || InPass(log, f))
    ensures forall k :: GoneInPass(log + [e], k) <==>
        !e.PassBegan? && e != Created(k) && (e == Removed(k) || GoneInPass(log, k))
    ensures AllJustified(log) && Justified(log, e) ==> AllJustified(log + [e])
  {
    assert (log + [e])[..|log|] == log;
    forall i | 0 <= i < |log|
      ensures (log + [e])[..i] == log[..i]
    {
    }
  }

  lemma {:induction false} InterferenceKeepsTidy(a: Api, actions: seq<Action>, p: Point)
    requires WellFormed(a.cluster) && Tidy(a, p)
    ensures Tidy(Interfere(a, actions), p)
    decreases |actions|
  {
    if actions != [] {
      if actions[0].CreateOperand? {
        Appended(a.log, Created(actions[0].operand));
      }
      var rest := a.(cluster := Act(a.cluster, actions[0]),
                     log := if actions[0].CreateOperand? then a.log + [Created(actions[0].operand)] else a.log);
      InterferenceKeepsTidy(rest, actions[1..], p);
    }
  }

  lemma RemovalIsTidy(a: Api, operand: Operand)
    requires WellFormed(a.cluster) && Tidy(a, Removing(operand))
    ensures Tidy(RemoveOperand(a, operand), NextRemoval(operand))
  {
    Appended(a.log, Removed(operand));
  }

  lemma StripIsTidy(a: Api, read: nat, tries: nat)
    requires WellFormed(a.cluster) && Tidy(a, Updating(read, tries)) && HoldsFinalizer(Current(a.cluster.catalogs))
    ensures Tidy(Strip(a), Start)
  {
    var e := Stripped(Current(a.cluster.catalogs).value, a.cluster.operands);
    forall k: Operand
      ensures InPass(a.log, Removed(k))
    {
      match k
      case GatewayRoute =>
      case AuthDelegatorBinding =>
      case ProxyConfig =>
    }
    assert Justified(a.log, e);
    Appended(a.log, e);
  }

  /** Points that rest on no removal. */
  predicate Preliminary(p: Point) {
    !p.Removing? && !p.Rereading? && !p.Updating?
  }

  lemma OtherEventIsTidy(a: Api, p: Point, e: Event, catalogs: seq<Option<CatalogObject>>, q: Point)
    requires Tidy(a, p) && !e.Created? && !e.Removed? && !e.Stripped?
    requires Preliminary(q) || (q == Removing(GatewayRoute) && e == FoundUnable)
    ensures Tidy(a.(log := a.log + [e], cluster := a.cluster.(catalogs := catalogs)), q)
  {
    Appended(a.log, e);
  }

  lemma CallKeepsTidy(a: Api, p: Point, failed: bool, lag: nat)
    requires WellFormed(a.cluster) && Tidy(a, p)
    ensures var w := Call(a, p, failed, lag); Tidy(w.api, w.point)
  {
    var w := Call(a, p, failed, lag);
    var current := Current(a.cluster.catalogs);
    match p
    case Start => OtherEventIsTidy(a, p, PassBegan, w.api.cluster.catalogs, w.point);
    case Deleting => if !failed && current.Some? { OtherEventIsTidy(a, p, CatalogDeleted(current.value),
        w.api.cluster.catalogs, w.point); }
    case CheckingOperator => if !w.point.Start? { OtherEventIsTidy(a, p, FoundUnable, w.api.cluster.catalogs, w.point);
        }
    case Removing(operand) => if !failed { RemovalIsTidy(a, operand); }
    case Updating(read, tries) => if HoldsFinalizer(current) { StripIsTidy(a, read, tries); }
    case Releasing => if !failed { OtherEventIsTidy(a, p, Dropped(current), w.api.cluster.catalogs, w.point); }
    case _ =>
  }

  lemma NextKeepsTidy(w: World)
    requires WellFormed(w.api.cluster) && Tidy(w.api, w.point)
    ensures Tidy(Next(w).api, Next(w).point)
  {
    InterferenceKeepsTidy(w.api, NextTurn(w.api).actions, w.point);
    CallKeepsTidy(Arrived(w.api), w.point, NextTurn(w.api).failed, NextTurn(w.api).lag);
  }

  lemma {:induction false} RunsStayTidy(worlds: seq<World>)
    requires IsRun(worlds)
    ensures WellFormed(Last(worlds).api.cluster) && Tidy(Last(worlds).api, Last(worlds).point)
  {
    if |worlds| > 1 {
      RunsStayTidy(Earlier(worlds));
      NextKeepsTidy(Last(Earlier(worlds)));
    }
  }

  /** In every run, whatever lags, fails or interferes. */
  lemma FinalizerStrippedOnlyAfterCleanup(worlds: seq<World>, i: nat)
    requires IsRun(worlds) && i < |Last(worlds).api.log| && Last(worlds).api.log[i].Stripped?
    ensures var log := Last(worlds).api.log;
            && InPass(log[..i], FoundUnable)
            && forall k: Operand ::
                 InPass(log[..i], Removed(k)) && (k in log[i].operands ==> !GoneInPass(log[..i], k))
  {
    RunsStayTidy(worlds);
  }

  /** A failed call changes nothing and ends the pass, whichever call it is. */
  lemma FailedCallEndsPass(a: Api, p: Point, lag: nat)
    requires WellFormed(a.cluster)
    ensures Call(a, p, true, lag).api == (if p.Start? then a.(log := a.log + [PassBegan]) else a)
    ensures Call(a, p, true, lag).point == (if p.Released? then Released else Start)
  {
  }

  /** A newer version makes the update conflict; it is retried on a fresh read, five
      updates in all, before the pass ends. */
  lemma ConflictsAreRetried(a: Api, read: nat, tries: nat, lag: nat)
    requires WellFormed(a.cluster) && Current(a.cluster.catalogs).Some? && read != |a.cluster.catalogs| - 1
    ensures Call(a, Updating(read, tries), false, lag) == World(a, if tries > 1 then Rereading(tries - 1) else Start)
    ensures NextRemoval(ProxyConfig) == Rereading(5)
    ensures HoldsFinalizer(a.cluster.catalogs[ReadAt(a.cluster.catalogs, lag)]) ==>
              Call(a, Rereading(tries), false, lag) == World(a, Updating(ReadAt(a.cluster.catalogs, lag), tries))
  {
  }

  // ----- Foreign Catalogs -----

  /** The action leaves the Catalog with the AIHub and starts no other. */
  predicate KeepsCatalog(a: Action, hub: string) {
    !a.CreateCatalog? && (a.EditCatalog? ==> a.controller == Some(hub))
  }

  /** The read that opens a pass is current, and nobody replaces the Catalog under a pass
      that is working on it. */
  predicate Considerate(w: World) {
    var turn := NextTurn(w.api);
    match w.point
    case Start => turn.lag == 0
    case Releasing => true
    case Released => true
    case _ => forall i :: 0 <= i < |turn.actions| ==> KeepsCatalog(turn.actions[i], w.api.hub)
  }

  predicate ConsiderateRun(worlds: seq<World>) {
    |worlds| < 2 || (ConsiderateRun(Earlier(worlds)) && Considerate(Last(Earlier(worlds))))
  }

  predicate OwnEvent(e: Event, hub: string) {
    && (e.CatalogDeleted? ==> e.catalog.controller == Some(hub))
    && (e.Stripped? ==> e.catalog.controller == Some(hub) && e.catalog.deleting)
  }

  predicate OwnEvents(a: Api) {
    forall e :: e in a.log ==> OwnEvent(e, a.hub)
  }

  /** What is under the name while a pass works on it. */
  predicate OwnCatalog(a: Api, p: Point)
    requires WellFormed(a.cluster)
  {
    var current := Current(a.cluster.catalogs);
    match p
    case Start => true
    case Releasing => true
    case Released => true
    case Deleting => current.None? || Owned(current, a.hub)
    case _ => current.None? || (Owned(current, a.hub) && current.value.deleting)
  }

  lemma {:induction false} InterferenceKeepsOwnership(a: Api, actions: seq<Action>, p: Point)
    requires WellFormed(a.cluster) && OwnEvents(a) && OwnCatalog(a, p)
    requires !p.Start? && !p.Releasing? && !p.Released? ==> forall i :: 0 <= i < |actions| ==>
        KeepsCatalog(actions[i], a.hub)
    ensures var b := Interfere(a, actions); OwnEvents(b) && OwnCatalog(b, p)
    decreases |actions|
  {
    if actions != [] {
      var rest := a.(cluster := Act(a.cluster, actions[0]),
                     log := if actions[0].CreateOperand? then a.log + [Created(actions[0].operand)] else a.log);
      InterferenceKeepsOwnership(rest, actions[1..], p);
    }
  }

  lemma CallKeepsOwnership(a: Api, p: Point, failed: bool, lag: nat)
    requires WellFormed(a.cluster) && OwnEvents(a) && OwnCatalog(a, p) && (p.Start? ==> lag == 0)
    ensures var w := Call(a, p, failed, lag); OwnEvents(w.api) && OwnCatalog(w.api, w.point) && w.api.hub == a.hub
  {
    match p
    case Start =>
    case Deleting =>
    case Removing(operand) =>
    case Updating(_, _) =>
    case _ =>
  }

  lemma NextKeepsOwnership(w: World)
    requires WellFormed(w.api.cluster) && OwnEvents(w.api) && OwnCatalog(w.api, w.point) && Considerate(w)
    ensures var r := Next(w); OwnEvents(r.api) && OwnCatalog(r.api, r.point) && r.api.hub == w.api.hub
  {
    InterferenceKeepsOwnership(w.api, NextTurn(w.api).actions, w.point);
    CallKeepsOwnership(Arrived(w.api), w.point, NextTurn(w.api).failed, NextTurn(w.api).lag);
  }

  lemma {:induction false} OwnershipHolds(worlds: seq<World>)
    requires IsRun(worlds) && ConsiderateRun(worlds)
    ensures var w := Last(worlds);
            && WellFormed(w.api.cluster) && OwnEvents(w.api) && OwnCatalog(w.api, w.point)
            && w.api.hub == worlds[0].api.hub
  {
    if |worlds| > 1 {
      OwnershipHolds(Earlier(worlds));
      NextKeepsOwnership(Last(Earlier(worlds)));
    }
  }

  /** A Catalog this AIHub does not control is neither deleted nor stripped, and a
      finalizer is only ever taken from a Catalog that is being deleted. */
  lemma ForeignCatalogsAreSpared(worlds: seq<World>, e: Event)
    requires IsRun(worlds) && ConsiderateRun(worlds) && e in Last(worlds).api.log
    ensures e.CatalogDeleted? || e.Stripped? ==> e.catalog.controller == Some(worlds[0].api.hub)
    ensures e.Stripped? ==> e.catalog.deleting
  {
    OwnershipHolds(worlds);
  }

  /** Both conditions are needed. Any Catalog created under the name between the read and
      the delete is deleted, whoever controls it. */
  lemma ReplacedCatalogIsDeleted(hub: string, controller: Option<string>, finalizers: set<string>)
    ensures var own := CatalogObject(Some(hub), false, {});
            var replace := Turn([RequestDeletion, CreateCatalog(controller, finalizers)], false, 0);
            var w := World(Api(hub, Cluster([Some(own)], [None], {}), [], [Turn([], false, 0), replace]), Start);
            CatalogDeleted(CatalogObject(controller, false, finalizers)) in After(w, 2).api.log
  {
    var own := CatalogObject(Some(hub), false, {});
    var actions := [RequestDeletion, CreateCatalog(controller, finalizers)];
    var turns := [Turn([], false, 0), Turn(actions, false, 0)];
    var w := World(Api(hub, Cluster([Some(own)], [None], {}), [], turns), Start);
    var w1 := Next(w);
    assert w1 == World(Api(hub, Cluster([Some(own)], [None], {}), [PassBegan], turns[1..]), Deleting);
    var a1 := w1.api.(cluster := Act(w1.api.cluster, RequestDeletion));
    assert Interfere(w1.api, actions) == Interfere(a1, actions[1..]);
    var a2 := a1.(cluster := Act(a1.cluster, actions[1]));
    assert Interfere(a1, actions[1..]) == Interfere(a2, actions[1..][1..]) == a2;
    assert After(w, 1) == w1 && After(w, 2) == Next(w1);
  }

  /** So is the foreign Catalog that a lagging cache still shows as an earlier own one. */
  lemma LaggingReadDeletesForeign(hub: string, foreign: CatalogObject)
    ensures var own := CatalogObject(Some(hub), false, {});
            var w := World(Api(hub, Cluster([Some(own), None, Some(foreign)], [None], {}), [], [Turn([], false, 2)]),
                Start);
            CatalogDeleted(foreign) in After(w, 2).api.log
  {
    var own := CatalogObject(Some(hub), false, {});
    var cluster := Cluster([Some(own), None, Some(foreign)], [None], {});
    var w := World(Api(hub, cluster, [], [Turn([], false, 2)]), Start);
    assert Next(w) == World(Api(hub, cluster, [PassBegan], []), Deleting);
    assert After(w, 1) == Next(w) && After(w, 2) == Next(Next(w));
  }

  // ----- Releasing the AIHub -----

  predicate Claims(a: Action, hub: string) {
    (a.CreateCatalog? || a.EditCatalog?) && a.controller == Some(hub)
  }

  /** The read that opens a pass is current, and nobody hands a Catalog to an AIHub that
      is being released. */
  predicate Prompt(w: World) {
    var turn := NextTurn(w.api);
    && (w.point.Start? ==> turn.lag == 0)
    && (w.point.Releasing? ==> forall i :: 0 <= i < |turn.actions| ==> !Claims(turn.actions[i], w.api.hub))
  }

  predicate PromptRun(worlds: seq<World>) {
    |worlds| < 2 || (PromptRun(Earlier(worlds)) && Prompt(Last(Earlier(worlds))))
  }

  predicate NothingLeft(a: Api) {
    forall e :: e in a.log && e.Dropped? ==> !Owned(e.remaining, a.hub)
  }

  lemma {:induction false} InterferenceKeepsNothingLeft(a: Api, actions: seq<Action>, p: Point)
    requires WellFormed(a.cluster) && NothingLeft(a)
    requires p.Releasing? ==> !Owned(Current(a.cluster.catalogs), a.hub)
    requires p.Releasing? ==> forall i :: 0 <= i < |actions| ==> !Claims(actions[i], a.hub)
    ensures var b := Interfere(a, actions);
            NothingLeft(b) && (p.Releasing? ==> !Owned(Current(b.cluster.catalogs), a.hub))
    decreases |actions|
  {
    if actions != [] {
      var rest := a.(cluster := Act(a.cluster, actions[0]),
                     log := if actions[0].CreateOperand? then a.log + [Created(actions[0].operand)] else a.log);
      InterferenceKeepsNothingLeft(rest, actions[1..], p);
    }
  }

  lemma NextKeepsNothingLeft(w: World)
    requires WellFormed(w.api.cluster) && NothingLeft(w.api) && Prompt(w)
    requires w.point.Releasing? ==> !Owned(Slot(w), w.api.hub)
    ensures var r := Next(w);
            NothingLeft(r.api) && r.api.hub == w.api.hub && (r.point.Releasing? ==> !Owned(Slot(r), w.api.hub))
  {
    InterferenceKeepsNothingLeft(w.api, NextTurn(w.api).actions, w.point);
  }

  lemma {:induction false} NothingLeftHolds(worlds: seq<World>)
    requires IsRun(worlds) && PromptRun(worlds)
    ensures var w := Last(worlds);
            && WellFormed(w.api.cluster) && NothingLeft(w.api) && w.api.hub == worlds[0].api.hub
            && (w.point.Releasing? ==> !Owned(Slot(w), w.api.hub))
  {
    if |worlds| > 1 {
      NothingLeftHolds(Earlier(worlds));
      NextKeepsNothingLeft(Last(Earlier(worlds)));
    }
  }

  /** The AIHub finalizer is dropped only when no Catalog it controls remains. */
  lemma ReleasedOnlyWhenNothingIsLeft(worlds: seq<World>, e: Event)
    requires IsRun(worlds) && PromptRun(worlds) && e in Last(worlds).api.log && e.Dropped?
    ensures !Owned(e.remaining, worlds[0].api.hub)
  {
    NothingLeftHolds(worlds);
  }

  /** A cache one version behind is enough to release the AIHub too early. */
  lemma LaggingReadReleasesEarly(hub: string, own: CatalogObject)
    requires own.controller == Some(hub)
    ensures var w := World(Api(hub, Cluster([None, Some(own)], [None], {}), [], [Turn([], false, 1)]), Start);
            After(w, 2).point.Released? && Dropped(Some(own)) in After(w, 2).api.log
  {
    var cluster := Cluster([None, Some(own)], [None], {});
    var w := World(Api(hub, cluster, [], [Turn([], false, 1)]), Start);
    assert Next(w) == World(Api(hub, cluster, [PassBegan], []), Releasing);
    assert After(w, 1) == Next(w) && After(w, 2) == Next(Next(w));
  }

  // ----- Exactly when teardown goes wrong -----

  /** The Catalog under the name when the next call arrives. */
  function Found(w: World): Option<CatalogObject>
    requires WellFormed(w.api.cluster)
  {
    Current(Arrived(w.api).cluster.catalogs)
  }

  /** The next call deletes or strips by name while a foreign Catalog holds the name. */
  predicate HitsForeign(w: World)
    requires WellFormed(w.api.cluster)
  {
    && !NextTurn(w.api).failed && Found(w).Some? && !Owned(Found(w), w.api.hub)
    && (w.point.Deleting? || (w.point.Updating? && w.point.read == |Arrived(w.api).cluster.catalogs| - 1
        && HoldsFinalizer(Found(w))))
  }

  /** The next call releases the AIHub while it controls the Catalog under the name. */
  predicate OrphansCatalog(w: World)
    requires WellFormed(w.api.cluster)
  {
    !NextTurn(w.api).failed && w.point.Releasing? && Owned(Found(w), w.api.hub)
  }

  predicate Blameless(e: Event, hub: string) {
    && (e.CatalogDeleted? || e.Stripped? ==> e.catalog.controller == Some(hub))
    && (e.Dropped? ==> !Owned(e.remaining, hub))
  }

  predicate AllBlameless(a: Api) {
    forall e :: e in a.log ==> Blameless(e, a.hub)
  }

  lemma {:induction false} InterferenceIsBlameless(a: Api, actions: seq<Action>)
    requires WellFormed(a.cluster)
    ensures AllBlameless(Interfere(a, actions)) <==> AllBlameless(a)
    decreases |actions|
  {
    if actions != [] {
      var rest := a.(cluster := Act(a.cluster, actions[0]),
                     log := if actions[0].CreateOperand? then a.log + [Created(actions[0].operand)] else a.log);
      assert AllBlameless(rest) <==> AllBlameless(a) by {
        if actions[0].CreateOperand? {
          BlamelessNext(a, rest, Created(actions[0].operand));
        }
      }
      InterferenceIsBlameless(rest, actions[1..]);
    }
  }

  lemma BlamelessNext(a: Api, b: Api, e: Event)
    requires b.log == a.log + [e] && b.hub == a.hub
    ensures AllBlameless(b) <==> AllBlameless(a) && Blameless(e, a.hub)
  {
    assert forall f :: f in b.log <==> f in a.log || f == e;
  }

  lemma CallIsBlamelessExactly(w: World)
    requires WellFormed(w.api.cluster)
    ensures AllBlameless(Next(w).api) <==> AllBlameless(Arrived(w.api)) && !HitsForeign(w) && !OrphansCatalog(w)
  {
    var a, b := Arrived(w.api), Next(w).api;
    if |b.log| == |a.log| + 1 {
      BlamelessNext(a, b, b.log[|a.log|]);
    }
  }

  /** The next call does what teardown must not do. */
  predicate Errs(w: World)
    requires WellFormed(w.api.cluster)
  {
    HitsForeign(w) || OrphansCatalog(w)
  }

  lemma NextIsBlamelessExactly(w: World, next: World)
    requires Follows(w, next)
    ensures AllBlameless(next.api) <==> AllBlameless(w.api) && !Errs(w)
  {
    InterferenceIsBlameless(w.api, NextTurn(w.api).actions);
    assert AllBlameless(Arrived(w.api)) <==> AllBlameless(w.api);
    CallIsBlamelessExactly(w);
  }

  /** What the read that opened the pass in progress returned. */
  function OpeningRead(worlds: seq<World>): Option<CatalogObject> {
    if |worlds| < 2 || !WellFormed(worlds[|worlds| - 2].api.cluster) then None
    else
      var before := worlds[|worlds| - 2];
      var catalogs := Arrived(before.api).cluster.catalogs;
      if before.point.Start? then catalogs[ReadAt(catalogs, NextTurn(before.api).lag)]
      else OpeningRead(worlds[..|worlds| - 1])
  }

  /** The next call deletes a Catalog, drops its finalizer or releases the AIHub. */
  predicate Acts(w: World)
    requires WellFormed(w.api.cluster)
  {
    && !NextTurn(w.api).failed
    && match w.point
       case Deleting => Found(w).Some?
       case Updating(read, _) => read == |Arrived(w.api).cluster.catalogs| - 1 && HoldsFinalizer(Found(w))
       case Releasing => true
       case _ => false
  }

  /** The next call acts although the Catalog under the name has come to, or gone from,
      the AIHub since the version that the pass read when it opened. */
  predicate ActsOnChange(worlds: seq<World>) {
    && worlds != [] && WellFormed(Last(worlds).api.cluster)
    && var w := Last(worlds);
       Acts(w) && Owned(Found(w), w.api.hub) != Owned(OpeningRead(worlds), w.api.hub)
  }

  predicate NeverActsOnChange(worlds: seq<World>) {
    |worlds| < 2 || (NeverActsOnChange(Earlier(worlds)) && !ActsOnChange(Earlier(worlds)))
  }

  /** A pass that goes on has read an own Catalog, and one that releases has not. */
  predicate KnowsOwner(w: World, read: Option<CatalogObject>) {
    match w.point
    case Start => true
    case Released => true
    case Releasing => !Owned(read, w.api.hub)
    case _ => Owned(read, w.api.hub)
  }

  lemma CallKeepsOwner(w: World, read: Option<CatalogObject>)
    requires WellFormed(w.api.cluster) && KnowsOwner(w, read)
    ensures Next(w).api.hub == w.api.hub
    ensures !w.point.Start? ==> KnowsOwner(Next(w), read)
    ensures w.point.Start? ==>
              var catalogs := Arrived(w.api).cluster.catalogs;
              KnowsOwner(Next(w), catalogs[ReadAt(catalogs, NextTurn(w.api).lag)])
  {
  }

  lemma {:induction false} RunsKnowOwner(worlds: seq<World>)
    requires IsRun(worlds)
    ensures WellFormed(Last(worlds).api.cluster) && KnowsOwner(Last(worlds), OpeningRead(worlds))
  {
    if |worlds| > 1 {
      var before := Earlier(worlds);
      RunsKnowOwner(before);
      assert Last(before) == worlds[|worlds| - 2];
      CallKeepsOwner(Last(before), OpeningRead(before));
    }
  }

  lemma ErrsOnChangeExactly(worlds: seq<World>)
    requires worlds != [] && WellFormed(Last(worlds).api.cluster) && KnowsOwner(Last(worlds), OpeningRead(worlds))
    ensures Errs(Last(worlds)) <==> ActsOnChange(worlds)
  {
  }

  /** In every run, only own Catalogs are deleted or stripped and the AIHub is released
      with none left, if and only if no call acts after the Catalog under the name has
      changed hands since the version that the pass read when it opened: a delete or an
      update after it left the AIHub, a release after it came to the AIHub. */
  lemma {:induction false} TeardownIsBlamelessExactly(worlds: seq<World>)
    requires IsRun(worlds)
    ensures AllBlameless(Last(worlds).api) <==> NeverActsOnChange(worlds)
  {
    if |worlds| > 1 {
      var before := Earlier(worlds);
      TeardownIsBlamelessExactly(before);
      RunsKnowOwner(before);
      ErrsOnChangeExactly(before);
      NextIsBlamelessExactly(Last(before), Last(worlds));
    }
  }

  // ----- Progress -----

  /** A whole reconcile of the deleting AIHub. */
  function Reconciled(w: World): (r: World)
    requires WellFormed(w.api.cluster)
    ensures WellFormed(r.api.cluster)
  {
    if w.point.Released? then w
    else
      var f := Finish(Next(w));
      if f.point.Releasing? then Next(f) else f
  }

  function ReconciledTimes(w: World, passes: nat): (r: World)
    requires WellFormed(w.api.cluster)
    ensures WellFormed(r.api.cluster)
    decreases passes
  {
    if passes == 0 then w else ReconciledTimes(Reconciled(w), passes - 1)
  }

  /** Nobody else acts, no read lags and no call fails any more. */
  predicate Quiet(w: World) {
    WellFormed(w.api.cluster) && w.api.turns == []
  }

  function Slot(w: World): Option<CatalogObject>
    requires WellFormed(w.api.cluster)
  {
    Current(w.api.cluster.catalogs)
  }

  predicate OperatorAble(w: World)
    requires WellFormed(w.api.cluster)
  {
    CanFinalize(Current(w.api.cluster.operators))
  }

  /** No Catalog of the AIHub is in the way, or only the Catalog finalizer is and the
      operator cannot remove it. */
  predicate Unblocked(w: World)
    requires WellFormed(w.api.cluster)
  {
    var c := Slot(w);
    !Owned(c, w.api.hub) || c.value.finalizers == {} || (c.value.finalizers == {CatalogFinalizer} && !OperatorAble(w))
  }

  /** Waiting for somebody else. */
  predicate Waiting(w: World)
    requires WellFormed(w.api.cluster)
  {
    && w.point.Start? && Owned(Slot(w), w.api.hub) && Slot(w).value.deleting && Slot(w).value.finalizers != {}
    && (HoldsFinalizer(Slot(w)) ==> OperatorAble(w))
  }

  lemma QuietTakeover(w: World)
    requires Quiet(w) && w.point == Removing(GatewayRoute) && HoldsFinalizer(Slot(w)) && Slot(w).value.deleting
    ensures var r := Finish(w);
            && r.point.Start? && Quiet(r) && r.api.hub == w.api.hub
                && r.api.cluster.operators == w.api.cluster.operators
            && Slot(r) == Collected(Slot(w).value.(finalizers := Slot(w).value.finalizers - {CatalogFinalizer}))
  {
    var w1 := Next(w);
    var w2 := Next(w1);
    var w3 := Next(w2);
    assert w3.point == Rereading(UpdateTries) && w3.api.cluster.catalogs == w.api.cluster.catalogs;
    var w4 := Next(w3);
    assert w4.point == Updating(|w.api.cluster.catalogs| - 1, UpdateTries)
        && w4.api.cluster.catalogs == w.api.cluster.catalogs;
    var w5 := Next(w4);
    assert w5.point.Start?;
    assert Finish(w4) == Finish(w5) == w5;
    assert Finish(w3) == Finish(w4);
    assert Finish(w) == Finish(w1) == Finish(w2) == Finish(w3);
  }

  /** A pass that finds the Catalog deleting. */
  lemma QuietSight(w: World)
    requires Quiet(w) && w.point == AfterSight(Slot(w)) && Owned(Slot(w), w.api.hub) && Slot(w).value.deleting
    requires Slot(w).value.finalizers != {}
    ensures var r := Finish(w);
            && r.point.Start? && Quiet(r) && r.api.hub == w.api.hub
            && (if Unblocked(w) then Slot(r).None? else Waiting(r))
  {
    if HoldsFinalizer(Slot(w)) {
      var w1 := Next(w);
      assert Finish(w) == Finish(w1);
      if !OperatorAble(w) {
        QuietTakeover(w1);
      }
    }
  }

  lemma QuietPass(w: World)
    requires Quiet(w) && w.point.Start? && Owned(Slot(w), w.api.hub)
    requires Slot(w).value.deleting ==> Slot(w).value.finalizers != {}
    ensures var r := Reconciled(w);
            && r.point.Start? && Quiet(r) && r.api.hub == w.api.hub
            && (if Unblocked(w) then Slot(r).None? else Waiting(r))
  {
    var w1 := Next(w);
    if Slot(w).value.deleting {
      QuietSight(w1);
    } else {
      var w2 := Next(w1);
      assert Finish(w1) == Finish(w2);
      var w3 := Next(w2);
      assert Finish(w2) == Finish(w3);
      assert Slot(w3) == Collected(Slot(w).value.(deleting := true));
      if Slot(w3).Some? {
        QuietSight(w3);
      }
    }
  }

  lemma QuietRelease(w: World)
    requires Quiet(w) && w.point.Start? && !Owned(Slot(w), w.api.hub)
    ensures Reconciled(w).point.Released?
  {
    assert Finish(Next(w)) == Next(w);
  }

  predicate Decided(w: World, r: World)
    requires WellFormed(w.api.cluster) && WellFormed(r.api.cluster)
  {
    if Unblocked(w) then r.point.Released? else Quiet(r) && Waiting(r)
  }

  lemma SecondPass(w: World)
    requires Quiet(w) && w.point.Start?
    requires Slot(w).Some? && Slot(w).value.deleting ==> Slot(w).value.finalizers != {}
    ensures Decided(w, Reconciled(Reconciled(w)))
  {
    if !Owned(Slot(w), w.api.hub) {
      QuietRelease(w);
    } else {
      QuietPass(w);
      if Unblocked(w) {
        QuietRelease(Reconciled(w));
      } else {
        WaitingStays(Reconciled(w));
      }
    }
  }

  lemma WaitingStays(w: World)
    requires Quiet(w) && Waiting(w)
    ensures var r := Reconciled(w); Quiet(r) && Waiting(r) && r.api.hub == w.api.hub
  {
    QuietPass(w);
  }

  lemma DecidedStays(w: World, r: World)
    requires WellFormed(w.api.cluster) && WellFormed(r.api.cluster) && Decided(w, r)
    ensures Decided(w, Reconciled(r))
  {
    if !Unblocked(w) {
      WaitingStays(r);
    }
  }

  lemma {:induction false} DecidedForGood(w: World, r: World, passes: nat)
    requires WellFormed(w.api.cluster) && WellFormed(r.api.cluster) && Decided(w, r)
    ensures Decided(w, ReconciledTimes(r, passes))
    decreases passes
  {
    if passes > 0 {
      DecidedStays(w, r);
      DecidedForGood(w, Reconciled(r), passes - 1);
    }
  }

  /** Left alone, teardown ends within two passes or never. */
  lemma TeardownEndsInTwoPassesExactly(w: World, passes: nat)
    requires Quiet(w) && w.point.Start? && passes >= 2
    requires Slot(w).Some? && Slot(w).value.deleting ==> Slot(w).value.finalizers != {}
    ensures ReconciledTimes(w, passes).point.Released? <==> Unblocked(w)
  {
    SecondPass(w);
    DecidedForGood(w, Reconciled(Reconciled(w)), passes - 2);
  }
}
