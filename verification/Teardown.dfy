/** AIHub teardown: one API call per step, with the rest of the cluster acting before
    each call, cached reads that lag and calls that fail. */
module Teardown {
  import opened CatalogTypes
  import opened DeploymentStatus

  const CatalogFinalizer := "catalog.aihub.opendatahub.io/finalizer"
  const UpdateTries := 5 // attempts of retry.DefaultRetry

  /** Objects of the Catalog that no owner reference removes in time. */
  datatype Operand = GatewayRoute | AuthDelegatorBinding | ProxyConfig

  datatype CatalogObject = CatalogObject(controller: Option<string>, deleting: bool, finalizers: set<string>)

  datatype OperatorDeployment = OperatorDeployment(conditions: seq<DeploymentCondition>, availableReplicas: int)

  /** Every version ever held under the Catalog name and the operator name; the last is
      current, and the position of a version is its resource version. */
  datatype Cluster = Cluster(
    catalogs: seq<Option<CatalogObject>>,
    operators: seq<Option<OperatorDeployment>>,
    operands: set<Operand>)

  /** What administrators, the Catalog operator and the garbage collector may do. */
  datatype Action =
    | CreateCatalog(controller: Option<string>, finalizers: set<string>)
    | EditCatalog(controller: Option<string>, finalizers: set<string>)
    | RequestDeletion
    | SetOperator(operator: Option<OperatorDeployment>)
    | CreateOperand(operand: Operand)
    | DeleteOperand(operand: Operand)

  /** What surrounds one API call. `lag` counts the versions a cached read is behind. */
  datatype Turn = Turn(actions: seq<Action>, failed: bool, lag: nat)

  datatype Event =
    | PassBegan
    | FoundUnable
    | Removed(operand: Operand)
    | Created(operand: Operand)
    | CatalogDeleted(catalog: CatalogObject)
    | Stripped(catalog: CatalogObject, operands: set<Operand>)
    | Dropped(remaining: Option<CatalogObject>)

  /** The API server as one AIHub sees it; a call after the last turn is undisturbed. */
  datatype Api = Api(hub: string, cluster: Cluster, log: seq<Event>, turns: seq<Turn>)

  /** The call the reconciler makes next. */
  datatype Point =
    | Start
    | Deleting
    | Refetching
    | CheckingOperator
    | Removing(operand: Operand)
    | Rereading(tries: nat)
    | Updating(read: nat, tries: nat)
    | Releasing
    | Released

  datatype World = World(api: Api, point: Point)

  predicate WellFormed(c: Cluster) {
    c.catalogs != [] && c.operators != []
  }

  function Current<T>(versions: seq<T>): T
    requires versions != []
  {
    versions[|versions| - 1]
  }

  predicate Owned(c: Option<CatalogObject>, hub: string) {
    c.Some? && c.value.controller == Some(hub)
  }

  predicate HoldsFinalizer(c: Option<CatalogObject>) {
    c.Some? && CatalogFinalizer in c.value.finalizers
  }

  /** A deleting object without finalizers disappears. */
  function Collected(c: CatalogObject): Option<CatalogObject> {
    if c.deleting && c.finalizers == {} then None else Some(c)
  }

  function Store(c: Cluster, version: Option<CatalogObject>): Cluster {
    c.(catalogs := c.catalogs + [version])
  }

  /** The API server refuses new finalizers on a deleting object. */
  function Act(c: Cluster, a: Action): Cluster
    requires WellFormed(c)
    ensures WellFormed(Act(c, a))
  {
    var current := Current(c.catalogs);
    match a
    case CreateCatalog(controller, finalizers) =>
      if current.None? then Store(c, Some(CatalogObject(controller, false, finalizers))) else c
    case EditCatalog(controller, finalizers) =>
      if current.None? || (current.value.deleting && !(finalizers <= current.value.finalizers)) then c
      else Store(c, Collected(current.value.(controller := controller, finalizers := finalizers)))
    case RequestDeletion => if current.None? then c else Store(c, Collected(current.value.(deleting := true)))
    case SetOperator(operator) => c.(operators := c.operators + [operator])
    case CreateOperand(operand) => c.(operands := c.operands + {operand})
    case DeleteOperand(operand) => c.(operands := c.operands - {operand})
  }

  function Interfere(a: Api, actions: seq<Action>): (r: Api)
    requires WellFormed(a.cluster)
    ensures WellFormed(r.cluster) && r.hub == a.hub && r.turns == a.turns
    decreases |actions|
  {
    if actions == [] then a
    else
      var rest := a.(cluster := Act(a.cluster, actions[0]),
                     log := if actions[0].CreateOperand? then a.log + [Created(actions[0].operand)] else a.log);
      Interfere(rest, actions[1..])
  }

  function NextTurn(a: Api): Turn {
    if a.turns == [] then Turn([], false, 0) else a.turns[0]
  }

  /** The server when the next call arrives. */
  function Arrived(a: Api): (r: Api)
    requires WellFormed(a.cluster)
    ensures WellFormed(r.cluster) && r.hub == a.hub
    ensures r.turns == if a.turns == [] then [] else a.turns[1..]
  {
    Interfere(a, NextTurn(a).actions).(turns := if a.turns == [] then [] else a.turns[1..])
  }

  function ReadAt<T>(versions: seq<T>, lag: nat): (i: nat)
    requires versions != []
    ensures i < |versions| && (lag == 0 ==> i == |versions| - 1)
  {
    if lag < |versions| then |versions| - 1 - lag else 0
  }

  /** Delete names no version and no UID, so it hits whatever holds the name. */
  function DeleteCatalog(a: Api): (r: Api)
    requires WellFormed(a.cluster)
    ensures WellFormed(r.cluster)
  {
    var current := Current(a.cluster.catalogs);
    if current.None? then a
    else a.(cluster := Act(a.cluster, RequestDeletion), log := a.log + [CatalogDeleted(current.value)])
  }

  function RemoveOperand(a: Api, operand: Operand): Api {
    a.(cluster := a.cluster.(operands := a.cluster.operands - {operand}), log := a.log + [Removed(operand)])
  }

  /** The update that drops the Catalog finalizer from the current version. */
  function Strip(a: Api): Api
    requires WellFormed(a.cluster) && HoldsFinalizer(Current(a.cluster.catalogs))
  {
    var current := Current(a.cluster.catalogs).value;
    a.(cluster := Store(a.cluster, Collected(current.(finalizers := current.finalizers - {CatalogFinalizer}))),
       log := a.log + [Stripped(current, a.cluster.operands)])
  }

  function FirstAvailable(conditions: seq<DeploymentCondition>): Option<DeploymentCondition> {
    if conditions == [] then None
    else if conditions[0].kind == AvailableKind then Some(conditions[0])
    else FirstAvailable(conditions[1..])
  }

  /** Present, Available, and running at least one replica. */
  predicate CanFinalize(d: Option<OperatorDeployment>) {
    && d.Some? && d.value.availableReplicas > 0
    && var available := FirstAvailable(d.value.conditions); available.Some? && available.value.status == ConditionTrue
  }

  predicate AvailableAt(conditions: seq<DeploymentCondition>, i: nat) {
    i < |conditions| && conditions[i].kind == AvailableKind && forall j :: 0 <= j < i ==>
        conditions[j].kind != AvailableKind
  }

  lemma {:induction false} FirstAvailableAt(conditions: seq<DeploymentCondition>, i: nat)
    requires AvailableAt(conditions, i)
    ensures FirstAvailable(conditions) == Some(conditions[i])
  {
    if i > 0 {
      assert conditions[0].kind != AvailableKind;
      FirstAvailableAt(conditions[1..], i - 1);
    }
  }

  lemma {:induction false} NoneAvailable(conditions: seq<DeploymentCondition>)
    requires forall j :: 0 <= j < |conditions| ==> conditions[j].kind != AvailableKind
    ensures FirstAvailable(conditions).None?
  {
    if conditions != [] {
      NoneAvailable(conditions[1..]);
    }
  }

  /** The operator can finalize exactly if its first Available condition is True and a
      replica is available: scaled to zero it cannot, although it reports Available. */
  lemma CanFinalizeExactly(d: OperatorDeployment, i: nat)
    ensures AvailableAt(d.conditions, i) ==>
              (CanFinalize(Some(d)) <==> d.conditions[i].status == ConditionTrue && d.availableReplicas > 0)
    ensures (forall j :: 0 <= j < |d.conditions| ==> d.conditions[j].kind != AvailableKind) ==> !CanFinalize(Some(d))
    ensures !CanFinalize(None)
  {
    if AvailableAt(d.conditions, i) {
      FirstAvailableAt(d.conditions, i);
    }
    if forall j :: 0 <= j < |d.conditions| ==> d.conditions[j].kind != AvailableKind {
      NoneAvailable(d.conditions);
    }
  }

  function NextRemoval(operand: Operand): Point {
    match operand
    case GatewayRoute => Removing(AuthDelegatorBinding)
    case AuthDelegatorBinding => Removing(ProxyConfig)
    case ProxyConfig => Rereading(UpdateTries)
  }

  /** What follows a read of a deleting Catalog. */
  function AfterSight(c: Option<CatalogObject>): Point {
    if HoldsFinalizer(c) then CheckingOperator else Start
  }

  function AfterFirstRead(c: Option<CatalogObject>, hub: string): Point {
    if !Owned(c, hub) then Releasing
    else if !c.value.deleting then Deleting
    else AfterSight(c)
  }

  /** One API call on the server it arrives at; any failure ends the pass. */
  function Call(a: Api, p: Point, failed: bool, lag: nat): (r: World)
    requires WellFormed(a.cluster)
    ensures WellFormed(r.api.cluster)
  {
    var catalogs := a.cluster.catalogs;
    match p
    case Start =>
      var b := a.(log := a.log + [PassBegan]);
      World(b, if failed then Start else AfterFirstRead(catalogs[ReadAt(catalogs, lag)], a.hub))
    case Deleting => if failed then World(a, Start) else World(DeleteCatalog(a), Refetching)
    case Refetching => World(a, if failed then Start else AfterSight(catalogs[ReadAt(catalogs, lag)]))
    case CheckingOperator =>
      if failed || CanFinalize(a.cluster.operators[ReadAt(a.cluster.operators, lag)]) then World(a, Start)
      else World(a.(log := a.log + [FoundUnable]), Removing(GatewayRoute))
    case Removing(operand) =>
      if failed then World(a, Start) else World(RemoveOperand(a, operand), NextRemoval(operand))
    case Rereading(tries) =>
      var i := ReadAt(catalogs, lag);
      World(a, if failed || !HoldsFinalizer(catalogs[i]) then Start else Updating(i, tries))
    case Updating(read, tries) =>
      if failed || Current(catalogs).None? then World(a, Start)
      else if read != |catalogs| - 1 then World(a, if tries <= 1 then Start else Rereading(tries - 1))
      else World(if HoldsFinalizer(Current(catalogs)) then Strip(a) else a, Start)
    case Releasing =>
      if failed then World(a, Start)
      else World(a.(log := a.log + [Dropped(Current(catalogs))]), Released)
    case Released => World(a, Released)
  }

  /** One step: others act, then the reconciler's next call happens. */
  function Next(w: World): (r: World)
    requires WellFormed(w.api.cluster)
    ensures WellFormed(r.api.cluster)
  {
    Call(Arrived(w.api), w.point, NextTurn(w.api).failed, NextTurn(w.api).lag)
  }

  function After(w: World, steps: nat): (r: World)
    requires WellFormed(w.api.cluster)
    ensures WellFormed(r.api.cluster)
  {
    if steps == 0 then w else Next(After(w, steps - 1))
  }

  /** An upper bound on the calls left in a pass. */
  function Remaining(p: Point): nat {
    match p
    case Start => 0
    case Released => 0
    case Releasing => 1
    case Updating(_, tries) => 2 * tries + 1
    case Rereading(tries) => 2 * tries + 2
    case Removing(ProxyConfig) => 20
    case Removing(AuthDelegatorBinding) => 21
    case Removing(GatewayRoute) => 22
    case CheckingOperator => 23
    case Refetching => 24
    case Deleting => 25
  }

  /** The rest of the pass, up to the release of the AIHub. */
  function Finish(w: World): (r: World)
    requires WellFormed(w.api.cluster)
    ensures WellFormed(r.api.cluster) && (r.point.Start? || r.point.Releasing? || r.point.Released?)
    decreases Remaining(w.point)
  {
    if w.point.Start? || w.point.Releasing? || w.point.Released? then w
    else Finish(Next(w))
  }

  /** The reconciler's client: each call lets the others act first. */
  class Client {
    const hub: string
    var cluster: Cluster
    var log: seq<Event>
    var turns: seq<Turn>

    constructor (hub: string, cluster: Cluster, turns: seq<Turn>)
      requires WellFormed(cluster)
      ensures Valid() && State() == Api(hub, cluster, [], turns)
    {
      this.hub, this.cluster, this.log, this.turns := hub, cluster, [], turns;
    }

    ghost predicate Valid()
      reads this
    {
      WellFormed(cluster)
    }

    function State(): Api
      reads this
    {
      Api(hub, cluster, log, turns)
    }

    method Arrive() returns (turn: Turn)
      requires Valid()
      modifies this
      ensures Valid() && State() == Arrived(old(State())) && turn == NextTurn(old(State()))
    {
      turn := NextTurn(State());
      var now := Arrived(State());
      cluster, log, turns := now.cluster, now.log, now.turns;
    }

    method GetCatalog() returns (failed: bool, read: nat)
      requires Valid()
      modifies this
      ensures Valid() && State() == Arrived(old(State()))
      ensures failed == NextTurn(old(State())).failed
      ensures read == ReadAt(cluster.catalogs, NextTurn(old(State())).lag)
    {
      var turn := Arrive();
      failed, read := turn.failed, ReadAt(cluster.catalogs, turn.lag);
    }

    method Delete() returns (failed: bool)
      requires Valid()
      modifies this
      ensures Valid() && failed == NextTurn(old(State())).failed
      ensures State() == if failed then Arrived(old(State())) else DeleteCatalog(Arrived(old(State())))
    {
      var turn := Arrive();
      failed := turn.failed;
      if !failed && Current(cluster.catalogs).Some? {
        log := log + [CatalogDeleted(Current(cluster.catalogs).value)];
        cluster := Act(cluster, RequestDeletion);
      }
    }

    method DeleteIgnoringMissing(operand: Operand) returns (failed: bool)
      requires Valid()
      modifies this
      ensures Valid() && failed == NextTurn(old(State())).failed
      ensures State() == if failed then Arrived(old(State())) else RemoveOperand(Arrived(old(State())), operand)
    {
      var turn := Arrive();
      failed := turn.failed;
      if !failed {
        log := log + [Removed(operand)];
        cluster := cluster.(operands := cluster.operands - {operand});
      }
    }

    /** Whether the operator can finalize the Catalog itself. */
    method CatalogOperatorCanFinalize() returns (failed: bool, able: bool)
      requires Valid()
      modifies this
      ensures Valid() && failed == NextTurn(old(State())).failed
      ensures var a := Arrived(old(State()));
              && able == CanFinalize(a.cluster.operators[ReadAt(a.cluster.operators, NextTurn(old(State())).lag)])
              && State() == if failed || able then a else a.(log := a.log + [FoundUnable])
    {
      var turn := Arrive();
      var operator := cluster.operators[ReadAt(cluster.operators, turn.lag)];
      failed, able := turn.failed, false;
      if operator.Some? {
        var available := IsDeploymentAvailable(operator.value.conditions);
        able := available && operator.value.availableReplicas > 0;
      }
      if !failed && !able {
        log := log + [FoundUnable];
      }
    }

    /** The update of the version that was read; it conflicts with any newer one. */
    method UpdateCatalog(read: nat) returns (failed: bool, conflict: bool)
      requires Valid() && read < |cluster.catalogs| && HoldsFinalizer(cluster.catalogs[read])
      modifies this
      ensures Valid()
      ensures var a := Arrived(old(State()));
              State() == if !failed && !conflict && HoldsFinalizer(Current(a.cluster.catalogs)) then Strip(a) else a
      ensures failed == (NextTurn(old(State())).failed || Current(Arrived(old(State())).cluster.catalogs).None?)
      ensures conflict == (!failed && read != |Arrived(old(State())).cluster.catalogs| - 1)
    {
      var turn := Arrive();
      failed := turn.failed || Current(cluster.catalogs).None?;
      conflict := !failed && read != |cluster.catalogs| - 1;
      if !failed && !conflict && HoldsFinalizer(Current(cluster.catalogs)) {
        var current := Current(cluster.catalogs).value;
        log := log + [Stripped(current, cluster.operands)];
        cluster := Store(cluster, Collected(current.(finalizers := current.finalizers - {CatalogFinalizer})));
      }
    }

    /** One read and update of the Catalog; a conflict asks for another. */
    method TryStrip(tries: nat) returns (conflict: bool)
      requires Valid() && tries > 0
      modifies this
      ensures Valid()
      ensures Finish(World(old(State()), Rereading(tries)))
           == Finish(World(State(), if conflict && tries > 1 then Rereading(tries - 1) else Start))
    {
      ghost var rereading := World(State(), Rereading(tries));
      var failed, read := GetCatalog();
      if failed || !HoldsFinalizer(cluster.catalogs[read]) {
        assert Next(rereading) == World(State(), Start);
        return false;
      }
      ghost var updating := World(State(), Updating(read, tries));
      assert Finish(rereading) == Finish(updating) by { assert Next(rereading) == updating; }
      failed, conflict := UpdateCatalog(read);
      assert Next(updating) == World(State(), if conflict && tries > 1 then Rereading(tries - 1) else Start);
    }

    /** Drops the Catalog finalizer, retried on conflict. */
    method StripFinalizer()
      requires Valid()
      modifies this
      ensures Valid() && World(State(), Start) == Finish(World(old(State()), Rereading(UpdateTries)))
    {
      ghost var begin := World(State(), Rereading(UpdateTries));
      var tries: nat := UpdateTries;
      var conflict := true;
      while conflict && tries > 0
        invariant Valid()
        invariant Finish(begin) == Finish(World(State(), if conflict && tries > 0 then Rereading(tries) else Start))
      {
        conflict := TryStrip(tries);
        tries := tries - 1;
      }
    }

    /** Takes over from an operator that cannot finalize: the operands first, then the
        finalizer. */
    method TakeOverCatalogFinalization()
      requires Valid()
      modifies this
      ensures Valid() && World(State(), Start) == Finish(World(old(State()), Removing(GatewayRoute)))
    {
      ghost var s0 := World(State(), Removing(GatewayRoute));
      var failed := DeleteIgnoringMissing(GatewayRoute);
      ghost var s1 := World(State(), if failed then Start else Removing(AuthDelegatorBinding));
      assert Finish(s0) == Finish(s1) by { assert Next(s0) == s1; }
      if failed {
        return;
      }
      failed := DeleteIgnoringMissing(AuthDelegatorBinding);
      ghost var s2 := World(State(), if failed then Start else Removing(ProxyConfig));
      assert Finish(s1) == Finish(s2) by { assert Next(s1) == s2; }
      if failed {
        return;
      }
      failed := DeleteIgnoringMissing(ProxyConfig);
      ghost var s3 := World(State(), if failed then Start else Rereading(UpdateTries));
      assert Finish(s2) == Finish(s3) by { assert Next(s2) == s3; }
      if failed {
        return;
      }
      StripFinalizer();
    }

    /** Deletes the Catalog and reads it again. */
    method DeleteAndRefetch() returns (cat: Option<CatalogObject>)
      requires Valid()
      modifies this
      ensures Valid() && Finish(World(old(State()), Deleting)) == Finish(World(State(), AfterSight(cat)))
    {
      ghost var deleting := World(State(), Deleting);
      var failed := Delete();
      if failed {
        assert Next(deleting) == World(State(), Start);
        return None;
      }
      ghost var refetching := World(State(), Refetching);
      assert Finish(deleting) == Finish(refetching) by { assert Next(deleting) == refetching; }
      var read: nat;
      failed, read := GetCatalog();
      cat := if failed then None else cluster.catalogs[read];
      assert Next(refetching) == World(State(), AfterSight(cat));
    }

    /** Takes over only from an operator that cannot finalize. */
    method FinalizeIfStuck()
      requires Valid()
      modifies this
      ensures Valid() && World(State(), Start) == Finish(World(old(State()), CheckingOperator))
    {
      ghost var checking := World(State(), CheckingOperator);
      var failed, able := CatalogOperatorCanFinalize();
      assert Next(checking) == World(State(), if failed || able then Start else Removing(GatewayRoute));
      if !failed && !able {
        TakeOverCatalogFinalization();
      }
    }

    /** One pass of the ordered teardown. */
    method CleanupOnDelete() returns (done: bool)
      requires Valid()
      modifies this
      ensures Valid()
      ensures World(State(), if done then Releasing else Start) == Finish(Next(World(old(State()), Start)))
    {
      ghost var next := Next(World(State(), Start));
      var failed, read := GetCatalog();
      log := log + [PassBegan];
      if failed {
        return false;
      }
      var cat := cluster.catalogs[read];
      if !Owned(cat, hub) {
        return true;
      }
      assert next == World(State(), if cat.value.deleting then AfterSight(cat) else Deleting);
      if !cat.value.deleting {
        cat := DeleteAndRefetch();
      }
      assert Finish(next) == Finish(World(State(), AfterSight(cat)));
      if HoldsFinalizer(cat) {
        FinalizeIfStuck();
      }
      return false;
    }
  }

  method IsDeploymentAvailable(conditions: seq<DeploymentCondition>) returns (r: bool)
    ensures r == (FirstAvailable(conditions).Some? && FirstAvailable(conditions).value.status == ConditionTrue)
  {
    for i := 0 to |conditions|
      invariant FirstAvailable(conditions) == FirstAvailable(conditions[i..])
    {
      if conditions[i].kind == AvailableKind {
        return conditions[i].status == ConditionTrue;
      }
      assert conditions[i..][1..] == conditions[i + 1..];
    }
    return false;
  }
}
