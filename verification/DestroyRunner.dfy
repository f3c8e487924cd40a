/**
 * Executing a cascade destroy: the workflow task handles steps position by position,
 * workers carry the resources through their life cycle, and the two interleave freely.
 */
module DestroyRunner {
  import opened Common
  import opened Graphs
  import opened EntityState
  import opened CascadeDestroy
  import opened ResourceWalk

  datatype Config = Config(links: Edges, plan: seq<Step>, approvalFlow: bool)

  /** The resources, and the status of the step of each planned one. */
  datatype World = World(entities: map<Node, Entity>, steps: map<Node, Status>)

  datatype Event =
    | Launch(id: Node)        // the workflow task reaches the step while processing the current position
    | Callback(id: Node)      // the workflow task is called back for a step it launched
    | WorkerStart(id: Node)
    | WorkerDone(id: Node)
    | WorkerFailed(id: Node)

  /** What any plan made from the query provides: one step per resource, in order, with all that depends on it. */
  ghost predicate Closed(config: Config) {
    && OnePerResource(config.plan) && AscendingPositions(config.plan)
    && forall e :: e in config.links && Planned(config.plan, e.0) ==> Planned(config.plan, e.1)
  }

  lemma PlanClosed(db: Database, root: Node, rows: seq<Row>, height: int, config: Config)
    requires Planning(db, root, rows, height, config.plan) && config.links == db.links
    ensures Closed(config)
  {
    forall e | e in config.links && Planned(config.plan, e.0)
      ensures Planned(config.plan, e.1)
    {
      PlanCoversReachable(db, root, rows, height, config.plan, e.0);
      ReachableStep(db, root, e.0, e.1);
      PlanCoversReachable(db, root, rows, height, config.plan, e.1);
    }
  }

  ghost predicate Tracks(config: Config, w: World) {
    && (forall id :: id in w.steps <==> Planned(config.plan, id))
    && w.steps.Keys <= w.entities.Keys
  }

  /** An exception while handling a step leaves the resource alone and marks the step. */
  function Settle(e: Entity, r: Result<Entity, StateError>): (Status, Entity) {
    if r.Success? then (r.value.status, r.value) else (ERROR, e)
  }

  /** Drive one destroy step through its life cycle; destroy is what the destroy action would answer. */
  function Handle(step: Status, e: Entity, destroy: Result<Entity, StateError>): (Status, Entity) {
    if Gone(e) then (DONE, e)
    else if step == PENDING then
      if e.state == DESTROY then
        if e.status == ERROR then Settle(e, ExecuteEntity(e)) else (e.status, e)
      else Settle(e, destroy)
    else
      match e.status
      case APPROVAL_PENDING => Settle(e, ActionApprove(e))
      case READY => Settle(e, ExecuteEntity(e))
      case ERROR => if step == ERROR then Settle(e, ExecuteEntity(e)) else (ERROR, e)
      case _ => (e.status, e)
  }

  /**
   * What an event does to one resource and its step; ready says that the workflow task has reached
   * the step's position, may that a worker may take the resource up, destroy is what the destroy action would
   * answer. A worker that may not take up a resource gives up in the end; one without a version always fails.
   */
  function React(event: Event, step: Status, e: Entity, ready: bool, may: bool, destroy: Result<Entity, StateError>): (Status, Entity) {
    match event
    case Launch(_) => if step != DONE && step != IN_PROGRESS && ready then Handle(step, e, destroy) else (step, e)
    case Callback(_) => if step != DONE && step != PENDING then Handle(step, e, destroy) else (step, e)
    case WorkerStart(_) => (step, if e.status == QUEUED && may then MakeInProgress(e) else e)
    case WorkerDone(_) => (step, if e.status == IN_PROGRESS && e.versioned then MakeDone(e) else e)
    case WorkerFailed(_) => (step, if e.status == IN_PROGRESS || (e.status == QUEUED && !may) then MakeFailed(e) else e)
  }

  /** All steps at lower positions are done. */
  ghost predicate LowerDone(config: Config, w: World, id: Node)
    requires Tracks(config, w)
  {
    exists step :: step in config.plan && step.resourceId == id
      && forall other :: other in config.plan && other.position < step.position ==> w.steps[other.resourceId] == DONE
  }

  /** The step of a plan that is about a resource. */
  lemma StepOf(config: Config, w: World, id: Node) returns (step: Step)
    requires Tracks(config, w) && id in w.steps
    ensures step in config.plan && step.resourceId == id
  {
    step :| step in config.plan && step.resourceId == id;
  }

  lemma InPlan(config: Config, w: World, i: nat)
    requires Tracks(config, w) && i < |config.plan|
    ensures config.plan[i].resourceId in w.steps && config.plan[i].resourceId in w.entities
  {
    assert config.plan[i] in config.plan;
    assert Planned(config.plan, config.plan[i].resourceId);
  }

  lemma LowerStepsDone(config: Config, w: World, step: Step, other: Step)
    requires Tracks(config, w) && OnePerResource(config.plan) && step in config.plan && other in config.plan
    requires LowerDone(config, w, step.resourceId) && other.position < step.position
    ensures w.steps[other.resourceId] == DONE
  {
    var s :| s in config.plan && s.resourceId == step.resourceId
      && forall o :: o in config.plan && o.position < s.position ==> w.steps[o.resourceId] == DONE;
    SameStep(config.plan, s, step);
  }

  ghost function Next(config: Config, w: World, event: Event): (w': World)
    requires Tracks(config, w)
    ensures Tracks(config, w') && w'.entities.Keys == w.entities.Keys
  {
    var id := event.id;
    if id in w.steps then
      var (step, e) := React(event, w.steps[id], w.entities[id], LowerDone(config, w, id),
                             WorkerMay(config.links, w.entities, id),
                             ActionDestroy(config.links, w.entities, id, config.approvalFlow));
      World(w.entities[id := e], w.steps[id := step])
    else if id in w.entities then
      // A resource outside the plan: only its worker acts on it.
      w.(entities := w.entities[id := React(event, DONE, w.entities[id], false, WorkerMay(config.links, w.entities, id), Failure(WrongState)).1])
    else w
  }

  /** A step that is done or in progress, or has one below that is not done, is not launched. */
  lemma NothingToLaunch(config: Config, w: World, id: Node)
    requires Tracks(config, w) && id in w.steps
    requires w.steps[id] == DONE || w.steps[id] == IN_PROGRESS || !LowerDone(config, w, id)
    ensures Next(config, w, Launch(id)) == w
  {
    assert w.entities[id := w.entities[id]] == w.entities && w.steps[id := w.steps[id]] == w.steps;
  }

  ghost function Execute(config: Config, w: World, events: seq<Event>): (w': World)
    requires Tracks(config, w)
    ensures Tracks(config, w') && w'.entities.Keys == w.entities.Keys
  {
    if events == [] then w else Next(config, Execute(config, w, events[..|events| - 1]), events[|events| - 1])
  }

  /** A resource the destroy action accepts, children aside. */
  predicate Destroyable(e: Entity) {
    && e.edits == NoEdits
    && ((e.state == PROVISIONED && e.status in {DONE, READY, ERROR}) || (e.state == PROVISION && e.status == ERROR))
  }

  lemma {:induction false} ExecuteConcat(config: Config, w: World, a: seq<Event>, b: seq<Event>)
    requires Tracks(config, w)
    ensures Execute(config, w, a + b) == Execute(config, Execute(config, w, a), b)
  {
    if b == [] {
      assert a + b == a;
    } else {
      var n := |b| - 1;
      assert (a + b)[..|a + b| - 1] == a + b[..n];
      ExecuteConcat(config, w, a, b[..n]);
    }
  }

  /** The events that carry one resource from its launch to the end. */
  function Drive(id: Node): seq<Event> {
    [Launch(id), Callback(id), Callback(id), WorkerStart(id), WorkerDone(id), Callback(id)]
  }

  lemma ExecuteSnoc(config: Config, w: World, events: seq<Event>, event: Event)
    requires Tracks(config, w)
    ensures Execute(config, w, events + [event]) == Next(config, Execute(config, w, events), event)
  {
    assert (events + [event])[..|events|] == events;
  }

  ghost predicate AllGone(config: Config, w: World) {
    forall step :: step in config.plan && step.resourceId in w.entities ==> Gone(w.entities[step.resourceId])
  }

  ghost predicate Clears(config: Config, w: World, events: seq<Event>)
    requires Tracks(config, w)
  {
    AllGone(config, Execute(config, w, events))
  }

  predicate Standing(e: Entity) {
    e.state != DESTROY && e.state != DESTROYED
  }

  ghost predicate HasChildIn(links: Edges, nodes: set<Node>, v: Node) {
    exists u :: u in nodes && (v, u) in links
  }

  lemma ReactStands(event: Event, step: Status, e: Entity, ready: bool, may: bool, destroy: Result<Entity, StateError>)
    requires Standing(e) && destroy.Failure?
    ensures Standing(React(event, step, e, ready, may, destroy).1)
  {
  }

  lemma ChildStands(links: Edges, entities: map<Node, Entity>, nodes: set<Node>, id: Node)
    requires HasChildIn(links, nodes, id)
    requires forall v :: v in nodes ==> v in entities && Standing(entities[v])
    ensures !ChildrenGone(links, entities, id)
  {
    var u :| u in nodes && (id, u) in links;
    assert (id, u).0 == id && (id, u).1 == u && !Gone(entities[u]);
  }

  /** Resources that each wait for another one of them. */
  ghost predicate Circular(links: Edges, nodes: set<Node>) {
    forall v {:trigger HasChildIn(links, nodes, v)} :: v in nodes ==> HasChildIn(links, nodes, v)
  }

  ghost predicate AllStanding(w: World, nodes: set<Node>) {
    forall v :: v in nodes ==> v in w.entities && Standing(w.entities[v])
  }

  lemma DeadlockStep(config: Config, w: World, event: Event, nodes: set<Node>)
    requires Tracks(config, w) && Circular(config.links, nodes) && AllStanding(w, nodes)
    ensures AllStanding(Next(config, w, event), nodes)
  {
    var id := event.id;
    if id in nodes {
      assert HasChildIn(config.links, nodes, id);
      ChildStands(config.links, w.entities, nodes, id);
      if id in w.steps {
        ReactStands(event, w.steps[id], w.entities[id], LowerDone(config, w, id), WorkerMay(config.links, w.entities, id),
                    ActionDestroy(config.links, w.entities, id, config.approvalFlow));
      }
    }
  }

  /** They are never destroyed, whatever happens. */
  lemma {:induction false} DeadlockStands(config: Config, w: World, events: seq<Event>, nodes: set<Node>)
    requires Tracks(config, w) && Circular(config.links, nodes) && AllStanding(w, nodes)
    ensures AllStanding(Execute(config, w, events), nodes)
  {
    if events != [] {
      var n := |events| - 1;
      DeadlockStands(config, w, events[..n], nodes);
      DeadlockStep(config, Execute(config, w, events[..n]), events[n], nodes);
    }
  }

  /** The nodes of a cycle each have a child on the cycle. */
  lemma CycleNodes(links: Edges) returns (nodes: set<Node>)
    requires Cyclic(links)
    ensures nodes != {} && Circular(links, nodes)
  {
    var p :| IsPath(links, p) && |p| >= 2 && p[0] == Last(p);
    nodes := Elements(p);
    assert p[0] in nodes;
    forall v | v in nodes
      ensures HasChildIn(links, nodes, v)
    {
      var i :| 0 <= i < |p| - 1 && p[i] == v;
      assert (p[i], p[i + 1]) in links;
      assert p[i + 1] in nodes;
    }
  }

  lemma CyclicNeverClears(db: Database, root: Node, rows: seq<Row>, height: int, config: Config, w: World, nodes: set<Node>)
    requires Planning(db, root, rows, height, config.plan) && config.links == db.links
    requires Tracks(config, w) && forall id :: id in w.steps ==> Standing(w.entities[id])
    requires nodes != {} && Circular(ReachableLinks(db, root), nodes)
    ensures forall events :: !Clears(config, w, events)
  {
    CycleIsPlanned(db, root, rows, height, config, w, nodes);
    forall events
      ensures !Clears(config, w, events)
    {
      DeadlockUncleared(config, w, events, nodes);
    }
  }

  lemma CycleIsPlanned(db: Database, root: Node, rows: seq<Row>, height: int, config: Config, w: World, nodes: set<Node>)
    requires Planning(db, root, rows, height, config.plan) && config.links == db.links
    requires Tracks(config, w) && Circular(ReachableLinks(db, root), nodes)
    ensures nodes <= w.steps.Keys && Circular(config.links, nodes)
  {
    forall v | v in nodes
      ensures v in w.steps && HasChildIn(config.links, nodes, v)
    {
      assert HasChildIn(ReachableLinks(db, root), nodes, v);
      CycleNodePlanned(db, root, rows, height, config, nodes, v);
    }
  }

  lemma CycleNodePlanned(db: Database, root: Node, rows: seq<Row>, height: int, config: Config, nodes: set<Node>, v: Node)
    requires Planning(db, root, rows, height, config.plan) && config.links == db.links
    requires HasChildIn(ReachableLinks(db, root), nodes, v)
    ensures Planned(config.plan, v) && HasChildIn(config.links, nodes, v)
  {
    var u :| u in nodes && (v, u) in ReachableLinks(db, root);
    PlanCoversReachable(db, root, rows, height, config.plan, v);
  }

  lemma DeadlockUncleared(config: Config, w: World, events: seq<Event>, nodes: set<Node>)
    requires Tracks(config, w) && Circular(config.links, nodes) && AllStanding(w, nodes)
    requires nodes != {} && nodes <= w.steps.Keys
    ensures !Clears(config, w, events)
  {
    DeadlockStands(config, w, events, nodes);
    var v := AnyElement(nodes);
    assert Planned(config.plan, v);
    var step :| step in config.plan && step.resourceId == v;
    assert Standing(Execute(config, w, events).entities[v]);
  }
}
