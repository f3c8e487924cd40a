/**
 * The big steps of a cascade destroy: a worker finishes a resource, or a step is carried from its
 * start to its end. A step, once possible, stays so until it is made, so a schedule of them can be
 * found by trying; every schedule is realized by a run.
 */
module DestroySchedule {
  import opened Common
  import opened Graphs
  import opened EntityState
  import opened CascadeDestroy
  import opened DestroyRunner

  /** A resource that the destroy action accepts, children aside, at the latest when its worker has failed. */
  predicate Accepts(e: Entity) {
    && e.edits == NoEdits
    && ((e.state == PROVISIONED && e.status in {DONE, READY, ERROR, QUEUED, IN_PROGRESS})
        || (e.state == PROVISION && e.status in {ERROR, QUEUED, IN_PROGRESS}))
  }

  /** Once set to be destroyed it can be: by a worker, or by an approval if it is abstract. */
  predicate Ends(e: Entity, approvalFlow: bool) {
    e.versioned || (e.isAbstract && approvalFlow)
  }

  /** The resource of a step can be brought to its end, given how its children are. */
  predicate Clearable(e: Entity, childrenGone: bool, childrenPassed: bool, approvalFlow: bool) {
    || Gone(e)
    || (Accepts(e) && childrenGone && Ends(e, approvalFlow))
    || ByApproval(e)
    || (e.state == DESTROY && e.status in {APPROVAL_PENDING, READY, ERROR} && e.versioned && childrenPassed)
  }

  datatype Move = Work(id: Node) | Clear(id: Node)

  ghost predicate Possible(config: Config, w: World, move: Move)
    requires Tracks(config, w)
  {
    var id := move.id;
    match move
    case Work(_) =>
      id in w.entities && w.entities[id].versioned
      && (w.entities[id].status == IN_PROGRESS || (w.entities[id].status == QUEUED && WorkerMay(config.links, w.entities, id)))
    case Clear(_) =>
      id in w.steps && w.steps[id] == PENDING && LowerDone(config, w, id)
      && Clearable(w.entities[id], ChildrenGone(config.links, w.entities, id), ChildrenPassed(config.links, w.entities, id),
                   config.approvalFlow)
  }

  function Worked(e: Entity): Entity {
    MakeDone(e.(status := IN_PROGRESS))
  }

  function Cleared(e: Entity): Entity {
    e.(state := DESTROYED, status := DONE)
  }

  ghost function Make(config: Config, w: World, move: Move): (w': World)
    requires Tracks(config, w) && Possible(config, w, move)
    ensures Tracks(config, w') && w'.entities.Keys == w.entities.Keys && w'.steps.Keys == w.steps.Keys
  {
    var id := move.id;
    match move
    case Work(_) => w.(entities := w.entities[id := Worked(w.entities[id])])
    case Clear(_) => World(w.entities[id := Cleared(w.entities[id])], w.steps[id := DONE])
  }

  /** A sequence of moves, each possible after those before it. */
  ghost predicate Schedule(config: Config, w: World, moves: seq<Move>)
    requires Tracks(config, w)
    decreases |moves|, 0
  {
    moves == [] ||
    var n := |moves| - 1;
    Schedule(config, w, moves[..n]) && Possible(config, After(config, w, moves[..n]), moves[n])
  }

  ghost function After(config: Config, w: World, moves: seq<Move>): (w': World)
    requires Tracks(config, w) && Schedule(config, w, moves)
    ensures Tracks(config, w') && w'.entities.Keys == w.entities.Keys && w'.steps.Keys == w.steps.Keys
    decreases |moves|, 1
  {
    if moves == [] then w
    else
      var n := |moves| - 1;
      Make(config, After(config, w, moves[..n]), moves[n])
  }

  lemma ScheduleSnoc(config: Config, w: World, moves: seq<Move>, move: Move)
    requires Tracks(config, w) && Schedule(config, w, moves) && Possible(config, After(config, w, moves), move)
    ensures Schedule(config, w, moves + [move])
    ensures After(config, w, moves + [move]) == Make(config, After(config, w, moves), move)
  {
    assert (moves + [move])[..|moves|] == moves;
  }

  lemma {:induction false} ScheduleConcat(config: Config, w: World, a: seq<Move>, b: seq<Move>)
    requires Tracks(config, w) && Schedule(config, w, a) && Schedule(config, After(config, w, a), b)
    ensures Schedule(config, w, a + b) && After(config, w, a + b) == After(config, After(config, w, a), b)
  {
    if b == [] {
      assert a + b == a;
    } else {
      ScheduleConcat(config, w, a, b[..|b| - 1]);
      ConcatStep(config, w, a, b);
    }
  }

  lemma ConcatStep(config: Config, w: World, a: seq<Move>, b: seq<Move>)
    requires Tracks(config, w) && Schedule(config, w, a) && Schedule(config, After(config, w, a), b) && b != []
    requires var most := b[..|b| - 1];
             Schedule(config, w, a + most) && After(config, w, a + most) == After(config, After(config, w, a), most)
    ensures Schedule(config, w, a + b) && After(config, w, a + b) == After(config, After(config, w, a), b)
  {
    assert (a + b)[..|a + b| - 1] == a + b[..|b| - 1];
  }

  /** What one resource allows to another, it allows for good. */
  predicate Grows(e: Entity, e': Entity) {
    && (ParentReady(e) ==> ParentReady(e')) && (Passed(e) ==> Passed(e')) && (Gone(e) ==> Gone(e'))
  }

  /** A move changes one resource, for the better as far as the others are concerned. */
  lemma MakeGrows(config: Config, w: World, move: Move)
    requires Tracks(config, w) && Possible(config, w, move)
    ensures var w' := Make(config, w, move);
            && (forall id :: id in w.entities ==> Grows(w.entities[id], w'.entities[id]))
            && (forall id :: id in w.steps && w.steps[id] == DONE ==> w'.steps[id] == DONE)
            && (forall id :: id in w.entities && id != move.id ==> w'.entities[id] == w.entities[id])
            && (forall id :: id in w.steps && id != move.id ==> w'.steps[id] == w.steps[id])
  {
  }

  /** Between two worlds nothing is taken back. */
  predicate Ahead(w: World, w': World) {
    && w'.entities.Keys == w.entities.Keys && w'.steps.Keys == w.steps.Keys
    && (forall id :: id in w.entities && id in w'.entities ==> Grows(w.entities[id], w'.entities[id]))
    && forall id :: id in w.steps && id in w'.steps && w.steps[id] == DONE ==> w'.steps[id] == DONE
  }

  /** So what was possible for the other resources still is. */
  lemma AheadAllows(config: Config, w: World, w': World, id: Node)
    requires Tracks(config, w) && Tracks(config, w') && Ahead(w, w')
    ensures ChildrenGone(config.links, w.entities, id) ==> ChildrenGone(config.links, w'.entities, id)
    ensures ChildrenPassed(config.links, w.entities, id) ==> ChildrenPassed(config.links, w'.entities, id)
    ensures ParentsReady(config.links, w.entities, id) ==> ParentsReady(config.links, w'.entities, id)
    ensures LowerDone(config, w, id) ==> LowerDone(config, w', id)
  {
    if LowerDone(config, w, id) {
      var step :| step in config.plan && step.resourceId == id
        && forall other :: other in config.plan && other.position < step.position ==> w.steps[other.resourceId] == DONE;
      forall other | other in config.plan && other.position < step.position
        ensures w'.steps[other.resourceId] == DONE
      {
        assert Planned(config.plan, other.resourceId);
      }
    }
  }

  /** A possible move stays possible when another resource's is made: schedules can be found greedily. */
  lemma MovesPersist(config: Config, w: World, move: Move, other: Move)
    requires Tracks(config, w) && Possible(config, w, move) && Possible(config, w, other) && move.id != other.id
    ensures Possible(config, Make(config, w, other), move)
  {
    MakeGrows(config, w, other);
    AheadAllows(config, w, Make(config, w, other), move.id);
  }

  /** What an event does to one resource and its step: nothing if it is about another resource. */
  lemma NextReacts(config: Config, w: World, event: Event, id: Node)
    requires Tracks(config, w) && id in w.steps
    ensures var w' := Next(config, w, event);
            (w'.steps[id], w'.entities[id]) ==
              if event.id == id
              then React(event, w.steps[id], w.entities[id], LowerDone(config, w, id), WorkerMay(config.links, w.entities, id),
                         ActionDestroy(config.links, w.entities, id, config.approvalFlow))
              else (w.steps[id], w.entities[id])
  {
  }

  lemma TwoEvents(config: Config, w: World, a: Event, b: Event)
    requires Tracks(config, w)
    ensures Execute(config, w, [a]) == Next(config, w, a)
    ensures Execute(config, w, [a, b]) == Next(config, Next(config, w, a), b)
  {
    assert [a][..0] == [] && [a, b][..1] == [a];
  }

  /** A worker's event, on a resource inside or outside the plan. */
  lemma WorkerNext(config: Config, w: World, event: Event)
    requires Tracks(config, w) && event.id in w.entities
    requires event.WorkerStart? || event.WorkerDone? || event.WorkerFailed?
    ensures Next(config, w, event) ==
      w.(entities := w.entities[event.id := React(event, DONE, w.entities[event.id], false,
                                                   WorkerMay(config.links, w.entities, event.id), Failure(WrongState)).1])
  {
    if event.id in w.steps {
      assert w.steps[event.id := w.steps[event.id]] == w.steps;
    }
  }

  lemma RealizeWork(config: Config, w: World, id: Node) returns (events: seq<Event>)
    requires Tracks(config, w) && Possible(config, w, Work(id))
    ensures Execute(config, w, events) == Make(config, w, Work(id))
  {
    if w.entities[id].status == IN_PROGRESS {
      events := [WorkerDone(id)];
      TwoEvents(config, w, WorkerDone(id), WorkerDone(id));
      WorkerNext(config, w, WorkerDone(id));
    } else {
      events := [WorkerStart(id), WorkerDone(id)];
      TwoEvents(config, w, WorkerStart(id), WorkerDone(id));
      WorkFromQueue(config, w, id);
    }
  }

  lemma WorkFromQueue(config: Config, w: World, id: Node)
    requires Tracks(config, w) && Possible(config, w, Work(id)) && w.entities[id].status == QUEUED
    ensures Next(config, Next(config, w, WorkerStart(id)), WorkerDone(id)) == Make(config, w, Work(id))
  {
    var w1 := Next(config, w, WorkerStart(id));
    WorkerNext(config, w, WorkerStart(id));
    assert w1 == w.(entities := w.entities[id := w.entities[id].(status := IN_PROGRESS)]);
    WorkerNext(config, w1, WorkerDone(id));
  }

  /** The other resources keep what they allow to id while id itself changes, unless id depends on itself. */
  lemma GuardsElsewhere(config: Config, w: World, w': World, id: Node)
    requires Tracks(config, w) && Tracks(config, w') && Only(w, w', id)
    requires (id, id) !in config.links
    ensures ChildrenGone(config.links, w'.entities, id) <==> ChildrenGone(config.links, w.entities, id)
    ensures ChildrenPassed(config.links, w'.entities, id) <==> ChildrenPassed(config.links, w.entities, id)
    ensures ParentsReady(config.links, w'.entities, id) <==> ParentsReady(config.links, w.entities, id)
  {
    assert forall e :: e in config.links ==> e == (e.0, e.1);
  }

  /** Nothing but this step and its resource differs. */
  predicate Only(w: World, w': World, id: Node) {
    && id in w'.steps && id in w'.entities && id in w.steps && id in w.entities
    && w'.steps == w.steps[id := w'.steps[id]] && w'.entities == w.entities[id := w'.entities[id]]
  }

  lemma OnlyTwice(w: World, w': World, w'': World, id: Node)
    requires Only(w, w', id) && Only(w', w'', id)
    ensures Only(w, w'', id)
  {
  }

  lemma NextOnly(config: Config, w: World, event: Event)
    requires Tracks(config, w) && event.id in w.steps
    ensures Only(w, Next(config, w, event), event.id)
  {
  }

  /** The reach of a step does not depend on how far it is itself. */
  lemma LowerElsewhere(config: Config, w: World, w': World, id: Node)
    requires Tracks(config, w) && Tracks(config, w') && Only(w, w', id) && w.steps[id] != DONE && LowerDone(config, w, id)
    ensures LowerDone(config, w', id)
  {
    var step :| step in config.plan && step.resourceId == id
      && forall other :: other in config.plan && other.position < step.position ==> w.steps[other.resourceId] == DONE;
    forall other | other in config.plan && other.position < step.position
      ensures w'.steps[other.resourceId] == DONE
    {
      assert Planned(config.plan, other.resourceId);
    }
  }

  /** What is left of a resource x on its way to being destroyed. */
  predicate Underway(x: Entity, e: Entity) {
    e == x.(state := DESTROY, status := e.status)
  }

  /** An approval is all it takes. */
  predicate ByApproval(x: Entity) {
    x.state == DESTROY && x.status == APPROVAL_PENDING && x.isAbstract
  }

  predicate NeedsWorker(x: Entity) {
    !Gone(x) && !ByApproval(x)
  }

  /** How far the first k events of a drive have brought resource x: nothing is in the way. */
  predicate Onward(k: nat, x: Entity, step: Status, e: Entity) {
    if k == 0 then step == PENDING && e == x && (Gone(e) || Destroyable(e) || (e.state == DESTROY && e.status in {APPROVAL_PENDING, READY, ERROR}))
    else if step == DONE then e == Cleared(x)
    else
      && step != PENDING
      && match k
         case 1 =>
           Underway(x, e) && !Gone(x)
           && ((e.status == APPROVAL_PENDING && Ends(e, true)) || (e.status in {READY, QUEUED} && e.versioned && NeedsWorker(x)))
         case 2 => Underway(x, e) && e.status in {READY, QUEUED} && e.versioned && NeedsWorker(x)
         case 3 => Underway(x, e) && e.status == QUEUED && e.versioned && NeedsWorker(x)
         case 4 => Underway(x, e) && e.status == IN_PROGRESS && e.versioned && NeedsWorker(x)
         case 5 => e == Cleared(x)
         case _ => false
  }

  lemma OnwardBegins(id: Node, x: Entity, ready: bool, may: bool, destroy: Result<Entity, StateError>, approvalFlow: bool)
    requires Onward(0, x, PENDING, x) && ready
    requires Destroyable(x) ==>
      && destroy == Success(x.(state := DESTROY, status := if approvalFlow then APPROVAL_PENDING else READY))
      && Ends(x, approvalFlow)
    requires x.state == DESTROY ==> x.versioned || ByApproval(x)
    ensures var (step', e') := React(Launch(id), PENDING, x, ready, may, destroy); Onward(1, x, step', e')
  {
  }

  lemma OnwardAdvances(k: nat, id: Node, x: Entity, step: Status, e: Entity, ready: bool, may: bool, destroy: Result<Entity, StateError>)
    requires 0 < k < 6 && Onward(k, x, step, e)
    requires k == 3 && e.state == DESTROY && e.versioned ==> may
    ensures var (step', e') := React(Drive(id)[k], step, e, ready, may, destroy); Onward(k + 1, x, step', e')
  {
    if k in {3, 4} {
      WorkerAdvances(k, id, x, step, e, ready, may, destroy);
    } else {
      CallAdvances(k, id, x, step, e, ready, may, destroy);
    }
  }

  lemma WorkerAdvances(k: nat, id: Node, x: Entity, step: Status, e: Entity, ready: bool, may: bool, destroy: Result<Entity, StateError>)
    requires k in {3, 4} && Onward(k, x, step, e)
    requires k == 3 && e.state == DESTROY && e.versioned ==> may
    ensures var (step', e') := React(Drive(id)[k], step, e, ready, may, destroy); Onward(k + 1, x, step', e')
  {
  }

  lemma CallAdvances(k: nat, id: Node, x: Entity, step: Status, e: Entity, ready: bool, may: bool, destroy: Result<Entity, StateError>)
    requires k in {1, 2, 5} && Onward(k, x, step, e)
    ensures var (step', e') := React(Callback(id), step, e, ready, may, destroy); Onward(k + 1, x, step', e')
  {
  }

  lemma DestroyAnswer(config: Config, w: World, id: Node)
    requires id in w.entities
    ensures var x := w.entities[id];
            Destroyable(x) && ChildrenGone(config.links, w.entities, id) ==>
              ActionDestroy(config.links, w.entities, id, config.approvalFlow)
                == Success(x.(state := DESTROY, status := if config.approvalFlow then APPROVAL_PENDING else READY))
  {
  }

  /** What a drive of id from w needs. */
  ghost predicate Drivable(config: Config, w: World, id: Node)
    requires Tracks(config, w)
  {
    && id in w.steps && LowerDone(config, w, id)
    && var x := w.entities[id];
       && Onward(0, x, w.steps[id], x)
       && Clearable(x, ChildrenGone(config.links, w.entities, id), ChildrenPassed(config.links, w.entities, id), config.approvalFlow)
  }

  /** When a worker is needed, the children let it pass, and id is not among them. */
  lemma DriveNeeds(config: Config, w: World, id: Node)
    requires Tracks(config, w) && Drivable(config, w, id)
    ensures var x := w.entities[id];
            NeedsWorker(x) ==>
              ChildrenPassed(config.links, w.entities, id) && (id, id) !in config.links
  {
    if (id, id) in config.links {
      SelfBlocks(config, w, id);
    }
  }

  /** A resource that depends on itself is in its own way. */
  lemma SelfBlocks(config: Config, w: World, id: Node)
    requires id in w.entities && (id, id) in config.links
    ensures ChildrenGone(config.links, w.entities, id) ==> Gone(w.entities[id])
    ensures ChildrenPassed(config.links, w.entities, id) ==> Passed(w.entities[id])
  {
    var self := (id, id);
    assert self.0 == id && self.1 == id;
  }

  ghost function Driven(config: Config, w: World, id: Node, k: nat): (w': World)
    requires Tracks(config, w) && k <= 6
    ensures Tracks(config, w')
  {
    Execute(config, w, Drive(id)[..k])
  }

  lemma DrivenStep(config: Config, w: World, id: Node, k: nat)
    requires Tracks(config, w) && k < 6
    ensures Driven(config, w, id, k + 1) == Next(config, Driven(config, w, id, k), Drive(id)[k])
  {
    assert Drive(id)[..k + 1] == Drive(id)[..k] + [Drive(id)[k]];
    ExecuteSnoc(config, w, Drive(id)[..k], Drive(id)[k]);
  }

  /** Where a drive stands after k events. */
  ghost predicate OnTheWay(config: Config, w: World, w': World, id: Node, k: nat) {
    && Tracks(config, w) && Tracks(config, w') && Only(w, w', id)
    && Onward(k, w.entities[id], w'.steps[id], w'.entities[id])
  }

  lemma DriveNext(config: Config, w: World, w': World, id: Node, k: nat)
    requires Tracks(config, w) && Drivable(config, w, id) && OnTheWay(config, w, w', id, k) && k < 6
    requires k == 0 ==> w' == w
    ensures OnTheWay(config, w, Next(config, w', Drive(id)[k]), id, k + 1)
  {
    var x, e := w.entities[id], w'.entities[id];
    NextOnly(config, w', Drive(id)[k]);
    OnlyTwice(w, w', Next(config, w', Drive(id)[k]), id);
    NextReacts(config, w', Drive(id)[k], id);
    DestroyAnswer(config, w, id);
    if k == 3 && w'.steps[id] != DONE {
      DriveMay(config, w, w', id);
    }
    var may, destroy := WorkerMay(config.links, w'.entities, id), ActionDestroy(config.links, w'.entities, id, config.approvalFlow);
    if k == 0 {
      OnwardBegins(id, x, LowerDone(config, w', id), may, destroy, config.approvalFlow);
    } else {
      OnwardAdvances(k, id, x, w'.steps[id], e, LowerDone(config, w', id), may, destroy);
    }
  }

  /** When the worker is to start it may. */
  lemma DriveMay(config: Config, w: World, w': World, id: Node)
    requires Tracks(config, w) && Drivable(config, w, id) && OnTheWay(config, w, w', id, 3) && w'.steps[id] != DONE
    ensures WorkerMay(config.links, w'.entities, id)
  {
    DriveNeeds(config, w, id);
    GuardsElsewhere(config, w, w', id);
  }

  lemma {:induction false} DrivenOnward(config: Config, w: World, id: Node, k: nat)
    requires Tracks(config, w) && Drivable(config, w, id) && k <= 6
    ensures OnTheWay(config, w, Driven(config, w, id, k), id, k)
    ensures k == 0 ==> Driven(config, w, id, k) == w
  {
    if k == 0 {
      assert Drive(id)[..0] == [];
      assert w.steps == w.steps[id := w.steps[id]] && w.entities == w.entities[id := w.entities[id]];
    } else {
      DrivenOnward(config, w, id, k - 1);
      DriveNext(config, w, Driven(config, w, id, k - 1), id, k - 1);
      DrivenStep(config, w, id, k - 1);
    }
  }

  lemma DriveEnds(config: Config, w: World, w': World, id: Node)
    requires OnTheWay(config, w, w', id, 6)
    ensures w' == World(w.entities[id := Cleared(w.entities[id])], w.steps[id := DONE])
  {
  }

  lemma DrivenAll(config: Config, w: World, id: Node)
    requires Tracks(config, w)
    ensures Driven(config, w, id, 6) == Execute(config, w, Drive(id))
  {
    assert Drive(id)[..6] == Drive(id);
  }

  lemma RealizeDrive(config: Config, w: World, id: Node)
    requires Tracks(config, w) && Drivable(config, w, id)
    ensures Execute(config, w, Drive(id)) == World(w.entities[id := Cleared(w.entities[id])], w.steps[id := DONE])
  {
    DrivenOnward(config, w, id, 6);
    DriveEnds(config, w, Driven(config, w, id, 6), id);
    DrivenAll(config, w, id);
  }

  /** A worker can always fail. */
  lemma RealizeFailure(config: Config, w: World, id: Node) returns (events: seq<Event>)
    requires Tracks(config, w) && id in w.entities && w.entities[id].status in {QUEUED, IN_PROGRESS} && w.entities[id].state != DESTROYED
    ensures Execute(config, w, events) == w.(entities := w.entities[id := w.entities[id].(status := ERROR)])
  {
    if w.entities[id].status == QUEUED && WorkerMay(config.links, w.entities, id) {
      events := [WorkerStart(id), WorkerFailed(id)];
      TwoEvents(config, w, WorkerStart(id), WorkerFailed(id));
      FailAtWork(config, w, id);
    } else {
      events := [WorkerFailed(id)];
      TwoEvents(config, w, WorkerFailed(id), WorkerFailed(id));
      WorkerNext(config, w, WorkerFailed(id));
    }
  }

  lemma FailAtWork(config: Config, w: World, id: Node)
    requires Tracks(config, w) && id in w.entities && w.entities[id].status == QUEUED && WorkerMay(config.links, w.entities, id)
    ensures Next(config, Next(config, w, WorkerStart(id)), WorkerFailed(id))
         == w.(entities := w.entities[id := w.entities[id].(status := ERROR)])
  {
    var w1 := Next(config, w, WorkerStart(id));
    WorkerNext(config, w, WorkerStart(id));
    assert w1 == w.(entities := w.entities[id := w.entities[id].(status := IN_PROGRESS)]);
    WorkerNext(config, w1, WorkerFailed(id));
  }

  lemma RealizeClear(config: Config, w: World, id: Node) returns (events: seq<Event>)
    requires Tracks(config, w) && Possible(config, w, Clear(id))
    ensures Execute(config, w, events) == Make(config, w, Clear(id))
  {
    if w.entities[id].status in {QUEUED, IN_PROGRESS} {
      var failing := RealizeFailure(config, w, id);
      events := failing + Drive(id);
      ExecuteConcat(config, w, failing, Drive(id));
      ClearAfterFailure(config, w, Execute(config, w, failing), id);
    } else {
      events := Drive(id);
      RealizeDrive(config, w, id);
    }
  }

  lemma ClearAfterFailure(config: Config, w: World, w1: World, id: Node)
    requires Tracks(config, w) && Tracks(config, w1) && Possible(config, w, Clear(id)) && w.entities[id].status in {QUEUED, IN_PROGRESS}
    requires w1 == w.(entities := w.entities[id := w.entities[id].(status := ERROR)])
    ensures Execute(config, w1, Drive(id)) == Make(config, w, Clear(id))
  {
    FailedDrivable(config, w, w1, id);
    RealizeDrive(config, w1, id);
    SameCleared(w.entities, id, ERROR);
  }

  lemma SameCleared(entities: map<Node, Entity>, id: Node, status: Status)
    requires id in entities
    ensures var failed := entities[id := entities[id].(status := status)];
            failed[id := Cleared(failed[id])] == entities[id := Cleared(entities[id])]
  {
  }

  lemma FailedDrivable(config: Config, w: World, w1: World, id: Node)
    requires Tracks(config, w) && Tracks(config, w1) && Possible(config, w, Clear(id)) && w.entities[id].status in {QUEUED, IN_PROGRESS}
    requires w1 == w.(entities := w.entities[id := w.entities[id].(status := ERROR)])
    ensures Drivable(config, w1, id)
  {
    assert w.steps == w.steps[id := w1.steps[id]];
    LowerElsewhere(config, w, w1, id);
    if (id, id) in config.links {
      SelfBlocks(config, w, id);
    }
    GuardsElsewhere(config, w, w1, id);
  }

  lemma Realize(config: Config, w: World, move: Move) returns (events: seq<Event>)
    requires Tracks(config, w) && Possible(config, w, move)
    ensures Execute(config, w, events) == Make(config, w, move)
  {
    match move {
      case Work(id) => events := RealizeWork(config, w, id);
      case Clear(id) => events := RealizeClear(config, w, id);
    }
  }

  /** Every schedule is what some run comes to. */
  lemma {:induction false} RealizeSchedule(config: Config, w: World, moves: seq<Move>) returns (events: seq<Event>)
    requires Tracks(config, w) && Schedule(config, w, moves)
    ensures Execute(config, w, events) == After(config, w, moves)
  {
    if moves == [] {
      events := [];
    } else {
      var n := |moves| - 1;
      var earlier := RealizeSchedule(config, w, moves[..n]);
      var later := Realize(config, After(config, w, moves[..n]), moves[n]);
      events := earlier + later;
      ExecuteConcat(config, w, earlier, later);
    }
  }
}
