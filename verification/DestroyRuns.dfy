/** Whole runs of a cascade destroy of a single resource, message by message. */
module DestroyRuns {
  import opened Common
  import opened Graphs
  import opened EntityState
  import opened CascadeDestroy
  import opened DestroyRunner
  import opened DestroySchedule
  import opened DestroyMessages

  /** A plan of one step, without links. */
  predicate Single(config: Config, id: Node) {
    config.links == {} && |config.plan| == 1 && config.plan[0].resourceId == id
  }

  /** The workflow has begun; the messages that wait, the steps to handle and the resources at work are its own or none. */
  function Alone(id: Node, step: Status, e: Entity, called: bool, left: bool, ours: bool): Queue {
    Queue(World(map[id := e], map[id := step]), if called then multiset{id} else multiset{}, if left then {id} else {},
          if ours then {id} else {}, true)
  }

  lemma SingleTracks(config: Config, id: Node, w: World)
    requires Single(config, id) && w.steps.Keys == {id} && w.entities.Keys == {id}
    ensures Tracks(config, w) && LowerDone(config, w, id) && ChildrenGone(config.links, w.entities, id)
    ensures WorkerMay(config.links, w.entities, id) <==> w.entities[id].state != DESTROYED
    ensures Current(config, w) == if w.steps[id] in {DONE, IN_PROGRESS} then {} else {id}
    ensures PositionDone(config, w, id) <==> w.steps[id] == DONE
  {
    assert config.plan[0] in config.plan;
    assert Planned(config.plan, id);
  }

  /** Handling the step leads here; sent says whether a message is sent. */
  predicate Handles(step: Status, e: Entity, approvalFlow: bool, step': Status, e': Entity, sent: bool) {
    var destroy := Answer(e, true, approvalFlow);
    Handle(step, e, destroy) == (step', e') && Sends(step, e, destroy) == sent
  }

  lemma VerdictAlone(config: Config, id: Node, step: Status, e: Entity)
    requires Single(config, id)
    ensures var w := World(map[id := e], map[id := step]);
            Tracks(config, w) && Verdict(config, w, id) == Answer(e, true, config.approvalFlow)
  {
    SingleTracks(config, id, World(map[id := e], map[id := step]));
  }

  lemma HandledAlone(config: Config, id: Node, step: Status, e: Entity, left: bool, ours: bool, step': Status, e': Entity, sent: bool)
    requires Single(config, id) && Handles(step, e, config.approvalFlow, step', e', sent)
    ensures var q := Alone(id, step, e, false, left, ours);
            Tracks(config, q.w) && Handled(config, q, id) == Alone(id, step', e', sent, left, ours || Executed(e, e'))
  {
    VerdictAlone(config, id, step, e);
    HandledIs(config, Alone(id, step, e, false, left, ours), id, step', e', sent);
    assert map[id := e][id := e'] == map[id := e'] && map[id := step][id := step'] == map[id := step'];
    assert multiset{} + multiset{id} == multiset{id};
  }

  lemma HandledIs(config: Config, q: Queue, id: Node, step': Status, e': Entity, sent: bool)
    requires Tracks(config, q.w) && id in q.w.steps
    requires Handle(q.w.steps[id], q.w.entities[id], Verdict(config, q.w, id)) == (step', e')
    requires Sends(q.w.steps[id], q.w.entities[id], Verdict(config, q.w, id)) == sent
    ensures Handled(config, q, id) ==
      q.(w := World(q.w.entities[id := e'], q.w.steps[id := step']),
         calls := if sent then q.calls + multiset{id} else q.calls,
         ours := if Executed(q.w.entities[id], e') then q.ours + {id} else q.ours)
  {
  }

  lemma TurnAlone(config: Config, id: Node, step: Status, e: Entity, ours: bool, step': Status, e': Entity, sent: bool)
    requires Single(config, id) && Handles(step, e, config.approvalFlow, step', e', sent)
    ensures var q := Alone(id, step, e, false, true, ours);
            Tracks(config, q.w) && Happen(config, q, Turn(id)) == Alone(id, step', e', sent, false, ours || Executed(e, e'))
  {
    HandledAlone(config, id, step, e, true, ours, step', e', sent);
    SingleTracks(config, id, Alone(id, step', e', sent, true, ours || Executed(e, e')).w);
    assert {id} - {id} == {};
  }

  lemma DeliverAlone(config: Config, id: Node, step: Status, e: Entity, ours: bool, step': Status, e': Entity, sent: bool)
    requires Single(config, id) && step != DONE && Handles(step, e, config.approvalFlow, step', e', sent)
    ensures var q := Alone(id, step, e, true, false, ours);
            Tracks(config, q.w) && Happen(config, q, Deliver(id)) == Alone(id, step', e', sent, false, ours || Executed(e, e'))
  {
    HandledAlone(config, id, step, e, false, ours, step', e', sent);
    SingleTracks(config, id, Alone(id, step', e', sent, false, ours || Executed(e, e')).w);
    assert multiset{id} - multiset{id} == multiset{};
  }

  lemma BeginAlone(config: Config, id: Node, step: Status, e: Entity)
    requires Single(config, id) && step != DONE && step != IN_PROGRESS
    ensures var q := Alone(id, step, e, false, false, false);
            Tracks(config, q.w) && Happen(config, q, Begin) == Alone(id, step, e, false, true, false)
  {
    SingleTracks(config, id, Alone(id, step, e, false, false, false).w);
  }

  /** A worker that was put to work by the workflow. */
  lemma WorkAlone(config: Config, id: Node, step: Status, e: Entity, event: Event, e': Entity)
    requires Single(config, id) && event.id == id && (event.WorkerStart? || event.WorkerDone? || event.WorkerFailed?)
    requires e' == React(event, DONE, e, false, e.state != DESTROYED, Failure(WrongState)).1
    ensures var q := Alone(id, step, e, false, false, true);
            Tracks(config, q.w) && AtWork(config, q, event) == Alone(id, step, e', Reports(e, e'), false, !Reports(e, e'))
  {
    var q := Alone(id, step, e, false, false, true);
    SingleTracks(config, id, q.w);
    WorkerNext(config, q.w, event);
    assert q.w.entities[id := e'] == map[id := e'];
    assert {id} - {id} == {} && multiset{} + multiset{id} == multiset{id};
  }

  /** The run from the beginning, with nothing handled yet, has led to this. */
  ghost predicate Reaches(config: Config, id: Node, e: Entity, happenings: seq<Happening>, q: Queue) {
    && Tracks(config, World(map[id := e], map[id := PENDING]))
    && Run(config, World(map[id := e], map[id := PENDING]), happenings) == q
  }

  lemma Begins(config: Config, id: Node, x: Entity)
    requires Single(config, id)
    ensures Reaches(config, id, x, [Begin], Alone(id, PENDING, x, false, true, false))
  {
    var w := World(map[id := x], map[id := PENDING]);
    SingleTracks(config, id, w);
    RunSnoc(config, w, [], Begin);
    assert [] + [Begin] == [Begin];
  }

  lemma BeginsAgain(config: Config, id: Node, x: Entity, happenings: seq<Happening>, step: Status, e: Entity)
    requires Single(config, id) && step != DONE && step != IN_PROGRESS
    requires Reaches(config, id, x, happenings, Alone(id, step, e, false, false, false))
    ensures Reaches(config, id, x, happenings + [Begin], Alone(id, step, e, false, true, false))
  {
    BeginAlone(config, id, step, e);
    RunSnoc(config, World(map[id := x], map[id := PENDING]), happenings, Begin);
  }

  lemma Turns(config: Config, id: Node, x: Entity, happenings: seq<Happening>, step: Status, e: Entity, step': Status, e': Entity, sent: bool)
    requires Single(config, id) && Handles(step, e, config.approvalFlow, step', e', sent)
    requires Reaches(config, id, x, happenings, Alone(id, step, e, false, true, false))
    ensures Reaches(config, id, x, happenings + [Turn(id)], Alone(id, step', e', sent, false, Executed(e, e')))
  {
    TurnAlone(config, id, step, e, false, step', e', sent);
    RunSnoc(config, World(map[id := x], map[id := PENDING]), happenings, Turn(id));
  }

  lemma Delivers(config: Config, id: Node, x: Entity, happenings: seq<Happening>, step: Status, e: Entity, step': Status, e': Entity, sent: bool)
    requires Single(config, id) && step != DONE && Handles(step, e, config.approvalFlow, step', e', sent)
    requires Reaches(config, id, x, happenings, Alone(id, step, e, true, false, false))
    ensures Reaches(config, id, x, happenings + [Deliver(id)], Alone(id, step', e', sent, false, Executed(e, e')))
  {
    DeliverAlone(config, id, step, e, false, step', e', sent);
    RunSnoc(config, World(map[id := x], map[id := PENDING]), happenings, Deliver(id));
  }

  lemma Works(config: Config, id: Node, x: Entity, happenings: seq<Happening>, step: Status, e: Entity, h: Happening, event: Event, e': Entity)
    requires Single(config, id) && (h, event) in {(Start(id), WorkerStart(id)), (Finish(id), WorkerDone(id)), (Fail(id), WorkerFailed(id))}
    requires e' == React(event, DONE, e, false, e.state != DESTROYED, Failure(WrongState)).1
    requires Reaches(config, id, x, happenings, Alone(id, step, e, false, false, true))
    ensures Reaches(config, id, x, happenings + [h], Alone(id, step, e', Reports(e, e'), false, !Reports(e, e')))
  {
    WorkAlone(config, id, step, e, event, e');
    RunSnoc(config, World(map[id := x], map[id := PENDING]), happenings, h);
  }

  /** A queued resource is worked on and destroyed, and its step is done. */
  lemma QueuedIsDestroyed(config: Config, id: Node, x: Entity, happenings: seq<Happening>, e: Entity)
    requires Single(config, id) && e.state == DESTROY && e.status == QUEUED && e.versioned
    requires Reaches(config, id, x, happenings, Alone(id, QUEUED, e, false, false, true))
    ensures Reaches(config, id, x, happenings + [Start(id)] + [Finish(id)] + [Deliver(id)],
                    Alone(id, DONE, e.(state := DESTROYED, status := DONE), false, false, false))
  {
    var working, gone := e.(status := IN_PROGRESS), e.(state := DESTROYED, status := DONE);
    Works(config, id, x, happenings, QUEUED, e, Start(id), WorkerStart(id), working);
    Works(config, id, x, happenings + [Start(id)], QUEUED, working, Finish(id), WorkerDone(id), gone);
    Delivers(config, id, x, happenings + [Start(id)] + [Finish(id)], QUEUED, gone, DONE, gone, false);
  }

  /** Or its worker fails. */
  lemma QueuedFails(config: Config, id: Node, x: Entity, happenings: seq<Happening>, e: Entity)
    requires Single(config, id) && e.state == DESTROY && e.status == QUEUED
    requires Reaches(config, id, x, happenings, Alone(id, QUEUED, e, false, false, true))
    ensures Reaches(config, id, x, happenings + [Start(id)] + [Fail(id)] + [Deliver(id)],
                    Alone(id, ERROR, e.(status := ERROR), false, false, false))
  {
    var working, failed := e.(status := IN_PROGRESS), e.(status := ERROR);
    Works(config, id, x, happenings, QUEUED, e, Start(id), WorkerStart(id), working);
    Works(config, id, x, happenings + [Start(id)], QUEUED, working, Fail(id), WorkerFailed(id), failed);
    Delivers(config, id, x, happenings + [Start(id)] + [Fail(id)], QUEUED, failed, ERROR, failed, false);
  }

  function ToApproval(id: Node): seq<Happening> {
    [Begin] + [Turn(id)]
  }

  function ToWork(id: Node): seq<Happening> {
    ToApproval(id) + [Deliver(id)] + [Deliver(id)]
  }

  function ToError(id: Node): seq<Happening> {
    ToWork(id) + [Start(id)] + [Fail(id)] + [Deliver(id)]
  }

  lemma WaitsForApproval(config: Config, id: Node, e: Entity)
    requires Single(config, id) && config.approvalFlow && Destroyable(e)
    ensures Reaches(config, id, e, ToApproval(id),
                    Alone(id, APPROVAL_PENDING, e.(state := DESTROY, status := APPROVAL_PENDING), true, false, false))
  {
    Begins(config, id, e);
    Turns(config, id, e, [Begin], PENDING, e, APPROVAL_PENDING, e.(state := DESTROY, status := APPROVAL_PENDING), true);
  }

  lemma ApprovedIsReady(config: Config, id: Node, e: Entity)
    requires Single(config, id) && config.approvalFlow && Destroyable(e) && !e.isAbstract
    ensures Reaches(config, id, e, ToApproval(id) + [Deliver(id)],
                    Alone(id, READY, e.(state := DESTROY, status := READY), true, false, false))
  {
    var d := e.(state := DESTROY);
    WaitsForApproval(config, id, e);
    Delivers(config, id, e, ToApproval(id), APPROVAL_PENDING, d.(status := APPROVAL_PENDING), READY, d.(status := READY), true);
  }

  /** With the approval flow the resource waits for approval, is approved, and is put to work. */
  lemma ApprovedIsExecuted(config: Config, id: Node, e: Entity)
    requires Single(config, id) && config.approvalFlow && Destroyable(e) && !e.isAbstract
    ensures Reaches(config, id, e, ToWork(id), Alone(id, QUEUED, e.(state := DESTROY, status := QUEUED), false, false, true))
  {
    var d := e.(state := DESTROY);
    ApprovedIsReady(config, id, e);
    Delivers(config, id, e, ToApproval(id) + [Deliver(id)], READY, d.(status := READY), QUEUED, d.(status := QUEUED), false);
  }

  /** And, if it has a version, destroyed, and its step done. */
  lemma ApprovedRunDestroys(config: Config, id: Node, e: Entity)
    requires Single(config, id) && config.approvalFlow && Destroyable(e) && !e.isAbstract && e.versioned
    ensures Reaches(config, id, e, ToWork(id) + [Start(id)] + [Finish(id)] + [Deliver(id)],
                    Alone(id, DONE, e.(state := DESTROYED, status := DONE), false, false, false))
  {
    ApprovedIsExecuted(config, id, e);
    QueuedIsDestroyed(config, id, e, ToWork(id), e.(state := DESTROY, status := QUEUED));
  }

  /** When its worker fails, the step is in error. */
  lemma FailedIsInError(config: Config, id: Node, e: Entity)
    requires Single(config, id) && config.approvalFlow && Destroyable(e) && !e.isAbstract
    ensures Reaches(config, id, e, ToError(id), Alone(id, ERROR, e.(state := DESTROY, status := ERROR), false, false, false))
  {
    ApprovedIsExecuted(config, id, e);
    QueuedFails(config, id, e, ToWork(id), e.(state := DESTROY, status := QUEUED));
  }

  /** Executing the workflow again puts the resource to work again; with a version it can be destroyed then. */
  lemma FailedRunIsRetried(config: Config, id: Node, e: Entity)
    requires Single(config, id) && config.approvalFlow && Destroyable(e) && !e.isAbstract && e.versioned
    ensures Reaches(config, id, e, ToError(id) + [Begin] + [Turn(id)] + [Start(id)] + [Finish(id)] + [Deliver(id)],
                    Alone(id, DONE, e.(state := DESTROYED, status := DONE), false, false, false))
  {
    var d := e.(state := DESTROY);
    FailedIsInError(config, id, e);
    BeginsAgain(config, id, e, ToError(id), ERROR, d.(status := ERROR));
    Turns(config, id, e, ToError(id) + [Begin], ERROR, d.(status := ERROR), QUEUED, d.(status := QUEUED), false);
    QueuedIsDestroyed(config, id, e, ToError(id) + [Begin] + [Turn(id)], d.(status := QUEUED));
  }

  /** An abstract resource is destroyed by the approval, version or not. */
  lemma AbstractRunDestroys(config: Config, id: Node, e: Entity)
    requires Single(config, id) && config.approvalFlow && Destroyable(e) && e.isAbstract
    ensures Reaches(config, id, e, ToApproval(id) + [Deliver(id)],
                    Alone(id, DONE, e.(state := DESTROYED, status := DONE), true, false, false))
  {
    WaitsForApproval(config, id, e);
    Delivers(config, id, e, ToApproval(id), APPROVAL_PENDING, e.(state := DESTROY, status := APPROVAL_PENDING),
             DONE, e.(state := DESTROYED, status := DONE), true);
  }

  lemma UnapprovedIsReady(config: Config, id: Node, e: Entity)
    requires Single(config, id) && !config.approvalFlow && Destroyable(e)
    ensures Reaches(config, id, e, ToApproval(id), Alone(id, READY, e.(state := DESTROY, status := READY), false, false, false))
  {
    Begins(config, id, e);
    Turns(config, id, e, [Begin], PENDING, e, READY, e.(state := DESTROY, status := READY), false);
  }

  /** Without the approval flow it takes a second execution of the workflow. */
  lemma SecondExecutionDestroys(config: Config, id: Node, e: Entity)
    requires Single(config, id) && !config.approvalFlow && Destroyable(e) && e.versioned
    ensures Reaches(config, id, e, ToApproval(id), Alone(id, READY, e.(state := DESTROY, status := READY), false, false, false))
    ensures Reaches(config, id, e, ToApproval(id) + [Begin] + [Turn(id)] + [Start(id)] + [Finish(id)] + [Deliver(id)],
                    Alone(id, DONE, e.(state := DESTROYED, status := DONE), false, false, false))
  {
    var d := e.(state := DESTROY);
    UnapprovedIsReady(config, id, e);
    BeginsAgain(config, id, e, ToApproval(id), READY, d.(status := READY));
    Turns(config, id, e, ToApproval(id) + [Begin], READY, d.(status := READY), QUEUED, d.(status := QUEUED), false);
    QueuedIsDestroyed(config, id, e, ToApproval(id) + [Begin] + [Turn(id)], d.(status := QUEUED));
  }
}
