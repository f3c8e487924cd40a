/**
 * A cascade destroy driven by the messages that are really sent: who calls the workflow task back,
 * and whether a run that has come to rest is finished.
 */
module DestroyMessages {
  import opened Common
  import opened Graphs
  import opened EntityState
  import opened CascadeDestroy
  import opened DestroyRunner
  import opened DestroySchedule
  import opened DestroyOutcomes

  /**
   * calls: messages that name a step and wait to be delivered. left: the steps that the running task still
   * has to handle at the position it is launching. ours: the resources that the workflow task has had executed,
   * whose workers call it back. One message is handled at a time.
   */
  datatype Queue = Queue(w: World, calls: multiset<Node>, left: set<Node>, ours: set<Node>, begun: bool)

  datatype Happening =
    | Begin                  // the workflow is executed without naming a step
    | Deliver(id: Node)      // a message for a step is handled
    | Turn(id: Node)         // the running task handles the next step of its position
    | Start(id: Node)        // a worker takes up a resource
    | Finish(id: Node)       // and is done with it
    | Fail(id: Node)

  /** Whether handling a step sends a message for it. */
  predicate Sends(step: Status, e: Entity, destroy: Result<Entity, StateError>) {
    if Gone(e) then false
    else if step == PENDING then
      if e.state == DESTROY then e.status in {APPROVAL_PENDING, READY}
      else destroy.Success? && destroy.value.status == APPROVAL_PENDING
    else e.status == APPROVAL_PENDING && ActionApprove(e).Success?
  }

  /** What the destroy action would answer. */
  ghost function Verdict(config: Config, w: World, id: Node): Result<Entity, StateError>
    requires id in w.entities
  {
    ActionDestroy(config.links, w.entities, id, config.approvalFlow)
  }

  /** The steps at the lowest position that is not done, except those in progress. */
  ghost function Current(config: Config, w: World): set<Node>
    requires Tracks(config, w)
  {
    set id | id in w.steps && w.steps[id] != DONE && w.steps[id] != IN_PROGRESS && LowerDone(config, w, id)
  }

  /** Handling a step, and the messages that wait afterwards. */
  ghost function Handled(config: Config, q: Queue, id: Node): (q': Queue)
    requires Tracks(config, q.w) && id in q.w.steps
    ensures Tracks(config, q'.w) && q'.left == q.left && q'.begun == q.begun
  {
    var step, e, destroy := q.w.steps[id], q.w.entities[id], Verdict(config, q.w, id);
    var (step', e') := Handle(step, e, destroy);
    q.(w := World(q.w.entities[id := e'], q.w.steps[id := step']),
       calls := if Sends(step, e, destroy) then q.calls + multiset{id} else q.calls,
       ours := if Executed(e, e') then q.ours + {id} else q.ours)
  }

  /** The resource was handed to a worker. */
  predicate Executed(e: Entity, e': Entity) {
    e.status != QUEUED && e'.status == QUEUED
  }

  ghost function AfterTurn(config: Config, q: Queue, id: Node): (q': Queue)
    requires Tracks(config, q.w) && id in q.w.steps
    ensures Tracks(config, q'.w)
  {
    var left := q.left - {id};
    q.(left := if left == {} && PositionDone(config, q.w, id) then Current(config, q.w) else left)
  }

  /** Every step at this step's position is done. */
  ghost predicate PositionDone(config: Config, w: World, id: Node)
    requires Tracks(config, w)
  {
    forall step, other | step in config.plan && other in config.plan ::
      step.resourceId == id && other.position == step.position ==> w.steps[other.resourceId] == DONE
  }

  ghost function Happen(config: Config, q: Queue, h: Happening): (q': Queue)
    requires Tracks(config, q.w)
    ensures Tracks(config, q'.w)
  {
    match h
    case Begin => if q.left == {} then q.(begun := true, left := Current(config, q.w)) else q
    case Deliver(id) =>
      if q.left == {} && id in q.calls && id in q.w.steps then
        var q1 := q.(calls := q.calls - multiset{id});
        if q.w.steps[id] == DONE then q1
        else
          var q2 := Handled(config, q1, id);
          if q2.w.steps[id] == DONE then q2.(left := Current(config, q2.w)) else q2
      else q
    case Turn(id) => if id in q.left && id in q.w.steps then AfterTurn(config, Handled(config, q, id), id) else q
    case Start(id) => AtWork(config, q, WorkerStart(id))
    case Finish(id) => AtWork(config, q, WorkerDone(id))
    case Fail(id) => AtWork(config, q, WorkerFailed(id))
  }

  predicate Busy(e: Entity) {
    e.status in {QUEUED, IN_PROGRESS}
  }

  /** The worker's end is reported to the workflow task if that had the resource executed. */
  predicate Reports(e: Entity, e': Entity) {
    Busy(e) && e'.status in {DONE, ERROR}
  }

  ghost function AtWork(config: Config, q: Queue, event: Event): (q': Queue)
    requires Tracks(config, q.w)
    ensures Tracks(config, q'.w)
  {
    var id, w' := event.id, Next(config, q.w, event);
    if id in q.w.steps && id in q.ours && Reports(q.w.entities[id], w'.entities[id])
    then q.(w := w', calls := q.calls + multiset{id}, ours := q.ours - {id})
    else q.(w := w')
  }

  ghost function Run(config: Config, w: World, happenings: seq<Happening>): (q: Queue)
    requires Tracks(config, w)
    ensures Tracks(config, q.w)
  {
    if happenings == [] then Queue(w, multiset{}, {}, {}, false)
    else Happen(config, Run(config, w, happenings[..|happenings| - 1]), happenings[|happenings| - 1])
  }

  /** No message waits and nobody works. */
  ghost predicate AtRest(q: Queue) {
    && q.begun && q.calls == multiset{} && q.left == {}
    && forall id :: id in q.w.steps && id in q.w.entities ==> !Busy(q.w.entities[id])
  }

  /** Set to be destroyed without approval: no message is sent for it. */
  predicate Forgotten(step: Status, e: Entity) {
    step == READY && e.state == DESTROY && e.status == READY
  }

  /** The step follows a resource that the workflow task has no part in: somebody else works on it, or nobody will. */
  predicate Stranded(step: Status, e: Entity, ours: bool) {
    || (step in {QUEUED, IN_PROGRESS} && !ours)
    || (step !in {DONE, ERROR, READY, APPROVAL_PENDING, QUEUED, IN_PROGRESS} && e.status == step)
  }

  /** Nobody works on it, or the workflow task had it executed. */
  predicate Calm(e: Entity, ours: bool) {
    e.status in {APPROVAL_PENDING, READY, DONE, ERROR} || (Busy(e) && ours)
  }

  /** The step needs no more attention, or it is on its way, or nobody looks after it. */
  predicate Settles(step: Status, e: Entity, sent: bool, ours: bool, calm: bool, approvalFlow: bool) {
    || step == DONE || step == ERROR || sent
    || (ours && Busy(e))
    || (!approvalFlow && Forgotten(step, e))
    || (!calm && Stranded(step, e, ours))
  }

  /** Something will happen to this step, unless it is finished, in error, forgotten or stranded. */
  predicate Attended(q: Queue, id: Node, blocked: bool, calm: bool, approvalFlow: bool)
    requires id in q.w.steps && id in q.w.entities
  {
    || Settles(q.w.steps[id], q.w.entities[id], id in q.calls, id in q.ours, calm, approvalFlow)
    || id in q.left
    || (q.w.steps[id] == PENDING && (!q.begun || blocked))
  }

  lemma HandleSettles(step: Status, e: Entity, destroy: Result<Entity, StateError>, ours: bool, calm: bool, approvalFlow: bool)
    requires step != DONE && (calm ==> Calm(e, ours))
    requires destroy.Success? ==> destroy.value == e.(state := DESTROY, status := if approvalFlow then APPROVAL_PENDING else READY)
    ensures var (step', e') := Handle(step, e, destroy);
            var ours' := ours || Executed(e, e');
            Settles(step', e', Sends(step, e, destroy), ours', calm, approvalFlow) && (calm ==> Calm(e', ours'))
  {
  }

  lemma VerdictIs(config: Config, w: World, id: Node)
    requires id in w.entities
    ensures var e, destroy := w.entities[id], Verdict(config, w, id);
            destroy.Success? ==> destroy.value == e.(state := DESTROY, status := if config.approvalFlow then APPROVAL_PENDING else READY)
  {
  }

  /** The steps that the running task still has to handle can be reached and are not done. */
  ghost predicate InTurn(config: Config, q: Queue)
    requires Tracks(config, q.w)
  {
    forall id :: id in q.left ==> id in q.w.steps && q.w.steps[id] != DONE && q.w.steps[id] != IN_PROGRESS && LowerDone(config, q.w, id)
  }

  /** Messages name steps that can be reached. */
  ghost predicate Called(config: Config, q: Queue)
    requires Tracks(config, q.w)
  {
    && (forall id :: id in q.calls ==> id in q.w.steps && LowerDone(config, q.w, id))
    && (forall id :: id in q.ours && id in q.w.steps ==> LowerDone(config, q.w, id))
  }

  ghost predicate AllCalm(q: Queue) {
    forall id :: id in q.w.steps && id in q.w.entities ==> Calm(q.w.entities[id], id in q.ours)
  }

  ghost predicate AttendedAt(config: Config, q: Queue, id: Node, calm: bool)
    requires Tracks(config, q.w) && id in q.w.steps
  {
    Attended(q, id, !LowerDone(config, q.w, id), calm, config.approvalFlow)
  }

  ghost predicate AllAttended(config: Config, q: Queue, calm: bool)
    requires Tracks(config, q.w)
  {
    forall id :: id in q.w.steps ==> AttendedAt(config, q, id, calm)
  }

  ghost predicate Orderly(config: Config, q: Queue, calm: bool) {
    && OnePerResource(config.plan) && Tracks(config, q.w)
    && InTurn(config, q) && Called(config, q) && (calm ==> AllCalm(q)) && AllAttended(config, q, calm)
  }

  /** A step that is unblocked by the end of another one leaves nothing to do at that one's position. */
  lemma Unblocked(config: Config, w: World, w': World, id: Node, other: Node)
    requires OnePerResource(config.plan) && Tracks(config, w) && Tracks(config, w')
    requires Only(w, w', id) && id in w.steps && w.steps[id] != DONE && LowerDone(config, w, id)
    requires other in w.steps && !LowerDone(config, w, other) && LowerDone(config, w', other)
    ensures PositionDone(config, w', id)
    ensures forall y :: y in w.steps && y != id && w.steps[y] != DONE ==> !LowerDone(config, w, y)
  {
    var turn := StepOf(config, w, id);
    var after := StepOf(config, w, other);
    StillBlocked(config, w, w', id, turn, after);
    forall step, s | step in config.plan && s in config.plan && step.resourceId == id && s.position == step.position
      ensures w'.steps[s.resourceId] == DONE
    {
      SameStep(config.plan, step, turn);
      LowerStepsDone(config, w', after, s);
    }
    forall y | y in w.steps && y != id && w.steps[y] != DONE
      ensures !LowerDone(config, w, y)
    {
      var step := StepOf(config, w, y);
      if LowerDone(config, w, y) {
        if turn.position < step.position {
          LowerStepsDone(config, w, step, turn);
        } else {
          LowerStepsDone(config, w', after, step);
        }
      }
    }
  }

  /** What held the other step up was this one. */
  lemma StillBlocked(config: Config, w: World, w': World, id: Node, turn: Step, after: Step)
    requires OnePerResource(config.plan) && Tracks(config, w) && Tracks(config, w') && Only(w, w', id)
    requires turn in config.plan && turn.resourceId == id && after in config.plan
    requires !LowerDone(config, w, after.resourceId) && LowerDone(config, w', after.resourceId)
    ensures turn.position < after.position
  {
    var s :| s in config.plan && s.position < after.position && w.steps[s.resourceId] != DONE;
    LowerStepsDone(config, w', after, s);
    SameStep(config.plan, s, turn);
  }

  /** DONE steps stay done, so what could be reached still can. */
  lemma StaysReachable(config: Config, w: World, w': World, id: Node)
    requires Tracks(config, w) && Tracks(config, w') && LowerDone(config, w, id)
    requires forall s :: s in w.steps && w.steps[s] == DONE ==> s in w'.steps && w'.steps[s] == DONE
    ensures LowerDone(config, w', id)
  {
    var step :| step in config.plan && step.resourceId == id
      && forall other :: other in config.plan && other.position < step.position ==> w.steps[other.resourceId] == DONE;
    forall other | other in config.plan && other.position < step.position
      ensures w'.steps[other.resourceId] == DONE
    {
      assert Planned(config.plan, other.resourceId);
    }
  }

  /** A waiting step that could not be reached before can be now. */
  ghost predicate Frees(config: Config, w: World, w': World, id: Node, other: Node)
    requires Tracks(config, w) && Tracks(config, w') && other in w.steps
  {
    other != id && w.steps[other] == PENDING && !LowerDone(config, w, other) && LowerDone(config, w', other)
  }

  /** What handling a step leaves behind, for the step and for the others. */
  ghost predicate Treated(config: Config, q: Queue, q': Queue, id: Node, calm: bool) {
    && Tracks(config, q.w) && Tracks(config, q'.w) && Only(q.w, q'.w, id) && q'.begun == q.begun
    && Settles(q'.w.steps[id], q'.w.entities[id], id in q'.calls, id in q'.ours, calm, config.approvalFlow)
    && (calm ==> Calm(q'.w.entities[id], id in q'.ours))
    && forall other :: other != id ==> (other in q'.calls <==> other in q.calls) && (other in q'.ours <==> other in q.ours)
  }

  /** Handling one step settles it, and leaves the others as they were or unblocks them. */
  lemma HandledOne(config: Config, q: Queue, id: Node, calm: bool)
    requires Tracks(config, q.w) && id in q.w.steps && q.w.steps[id] != DONE
    requires calm ==> Calm(q.w.entities[id], id in q.ours)
    ensures Treated(config, q, Handled(config, q, id), id, calm)
    ensures id in q.calls ==> id in Handled(config, q, id).calls
  {
    VerdictIs(config, q.w, id);
    HandleSettles(q.w.steps[id], q.w.entities[id], Verdict(config, q.w, id), id in q.ours, calm, config.approvalFlow);
  }

  lemma StillInReach(config: Config, q: Queue, q': Queue, id: Node, calm: bool)
    requires Orderly(config, q, calm) && id in q.w.steps && q.w.steps[id] != DONE && LowerDone(config, q.w, id)
    requires Treated(config, q, q', id, calm)
    ensures Called(config, q')
  {
    forall other | other in q'.w.steps && (other in q'.calls || other in q'.ours)
      ensures LowerDone(config, q'.w, other)
    {
      StaysReachable(config, q.w, q'.w, other);
    }
  }

  lemma StillCalm(config: Config, q: Queue, q': Queue, id: Node)
    requires AllCalm(q) && Treated(config, q, q', id, true)
    ensures AllCalm(q')
  {
  }

  /** The order is kept once it is known that every unblocked step is taken up. */
  lemma KeepsOrder(config: Config, q: Queue, q': Queue, id: Node, calm: bool)
    requires Orderly(config, q, calm) && id in q.w.steps && q.w.steps[id] != DONE && LowerDone(config, q.w, id)
    requires Treated(config, q, q', id, calm) && InTurn(config, q')
    requires forall other :: other in q.left && other != id ==> other in q'.left
    requires forall other :: other in q.w.steps && Frees(config, q.w, q'.w, id, other) ==> other in q'.left
    ensures Orderly(config, q', calm)
  {
    StillInReach(config, q, q', id, calm);
    if calm {
      StillCalm(config, q, q', id);
    }
    forall other | other in q'.w.steps
      ensures AttendedAt(config, q', other, calm)
    {
      if other != id {
        assert AttendedAt(config, q, other, calm);
        OtherAttended(config, q, q', id, other, calm);
      }
    }
  }

  lemma OtherAttended(config: Config, q: Queue, q': Queue, id: Node, other: Node, calm: bool)
    requires Treated(config, q, q', id, calm) && other in q.w.steps && other != id && AttendedAt(config, q, other, calm)
    requires other in q.left ==> other in q'.left
    requires Frees(config, q.w, q'.w, id, other) ==> other in q'.left
    ensures other in q'.w.steps && AttendedAt(config, q', other, calm)
  {
  }

  lemma CurrentInTurn(config: Config, q: Queue)
    requires Tracks(config, q.w) && q.left == Current(config, q.w)
    ensures InTurn(config, q)
  {
  }

  lemma DeliverKeeps(config: Config, q: Queue, id: Node, calm: bool)
    requires Orderly(config, q, calm)
    ensures Orderly(config, Happen(config, q, Deliver(id)), calm)
  {
    if q.left == {} && id in q.calls && id in q.w.steps {
      if q.w.steps[id] == DONE {
        LateCallKeeps(config, q, id, calm);
      } else {
        CallKeeps(config, q, id, calm);
      }
    }
  }

  /** A message for a step that is done is dropped. */
  lemma LateCallKeeps(config: Config, q: Queue, id: Node, calm: bool)
    requires Orderly(config, q, calm) && id in q.calls && id in q.w.steps && q.w.steps[id] == DONE
    ensures Orderly(config, q.(calls := q.calls - multiset{id}), calm)
  {
    var q' := q.(calls := q.calls - multiset{id});
    forall other | other in q.w.steps
      ensures AttendedAt(config, q', other, calm)
    {
      assert AttendedAt(config, q, other, calm);
    }
  }

  lemma CallKeeps(config: Config, q: Queue, id: Node, calm: bool)
    requires Orderly(config, q, calm) && q.left == {} && id in q.calls && id in q.w.steps && q.w.steps[id] != DONE
    ensures Orderly(config, Happen(config, q, Deliver(id)), calm)
  {
    var q2 := Handled(config, q.(calls := q.calls - multiset{id}), id);
    CallTreats(config, q, id, calm);
    DeliverUnblocks(config, q, q2, id);
    CurrentInTurn(config, q2.(left := Current(config, q2.w)));
    KeepsOrder(config, q, Happen(config, q, Deliver(id)), id, calm);
  }

  lemma CallTreats(config: Config, q: Queue, id: Node, calm: bool)
    requires Orderly(config, q, calm) && q.left == {} && id in q.calls && id in q.w.steps && q.w.steps[id] != DONE
    ensures Treated(config, q, Happen(config, q, Deliver(id)), id, calm)
  {
    var q1 := q.(calls := q.calls - multiset{id});
    HandledOne(config, q1, id, calm);
    TreatedSince(config, q, q1, Handled(config, q1, id), Happen(config, q, Deliver(id)), id, calm);
  }

  lemma TreatedSince(config: Config, q: Queue, q1: Queue, q2: Queue, q': Queue, id: Node, calm: bool)
    requires Treated(config, q1, q2, id, calm)
    requires q1 == q.(calls := q.calls - multiset{id}) && q' == q2.(left := q'.left)
    ensures Treated(config, q, q', id, calm)
  {
  }

  /** Only the end of the step can unblock others; those are then current. */
  lemma DeliverUnblocks(config: Config, q: Queue, q2: Queue, id: Node)
    requires Tracks(config, q.w) && Tracks(config, q2.w) && Only(q.w, q2.w, id) && id in q.w.steps
    ensures forall other :: other in q.w.steps && Frees(config, q.w, q2.w, id, other) ==>
      q2.w.steps[id] == DONE && other in Current(config, q2.w)
  {
    forall other | other in q.w.steps && Frees(config, q.w, q2.w, id, other)
      ensures q2.w.steps[id] == DONE
    {
      if q2.w.steps[id] != DONE {
        ReachableBefore(config, q.w, q2.w, id, other);
      }
    }
  }

  /** A step can only be freed by one that is done. */
  lemma ReachableBefore(config: Config, w: World, w': World, id: Node, other: Node)
    requires Tracks(config, w) && Tracks(config, w') && Only(w, w', id)
    requires w'.steps[id] != DONE && LowerDone(config, w', other)
    ensures LowerDone(config, w, other)
  {
    StaysReachable(config, w', w, other);
  }

  lemma TurnKeeps(config: Config, q: Queue, id: Node, calm: bool)
    requires Orderly(config, q, calm)
    ensures Orderly(config, Happen(config, q, Turn(id)), calm)
  {
    if id in q.left && id in q.w.steps {
      var q2, q' := Handled(config, q, id), Happen(config, q, Turn(id));
      HandledOne(config, q, id, calm);
      assert q'.w == q2.w && q'.calls == q2.calls && q'.ours == q2.ours;
      TurnInTurn(config, q, q2, id, calm);
      forall other | other in q.w.steps && Frees(config, q.w, q2.w, id, other)
        ensures other in q'.left
      {
        DeliverUnblocks(config, q, q2, id);
        TurnUnblocks(config, q, q2, id, other, calm);
      }
      KeepsOrder(config, q, q', id, calm);
    }
  }

  lemma TurnInTurn(config: Config, q: Queue, q2: Queue, id: Node, calm: bool)
    requires Orderly(config, q, calm) && id in q.left && Treated(config, q, q2, id, calm) && q2.left == q.left
    ensures InTurn(config, AfterTurn(config, q2, id))
  {
    CurrentInTurn(config, q2.(left := Current(config, q2.w)));
    forall other | other in q.left && other != id
      ensures LowerDone(config, q2.w, other)
    {
      StaysReachable(config, q.w, q2.w, other);
    }
  }

  /** A step is unblocked only by the last one of a position, and is current then. */
  lemma TurnUnblocks(config: Config, q: Queue, q2: Queue, id: Node, other: Node, calm: bool)
    requires Orderly(config, q, calm) && id in q.left && Treated(config, q, q2, id, calm) && q2.left == q.left
    requires other in q.w.steps && Frees(config, q.w, q2.w, id, other) && other in Current(config, q2.w)
    ensures other in AfterTurn(config, q2, id).left
  {
    Unblocked(config, q.w, q2.w, id, other);
    assert q.left - {id} == {};
  }

  lemma BeginKeeps(config: Config, q: Queue, calm: bool)
    requires Orderly(config, q, calm)
    ensures Orderly(config, Happen(config, q, Begin), calm)
  {
    if q.left == {} {
      var q' := Happen(config, q, Begin);
      forall id | id in q.w.steps
        ensures AttendedAt(config, q', id, calm)
      {
        assert AttendedAt(config, q, id, calm);
      }
    }
  }

  /** What a worker does to a resource, whose step settles still. */
  lemma WorkOne(event: Event, step: Status, e: Entity, may: bool, sent: bool, ours: bool, calm: bool, approvalFlow: bool)
    requires event.WorkerStart? || event.WorkerDone? || event.WorkerFailed?
    ensures var e' := React(event, DONE, e, false, may, Failure(WrongState)).1;
            var reported := ours && Reports(e, e');
            && (Settles(step, e, sent, ours, calm, approvalFlow) ==>
                  Settles(step, e', sent || reported, ours && !reported, calm, approvalFlow))
            && (calm && Calm(e, ours) ==> Calm(e', ours && !reported))
  {
  }

  /** A worker's event, on its resource and on the messages. */
  lemma AtWorkIs(config: Config, q: Queue, event: Event)
    requires Tracks(config, q.w) && (event.WorkerStart? || event.WorkerDone? || event.WorkerFailed?)
    ensures var q', id := AtWork(config, q, event), event.id;
            && q'.w.steps == q.w.steps && q'.left == q.left && q'.begun == q.begun
            && (forall other :: other in q.w.entities && other != id ==> q'.w.entities[other] == q.w.entities[other])
            && (forall other :: other != id ==> (other in q'.calls <==> other in q.calls) && (other in q'.ours <==> other in q.ours))
            && (id in q.w.steps ==>
                  var e' := React(event, DONE, q.w.entities[id], false, WorkerMay(config.links, q.w.entities, id), Failure(WrongState)).1;
                  var reported := id in q.ours && Reports(q.w.entities[id], e');
                  && q'.w.entities[id] == e'
                  && (id in q'.calls <==> id in q.calls || reported) && (id in q'.ours <==> id in q.ours && !reported))
  {
    if event.id in q.w.entities {
      WorkerNext(config, q.w, event);
    }
  }

  lemma WorkKeeps(config: Config, q: Queue, event: Event, calm: bool)
    requires Orderly(config, q, calm) && (event.WorkerStart? || event.WorkerDone? || event.WorkerFailed?)
    ensures Orderly(config, AtWork(config, q, event), calm)
  {
    var q' := AtWork(config, q, event);
    AtWorkIs(config, q, event);
    SameReach(config, q.w, q'.w);
    forall id | id in q'.w.steps
      ensures AttendedAt(config, q', id, calm) && (calm ==> Calm(q'.w.entities[id], id in q'.ours))
    {
      assert AttendedAt(config, q, id, calm);
      StillAttended(config, q, event, id, calm);
    }
  }

  lemma SameReach(config: Config, w: World, w': World)
    requires Tracks(config, w) && Tracks(config, w') && w'.steps == w.steps
    ensures forall id :: LowerDone(config, w', id) <==> LowerDone(config, w, id)
  {
  }

  lemma StillAttended(config: Config, q: Queue, event: Event, id: Node, calm: bool)
    requires Tracks(config, q.w) && (event.WorkerStart? || event.WorkerDone? || event.WorkerFailed?)
    requires id in q.w.steps && AttendedAt(config, q, id, calm) && (calm ==> AllCalm(q))
    ensures var q' := AtWork(config, q, event);
            AttendedAt(config, q', id, calm) && (calm ==> Calm(q'.w.entities[id], id in q'.ours))
  {
    AtWorkIs(config, q, event);
    SameReach(config, q.w, AtWork(config, q, event).w);
    WorkOne(event, q.w.steps[id], q.w.entities[id], WorkerMay(config.links, q.w.entities, id), id in q.calls, id in q.ours,
            calm, config.approvalFlow);
  }

  /** Resources that nobody works on, and that are not shelved. */
  ghost predicate AllQuiet(w: World) {
    forall id :: id in w.steps && id in w.entities ==> w.entities[id].status in {APPROVAL_PENDING, READY, DONE, ERROR}
  }

  lemma {:induction false} RunOrderly(config: Config, w: World, happenings: seq<Happening>)
    requires Closed(config) && Unstarted(config, w)
    ensures Orderly(config, Run(config, w, happenings), AllQuiet(w))
  {
    if happenings != [] {
      RunOrderly(config, w, happenings[..|happenings| - 1]);
      HappenKeeps(config, Run(config, w, happenings[..|happenings| - 1]), happenings[|happenings| - 1], AllQuiet(w));
    }
  }

  lemma HappenKeeps(config: Config, q: Queue, h: Happening, calm: bool)
    requires Orderly(config, q, calm)
    ensures Orderly(config, Happen(config, q, h), calm)
  {
    match h {
      case Begin => BeginKeeps(config, q, calm);
      case Deliver(id) => DeliverKeeps(config, q, id, calm);
      case Turn(id) => TurnKeeps(config, q, id, calm);
      case Start(id) => WorkKeeps(config, q, WorkerStart(id), calm);
      case Finish(id) => WorkKeeps(config, q, WorkerDone(id), calm);
      case Fail(id) => WorkKeeps(config, q, WorkerFailed(id), calm);
    }
  }

  /** Every such run is one of the runs looked at before, with the callbacks that really come. */
  lemma {:induction false} RunIsRun(config: Config, w: World, happenings: seq<Happening>) returns (events: seq<Event>)
    requires Closed(config) && Unstarted(config, w)
    ensures Run(config, w, happenings).w == Execute(config, w, events)
  {
    if happenings == [] {
      events := [];
    } else {
      var q, h := Run(config, w, happenings[..|happenings| - 1]), happenings[|happenings| - 1];
      var earlier := RunIsRun(config, w, happenings[..|happenings| - 1]);
      RunOrderly(config, w, happenings[..|happenings| - 1]);
      HappeningIsEvent(config, q, h, AllQuiet(w));
      if Happen(config, q, h).w == q.w {
        events := earlier;
      } else {
        var event :| Happen(config, q, h).w == Next(config, q.w, event);
        events := earlier + [event];
        ExecuteSnoc(config, w, earlier, event);
      }
    }
  }

  /** The event behind a happening. */
  lemma HappeningIsEvent(config: Config, q: Queue, h: Happening, calm: bool)
    requires Orderly(config, q, calm)
    ensures Happen(config, q, h).w == q.w || exists event :: Happen(config, q, h).w == Next(config, q.w, event)
  {
    match h {
      case Begin =>
      case Deliver(id) =>
        if q.left == {} && id in q.calls && id in q.w.steps && q.w.steps[id] != DONE {
          CallIsEvent(config, q, id, calm);
        }
      case Turn(id) =>
        if id in q.left {
          TurnIsEvent(config, q, id, calm);
        }
      case Start(id) => WorkIsEvent(config, q, WorkerStart(id));
      case Finish(id) => WorkIsEvent(config, q, WorkerDone(id));
      case Fail(id) => WorkIsEvent(config, q, WorkerFailed(id));
    }
  }

  lemma WorkIsEvent(config: Config, q: Queue, event: Event)
    requires Tracks(config, q.w)
    ensures AtWork(config, q, event).w == Next(config, q.w, event)
  {
  }

  lemma CallIsEvent(config: Config, q: Queue, id: Node, calm: bool)
    requires Orderly(config, q, calm) && q.left == {} && id in q.calls && id in q.w.steps && q.w.steps[id] != DONE
    ensures Happen(config, q, Deliver(id)).w == Next(config, q.w, if q.w.steps[id] == PENDING then Launch(id) else Callback(id))
  {
  }

  lemma TurnIsEvent(config: Config, q: Queue, id: Node, calm: bool)
    requires Orderly(config, q, calm) && id in q.left
    ensures Happen(config, q, Turn(id)).w == Next(config, q.w, Launch(id))
  {
  }

  /**
   * A run that has come to rest is finished, or some step is in error, or the approval flow is off and some resource
   * was set to be destroyed without a message that would have it executed, or a step follows a resource that,
   * before the cascade started, somebody else worked on or nobody would.
   */
  lemma RestMeansFinished(config: Config, w: World, happenings: seq<Happening>)
    requires Closed(config) && Unstarted(config, w) && AtRest(Run(config, w, happenings))
    ensures var q := Run(config, w, happenings);
            || (forall id :: id in q.w.steps ==> q.w.steps[id] == DONE)
            || (exists id :: id in q.w.steps && q.w.steps[id] == ERROR)
            || (!config.approvalFlow && exists id :: id in q.w.steps && id in q.w.entities && Forgotten(q.w.steps[id], q.w.entities[id]))
            || (!AllQuiet(w) && exists id :: id in q.w.steps && id in q.w.entities
                                             && Stranded(q.w.steps[id], q.w.entities[id], id in q.ours))
  {
    var q := Run(config, w, happenings);
    RunOrderly(config, w, happenings);
    if id :| id in q.w.steps && q.w.steps[id] != DONE {
      var first := LowestUndone(config, q.w, id);
      assert AttendedAt(config, q, first, AllQuiet(w));
    }
  }

  /** Some step that is not done has only done ones below it. */
  lemma LowestUndone(config: Config, w: World, id: Node) returns (first: Node)
    requires Tracks(config, w) && AscendingPositions(config.plan) && id in w.steps && w.steps[id] != DONE
    ensures first in w.steps && w.steps[first] != DONE && LowerDone(config, w, first)
  {
    var step := StepOf(config, w, id);
    var last :| 0 <= last < |config.plan| && config.plan[last] == step;
    var k := 0;
    InPlan(config, w, k);
    while w.steps[config.plan[k].resourceId] == DONE
      invariant 0 <= k <= last && config.plan[k].resourceId in w.steps
      invariant forall i :: 0 <= i < k ==> config.plan[i].resourceId in w.steps && w.steps[config.plan[i].resourceId] == DONE
      decreases last - k
    {
      k := k + 1;
      InPlan(config, w, k);
    }
    first := config.plan[k].resourceId;
    assert config.plan[k] in config.plan;
    forall other | other in config.plan && other.position < config.plan[k].position
      ensures w.steps[other.resourceId] == DONE
    {
      var i :| 0 <= i < |config.plan| && config.plan[i] == other;
    }
  }

  /**
   * With the approval flow, from a world that cannot go wrong in which nobody works, a run that rests without an error
   * has destroyed everything.
   */
  lemma ApprovedRestIsDestroyed(config: Config, w: World, happenings: seq<Happening>)
    requires Closed(config) && Unstarted(config, w) && !CanGoWrong(config, w) && config.approvalFlow && AllQuiet(w)
    requires var q := Run(config, w, happenings); AtRest(q) && forall id :: id in q.w.steps ==> q.w.steps[id] != ERROR
    ensures AllGone(config, Run(config, w, happenings).w)
  {
    RestMeansFinished(config, w, happenings);
    var events := RunIsRun(config, w, happenings);
    var q := Run(config, w, happenings);
    assert !WronglyDone(Execute(config, w, events));
    forall step | step in config.plan && step.resourceId in q.w.entities
      ensures Gone(q.w.entities[step.resourceId])
    {
      assert Planned(config.plan, step.resourceId);
    }
  }

  /** How a step looks while nobody executes the workflow a second time and no approval is asked for. */
  predicate Stalled(step: Status, e: Entity) {
    (step == PENDING && Destroyable(e)) || Forgotten(step, e) || (step == ERROR && Destroyable(e))
  }

  ghost predicate AllStalled(config: Config, q: Queue) {
    && Tracks(config, q.w) && q.calls == multiset{}
    && (forall id :: id in q.w.steps ==> Stalled(q.w.steps[id], q.w.entities[id]))
    && (!q.begun ==> q.left == {} && forall id :: id in q.w.steps ==> q.w.steps[id] == PENDING)
    && (forall id :: id in q.left ==> id in q.w.steps && q.w.steps[id] == PENDING)
  }

  /**
   * Without the approval flow a single execution of the workflow destroys nothing: the resources at the first
   * position are set to be destroyed, and no message follows.
   */
  lemma {:induction false} UnapprovedStalls(config: Config, w: World, happenings: seq<Happening>)
    requires Closed(config) && Unstarted(config, w) && !config.approvalFlow
    requires forall id :: id in w.steps ==> Destroyable(w.entities[id])
    requires forall i, j :: 0 <= i < j < |happenings| ==> !(happenings[i].Begin? && happenings[j].Begin?)
    ensures var q := Run(config, w, happenings);
            AllStalled(config, q) && (q.begun ==> exists i :: 0 <= i < |happenings| && happenings[i].Begin?)
  {
    if happenings != [] {
      var n := |happenings| - 1;
      UnapprovedStalls(config, w, happenings[..n]);
      var q, h := Run(config, w, happenings[..n]), happenings[n];
      if q.begun {
        var i :| 0 <= i < n && happenings[..n][i].Begin?;
        assert happenings[i].Begin?;
      }
      StalledStep(config, q, h);
    }
  }

  lemma StalledStep(config: Config, q: Queue, h: Happening)
    requires AllStalled(config, q) && !config.approvalFlow && (h.Begin? ==> !q.begun)
    ensures AllStalled(config, Happen(config, q, h)) && (Happen(config, q, h).begun ==> q.begun || h.Begin?)
  {
    match h {
      case Begin =>
      case Deliver(id) =>
      case Turn(id) =>
        if id in q.left {
          StalledTurn(config, q, id);
        }
      case Start(id) => StalledWork(config, q, WorkerStart(id));
      case Finish(id) => StalledWork(config, q, WorkerDone(id));
      case Fail(id) => StalledWork(config, q, WorkerFailed(id));
    }
  }

  /** A waiting resource is set to be destroyed, or refused; no message is sent. */
  lemma StalledTurn(config: Config, q: Queue, id: Node)
    requires AllStalled(config, q) && !config.approvalFlow && id in q.left
    ensures AllStalled(config, Happen(config, q, Turn(id))) && Happen(config, q, Turn(id)).begun == q.begun
  {
    var q2 := Handled(config, q, id);
    StalledHandled(config, q, id);
    var step := StepOf(config, q.w, id);
    assert !PositionDone(config, q2.w, id);
  }

  lemma StalledHandled(config: Config, q: Queue, id: Node)
    requires AllStalled(config, q) && !config.approvalFlow && id in q.left
    ensures var q2 := Handled(config, q, id);
            q2.calls == q.calls && Only(q.w, q2.w, id) && Stalled(q2.w.steps[id], q2.w.entities[id]) && q2.w.steps[id] != DONE
  {
  }

  /** Nobody works on what is planned. */
  lemma StalledWork(config: Config, q: Queue, event: Event)
    requires AllStalled(config, q) && (event.WorkerStart? || event.WorkerDone? || event.WorkerFailed?)
    ensures AllStalled(config, AtWork(config, q, event)) && AtWork(config, q, event).begun == q.begun
  {
    AtWorkIs(config, q, event);
    assert event.id in q.w.steps ==> !Busy(q.w.entities[event.id]);
  }

  /** One resource with staged edits: executing the workflow twice marks its step done and leaves the resource as it was. */
  lemma StagedEditsMarkedDone(id: Node, template: Node, edits: Edits, approvalFlow: bool)
    requires edits != NoEdits
    ensures var config := Config({}, [Step(id, template, 0)], approvalFlow);
            var e := Entity(PROVISIONED, DONE, false, true, edits);
            var w := World(map[id := e], map[id := PENDING]);
            && Tracks(config, w)
            && Run(config, w, [Begin] + [Turn(id)] + [Begin] + [Turn(id)]).w == World(map[id := e], map[id := DONE])
  {
    var config := Config({}, [Step(id, template, 0)], approvalFlow);
    var e := Entity(PROVISIONED, DONE, false, true, edits);
    var w := World(map[id := e], map[id := PENDING]);
    assert config.plan[0] in config.plan && Planned(config.plan, id);
    var marked := World(map[id := e], map[id := DONE]);
    ExecuteAlone(config, Queue(w, multiset{}, {}, {}, false), id, template, InError(w, id));
    ExecuteAlone(config, Queue(InError(w, id), multiset{}, {}, {}, true), id, template, marked);
    RunTwice(config, w, Begin, Turn(id));
  }

  /** One execution of the workflow. */
  lemma ExecuteAlone(config: Config, q: Queue, id: Node, template: Node, w': World)
    requires Tracks(config, q.w) && config.plan == [Step(id, template, 0)] && q.left == {}
    requires q.w.entities.Keys == {id} && q.w.steps.Keys == {id} && q.w.steps[id] in {PENDING, ERROR}
    requires var e := q.w.entities[id]; e.state == PROVISIONED && e.status == DONE && e.edits != NoEdits
    requires w' == q.w.(steps := q.w.steps[id := if q.w.steps[id] == PENDING then ERROR else DONE])
    ensures Happen(config, Happen(config, q, Begin), Turn(id)) == q.(w := w', begun := true)
  {
    BeginAlone(config, q, id, template);
    TurnAlone(config, q.(begun := true, left := {id}), id, template);
  }

  lemma RunTwice(config: Config, w: World, a: Happening, b: Happening)
    requires Tracks(config, w)
    ensures var q0 := Queue(w, multiset{}, {}, {}, false);
            Run(config, w, [a] + [b] + [a] + [b]) == Happen(config, Happen(config, Happen(config, Happen(config, q0, a), b), a), b)
  {
    RunFirst(config, w, a);
    RunSnoc(config, w, [a], b);
    RunTwo(config, w, [a] + [b], a, b);
  }

  lemma RunFirst(config: Config, w: World, a: Happening)
    requires Tracks(config, w)
    ensures Run(config, w, [a]) == Happen(config, Queue(w, multiset{}, {}, {}, false), a)
  {
    RunSnoc(config, w, [], a);
    assert [] + [a] == [a];
  }

  lemma RunTwo(config: Config, w: World, happenings: seq<Happening>, a: Happening, b: Happening)
    requires Tracks(config, w)
    ensures Run(config, w, happenings + [a] + [b]) == Happen(config, Happen(config, Run(config, w, happenings), a), b)
  {
    RunSnoc(config, w, happenings, a);
    RunSnoc(config, w, happenings + [a], b);
  }

  lemma RunSnoc(config: Config, w: World, happenings: seq<Happening>, h: Happening)
    requires Tracks(config, w)
    ensures Run(config, w, happenings + [h]) == Happen(config, Run(config, w, happenings), h)
  {
    assert (happenings + [h])[..|happenings|] == happenings;
  }

  lemma BeginAlone(config: Config, q: Queue, id: Node, template: Node)
    requires Tracks(config, q.w) && config.plan == [Step(id, template, 0)] && q.left == {}
    requires q.w.steps.Keys == {id} && q.w.steps[id] in {PENDING, ERROR}
    ensures Happen(config, q, Begin) == q.(begun := true, left := {id})
  {
    assert config.plan[0] in config.plan && LowerDone(config, q.w, id);
    assert Current(config, q.w) == {id};
  }

  /** The step is refused first, and then copies the status done. */
  lemma TurnAlone(config: Config, q: Queue, id: Node, template: Node)
    requires Tracks(config, q.w) && config.plan == [Step(id, template, 0)] && q.left == {id}
    requires q.w.entities.Keys == {id} && q.w.steps.Keys == {id} && q.w.steps[id] in {PENDING, ERROR}
    requires var e := q.w.entities[id]; e.state == PROVISIONED && e.status == DONE && e.edits != NoEdits
    ensures Happen(config, q, Turn(id))
         == q.(w := q.w.(steps := q.w.steps[id := if q.w.steps[id] == PENDING then ERROR else DONE]), left := {})
  {
    var q' := Happen(config, q, Turn(id));
    assert q.left - {id} == {};
    assert q'.w.entities == q.w.entities && q'.w.steps == q.w.steps[id := if q.w.steps[id] == PENDING then ERROR else DONE];
    assert Current(config, q'.w) == {} || q.w.steps[id] == PENDING;
    assert config.plan[0] in config.plan;
  }

  /**
   * One resource that somebody else is having destroyed when the cascade starts: the step takes over the status in
   * progress, the worker does not report to the workflow task, and executing the workflow again does nothing.
   */
  lemma WorkedElsewhereStrands(id: Node, template: Node, isAbstract: bool, approvalFlow: bool, again: nat)
    ensures var config := Config({}, [Step(id, template, 0)], approvalFlow);
            var e := Entity(DESTROY, IN_PROGRESS, isAbstract, true, NoEdits);
            var w := World(map[id := e], map[id := PENDING]);
            var q := Run(config, w, [Begin] + [Turn(id)] + [Finish(id)] + seq(again, _ => Begin));
            && Tracks(config, w)
            && AtRest(q) && q.w == World(map[id := e.(state := DESTROYED, status := DONE)], map[id := IN_PROGRESS])
  {
    var config := Config({}, [Step(id, template, 0)], approvalFlow);
    var e := Entity(DESTROY, IN_PROGRESS, isAbstract, true, NoEdits);
    var w := World(map[id := e], map[id := PENDING]);
    assert config.plan[0] in config.plan && Planned(config.plan, id);
    var end := Queue(World(map[id := e.(state := DESTROYED, status := DONE)], map[id := IN_PROGRESS]), multiset{}, {}, {}, true);
    FollowElsewhere(config, Queue(w, multiset{}, {}, {}, false), id, template, end);
    RunThrice(config, w, Begin, Turn(id), Finish(id));
    BeginInVain(config, w, [Begin] + [Turn(id)] + [Finish(id)], again, id);
  }

  lemma FollowElsewhere(config: Config, q: Queue, id: Node, template: Node, q': Queue)
    requires Tracks(config, q.w) && config.plan == [Step(id, template, 0)] && q.left == {} && q.ours == {} && q.calls == multiset{}
    requires q.w.entities.Keys == {id} && q.w.steps == map[id := PENDING]
    requires var e := q.w.entities[id]; e.state == DESTROY && e.status == IN_PROGRESS && e.versioned
    requires q' == Queue(World(map[id := q.w.entities[id].(state := DESTROYED, status := DONE)], map[id := IN_PROGRESS]),
                         multiset{}, {}, {}, true)
    ensures Happen(config, Happen(config, Happen(config, q, Begin), Turn(id)), Finish(id)) == q'
  {
    BeginAlone(config, q, id, template);
    var q1 := q.(begun := true, left := {id});
    var q2 := q1.(w := q.w.(steps := map[id := IN_PROGRESS]), left := {});
    TurnElsewhere(config, q1, id, template, q2);
    FinishElsewhere(config, q2, id, q');
  }

  lemma FinishElsewhere(config: Config, q: Queue, id: Node, q': Queue)
    requires Tracks(config, q.w) && q.ours == {} && q.w.entities.Keys == {id}
    requires var e := q.w.entities[id]; e.state == DESTROY && e.status == IN_PROGRESS && e.versioned
    requires q' == q.(w := q.w.(entities := map[id := q.w.entities[id].(state := DESTROYED, status := DONE)]))
    ensures Happen(config, q, Finish(id)) == q'
  {
    DoneElsewhere(config, q.w, id);
  }

  lemma DoneElsewhere(config: Config, w: World, id: Node)
    requires Tracks(config, w) && w.entities.Keys == {id}
    requires var e := w.entities[id]; e.state == DESTROY && e.status == IN_PROGRESS && e.versioned
    ensures Next(config, w, WorkerDone(id)) == w.(entities := map[id := w.entities[id].(state := DESTROYED, status := DONE)])
  {
    WorkerNext(config, w, WorkerDone(id));
  }

  lemma TurnElsewhere(config: Config, q: Queue, id: Node, template: Node, q': Queue)
    requires Tracks(config, q.w) && config.plan == [Step(id, template, 0)] && q.left == {id}
    requires q.w.entities.Keys == {id} && q.w.steps == map[id := PENDING]
    requires var e := q.w.entities[id]; e.state == DESTROY && e.status == IN_PROGRESS
    requires q' == q.(w := q.w.(steps := map[id := IN_PROGRESS]), left := {})
    ensures Happen(config, q, Turn(id)) == q'
  {
    assert q.left - {id} == {};
    assert config.plan[0] in config.plan;
    assert Handled(config, q, id).w == q'.w;
  }

  lemma RunThrice(config: Config, w: World, a: Happening, b: Happening, c: Happening)
    requires Tracks(config, w)
    ensures Run(config, w, [a] + [b] + [c]) == Happen(config, Happen(config, Happen(config, Queue(w, multiset{}, {}, {}, false), a), b), c)
  {
    RunFirst(config, w, a);
    RunTwo(config, w, [a], b, c);
  }

  /** Steps in progress are not launched again. */
  lemma {:induction false} BeginInVain(config: Config, w: World, happenings: seq<Happening>, again: nat, id: Node)
    requires Tracks(config, w)
    requires var q := Run(config, w, happenings); q.left == {} && q.begun && q.w.steps == map[id := IN_PROGRESS]
    ensures Run(config, w, happenings + seq(again, _ => Begin)) == Run(config, w, happenings)
  {
    if again == 0 {
      assert happenings + seq(again, _ => Begin) == happenings;
    } else {
      BeginInVain(config, w, happenings, again - 1, id);
      RunSnoc(config, w, happenings + seq(again - 1, _ => Begin), Begin);
      OneMoreBegin(happenings, again);
      NothingCurrent(config, Run(config, w, happenings), id);
    }
  }

  lemma OneMoreBegin(happenings: seq<Happening>, again: nat)
    requires again > 0
    ensures happenings + seq(again, _ => Begin) == happenings + seq(again - 1, _ => Begin) + [Begin]
  {
  }

  lemma NothingCurrent(config: Config, q: Queue, id: Node)
    requires Tracks(config, q.w) && q.left == {} && q.begun && q.w.steps == map[id := IN_PROGRESS]
    ensures Happen(config, q, Begin) == q
  {
    assert Current(config, q.w) == {};
  }
}
