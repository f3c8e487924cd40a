/**
 * What a cascade destroy can come to: everything destroyed, or a step marked done although its
 * resource stands. Each is possible exactly when a schedule of big steps leads up to it.
 */
module DestroyOutcomes {
  import opened Common
  import opened Graphs
  import opened EntityState
  import opened CascadeDestroy
  import opened DestroyRunner
  import opened DestroySchedule

  ghost predicate Unstarted(config: Config, w: World) {
    Tracks(config, w) && forall id :: id in w.steps ==> w.steps[id] == PENDING
  }

  ghost predicate WronglyDone(w: World) {
    exists id :: id in w.steps && id in w.entities && w.steps[id] == DONE && !Gone(w.entities[id])
  }

  /** The turn of a step comes, and the destroy action refuses its resource, or is passed over. */
  ghost predicate Refused(config: Config, w: World, id: Node)
    requires Tracks(config, w)
  {
    && id in w.steps && w.steps[id] == PENDING && LowerDone(config, w, id)
    && var e := w.entities[id];
       || (e.state == DESTROY && e.status == DONE)
       || (Standing(e) && ActionDestroy(config.links, w.entities, id, config.approvalFlow).Failure?)
  }

  /** A worker can bring the resource to the status done. */
  predicate Proceeds(e: Entity, parentsReady: bool) {
    Standing(e) && e.versioned && (e.status == IN_PROGRESS || (parentsReady && e.status in {READY, ERROR, QUEUED}))
  }

  /** A refused resource reaches the status done all the same, and its step with it. */
  predicate GoesOn(e: Entity, parentsReady: bool) {
    || (e.status == DONE && e.state != DESTROYED)
    || Proceeds(e, parentsReady)
    || (Standing(e) && e.status == APPROVAL_PENDING && ActionApprove(e).Success?
        && (ActionApprove(e).value.status == DONE || Proceeds(ActionApprove(e).value, parentsReady)))
  }

  ghost predicate Spares(moves: seq<Move>, id: Node) {
    forall i :: 0 <= i < |moves| ==> moves[i].id != id
  }

  /** First some moves lead to a refusal; then, without touching the resource, others to where it goes on. */
  ghost predicate LeadsAstray(config: Config, w: World, before: seq<Move>, after: seq<Move>, id: Node)
    requires Tracks(config, w)
  {
    && Schedule(config, w, before) && Refused(config, After(config, w, before), id)
    && Spares(after, id) && Schedule(config, After(config, w, before), after)
    && var c := After(config, After(config, w, before), after);
       GoesOn(c.entities[id], ParentsReady(config.links, c.entities, id))
  }

  ghost predicate Endangered(config: Config, w: World)
    requires Tracks(config, w)
  {
    exists before, after, id :: LeadsAstray(config, w, before, after, id)
  }

  /** The world in which the step of id is in error, and everything else is as it was. */
  ghost function InError(w: World, id: Node): World {
    w.(steps := w.steps[id := ERROR])
  }

  lemma InErrorTracks(config: Config, w: World, id: Node)
    requires Tracks(config, w) && id in w.steps
    ensures Tracks(config, InError(w, id))
  {
  }

  /** A step in error hinders no other. */
  lemma PossibleInError(config: Config, w: World, id: Node, move: Move)
    requires Tracks(config, w) && id in w.steps && w.steps[id] != DONE && move.id != id && Possible(config, w, move)
    ensures Tracks(config, InError(w, id)) && Possible(config, InError(w, id), move)
    ensures Make(config, InError(w, id), move) == InError(Make(config, w, move), id)
  {
    InErrorTracks(config, w, id);
    if move.Clear? {
      AheadInError(w, id);
      AheadAllows(config, w, InError(w, id), move.id);
    }
  }

  lemma AheadInError(w: World, id: Node)
    requires id in w.steps && w.steps[id] != DONE
    ensures Ahead(w, InError(w, id))
  {
  }

  lemma {:induction false} ScheduleInError(config: Config, w: World, id: Node, moves: seq<Move>)
    requires Tracks(config, w) && id in w.steps && w.steps[id] != DONE && Spares(moves, id) && Schedule(config, w, moves)
    ensures Tracks(config, InError(w, id)) && Schedule(config, InError(w, id), moves)
    ensures After(config, InError(w, id), moves) == InError(After(config, w, moves), id)
    ensures id in After(config, w, moves).steps && After(config, w, moves).steps[id] == w.steps[id]
    ensures id in w.entities && After(config, w, moves).entities[id] == w.entities[id]
  {
    InErrorTracks(config, w, id);
    if moves != [] {
      var n := |moves| - 1;
      assert moves[n].id != id;
      ScheduleInError(config, w, id, moves[..n]);
      PossibleInError(config, After(config, w, moves[..n]), id, moves[n]);
    }
  }

  /** How far k events of a drive have brought a refused resource that goes on. */
  predicate Astray(k: nat, step: Status, e: Entity, parentsReady: bool) {
    if k == 1 then step == ERROR && GoesOn(e, parentsReady)
    else if step == DONE then e.status == DONE && e.state != DESTROYED
    else
      && step != PENDING
      && match k
         case 2 => Proceeds(e, parentsReady) && e.status in {READY, QUEUED, IN_PROGRESS}
         case 3 => Proceeds(e, parentsReady) && e.status in {QUEUED, IN_PROGRESS}
         case 4 => Standing(e) && e.versioned && e.status == IN_PROGRESS
         case 5 => Standing(e) && e.status == DONE
         case _ => false
  }

  lemma AstrayAdvances(k: nat, id: Node, step: Status, e: Entity, parentsReady: bool, ready: bool, may: bool,
                       destroy: Result<Entity, StateError>)
    requires 1 <= k < 6 && Astray(k, step, e, parentsReady)
    requires k == 3 && Standing(e) && parentsReady ==> may
    ensures var (step', e') := React(Drive(id)[k], step, e, ready, may, destroy);
            Astray(k + 1, step', e', parentsReady) && (ParentReady(e) ==> ParentReady(e'))
  {
  }

  /** The parents stay ready while id itself changes. */
  lemma ParentsStayReady(config: Config, w: World, w': World, id: Node)
    requires Tracks(config, w) && Tracks(config, w') && Only(w, w', id) && ParentsReady(config.links, w.entities, id)
    requires ParentReady(w.entities[id]) ==> ParentReady(w'.entities[id])
    ensures ParentsReady(config.links, w'.entities, id)
  {
  }

  ghost predicate AstrayAt(config: Config, w: World, id: Node, k: nat, parentsReady: bool) {
    && Tracks(config, w) && id in w.steps
    && (parentsReady ==> ParentsReady(config.links, w.entities, id))
    && Astray(k, w.steps[id], w.entities[id], parentsReady)
  }

  lemma AstrayNext(config: Config, w: World, id: Node, k: nat, parentsReady: bool)
    requires 1 <= k < 6 && AstrayAt(config, w, id, k, parentsReady)
    ensures AstrayAt(config, Next(config, w, Drive(id)[k]), id, k + 1, parentsReady)
  {
    var w' := Next(config, w, Drive(id)[k]);
    NextOnly(config, w, Drive(id)[k]);
    NextReacts(config, w, Drive(id)[k], id);
    AstrayAdvances(k, id, w.steps[id], w.entities[id], parentsReady, LowerDone(config, w, id),
                   WorkerMay(config.links, w.entities, id), ActionDestroy(config.links, w.entities, id, config.approvalFlow));
    if parentsReady {
      ParentsStayReady(config, w, w', id);
    }
  }

  lemma DriveFurther(config: Config, w: World, id: Node, k: nat)
    requires Tracks(config, w) && 1 <= k < 6
    ensures Execute(config, w, Drive(id)[1..k + 1]) == Next(config, Execute(config, w, Drive(id)[1..k]), Drive(id)[k])
  {
    assert Drive(id)[1..k + 1] == Drive(id)[1..k] + [Drive(id)[k]];
    ExecuteSnoc(config, w, Drive(id)[1..k], Drive(id)[k]);
  }

  lemma {:induction false} DrivenAstray(config: Config, w: World, id: Node, k: nat, parentsReady: bool)
    requires 1 <= k <= 6 && AstrayAt(config, w, id, 1, parentsReady)
    ensures AstrayAt(config, Execute(config, w, Drive(id)[1..k]), id, k, parentsReady)
  {
    if k == 1 {
      assert Drive(id)[1..1] == [];
    } else {
      DrivenAstray(config, w, id, k - 1, parentsReady);
      AstrayNext(config, Execute(config, w, Drive(id)[1..k - 1]), id, k - 1, parentsReady);
      DriveFurther(config, w, id, k - 1);
    }
  }

  /** A refused step is in error, or done at once. */
  lemma LaunchRefused(config: Config, w: World, id: Node)
    requires Tracks(config, w) && Refused(config, w, id)
    ensures Standing(w.entities[id]) ==> Next(config, w, Launch(id)) == InError(w, id)
    ensures !Standing(w.entities[id]) ==> WronglyDone(Next(config, w, Launch(id)))
  {
    var w' := Next(config, w, Launch(id));
    NextReacts(config, w, Launch(id), id);
    NextOnly(config, w, Launch(id));
    assert w.entities == w.entities[id := w.entities[id]];
  }

  lemma GoneAstray(config: Config, c: World, id: Node) returns (events: seq<Event>)
    requires Tracks(config, c) && id in c.steps && c.steps[id] != DONE
    requires GoesOn(c.entities[id], ParentsReady(config.links, c.entities, id))
    ensures Tracks(config, InError(c, id)) && WronglyDone(Execute(config, InError(c, id), events))
  {
    InErrorTracks(config, c, id);
    events := Drive(id)[1..6];
    DrivenAstray(config, InError(c, id), id, 6, ParentsReady(config.links, c.entities, id));
    assert id in Execute(config, InError(c, id), events).steps;
  }

  /** From an endangered world some run marks a step done whose resource stands. */
  lemma SometimesWronglyDone(config: Config, w: World) returns (events: seq<Event>)
    requires Tracks(config, w) && Endangered(config, w)
    ensures WronglyDone(Execute(config, w, events))
  {
    var before, after, id :| LeadsAstray(config, w, before, after, id);
    var c1 := After(config, w, before);
    var first := RealizeSchedule(config, w, before);
    LaunchRefused(config, c1, id);
    events := first + [Launch(id)];
    ExecuteSnoc(config, w, first, Launch(id));
    if Standing(c1.entities[id]) {
      var c2 := After(config, c1, after);
      ScheduleInError(config, c1, id, after);
      var second := RealizeSchedule(config, InError(c1, id), after);
      var third := GoneAstray(config, c2, id);
      ExecuteConcat(config, InError(c1, id), second, third);
      ExecuteConcat(config, w, events, second + third);
      events := events + (second + third);
    }
  }

  /** What a resource is allowed in the world a schedule has led to, and whether its step has been refused. */
  datatype Guards = Guards(lowerDone: bool, childrenGone: bool, childrenPassed: bool, parentsReady: bool, refused: bool)

  predicate Below(g: Guards, g': Guards) {
    && (g.lowerDone ==> g'.lowerDone) && (g.childrenGone ==> g'.childrenGone) && (g.childrenPassed ==> g'.childrenPassed)
    && (g.parentsReady ==> g'.parentsReady) && (g.refused ==> g'.refused)
  }

  predicate May(e: Entity, g: Guards) {
    match e.state
    case PROVISION => g.parentsReady
    case PROVISIONED => g.parentsReady
    case DESTROY => g.childrenPassed
    case DESTROYED => false
  }

  /** A run has brought a resource this far while the schedule still has it at x: its worker is on it, or has failed. */
  predicate Lags(x: Entity, e: Entity, g: Guards) {
    || e == x
    || (x.status in {QUEUED, IN_PROGRESS} && x.state != DESTROYED && e == x.(status := ERROR))
    || (x.status == QUEUED && May(x, g) && e == x.(status := IN_PROGRESS))
  }

  predicate Working(status: Status) {
    status in {READY, QUEUED, IN_PROGRESS, ERROR}
  }

  /** It is being destroyed. */
  predicate Right(x: Entity, e: Entity, g: Guards, approvalFlow: bool) {
    || (Accepts(x) && g.childrenGone && Underway(x, e) && (Working(e.status) || (e.status == APPROVAL_PENDING && approvalFlow)))
    || (x.state == DESTROY && (Working(x.status) || x.status == APPROVAL_PENDING) && Underway(x, e)
        && (Working(e.status) || (e.status == APPROVAL_PENDING && x.status == APPROVAL_PENDING))
        && (e.status == IN_PROGRESS ==> x.status == IN_PROGRESS || g.childrenPassed))
    || (x.state == DESTROYED && x.status == IN_PROGRESS && e == x)
  }

  /** Its worker, if it has one, may go on. */
  predicate Toiling(x: Entity, e: Entity, g: Guards) {
    e == x.(status := e.status) && Working(e.status) && (e.status == IN_PROGRESS ==> x.status == IN_PROGRESS || g.parentsReady)
  }

  /** It was refused, and has not reached the status done so far. */
  predicate Aside(x: Entity, e: Entity, g: Guards) {
    && Standing(x) && x.status != DONE
    && (|| (Working(x.status) && Toiling(x, e, g))
        || (!Working(x.status) && e == x)
        || (x.status == APPROVAL_PENDING && ActionApprove(x).Success? && ActionApprove(x).value.status != DONE
            && (e == ActionApprove(x).value || (Working(ActionApprove(x).value.status) && Toiling(ActionApprove(x).value, e, g)))))
  }

  /** Nothing will ever come of it. */
  predicate Dead(x: Entity, e: Entity) {
    || (x.state == DESTROY && !Working(x.status) && x.status != APPROVAL_PENDING && x.status != DONE && e == x)
    || (x.state == DESTROYED && x.status != DONE && x.status != IN_PROGRESS
        && (e == x || (x.status == READY && e == x.(status := QUEUED))))
  }

  /** How a run and a schedule agree on one resource; planned if it has a step. */
  predicate Follows(planned: bool, x: Entity, cleared: bool, g: Guards, step: Status, e: Entity, approvalFlow: bool) {
    if !planned || step == PENDING then Lags(x, e, g) && !cleared
    else if Gone(e) then cleared && Gone(x)
    else
      && step != DONE && !cleared && g.lowerDone
      && (Right(x, e, g, approvalFlow) || (g.refused && Aside(x, e, g)) || Dead(x, e))
  }

  lemma FollowsMore(planned: bool, x: Entity, cleared: bool, g: Guards, g': Guards, step: Status, e: Entity, approvalFlow: bool)
    requires Follows(planned, x, cleared, g, step, e, approvalFlow) && Below(g, g')
    ensures Follows(planned, x, cleared, g', step, e, approvalFlow)
  {
  }

  /** What the run allows to others, the schedule allows; and both agree on what is gone. */
  lemma FollowsBounds(planned: bool, x: Entity, cleared: bool, g: Guards, step: Status, e: Entity, approvalFlow: bool)
    requires Follows(planned, x, cleared, g, step, e, approvalFlow)
    ensures Grows(e, x) && (Gone(x) ==> Gone(e)) && (planned && step == DONE ==> cleared)
  {
  }

  /** The turn of the step has come with the resource at x, and it is refused. */
  predicate RefusedNow(x: Entity, g: Guards, approvalFlow: bool) {
    g.lowerDone && ((x.state == DESTROY && x.status == DONE) || (Standing(x) && Answer(x, g.childrenGone, approvalFlow).Failure?))
  }

  /** The moves that keep up with an event: none, a worker's, a step's, or both. */
  datatype Keeping = Still | WorkOnly | ClearOnly | WorkAndClear | LostNow

  predicate CanWork(x: Entity, g: Guards) {
    x.versioned && (x.status == IN_PROGRESS || (x.status == QUEUED && May(x, g)))
  }

  predicate CanClear(x: Entity, g: Guards, approvalFlow: bool) {
    g.lowerDone && Clearable(x, g.childrenGone, g.childrenPassed, approvalFlow)
  }

  /** Which of them do, after the event has led to step and e. */
  predicate Keeps(planned: bool, x: Entity, cleared: bool, g: Guards, step: Status, e: Entity, approvalFlow: bool, k: Keeping) {
    match k
    case Still => Follows(planned, x, cleared, g, step, e, approvalFlow)
    case WorkOnly => CanWork(x, g) && !cleared && (!planned || step == PENDING) && e == Worked(x)
    case ClearOnly => planned && !cleared && CanClear(x, g, approvalFlow) && Gone(e) && step != PENDING
    case WorkAndClear => planned && !cleared && g.lowerDone && CanWork(x, g) && Gone(Worked(x)) && Gone(e) && step != PENDING
    case LostNow => planned && !cleared && g.refused && GoesOn(x, g.parentsReady) && step != PENDING && e.status == DONE && e.state != DESTROYED
  }

  predicate Kept(planned: bool, x: Entity, cleared: bool, g: Guards, step: Status, e: Entity, approvalFlow: bool) {
    exists k :: Keeps(planned, x, cleared, g, step, e, approvalFlow, k)
  }

  /** The refusal is remembered. */
  function Told(x: Entity, g: Guards, approvalFlow: bool): Guards {
    g.(refused := g.refused || RefusedNow(x, g, approvalFlow))
  }

  lemma LaunchKeeps(x: Entity, g: Guards, e: Entity, approvalFlow: bool)
    requires Follows(true, x, false, g, PENDING, e, approvalFlow) && g.lowerDone
    ensures var (step', e') := Handle(PENDING, e, Answer(e, g.childrenGone, approvalFlow));
            Kept(true, x, false, Told(x, g, approvalFlow), step', e', approvalFlow)
  {
    if Standing(e) {
      LaunchStanding(x, g, e, approvalFlow);
    } else {
      LaunchFallen(x, g, e, approvalFlow);
    }
  }

  /** A standing resource is accepted or refused. */
  lemma LaunchStanding(x: Entity, g: Guards, e: Entity, approvalFlow: bool)
    requires Lags(x, e, g) && g.lowerDone && Standing(e)
    ensures var (step', e') := Handle(PENDING, e, Answer(e, g.childrenGone, approvalFlow));
            Kept(true, x, false, Told(x, g, approvalFlow), step', e', approvalFlow)
  {
    var answer := Answer(e, g.childrenGone, approvalFlow);
    var g' := Told(x, g, approvalFlow);
    if answer.Success? {
      assert Right(x, answer.value, g', approvalFlow);
      assert Keeps(true, x, false, g', answer.value.status, answer.value, approvalFlow, Still);
    } else {
      assert g'.refused;
      if e.status == DONE {
        assert Keeps(true, x, false, g', ERROR, e, approvalFlow, LostNow);
      } else {
        assert Aside(x, e, g');
        assert Keeps(true, x, false, g', ERROR, e, approvalFlow, Still);
      }
    }
  }

  /** One that is being destroyed, or is destroyed, is taken as it is. */
  lemma LaunchFallen(x: Entity, g: Guards, e: Entity, approvalFlow: bool)
    requires Lags(x, e, g) && g.lowerDone && !Standing(e)
    ensures var (step', e') := Handle(PENDING, e, Answer(e, g.childrenGone, approvalFlow));
            Kept(true, x, false, Told(x, g, approvalFlow), step', e', approvalFlow)
  {
    var (step', e') := Handle(PENDING, e, Answer(e, g.childrenGone, approvalFlow));
    var g' := Told(x, g, approvalFlow);
    if Gone(e) {
      assert Keeps(true, x, false, g', step', e', approvalFlow, ClearOnly);
    } else if e.state == DESTROY && e.status == DONE {
      assert Keeps(true, x, false, g', step', e', approvalFlow, LostNow);
    } else {
      assert Keeps(true, x, false, g', step', e', approvalFlow, Still);
    }
  }

  lemma HandleKeeps(x: Entity, cleared: bool, g: Guards, step: Status, e: Entity, destroy: Result<Entity, StateError>, approvalFlow: bool)
    requires Follows(true, x, cleared, g, step, e, approvalFlow) && step != PENDING && step != DONE
    ensures var (step', e') := Handle(step, e, destroy); Kept(true, x, cleared, g, step', e', approvalFlow)
  {
    if Gone(e) {
      assert Keeps(true, x, cleared, g, DONE, e, approvalFlow, Still);
    } else if Right(x, e, g, approvalFlow) {
      HandleRight(x, g, step, e, destroy, approvalFlow);
    } else if Dead(x, e) {
      HandleDead(x, g, step, e, destroy, approvalFlow);
    } else {
      HandleAside(x, g, step, e, destroy, approvalFlow);
    }
  }

  lemma HandleRight(x: Entity, g: Guards, step: Status, e: Entity, destroy: Result<Entity, StateError>, approvalFlow: bool)
    requires Right(x, e, g, approvalFlow) && g.lowerDone && step != PENDING && step != DONE && !Gone(e)
    ensures var (step', e') := Handle(step, e, destroy); Kept(true, x, false, g, step', e', approvalFlow)
  {
    var (step', e') := Handle(step, e, destroy);
    if e.status == APPROVAL_PENDING && e.isAbstract {
      assert Keeps(true, x, false, g, step', e', approvalFlow, ClearOnly);
    } else {
      assert Right(x, e', g, approvalFlow);
      assert Keeps(true, x, false, g, step', e', approvalFlow, Still);
    }
  }

  lemma HandleDead(x: Entity, g: Guards, step: Status, e: Entity, destroy: Result<Entity, StateError>, approvalFlow: bool)
    requires Dead(x, e) && g.lowerDone && step != PENDING && step != DONE
    ensures var (step', e') := Handle(step, e, destroy); Kept(true, x, false, g, step', e', approvalFlow)
  {
    var (step', e') := Handle(step, e, destroy);
    assert Keeps(true, x, false, g, step', e', approvalFlow, Still);
  }

  lemma HandleAside(x: Entity, g: Guards, step: Status, e: Entity, destroy: Result<Entity, StateError>, approvalFlow: bool)
    requires Aside(x, e, g) && g.refused && g.lowerDone && step != PENDING && step != DONE
    ensures var (step', e') := Handle(step, e, destroy); Kept(true, x, false, g, step', e', approvalFlow)
  {
    if Working(x.status) {
      HandleToiling(x, g, step, e, destroy);
      var (step', e') := Handle(step, e, destroy);
      assert Keeps(true, x, false, g, step', e', approvalFlow, Still);
    } else if e == x {
      HandleWaiting(x, g, step, destroy, approvalFlow);
    } else {
      HandleApproved(x, g, step, e, destroy, approvalFlow);
    }
  }

  /** A resource that has gone through an approval or needed none is executed, and stays short of the end. */
  lemma HandleToiling(r: Entity, g: Guards, step: Status, e: Entity, destroy: Result<Entity, StateError>)
    requires Standing(r) && Working(r.status) && Toiling(r, e, g) && step != PENDING && step != DONE
    ensures var (step', e') := Handle(step, e, destroy); Toiling(r, e', g) && step' != PENDING && step' != DONE
  {
  }

  lemma HandleWaiting(x: Entity, g: Guards, step: Status, destroy: Result<Entity, StateError>, approvalFlow: bool)
    requires Standing(x) && x.status != DONE && !Working(x.status) && g.refused && g.lowerDone && step != PENDING && step != DONE
    ensures var (step', e') := Handle(step, x, destroy); Kept(true, x, false, g, step', e', approvalFlow)
  {
    var (step', e') := Handle(step, x, destroy);
    if e'.status == DONE {
      assert Keeps(true, x, false, g, step', e', approvalFlow, LostNow);
    } else {
      assert Aside(x, e', g);
      assert Keeps(true, x, false, g, step', e', approvalFlow, Still);
    }
  }

  lemma HandleApproved(x: Entity, g: Guards, step: Status, e: Entity, destroy: Result<Entity, StateError>, approvalFlow: bool)
    requires Standing(x) && x.status == APPROVAL_PENDING && ActionApprove(x).Success? && ActionApprove(x).value.status != DONE
    requires var r := ActionApprove(x).value; e == r || (Working(r.status) && Toiling(r, e, g))
    requires g.refused && g.lowerDone && step != PENDING && step != DONE
    ensures var (step', e') := Handle(step, e, destroy); Kept(true, x, false, g, step', e', approvalFlow)
  {
    var r := ActionApprove(x).value;
    var (step', e') := Handle(step, e, destroy);
    if Working(r.status) {
      HandleToiling(r, g, step, e, destroy);
    }
    assert Aside(x, e', g);
    assert Keeps(true, x, false, g, step', e', approvalFlow, Still);
  }

  lemma WorkerKeeps(event: Event, planned: bool, x: Entity, cleared: bool, g: Guards, step: Status, e: Entity, may: bool,
                    destroy: Result<Entity, StateError>, approvalFlow: bool)
    requires event.WorkerStart? || event.WorkerDone? || event.WorkerFailed?
    requires Follows(planned, x, cleared, g, step, e, approvalFlow) && (may ==> May(e, g))
    ensures var (step', e') := React(event, step, e, false, may, destroy);
            step' == step && Kept(planned, x, cleared, g, step, e', approvalFlow)
  {
    if !planned || step == PENDING {
      WorkerLags(event, planned, x, g, step, e, may, destroy, approvalFlow);
    } else if Gone(e) {
      assert Keeps(planned, x, cleared, g, step, e, approvalFlow, Still);
    } else if Right(x, e, g, approvalFlow) {
      WorkerRight(event, x, g, step, e, may, destroy, approvalFlow);
    } else if Dead(x, e) {
      assert Keeps(planned, x, cleared, g, step, e, approvalFlow, Still);
    } else {
      WorkerAside(event, x, g, step, e, may, destroy, approvalFlow);
    }
  }

  lemma WorkerLags(event: Event, planned: bool, x: Entity, g: Guards, step: Status, e: Entity, may: bool,
                   destroy: Result<Entity, StateError>, approvalFlow: bool)
    requires event.WorkerStart? || event.WorkerDone? || event.WorkerFailed?
    requires (!planned || step == PENDING) && Lags(x, e, g) && (may ==> May(e, g))
    ensures Kept(planned, x, false, g, step, React(event, step, e, false, may, destroy).1, approvalFlow)
  {
    var e' := React(event, step, e, false, may, destroy).1;
    if event.WorkerDone? && e.status == IN_PROGRESS && e.versioned {
      assert Keeps(planned, x, false, g, step, e', approvalFlow, WorkOnly);
    } else {
      assert Keeps(planned, x, false, g, step, e', approvalFlow, Still);
    }
  }

  lemma WorkerRight(event: Event, x: Entity, g: Guards, step: Status, e: Entity, may: bool,
                    destroy: Result<Entity, StateError>, approvalFlow: bool)
    requires event.WorkerStart? || event.WorkerDone? || event.WorkerFailed?
    requires Right(x, e, g, approvalFlow) && g.lowerDone && step != PENDING && step != DONE && (may ==> May(e, g))
    ensures Kept(true, x, false, g, step, React(event, step, e, false, may, destroy).1, approvalFlow)
  {
    var e' := React(event, step, e, false, may, destroy).1;
    if event.WorkerDone? && e.status == IN_PROGRESS && e.versioned {
      if x.state == DESTROYED || (x.state == DESTROY && x.status in {QUEUED, IN_PROGRESS}) {
        assert Keeps(true, x, false, g, step, e', approvalFlow, WorkAndClear);
      } else {
        assert Keeps(true, x, false, g, step, e', approvalFlow, ClearOnly);
      }
    } else {
      assert Right(x, e', g, approvalFlow);
      assert Keeps(true, x, false, g, step, e', approvalFlow, Still);
    }
  }

  lemma WorkerAside(event: Event, x: Entity, g: Guards, step: Status, e: Entity, may: bool,
                    destroy: Result<Entity, StateError>, approvalFlow: bool)
    requires event.WorkerStart? || event.WorkerDone? || event.WorkerFailed?
    requires Aside(x, e, g) && g.refused && g.lowerDone && step != PENDING && step != DONE && (may ==> May(e, g))
    ensures Kept(true, x, false, g, step, React(event, step, e, false, may, destroy).1, approvalFlow)
  {
    var e' := React(event, step, e, false, may, destroy).1;
    if event.WorkerDone? && e.status == IN_PROGRESS && e.versioned {
      assert Keeps(true, x, false, g, step, e', approvalFlow, LostNow);
    } else {
      assert Aside(x, e', g);
      assert Keeps(true, x, false, g, step, e', approvalFlow, Still);
    }
  }

  /** The step has been refused in the course of the schedule, and its resource not been moved since. */
  ghost predicate WasRefused(config: Config, w0: World, moves: seq<Move>, id: Node)
    requires Tracks(config, w0) && Schedule(config, w0, moves)
  {
    exists k :: RefusedFrom(config, w0, moves, id, k)
  }

  ghost predicate RefusedFrom(config: Config, w0: World, moves: seq<Move>, id: Node, k: int)
    requires Tracks(config, w0)
  {
    && 0 <= k <= |moves| && Schedule(config, w0, moves[..k])
    && Refused(config, After(config, w0, moves[..k]), id) && Spares(moves[k..], id)
  }

  ghost function GuardsOf(config: Config, w0: World, moves: seq<Move>, id: Node): Guards
    requires Tracks(config, w0) && Schedule(config, w0, moves)
  {
    var c := After(config, w0, moves);
    Guards(LowerDone(config, c, id), ChildrenGone(config.links, c.entities, id), ChildrenPassed(config.links, c.entities, id),
           ParentsReady(config.links, c.entities, id), WasRefused(config, w0, moves, id))
  }

  /** The steps of a world that a schedule has led to are waiting or cleared. */
  ghost predicate ClearedIn(c: World, id: Node) {
    id in c.steps && c.steps[id] == DONE
  }

  function StepIn(w: World, id: Node): Status {
    if id in w.steps then w.steps[id] else PENDING
  }

  ghost predicate FollowsAt(config: Config, w0: World, moves: seq<Move>, w: World, id: Node)
    requires Tracks(config, w0) && Schedule(config, w0, moves)
  {
    var c := After(config, w0, moves);
    && id in c.entities && id in w.entities
    && Follows(id in w.steps, c.entities[id], ClearedIn(c, id), GuardsOf(config, w0, moves, id), StepIn(w, id), w.entities[id],
               config.approvalFlow)
  }

  /** A run and a schedule agree. */
  ghost predicate Agrees(config: Config, w0: World, moves: seq<Move>, w: World) {
    && Tracks(config, w0) && Tracks(config, w) && Schedule(config, w0, moves)
    && w.entities.Keys == w0.entities.Keys
    && (forall id :: id in w0.steps ==> After(config, w0, moves).steps[id] in {PENDING, DONE})
    && forall id :: id in w.entities ==> FollowsAt(config, w0, moves, w, id)
  }

  /** The step is lost: its resource stands and has the status done. */
  ghost predicate Lost(w: World, id: Node) {
    && id in w.steps && id in w.entities && w.steps[id] != PENDING
    && w.entities[id].status == DONE && w.entities[id].state != DESTROYED
  }

  lemma RefusedSnoc(config: Config, w0: World, moves: seq<Move>, move: Move, id: Node)
    requires Tracks(config, w0) && Schedule(config, w0, moves) && Schedule(config, w0, moves + [move]) && move.id != id
    ensures WasRefused(config, w0, moves, id) ==> WasRefused(config, w0, moves + [move], id)
  {
    if k :| RefusedFrom(config, w0, moves, id, k) {
      OneMore(moves, move, k);
      assert RefusedFrom(config, w0, moves + [move], id, k);
    }
  }

  lemma OneMore(moves: seq<Move>, move: Move, k: int)
    requires 0 <= k <= |moves|
    ensures (moves + [move])[..k] == moves[..k] && (moves + [move])[k..] == moves[k..] + [move]
  {
  }

  /** The guards of the other resources only open. */
  lemma GuardsGrow(config: Config, w0: World, moves: seq<Move>, move: Move, id: Node)
    requires Tracks(config, w0) && Schedule(config, w0, moves) && Possible(config, After(config, w0, moves), move) && move.id != id
    ensures Schedule(config, w0, moves + [move])
    ensures Below(GuardsOf(config, w0, moves, id), GuardsOf(config, w0, moves + [move], id))
  {
    ScheduleSnoc(config, w0, moves, move);
    MakeGrows(config, After(config, w0, moves), move);
    AheadAllows(config, After(config, w0, moves), After(config, w0, moves + [move]), id);
    RefusedSnoc(config, w0, moves, move, id);
  }

  /** The others keep following while one resource is moved. */
  lemma OthersFollow(config: Config, w0: World, moves: seq<Move>, move: Move, w: World, w': World, id: Node)
    requires Tracks(config, w0) && Schedule(config, w0, moves) && Possible(config, After(config, w0, moves), move) && move.id != id
    requires FollowsAt(config, w0, moves, w, id)
    requires id in w'.entities && w'.entities[id] == w.entities[id] && (id in w'.steps <==> id in w.steps) && StepIn(w', id) == StepIn(w, id)
    ensures Schedule(config, w0, moves + [move]) && FollowsAt(config, w0, moves + [move], w', id)
  {
    ScheduleSnoc(config, w0, moves, move);
    GuardsGrow(config, w0, moves, move, id);
    MakeGrows(config, After(config, w0, moves), move);
    var c, c' := After(config, w0, moves), After(config, w0, moves + [move]);
    assert ClearedIn(c', id) == ClearedIn(c, id) && c'.entities[id] == c.entities[id];
    FollowsMore(id in w.steps, c.entities[id], ClearedIn(c, id), GuardsOf(config, w0, moves, id),
                GuardsOf(config, w0, moves + [move], id), StepIn(w, id), w.entities[id], config.approvalFlow);
  }

  lemma AgreesAt(config: Config, w0: World, moves: seq<Move>, w: World, id: Node)
    requires Agrees(config, w0, moves, w) && id in w.entities
    ensures var c := After(config, w0, moves);
            && id in c.entities && Grows(w.entities[id], c.entities[id]) && (Gone(c.entities[id]) ==> Gone(w.entities[id]))
            && (id in w.steps && w.steps[id] == DONE ==> id in c.steps && c.steps[id] == DONE)
  {
    var c := After(config, w0, moves);
    assert FollowsAt(config, w0, moves, w, id);
    FollowsBounds(id in w.steps, c.entities[id], ClearedIn(c, id), GuardsOf(config, w0, moves, id), StepIn(w, id),
                  w.entities[id], config.approvalFlow);
  }

  /** What the run has reached, the schedule has. */
  lemma AgreesBounds(config: Config, w0: World, moves: seq<Move>, w: World)
    requires Agrees(config, w0, moves, w)
    ensures Ahead(w, After(config, w0, moves))
    ensures forall id :: id in w.entities && Gone(After(config, w0, moves).entities[id]) ==> Gone(w.entities[id])
  {
    var c := After(config, w0, moves);
    SameSteps(config, w0, w);
    forall id | id in w.entities
      ensures id in c.entities && Grows(w.entities[id], c.entities[id]) && (Gone(c.entities[id]) ==> Gone(w.entities[id]))
      ensures id in w.steps && w.steps[id] == DONE ==> id in c.steps && c.steps[id] == DONE
    {
      AgreesAt(config, w0, moves, w, id);
    }
  }

  lemma SameSteps(config: Config, w: World, w': World)
    requires Tracks(config, w) && Tracks(config, w')
    ensures w.steps.Keys == w'.steps.Keys
  {
  }

  lemma GuardsBound(config: Config, w0: World, moves: seq<Move>, w: World, id: Node)
    requires Agrees(config, w0, moves, w) && id in w.entities
    ensures var g := GuardsOf(config, w0, moves, id);
            && (ChildrenGone(config.links, w.entities, id) <==> g.childrenGone)
            && (WorkerMay(config.links, w.entities, id) ==> May(w.entities[id], g))
            && (LowerDone(config, w, id) ==> g.lowerDone)
  {
    var c := After(config, w0, moves);
    AgreesBounds(config, w0, moves, w);
    AheadAllows(config, w, c, id);
    if ChildrenGone(config.links, c.entities, id) {
      forall e | e in config.links && e.0 == id && e.1 in w.entities
        ensures Gone(w.entities[e.1])
      {
        assert Gone(c.entities[e.1]);
      }
    }
  }

  /** A refusal at this moment is remembered. */
  lemma RefusedHere(config: Config, w0: World, moves: seq<Move>, id: Node)
    requires Tracks(config, w0) && Schedule(config, w0, moves) && Refused(config, After(config, w0, moves), id)
    ensures WasRefused(config, w0, moves, id)
  {
    assert moves[..|moves|] == moves && moves[|moves|..] == [];
    assert RefusedFrom(config, w0, moves, id, |moves|);
  }

  /** What an event about id leaves alone. */
  ghost predicate Elsewhere(w: World, w': World, id: Node) {
    && w'.entities.Keys == w.entities.Keys && w'.steps.Keys == w.steps.Keys
    && (forall other :: other in w.entities && other != id ==> w'.entities[other] == w.entities[other])
    && forall other :: other in w.steps && other != id ==> w'.steps[other] == w.steps[other]
  }

  /** The schedule is continued by a move of the same resource. */
  lemma Adopt(config: Config, w0: World, moves: seq<Move>, w: World, w': World, move: Move)
    requires Agrees(config, w0, moves, w) && Tracks(config, w') && Elsewhere(w, w', move.id)
    requires Possible(config, After(config, w0, moves), move)
    requires Schedule(config, w0, moves + [move]) ==> FollowsAt(config, w0, moves + [move], w', move.id)
    ensures Agrees(config, w0, moves + [move], w')
  {
    ScheduleSnoc(config, w0, moves, move);
    StepsStaySettled(config, After(config, w0, moves), move);
    forall id | id in w'.entities
      ensures FollowsAt(config, w0, moves + [move], w', id)
    {
      if id != move.id {
        assert FollowsAt(config, w0, moves, w, id);
        OthersFollow(config, w0, moves, move, w, w', id);
      }
    }
  }

  lemma StepsStaySettled(config: Config, c: World, move: Move)
    requires Tracks(config, c) && Possible(config, c, move)
    requires forall id :: id in c.steps ==> c.steps[id] in {PENDING, DONE}
    ensures forall id :: id in c.steps ==> Make(config, c, move).steps[id] in {PENDING, DONE}
  {
  }

  /** The state of the resource an event is about, on both sides. */
  ghost predicate KeepsAt(config: Config, w0: World, moves: seq<Move>, w': World, id: Node, k: Keeping)
    requires Tracks(config, w0) && Schedule(config, w0, moves)
  {
    var c := After(config, w0, moves);
    && id in c.entities && id in w'.entities
    && Keeps(id in w'.steps, c.entities[id], ClearedIn(c, id), GuardsOf(config, w0, moves, id), StepIn(w', id), w'.entities[id],
             config.approvalFlow, k)
  }

  lemma AdoptStill(config: Config, w0: World, moves: seq<Move>, w: World, w': World, id: Node)
    requires Agrees(config, w0, moves, w) && Tracks(config, w') && Elsewhere(w, w', id) && id in w.entities
    requires KeepsAt(config, w0, moves, w', id, Still)
    ensures Agrees(config, w0, moves, w')
  {
    forall other | other in w'.entities
      ensures FollowsAt(config, w0, moves, w', other)
    {
      if other != id {
        StillFollows(config, w0, moves, w, w', other);
      }
    }
  }

  lemma StillFollows(config: Config, w0: World, moves: seq<Move>, w: World, w': World, id: Node)
    requires Agrees(config, w0, moves, w) && id in w.entities && id in w'.entities
    requires w'.entities[id] == w.entities[id] && (id in w'.steps <==> id in w.steps) && StepIn(w', id) == StepIn(w, id)
    ensures FollowsAt(config, w0, moves, w', id)
  {
    assert FollowsAt(config, w0, moves, w, id);
  }

  lemma PossibleWork(config: Config, w0: World, moves: seq<Move>, id: Node)
    requires Tracks(config, w0) && Schedule(config, w0, moves) && id in w0.entities
    requires CanWork(After(config, w0, moves).entities[id], GuardsOf(config, w0, moves, id))
    ensures Possible(config, After(config, w0, moves), Work(id))
  {
  }

  lemma AdoptWork(config: Config, w0: World, moves: seq<Move>, w: World, w': World, id: Node)
    requires Agrees(config, w0, moves, w) && Tracks(config, w') && Elsewhere(w, w', id) && id in w.entities
    requires KeepsAt(config, w0, moves, w', id, WorkOnly)
    ensures Agrees(config, w0, moves + [Work(id)], w')
  {
    PossibleWork(config, w0, moves, id);
    ScheduleSnoc(config, w0, moves, Work(id));
    Adopt(config, w0, moves, w, w', Work(id));
  }

  lemma PossibleClear(config: Config, w0: World, moves: seq<Move>, id: Node)
    requires Tracks(config, w0) && Schedule(config, w0, moves) && id in w0.steps && After(config, w0, moves).steps[id] == PENDING
    requires CanClear(After(config, w0, moves).entities[id], GuardsOf(config, w0, moves, id), config.approvalFlow)
    ensures Possible(config, After(config, w0, moves), Clear(id))
  {
  }

  lemma AdoptClear(config: Config, w0: World, moves: seq<Move>, w: World, w': World, id: Node)
    requires Agrees(config, w0, moves, w) && Tracks(config, w') && Elsewhere(w, w', id) && id in w.entities
    requires KeepsAt(config, w0, moves, w', id, ClearOnly)
    ensures Agrees(config, w0, moves + [Clear(id)], w')
  {
    SameSteps(config, w0, w');
    PossibleClear(config, w0, moves, id);
    ScheduleSnoc(config, w0, moves, Clear(id));
    Adopt(config, w0, moves, w, w', Clear(id));
  }

  /** The worker's move first, seen from the run before its event. */
  lemma AdoptBoth(config: Config, w0: World, moves: seq<Move>, w: World, w': World, id: Node)
    requires Agrees(config, w0, moves, w) && Tracks(config, w') && Elsewhere(w, w', id) && id in w.entities
    requires KeepsAt(config, w0, moves, w', id, WorkAndClear)
    ensures Agrees(config, w0, moves + [Work(id)] + [Clear(id)], w')
  {
    var more := moves + [Work(id)];
    SameSteps(config, w0, w');
    PossibleWork(config, w0, moves, id);
    ScheduleSnoc(config, w0, moves, Work(id));
    BothClear(config, w0, moves, id);
    forall other | other in w'.entities
      ensures FollowsAt(config, w0, more + [Clear(id)], w', other)
    {
      if other != id {
        assert FollowsAt(config, w0, moves, w, other);
        OthersFollow(config, w0, moves, Work(id), w, w', other);
        OthersFollow(config, w0, more, Clear(id), w', w', other);
      }
    }
  }

  lemma BothClear(config: Config, w0: World, moves: seq<Move>, id: Node)
    requires Tracks(config, w0) && Schedule(config, w0, moves) && Possible(config, After(config, w0, moves), Work(id))
    requires var c := After(config, w0, moves);
             id in c.steps && c.steps[id] == PENDING && LowerDone(config, c, id) && Gone(Worked(c.entities[id]))
    requires forall j :: j in w0.steps ==> After(config, w0, moves).steps[j] in {PENDING, DONE}
    ensures Schedule(config, w0, moves + [Work(id)] + [Clear(id)])
    ensures var c' := After(config, w0, moves + [Work(id)] + [Clear(id)]);
            && ClearedIn(c', id) && Gone(c'.entities[id]) && forall j :: j in w0.steps ==> c'.steps[j] in {PENDING, DONE}
  {
    var c := After(config, w0, moves);
    ScheduleSnoc(config, w0, moves, Work(id));
    MakeGrows(config, c, Work(id));
    AheadAllows(config, c, Make(config, c, Work(id)), id);
    ScheduleSnoc(config, w0, moves + [Work(id)], Clear(id));
  }

  /** After an event the schedule can be continued, unless the step is lost; then the world was endangered. */
  lemma KeptAgrees(config: Config, w0: World, moves: seq<Move>, w: World, w': World, id: Node) returns (more: seq<Move>)
    requires Agrees(config, w0, moves, w) && Tracks(config, w') && Elsewhere(w, w', id) && id in w.entities
    requires exists k :: KeepsAt(config, w0, moves, w', id, k)
    ensures Agrees(config, w0, more, w') || (Endangered(config, w0) && Lost(w', id))
  {
    var k :| KeepsAt(config, w0, moves, w', id, k);
    more := moves;
    match k {
      case Still => AdoptStill(config, w0, moves, w, w', id);
      case WorkOnly =>
        AdoptWork(config, w0, moves, w, w', id);
        more := moves + [Work(id)];
      case ClearOnly =>
        AdoptClear(config, w0, moves, w, w', id);
        more := moves + [Clear(id)];
      case WorkAndClear =>
        AdoptBoth(config, w0, moves, w, w', id);
        more := moves + [Work(id)] + [Clear(id)];
      case LostNow => RefusalEndangers(config, w0, moves, id);
    }
  }

  lemma RefusalEndangers(config: Config, w0: World, moves: seq<Move>, id: Node)
    requires Tracks(config, w0) && Schedule(config, w0, moves) && WasRefused(config, w0, moves, id) && id in w0.entities
    requires var c := After(config, w0, moves); GoesOn(c.entities[id], ParentsReady(config.links, c.entities, id))
    ensures Endangered(config, w0)
  {
    var k :| RefusedFrom(config, w0, moves, id, k);
    ScheduleSplit(config, w0, moves, k);
    AstrayOnTheWay(config, w0, moves[..k], moves[k..], After(config, w0, moves), id);
  }

  lemma AstrayOnTheWay(config: Config, w: World, before: seq<Move>, after: seq<Move>, c: World, id: Node)
    requires Tracks(config, w) && Schedule(config, w, before) && Refused(config, After(config, w, before), id)
    requires Spares(after, id) && Schedule(config, After(config, w, before), after)
    requires c == After(config, After(config, w, before), after) && id in c.entities
    requires GoesOn(c.entities[id], ParentsReady(config.links, c.entities, id))
    ensures Endangered(config, w)
  {
    assert LeadsAstray(config, w, before, after, id);
  }

  lemma {:induction false} ScheduleSplit(config: Config, w: World, moves: seq<Move>, k: nat)
    requires Tracks(config, w) && Schedule(config, w, moves) && k <= |moves|
    ensures Schedule(config, w, moves[..k]) && Schedule(config, After(config, w, moves[..k]), moves[k..])
    ensures After(config, After(config, w, moves[..k]), moves[k..]) == After(config, w, moves)
  {
    if k == |moves| {
      assert moves[..k] == moves && moves[k..] == [];
    } else {
      var n := |moves| - 1;
      ScheduleSplit(config, w, moves[..n], k);
      SplitParts(moves, k);
      ScheduleSnoc(config, After(config, w, moves[..k]), moves[..n][k..], moves[n]);
    }
  }

  lemma SplitParts(moves: seq<Move>, k: nat)
    requires k < |moves|
    ensures var n := |moves| - 1; moves[..n][..k] == moves[..k] && moves[k..] == moves[..n][k..] + [moves[n]]
  {
  }

  lemma NextElsewhere(config: Config, w: World, event: Event)
    requires Tracks(config, w)
    ensures Elsewhere(w, Next(config, w, event), event.id)
  {
  }

  /** The lemma about one resource, applied to an event of the run. */
  lemma EventKept(config: Config, w0: World, moves: seq<Move>, w: World, event: Event)
    requires Agrees(config, w0, moves, w) && event.id in w.entities
    ensures exists k :: KeepsAt(config, w0, moves, Next(config, w, event), event.id, k)
  {
    var id := event.id;
    assert FollowsAt(config, w0, moves, w, id);
    GuardsBound(config, w0, moves, w, id);
    SameSteps(config, w0, w);
    if event.WorkerStart? || event.WorkerDone? || event.WorkerFailed? {
      WorkerKept(config, w0, moves, w, event);
    } else if id in w.steps && w.steps[id] == PENDING && event.Launch? && LowerDone(config, w, id) {
      LaunchKept(config, w0, moves, w, id);
    } else {
      HandleKept(config, w0, moves, w, event);
    }
  }

  lemma WorkerKept(config: Config, w0: World, moves: seq<Move>, w: World, event: Event)
    requires Agrees(config, w0, moves, w) && event.id in w.entities
    requires event.WorkerStart? || event.WorkerDone? || event.WorkerFailed?
    ensures exists k :: KeepsAt(config, w0, moves, Next(config, w, event), event.id, k)
  {
    var id, c := event.id, After(config, w0, moves);
    var g, may := GuardsOf(config, w0, moves, id), WorkerMay(config.links, w.entities, id);
    assert FollowsAt(config, w0, moves, w, id);
    GuardsBound(config, w0, moves, w, id);
    WorkerNextIs(config, w, event);
    WorkerKeeps(event, id in w.steps, c.entities[id], ClearedIn(c, id), g, StepIn(w, id), w.entities[id], may, Failure(WrongState),
                config.approvalFlow);
    KeptAt(config, w0, moves, Next(config, w, event), id);
  }

  /** A worker's event, seen from its resource. */
  lemma WorkerNextIs(config: Config, w: World, event: Event)
    requires Tracks(config, w) && event.id in w.entities
    requires event.WorkerStart? || event.WorkerDone? || event.WorkerFailed?
    ensures var id, w' := event.id, Next(config, w, event);
            && id in w'.entities && (id in w'.steps <==> id in w.steps) && StepIn(w', id) == StepIn(w, id)
            && w'.entities[id] == React(event, StepIn(w, id), w.entities[id], false, WorkerMay(config.links, w.entities, id),
                                        Failure(WrongState)).1
  {
    WorkerNext(config, w, event);
  }

  lemma KeptAt(config: Config, w0: World, moves: seq<Move>, w': World, id: Node)
    requires Tracks(config, w0) && Schedule(config, w0, moves)
    requires var c := After(config, w0, moves);
             && id in c.entities && id in w'.entities
             && Kept(id in w'.steps, c.entities[id], ClearedIn(c, id), GuardsOf(config, w0, moves, id), StepIn(w', id),
                     w'.entities[id], config.approvalFlow)
    ensures exists k :: KeepsAt(config, w0, moves, w', id, k)
  {
    var c, g := After(config, w0, moves), GuardsOf(config, w0, moves, id);
    var k :| Keeps(id in w'.steps, c.entities[id], ClearedIn(c, id), g, StepIn(w', id), w'.entities[id], config.approvalFlow, k);
    assert KeepsAt(config, w0, moves, w', id, k);
  }

  lemma LaunchKept(config: Config, w0: World, moves: seq<Move>, w: World, id: Node)
    requires Agrees(config, w0, moves, w) && id in w.steps && w.steps[id] == PENDING && LowerDone(config, w, id)
    ensures exists k :: KeepsAt(config, w0, moves, Next(config, w, Launch(id)), id, k)
  {
    var c := After(config, w0, moves);
    var x, g := c.entities[id], GuardsOf(config, w0, moves, id);
    WaitingFollows(config, w0, moves, w, id);
    GuardsBound(config, w0, moves, w, id);
    LaunchKeeps(x, g, w.entities[id], config.approvalFlow);
    ToldAlready(config, w0, moves, id);
    LaunchIs(config, w, id);
    KeptAt(config, w0, moves, Next(config, w, Launch(id)), id);
  }

  lemma WaitingFollows(config: Config, w0: World, moves: seq<Move>, w: World, id: Node)
    requires Agrees(config, w0, moves, w) && id in w.steps && w.steps[id] == PENDING
    ensures var c := After(config, w0, moves);
            && id in c.steps && c.steps[id] == PENDING && !ClearedIn(c, id)
            && Follows(true, c.entities[id], false, GuardsOf(config, w0, moves, id), PENDING, w.entities[id], config.approvalFlow)
  {
    assert FollowsAt(config, w0, moves, w, id);
    SameSteps(config, w0, w);
  }

  lemma ToldAlready(config: Config, w0: World, moves: seq<Move>, id: Node)
    requires Tracks(config, w0) && Schedule(config, w0, moves) && id in w0.steps && After(config, w0, moves).steps[id] == PENDING
    ensures var x, g := After(config, w0, moves).entities[id], GuardsOf(config, w0, moves, id);
            Told(x, g, config.approvalFlow) == g
  {
    if RefusedNow(After(config, w0, moves).entities[id], GuardsOf(config, w0, moves, id), config.approvalFlow) {
      RefusedHere(config, w0, moves, id);
    }
  }

  lemma LaunchIs(config: Config, w: World, id: Node)
    requires Tracks(config, w) && id in w.steps && w.steps[id] == PENDING && LowerDone(config, w, id)
    ensures var w', e := Next(config, w, Launch(id)), w.entities[id];
            && id in w'.steps && id in w'.entities
            && (StepIn(w', id), w'.entities[id])
                 == Handle(PENDING, e, Answer(e, ChildrenGone(config.links, w.entities, id), config.approvalFlow))
  {
  }

  lemma HandleKept(config: Config, w0: World, moves: seq<Move>, w: World, event: Event)
    requires Agrees(config, w0, moves, w) && event.id in w.entities && (event.Launch? || event.Callback?)
    requires event.id in w.steps && w.steps[event.id] == PENDING && event.Launch? ==> !LowerDone(config, w, event.id)
    ensures exists k :: KeepsAt(config, w0, moves, Next(config, w, event), event.id, k)
  {
    var id, c, w' := event.id, After(config, w0, moves), Next(config, w, event);
    var g := GuardsOf(config, w0, moves, id);
    assert FollowsAt(config, w0, moves, w, id);
    HandleIs(config, w, event);
    if StepIn(w, id) != PENDING && StepIn(w, id) != DONE {
      HandleKeeps(c.entities[id], ClearedIn(c, id), g, w.steps[id], w.entities[id],
                  ActionDestroy(config.links, w.entities, id, config.approvalFlow), config.approvalFlow);
    }
    if StepIn(w', id) == StepIn(w, id) && w'.entities[id] == w.entities[id] {
      assert Keeps(id in w'.steps, c.entities[id], ClearedIn(c, id), g, StepIn(w', id), w'.entities[id], config.approvalFlow, Still);
    }
    KeptAt(config, w0, moves, w', id);
  }

  /** A step that has begun is handled, or nothing happens. */
  lemma HandleIs(config: Config, w: World, event: Event)
    requires Tracks(config, w) && event.id in w.entities && (event.Launch? || event.Callback?)
    requires event.id in w.steps && w.steps[event.id] == PENDING && event.Launch? ==> !LowerDone(config, w, event.id)
    ensures var id, w' := event.id, Next(config, w, event);
            && id in w'.entities && (id in w'.steps <==> id in w.steps)
            && ((StepIn(w', id) == StepIn(w, id) && w'.entities[id] == w.entities[id])
                || (id in w.steps && StepIn(w, id) != PENDING && StepIn(w, id) != DONE
                    && (StepIn(w', id), w'.entities[id])
                         == Handle(StepIn(w, id), w.entities[id], ActionDestroy(config.links, w.entities, id, config.approvalFlow))))
  {
  }

  lemma AgreesAtStart(config: Config, w: World)
    requires Unstarted(config, w)
    ensures Agrees(config, w, [], w)
  {
  }

  /** A lost step stays lost. */
  lemma LostStays(config: Config, w: World, event: Event, id: Node)
    requires Tracks(config, w) && Lost(w, id)
    ensures Lost(Next(config, w, event), id)
  {
    NextReacts(config, w, event, id);
  }

  /** Some schedule agrees with the run, or a step is lost; and that shows that the world was endangered. */
  ghost predicate Accounted(config: Config, w0: World, w: World)
    requires Tracks(config, w0)
  {
    (exists moves :: Agrees(config, w0, moves, w)) || (Endangered(config, w0) && exists id :: Lost(w, id))
  }

  /** Every run is matched by a schedule, until a step is lost. */
  lemma {:induction false} Matched(config: Config, w: World, events: seq<Event>)
    requires Unstarted(config, w)
    ensures Accounted(config, w, Execute(config, w, events))
  {
    if events == [] {
      AgreesAtStart(config, w);
    } else {
      Matched(config, w, events[..|events| - 1]);
      MatchedNext(config, w, Execute(config, w, events[..|events| - 1]), events[|events| - 1]);
    }
  }

  lemma MatchedNext(config: Config, w0: World, w: World, event: Event)
    requires Tracks(config, w0) && Tracks(config, w) && Accounted(config, w0, w)
    ensures Accounted(config, w0, Next(config, w, event))
  {
    var w' := Next(config, w, event);
    if moves :| Agrees(config, w0, moves, w) {
      if event.id in w.entities {
        NextElsewhere(config, w, event);
        EventKept(config, w0, moves, w, event);
        var more := KeptAgrees(config, w0, moves, w, w', event.id);
      }
    } else {
      var id :| Lost(w, id);
      LostStays(config, w, event, id);
    }
  }

  ghost predicate CanGoWrong(config: Config, w: World)
    requires Tracks(config, w)
  {
    exists events :: WronglyDone(Execute(config, w, events))
  }

  lemma NeverWronglyDone(config: Config, w: World, events: seq<Event>)
    requires Unstarted(config, w) && !Endangered(config, w)
    ensures !WronglyDone(Execute(config, w, events))
  {
    Matched(config, w, events);
    var w' := Execute(config, w, events);
    var moves :| Agrees(config, w, moves, w');
    forall id | id in w'.steps && id in w'.entities && w'.steps[id] == DONE
      ensures Gone(w'.entities[id])
    {
      assert FollowsAt(config, w, moves, w', id);
    }
  }

  /**
   * Some run of a cascade destroy marks a step done whose resource stands if and only if some schedule leads to
   * a refusal after which the resource can go on; for every plan, all links and all states of the resources.
   */
  lemma WronglyDoneIff(config: Config, w: World)
    requires Unstarted(config, w)
    ensures CanGoWrong(config, w) <==> Endangered(config, w)
  {
    if Endangered(config, w) {
      var events := SometimesWronglyDone(config, w);
      assert WronglyDone(Execute(config, w, events));
    } else {
      forall events
        ensures !WronglyDone(Execute(config, w, events))
      {
        NeverWronglyDone(config, w, events);
      }
    }
  }

  ghost predicate ScheduledToEnd(config: Config, w: World, moves: seq<Move>)
    requires Tracks(config, w)
  {
    Schedule(config, w, moves) && AllGone(config, After(config, w, moves))
  }

  lemma LostNotGone(config: Config, w: World, id: Node)
    requires Tracks(config, w) && AllGone(config, w)
    ensures !Lost(w, id)
  {
    if id in w.steps {
      assert Planned(config.plan, id);
    }
  }

  /** Some run destroys the whole plan if and only if some schedule does. */
  lemma ClearsIff(config: Config, w: World)
    requires Unstarted(config, w)
    ensures (exists events :: Clears(config, w, events)) <==> exists moves :: ScheduledToEnd(config, w, moves)
  {
    if moves :| ScheduledToEnd(config, w, moves) {
      var events := RealizeSchedule(config, w, moves);
      assert Clears(config, w, events);
    }
    if events :| Clears(config, w, events) {
      var w' := Execute(config, w, events);
      Matched(config, w, events);
      forall id
        ensures !Lost(w', id)
      {
        LostNotGone(config, w', id);
      }
      var moves :| Agrees(config, w, moves, w');
      AgreesBounds(config, w, moves, w');
      assert ScheduledToEnd(config, w, moves);
    }
  }
}
