/**
 * What a cascade destroy can come to, read off the resources before it starts: for plans without
 * cycles and all states of the resources, and for resources at rest and all plans.
 */
module DestroyConditions {
  import opened Common
  import opened Graphs
  import opened EntityState
  import opened ResourceWalk
  import opened CascadeDestroy
  import opened DestroyRunner
  import opened DestroySchedule
  import opened DestroyOutcomes

  /** Everything that depends on the resource comes before it. */
  ghost predicate ChildrenLower(config: Config, step: Step) {
    forall child :: child in config.plan && (step.resourceId, child.resourceId) in config.links ==> child.position < step.position
  }

  ghost predicate Layered(config: Config) {
    Closed(config) && forall step :: step in config.plan ==> ChildrenLower(config, step)
  }

  /** The plan made from the query is layered exactly when no cycle is reachable from the root. */
  lemma LayeredIffAcyclic(db: Database, root: Node, rows: seq<Row>, height: int, config: Config)
    requires Planning(db, root, rows, height, config.plan) && config.links == db.links
    ensures Closed(config) && (Layered(config) <==> Acyclic(db, root))
  {
    PlanClosed(db, root, rows, height, config);
    ChildrenFirstIffAcyclic(db, root, rows, height, config.plan);
    LayeredIsChildrenFirst(db, config);
  }

  lemma LayeredIsChildrenFirst(db: Database, config: Config)
    requires Closed(config) && config.links == db.links
    ensures Layered(config) <==> ChildrenFirst(db, config.plan)
  {
    if Layered(config) {
      forall parent, child | parent in config.plan && child in config.plan && (parent.resourceId, child.resourceId) in db.links
        ensures child.position < parent.position
      {
        assert ChildrenLower(config, parent);
      }
    }
  }

  /** Resources that a cascade destroy can bring to their end once everything that depends on them is destroyed. */
  predicate Removable(e: Entity, approvalFlow: bool) {
    || Gone(e)
    || (Accepts(e) && Ends(e, approvalFlow))
    || ByApproval(e)
    || (e.versioned && e.state == DESTROY && e.status in {APPROVAL_PENDING, READY, QUEUED, IN_PROGRESS, ERROR})
    || (e.versioned && e.state == DESTROYED && e.status == IN_PROGRESS)
  }

  /** A worker can make a parent ready: at once, or as soon as its own parents are. */
  ghost predicate InTime(links: Edges, entities: map<Node, Entity>, v: Node, n: nat)
    requires v in entities
    decreases n, 0
  {
    var e := entities[v];
    || ParentReady(e)
    || (e.versioned && e.status == IN_PROGRESS)
    || (n > 0 && e.versioned && e.state == PROVISION && e.status == QUEUED && ParentsInTime(links, entities, v, n - 1))
  }

  ghost predicate ParentsInTime(links: Edges, entities: map<Node, Entity>, v: Node, n: nat)
    decreases n, 1
  {
    forall e :: e in links && e.1 == v && e.0 in entities ==> InTime(links, entities, e.0, n)
  }

  ghost predicate GetsReady(links: Edges, entities: map<Node, Entity>, v: Node) {
    exists n :: ParentsInTime(links, entities, v, n)
  }

  /** Resources that the destroy action refuses, or does not see, and that reach the status done all the same. */
  predicate Treacherous(e: Entity, getsReady: bool) {
    (e.state == DESTROY && e.status == DONE) || (Standing(e) && !Destroyable(e) && GoesOn(e, getsReady))
  }

  /** Everything that comes before can be destroyed. */
  ghost predicate LowerRemovable(config: Config, w: World, step: Step)
    requires Tracks(config, w)
  {
    forall other :: other in config.plan && other.position < step.position ==>
      Removable(w.entities[other.resourceId], config.approvalFlow)
  }

  ghost predicate Threatened(config: Config, w: World, step: Step)
    requires Tracks(config, w) && step in config.plan
  {
    var id := step.resourceId;
    Treacherous(w.entities[id], GetsReady(config.links, w.entities, id)) && LowerRemovable(config, w, step)
  }

  // What a schedule does to one resource.

  /** No worker and no clearing makes a resource removable that was not. */
  lemma {:induction false} RemovableBefore(config: Config, w: World, moves: seq<Move>, id: Node)
    requires Tracks(config, w) && Schedule(config, w, moves) && id in w.entities
    requires Removable(After(config, w, moves).entities[id], config.approvalFlow)
    ensures Removable(w.entities[id], config.approvalFlow)
  {
    if moves != [] {
      var n := |moves| - 1;
      RemovableBeforeMove(config, After(config, w, moves[..n]), moves[n], id);
      RemovableBefore(config, w, moves[..n], id);
    }
  }

  lemma RemovableBeforeMove(config: Config, c: World, move: Move, id: Node)
    requires Tracks(config, c) && Possible(config, c, move) && id in c.entities
    requires Removable(Make(config, c, move).entities[id], config.approvalFlow)
    ensures Removable(c.entities[id], config.approvalFlow)
  {
  }

  /** A step that is done has its resource destroyed; and a resource is as it was, or has the status done. */
  ghost predicate Settled(w: World, c: World) {
    && c.entities.Keys == w.entities.Keys && c.steps.Keys == w.steps.Keys
    && (forall id :: id in c.steps ==> c.steps[id] == PENDING || (c.steps[id] == DONE && id in c.entities && Gone(c.entities[id])))
    && forall id :: id in c.entities && id in w.entities ==> c.entities[id] == w.entities[id] || c.entities[id].status == DONE
  }

  lemma SettledMove(config: Config, w: World, c: World, move: Move)
    requires Tracks(config, w) && Tracks(config, c) && Settled(w, c) && Possible(config, c, move)
    ensures Settled(w, Make(config, c, move))
  {
  }

  lemma {:induction false} ScheduleSettles(config: Config, w: World, c: World, moves: seq<Move>)
    requires Tracks(config, w) && Tracks(config, c) && Settled(w, c) && Schedule(config, c, moves)
    ensures Settled(w, After(config, c, moves))
  {
    if moves != [] {
      var n := |moves| - 1;
      ScheduleSettles(config, w, c, moves[..n]);
      SettledMove(config, w, After(config, c, moves[..n]), moves[n]);
    }
  }

  lemma SettledAtStart(config: Config, w: World, moves: seq<Move>)
    requires Unstarted(config, w) && Schedule(config, w, moves)
    ensures Settled(w, After(config, w, moves))
  {
    ScheduleSettles(config, w, w, moves);
  }

  /** At its turn, a resource with only lower dependents finds them destroyed. */
  lemma TurnFindsGone(config: Config, w: World, c: World, step: Step)
    requires Closed(config) && Tracks(config, c) && Settled(w, c) && step in config.plan && ChildrenLower(config, step)
    requires LowerDone(config, c, step.resourceId)
    ensures ChildrenGone(config.links, c.entities, step.resourceId)
    ensures ChildrenPassed(config.links, c.entities, step.resourceId)
  {
    forall e | e in config.links && e.0 == step.resourceId && e.1 in c.entities
      ensures Gone(c.entities[e.1])
    {
      assert Planned(config.plan, e.0) && Planned(config.plan, e.1);
      var child :| child in config.plan && child.resourceId == e.1;
      assert (step.resourceId, child.resourceId) == e;
      LowerStepsDone(config, c, step, child);
    }
  }

  // Clearing a plan in its order.

  /** The first j steps of the plan are done, the others wait with their resources as they were. */
  ghost predicate ClearedFirst(config: Config, w: World, c: World, j: nat) {
    && Tracks(config, w) && Tracks(config, c) && Settled(w, c)
    && (forall i :: 0 <= i < |config.plan| ==>
          config.plan[i].resourceId in c.steps && c.steps[config.plan[i].resourceId] == if i < j then DONE else PENDING)
    && forall v :: v in w.entities && v in c.entities && !(v in c.steps && c.steps[v] == DONE) ==> c.entities[v] == w.entities[v]
  }

  /** Everything at lower positions is among the first j. */
  ghost predicate LowerFirst(config: Config, j: nat, step: Step) {
    forall i :: 0 <= i < |config.plan| && config.plan[i].position < step.position ==> i < j
  }

  lemma FirstLowerDone(config: Config, w: World, c: World, j: nat, step: Step)
    requires ClearedFirst(config, w, c, j) && step in config.plan && LowerFirst(config, j, step)
    ensures LowerDone(config, c, step.resourceId)
  {
    forall other | other in config.plan && other.position < step.position
      ensures c.steps[other.resourceId] == DONE
    {
      var i :| 0 <= i < |config.plan| && config.plan[i] == other;
    }
  }

  /** A removable resource is cleared at its turn, by a worker first if one is at it. */
  lemma ClearOne(config: Config, w: World, c: World, step: Step) returns (moves: seq<Move>)
    requires Closed(config) && Tracks(config, w) && Tracks(config, c) && Settled(w, c)
    requires step in config.plan && ChildrenLower(config, step)
    requires step.resourceId in c.steps && c.steps[step.resourceId] == PENDING && LowerDone(config, c, step.resourceId)
    requires Removable(c.entities[step.resourceId], config.approvalFlow)
    ensures Schedule(config, c, moves)
    ensures After(config, c, moves)
         == World(c.entities[step.resourceId := Cleared(c.entities[step.resourceId])], c.steps[step.resourceId := DONE])
  {
    var id := step.resourceId;
    var e := c.entities[id];
    TurnFindsGone(config, w, c, step);
    if Possible(config, c, Clear(id)) {
      moves := [Clear(id)];
      ScheduleSnoc(config, c, [], Clear(id));
      assert [] + [Clear(id)] == [Clear(id)];
    } else {
      moves := [Work(id)] + [Clear(id)];
      ScheduleSnoc(config, c, [], Work(id));
      assert [] + [Work(id)] == [Work(id)];
      ClearAfterWork(config, c, id);
      ScheduleSnoc(config, c, [Work(id)], Clear(id));
    }
  }

  lemma ClearAfterWork(config: Config, c: World, id: Node)
    requires Tracks(config, c) && id in c.steps && c.steps[id] == PENDING && LowerDone(config, c, id)
    requires Possible(config, c, Work(id)) && Gone(Worked(c.entities[id]))
    ensures Possible(config, Make(config, c, Work(id)), Clear(id))
    ensures Make(config, Make(config, c, Work(id)), Clear(id))
         == World(c.entities[id := Cleared(c.entities[id])], c.steps[id := DONE])
  {
    MakeGrows(config, c, Work(id));
    AheadAllows(config, c, Make(config, c, Work(id)), id);
  }

  lemma OneMoreCleared(config: Config, w: World, c: World, j: nat)
    requires OnePerResource(config.plan) && ClearedFirst(config, w, c, j) && j < |config.plan|
    ensures var id := config.plan[j].resourceId;
            && id in c.entities
            && ClearedFirst(config, w, World(c.entities[id := Cleared(c.entities[id])], c.steps[id := DONE]), j + 1)
  {
    var id := config.plan[j].resourceId;
    var c' := World(c.entities[id := Cleared(c.entities[id])], c.steps[id := DONE]);
    assert c'.entities.Keys == c.entities.Keys && c'.steps.Keys == c.steps.Keys;
    forall i | 0 <= i < |config.plan|
      ensures c'.steps[config.plan[i].resourceId] == if i < j + 1 then DONE else PENDING
    {
      assert i != j ==> config.plan[i].resourceId != id;
    }
  }

  lemma ClearNext(config: Config, w: World, c: World, j: nat) returns (moves: seq<Move>)
    requires Closed(config) && ClearedFirst(config, w, c, j) && j < |config.plan| && ChildrenLower(config, config.plan[j])
    requires var id := config.plan[j].resourceId; id in w.entities && Removable(w.entities[id], config.approvalFlow)
    ensures Schedule(config, c, moves) && ClearedFirst(config, w, After(config, c, moves), j + 1)
  {
    assert LowerFirst(config, j, config.plan[j]);
    FirstLowerDone(config, w, c, j, config.plan[j]);
    moves := ClearOne(config, w, c, config.plan[j]);
    OneMoreCleared(config, w, c, j);
  }

  /** As far as everything is removable and in order, the plan can be cleared. */
  lemma {:induction false} ClearFirst(config: Config, w: World, j: nat) returns (moves: seq<Move>)
    requires Closed(config) && Unstarted(config, w) && j <= |config.plan|
    requires forall i :: 0 <= i < j ==>
      && ChildrenLower(config, config.plan[i])
      && config.plan[i].resourceId in w.entities && Removable(w.entities[config.plan[i].resourceId], config.approvalFlow)
    ensures Schedule(config, w, moves) && ClearedFirst(config, w, After(config, w, moves), j)
  {
    if j == 0 {
      moves := [];
      forall i | 0 <= i < |config.plan|
        ensures config.plan[i].resourceId in w.steps
      {
        InPlan(config, w, i);
      }
    } else {
      var earlier := ClearFirst(config, w, j - 1);
      var later := ClearNext(config, w, After(config, w, earlier), j - 1);
      ScheduleConcat(config, w, earlier, later);
      moves := earlier + later;
    }
  }

  /** Some run destroys everything planned if and only if every planned resource can be brought to its end. */
  lemma ClearsIffRemovable(config: Config, w: World)
    requires Layered(config) && Unstarted(config, w)
    ensures (exists events :: Clears(config, w, events))
       <==> forall id :: id in w.steps ==> Removable(w.entities[id], config.approvalFlow)
  {
    ClearsIff(config, w);
    if moves :| ScheduledToEnd(config, w, moves) {
      EndIsRemovable(config, w, moves);
    }
    if forall id :: id in w.steps ==> Removable(w.entities[id], config.approvalFlow) {
      forall i | 0 <= i < |config.plan|
        ensures config.plan[i].resourceId in w.steps && ChildrenLower(config, config.plan[i])
      {
        InPlan(config, w, i);
      }
      var moves := ClearFirst(config, w, |config.plan|);
      AllCleared(config, w, After(config, w, moves));
      assert ScheduledToEnd(config, w, moves);
    }
  }

  lemma AllCleared(config: Config, w: World, c: World)
    requires ClearedFirst(config, w, c, |config.plan|)
    ensures AllGone(config, c)
  {
    forall step | step in config.plan
      ensures step.resourceId in c.entities && Gone(c.entities[step.resourceId])
    {
      var i :| 0 <= i < |config.plan| && config.plan[i] == step;
    }
  }

  lemma EndIsRemovable(config: Config, w: World, moves: seq<Move>)
    requires Unstarted(config, w) && ScheduledToEnd(config, w, moves)
    ensures forall id :: id in w.steps ==> Removable(w.entities[id], config.approvalFlow)
  {
    forall id | id in w.steps
      ensures Removable(w.entities[id], config.approvalFlow)
    {
      assert Planned(config.plan, id);
      RemovableBefore(config, w, moves, id);
    }
  }

  /**
   * A cascade destroy of resources that the destroy action accepts can succeed if and only if no cycle is reachable
   * from the root and each resource, once set to be destroyed, can be: by a worker, or by an approval if it is abstract.
   */
  lemma CascadeClearsIffAcyclic(db: Database, root: Node, rows: seq<Row>, height: int, config: Config, w: World)
    requires Planning(db, root, rows, height, config.plan) && config.links == db.links
    requires Unstarted(config, w) && forall id :: id in w.steps ==> Destroyable(w.entities[id])
    ensures (exists events :: Clears(config, w, events))
       <==> Acyclic(db, root) && forall id :: id in w.steps ==> Ends(w.entities[id], config.approvalFlow)
  {
    LayeredIffAcyclic(db, root, rows, height, config);
    DestroyablesRemovable(config, w);
    if Acyclic(db, root) {
      ClearsIffRemovable(config, w);
    } else {
      var nodes := CycleNodes(ReachableLinks(db, root));
      CyclicNeverClears(db, root, rows, height, config, w, nodes);
    }
  }

  lemma DestroyablesRemovable(config: Config, w: World)
    requires Tracks(config, w) && forall id :: id in w.steps ==> Destroyable(w.entities[id])
    ensures forall id :: id in w.steps ==>
      Standing(w.entities[id]) && (Removable(w.entities[id], config.approvalFlow) <==> Ends(w.entities[id], config.approvalFlow))
  {
  }

  // What goes wrong without cycles.

  lemma {:induction false} InTimeMore(links: Edges, entities: map<Node, Entity>, v: Node, n: nat)
    requires v in entities && InTime(links, entities, v, n)
    ensures InTime(links, entities, v, n + 1)
  {
    if n > 0 && ParentsInTime(links, entities, v, n - 1) {
      forall e | e in links && e.1 == v && e.0 in entities
        ensures InTime(links, entities, e.0, n)
      {
        InTimeMore(links, entities, e.0, n - 1);
      }
    }
  }

  /** While a dependent has not passed, a resource it depends on becomes ready only in time. */
  lemma {:induction false} ReadyInTime(config: Config, w: World, moves: seq<Move>, v: Node, u: Node)
    requires Layered(config) && Unstarted(config, w) && Schedule(config, w, moves)
    requires (v, u) in config.links && v in w.entities && u in w.entities
    requires !Passed(After(config, w, moves).entities[u]) && ParentReady(After(config, w, moves).entities[v])
    ensures InTime(config.links, w.entities, v, |moves|)
  {
    if moves != [] {
      var n := |moves| - 1;
      var c := After(config, w, moves[..n]);
      MakeGrows(config, c, moves[n]);
      if ParentReady(c.entities[v]) {
        ReadyInTime(config, w, moves[..n], v, u);
        InTimeMore(config.links, w.entities, v, n);
      } else {
        SettledAtStart(config, w, moves[..n]);
        MadeReady(config, w, c, moves[n], v, u);
        if w.entities[v].status == QUEUED {
          forall e | e in config.links && e.1 == v && e.0 in w.entities
            ensures InTime(config.links, w.entities, e.0, n)
          {
            assert e == (e.0, v);
            ReadyInTime(config, w, moves[..n], e.0, v);
          }
          assert ParentsInTime(config.links, w.entities, v, n);
        }
      }
    }
  }

  /** Only a worker makes it ready, one that is at it already or finds its own parents ready. */
  lemma MadeReady(config: Config, w: World, c: World, move: Move, v: Node, u: Node)
    requires Layered(config) && Tracks(config, w) && Tracks(config, c) && Settled(w, c) && Possible(config, c, move)
    requires (v, u) in config.links && v in c.entities && u in c.entities && !Passed(c.entities[u])
    requires !ParentReady(c.entities[v]) && ParentReady(Make(config, c, move).entities[v])
    ensures c.entities[v] == w.entities[v] && w.entities[v].versioned
    ensures w.entities[v].status == IN_PROGRESS
         || (w.entities[v].status == QUEUED && w.entities[v].state == PROVISION && ParentsReady(config.links, c.entities, v))
  {
    var link := (v, u);
    assert link.0 == v && link.1 == u;
    if move.Clear? {
      var step := StepOf(config, c, v);
      TurnFindsGone(config, w, c, step);
      assert false;
    }
  }

  /** How a waiting resource has come to be what it is. */
  ghost predicate Traced(config: Config, w: World, x: Entity, id: Node)
    requires id in w.entities
  {
    var e := w.entities[id];
    x == e
    || (x == Worked(e) && e.versioned
        && (e.status == IN_PROGRESS || (e.status == QUEUED && (Standing(e) ==> GetsReady(config.links, w.entities, id)))))
  }

  lemma {:induction false} WaitingTraced(config: Config, w: World, moves: seq<Move>, id: Node)
    requires Layered(config) && Unstarted(config, w) && Schedule(config, w, moves)
    requires id in w.steps && After(config, w, moves).steps[id] == PENDING
    ensures Traced(config, w, After(config, w, moves).entities[id], id)
  {
    if moves != [] {
      var n := |moves| - 1;
      var c := After(config, w, moves[..n]);
      MakeGrows(config, c, moves[n]);
      SettledAtStart(config, w, moves[..n]);
      WaitingTraced(config, w, moves[..n], id);
      if moves[n] == Work(id) && c.entities[id].status == QUEUED && Standing(c.entities[id]) {
        ReadyParentsInTime(config, w, moves[..n], id);
      }
    }
  }

  /** Parents found ready by a resource that has not passed were so in time. */
  lemma ReadyParentsInTime(config: Config, w: World, moves: seq<Move>, id: Node)
    requires Layered(config) && Unstarted(config, w) && Schedule(config, w, moves) && id in w.entities
    requires !Passed(After(config, w, moves).entities[id]) && ParentsReady(config.links, After(config, w, moves).entities, id)
    ensures GetsReady(config.links, w.entities, id)
  {
    forall e | e in config.links && e.1 == id && e.0 in w.entities
      ensures InTime(config.links, w.entities, e.0, |moves|)
    {
      assert e == (e.0, id);
      ReadyInTime(config, w, moves, e.0, id);
    }
    assert ParentsInTime(config.links, w.entities, id, |moves|);
  }

  /** A resource refused although all its dependents are gone was treacherous from the start. */
  lemma RefusedTreacherous(config: Config, w: World, x: Entity, id: Node, parentsReady: bool)
    requires id in w.entities && Traced(config, w, x, id)
    requires (x.state == DESTROY && x.status == DONE) || (Standing(x) && !Destroyable(x))
    requires GoesOn(x, parentsReady) && (parentsReady && x == w.entities[id] && !Passed(x) ==> GetsReady(config.links, w.entities, id))
    ensures Treacherous(w.entities[id], GetsReady(config.links, w.entities, id))
  {
  }

  lemma LowerWereRemovable(config: Config, w: World, moves: seq<Move>, step: Step)
    requires Closed(config) && Unstarted(config, w) && Schedule(config, w, moves) && step in config.plan
    requires LowerDone(config, After(config, w, moves), step.resourceId)
    ensures LowerRemovable(config, w, step)
  {
    var c := After(config, w, moves);
    SettledAtStart(config, w, moves);
    forall other | other in config.plan && other.position < step.position
      ensures Removable(w.entities[other.resourceId], config.approvalFlow)
    {
      assert Planned(config.plan, other.resourceId);
      LowerStepsDone(config, c, step, other);
      RemovableBefore(config, w, moves, other.resourceId);
    }
  }

  lemma {:induction false} SparedStays(config: Config, w: World, moves: seq<Move>, id: Node)
    requires Tracks(config, w) && Schedule(config, w, moves) && Spares(moves, id) && id in w.entities
    ensures After(config, w, moves).entities[id] == w.entities[id]
  {
    if moves != [] {
      var n := |moves| - 1;
      assert moves[n].id != id;
      SparedStays(config, w, moves[..n], id);
      MakeGrows(config, After(config, w, moves[..n]), moves[n]);
    }
  }

  /** At its turn, a resource with only lower dependents is refused for what it is. */
  lemma RefusedAsSuch(config: Config, w: World, moves: seq<Move>, step: Step)
    requires Layered(config) && Unstarted(config, w) && Schedule(config, w, moves) && step in config.plan
    requires Refused(config, After(config, w, moves), step.resourceId)
    ensures var x := After(config, w, moves).entities[step.resourceId];
            (x.state == DESTROY && x.status == DONE) || (Standing(x) && !Destroyable(x))
  {
    SettledAtStart(config, w, moves);
    assert ChildrenLower(config, step);
    TurnFindsGone(config, w, After(config, w, moves), step);
  }

  lemma AstrayIsThreatened(config: Config, w: World, before: seq<Move>, after: seq<Move>, step: Step)
    requires Layered(config) && Unstarted(config, w) && step in config.plan
    requires LeadsAstray(config, w, before, after, step.resourceId)
    ensures Threatened(config, w, step)
  {
    var id, c1 := step.resourceId, After(config, w, before);
    var c2 := After(config, c1, after);
    LowerWereRemovable(config, w, before, step);
    RefusedAsSuch(config, w, before, step);
    WaitingTraced(config, w, before, id);
    SparedStays(config, c1, after, id);
    if ParentsReady(config.links, c2.entities, id) && !Passed(c1.entities[id]) {
      ScheduleConcat(config, w, before, after);
      ReadyParentsInTime(config, w, before + after, id);
    }
    RefusedTreacherous(config, w, c1.entities[id], id, ParentsReady(config.links, c2.entities, id));
  }

  // And that it does go wrong.

  /** Outside the plan, or at a higher position. */
  ghost predicate Above(config: Config, step: Step, v: Node) {
    forall other :: other in config.plan && other.resourceId == v ==> other.position > step.position
  }

  ghost predicate AllAbove(config: Config, step: Step, moves: seq<Move>) {
    forall i :: 0 <= i < |moves| ==> Above(config, step, moves[i].id)
  }

  /** What a resource depends on lies above it. */
  lemma ParentAbove(config: Config, step: Step, p: Node, v: Node)
    requires Layered(config) && step in config.plan && (p, v) in config.links && (v == step.resourceId || Above(config, step, v))
    ensures Above(config, step, p)
  {
    forall other | other in config.plan && other.resourceId == p
      ensures other.position > step.position
    {
      assert Planned(config.plan, (p, v).0) && Planned(config.plan, (p, v).1);
      var child :| child in config.plan && child.resourceId == v;
      assert ChildrenLower(config, other) && child.position < other.position;
      if v == step.resourceId {
        SameStep(config.plan, child, step);
      }
    }
  }

  lemma AboveSpares(config: Config, step: Step, moves: seq<Move>)
    requires step in config.plan && AllAbove(config, step, moves)
    ensures Spares(moves, step.resourceId)
  {
    forall i | 0 <= i < |moves|
      ensures moves[i].id != step.resourceId
    {
      assert Above(config, step, moves[i].id);
    }
  }

  lemma {:induction false} ScheduleGrows(config: Config, w: World, moves: seq<Move>)
    requires Tracks(config, w) && Schedule(config, w, moves)
    ensures Ahead(w, After(config, w, moves))
  {
    if moves != [] {
      var n := |moves| - 1;
      ScheduleGrows(config, w, moves[..n]);
      MakeGrows(config, After(config, w, moves[..n]), moves[n]);
    }
  }

  /** A continuation of the schedule from c that keeps to what lies above the step. */
  ghost predicate Upward(config: Config, w: World, c: World, step: Step, moves: seq<Move>) {
    && Tracks(config, w) && Tracks(config, c) && Schedule(config, c, moves)
    && AllAbove(config, step, moves) && Settled(w, After(config, c, moves)) && Ahead(c, After(config, c, moves))
  }

  lemma UpwardNothing(config: Config, w: World, c: World, step: Step)
    requires Tracks(config, w) && Tracks(config, c) && Settled(w, c)
    ensures Upward(config, w, c, step, []) && After(config, c, []) == c
  {
  }

  lemma UpwardOne(config: Config, w: World, c: World, step: Step, v: Node)
    requires Tracks(config, w) && Tracks(config, c) && Settled(w, c) && Above(config, step, v) && Possible(config, c, Work(v))
    ensures Upward(config, w, c, step, [Work(v)]) && After(config, c, [Work(v)]) == Make(config, c, Work(v))
  {
    ScheduleSnoc(config, c, [], Work(v));
    assert [] + [Work(v)] == [Work(v)];
    ScheduleSettles(config, w, c, [Work(v)]);
    ScheduleGrows(config, c, [Work(v)]);
  }

  lemma UpwardTwice(config: Config, w: World, c: World, step: Step, a: seq<Move>, b: seq<Move>)
    requires Upward(config, w, c, step, a) && Upward(config, w, After(config, c, a), step, b)
    ensures Upward(config, w, c, step, a + b) && After(config, c, a + b) == After(config, After(config, c, a), b)
  {
    ScheduleConcat(config, c, a, b);
    ScheduleGrows(config, c, a + b);
  }

  /** Workers make ready what can be ready in time. */
  lemma {:induction false} MakeReady(config: Config, w: World, c: World, step: Step, v: Node, n: nat) returns (moves: seq<Move>)
    requires Layered(config) && Tracks(config, w) && Tracks(config, c) && Settled(w, c) && step in config.plan
    requires v in w.entities && Above(config, step, v) && InTime(config.links, w.entities, v, n)
    ensures Upward(config, w, c, step, moves) && ParentReady(After(config, c, moves).entities[v])
    decreases n, 0
  {
    if ParentReady(c.entities[v]) {
      moves := [];
      UpwardNothing(config, w, c, step);
    } else if c.entities[v].status == IN_PROGRESS {
      moves := [Work(v)];
      UpwardOne(config, w, c, step, v);
    } else {
      var earlier := MakeParentsReady(config, w, c, step, v, n - 1, set e | e in config.links && e.1 == v && e.0 in w.entities :: e.0);
      var c1 := After(config, c, earlier);
      if ParentReady(c1.entities[v]) {
        moves := earlier;
      } else {
        UpwardOne(config, w, c1, step, v);
        UpwardTwice(config, w, c, step, earlier, [Work(v)]);
        moves := earlier + [Work(v)];
      }
    }
  }

  lemma {:induction false} MakeParentsReady(config: Config, w: World, c: World, step: Step, v: Node, n: nat, parents: set<Node>)
    returns (moves: seq<Move>)
    requires Layered(config) && Tracks(config, w) && Tracks(config, c) && Settled(w, c) && step in config.plan
    requires v == step.resourceId || Above(config, step, v)
    requires ParentsInTime(config.links, w.entities, v, n)
    requires forall p :: p in parents ==> p in w.entities && (p, v) in config.links
    ensures Upward(config, w, c, step, moves)
    ensures forall p :: p in parents ==> ParentReady(After(config, c, moves).entities[p])
    decreases n, 1, parents
  {
    if parents == {} {
      moves := [];
      UpwardNothing(config, w, c, step);
    } else {
      var p := AnyElement(parents);
      assert (p, v).0 == p && (p, v).1 == v;
      ParentAbove(config, step, p, v);
      var first := MakeReady(config, w, c, step, p, n);
      var c1 := After(config, c, first);
      var rest := MakeParentsReady(config, w, c1, step, v, n, parents - {p});
      UpwardTwice(config, w, c, step, first, rest);
      moves := first + rest;
    }
  }

  /** Where the position of a step begins. */
  lemma PositionBegins(config: Config, step: Step) returns (j: nat)
    requires AscendingPositions(config.plan) && step in config.plan
    ensures j < |config.plan|
    ensures forall i :: 0 <= i < |config.plan| ==> (i < j <==> config.plan[i].position < step.position)
  {
    var k :| 0 <= k < |config.plan| && config.plan[k] == step;
    j := 0;
    while config.plan[j].position < step.position
      invariant 0 <= j <= k
      invariant forall i :: 0 <= i < j ==> config.plan[i].position < step.position
      decreases k - j
    {
      j := j + 1;
    }
  }

  /** The turn of a step has come, and everything that does not come before is as it was. */
  ghost predicate TurnOf(config: Config, w: World, c: World, step: Step) {
    && Tracks(config, w) && Tracks(config, c) && Settled(w, c)
    && step.resourceId in c.steps && c.steps[step.resourceId] == PENDING && LowerDone(config, c, step.resourceId)
    && forall other :: other in config.plan && other.position >= step.position ==>
         && other.resourceId in w.entities && other.resourceId in c.entities
         && c.entities[other.resourceId] == w.entities[other.resourceId]
  }

  /** When everything at lower positions can be cleared, the turn of the step comes. */
  lemma ReachTurn(config: Config, w: World, step: Step) returns (moves: seq<Move>)
    requires Closed(config) && Unstarted(config, w) && step in config.plan && LowerRemovable(config, w, step)
    requires forall other :: other in config.plan && other.position < step.position ==> ChildrenLower(config, other)
    ensures Schedule(config, w, moves) && TurnOf(config, w, After(config, w, moves), step)
  {
    var j := PositionBegins(config, step);
    forall i | 0 <= i < |config.plan|
      ensures config.plan[i] in config.plan && config.plan[i].resourceId in w.entities
    {
      InPlan(config, w, i);
    }
    moves := ClearFirst(config, w, j);
    FirstLowerDone(config, w, After(config, w, moves), j, step);
    FirstIsTurn(config, w, After(config, w, moves), j, step);
  }

  lemma FirstIsTurn(config: Config, w: World, c: World, j: nat, step: Step)
    requires ClearedFirst(config, w, c, j) && step in config.plan && LowerDone(config, c, step.resourceId)
    requires forall i :: 0 <= i < |config.plan| ==> (i < j <==> config.plan[i].position < step.position)
    ensures TurnOf(config, w, c, step)
  {
    forall other | other in config.plan && other.position >= step.position
      ensures other.resourceId in c.steps && c.steps[other.resourceId] == PENDING
    {
      var i :| 0 <= i < |config.plan| && config.plan[i] == other;
    }
  }

  /** Where the turn of a threatened step has come, its parents are made ready if they can be. */
  lemma ThreatContinues(config: Config, w: World, c: World, step: Step) returns (moves: seq<Move>)
    requires Layered(config) && TurnOf(config, w, c, step) && step in config.plan
    ensures Upward(config, w, c, step, moves)
    ensures GetsReady(config.links, w.entities, step.resourceId) ==>
      ParentsReady(config.links, After(config, c, moves).entities, step.resourceId)
  {
    var id := step.resourceId;
    if n :| ParentsInTime(config.links, w.entities, id, n) {
      var parents := set e | e in config.links && e.1 == id && e.0 in w.entities :: e.0;
      moves := MakeParentsReady(config, w, c, step, id, n, parents);
    } else {
      moves := [];
      UpwardNothing(config, w, c, step);
    }
  }

  lemma ThreatIsRefused(config: Config, w: World, c: World, step: Step)
    requires TurnOf(config, w, c, step) && step in config.plan && Threatened(config, w, step)
    ensures Refused(config, c, step.resourceId)
    ensures c.entities[step.resourceId] == w.entities[step.resourceId]
  {
  }

  lemma ThreatenedIsEndangered(config: Config, w: World, step: Step)
    requires Layered(config) && Unstarted(config, w) && step in config.plan && Threatened(config, w, step)
    ensures Endangered(config, w)
  {
    var id := step.resourceId;
    var before := ReachTurn(config, w, step);
    var c := After(config, w, before);
    var after := ThreatContinues(config, w, c, step);
    AboveSpares(config, step, after);
    SparedStays(config, c, after, id);
    ThreatIsRefused(config, w, c, step);
    AstrayOnTheWay(config, w, before, after, After(config, c, after), id);
  }

  /**
   * Without cycles, some run marks a step done whose resource stands if and only if, before it starts, some planned
   * resource is refused in every case and yet can reach the status done, and everything at lower positions
   * can be destroyed.
   */
  lemma WronglyDoneIffTreacherous(config: Config, w: World)
    requires Layered(config) && Unstarted(config, w)
    ensures CanGoWrong(config, w)
       <==> exists step :: step in config.plan && Threatened(config, w, step)
  {
    WronglyDoneIff(config, w);
    if before, after, id :| LeadsAstray(config, w, before, after, id) {
      var step := StepOf(config, w, id);
      AstrayIsThreatened(config, w, before, after, step);
    }
    if step :| step in config.plan && Threatened(config, w, step) {
      ThreatenedIsEndangered(config, w, step);
    }
  }

  /** Without cycles and while nothing is wrongly done, the destroy action accepts what it can destroy at its turn. */
  lemma CascadeNeverBlocked(config: Config, w: World, events: seq<Event>, step: Step)
    requires Layered(config) && Unstarted(config, w) && !CanGoWrong(config, w) && step in config.plan
    ensures var w', id := Execute(config, w, events), step.resourceId;
            && id in w'.steps
            && (LowerDone(config, w', id) && Destroyable(w'.entities[id]) ==>
                  ActionDestroy(config.links, w'.entities, id, config.approvalFlow).Success?)
  {
    var w', id := Execute(config, w, events), step.resourceId;
    assert Planned(config.plan, id) && !WronglyDone(w');
    if LowerDone(config, w', id) {
      LowerAreGone(config, w', step);
    }
  }

  lemma LowerAreGone(config: Config, w: World, step: Step)
    requires Layered(config) && Tracks(config, w) && !WronglyDone(w) && step in config.plan && LowerDone(config, w, step.resourceId)
    ensures ChildrenGone(config.links, w.entities, step.resourceId)
  {
    assert ChildrenLower(config, step);
    forall e | e in config.links && e.0 == step.resourceId && e.1 in w.entities
      ensures Gone(w.entities[e.1])
    {
      assert Planned(config.plan, e.0) && Planned(config.plan, e.1);
      var child :| child in config.plan && child.resourceId == e.1;
      assert (step.resourceId, child.resourceId) == e;
      LowerStepsDone(config, w, step, child);
    }
  }

  // Resources at rest, with or without cycles.

  /** But for staged edits the destroy action accepts it, it can be destroyed then, and if executed instead it is done. */
  ghost predicate Settleable(config: Config, w: World, id: Node)
    requires id in w.entities
  {
    var e := w.entities[id];
    Destroyable(e.(edits := NoEdits)) && Ends(e, config.approvalFlow) && GoesOn(e, ParentsReady(config.links, w.entities, id))
  }

  /** The destroy action will refuse the resource at its turn. */
  ghost predicate Amiss(config: Config, w: World, step: Step)
    requires Tracks(config, w) && step in config.plan
  {
    !ChildrenLower(config, step) || w.entities[step.resourceId].edits != NoEdits
  }

  /** A first step that is amiss. */
  lemma {:induction false} FirstAmiss(config: Config, w: World, step: Step) returns (first: Step)
    requires Tracks(config, w) && step in config.plan && Amiss(config, w, step)
    ensures first in config.plan && Amiss(config, w, first)
    ensures forall other :: other in config.plan && other.position < first.position ==> !Amiss(config, w, other)
    decreases step.position
  {
    if other :| other in config.plan && other.position < step.position && Amiss(config, w, other) {
      first := FirstAmiss(config, w, other);
    } else {
      first := step;
    }
  }

  lemma AmissIsRefused(config: Config, w: World, c: World, step: Step)
    requires Closed(config) && TurnOf(config, w, c, step) && step in config.plan && Amiss(config, w, step)
    requires forall id :: id in w.steps ==> Destroyable(w.entities[id].(edits := NoEdits))
    ensures Refused(config, c, step.resourceId)
  {
    var id := step.resourceId;
    assert Planned(config.plan, id);
    if !ChildrenLower(config, step) {
      var child :| child in config.plan && (id, child.resourceId) in config.links && child.position >= step.position;
      assert Planned(config.plan, child.resourceId);
      assert (id, child.resourceId).0 == id && (id, child.resourceId).1 == child.resourceId;
    }
  }

  /** And goes on all the same. */
  lemma AmissAtTurn(config: Config, w: World, c: World, step: Step)
    requires Closed(config) && TurnOf(config, w, c, step) && step in config.plan && Amiss(config, w, step) && Ahead(w, c)
    requires forall id :: id in w.steps ==> Settleable(config, w, id)
    ensures Refused(config, c, step.resourceId)
    ensures GoesOn(c.entities[step.resourceId], ParentsReady(config.links, c.entities, step.resourceId))
  {
    forall id | id in w.steps
      ensures Destroyable(w.entities[id].(edits := NoEdits))
    {
      assert Settleable(config, w, id);
    }
    AmissIsRefused(config, w, c, step);
    AheadAllows(config, w, c, step.resourceId);
    assert Planned(config.plan, step.resourceId) && Settleable(config, w, step.resourceId);
  }

  lemma AmissIsEndangered(config: Config, w: World, step: Step)
    requires Closed(config) && Unstarted(config, w) && forall id :: id in w.steps ==> Settleable(config, w, id)
    requires step in config.plan && Amiss(config, w, step)
    ensures Endangered(config, w)
  {
    var first := FirstAmiss(config, w, step);
    forall other | other in config.plan && other.position < first.position
      ensures ChildrenLower(config, other)
      ensures Removable(w.entities[other.resourceId], config.approvalFlow)
    {
      assert Planned(config.plan, other.resourceId) && !Amiss(config, w, other) && Settleable(config, w, other.resourceId);
    }
    var moves := ReachTurn(config, w, first);
    ScheduleGrows(config, w, moves);
    AmissAtTurn(config, w, After(config, w, moves), first);
    AstrayOnTheWay(config, w, moves, [], After(config, w, moves), first.resourceId);
  }

  /**
   * For any links: when all planned resources are at rest, exactly a cycle reachable from the root, or staged edits
   * of one of them, lets some run mark a step done whose resource stands.
   */
  lemma RestingGoesWrongIff(db: Database, root: Node, rows: seq<Row>, height: int, config: Config, w: World)
    requires Planning(db, root, rows, height, config.plan) && config.links == db.links
    requires Unstarted(config, w) && forall id :: id in w.steps ==> Settleable(config, w, id)
    ensures CanGoWrong(config, w) <==> !Acyclic(db, root) || exists id :: id in w.steps && w.entities[id].edits != NoEdits
  {
    LayeredIffAcyclic(db, root, rows, height, config);
    WronglyDoneIff(config, w);
    if step :| step in config.plan && Amiss(config, w, step) {
      AmissIsEndangered(config, w, step);
    } else {
      NothingAmiss(config, w);
    }
  }

  lemma NothingAmiss(config: Config, w: World)
    requires Closed(config) && Unstarted(config, w) && forall id :: id in w.steps ==> Settleable(config, w, id)
    requires forall step :: step in config.plan ==> !Amiss(config, w, step)
    ensures Layered(config) && !CanGoWrong(config, w) && forall id :: id in w.steps ==> w.entities[id].edits == NoEdits
  {
    forall id | id in w.steps
      ensures w.entities[id].edits == NoEdits
    {
      var step := StepOf(config, w, id);
      assert !Amiss(config, w, step);
    }
    WronglyDoneIffTreacherous(config, w);
    forall step | step in config.plan
      ensures !Threatened(config, w, step)
    {
      assert Settleable(config, w, step.resourceId);
    }
  }

  // Instances.

  /** One resource without links, and its step. */
  lemma Alone(config: Config, w: World, id: Node, template: Node, e: Entity)
    requires config == Config({}, [Step(id, template, 0)], config.approvalFlow) && w == World(map[id := e], map[id := PENDING])
    ensures Layered(config) && Unstarted(config, w)
  {
    assert config.plan[0] in config.plan && Planned(config.plan, id);
  }

  /** What creating and executing an abstract resource without a version leaves behind is destroyed only by an approval. */
  lemma AbstractNeedsApproval(id: Node, template: Node, approvalFlow: bool)
    ensures var config := Config({}, [Step(id, template, 0)], approvalFlow);
            var w := World(map[id := Entity(PROVISION, ERROR, true, false, NoEdits)], map[id := PENDING]);
            Tracks(config, w) && (approvalFlow <==> exists events :: Clears(config, w, events))
  {
    var config := Config({}, [Step(id, template, 0)], approvalFlow);
    var w := World(map[id := Entity(PROVISION, ERROR, true, false, NoEdits)], map[id := PENDING]);
    Alone(config, w, id, template, Entity(PROVISION, ERROR, true, false, NoEdits));
    ClearsIffRemovable(config, w);
    assert id in w.steps;
  }

  /** One resource at rest without links goes wrong exactly when edits are staged for it. */
  lemma StagedEditsGoWrong(id: Node, template: Node, edits: Edits, approvalFlow: bool)
    ensures var config := Config({}, [Step(id, template, 0)], approvalFlow);
            var w := World(map[id := Entity(PROVISIONED, DONE, false, true, edits)], map[id := PENDING]);
            Tracks(config, w) && (edits != NoEdits <==> CanGoWrong(config, w))
  {
    var config := Config({}, [Step(id, template, 0)], approvalFlow);
    var w := World(map[id := Entity(PROVISIONED, DONE, false, true, edits)], map[id := PENDING]);
    Alone(config, w, id, template, Entity(PROVISIONED, DONE, false, true, edits));
    WronglyDoneIffTreacherous(config, w);
    assert config.plan[0] in config.plan;
    if edits != NoEdits {
      assert Threatened(config, w, config.plan[0]);
    }
  }

  /** A parent that is not ready and that nobody works on is in the way. */
  lemma IdleParentHoldsUp(links: Edges, entities: map<Node, Entity>, p: Node, v: Node)
    requires (p, v) in links && p in entities && !ParentReady(entities[p]) && entities[p].status !in {QUEUED, IN_PROGRESS}
    ensures !GetsReady(links, entities, v)
  {
    forall n: nat
      ensures !ParentsInTime(links, entities, v, n)
    {
      assert (p, v).0 == p && (p, v).1 == v && !InTime(links, entities, p, n);
    }
  }

  /** Two linked resources that both wait for their first approval: the parent holds up the child's worker, and nothing goes wrong. */
  lemma WaitingParentHoldsUp(parent: Node, child: Node, template: Node, versioned: bool, approvalFlow: bool)
    requires parent != child
    ensures var config := Config({(parent, child)}, [Step(child, template, 0), Step(parent, template, 1)], approvalFlow);
            var e := Entity(PROVISION, APPROVAL_PENDING, false, versioned, NoEdits);
            var w := World(map[parent := e, child := e], map[parent := PENDING, child := PENDING]);
            Tracks(config, w) && !CanGoWrong(config, w)
  {
    var config := Config({(parent, child)}, [Step(child, template, 0), Step(parent, template, 1)], approvalFlow);
    var e := Entity(PROVISION, APPROVAL_PENDING, false, versioned, NoEdits);
    var w := World(map[parent := e, child := e], map[parent := PENDING, child := PENDING]);
    Pair(config, w, parent, child, template, e);
    WronglyDoneIffTreacherous(config, w);
    if step :| step in config.plan && Threatened(config, w, step) {
      PairUnthreatened(config, w, parent, child, e, step);
    }
  }

  lemma Pair(config: Config, w: World, parent: Node, child: Node, template: Node, e: Entity)
    requires config == Config({(parent, child)}, [Step(child, template, 0), Step(parent, template, 1)], config.approvalFlow)
    requires w == World(map[parent := e, child := e], map[parent := PENDING, child := PENDING]) && parent != child
    ensures Layered(config) && Unstarted(config, w)
  {
    assert config.plan[0] in config.plan && config.plan[1] in config.plan;
    assert Planned(config.plan, parent) && Planned(config.plan, child);
  }

  lemma PairUnthreatened(config: Config, w: World, parent: Node, child: Node, e: Entity, step: Step)
    requires Tracks(config, w) && |config.plan| == 2 && config.plan[0].resourceId == child && config.plan[1].resourceId == parent
    requires config.plan[0].position < config.plan[1].position && (parent, child) in config.links && step in config.plan
    requires parent in w.entities && w.entities[parent] == e && child in w.entities && w.entities[child] == e
    requires e.state == PROVISION && e.status == APPROVAL_PENDING && !e.isAbstract && e.edits == NoEdits
    ensures !Threatened(config, w, step)
  {
    if step == config.plan[0] {
      IdleParentHoldsUp(config.links, w.entities, parent, child);
    } else {
      assert config.plan[0] in config.plan && !Removable(w.entities[child], config.approvalFlow);
    }
  }
}
