/** Every run of a cascade destroy comes to rest, unless workers keep failing or the workflow is executed again. */
module DestroyTermination {
  import opened Common
  import opened Graphs
  import opened EntityState
  import opened CascadeDestroy
  import opened DestroyRunner
  import opened DestroySchedule
  import opened DestroyOutcomes
  import opened DestroyMessages

  function StateRank(state: State): nat {
    match state
    case PROVISION => 3
    case PROVISIONED => 2
    case DESTROY => 1
    case DESTROYED => 0
  }

  function StatusRank(status: Status): nat {
    match status
    case APPROVAL_PENDING => 5
    case READY => 4
    case ERROR => 4
    case QUEUED => 3
    case IN_PROGRESS => 2
    case DONE => 1
    case _ => 0
  }

  /** How much can still happen to a resource, failures of its worker aside. */
  function Rank(e: Entity): nat {
    8 * StateRank(e.state) + StatusRank(e.status) + if e.edits.Staged? then 1 else 0
  }

  /** The same for a resource with its step, if it has one; n is the number of steps. */
  function Weight(planned: bool, step: Status, e: Entity, n: nat): nat {
    2 * Rank(e) + if planned then (if step == PENDING && e.status != PENDING then 2 else 0) + (if step == DONE then 0 else n + 1) else 0
  }

  /** Handling a step makes up for the message it sends, and for the steps whose launch its end allows. */
  lemma HandleDescends(step: Status, e: Entity, childrenGone: bool, approvalFlow: bool, n: nat)
    requires step != DONE
    ensures var destroy := Answer(e, childrenGone, approvalFlow);
            var (step', e') := Handle(step, e, destroy);
            Weight(true, step', e', n) + (if Sends(step, e, destroy) then 1 else 0) + (if step' == DONE then n else 0)
              <= Weight(true, step, e, n)
  {
  }

  /** So does a worker for its report, unless it fails. */
  lemma WorkDescends(event: Event, planned: bool, step: Status, e: Entity, may: bool, n: nat)
    requires event.WorkerStart? || event.WorkerDone? || event.WorkerFailed?
    ensures var e' := React(event, DONE, e, false, may, Failure(WrongState)).1;
            && (!event.WorkerFailed? && e' != e ==> Weight(planned, step, e', n) + 2 <= Weight(planned, step, e, n))
            && Weight(planned, step, e', n) <= Weight(planned, step, e, n) + 4
  {
  }

  function WeightAt(w: World, id: Node, n: nat): nat
    requires id in w.entities
  {
    Weight(id in w.steps, if id in w.steps then w.steps[id] else DONE, w.entities[id], n)
  }

  function Total(w: World, ids: seq<Node>, n: nat): nat
    requires forall id :: id in ids ==> id in w.entities
  {
    if ids == [] then 0 else WeightAt(w, ids[0], n) + Total(w, ids[1..], n)
  }

  lemma {:induction false} TotalSame(w: World, w': World, ids: seq<Node>, n: nat)
    requires forall id :: id in ids ==> id in w.entities && id in w'.entities && WeightAt(w', id, n) == WeightAt(w, id, n)
    ensures Total(w', ids, n) == Total(w, ids, n)
  {
    if ids != [] {
      TotalSame(w, w', ids[1..], n);
    }
  }

  /** When one resource changes, the total changes by as much. */
  lemma {:induction false} TotalChanged(w: World, w': World, ids: seq<Node>, id: Node, n: nat)
    requires Distinct(ids) && id in ids && forall other :: other in ids ==> other in w.entities && other in w'.entities
    requires forall other :: other in ids && other != id ==> WeightAt(w', other, n) == WeightAt(w, other, n)
    ensures Total(w', ids, n) + WeightAt(w, id, n) == Total(w, ids, n) + WeightAt(w', id, n)
  {
    if ids[0] == id {
      TotalSame(w, w', ids[1..], n);
    } else {
      TotalChanged(w, w', ids[1..], id, n);
    }
  }

  lemma {:induction false} TotalBounded(w: World, ids: seq<Node>, n: nat)
    requires forall id :: id in ids ==> id in w.entities
    ensures Total(w, ids, n) <= |ids| * (n + 63)
  {
    if ids != [] {
      TotalBounded(w, ids[1..], n);
      assert |ids| * (n + 63) == (n + 63) + |ids[1..]| * (n + 63);
    }
  }

  /** The resources in some order. */
  ghost predicate Lists(ids: seq<Node>, w: World) {
    Distinct(ids) && Elements(ids) == w.entities.Keys
  }

  lemma {:induction false} Listing(nodes: set<Node>) returns (ids: seq<Node>)
    ensures Distinct(ids) && Elements(ids) == nodes
  {
    if nodes == {} {
      ids := [];
    } else {
      var x := AnyElement(nodes);
      var rest := Listing(nodes - {x});
      assert forall id :: id in rest ==> id in Elements(rest);
      ids := [x] + rest;
      assert Elements(ids) == {x} + Elements(rest);
    }
  }

  lemma Listed(ids: seq<Node>, w: World)
    requires Lists(ids, w)
    ensures forall id :: id in ids <==> id in w.entities
  {
    assert forall id :: id in ids <==> id in Elements(ids);
  }

  /** What can still happen without a failure or another execution of the workflow. */
  ghost function Measure(q: Queue, ids: seq<Node>): nat
    requires Lists(ids, q.w)
  {
    Listed(ids, q.w);
    Total(q.w, ids, |q.w.steps|) + |q.calls| + |q.left|
  }

  /** An event about one resource changes the total by what it changes there. */
  lemma TotalMoves(w: World, w': World, ids: seq<Node>, id: Node)
    requires Lists(ids, w) && id in w.entities && w'.entities.Keys == w.entities.Keys && w'.steps.Keys == w.steps.Keys
    requires forall other :: other in w.entities && other != id ==> w'.entities[other] == w.entities[other]
    requires forall other :: other in w.steps && other != id ==> w'.steps[other] == w.steps[other]
    ensures Lists(ids, w') && forall other :: other in ids ==> other in w.entities && other in w'.entities
    ensures var n := |w.steps|; Total(w', ids, n) + WeightAt(w, id, n) == Total(w, ids, n) + WeightAt(w', id, n)
  {
    Listed(ids, w);
    TotalChanged(w, w', ids, id, |w.steps|);
  }

  lemma SameCount(w: World, w': World)
    requires w'.steps.Keys == w.steps.Keys
    ensures |w'.steps| == |w.steps|
  {
    assert |w'.steps| == |w'.steps.Keys| && |w.steps| == |w.steps.Keys|;
  }

  lemma CurrentBounded(config: Config, w: World)
    requires Tracks(config, w)
    ensures |Current(config, w)| <= |w.steps|
  {
    SubsetCardinality(Current(config, w), w.steps.Keys);
  }

  lemma HandledMoves(config: Config, q: Queue, id: Node)
    requires Tracks(config, q.w) && id in q.w.steps && q.w.steps[id] != DONE
    ensures var q', n := Handled(config, q, id), |q.w.steps|;
            && q'.w.entities.Keys == q.w.entities.Keys && q'.w.steps.Keys == q.w.steps.Keys
            && (forall other :: other in q.w.entities && other != id ==> q'.w.entities[other] == q.w.entities[other])
            && (forall other :: other in q.w.steps && other != id ==> q'.w.steps[other] == q.w.steps[other])
            && WeightAt(q'.w, id, n) + |q'.calls| + (if q'.w.steps[id] == DONE then n else 0) <= WeightAt(q.w, id, n) + |q.calls|
  {
    HandleDescends(q.w.steps[id], q.w.entities[id], ChildrenGone(config.links, q.w.entities, id), config.approvalFlow, |q.w.steps|);
  }

  lemma HandledDescends(config: Config, q: Queue, id: Node, ids: seq<Node>)
    requires Tracks(config, q.w) && Lists(ids, q.w) && id in q.w.steps && q.w.steps[id] != DONE
    ensures var q' := Handled(config, q, id);
            Lists(ids, q'.w) && Measure(q', ids) + (if q'.w.steps[id] == DONE then |q.w.steps| else 0) <= Measure(q, ids)
  {
    var q' := Handled(config, q, id);
    HandledMoves(config, q, id);
    SameCount(q.w, q'.w);
    TotalMoves(q.w, q'.w, ids, id);
  }

  lemma DeliverDescends(config: Config, q: Queue, id: Node, ids: seq<Node>)
    requires Tracks(config, q.w) && Lists(ids, q.w)
    ensures var q' := Happen(config, q, Deliver(id));
            Lists(ids, q'.w) && (q' == q || Measure(q', ids) < Measure(q, ids))
    ensures q.left == {} && id in q.calls && id in q.w.steps ==> Happen(config, q, Deliver(id)) != q
  {
    if q.left == {} && id in q.calls && id in q.w.steps {
      var q1 := q.(calls := q.calls - multiset{id});
      assert q.calls == q1.calls + multiset{id};
      if q.w.steps[id] != DONE {
        HandledDescends(config, q1, id, ids);
        CurrentBounded(config, Handled(config, q1, id).w);
        SameCount(q.w, Handled(config, q1, id).w);
      }
    }
  }

  lemma TurnDescends(config: Config, q: Queue, id: Node, ids: seq<Node>, calm: bool)
    requires Orderly(config, q, calm) && Lists(ids, q.w)
    ensures var q' := Happen(config, q, Turn(id));
            Lists(ids, q'.w) && (q' == q || Measure(q', ids) < Measure(q, ids))
    ensures id in q.left ==> Happen(config, q, Turn(id)) != q
  {
    if id in q.left && id in q.w.steps {
      HandledDescends(config, q, id, ids);
      LeftBounded(config, q, Handled(config, q, id), id);
    }
  }

  /** Fewer steps are left to handle at the position, unless this one has ended. */
  lemma LeftBounded(config: Config, q: Queue, q2: Queue, id: Node)
    requires Tracks(config, q.w) && Tracks(config, q2.w) && id in q.left && q2.left == q.left && id in q2.w.steps
    requires q2.w.steps.Keys == q.w.steps.Keys
    ensures var q', ended := AfterTurn(config, q2, id), q2.w.steps[id] == DONE;
            q' == q2.(left := q'.left) && |q'.left| < |q.left| + if ended then |q.w.steps| else 0
  {
    CurrentBounded(config, q2.w);
    SameCount(q.w, q2.w);
    var step := StepOf(config, q2.w, id);
  }

  /** What a worker's event leaves alone. */
  lemma WorkMoves(config: Config, q: Queue, event: Event)
    requires Tracks(config, q.w) && event.id in q.w.entities && (event.WorkerStart? || event.WorkerDone? || event.WorkerFailed?)
    ensures var q', id := AtWork(config, q, event), event.id;
            && q'.w.entities.Keys == q.w.entities.Keys && q'.w.steps == q.w.steps && q'.left == q.left
            && (forall other :: other in q.w.entities && other != id ==> q'.w.entities[other] == q.w.entities[other])
            && q'.w.entities[id] == WorkedOn(config, q, event)
            && |q'.calls| <= |q.calls| + 1 && (q'.w.entities[id] == q.w.entities[id] ==> q' == q)
  {
    WorkerNext(config, q.w, event);
    if WorkedOn(config, q, event) == q.w.entities[event.id] {
      assert q.w.entities[event.id := q.w.entities[event.id]] == q.w.entities;
    }
  }

  ghost function WorkedOn(config: Config, q: Queue, event: Event): Entity
    requires event.id in q.w.entities
  {
    React(event, DONE, q.w.entities[event.id], false, WorkerMay(config.links, q.w.entities, event.id), Failure(WrongState)).1
  }

  lemma WorkWeighs(config: Config, q: Queue, event: Event)
    requires Tracks(config, q.w) && event.id in q.w.entities && (event.WorkerStart? || event.WorkerDone? || event.WorkerFailed?)
    ensures var q', id, n := AtWork(config, q, event), event.id, |q.w.steps|;
            && q'.w.steps == q.w.steps && id in q'.w.entities
            && (!event.WorkerFailed? && q' != q ==> WeightAt(q'.w, id, n) + |q'.calls| < WeightAt(q.w, id, n) + |q.calls|)
            && WeightAt(q'.w, id, n) + |q'.calls| <= WeightAt(q.w, id, n) + |q.calls| + 5
  {
    var id := event.id;
    WorkMoves(config, q, event);
    WorkDescends(event, id in q.w.steps, if id in q.w.steps then q.w.steps[id] else DONE, q.w.entities[id],
                 WorkerMay(config.links, q.w.entities, id), |q.w.steps|);
  }

  lemma WorkDescent(config: Config, q: Queue, event: Event, ids: seq<Node>)
    requires Tracks(config, q.w) && Lists(ids, q.w) && (event.WorkerStart? || event.WorkerDone? || event.WorkerFailed?)
    ensures var q' := AtWork(config, q, event);
            && Lists(ids, q'.w) && (!event.WorkerFailed? && q' != q ==> Measure(q', ids) < Measure(q, ids))
            && Measure(q', ids) <= Measure(q, ids) + 5
  {
    if event.id in q.w.entities {
      WorkMoves(config, q, event);
      WorkWeighs(config, q, event);
      TotalMoves(q.w, AtWork(config, q, event).w, ids, event.id);
    }
  }

  /** An execution of the workflow, or a failure of a worker. */
  predicate Intervenes(h: Happening) {
    h.Begin? || h.Fail?
  }

  /** Whatever happens uses up some of the measure; an intervention adds to it by a bounded amount. */
  lemma HappenDescends(config: Config, q: Queue, h: Happening, ids: seq<Node>, calm: bool)
    requires Orderly(config, q, calm) && Lists(ids, q.w)
    ensures var q' := Happen(config, q, h);
            && Lists(ids, q'.w)
            && (!Intervenes(h) && q' != q ==> Measure(q', ids) < Measure(q, ids))
            && (Intervenes(h) ==> Measure(q', ids) <= Measure(q, ids) + |q.w.steps| + 5)
  {
    match h {
      case Begin => CurrentBounded(config, q.w);
      case Deliver(id) => DeliverDescends(config, q, id, ids);
      case Turn(id) => TurnDescends(config, q, id, ids, calm);
      case Start(id) => WorkDescent(config, q, WorkerStart(id), ids);
      case Finish(id) => WorkDescent(config, q, WorkerDone(id), ids);
      case Fail(id) => WorkDescent(config, q, WorkerFailed(id), ids);
    }
  }

  /** How many of the happenings changed anything. */
  ghost function Effects(config: Config, w: World, happenings: seq<Happening>): nat
    requires Tracks(config, w)
  {
    if happenings == [] then 0
    else
      var before := happenings[..|happenings| - 1];
      Effects(config, w, before) + if Run(config, w, happenings) != Run(config, w, before) then 1 else 0
  }

  function Interventions(happenings: seq<Happening>): nat {
    if happenings == [] then 0
    else Interventions(happenings[..|happenings| - 1]) + if Intervenes(happenings[|happenings| - 1]) then 1 else 0
  }

  lemma InterventionsTimes(happenings: seq<Happening>, k: nat)
    requires happenings != []
    ensures Interventions(happenings) * k
         == Interventions(happenings[..|happenings| - 1]) * k + if Intervenes(happenings[|happenings| - 1]) then k else 0
  {
    var before := Interventions(happenings[..|happenings| - 1]);
    var all := Interventions(happenings);
    if Intervenes(happenings[|happenings| - 1]) {
      assert all == before + 1;
      Distributes(before, k);
    } else {
      assert all == before;
    }
  }

  lemma Distributes(a: nat, k: nat)
    ensures (a + 1) * k == a * k + k
  {
  }

  /** One more happening pays for its effect. */
  lemma EffectsNext(config: Config, w: World, happenings: seq<Happening>, ids: seq<Node>)
    requires Closed(config) && Unstarted(config, w) && happenings != []
    requires Lists(ids, Run(config, w, happenings[..|happenings| - 1]).w)
    ensures var before, q := Run(config, w, happenings[..|happenings| - 1]), Run(config, w, happenings);
            && Lists(ids, q.w)
            && Effects(config, w, happenings) + Measure(q, ids)
                 <= Effects(config, w, happenings[..|happenings| - 1]) + Measure(before, ids)
                    + if Intervenes(happenings[|happenings| - 1]) then |w.steps| + 6 else 0
  {
    var n := |happenings| - 1;
    var before := Run(config, w, happenings[..n]);
    RunOrderly(config, w, happenings[..n]);
    HappenDescends(config, before, happenings[n], ids, AllQuiet(w));
    SameSteps(config, w, before.w);
    SameCount(w, before.w);
  }

  lemma {:induction false} EffectsMeasured(config: Config, w: World, happenings: seq<Happening>, ids: seq<Node>)
    requires Closed(config) && Unstarted(config, w) && Lists(ids, w)
    ensures var q := Run(config, w, happenings);
            && Lists(ids, q.w)
            && Effects(config, w, happenings) + Measure(q, ids)
                 <= Measure(Queue(w, multiset{}, {}, {}, false), ids) + Interventions(happenings) * (|w.steps| + 6)
  {
    if happenings != [] {
      EffectsMeasured(config, w, happenings[..|happenings| - 1], ids);
      EffectsNext(config, w, happenings, ids);
      InterventionsTimes(happenings, |w.steps| + 6);
    }
  }

  lemma StartMeasured(w: World, ids: seq<Node>)
    requires Lists(ids, w)
    ensures Measure(Queue(w, multiset{}, {}, {}, false), ids) <= |w.entities| * (|w.steps| + 63)
  {
    Listed(ids, w);
    TotalBounded(w, ids, |w.steps|);
    ElementsCardinality(ids);
    assert |ids| == |w.entities.Keys| == |w.entities|;
  }

  /**
   * The number of happenings with an effect is bounded by the number of resources and steps, and of executions of
   * the workflow and failures of workers.
   */
  lemma RunsAreBounded(config: Config, w: World, happenings: seq<Happening>)
    requires Closed(config) && Unstarted(config, w)
    ensures Effects(config, w, happenings) <= |w.entities| * (|w.steps| + 63) + Interventions(happenings) * (|w.steps| + 6)
  {
    var ids := Listing(w.entities.Keys);
    EffectsMeasured(config, w, happenings, ids);
    StartMeasured(w, ids);
  }

  /** A worker that is not let, or that lacks a version: all it can do is fail. */
  ghost predicate CanOnlyFail(config: Config, w: World, id: Node)
    requires id in w.entities
  {
    var e := w.entities[id];
    if e.status == QUEUED then !WorkerMay(config.links, w.entities, id) else !e.versioned
  }

  /** Nothing but an intervention has an effect. */
  ghost predicate Still(config: Config, q: Queue)
    requires Tracks(config, q.w)
  {
    forall h :: !Intervenes(h) ==> Happen(config, q, h) == q
  }

  /** Then the run is at rest, but for workers that can only fail. */
  lemma StillMeansRest(config: Config, w: World, happenings: seq<Happening>)
    requires Closed(config) && Unstarted(config, w) && Still(config, Run(config, w, happenings))
    ensures var q := Run(config, w, happenings);
            && q.calls == multiset{} && q.left == {}
            && forall id :: id in q.w.steps && id in q.w.entities && Busy(q.w.entities[id]) ==> CanOnlyFail(config, q.w, id)
  {
    var q := Run(config, w, happenings);
    RunOrderly(config, w, happenings);
    NothingWaits(config, q, AllQuiet(w));
    forall id | id in q.w.steps && id in q.w.entities && Busy(q.w.entities[id])
      ensures CanOnlyFail(config, q.w, id)
    {
      WorkersCanOnlyFail(config, q, id);
    }
  }

  lemma NothingWaits(config: Config, q: Queue, calm: bool)
    requires Orderly(config, q, calm) && Still(config, q)
    ensures q.calls == multiset{} && q.left == {}
  {
    var ids := Listing(q.w.entities.Keys);
    if id :| id in q.left {
      TurnDescends(config, q, id, ids, calm);
    } else if id :| id in q.calls {
      DeliverDescends(config, q, id, ids);
    }
  }

  lemma WorkersCanOnlyFail(config: Config, q: Queue, id: Node)
    requires Tracks(config, q.w) && Still(config, q) && id in q.w.entities && Busy(q.w.entities[id])
    ensures CanOnlyFail(config, q.w, id)
  {
    assert !Intervenes(Start(id)) && !Intervenes(Finish(id));
    if !CanOnlyFail(config, q.w, id) {
      WorkChanges(config, q, id);
    }
  }

  lemma WorkChanges(config: Config, q: Queue, id: Node)
    requires Tracks(config, q.w) && id in q.w.entities && Busy(q.w.entities[id]) && !CanOnlyFail(config, q.w, id)
    ensures Happen(config, q, Start(id)) != q || Happen(config, q, Finish(id)) != q
  {
    WorkerNext(config, q.w, WorkerStart(id));
    WorkerNext(config, q.w, WorkerDone(id));
    if q.w.entities[id].status == QUEUED {
      assert Next(config, q.w, WorkerStart(id)).entities[id].status == IN_PROGRESS;
    } else {
      assert Next(config, q.w, WorkerDone(id)).entities[id].status == DONE;
    }
  }
}
