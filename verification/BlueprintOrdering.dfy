/**
 * Ordering the templates of a blueprint: Kahn's algorithm with level tracking.
 * The neighbour sets are visited in an arbitrary order, as Python sets are, so
 * everything proved here holds for every iteration order.
 */
module BlueprintOrdering {
  import opened Common
  import opened Graphs

  datatype WiringRule = WiringRule(
    sourceTemplate: Node, sourceOutput: string, targetTemplate: Node, targetVariable: string)

  /** A placed template and its level, the position of its workflow step. */
  type Placement = (Node, nat)

  datatype OrderingError = CircularDependency

  predicate Internal(ids: set<Node>, rule: WiringRule) {
    rule.sourceTemplate in ids && rule.targetTemplate in ids
  }

  /** The wiring restricted to the templates of the blueprint. */
  ghost function WiringEdges(ids: set<Node>, rules: seq<WiringRule>): (edges: Edges)
    ensures forall e :: e in edges ==> e.0 in ids && e.1 in ids
  {
    set rule | rule in rules && Internal(ids, rule) :: (rule.sourceTemplate, rule.targetTemplate)
  }

  function Neighbours(graph: map<Node, set<Node>>, u: Node): set<Node> {
    if u in graph then graph[u] else {}
  }

  ghost function Placed(order: seq<Placement>): set<Node> {
    set i | 0 <= i < |order| :: order[i].0
  }

  /**
   * What the execution order promises: every template exactly once, each at the
   * length of the longest wiring path that ends at it, in non-decreasing order.
   */
  ghost predicate IsLevelOrder(ids: set<Node>, edges: Edges, order: seq<Placement>) {
    && Placed(order) == ids
    && Ascending(order)
    && (forall i :: 0 <= i < |order| ==> LongestPathTo(edges, order[i].0, order[i].1))
  }

  /** What the graph-building loop leaves behind. */
  ghost predicate Represents(
    ids: set<Node>, edges: Edges, graph: map<Node, set<Node>>, inDegree: map<Node, nat>)
  {
    && (forall u, v :: v in Neighbours(graph, u) <==> (u, v) in edges)
    && Remaining(ids, edges, {}, inDegree)
  }

  /** The sources of v that are not yet placed. */
  ghost function PendingSources(edges: Edges, done: set<Node>, v: Node): set<Node> {
    set e | e in edges && e.1 == v && e.0 !in done :: e.0
  }

  /** Every template counts its sources that are not yet placed. */
  ghost predicate Remaining(ids: set<Node>, edges: Edges, done: set<Node>, inDegree: map<Node, nat>) {
    && inDegree.Keys == ids
    && forall v {:trigger inDegree[v]} :: v in ids ==> inDegree[v] == |PendingSources(edges, done, v)|
  }

  lemma AddEdge(edges: Edges, s: Node, t: Node, v: Node)
    requires (s, t) !in edges
    ensures |PendingSources(edges + {(s, t)}, {}, v)|
         == |PendingSources(edges, {}, v)| + (if v == t then 1 else 0)
  {
    if v == t {
      assert PendingSources(edges + {(s, t)}, {}, v) == PendingSources(edges, {}, v) + {s};
    } else {
      assert PendingSources(edges + {(s, t)}, {}, v) == PendingSources(edges, {}, v);
    }
  }

  /** One iteration of the graph-building loop; a repeated pair changes nothing. */
  method AddRule(ids: set<Node>, ghost edges: Edges, s: Node, t: Node,
                 graph: map<Node, set<Node>>, inDegree: map<Node, nat>)
    returns (graph': map<Node, set<Node>>, inDegree': map<Node, nat>)
    requires Represents(ids, edges, graph, inDegree) && s in ids && t in ids
    ensures Represents(ids, edges + {(s, t)}, graph', inDegree')
  {
    graph', inDegree' := graph, inDegree;
    if t in Neighbours(graph, s) {
      assert edges + {(s, t)} == edges;
    } else {
      forall v | v in ids
        ensures |PendingSources(edges + {(s, t)}, {}, v)|
             == |PendingSources(edges, {}, v)| + (if v == t then 1 else 0)
      {
        AddEdge(edges, s, t, v);
      }
      graph' := graph[s := Neighbours(graph, s) + {t}];
      inDegree' := inDegree[t := inDegree[t] + 1];
    }
  }

  lemma NoRules(ids: set<Node>, inDegree: map<Node, nat>)
    requires inDegree == map id | id in ids :: 0
    ensures Represents(ids, {}, map[], inDegree)
  {
    forall v | v in ids
      ensures PendingSources({}, {}, v) == {}
    {
    }
  }

  lemma WiringEdgesStep(ids: set<Node>, rules: seq<WiringRule>, k: nat)
    requires k < |rules|
    ensures WiringEdges(ids, rules[..k + 1]) == WiringEdges(ids, rules[..k])
      + (if Internal(ids, rules[k]) then {(rules[k].sourceTemplate, rules[k].targetTemplate)} else {})
  {
    assert rules[..k + 1] == rules[..k] + [rules[k]];
    assert forall rule :: rule in rules[..k + 1] <==> rule in rules[..k] || rule == rules[k];
  }

  method BuildGraph(templateIds: seq<Node>, rules: seq<WiringRule>)
    returns (graph: map<Node, set<Node>>, inDegree: map<Node, nat>)
    ensures Represents(Elements(templateIds), WiringEdges(Elements(templateIds), rules), graph, inDegree)
  {
    var ids := set id | id in templateIds;
    graph := map[];
    inDegree := map id | id in ids :: 0;
    ghost var edges: Edges := {};
    NoRules(ids, inDegree);
    for k := 0 to |rules|
      invariant edges == WiringEdges(ids, rules[..k])
      invariant Represents(ids, edges, graph, inDegree)
    {
      WiringEdgesStep(ids, rules, k);
      var s, t := rules[k].sourceTemplate, rules[k].targetTemplate;
      if Internal(ids, rules[k]) {
        graph, inDegree := AddRule(ids, edges, s, t, graph, inDegree);
        edges := edges + {(s, t)};
      }
    }
    assert rules[..|rules|] == rules;
  }

  lemma NodeDone(edges: Edges, done: set<Node>, node: Node, v: Node)
    requires node !in done
    ensures |PendingSources(edges, done + {node}, v)|
         == |PendingSources(edges, done, v)| - (if (node, v) in edges then 1 else 0)
  {
    var rest := PendingSources(edges, done, v);
    assert PendingSources(edges, done + {node}, v) == rest - {node};
    if (node, v) in edges {
      assert node in rest;
    } else {
      assert rest - {node} == rest;
    }
  }

  /** One pass of the innermost loop: node is placed, each of its neighbours loses one pending source. */
  method Relax(neighbours: set<Node>, inDegree: map<Node, nat>)
    returns (inDegree': map<Node, nat>, ready: seq<Node>)
    requires neighbours <= inDegree.Keys
    requires forall v :: v in neighbours ==> inDegree[v] > 0
    ensures inDegree'.Keys == inDegree.Keys
    ensures forall v :: v in inDegree ==> inDegree'[v] == inDegree[v] - (if v in neighbours then 1 else 0)
    ensures Distinct(ready)
    ensures forall v :: v in ready <==> v in neighbours && inDegree[v] == 1
  {
    inDegree', ready := inDegree, [];
    var pending := neighbours;
    while pending != {}
      invariant pending <= neighbours
      invariant inDegree'.Keys == inDegree.Keys
      invariant forall v :: v in inDegree ==>
        inDegree'[v] == inDegree[v] - (if v in neighbours && v !in pending then 1 else 0)
      invariant Distinct(ready)
      invariant forall v :: v in ready <==> v in neighbours && v !in pending && inDegree[v] == 1
      decreases pending
    {
      var neighbour :| neighbour in pending;
      pending := pending - {neighbour};
      inDegree' := inDegree'[neighbour := inDegree'[neighbour] - 1];
      if inDegree'[neighbour] == 0 {
        ready := ready + [neighbour];
      }
    }
  }

  /** The queue at the start of a round: everything unplaced whose sources are all placed. */
  ghost predicate Frontier(done: set<Node>, inDegree: map<Node, nat>, queue: seq<Node>) {
    && Distinct(queue)
    && (forall v {:trigger v in queue} :: v in queue <==> v in inDegree && v !in done && inDegree[v] == 0)
    && forall v {:trigger inDegree[v]} :: v in inDegree && v in done ==> inDegree[v] == 0
  }

  /** Relaxing the neighbours of a node that is just placed keeps the pending counts right. */
  lemma RelaxedRemaining(ids: set<Node>, edges: Edges, done: set<Node>, node: Node, neighbours: set<Node>,
                         inDegree: map<Node, nat>, inDegree': map<Node, nat>)
    requires node !in done && inDegree'.Keys == ids
    requires Remaining(ids, edges, done, inDegree)
    requires forall v :: v in neighbours <==> (node, v) in edges
    requires forall v :: v in ids ==> inDegree'[v] + (if v in neighbours then 1 else 0) == inDegree[v]
    ensures Remaining(ids, edges, done + {node}, inDegree')
  {
    forall v | v in ids
      ensures inDegree'[v] == |PendingSources(edges, done + {node}, v)|
    {
      NodeDone(edges, done, node, v);
    }
  }

  lemma NeighboursPending(ids: set<Node>, edges: Edges, done: set<Node>, node: Node, inDegree: map<Node, nat>, v: Node)
    requires Remaining(ids, edges, done, inDegree) && node !in done
    requires (node, v) in edges && v in ids
    ensures inDegree[v] > 0
  {
    assert node in PendingSources(edges, done, v);
  }

  /** The wiring seen by the sort: adjacency sets and the edges they stand for. */
  ghost predicate Adjacency(ids: set<Node>, edges: Edges, graph: map<Node, set<Node>>) {
    && (forall e :: e in edges ==> e.0 in ids && e.1 in ids)
    && forall u, v :: v in Neighbours(graph, u) <==> (u, v) in edges
  }

  /** Placing one node: the nodes that become ready are exactly those that lose their last pending source. */
  method PlaceNode(ids: set<Node>, ghost edges: Edges, graph: map<Node, set<Node>>, ghost done: set<Node>,
                   node: Node, inDegree: map<Node, nat>)
    returns (inDegree': map<Node, nat>, ready: seq<Node>)
    requires Adjacency(ids, edges, graph)
    requires Remaining(ids, edges, done, inDegree) && node !in done
    ensures Remaining(ids, edges, done + {node}, inDegree')
    ensures Distinct(ready)
    ensures forall v {:trigger v in ready} :: v in ready <==> v in ids && inDegree[v] != 0 && inDegree'[v] == 0
    ensures forall v {:trigger inDegree'[v]} :: v in ids && inDegree[v] == 0 ==> inDegree'[v] == 0
  {
    var neighbours := Neighbours(graph, node);
    forall v | v in neighbours
      ensures v in ids && inDegree[v] > 0
    {
      assert (node, v) in edges;
      NeighboursPending(ids, edges, done, node, inDegree, v);
    }
    inDegree', ready := Relax(neighbours, inDegree);
    RelaxedRemaining(ids, edges, done, node, neighbours, inDegree, inDegree');
  }

  /** One round of the outer loop: the whole queue is placed at the current level. */
  method PlaceLevel(ids: set<Node>, ghost edges: Edges, graph: map<Node, set<Node>>, ghost done: set<Node>,
                    inDegree: map<Node, nat>, queue: seq<Node>, level: nat)
    returns (inDegree': map<Node, nat>, placed: seq<Placement>, next: seq<Node>)
    requires Adjacency(ids, edges, graph)
    requires Remaining(ids, edges, done, inDegree)
    requires Frontier(done, inDegree, queue)
    ensures IsRound(queue, level, placed)
    ensures Remaining(ids, edges, done + Elements(queue), inDegree')
    ensures Frontier(done + Elements(queue), inDegree', next)
  {
    inDegree', placed, next := inDegree, [], [];
    ghost var now := done;
    for i := 0 to |queue|
      invariant |placed| == i && forall k :: 0 <= k < i ==> placed[k] == (queue[k], level)
      invariant now == done + Elements(queue[..i])
      invariant Remaining(ids, edges, now, inDegree')
      invariant Distinct(next)
      invariant forall v {:trigger v in next} ::
        v in next <==> v in ids && inDegree[v] != 0 && inDegree'[v] == 0
      invariant forall v {:trigger inDegree'[v]} :: v in ids && inDegree[v] == 0 ==> inDegree'[v] == 0
    {
      var node := queue[i];
      assert queue[..i + 1] == queue[..i] + [node];
      assert node in queue;
      placed := placed + [(node, level)];
      var relaxed, ready := PlaceNode(ids, edges, graph, now, node, inDegree');
      DistinctConcat(next, ready);
      now := now + {node};
      next := next + ready;
      inDegree' := relaxed;
    }
    assert queue[..|queue|] == queue;
  }

  method Sources(templateIds: seq<Node>, inDegree: map<Node, nat>) returns (queue: seq<Node>)
    requires Distinct(templateIds) && inDegree.Keys == Elements(templateIds)
    ensures Frontier({}, inDegree, queue)
  {
    queue := [];
    for k := 0 to |templateIds|
      invariant Distinct(queue)
      invariant forall v :: v in queue <==> v in templateIds[..k] && inDegree[v] == 0
    {
      assert templateIds[..k + 1] == templateIds[..k] + [templateIds[k]];
      if inDegree[templateIds[k]] == 0 {
        queue := queue + [templateIds[k]];
      }
    }
  }

  /** Placed templates sit at their longest-path level; every other one is reached by a walk of this length. */
  ghost predicate Levelled(ids: set<Node>, edges: Edges, levels: map<Node, nat>, level: nat) {
    && levels.Keys <= ids
    && (forall v {:trigger levels[v]} :: v in levels ==> levels[v] < level && LongestPathTo(edges, v, levels[v]))
    && forall v {:trigger ReachedIn(edges, v, level)} :: v in ids && v !in levels ==> ReachedIn(edges, v, level)
  }

  /** A template whose sources are all placed below this level has its longest path exactly this long. */
  lemma ReadyLevel(ids: set<Node>, edges: Edges, levels: map<Node, nat>, level: nat, v: Node)
    requires Levelled(ids, edges, levels, level)
    requires v in ids && v !in levels && PendingSources(edges, levels.Keys, v) == {}
    ensures LongestPathTo(edges, v, level)
  {
    assert ReachedIn(edges, v, level);
    forall p | IsPath(edges, p) && Last(p) == v
      ensures |p| <= level + 1
    {
      if |p| >= 2 {
        var n := |p| - 1;
        var u := p[n - 1];
        assert (u, p[n - 1 + 1]) in edges;
        assert u !in PendingSources(edges, levels.Keys, v);
        SubPath(edges, p, 0, n);
        assert Last(p[0..n]) == u;
        assert levels[u] < level;
      }
    }
  }

  /** What a round cannot place has an unplaced source, so it is reached by a walk one longer. */
  lemma BlockedLevel(ids: set<Node>, edges: Edges, levels: map<Node, nat>, level: nat, v: Node)
    requires Levelled(ids, edges, levels, level)
    requires forall e :: e in edges ==> e.0 in ids
    requires PendingSources(edges, levels.Keys, v) != {}
    ensures ReachedIn(edges, v, level + 1)
  {
    var u := AnyElement(PendingSources(edges, levels.Keys, v));
    assert ReachedIn(edges, u, level);
    var p :| IsPath(edges, p) && Last(p) == u && |p| == level + 1;
    ExtendPath(edges, p, v);
    assert |p + [v]| == level + 2;
  }

  ghost function PlaceAll(levels: map<Node, nat>, queue: seq<Node>, level: nat): map<Node, nat> {
    levels + map v | v in queue :: level
  }

  lemma RoundLevelled(ids: set<Node>, edges: Edges, inDegree: map<Node, nat>, levels: map<Node, nat>,
                      queue: seq<Node>, level: nat)
    requires forall e :: e in edges ==> e.0 in ids
    requires Remaining(ids, edges, levels.Keys, inDegree)
    requires Frontier(levels.Keys, inDegree, queue)
    requires Levelled(ids, edges, levels, level)
    ensures Levelled(ids, edges, PlaceAll(levels, queue, level), level + 1)
  {
    var levels' := PlaceAll(levels, queue, level);
    forall v | v in levels'
      ensures v in ids && levels'[v] < level + 1 && LongestPathTo(edges, v, levels'[v])
    {
      if v in queue {
        assert inDegree[v] == 0;
        ReadyLevel(ids, edges, levels, level, v);
      } else {
        assert levels'[v] == levels[v];
      }
    }
    forall v | v in ids && v !in levels'
      ensures ReachedIn(edges, v, level + 1)
    {
      assert v !in queue && inDegree[v] != 0;
      BlockedLevel(ids, edges, levels, level, v);
    }
  }

  lemma UnplacedSource(edges: Edges, ids: set<Node>, done: set<Node>, v: Node)
    requires forall e :: e in edges ==> e.0 in ids
    requires PendingSources(edges, done, v) != {}
    ensures HasPredecessorIn(edges, ids - done, v)
  {
    var u := AnyElement(PendingSources(edges, done, v));
  }

  /** The queue ran dry before every template was placed. */
  lemma EmptyFrontier(ids: set<Node>, edges: Edges, done: set<Node>, inDegree: map<Node, nat>, queue: seq<Node>)
    requires forall e :: e in edges ==> e.0 in ids
    requires Remaining(ids, edges, done, inDegree)
    requires Frontier(done, inDegree, queue) && queue == []
    requires ids - done != {}
    ensures Cyclic(edges)
  {
    forall v | v in ids - done
      ensures HasPredecessorIn(edges, ids - done, v)
    {
      assert v !in queue && inDegree[v] != 0;
      UnplacedSource(edges, ids, done, v);
    }
    PredecessorsForCycle(edges, ids - done);
  }

  lemma LevelledAcyclic(ids: set<Node>, edges: Edges, levels: map<Node, nat>, level: nat)
    requires Levelled(ids, edges, levels, level) && levels.Keys == ids
    requires forall e :: e in edges ==> e.1 in ids
    ensures !Cyclic(edges)
  {
    forall e | e in edges
      ensures exists n: nat :: LongestPathTo(edges, e.1, n)
    {
      assert LongestPathTo(edges, e.1, levels[e.1]);
    }
    BoundedWalksAcyclic(edges);
  }

  ghost predicate Ascending(order: seq<Placement>) {
    forall i, j :: 0 <= i < j < |order| ==> order[i].0 != order[j].0 && order[i].1 <= order[j].1
  }

  ghost predicate LevelsOf(order: seq<Placement>, levels: map<Node, nat>) {
    forall i :: 0 <= i < |order| ==> order[i].0 in levels && levels[order[i].0] == order[i].1
  }

  /** The result list records exactly the levels assigned so far, each template once, levels ascending. */
  ghost predicate Records(order: seq<Placement>, levels: map<Node, nat>) {
    |order| == |levels| && LevelsOf(order, levels) && Ascending(order)
  }

  /** The entries one round appends. */
  ghost predicate IsRound(queue: seq<Node>, level: nat, placed: seq<Placement>) {
    |placed| == |queue| && forall k :: 0 <= k < |queue| ==> placed[k] == (queue[k], level)
  }

  lemma PlaceAllSize(levels: map<Node, nat>, queue: seq<Node>, level: nat)
    requires Distinct(queue)
    requires forall v :: v in queue ==> v !in levels
    ensures |PlaceAll(levels, queue, level)| == |levels| + |queue|
  {
    var levels' := PlaceAll(levels, queue, level);
    assert levels'.Keys == levels.Keys + Elements(queue);
    ElementsCardinality(queue);
    assert |levels'.Keys| == |levels.Keys| + |Elements(queue)|;
  }

  lemma LevelsOfRound(order: seq<Placement>, levels: map<Node, nat>, queue: seq<Node>, level: nat,
                      placed: seq<Placement>)
    requires LevelsOf(order, levels) && IsRound(queue, level, placed)
    requires forall v :: v in queue ==> v !in levels
    ensures LevelsOf(order + placed, PlaceAll(levels, queue, level))
  {
    forall i | 0 <= i < |order + placed|
      ensures (order + placed)[i].0 in PlaceAll(levels, queue, level)
      ensures PlaceAll(levels, queue, level)[(order + placed)[i].0] == (order + placed)[i].1
    {
      if i >= |order| {
        assert (order + placed)[i] == placed[i - |order|];
      }
    }
  }

  lemma AscendingRound(order: seq<Placement>, levels: map<Node, nat>, queue: seq<Node>, level: nat,
                       placed: seq<Placement>)
    requires Ascending(order) && LevelsOf(order, levels)
    requires IsRound(queue, level, placed) && Distinct(queue)
    requires forall v :: v in queue ==> v !in levels
    requires forall v :: v in levels ==> levels[v] < level
    ensures Ascending(order + placed)
  {
    var order' := order + placed;
    forall i, j | 0 <= i < j < |order'|
      ensures order'[i].0 != order'[j].0 && order'[i].1 <= order'[j].1
    {
      if j >= |order| {
        assert order'[j] == (queue[j - |order|], level);
        if i >= |order| {
          assert order'[i] == (queue[i - |order|], level);
        } else {
          assert order'[i] == order[i];
        }
      }
    }
  }

  lemma RecordsRound(ids: set<Node>, edges: Edges, inDegree: map<Node, nat>, order: seq<Placement>,
                     levels: map<Node, nat>, queue: seq<Node>, level: nat, placed: seq<Placement>)
    requires Records(order, levels) && IsRound(queue, level, placed)
    requires Frontier(levels.Keys, inDegree, queue)
    requires Levelled(ids, edges, levels, level)
    ensures Records(order + placed, PlaceAll(levels, queue, level))
  {
    PlaceAllSize(levels, queue, level);
    LevelsOfRound(order, levels, queue, level, placed);
    AscendingRound(order, levels, queue, level, placed);
  }

  method TopologicalSort(templateIds: seq<Node>, rules: seq<WiringRule>)
    returns (r: Result<seq<Placement>, OrderingError>)
    requires Distinct(templateIds)  // primary key of blueprint_templates
    ensures r.Failure? <==> Cyclic(WiringEdges(Elements(templateIds), rules))
    ensures r.Success? ==> IsLevelOrder(Elements(templateIds), WiringEdges(Elements(templateIds), rules), r.value)
    ensures r.Success? ==> |r.value| == |templateIds|
  {
    var ids := set id | id in templateIds;
    assert ids == Elements(templateIds);
    ghost var edges := WiringEdges(ids, rules);
    var graph, inDegree := BuildGraph(templateIds, rules);
    var order: seq<Placement> := [];
    ghost var levels: map<Node, nat> := map[];
    assert levels.Keys == {};
    var level: nat := 0;
    var queue := Sources(templateIds, inDegree);
    forall v | v in ids
      ensures ReachedIn(edges, v, 0)
    {
      assert IsPath(edges, [v]) && Last([v]) == v;
    }
    while queue != []
      invariant Remaining(ids, edges, levels.Keys, inDegree)
      invariant Frontier(levels.Keys, inDegree, queue)
      invariant Levelled(ids, edges, levels, level)
      invariant Records(order, levels)
      decreases ids - levels.Keys
    {
      assert queue[0] in queue;
      var inDegree', placed, next := PlaceLevel(ids, edges, graph, levels.Keys, inDegree, queue, level);
      RoundLevelled(ids, edges, inDegree, levels, queue, level);
      RecordsRound(ids, edges, inDegree, order, levels, queue, level, placed);
      levels := PlaceAll(levels, queue, level);
      inDegree, order, queue, level := inDegree', order + placed, next, level + 1;
    }
    ElementsCardinality(templateIds);
    SubsetCardinality(levels.Keys, ids);
    if |order| != |templateIds| {
      EmptyFrontier(ids, edges, levels.Keys, inDegree, queue);
      return Failure(CircularDependency);
    }
    LevelledAcyclic(ids, edges, levels, level);
    RecordedLevelOrder(ids, edges, levels, level, order);
    return Success(order);
  }

  lemma PlacedCount(order: seq<Placement>)
    requires Ascending(order)
    ensures |Placed(order)| == |order|
  {
    if order != [] {
      var n := |order| - 1;
      PlacedCount(order[..n]);
      assert Placed(order) == Placed(order[..n]) + {order[n].0};
      assert order[n].0 !in Placed(order[..n]);
    }
  }

  lemma RecordedLevelOrder(ids: set<Node>, edges: Edges, levels: map<Node, nat>, level: nat, order: seq<Placement>)
    requires Levelled(ids, edges, levels, level) && levels.Keys == ids
    requires Records(order, levels)
    ensures IsLevelOrder(ids, edges, order)
  {
    PlacedCount(order);
    assert Placed(order) <= ids;
    SubsetCardinality(Placed(order), ids);
    forall i | 0 <= i < |order|
      ensures LongestPathTo(edges, order[i].0, order[i].1)
    {
      assert levels[order[i].0] == order[i].1;
    }
  }

  /**
   * The level of a template does not depend on the iteration order of the neighbour sets, on
   * the order of the templates, or on repeated wiring rules: any two runs assign the same one.
   */
  lemma LevelsDetermined(ids: set<Node>, rules: seq<WiringRule>, rules': seq<WiringRule>,
                         order: seq<Placement>, order': seq<Placement>, i: nat, j: nat)
    requires forall rule :: rule in rules <==> rule in rules'
    requires IsLevelOrder(ids, WiringEdges(ids, rules), order)
    requires IsLevelOrder(ids, WiringEdges(ids, rules'), order')
    requires i < |order| && j < |order'| && order[i].0 == order'[j].0
    ensures order[i].1 == order'[j].1
  {
    assert WiringEdges(ids, rules) == WiringEdges(ids, rules');
    LongestPathUnique(WiringEdges(ids, rules), order[i].0, order[i].1, order'[j].1);
  }

  /** Every wiring rule inside the blueprint leads to a strictly higher level, hence to a later step. */
  lemma RulesAscend(ids: set<Node>, rules: seq<WiringRule>, order: seq<Placement>, rule: WiringRule, i: nat, j: nat)
    requires IsLevelOrder(ids, WiringEdges(ids, rules), order)
    requires rule in rules && Internal(ids, rule)
    requires i < |order| && j < |order|
    requires order[i].0 == rule.sourceTemplate && order[j].0 == rule.targetTemplate
    ensures order[i].1 < order[j].1 && i < j
  {
    var edges := WiringEdges(ids, rules);
    assert (rule.sourceTemplate, rule.targetTemplate) in edges;
    LongestPathAscends(edges, order[i].0, order[j].0, order[i].1, order[j].1);
    assert i != j && !(j < i);
  }

  /** Levels leave no gap: below every used level, each smaller one is used too. */
  lemma {:induction false} LevelsContiguous(ids: set<Node>, rules: seq<WiringRule>, order: seq<Placement>, i: nat, level: nat)
    returns (j: nat)
    requires IsLevelOrder(ids, WiringEdges(ids, rules), order)
    requires i < |order| && level <= order[i].1
    ensures j <= i && order[j].1 == level
    decreases order[i].1
  {
    if level == order[i].1 {
      j := i;
    } else {
      var edges := WiringEdges(ids, rules);
      var u := LongestPathPredecessor(edges, order[i].0, order[i].1);
      assert u in Placed(order);
      var k :| 0 <= k < |order| && order[k].0 == u;
      LongestPathUnique(edges, u, order[k].1, order[i].1 - 1);
      j := LevelsContiguous(ids, rules, order, k, level);
    }
  }
}
