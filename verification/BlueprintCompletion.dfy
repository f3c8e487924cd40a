/**
 * Undisturbed executions of a blueprint's workflow: in whatever order the steps complete, which
 * outputs are lost, and when the order does not matter.
 */
module BlueprintCompletion {
  import opened Common
  import opened Graphs
  import opened BlueprintOrdering
  import opened BlueprintWiring
  import opened BlueprintRunner

  /** An order in which the steps of a workflow can complete. */
  ghost predicate Completion(plan: Plan, order: seq<Node>) {
    && Distinct(order) && Elements(order) == plan.levels.Keys
    && forall i, j | 0 <= i < j < |order| :: order[i] in plan.levels && order[j] in plan.levels ==>
         plan.levels[order[i]] <= plan.levels[order[j]]
  }

  /** The messages of an undisturbed execution: the start, then a callback for each resource that is provisioned. */
  function Messages(order: seq<Node>): seq<Task> {
    if order == [] then [Task({}, {})] else Messages(order[..|order| - 1]) + [Task({order[|order| - 1]}, {})]
  }

  function Undisturbed(plan: Plan, execute: Execution, order: seq<Node>): World {
    Run(plan, execute, Messages(order))
  }

  lemma UndisturbedStart(plan: Plan, execute: Execution)
    ensures Undisturbed(plan, execute, []) == Next(plan, execute, Start, {}, {})
  {
    var messages := [Task({}, {})];
    assert Messages([]) == messages && messages[..0] == [];
    assert Run(plan, execute, messages[..0]) == Start;
    assert Run(plan, execute, messages) == Next(plan, execute, Run(plan, execute, messages[..0]), {}, {});
  }

  lemma UndisturbedStep(plan: Plan, execute: Execution, order: seq<Node>, k: nat)
    requires k < |order|
    ensures Undisturbed(plan, execute, order[..k + 1]) == Next(plan, execute, Undisturbed(plan, execute, order[..k]), {order[k]}, {})
  {
    var messages := Messages(order[..k + 1]);
    assert order[..k + 1][..k] == order[..k];
    assert messages == Messages(order[..k]) + [Task({order[k]}, {})];
    assert messages[..|messages| - 1] == Messages(order[..k]);
  }

  lemma BelowBefore(plan: Plan, order: seq<Node>, k: nat)
    requires Completion(plan, order) && k < |order|
    ensures Below(plan, order[k]) <= Elements(order[..k])
  {
    assert order[k] in Elements(order);
    forall other | other in Below(plan, order[k])
      ensures other in order[..k]
    {
      assert other in Elements(order);
      var i :| 0 <= i < |order| && order[i] == other;
      assert order[..k][i] == other;
    }
  }

  /** The steps that run once these are done. */
  function Unblocked(plan: Plan, done: set<Node>): set<Node> {
    set id | id in plan.levels && id !in done && Below(plan, id) <= done
  }

  lemma StartUnblocks(plan: Plan, execute: Execution)
    ensures Next(plan, execute, Start, {}, {}).done == {}
    ensures Next(plan, execute, Start, {}, {}).running == Unblocked(plan, {})
  {
    assert Start.running * Start.running == {};
  }

  lemma NextUnblocks(plan: Plan, execute: Execution, w: World, x: Node)
    requires w.running == Unblocked(plan, w.done) && x in w.running
    ensures var w' := Next(plan, execute, w, {x}, {});
            w'.done == w.done + {x} && w'.running == Unblocked(plan, w.done + {x})
  {
    assert {x} * w.running == {x};
  }

  lemma {:induction false} UndisturbedState(plan: Plan, execute: Execution, order: seq<Node>, k: nat)
    requires Completion(plan, order) && k <= |order|
    ensures var w := Undisturbed(plan, execute, order[..k]);
            w.done == Elements(order[..k]) && w.running == Unblocked(plan, Elements(order[..k]))
  {
    if k == 0 {
      assert order[..0] == [];
      UndisturbedStart(plan, execute);
      StartUnblocks(plan, execute);
    } else {
      UndisturbedState(plan, execute, order, k - 1);
      UndisturbedStep(plan, execute, order, k - 1);
      StateStep(plan, execute, order, k - 1, Undisturbed(plan, execute, order[..k - 1]));
    }
  }

  lemma StateStep(plan: Plan, execute: Execution, order: seq<Node>, k: nat, w: World)
    requires Completion(plan, order) && k < |order|
    requires w.done == Elements(order[..k]) && w.running == Unblocked(plan, Elements(order[..k]))
    ensures order[k] in w.running
    ensures var w' := Next(plan, execute, w, {order[k]}, {});
            w'.done == Elements(order[..k + 1]) && w'.running == Unblocked(plan, Elements(order[..k + 1]))
  {
    BelowBefore(plan, order, k);
    CompletionStep(plan, order, k);
    NextUnblocks(plan, execute, w, order[k]);
  }

  lemma CompletionStep(plan: Plan, order: seq<Node>, k: nat)
    requires Completion(plan, order) && k < |order|
    ensures order[k] in plan.levels && order[k] !in Elements(order[..k])
    ensures Elements(order[..k + 1]) == Elements(order[..k]) + {order[k]}
  {
    assert order[k] in Elements(order);
    assert order[..k + 1] == order[..k] + [order[k]];
    ElementsSnoc(order[..k], order[k]);
  }

  lemma ElementsSnoc(s: seq<Node>, x: Node)
    ensures Elements(s + [x]) == Elements(s) + {x}
  {
  }

  /** Step k of the order is the last to complete below id. */
  ghost predicate LastBelow(plan: Plan, order: seq<Node>, k: nat, id: Node) {
    && k < |order| && order[k] in Below(plan, id)
    && forall j :: k < j < |order| ==> order[j] !in Below(plan, id)
  }

  lemma SeenBelow(plan: Plan, order: seq<Node>, k: nat, id: Node)
    requires Completion(plan, order) && LastBelow(plan, order, k, id)
    ensures Elements(order[..k]) == Below(plan, id) - {order[k]} && Below(plan, id) == Elements(order[..k + 1])
  {
    forall other
      ensures other in Elements(order[..k]) <==> other in Below(plan, id) && other != order[k]
    {
      if other in order[..k] {
        var i :| 0 <= i < k && order[i] == other;
        assert order[i] in Elements(order);
      }
      if other in Below(plan, id) && other != order[k] {
        assert other in Elements(order);
        var i :| 0 <= i < |order| && order[i] == other;
        assert order[..k][i] == other;
      }
    }
    assert order[..k + 1] == order[..k] + [order[k]];
  }

  /** What a launched step was launched with does not change. */
  lemma UndisturbedKeeps(plan: Plan, execute: Execution, order: seq<Node>, m: nat, id: Node)
    requires m < |order| && id in Undisturbed(plan, execute, order[..m]).steps
    ensures var before, w := Undisturbed(plan, execute, order[..m]), Undisturbed(plan, execute, order[..m + 1]);
            id in w.steps && w.steps[id] == before.steps[id]
  {
    var before, w := Undisturbed(plan, execute, order[..m]), Undisturbed(plan, execute, order[..m + 1]);
    RunInv(plan, execute, Messages(order[..m]));
    UndisturbedStep(plan, execute, order, m);
    NextBounded(plan, execute, before, {order[m]}, {});
    assert Kept(before, w, id);
  }

  predicate LaunchedBy(w: World, id: Node, seen: set<Node>, finishing: set<Node>) {
    id in w.steps && w.steps[id].seen == seen && w.steps[id].finishing == finishing
  }

  /** A step is launched by the workflow task that marks the last step below it done, and does not see that one. */
  lemma {:induction false} UndisturbedLaunch(plan: Plan, execute: Execution, order: seq<Node>, m: nat, k: nat, id: Node)
    requires Completion(plan, order) && LastBelow(plan, order, k, id) && k < m <= |order|
    ensures LaunchedBy(Undisturbed(plan, execute, order[..m]), id, Below(plan, id) - {order[k]}, {order[k]})
    decreases m
  {
    if m == k + 1 {
      LaunchedThen(plan, execute, order, k, id);
    } else {
      UndisturbedLaunch(plan, execute, order, m - 1, k, id);
      UndisturbedKeeps(plan, execute, order, m - 1, id);
    }
  }

  lemma LaunchedThen(plan: Plan, execute: Execution, order: seq<Node>, k: nat, id: Node)
    requires Completion(plan, order) && LastBelow(plan, order, k, id)
    ensures LaunchedBy(Undisturbed(plan, execute, order[..k + 1]), id, Below(plan, id) - {order[k]}, {order[k]})
  {
    UndisturbedState(plan, execute, order, k);
    UndisturbedStep(plan, execute, order, k);
    CompletionStep(plan, order, k);
    SeenBelow(plan, order, k, id);
    BelowBefore(plan, order, k);
    LaunchOne(plan, execute, Undisturbed(plan, execute, order[..k]), order[k], id);
  }

  lemma LaunchOne(plan: Plan, execute: Execution, w: World, x: Node, id: Node)
    requires w.running == Unblocked(plan, w.done) && x in w.running
    requires id in plan.levels && x in Below(plan, id) && Below(plan, id) == w.done + {x}
    ensures LaunchedBy(Next(plan, execute, w, {x}, {}), id, Below(plan, id) - {x}, {x})
  {
    assert {x} * w.running == {x};
    assert id !in Below(plan, id) && x !in w.done;
    assert id in Ready(plan, w, w.done + {x}, {});
    NextLaunches(plan, execute, w, {x}, {}, id);
  }

  lemma {:induction false} FirstLaunch(plan: Plan, execute: Execution, order: seq<Node>, m: nat, id: Node)
    requires id in plan.levels && Below(plan, id) == {} && m <= |order|
    ensures LaunchedBy(Undisturbed(plan, execute, order[..m]), id, {}, {})
  {
    if m == 0 {
      assert order[..0] == [];
      UndisturbedStart(plan, execute);
      assert {} * Start.running == {};
      NextLaunches(plan, execute, Start, {}, {}, id);
    } else {
      FirstLaunch(plan, execute, order, m - 1, id);
      UndisturbedKeeps(plan, execute, order, m - 1, id);
    }
  }

  /** In an undisturbed execution a step receives nothing from the step that completes last below it. */
  lemma LastFinisherUnseen(plan: Plan, execute: Execution, order: seq<Node>, k: nat, id: Node)
    requires Completion(plan, order) && LastBelow(plan, order, k, id)
    ensures var w := Undisturbed(plan, execute, order);
            && LaunchedBy(w, id, Below(plan, id) - {order[k]}, {order[k]})
            && w.steps[id].variables ==
                 Launched(plan.levels.Keys, plan.request, id, View(Below(plan, id) - {order[k]}, w.steps))
  {
    assert order[..|order|] == order;
    UndisturbedLaunch(plan, execute, order, |order|, k, id);
    LaunchExplained(plan, execute, Messages(order), id);
  }

  /** Swapping two steps of one level gives another order of completion. */
  lemma SwapCompletes(plan: Plan, order: seq<Node>, i: nat, j: nat)
    requires Completion(plan, order) && i < |order| && j < |order|
    requires order[i] in plan.levels && order[j] in plan.levels && plan.levels[order[i]] == plan.levels[order[j]]
    ensures Completion(plan, order[i := order[j]][j := order[i]])
  {
    var swapped := order[i := order[j]][j := order[i]];
    forall x
      ensures x in Elements(swapped) <==> x in Elements(order)
    {
      if x in order {
        var k :| 0 <= k < |order| && order[k] == x;
        assert swapped[if k == i then j else if k == j then i else k] == x;
      }
    }
  }

  /** The last place of a level in an order of completion. */
  lemma LastOfLevel(plan: Plan, order: seq<Node>, x: Node) returns (k: nat)
    requires Completion(plan, order) && x in plan.levels
    ensures k < |order| && order[k] in plan.levels && plan.levels[order[k]] == plan.levels[x]
    ensures forall j :: k < j < |order| && order[j] in plan.levels ==> plan.levels[order[j]] > plan.levels[x]
  {
    assert x in Elements(order);
    k :| 0 <= k < |order| && order[k] == x;
    while k + 1 < |order| && order[k + 1] in plan.levels && plan.levels[order[k + 1]] == plan.levels[x]
      invariant k < |order| && order[k] in plan.levels && plan.levels[order[k]] == plan.levels[x]
    {
      k := k + 1;
    }
    forall j | k < j < |order| && order[j] in plan.levels
      ensures plan.levels[order[j]] > plan.levels[x]
    {
      assert order[k + 1] in Elements(order);
      if j > k + 1 {
        assert plan.levels[order[k + 1]] <= plan.levels[order[j]];
      }
    }
  }

  /** Any step of the level below can be the last to complete below a step. */
  lemma CompletesLast(plan: Plan, base: seq<Node>, x: Node, id: Node) returns (order: seq<Node>, k: nat)
    requires Completion(plan, base) && x in plan.levels && id in plan.levels && plan.levels[id] == plan.levels[x] + 1
    ensures Completion(plan, order) && LastBelow(plan, order, k, id) && order[k] == x
  {
    k := LastOfLevel(plan, base, x);
    assert x in Elements(base);
    var i :| 0 <= i < |base| && base[i] == x;
    SwapCompletes(plan, base, i, k);
    order := base[i := base[k]][k := base[i]];
    forall j | k < j < |order|
      ensures order[j] !in Below(plan, id)
    {
      assert i <= k && order[j] == base[j];
    }
  }

  /**
   * Some order of completion loses a wire as soon as any step is wired to another: every wiring has a wire
   * between neighbouring levels, and its source may complete last.
   */
  lemma SomeOrderLosesIff(plan: Plan, execute: Execution, base: seq<Node>)
    requires SortedLevels(plan) && Completion(plan, base)
    ensures (exists order, rule, source, id ::
               && Completion(plan, order) && Wires(plan, rule, source, id)
               && LostBy(Undisturbed(plan, execute, order), source, id))
       <==> Wiring(plan) != {}
  {
    if Wiring(plan) != {} {
      var e :| e in Wiring(plan);
      LevelAbove(plan, e);
      var source := LongestPathPredecessor(Wiring(plan), e.1, plan.levels[e.1]);
      LongestPathUnique(Wiring(plan), source, plan.levels[source], plan.levels[e.1] - 1);
      var rule :| rule in plan.request.rules && Internal(plan.levels.Keys, rule)
        && (rule.sourceTemplate, rule.targetTemplate) == (source, e.1);
      var order, k := CompletesLast(plan, base, source, e.1);
      LastFinisherUnseen(plan, execute, order, k, e.1);
      assert Wires(plan, rule, source, e.1) && LostBy(Undisturbed(plan, execute, order), source, e.1);
    }
    if order, rule, source, id :| (Completion(plan, order) && Wires(plan, rule, source, id)
      && LostBy(Undisturbed(plan, execute, order), source, id)) {
      assert (source, id) in Wiring(plan);
    }
  }

  /** The step was launched by the workflow task that marked the source done, so it does not receive its output. */
  predicate LostBy(w: World, source: Node, id: Node) {
    id in w.steps && source in w.steps[id].finishing
  }

  /** A step that is wired loses the output of exactly one step, one on the level right below it. */
  lemma FinisherRightBelow(plan: Plan, execute: Execution, order: seq<Node>, id: Node) returns (k: nat)
    requires SortedLevels(plan) && Completion(plan, order) && id in plan.levels && plan.levels[id] > 0
    ensures k < |order| && order[k] in plan.levels && plan.levels[order[k]] + 1 == plan.levels[id]
    ensures forall source :: LostBy(Undisturbed(plan, execute, order), source, id) <==> source == order[k]
  {
    var rule, x := WireFromBelow(plan, id);
    k := LastOfLevel(plan, order, x);
    LastFinisherUnseen(plan, execute, order, k, id);
  }

  ghost predicate LostIn(plan: Plan, execute: Execution, order: seq<Node>, source: Node, id: Node) {
    Completion(plan, order) && LostBy(Undisturbed(plan, execute, order), source, id)
  }

  ghost predicate AloneOnLevel(plan: Plan, source: Node)
    requires source in plan.levels
  {
    forall other :: other in plan.levels && plan.levels[other] == plan.levels[source] ==> other == source
  }

  /** A wire is lost in some order of completion if and only if its source is exactly one level below its target. */
  lemma WireLostInSomeOrderIff(plan: Plan, execute: Execution, base: seq<Node>, rule: WiringRule, source: Node, id: Node)
    requires SortedLevels(plan) && Completion(plan, base) && Wires(plan, rule, source, id)
    ensures (exists order :: LostIn(plan, execute, order, source, id)) <==> plan.levels[id] == plan.levels[source] + 1
  {
    WireAscends(plan, rule, source, id);
    if plan.levels[id] == plan.levels[source] + 1 {
      var order, k := CompletesLast(plan, base, source, id);
      LastFinisherUnseen(plan, execute, order, k, id);
      assert LostIn(plan, execute, order, source, id);
    }
    if order :| LostIn(plan, execute, order, source, id) {
      var k := FinisherRightBelow(plan, execute, order, id);
    }
  }

  /** It is lost in every order if and only if, moreover, the source is alone on its level. */
  lemma WireLostInEveryOrderIff(plan: Plan, execute: Execution, base: seq<Node>, rule: WiringRule, source: Node, id: Node)
    requires SortedLevels(plan) && Completion(plan, base) && Wires(plan, rule, source, id)
    ensures (forall order :: Completion(plan, order) ==> LostIn(plan, execute, order, source, id))
       <==> plan.levels[id] == plan.levels[source] + 1 && AloneOnLevel(plan, source)
  {
    WireAscends(plan, rule, source, id);
    if forall order :: Completion(plan, order) ==> LostIn(plan, execute, order, source, id) {
      assert LostIn(plan, execute, base, source, id);
      WireLostInSomeOrderIff(plan, execute, base, rule, source, id);
      forall other | other in plan.levels && plan.levels[other] == plan.levels[source]
        ensures other == source
      {
        var order, k := CompletesLast(plan, base, other, id);
        LastFinisherUnseen(plan, execute, order, k, id);
        assert LostIn(plan, execute, order, source, id);
      }
    }
    if plan.levels[id] == plan.levels[source] + 1 && AloneOnLevel(plan, source) {
      forall order | Completion(plan, order)
        ensures LostIn(plan, execute, order, source, id)
      {
        var k := FinisherRightBelow(plan, execute, order, id);
      }
    }
  }

  lemma LevelAbove(plan: Plan, e: (Node, Node))
    requires SortedLevels(plan) && e in Wiring(plan)
    ensures e.1 in plan.levels && plan.levels[e.1] > 0
  {
    LongestPathAscends(Wiring(plan), e.0, e.1, plan.levels[e.0], plan.levels[e.1]);
  }

  /** Every level but the last has a single step. */
  ghost predicate SingleFile(levels: map<Node, nat>) {
    forall a, b, above | a in levels && b in levels && above in levels ::
      levels[a] == levels[b] < levels[above] ==> a == b
  }

  /** In single file, what a step is launched with does not depend on the order. */
  lemma {:induction false} SameOutcome(plan: Plan, execute: Execution, order: seq<Node>, order': seq<Node>, id: Node)
    requires SortedLevels(plan) && SingleFile(plan.levels) && id in plan.levels
    requires Completion(plan, order) && Completion(plan, order')
    ensures var w, w' := Undisturbed(plan, execute, order), Undisturbed(plan, execute, order');
            && id in w.steps && id in w'.steps
            && w.steps[id].variables == w'.steps[id].variables && w.steps[id].outputs == w'.steps[id].outputs
    decreases plan.levels[id]
  {
    var seen := SeenInSingleFile(plan, execute, order, order', id);
    forall s | s in seen {
      SameOutcome(plan, execute, order, order', s);
    }
    LaunchExplained(plan, execute, Messages(order), id);
    LaunchExplained(plan, execute, Messages(order'), id);
    var w, w' := Undisturbed(plan, execute, order), Undisturbed(plan, execute, order');
    WiredLocal(plan.levels.Keys, plan.request.rules, id, View(seen, w.steps),
               View(seen, w'.steps), plan.request.rules);
  }

  /** The step right below is the only candidate for completing last. */
  lemma SingleLast(plan: Plan, order: seq<Node>, x: Node, id: Node) returns (k: nat)
    requires SingleFile(plan.levels) && Completion(plan, order)
    requires x in plan.levels && id in plan.levels && plan.levels[id] == plan.levels[x] + 1
    ensures LastBelow(plan, order, k, id) && order[k] == x
  {
    k := LastOfLevel(plan, order, x);
  }

  lemma SeenInSingleFile(plan: Plan, execute: Execution, order: seq<Node>, order': seq<Node>, id: Node) returns (seen: set<Node>)
    requires SortedLevels(plan) && SingleFile(plan.levels) && id in plan.levels
    requires Completion(plan, order) && Completion(plan, order')
    ensures var w, w' := Undisturbed(plan, execute, order), Undisturbed(plan, execute, order');
            && id in w.steps && id in w'.steps && w.steps[id].seen == w'.steps[id].seen == seen <= Below(plan, id)
  {
    assert order[..|order|] == order && order'[..|order'|] == order';
    if plan.levels[id] == 0 {
      FirstLaunch(plan, execute, order, |order|, id);
      FirstLaunch(plan, execute, order', |order'|, id);
      seen := {};
    } else {
      var x := LongestPathPredecessor(Wiring(plan), id, plan.levels[id]);
      LongestPathUnique(Wiring(plan), x, plan.levels[x], plan.levels[id] - 1);
      var k := SingleLast(plan, order, x, id);
      var k' := SingleLast(plan, order', x, id);
      UndisturbedLaunch(plan, execute, order, |order|, k, id);
      UndisturbedLaunch(plan, execute, order', |order'|, k', id);
      seen := Below(plan, id) - {x};
    }
  }

  /** Two executions give every template the same variables and outputs. */
  predicate SameResults(w: World, w': World) {
    && w.steps.Keys == w'.steps.Keys
    && forall id :: id in w.steps && id in w'.steps ==>
         w.steps[id].variables == w'.steps[id].variables && w.steps[id].outputs == w'.steps[id].outputs
  }

  /** However the steps complete, the results are the same. */
  ghost predicate Confluent(levels: map<Node, nat>, rules: seq<WiringRule>) {
    forall request: Request, execute: Execution, order, order' ::
      request.rules == rules && Completion(Plan(levels, request), order) && Completion(Plan(levels, request), order') ==>
        SameResults(Undisturbed(Plan(levels, request), execute, order), Undisturbed(Plan(levels, request), execute, order'))
  }

  lemma SingleFileConfluent(plan: Plan)
    requires SortedLevels(plan) && SingleFile(plan.levels)
    ensures Confluent(plan.levels, plan.request.rules)
  {
    forall request: Request, execute: Execution, order, order' |
      && request.rules == plan.request.rules
      && Completion(Plan(plan.levels, request), order) && Completion(Plan(plan.levels, request), order')
      ensures SameResults(Undisturbed(Plan(plan.levels, request), execute, order),
                          Undisturbed(Plan(plan.levels, request), execute, order'))
    {
      SameInSingleFile(Plan(plan.levels, request), execute, order, order');
    }
  }

  lemma SameInSingleFile(plan: Plan, execute: Execution, order: seq<Node>, order': seq<Node>)
    requires SortedLevels(plan) && SingleFile(plan.levels) && Completion(plan, order) && Completion(plan, order')
    ensures SameResults(Undisturbed(plan, execute, order), Undisturbed(plan, execute, order'))
  {
    AllLaunched(plan, execute, order);
    AllLaunched(plan, execute, order');
    forall id | id in plan.levels {
      SameOutcome(plan, execute, order, order', id);
    }
  }

  lemma NothingInferred(rules: seq<WiringRule>, id: Node, view: View, wire: WiringRule)
    requires forall s :: s in view.done ==> VariablesOf(view.steps, s) == map[]
    ensures Inferred(rules, id, view, wire) == None
  {
  }

  /** Steps without variables and outputs have nothing to pass on. */
  lemma NothingWired(ids: set<Node>, rules: seq<WiringRule>, id: Node, view: View, wires: seq<WiringRule>)
    requires forall s :: s in view.done ==> VariablesOf(view.steps, s) == map[] && OutputsOf(view.steps, s) == map[]
    ensures Wired(ids, rules, id, view, wires) == map[]
  {
    if wires != [] {
      NothingInferred(rules, id, view, wires[|wires| - 1]);
    }
  }

  lemma CarriedIsWired(ids: set<Node>, rules: seq<WiringRule>, id: Node, view: View, wires: seq<WiringRule>, wire: WiringRule)
    requires wire in wires && Carried(ids, rules, id, view, wire).Some?
    ensures wire.targetVariable in Wired(ids, rules, id, view, wires)
  {
    if wire != wires[|wires| - 1] {
      assert wires == wires[..|wires| - 1] + [wires[|wires| - 1]];
      CarriedIsWired(ids, rules, id, view, wires[..|wires| - 1], wire);
    }
  }

  lemma StepAt(plan: Plan, id: Node, n: nat) returns (step: Node)
    requires SortedLevels(plan) && id in plan.levels && n <= plan.levels[id]
    ensures step in plan.levels && plan.levels[step] == n
    decreases plan.levels[id]
  {
    if n == plan.levels[id] {
      step := id;
    } else {
      var x := LongestPathPredecessor(Wiring(plan), id, plan.levels[id]);
      LongestPathUnique(Wiring(plan), x, plan.levels[x], plan.levels[id] - 1);
      step := StepAt(plan, x, n);
    }
  }

  lemma WireFromBelow(plan: Plan, id: Node) returns (rule: WiringRule, x: Node)
    requires SortedLevels(plan) && id in plan.levels && plan.levels[id] > 0
    ensures Wires(plan, rule, x, id) && plan.levels[x] + 1 == plan.levels[id]
  {
    x := LongestPathPredecessor(Wiring(plan), id, plan.levels[id]);
    LongestPathUnique(Wiring(plan), x, plan.levels[x], plan.levels[id] - 1);
    rule :| rule in plan.request.rules && Internal(plan.levels.Keys, rule)
      && (rule.sourceTemplate, rule.targetTemplate) == (x, id);
  }

  lemma AllLaunched(plan: Plan, execute: Execution, order: seq<Node>)
    requires Completion(plan, order)
    ensures var w := Undisturbed(plan, execute, order);
            w.steps.Keys == plan.levels.Keys
  {
    RunInv(plan, execute, Messages(order));
    UndisturbedState(plan, execute, order, |order|);
    assert order[..|order|] == order;
  }

  lemma SeenUndisturbed(plan: Plan, execute: Execution, order: seq<Node>, id: Node)
    requires SortedLevels(plan) && Completion(plan, order) && id in plan.levels
    ensures var w := Undisturbed(plan, execute, order); id in w.steps && w.steps[id].seen <= Below(plan, id)
  {
    assert order[..|order|] == order;
    if plan.levels[id] == 0 {
      FirstLaunch(plan, execute, order, |order|, id);
    } else {
      var rule, x := WireFromBelow(plan, id);
      var k := LastOfLevel(plan, order, x);
      UndisturbedLaunch(plan, execute, order, |order|, k, id);
    }
  }

  /** A blueprint without defaults or overrides in which only the resource of x has an output. */
  predicate OnlyOutput(plan: Plan, x: Node, name: string, v: Value) {
    plan.request.defaults == map[] && plan.request.overrides == map[] && x in plan.levels
  }

  function Single(x: Node, name: string, v: Value): Execution {
    (id, variables) => if id == x then map[name := v] else map[]
  }

  lemma LaunchedIsWired(ids: set<Node>, request: Request, id: Node, view: View)
    requires request.defaults == map[] && request.overrides == map[]
    ensures Launched(ids, request, id, view) == Wired(ids, request.rules, id, view, request.rules)
  {
    CreatedWithoutWires(request, id);
  }

  /** Up to the level of x, nothing has a value. */
  lemma {:induction false} BlankBelow(plan: Plan, x: Node, name: string, v: Value, order: seq<Node>, id: Node)
    requires SortedLevels(plan) && Completion(plan, order) && OnlyOutput(plan, x, name, v)
    requires id in plan.levels && plan.levels[id] <= plan.levels[x]
    ensures var w := Undisturbed(plan, Single(x, name, v), order);
            id in w.steps && w.steps[id].variables == map[] && (id != x ==> w.steps[id].outputs == map[])
    decreases plan.levels[id]
  {
    var execute := Single(x, name, v);
    var w := Undisturbed(plan, execute, order);
    AllLaunched(plan, execute, order);
    SeenUndisturbed(plan, execute, order, id);
    LaunchExplained(plan, execute, Messages(order), id);
    forall s | s in w.steps[id].seen {
      BlankBelow(plan, x, name, v, order, s);
    }
    var view := View(w.steps[id].seen, w.steps);
    NothingWired(plan.levels.Keys, plan.request.rules, id, view, plan.request.rules);
    LaunchedIsWired(plan.levels.Keys, plan.request, id, view);
  }

  /** If x completes last below a step wired from it, the step gets nothing. */
  lemma GetsNothing(plan: Plan, x: Node, name: string, v: Value, order: seq<Node>, k: nat, id: Node)
    requires SortedLevels(plan) && Completion(plan, order) && OnlyOutput(plan, x, name, v)
    requires id in plan.levels && plan.levels[id] == plan.levels[x] + 1
    requires LastBelow(plan, order, k, id) && order[k] == x
    ensures var w := Undisturbed(plan, Single(x, name, v), order); id in w.steps && w.steps[id].variables == map[]
  {
    var execute := Single(x, name, v);
    var w := Undisturbed(plan, execute, order);
    LastFinisherUnseen(plan, execute, order, k, id);
    var view := View(Below(plan, id) - {x}, w.steps);
    forall s | s in view.done
      ensures VariablesOf(w.steps, s) == map[] && OutputsOf(w.steps, s) == map[]
    {
      BlankBelow(plan, x, name, v, order, s);
    }
    NothingWired(plan.levels.Keys, plan.request.rules, id, view, plan.request.rules);
    LaunchedIsWired(plan.levels.Keys, plan.request, id, view);
  }

  /** If another step completes last, it gets the value. */
  lemma GetsValue(plan: Plan, rule: WiringRule, x: Node, v: Value, order: seq<Node>, k: nat, id: Node)
    requires SortedLevels(plan) && Completion(plan, order) && OnlyOutput(plan, x, rule.sourceOutput, v)
    requires Wires(plan, rule, x, id) && LastBelow(plan, order, k, id) && order[k] != x
    ensures var w := Undisturbed(plan, Single(x, rule.sourceOutput, v), order);
            id in w.steps && rule.targetVariable in w.steps[id].variables
  {
    var execute := Single(x, rule.sourceOutput, v);
    var w := Undisturbed(plan, execute, order);
    LastFinisherUnseen(plan, execute, order, k, id);
    WireAscends(plan, rule, x, id);
    OutputLaunched(plan, x, rule.sourceOutput, v, order);
    var view := View(Below(plan, id) - {order[k]}, w.steps);
    CarriedIsWired(plan.levels.Keys, plan.request.rules, id, view, plan.request.rules, rule);
    LaunchedIsWired(plan.levels.Keys, plan.request, id, view);
  }

  lemma OutputLaunched(plan: Plan, x: Node, name: string, v: Value, order: seq<Node>)
    requires Completion(plan, order) && x in plan.levels
    ensures var w := Undisturbed(plan, Single(x, name, v), order);
            x in w.steps && w.steps[x].outputs == map[name := v]
  {
    AllLaunched(plan, Single(x, name, v), order);
    LaunchExplained(plan, Single(x, name, v), Messages(order), x);
  }

  lemma AbreastDiverges(plan: Plan, base: seq<Node>, v: Value)
    requires SortedLevels(plan) && Completion(plan, base) && !SingleFile(plan.levels)
    ensures !Confluent(plan.levels, plan.request.rules)
  {
    var a, b, above :| a in plan.levels && b in plan.levels && above in plan.levels
      && plan.levels[a] == plan.levels[b] < plan.levels[above] && a != b;
    var bare := Plan(plan.levels, Request(map[], map[], plan.request.rules));
    assert Wiring(bare) == Wiring(plan);
    var id := StepAt(bare, above, plan.levels[a] + 1);
    var rule, x := WireFromBelow(bare, id);
    var y := if x == a then b else a;
    var order, k := CompletesLast(bare, base, x, id);
    var order', k' := CompletesLast(bare, base, y, id);
    GetsNothing(bare, x, rule.sourceOutput, v, order, k, id);
    GetsValue(bare, rule, x, v, order', k', id);
    var execute := Single(x, rule.sourceOutput, v);
    assert !SameResults(Undisturbed(bare, execute, order), Undisturbed(bare, execute, order'));
  }

  /**
   * All orders of completion lead to the same results, whatever the defaults, the overrides and the
   * templates, exactly when every level of the blueprint but the last has a single step.
   */
  lemma ConfluentIffSingleFile(plan: Plan, base: seq<Node>, v: Value)
    requires SortedLevels(plan) && Completion(plan, base)
    ensures Confluent(plan.levels, plan.request.rules) <==> SingleFile(plan.levels)
  {
    if SingleFile(plan.levels) {
      SingleFileConfluent(plan);
    } else {
      AbreastDiverges(plan, base, v);
    }
  }

  /** The topological sort provides the levels, and an order in which the steps can complete. */
  lemma SortedPlan(ids: set<Node>, request: Request, order: seq<Placement>) returns (plan: Plan)
    requires IsLevelOrder(ids, WiringEdges(ids, request.rules), order)
    ensures plan.levels.Keys == ids && plan.request == request
    ensures SortedLevels(plan) && Completion(plan, Templates(order))
  {
    LevelOrderSourcesFirst(ids, request.rules, order);
    var levels := LevelMap(order);
    assert forall id :: id in Placed(order) <==> id in levels;
    plan := Plan(levels, request);
    assert forall i :: 0 <= i < |order| ==> Templates(order)[i] == order[i].0;
  }

  lemma LevelMap(order: seq<Placement>) returns (levels: map<Node, nat>)
    requires Ascending(order)
    ensures levels.Keys == Placed(order)
    ensures forall i :: 0 <= i < |order| ==> order[i].0 in levels && levels[order[i].0] == order[i].1
  {
    levels := map[];
    for k := 0 to |order|
      invariant levels.Keys == Placed(order[..k])
      invariant forall i :: 0 <= i < k ==> order[i].0 in levels && levels[order[i].0] == order[i].1
    {
      assert Placed(order[..k + 1]) == Placed(order[..k]) + {order[k].0};
      levels := levels[order[k].0 := order[k].1];
    }
    assert order[..|order|] == order;
  }

  /** A workflow of two steps, the second wired from the first. */
  function Chain(a: Node, b: Node): Plan {
    Plan(map[a := 0, b := 1], Request(map[], map[], [WiringRule(a, "out", b, "in")]))
  }

  /** Two templates, one wired to the other: the second never receives the first one's output. */
  lemma ChainLosesWire(a: Node, b: Node, v: Value)
    requires a != b
    ensures SortedLevels(Chain(a, b)) && Completion(Chain(a, b), [a, b])
    ensures var w := Undisturbed(Chain(a, b), Single(a, "out", v), [a, b]);
            && w.done == {a, b} && b in w.steps && w.steps[b].variables == map[]
            && Documented({a, b}, Chain(a, b).request, b, View(w.done, w.steps)) == map["in" := v]
  {
    ChainCompletes(a, b);
    ChainLost(Chain(a, b), a, b, v, [a, b]);
    ChainDone(Chain(a, b), a, b, v, [a, b]);
    ChainDocumented(a, b, v, View({a, b}, Undisturbed(Chain(a, b), Single(a, "out", v), [a, b]).steps));
  }

  lemma ChainCompletes(a: Node, b: Node)
    requires a != b
    ensures SortedLevels(Chain(a, b)) && Completion(Chain(a, b), [a, b])
  {
    ChainLevels(a, b);
    assert Elements([a, b]) == {a, b} == Chain(a, b).levels.Keys;
  }

  lemma ChainLost(plan: Plan, a: Node, b: Node, v: Value, order: seq<Node>)
    requires a != b && plan.levels == map[a := 0, b := 1] && OnlyOutput(plan, a, "out", v)
    requires SortedLevels(plan) && Completion(plan, order) && |order| == 2 && order[0] == a && order[1] == b
    ensures var w := Undisturbed(plan, Single(a, "out", v), order); b in w.steps && w.steps[b].variables == map[]
  {
    GetsNothing(plan, a, "out", v, order, 0, b);
  }

  lemma ChainDone(plan: Plan, a: Node, b: Node, v: Value, order: seq<Node>)
    requires plan.levels.Keys == {a, b} && Completion(plan, order)
    ensures var w := Undisturbed(plan, Single(a, "out", v), order);
            w.done == {a, b} && OutputsOf(w.steps, a) == map["out" := v]
  {
    var execute := Single(a, "out", v);
    UndisturbedState(plan, execute, order, |order|);
    assert order[..|order|] == order;
    AllLaunched(plan, execute, order);
    LaunchExplained(plan, execute, Messages(order), a);
  }

  lemma ChainDocumented(a: Node, b: Node, v: Value, view: View)
    requires a != b && view.done == {a, b} && OutputsOf(view.steps, a) == map["out" := v]
    ensures Documented({a, b}, Chain(a, b).request, b, view) == map["in" := v]
  {
    var rules := Chain(a, b).request.rules;
    assert rules[..0] == [];
    assert Wired({a, b}, rules, b, view, rules[..0]) == map[];
  }

  lemma ChainLevels(a: Node, b: Node)
    requires a != b
    ensures SortedLevels(Chain(a, b))
  {
    var edges := Wiring(Chain(a, b));
    assert Chain(a, b).levels.Keys == {a, b} && edges == {(a, b)};
    forall p | IsPath(edges, p)
      ensures |p| <= 2 && (Last(p) == a ==> |p| == 1)
    {
      ChainPath(a, b, edges, p);
    }
    assert IsPath(edges, [a]) && Last([a]) == a && IsPath(edges, [a, b]) && Last([a, b]) == b;
  }

  lemma {:induction false} ChainPath(a: Node, b: Node, edges: Edges, p: seq<Node>)
    requires a != b && edges == {(a, b)} && IsPath(edges, p)
    ensures |p| <= 2 && (Last(p) == a ==> |p| == 1)
  {
    if |p| > 1 {
      var n := |p| - 1;
      SubPath(edges, p, 0, n);
      ChainPath(a, b, edges, p[0..n]);
      assert (p[n - 1], p[n - 1 + 1]) in edges;
    }
  }
}
