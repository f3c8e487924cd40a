/**
 * Executing a blueprint's workflow. Each message starts a task, which reads the steps once,
 * when it is built. It may mark steps done and launch the steps this unblocks, but resolves
 * their wires from what it read at the beginning.
 */
module BlueprintRunner {
  import opened Common
  import opened Graphs
  import opened BlueprintOrdering
  import opened BlueprintWiring

  /**
   * A launched step: its variables and what its resource outputs, the steps its task had read as done, and
   * those which that task itself marked done.
   */
  datatype Step = Step(variables: Variables, outputs: Variables, seen: set<Node>, finishing: set<Node>)

  type Steps = map<Node, Step>

  function VariablesOf(steps: Steps, id: Node): Variables {
    if id in steps then steps[id].variables else map[]
  }

  function OutputsOf(steps: Steps, id: Node): Variables {
    if id in steps then steps[id].outputs else map[]
  }

  /** What a task knows: the steps it read as done, with their variables and outputs. */
  datatype View = View(done: set<Node>, steps: Steps)

  /**
   * The value of a wire whose source is no step: taken from the first completed step that is wired to
   * the same output of the same source.
   */
  function Inferred(rules: seq<WiringRule>, id: Node, view: View, wire: WiringRule): Option<Value> {
    if rules == [] then None
    else if Reveals(rules[0], id, view, wire) then Some(VariablesOf(view.steps, rules[0].targetTemplate)[rules[0].targetVariable])
    else Inferred(rules[1..], id, view, wire)
  }

  predicate Reveals(rule: WiringRule, id: Node, view: View, wire: WiringRule) {
    && rule.sourceTemplate == wire.sourceTemplate && rule.sourceOutput == wire.sourceOutput
    && rule.targetTemplate != id && rule.targetTemplate in view.done
    && rule.targetVariable in VariablesOf(view.steps, rule.targetTemplate)
  }

  /** What a wire brings to step id, if anything. */
  function Carried(ids: set<Node>, rules: seq<WiringRule>, id: Node, view: View, wire: WiringRule): Option<Value> {
    if wire.targetTemplate != id then None
    else if wire.sourceTemplate !in ids then Inferred(rules, id, view, wire)
    else if wire.sourceTemplate in view.done then At(OutputsOf(view.steps, wire.sourceTemplate), wire.sourceOutput)
    else None
  }

  /** The last value that the wires among these bring for a variable. */
  function LastCarried(ids: set<Node>, rules: seq<WiringRule>, id: Node, view: View, wires: seq<WiringRule>, name: string): Option<Value> {
    if wires == [] then None
    else
      var wire := wires[|wires| - 1];
      var value := Carried(ids, rules, id, view, wire);
      if wire.targetVariable == name && value.Some? then value
      else LastCarried(ids, rules, id, view, wires[..|wires| - 1], name)
  }

  function Wired(ids: set<Node>, rules: seq<WiringRule>, id: Node, view: View, wires: seq<WiringRule>): Variables {
    if wires == [] then map[]
    else
      var wire := wires[|wires| - 1];
      var before := Wired(ids, rules, id, view, wires[..|wires| - 1]);
      var value := Carried(ids, rules, id, view, wire);
      if value.Some? then before[wire.targetVariable := value.value] else before
  }

  lemma WiredAt(ids: set<Node>, rules: seq<WiringRule>, id: Node, view: View, wires: seq<WiringRule>, name: string)
    ensures At(Wired(ids, rules, id, view, wires), name) == LastCarried(ids, rules, id, view, wires, name)
  {
  }

  // The same by position.

  /** Rule r is the first that wires the same output of the same source to another step that is done and holds the variable. */
  predicate FirstTelling(rules: seq<WiringRule>, r: int, id: Node, view: View, source: Node, output: string) {
    && 0 <= r < |rules| && Tells(rules[r], id, view, source, output)
    && forall q :: 0 <= q < r ==> !Tells(rules[q], id, view, source, output)
  }

  predicate Tells(rule: WiringRule, id: Node, view: View, source: Node, output: string) {
    && (rule.sourceTemplate, rule.sourceOutput) == (source, output) && rule.targetTemplate in view.done - {id}
    && rule.targetTemplate in view.steps && rule.targetVariable in view.steps[rule.targetTemplate].variables
  }

  /**
   * Rule k brings x to step id: its source is a done step that puts x out; or its source is no step, and the first other
   * done step that is wired to the same output holds x.
   */
  ghost predicate Brings(ids: set<Node>, rules: seq<WiringRule>, id: Node, view: View, k: int, x: Value)
    requires 0 <= k < |rules|
  {
    var (source, output) := (rules[k].sourceTemplate, rules[k].sourceOutput);
    && rules[k].targetTemplate == id
    && if source in ids then
         source in view.done && source in view.steps && output in view.steps[source].outputs && view.steps[source].outputs[output] == x
       else
         exists r :: FirstTelling(rules, r, id, view, source, output)
           && view.steps[rules[r].targetTemplate].variables[rules[r].targetVariable] == x
  }

  ghost predicate BringsNothing(ids: set<Node>, rules: seq<WiringRule>, id: Node, view: View, k: int)
    requires 0 <= k < |rules|
  {
    forall x :: !Brings(ids, rules, id, view, k, x)
  }

  /** Rule k is the last of the first n that brings something for the variable, and it brings x. */
  ghost predicate LastBringing(ids: set<Node>, rules: seq<WiringRule>, id: Node, view: View, n: nat, k: int, name: string, x: Value)
    requires n <= |rules|
  {
    && 0 <= k < n && rules[k].targetVariable == name && Brings(ids, rules, id, view, k, x)
    && forall l :: k < l < n && rules[l].targetVariable == name ==> BringsNothing(ids, rules, id, view, l)
  }

  ghost predicate WiredBy(ids: set<Node>, rules: seq<WiringRule>, id: Node, view: View, n: nat, name: string, x: Value)
    requires n <= |rules|
  {
    exists k :: LastBringing(ids, rules, id, view, n, k, name, x)
  }

  lemma {:induction false} InferredByPosition(rules: seq<WiringRule>, id: Node, view: View, wire: WiringRule)
    ensures forall r :: FirstTelling(rules, r, id, view, wire.sourceTemplate, wire.sourceOutput) ==>
      Inferred(rules, id, view, wire) == Some(view.steps[rules[r].targetTemplate].variables[rules[r].targetVariable])
    ensures Inferred(rules, id, view, wire).Some? ==>
      exists r :: FirstTelling(rules, r, id, view, wire.sourceTemplate, wire.sourceOutput)
  {
    if rules != [] {
      InferredByPosition(rules[1..], id, view, wire);
      if Tells(rules[0], id, view, wire.sourceTemplate, wire.sourceOutput) {
        assert FirstTelling(rules, 0, id, view, wire.sourceTemplate, wire.sourceOutput);
      } else {
        forall r
          ensures FirstTelling(rules, r, id, view, wire.sourceTemplate, wire.sourceOutput)
             <==> FirstTelling(rules[1..], r - 1, id, view, wire.sourceTemplate, wire.sourceOutput)
        {
          TellingBehind(rules, r, id, view, wire.sourceTemplate, wire.sourceOutput);
        }
        if r :| FirstTelling(rules[1..], r, id, view, wire.sourceTemplate, wire.sourceOutput) {
          assert FirstTelling(rules, r + 1, id, view, wire.sourceTemplate, wire.sourceOutput);
        }
      }
    }
  }

  lemma TellingBehind(rules: seq<WiringRule>, r: int, id: Node, view: View, source: Node, output: string)
    requires rules != [] && !Tells(rules[0], id, view, source, output)
    ensures FirstTelling(rules, r, id, view, source, output) <==> FirstTelling(rules[1..], r - 1, id, view, source, output)
  {
    if FirstTelling(rules[1..], r - 1, id, view, source, output) {
      forall q | 0 <= q < r
        ensures !Tells(rules[q], id, view, source, output)
      {
        assert q > 0 ==> rules[q] == rules[1..][q - 1];
      }
    }
  }

  lemma CarriedByPosition(ids: set<Node>, rules: seq<WiringRule>, id: Node, view: View, k: nat, x: Value)
    requires k < |rules|
    ensures Carried(ids, rules, id, view, rules[k]) == Some(x) <==> Brings(ids, rules, id, view, k, x)
  {
    InferredByPosition(rules, id, view, rules[k]);
  }

  lemma {:induction false} LastCarriedByPosition(ids: set<Node>, rules: seq<WiringRule>, id: Node, view: View, n: nat, name: string, x: Value)
    requires n <= |rules|
    ensures LastCarried(ids, rules, id, view, rules[..n], name) == Some(x) <==> WiredBy(ids, rules, id, view, n, name, x)
  {
    if n > 0 {
      var m := n - 1;
      assert rules[..n][..m] == rules[..m];
      LastCarriedByPosition(ids, rules, id, view, m, name, x);
      forall y
        ensures Carried(ids, rules, id, view, rules[m]) == Some(y) <==> Brings(ids, rules, id, view, m, y)
      {
        CarriedByPosition(ids, rules, id, view, m, y);
      }
      WiredByStep(ids, rules, id, view, m, name, x);
      assert Carried(ids, rules, id, view, rules[m]) == None <==> BringsNothing(ids, rules, id, view, m) by {
        if Carried(ids, rules, id, view, rules[m]).Some? {
          assert Brings(ids, rules, id, view, m, Carried(ids, rules, id, view, rules[m]).value);
        }
      }
    }
  }

  lemma WiredByStep(ids: set<Node>, rules: seq<WiringRule>, id: Node, view: View, m: nat, name: string, x: Value)
    requires m < |rules|
    ensures WiredBy(ids, rules, id, view, m + 1, name, x)
       <==> if rules[m].targetVariable == name && !BringsNothing(ids, rules, id, view, m)
            then Brings(ids, rules, id, view, m, x) else WiredBy(ids, rules, id, view, m, name, x)
  {
    var n := m + 1;
    if rules[m].targetVariable == name && Brings(ids, rules, id, view, m, x) {
      assert LastBringing(ids, rules, id, view, n, m, name, x);
    }
    if k :| LastBringing(ids, rules, id, view, m, k, name, x) {
      if !(rules[m].targetVariable == name && !BringsNothing(ids, rules, id, view, m)) {
        assert LastBringing(ids, rules, id, view, n, k, name, x);
      }
    }
    if k :| LastBringing(ids, rules, id, view, n, k, name, x) {
      if k < m {
        assert LastBringing(ids, rules, id, view, m, k, name, x);
      }
    }
  }

  method InferConstant(rules: seq<WiringRule>, id: Node, view: View, wire: WiringRule) returns (value: Option<Value>)
    ensures value == Inferred(rules, id, view, wire)
  {
    for k := 0 to |rules|
      invariant Inferred(rules, id, view, wire) == Inferred(rules[k..], id, view, wire)
    {
      assert rules[k..][1..] == rules[k + 1..];
      if Reveals(rules[k], id, view, wire) {
        return Some(VariablesOf(view.steps, rules[k].targetTemplate)[rules[k].targetVariable]);
      }
    }
    return None;
  }

  /** The run-time half of the merge. */
  method ResolveWiredVariables(ids: set<Node>, rules: seq<WiringRule>, id: Node, view: View) returns (wired: Variables)
    ensures wired == Wired(ids, rules, id, view, rules)
    ensures forall name :: At(wired, name) == LastCarried(ids, rules, id, view, rules, name)
    ensures forall name, x :: WiredBy(ids, rules, id, view, |rules|, name, x) <==> name in wired && wired[name] == x
  {
    wired := map[];
    for k := 0 to |rules|
      invariant wired == Wired(ids, rules, id, view, rules[..k])
    {
      var rule := rules[k];
      assert rules[..k + 1][..k] == rules[..k];
      if rule.targetTemplate != id {
        continue;
      }
      if rule.sourceTemplate in ids && rule.sourceTemplate in view.done {
        if rule.sourceOutput in OutputsOf(view.steps, rule.sourceTemplate) {
          wired := wired[rule.targetVariable := OutputsOf(view.steps, rule.sourceTemplate)[rule.sourceOutput]];
        }
      } else if rule.sourceTemplate !in ids {
        var value := InferConstant(rules, id, view, rule);
        if value.Some? {
          wired := wired[rule.targetVariable := value.value];
        }
      }
    }
    assert rules[..|rules|] == rules;
    forall name {
      WiredAt(ids, rules, id, view, rules, name);
    }
    forall name, x
      ensures WiredBy(ids, rules, id, view, |rules|, name, x) <==> name in wired && wired[name] == x
    {
      LastCarriedByPosition(ids, rules, id, view, |rules|, name, x);
      assert At(wired, name) == LastCarried(ids, rules, id, view, rules, name);
    }
  }

  /** What a step is launched with: the variables fixed at creation, then those wired at run time. */
  function Launched(ids: set<Node>, request: Request, id: Node, view: View): Variables {
    Resolve(request, id, map[]) + Wired(ids, request.rules, id, view, request.rules)
  }

  /** The documented priority: run-time override, wired output, blueprint default. */
  function Documented(ids: set<Node>, request: Request, id: Node, view: View): Variables {
    Of(request.defaults, id) + Wired(ids, request.rules, id, view, request.rules) + Of(request.overrides, id)
  }

  lemma LaunchedAt(ids: set<Node>, request: Request, id: Node, view: View, name: string)
    ensures At(Launched(ids, request, id, view), name) ==
      Or(LastCarried(ids, request.rules, id, view, request.rules, name),
         Or(At(Of(request.overrides, id), name), At(Of(request.defaults, id), name)))
    ensures At(Documented(ids, request, id, view), name) ==
      Or(At(Of(request.overrides, id), name),
         Or(LastCarried(ids, request.rules, id, view, request.rules, name), At(Of(request.defaults, id), name)))
  {
    CreatedWithoutWires(request, id);
    WiredAt(ids, request.rules, id, view, request.rules, name);
  }

  /** An override that a wire replaces with something else. */
  ghost predicate Shadowed(ids: set<Node>, request: Request, id: Node, view: View, name: string) {
    && name in Of(request.overrides, id)
    && var value := LastCarried(ids, request.rules, id, view, request.rules, name);
       value.Some? && value.value != Of(request.overrides, id)[name]
  }

  /** A variable without override to which the wires bring less than they would in the fuller view. */
  ghost predicate Dropped(ids: set<Node>, request: Request, id: Node, view: View, full: View, name: string) {
    && name !in Of(request.overrides, id)
    && var base := At(Of(request.defaults, id), name);
       Or(LastCarried(ids, request.rules, id, view, request.rules, name), base)
         != Or(LastCarried(ids, request.rules, id, full, request.rules, name), base)
  }

  lemma SameVariables(a: Variables, b: Variables)
    requires forall name :: At(a, name) == At(b, name)
    ensures a == b
  {
    forall name
      ensures name in a <==> name in b
      ensures name in a ==> a[name] == b[name]
    {
      assert At(a, name) == At(b, name);
    }
  }

  /**
   * A step launched from one view has the variables documented for a fuller one exactly when no wire
   * replaces an override with something else and nothing the fuller view adds would show.
   */
  lemma LaunchMeetsDocumentedPriority(ids: set<Node>, request: Request, id: Node, view: View, full: View)
    ensures Launched(ids, request, id, view) == Documented(ids, request, id, full)
       <==> forall name :: !Shadowed(ids, request, id, view, name) && !Dropped(ids, request, id, view, full, name)
  {
    var launched, documented := Launched(ids, request, id, view), Documented(ids, request, id, full);
    forall name
      ensures At(launched, name) == At(documented, name) <==>
        !Shadowed(ids, request, id, view, name) && !Dropped(ids, request, id, view, full, name)
    {
      LaunchedAt(ids, request, id, view, name);
      LaunchedAt(ids, request, id, full, name);
    }
    if forall name :: !Shadowed(ids, request, id, view, name) && !Dropped(ids, request, id, view, full, name) {
      SameVariables(launched, documented);
    }
  }

  /** A wire does replace a run-time override: the concrete case. */
  lemma WireReplacesOverride(a: Node, b: Node, wired: Value, override: Value)
    requires wired != override && a != b
    ensures var request := Request(map[], map[b := map["in" := override]], [WiringRule(a, "out", b, "in")]);
            var view := View({a}, map[a := Step(map[], map["out" := wired], {}, {})]);
            && Documented({a, b}, request, b, view) == map["in" := override]
            && Launched({a, b}, request, b, view) == map["in" := wired]
  {
    var rules := [WiringRule(a, "out", b, "in")];
    var view := View({a}, map[a := Step(map[], map["out" := wired], {}, {})]);
    assert rules[..0] == [];
    assert Wired({a, b}, rules, b, view, rules) == map["in" := wired];
    CreatedWithoutWires(Request(map[], map[b := map["in" := override]], rules), b);
  }

  /** A workflow: the position of each template's step, and what it was created from. */
  datatype Plan = Plan(levels: map<Node, nat>, request: Request)

  /** What a template's resource outputs, given its variables. */
  type Execution = (Node, Variables) -> Variables

  /** The steps that are done and those that are running; the rest wait. */
  datatype World = World(done: set<Node>, running: set<Node>, steps: Steps)

  /** The steps at lower positions. */
  function Below(plan: Plan, id: Node): set<Node> {
    set other | other in plan.levels && id in plan.levels && plan.levels[other] < plan.levels[id]
  }

  const Start: World := World({}, {}, map[])

  /** The waiting steps at the lowest position that is not done, unless creating their resource fails. */
  function Ready(plan: Plan, w: World, done: set<Node>, failing: set<Node>): set<Node> {
    set id | id in plan.levels && id !in done && id !in w.running && id !in failing && Below(plan, id) <= done
  }

  /** Launching a step: its wires are resolved from the view, its resource is created. */
  function LaunchStep(plan: Plan, execute: Execution, view: View, id: Node, finishing: set<Node>): Step {
    var variables := Launched(plan.levels.Keys, plan.request, id, view);
    Step(variables, execute(id, variables), view.done, finishing)
  }

  function Launch(plan: Plan, execute: Execution, w: World, view: View, launched: set<Node>, finishing: set<Node>): World {
    World(w.done, w.running + launched, w.steps + map id | id in launched :: LaunchStep(plan, execute, view, id, finishing))
  }

  function Finish(w: World, finishing: set<Node>): World {
    w.(done := w.done + finishing, running := w.running - finishing)
  }

  /**
   * One task. It finds the resources of some running steps provisioned and marks these steps done; then it
   * launches the steps that are ready, with what it had read before.
   */
  function Next(plan: Plan, execute: Execution, w: World, finished: set<Node>, failing: set<Node>): World {
    var finishing := finished * w.running;
    Launch(plan, execute, Finish(w, finishing), View(w.done, w.steps),
           Ready(plan, w, w.done + finishing, failing), finishing)
  }

  /**
   * A task marks done exactly the running steps it finds finished, launches exactly the waiting steps that have all lower
   * ones done by then and whose resource can be created, and leaves the others as they are.
   */
  lemma TaskDoes(plan: Plan, execute: Execution, w: World, finished: set<Node>, failing: set<Node>, id: Node)
    requires Bounded(plan, w) && id in plan.levels
    ensures var w' := Next(plan, execute, w, finished, failing);
            var launched := id !in w.done && id !in w.running && id !in failing
                            && forall other :: other in plan.levels && plan.levels[other] < plan.levels[id] ==> other in w'.done;
            && (id in w'.done <==> id in w.done || (id in w.running && id in finished))
            && (id in w'.running <==> launched || (id in w.running && id !in finished))
            && (id in w'.steps <==> launched || id in w.steps) && (!launched && id in w.steps ==> w'.steps[id] == w.steps[id])
  {
  }

  datatype Task = Task(finished: set<Node>, failing: set<Node>)

  function Run(plan: Plan, execute: Execution, tasks: seq<Task>): World {
    if tasks == [] then Start
    else
      var last := tasks[|tasks| - 1];
      Next(plan, execute, Run(plan, execute, tasks[..|tasks| - 1]), last.finished, last.failing)
  }

  predicate Bounded(plan: Plan, w: World) {
    w.done !! w.running && w.steps.Keys == w.done + w.running <= plan.levels.Keys
  }

  /** When a step was launched every lower step was done, read as such by its task or marked so by it. */
  predicate Ordered(plan: Plan, w: World) {
    forall id :: id in w.steps ==>
      && w.steps[id].seen !! w.steps[id].finishing
      && Below(plan, id) <= w.steps[id].seen + w.steps[id].finishing <= w.done
  }

  /** A step's variables and outputs follow from what its task had read. */
  predicate ExplainedAt(plan: Plan, execute: Execution, w: World, id: Node)
    requires id in w.steps
  {
    var step := w.steps[id];
    && step.variables == Launched(plan.levels.Keys, plan.request, id, View(step.seen, w.steps))
    && step.outputs == execute(id, step.variables)
  }

  predicate Explained(plan: Plan, execute: Execution, w: World) {
    forall id :: id in w.steps ==> ExplainedAt(plan, execute, w, id)
  }

  predicate Inv(plan: Plan, execute: Execution, w: World) {
    Bounded(plan, w) && Ordered(plan, w) && Explained(plan, execute, w)
  }

  lemma InferredLocal(rules: seq<WiringRule>, id: Node, a: View, b: View, wire: WiringRule)
    requires a.done == b.done && forall s :: s in a.done ==> VariablesOf(a.steps, s) == VariablesOf(b.steps, s)
    ensures Inferred(rules, id, a, wire) == Inferred(rules, id, b, wire)
  {
  }

  /** Resolving looks at nothing but the steps read as done. */
  lemma WiredLocal(ids: set<Node>, rules: seq<WiringRule>, id: Node, a: View, b: View, wires: seq<WiringRule>)
    requires a.done == b.done
    requires forall s :: s in a.done ==> VariablesOf(a.steps, s) == VariablesOf(b.steps, s) && OutputsOf(a.steps, s) == OutputsOf(b.steps, s)
    ensures Wired(ids, rules, id, a, wires) == Wired(ids, rules, id, b, wires)
  {
    if wires != [] {
      WiredLocal(ids, rules, id, a, b, wires[..|wires| - 1]);
      InferredLocal(rules, id, a, b, wires[|wires| - 1]);
    }
  }

  /** The steps launched before stay as they are. */
  predicate Kept(w: World, w': World, id: Node) {
    id in w.steps ==> id in w'.steps && w'.steps[id] == w.steps[id]
  }

  lemma LaunchBounded(plan: Plan, execute: Execution, w: World, view: View, launched: set<Node>, finishing: set<Node>)
    requires Bounded(plan, w) && launched <= plan.levels.Keys && launched !! w.done + w.running
    ensures Bounded(plan, Launch(plan, execute, w, view, launched, finishing))
    ensures forall id :: Kept(w, Launch(plan, execute, w, view, launched, finishing), id)
  {
    assert Launch(plan, execute, w, view, launched, finishing).steps.Keys == w.steps.Keys + launched;
  }

  lemma FinishBounded(plan: Plan, w: World, finishing: set<Node>)
    requires Bounded(plan, w) && finishing <= w.running
    ensures Bounded(plan, Finish(w, finishing))
    ensures Finish(w, finishing).done + Finish(w, finishing).running == w.done + w.running
  {
  }

  lemma NextBounded(plan: Plan, execute: Execution, w: World, finished: set<Node>, failing: set<Node>)
    requires Bounded(plan, w)
    ensures Bounded(plan, Next(plan, execute, w, finished, failing))
    ensures forall id :: Kept(w, Next(plan, execute, w, finished, failing), id)
  {
    var finishing := finished * w.running;
    FinishBounded(plan, w, finishing);
    var view, launched := View(w.done, w.steps), Ready(plan, w, w.done + finishing, failing);
    LaunchBounded(plan, execute, Finish(w, finishing), view, launched, finishing);
    forall id
      ensures Kept(w, Next(plan, execute, w, finished, failing), id)
    {
      assert Kept(Finish(w, finishing), Next(plan, execute, w, finished, failing), id);
    }
  }

  lemma NextLaunches(plan: Plan, execute: Execution, w: World, finished: set<Node>, failing: set<Node>, id: Node)
    requires id in Ready(plan, w, w.done + finished * w.running, failing)
    ensures var w' := Next(plan, execute, w, finished, failing);
            id in w'.steps && w'.steps[id] == LaunchStep(plan, execute, View(w.done, w.steps), id, finished * w.running)
  {
  }

  /** What a task had read still reads the same later. */
  lemma SameLaunch(plan: Plan, w: World, w': World, id: Node, seen: set<Node>)
    requires seen <= w.steps.Keys && forall other :: Kept(w, w', other)
    ensures Launched(plan.levels.Keys, plan.request, id, View(seen, w.steps))
         == Launched(plan.levels.Keys, plan.request, id, View(seen, w'.steps))
  {
    forall s | s in seen
      ensures VariablesOf(w.steps, s) == VariablesOf(w'.steps, s) && OutputsOf(w.steps, s) == OutputsOf(w'.steps, s)
    {
      assert Kept(w, w', s);
    }
    WiredLocal(plan.levels.Keys, plan.request.rules, id, View(seen, w.steps), View(seen, w'.steps), plan.request.rules);
  }

  lemma NextExplained(plan: Plan, execute: Execution, w: World, finished: set<Node>, failing: set<Node>, id: Node)
    requires Inv(plan, execute, w) && id in Next(plan, execute, w, finished, failing).steps
    ensures ExplainedAt(plan, execute, Next(plan, execute, w, finished, failing), id)
  {
    var w' := Next(plan, execute, w, finished, failing);
    NextBounded(plan, execute, w, finished, failing);
    if id in w.steps {
      assert Kept(w, w', id) && ExplainedAt(plan, execute, w, id);
      SameLaunch(plan, w, w', id, w.steps[id].seen);
    } else {
      NextLaunches(plan, execute, w, finished, failing, id);
      SameLaunch(plan, w, w', id, w.done);
    }
  }

  lemma NextOrdered(plan: Plan, execute: Execution, w: World, finished: set<Node>, failing: set<Node>)
    requires Bounded(plan, w) && Ordered(plan, w)
    ensures Ordered(plan, Next(plan, execute, w, finished, failing))
  {
    var w' := Next(plan, execute, w, finished, failing);
    NextBounded(plan, execute, w, finished, failing);
    forall id | id in w'.steps
      ensures w'.steps[id].seen !! w'.steps[id].finishing
      ensures Below(plan, id) <= w'.steps[id].seen + w'.steps[id].finishing <= w'.done
    {
      if id in w.steps {
        assert Kept(w, w', id);
      } else {
        NextLaunches(plan, execute, w, finished, failing, id);
      }
    }
  }

  lemma {:induction false} RunInv(plan: Plan, execute: Execution, tasks: seq<Task>)
    ensures Inv(plan, execute, Run(plan, execute, tasks))
  {
    if tasks != [] {
      var w, last := Run(plan, execute, tasks[..|tasks| - 1]), tasks[|tasks| - 1];
      RunInv(plan, execute, tasks[..|tasks| - 1]);
      NextBounded(plan, execute, w, last.finished, last.failing);
      NextOrdered(plan, execute, w, last.finished, last.failing);
      forall id | id in Run(plan, execute, tasks).steps {
        NextExplained(plan, execute, w, last.finished, last.failing, id);
      }
    }
  }

  /** The positions are the levels of the topological sort. */
  ghost predicate SortedLevels(plan: Plan) {
    forall id :: id in plan.levels ==> LongestPathTo(Wiring(plan), id, plan.levels[id])
  }

  ghost function Wiring(plan: Plan): Edges {
    WiringEdges(plan.levels.Keys, plan.request.rules)
  }

  /** A wire between two steps. */
  predicate Wires(plan: Plan, rule: WiringRule, source: Node, target: Node) {
    && rule in plan.request.rules && Internal(plan.levels.Keys, rule)
    && rule.sourceTemplate == source && rule.targetTemplate == target
  }

  lemma WireAscends(plan: Plan, rule: WiringRule, source: Node, target: Node)
    requires SortedLevels(plan) && Wires(plan, rule, source, target)
    ensures source in Below(plan, target) && (source, target) in Wiring(plan)
  {
    assert (source, target) in Wiring(plan);
    LongestPathAscends(Wiring(plan), source, target, plan.levels[source], plan.levels[target]);
  }

  /** What a wire brings in the end, the outputs of all launched steps being known. */
  function Brought(plan: Plan, w: World, id: Node, rule: WiringRule): Option<Value>
    requires id in w.steps
  {
    Carried(plan.levels.Keys, plan.request.rules, id, View(w.steps[id].seen, w.steps), rule)
  }

  /**
   * In every run, with any failures and retries, a launched step receives the output of a step it is wired
   * from exactly when that step was not marked done by the very task that launched it.
   */
  lemma WireLostIff(plan: Plan, execute: Execution, tasks: seq<Task>, rule: WiringRule, source: Node, id: Node)
    requires SortedLevels(plan) && Wires(plan, rule, source, id)
    requires id in Run(plan, execute, tasks).steps
    ensures var w := Run(plan, execute, tasks);
            && source in w.done
            && (source in w.steps[id].seen <==> source !in w.steps[id].finishing)
            && Brought(plan, w, id, rule) ==
                 if source in w.steps[id].finishing then None else At(OutputsOf(w.steps, source), rule.sourceOutput)
  {
    RunInv(plan, execute, tasks);
    WireAscends(plan, rule, source, id);
  }

  /** Every wire from a step of the workflow brings what its source has put out. */
  ghost predicate ReceivesAll(plan: Plan, w: World, id: Node)
    requires id in w.steps
  {
    forall rule, source :: Wires(plan, rule, source, id) ==>
      Brought(plan, w, id, rule) == At(OutputsOf(w.steps, source), rule.sourceOutput)
  }

  /** No step wired to this one was marked done by its launching task and has put out the value. */
  ghost predicate NothingLost(plan: Plan, w: World, id: Node)
    requires id in w.steps
  {
    forall rule, source :: Wires(plan, rule, source, id) && source in w.steps[id].finishing ==>
      rule.sourceOutput !in OutputsOf(w.steps, source)
  }

  /**
   * A launched step receives everything it is wired to inside the blueprint exactly when nothing it is wired
   * to was put out by a step that its own launching task marked done.
   */
  lemma ReceivesAllIff(plan: Plan, execute: Execution, tasks: seq<Task>, id: Node)
    requires SortedLevels(plan) && id in Run(plan, execute, tasks).steps
    ensures ReceivesAll(plan, Run(plan, execute, tasks), id) <==> NothingLost(plan, Run(plan, execute, tasks), id)
  {
    var w := Run(plan, execute, tasks);
    forall rule, source | Wires(plan, rule, source, id)
      ensures Brought(plan, w, id, rule) == At(OutputsOf(w.steps, source), rule.sourceOutput)
         <==> (source in w.steps[id].finishing ==> rule.sourceOutput !in OutputsOf(w.steps, source))
    {
      WireLostIff(plan, execute, tasks, rule, source, id);
    }
  }

  /** A step's variables are what its launching task resolved, and stay so. */
  lemma LaunchExplained(plan: Plan, execute: Execution, tasks: seq<Task>, id: Node)
    requires id in Run(plan, execute, tasks).steps
    ensures ExplainedAt(plan, execute, Run(plan, execute, tasks), id)
  {
    RunInv(plan, execute, tasks);
  }
}
