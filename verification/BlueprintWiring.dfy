/**
 * Variables of a blueprint's steps: the layered merge, and why the order inside a level
 * could not matter if each step were resolved from all outputs completed before it.
 */
module BlueprintWiring {
  import opened Common
  import opened Graphs
  import opened BlueprintOrdering

  type Value(==, !new)
  type Variables = map<string, Value>
  type ByTemplate = map<Node, Variables>

  /** The mapping.get(id, {}) of the source. */
  function Of(all: ByTemplate, id: Node): Variables {
    if id in all then all[id] else map[]
  }

  function At(variables: Variables, name: string): Option<Value> {
    if name in variables then Some(variables[name]) else None
  }

  /** Override over wire over default, the first that is present. */
  function Or<T>(first: Option<T>, second: Option<T>): Option<T> {
    if first.Some? then first else second
  }

  predicate Delivers(rule: WiringRule, id: Node, outputs: ByTemplate) {
    rule.targetTemplate == id && rule.sourceOutput in Of(outputs, rule.sourceTemplate)
  }

  /** The value the last rule that reaches this variable delivers. */
  function LastWire(rules: seq<WiringRule>, id: Node, outputs: ByTemplate, name: string): Option<Value> {
    if rules == [] then None
    else
      var rule := rules[|rules| - 1];
      if Delivers(rule, id, outputs) && rule.targetVariable == name
      then Some(Of(outputs, rule.sourceTemplate)[rule.sourceOutput])
      else LastWire(rules[..|rules| - 1], id, outputs, name)
  }

  /** The wiring loop: each delivering rule overwrites its target variable. */
  function ApplyWires(rules: seq<WiringRule>, id: Node, outputs: ByTemplate, base: Variables): Variables {
    if rules == [] then base
    else
      var rule := rules[|rules| - 1];
      var before := ApplyWires(rules[..|rules| - 1], id, outputs, base);
      if Delivers(rule, id, outputs)
      then before[rule.targetVariable := Of(outputs, rule.sourceTemplate)[rule.sourceOutput]]
      else before
  }

  datatype Request = Request(defaults: ByTemplate, overrides: ByTemplate, rules: seq<WiringRule>)

  /** The documented priority: run-time override, else the last wire, else the blueprint default. */
  function DocumentedAt(request: Request, id: Node, outputs: ByTemplate, name: string): Option<Value> {
    Or(At(Of(request.overrides, id), name),
       Or(LastWire(request.rules, id, outputs, name), At(Of(request.defaults, id), name)))
  }

  function Resolve(request: Request, id: Node, outputs: ByTemplate): Variables {
    ApplyWires(request.rules, id, outputs, Of(request.defaults, id)) + Of(request.overrides, id)
  }

  // The same by position.

  predicate Has(all: ByTemplate, id: Node, name: string) {
    id in all && name in all[id]
  }

  /** Rule k reaches the variable of step id, and its source has put the output out. */
  predicate Reaches(rules: seq<WiringRule>, k: int, id: Node, outputs: ByTemplate, name: string) {
    && 0 <= k < |rules| && (rules[k].targetTemplate, rules[k].targetVariable) == (id, name)
    && Has(outputs, rules[k].sourceTemplate, rules[k].sourceOutput)
  }

  predicate LastReaching(rules: seq<WiringRule>, k: int, id: Node, outputs: ByTemplate, name: string) {
    Reaches(rules, k, id, outputs, name) && forall l :: k < l < |rules| ==> !Reaches(rules, l, id, outputs, name)
  }

  predicate NoneReaches(rules: seq<WiringRule>, id: Node, outputs: ByTemplate, name: string) {
    forall k :: 0 <= k < |rules| ==> !Reaches(rules, k, id, outputs, name)
  }

  lemma {:induction false} LastWireAt(rules: seq<WiringRule>, k: nat, id: Node, outputs: ByTemplate, name: string)
    requires LastReaching(rules, k, id, outputs, name)
    ensures LastWire(rules, id, outputs, name) == Some(outputs[rules[k].sourceTemplate][rules[k].sourceOutput])
  {
    var n := |rules| - 1;
    if k < n {
      assert !Reaches(rules, n, id, outputs, name);
      assert forall l :: 0 <= l < n ==> (Reaches(rules[..n], l, id, outputs, name) <==> Reaches(rules, l, id, outputs, name));
      LastWireAt(rules[..n], k, id, outputs, name);
    }
  }

  lemma {:induction false} LastWireNone(rules: seq<WiringRule>, id: Node, outputs: ByTemplate, name: string)
    ensures LastWire(rules, id, outputs, name) == None <==> NoneReaches(rules, id, outputs, name)
  {
    if rules != [] {
      var n := |rules| - 1;
      LastWireNone(rules[..n], id, outputs, name);
      assert forall l :: 0 <= l < n ==> (Reaches(rules[..n], l, id, outputs, name) <==> Reaches(rules, l, id, outputs, name));
      assert Reaches(rules, n, id, outputs, name) <==> Delivers(rules[n], id, outputs) && rules[n].targetVariable == name;
    }
  }

  /** The run-time override, else what the last rule that reaches the variable brings, else the default. */
  predicate ResolvedByPosition(request: Request, id: Node, outputs: ByTemplate, name: string, value: Option<Value>) {
    if Has(request.overrides, id, name) then value == Some(request.overrides[id][name])
    else if NoneReaches(request.rules, id, outputs, name) then
      value == if Has(request.defaults, id, name) then Some(request.defaults[id][name]) else None
    else
      forall k {:trigger request.rules[k]} :: 0 <= k < |request.rules| && LastReaching(request.rules, k, id, outputs, name) ==>
        value == Some(outputs[request.rules[k].sourceTemplate][request.rules[k].sourceOutput])
  }

  /** Some rule is the last to reach the variable, if any does. */
  lemma {:induction false} SomeLastReaching(rules: seq<WiringRule>, k: nat, id: Node, outputs: ByTemplate, name: string) returns (last: nat)
    requires Reaches(rules, k, id, outputs, name)
    ensures LastReaching(rules, last, id, outputs, name)
    decreases |rules| - k
  {
    if l :| k < l < |rules| && Reaches(rules, l, id, outputs, name) {
      last := SomeLastReaching(rules, l, id, outputs, name);
    } else {
      last := k;
    }
  }

  lemma DocumentedByPosition(request: Request, id: Node, outputs: ByTemplate, name: string)
    ensures forall value :: ResolvedByPosition(request, id, outputs, name, value) <==> value == DocumentedAt(request, id, outputs, name)
  {
    LastWireNone(request.rules, id, outputs, name);
    forall k | 0 <= k < |request.rules| && LastReaching(request.rules, k, id, outputs, name)
      ensures LastWire(request.rules, id, outputs, name)
           == Some(outputs[request.rules[k].sourceTemplate][request.rules[k].sourceOutput])
    {
      LastWireAt(request.rules, k, id, outputs, name);
    }
    if k :| 0 <= k < |request.rules| && Reaches(request.rules, k, id, outputs, name) {
      var last := SomeLastReaching(request.rules, k, id, outputs, name);
      assert request.rules[last] in request.rules;
    }
  }

  method ResolveVariablesForStep(request: Request, id: Node, outputs: ByTemplate) returns (variables: Variables)
    ensures variables == Resolve(request, id, outputs)
    ensures forall name :: At(variables, name) == DocumentedAt(request, id, outputs, name)
    ensures forall name :: ResolvedByPosition(request, id, outputs, name, At(variables, name))
  {
    variables := Of(request.defaults, id);
    for k := 0 to |request.rules|
      invariant variables == ApplyWires(request.rules[..k], id, outputs, Of(request.defaults, id))
    {
      var rule := request.rules[k];
      assert request.rules[..k + 1][..k] == request.rules[..k];
      if rule.targetTemplate == id {
        var sourceOutputs := Of(outputs, rule.sourceTemplate);
        if rule.sourceOutput in sourceOutputs {
          variables := variables[rule.targetVariable := sourceOutputs[rule.sourceOutput]];
        }
      }
    }
    assert request.rules[..|request.rules|] == request.rules;
    variables := variables + Of(request.overrides, id);
    forall name {
      ApplyWiresAt(request.rules, id, outputs, Of(request.defaults, id), name);
    }
    forall name
      ensures ResolvedByPosition(request, id, outputs, name, At(variables, name))
    {
      DocumentedByPosition(request, id, outputs, name);
      assert At(variables, name) == DocumentedAt(request, id, outputs, name);
    }
  }

  lemma ApplyWiresAt(rules: seq<WiringRule>, id: Node, outputs: ByTemplate, base: Variables, name: string)
    ensures At(ApplyWires(rules, id, outputs, base), name) == Or(LastWire(rules, id, outputs, name), At(base, name))
  {
  }

  lemma NoOutputsNoWires(rules: seq<WiringRule>, id: Node, base: Variables)
    ensures ApplyWires(rules, id, map[], base) == base
  {
  }

  /** At creation no output is known: a step starts from its defaults, overridden. */
  lemma CreatedWithoutWires(request: Request, id: Node)
    ensures Resolve(request, id, map[]) == Of(request.defaults, id) + Of(request.overrides, id)
  {
    NoOutputsNoWires(request.rules, id, Of(request.defaults, id));
  }

  /** Executing a step: what it is given, and what its resource outputs from that. */
  type Evaluation = (Node, ByTemplate) -> Variables

  ghost predicate SameSources(rules: seq<WiringRule>, id: Node, m: ByTemplate, m': ByTemplate) {
    forall rule :: rule in rules && rule.targetTemplate == id ==> Of(m, rule.sourceTemplate) == Of(m', rule.sourceTemplate)
  }

  /** A step depends on completed outputs only through its wiring. */
  ghost predicate Local(rules: seq<WiringRule>, eval: Evaluation) {
    forall id, m, m' :: SameSources(rules, id, m, m') ==> eval(id, m) == eval(id, m')
  }

  /** Every rule inside the blueprint has its source earlier in the order. */
  ghost predicate SourcesFirst(rules: seq<WiringRule>, order: seq<Node>) {
    forall rule, j | rule in rules && 0 <= j < |order| && order[j] == rule.targetTemplate ::
      rule.sourceTemplate in order ==> rule.sourceTemplate in order[..j]
  }

  function Evaluate(order: seq<Node>, eval: Evaluation): (outputs: ByTemplate)
    ensures outputs.Keys == set id | id in order
  {
    if order == [] then map[]
    else
      var n := |order| - 1;
      var before := Evaluate(order[..n], eval);
      assert order == order[..n] + [order[n]];
      before[order[n] := eval(order[n], before)]
  }

  /** Later steps do not touch what an earlier prefix produced. */
  lemma {:induction false} RunPrefix(order: seq<Node>, eval: Evaluation, k: nat, id: Node)
    requires Distinct(order) && k <= |order| && id in order[..k]
    ensures id in order && Evaluate(order, eval)[id] == Evaluate(order[..k], eval)[id]
  {
    var n := |order| - 1;
    if k == |order| {
      assert order[..k] == order;
    } else {
      assert order[..n][..k] == order[..k];
      RunPrefix(order[..n], eval, k, id);
      assert id in order[..n] && order[n] !in order[..n];
    }
  }

  /** When a step starts, its sources look as they will at the end: none is still to come. */
  lemma SourcesSettled(rules: seq<WiringRule>, order: seq<Node>, eval: Evaluation, k: nat)
    requires Distinct(order) && SourcesFirst(rules, order) && k < |order|
    ensures SameSources(rules, order[k], Evaluate(order[..k], eval), Evaluate(order, eval))
    ensures forall rule | rule in rules && rule.targetTemplate == order[k] ::
      rule.sourceTemplate in order ==> rule.sourceTemplate in Evaluate(order[..k], eval)
  {
    forall rule | rule in rules && rule.targetTemplate == order[k]
      ensures Of(Evaluate(order[..k], eval), rule.sourceTemplate) == Of(Evaluate(order, eval), rule.sourceTemplate)
      ensures rule.sourceTemplate in order ==> rule.sourceTemplate in Evaluate(order[..k], eval)
    {
      if rule.sourceTemplate in order {
        RunPrefix(order, eval, k, rule.sourceTemplate);
      } else {
        assert rule.sourceTemplate !in order[..k];
      }
    }
  }

  /** The outputs of a run solve the wiring equations: each step's outputs follow from the final ones. */
  lemma RunSolves(rules: seq<WiringRule>, order: seq<Node>, eval: Evaluation, k: nat)
    requires Distinct(order) && SourcesFirst(rules, order) && Local(rules, eval) && k < |order|
    ensures Evaluate(order, eval)[order[k]] == eval(order[k], Evaluate(order, eval))
    ensures eval(order[k], Evaluate(order[..k], eval)) == eval(order[k], Evaluate(order, eval))
  {
    SourcesSettled(rules, order, eval, k);
    assert order[..k + 1][..k] == order[..k];
    assert order[k] in order[..k + 1];
    RunPrefix(order, eval, k + 1, order[k]);
  }

  /** Those equations have one solution, so a run agrees with any other solution step by step. */
  lemma {:induction false} SolutionUnique(
    rules: seq<WiringRule>, order: seq<Node>, eval: Evaluation, solution: ByTemplate, k: nat)
    requires Distinct(order) && SourcesFirst(rules, order) && Local(rules, eval)
    requires solution.Keys == set id | id in order
    requires forall id :: id in order ==> solution[id] == eval(id, solution)
    requires k <= |order|
    ensures forall i :: 0 <= i < k ==> solution[order[i]] == Evaluate(order, eval)[order[i]]
  {
    if k > 0 {
      SolutionUnique(rules, order, eval, solution, k - 1);
      var id := order[k - 1];
      RunSolves(rules, order, eval, k - 1);
      var outputs := Evaluate(order, eval);
      forall rule | rule in rules && rule.targetTemplate == id
        ensures Of(solution, rule.sourceTemplate) == Of(outputs, rule.sourceTemplate)
      {
        if rule.sourceTemplate in order {
          assert rule.sourceTemplate in order[..k - 1];
          var i :| 0 <= i < k - 1 && order[i] == rule.sourceTemplate;
        }
      }
      assert SameSources(rules, id, solution, outputs);
    }
  }

  /** All orders that put sources first give the same outputs, and give every step the same inputs. */
  lemma RunConfluent(rules: seq<WiringRule>, order: seq<Node>, order': seq<Node>, eval: Evaluation)
    requires Distinct(order) && SourcesFirst(rules, order)
    requires Distinct(order') && SourcesFirst(rules, order')
    requires Elements(order) == Elements(order') && Local(rules, eval)
    ensures Evaluate(order, eval) == Evaluate(order', eval)
  {
    var outputs := Evaluate(order', eval);
    forall id | id in order
      ensures outputs[id] == eval(id, outputs)
    {
      assert id in Elements(order');
      var k :| 0 <= k < |order'| && order'[k] == id;
      RunSolves(rules, order', eval, k);
    }
    assert outputs.Keys == Elements(order') == Elements(order);
    SolutionUnique(rules, order, eval, outputs, |order|);
  }

  lemma WiresLocal(rules: seq<WiringRule>, id: Node, m: ByTemplate, m': ByTemplate, base: Variables)
    requires SameSources(rules, id, m, m')
    ensures ApplyWires(rules, id, m, base) == ApplyWires(rules, id, m', base)
  {
    if rules != [] {
      var n := |rules| - 1;
      assert forall rule :: rule in rules[..n] ==> rule in rules;
      assert rules[n] in rules;
      WiresLocal(rules[..n], id, m, m', base);
    }
  }

  /** The merge qualifies, whatever a template makes of its variables. */
  lemma StepsLocal(request: Request, execute: (Node, Variables) -> Variables)
    ensures Local(request.rules, (id, m) => execute(id, Resolve(request, id, m)))
  {
    forall id, m, m' | SameSources(request.rules, id, m, m')
      ensures Resolve(request, id, m) == Resolve(request, id, m')
    {
      WiresLocal(request.rules, id, m, m', Of(request.defaults, id));
    }
  }

  ghost function Templates(order: seq<Placement>): seq<Node> {
    seq(|order|, i requires 0 <= i < |order| => order[i].0)
  }

  lemma LevelOrderSourcesFirst(ids: set<Node>, rules: seq<WiringRule>, order: seq<Placement>)
    requires IsLevelOrder(ids, WiringEdges(ids, rules), order)
    ensures SourcesFirst(rules, Templates(order)) && Distinct(Templates(order))
    ensures Elements(Templates(order)) == ids
  {
    var templates := Templates(order);
    assert forall v :: v in Placed(order) <==> v in templates by {
      forall v | v in Placed(order)
        ensures v in templates
      {
        var i :| 0 <= i < |order| && order[i].0 == v;
        assert templates[i] == v;
      }
    }
    forall rule, j | rule in rules && 0 <= j < |templates| && templates[j] == rule.targetTemplate
      && rule.sourceTemplate in templates
      ensures rule.sourceTemplate in templates[..j]
    {
      var i :| 0 <= i < |templates| && templates[i] == rule.sourceTemplate;
      assert order[i].0 in Placed(order) && order[j].0 in Placed(order);
      RulesAscend(ids, rules, order, rule, i, j);
      assert templates[..j][i] == rule.sourceTemplate;
    }
  }

  /**
   * Were every step resolved from all outputs completed before it, then however ties inside a level are
   * broken, each template would get the same variables and give the same outputs.
   */
  lemma BlueprintRunDetermined(request: Request, ids: set<Node>, order: seq<Placement>, order': seq<Placement>,
                               execute: (Node, Variables) -> Variables)
    requires IsLevelOrder(ids, WiringEdges(ids, request.rules), order)
    requires IsLevelOrder(ids, WiringEdges(ids, request.rules), order')
    ensures var eval := (id, m) => execute(id, Resolve(request, id, m));
            Evaluate(Templates(order), eval) == Evaluate(Templates(order'), eval)
  {
    LevelOrderSourcesFirst(ids, request.rules, order);
    LevelOrderSourcesFirst(ids, request.rules, order');
    StepsLocal(request, execute);
    RunConfluent(request.rules, Templates(order), Templates(order'),
                 (id, m) => execute(id, Resolve(request, id, m)));
  }
}
