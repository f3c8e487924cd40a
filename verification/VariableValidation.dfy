/**
 * Validating a resource's variables against its schema, when it is created and when it
 * is patched.
 */
module VariableValidation {
  import opened Common

  /** A JSON value as Python holds it. */
  datatype Value =
    | Null
    | Bool(b: bool)
    | Int(i: int)
    | Float(r: real)
    | Str(s: string)
    | List(items: seq<Value>)
    | Dict(entries: map<string, Value>)

  /** Booleans, integers and floats are compared as numbers. */
  function Number(v: Value): Option<real> {
    match v
    case Bool(b) => Some(if b then 1.0 else 0.0)
    case Int(i) => Some(i as real)
    case Float(r) => Some(r)
    case _ => None
  }

  /** The == of Python. */
  predicate Same(a: Value, b: Value) {
    if Number(a).Some? && Number(b).Some? then Number(a) == Number(b)
    else
      match (a, b)
      case (Null, Null) => true
      case (Str(s), Str(t)) => s == t
      case (List(xs), List(ys)) => |xs| == |ys| && forall i :: 0 <= i < |xs| ==> Same(xs[i], ys[i])
      case (Dict(m), Dict(n)) => m.Keys == n.Keys && forall k :: k in m ==> Same(m[k], n[k])
      case _ => false
  }

  lemma {:induction false} SameReflexive(v: Value)
    ensures Same(v, v)
  {
    match v {
      case List(xs) =>
        forall i | 0 <= i < |xs| {
          SameReflexive(xs[i]);
        }
      case Dict(m) =>
        forall k | k in m {
          SameReflexive(m[k]);
        }
      case _ =>
    }
  }

  /** The value with every boolean and integer in it written as a float. */
  function Normal(v: Value): Value {
    match v
    case Bool(b) => Float(if b then 1.0 else 0.0)
    case Int(i) => Float(i as real)
    case List(xs) => List(seq(|xs|, i requires 0 <= i < |xs| => Normal(xs[i])))
    case Dict(m) => Dict(map k | k in m :: Normal(m[k]))
    case _ => v
  }

  /** Values are the same exactly when they agree once numbers are written alike, at every depth. */
  lemma {:induction false} SameIff(a: Value, b: Value)
    ensures Same(a, b) <==> Normal(a) == Normal(b)
  {
    match (a, b) {
      case (List(xs), List(ys)) =>
        if |xs| == |ys| {
          forall i | 0 <= i < |xs| {
            SameIff(xs[i], ys[i]);
          }
          if Normal(a) == Normal(b) {
            forall i | 0 <= i < |xs|
              ensures Normal(xs[i]) == Normal(ys[i])
            {
              assert Normal(a).items[i] == Normal(b).items[i];
            }
          }
        } else {
          assert |Normal(a).items| != |Normal(b).items|;
        }
      case (Dict(m), Dict(n)) =>
        forall k | k in m && k in n {
          SameIff(m[k], n[k]);
        }
        assert Normal(a).entries.Keys == m.Keys && Normal(b).entries.Keys == n.Keys;
        if Normal(a) == Normal(b) {
          forall k | k in m
            ensures k in n && Normal(m[k]) == Normal(n[k])
          {
            assert k in Normal(b).entries && Normal(a).entries[k] == Normal(b).entries[k];
          }
        }
      case _ =>
    }
  }

  /** A validation rule; whether a non-null value obeys it is left open. */
  type Rule(==, !new)
  type Check = (Rule, Value) -> bool

  datatype SchemaVariable = SchemaVariable(
    name: string, kind: string, description: Option<string>, options: seq<string>, required: bool, frozen: bool,
    unique: bool, sensitive: bool, restricted: bool, value: Value, rules: seq<Rule>)

  datatype Variable = Variable(name: string, value: Value, sensitive: bool, kind: string, description: string)

  datatype ValidationError =
    | Missing | RequiredMissing | InvalidOption | NotUnique | InvalidType | RuleViolated | FrozenChanged

  /** validate_variable_against_rules */
  predicate Obeys(check: Check, v: SchemaVariable, value: Value) {
    value == Null || forall i :: 0 <= i < |v.rules| ==> check(v.rules[i], value)
  }

  /** check_required_variables */
  predicate Provided(v: SchemaVariable, value: Value) {
    && !(v.required && value == Null)
    && !(v.kind == "string" && Same(value, Str("")))
    && !(v.kind == "object" && Same(value, Dict(map[])))
    && !(v.kind == "array" && Same(value, List([])))
  }

  /** check_variable_type; a boolean is an integer as well. */
  predicate TypeMatches(v: SchemaVariable, value: Value) {
    if v.kind == "string" then value.Str?
    else if v.kind == "number" then value.Int? || value.Bool?
    else if v.kind == "boolean" then value.Bool?
    else if v.kind == "float" then value.Float?
    else if v.kind == "array" then value.List?
    else if v.kind == "object" then value.Dict?
    else true
  }

  /** check_options_values */
  predicate OptionAllowed(v: SchemaVariable, value: Value) {
    v.options == [] || exists i :: 0 <= i < |v.options| && Same(value, Str(v.options[i]))
  }

  /** check_unique_variables over the resources of the template */
  predicate Unused(v: SchemaVariable, value: Value, others: seq<seq<Variable>>) {
    forall i, j :: 0 <= i < |others| && 0 <= j < |others[i]| ==>
      !(others[i][j].name == v.name && Same(others[i][j].value, value))
  }

  /** variable.description if it is not empty, else what is given */
  function Described(v: SchemaVariable, description: string): string {
    if v.description.Some? && v.description.value != "" then v.description.value else description
  }

  /** Type, description and sensitivity always come from the schema. */
  function Stamped(v: SchemaVariable, w: Variable): Variable {
    w.(kind := v.kind, description := Described(v, w.description), sensitive := v.sensitive)
  }

  function SchemaValue(v: SchemaVariable): Variable {
    Variable(v.name, v.value, v.sensitive, v.kind, Described(v, ""))
  }

  /** {v.name: v for v in variables}: the last one of a name wins. */
  function Find(variables: seq<Variable>, name: string): (found: Option<Variable>)
    ensures found.Some? ==> found.value.name == name && found.value in variables
    ensures found == None ==> forall w :: w in variables ==> w.name != name
  {
    if variables == [] then None
    else if variables[|variables| - 1].name == name then Some(variables[|variables| - 1])
    else Find(variables[..|variables| - 1], name)
  }

  /** One iteration of validate_resource_variables_on_create, for a variable that is not sensitive. */
  function CreateOne(check: Check, v: SchemaVariable, given: Option<Variable>, others: seq<seq<Variable>>)
    : Result<Variable, ValidationError>
  {
    if v.restricted then
      if Obeys(check, v, v.value) then Success(SchemaValue(v)) else Failure(RuleViolated)
    else if given == None then Failure(Missing)
    else
      var stamped := Stamped(v, given.value);
      if v.required && !Provided(v, stamped.value) then Failure(RequiredMissing)
      else
        var w := if !v.required && stamped.value == Null then stamped.(value := v.value) else stamped;
        if !OptionAllowed(v, w.value) then Failure(InvalidOption)
        else if v.unique && !Unused(v, w.value, others) then Failure(NotUnique)
        else if w.value == Null then Success(w)
        else if !TypeMatches(v, w.value) then Failure(InvalidType)
        else if !Obeys(check, v, w.value) then Failure(RuleViolated)
        else Success(w)
  }

  /** One iteration of update_resource_variables_on_patch, for a variable that is not sensitive. */
  function PatchOne(check: Check, v: SchemaVariable, stored: Option<Variable>, patched: Option<Variable>, allowFrozen: bool)
    : Result<Variable, ValidationError>
  {
    if patched == None then Failure(Missing)
    else if v.restricted then
      if Obeys(check, v, v.value) then Success(SchemaValue(v)) else Failure(RuleViolated)
    else
      var p := Stamped(v, patched.value);
      if v.required && !Provided(v, p.value) then Failure(RequiredMissing)
      else if stored.Some? && Same(stored.value.value, p.value) then
        if !OptionAllowed(v, p.value) then Failure(InvalidOption)
        else if !Obeys(check, v, stored.value.value) then Failure(RuleViolated)
        else Success(Stamped(v, stored.value))
      else if stored.Some? && v.frozen && !allowFrozen then Failure(FrozenChanged)
      else if !OptionAllowed(v, p.value) then Failure(InvalidOption)
      else if !TypeMatches(v, p.value) then Failure(InvalidType)
      else if !Obeys(check, v, p.value) then Failure(RuleViolated)
      else Success(p)
  }

  type Variables = Result<seq<Variable>, ValidationError>

  /** Append a validated variable, or keep the first error. */
  function Add(before: Variables, r: Result<Variable, ValidationError>): Variables {
    match before
    case Failure(_) => before
    case Success(list) =>
      match r
      case Failure(e) => Failure(e)
      case Success(w) => Success(list + [w])
  }

  function Create(check: Check, schema: seq<SchemaVariable>, given: seq<Variable>, others: seq<seq<Variable>>): Variables {
    if schema == [] then Success([])
    else
      var n := |schema| - 1;
      var before := Create(check, schema[..n], given, others);
      if schema[n].sensitive then before
      else Add(before, CreateOne(check, schema[n], Find(given, schema[n].name), others))
  }

  function Patch(check: Check, schema: seq<SchemaVariable>, stored: seq<Variable>, patched: seq<Variable>, allowFrozen: bool): Variables {
    if schema == [] then Success([])
    else
      var n := |schema| - 1;
      var before := Patch(check, schema[..n], stored, patched, allowFrozen);
      if schema[n].sensitive then before
      else Add(before, PatchOne(check, schema[n], Find(stored, schema[n].name), Find(patched, schema[n].name), allowFrozen))
  }

  // What validation asks for and gives, entry by entry.

  /** Variable j is the last of its name. */
  predicate LastNamed(variables: seq<Variable>, j: int, name: string) {
    0 <= j < |variables| && variables[j].name == name && forall l :: j < l < |variables| ==> variables[l].name != name
  }

  /** The last variable of the name, or none if there is none. */
  ghost predicate IsNamed(variables: seq<Variable>, name: string, w: Option<Variable>) {
    match w
    case None => forall j :: 0 <= j < |variables| ==> variables[j].name != name
    case Some(found) => exists j :: LastNamed(variables, j, name) && variables[j] == found
  }

  const Kinds: set<string> := {"string", "number", "boolean", "float", "array", "object"}

  /** A kind that is not checked, or one the value has; a boolean passes for a number. */
  predicate OfKind(value: Value, kind: string) {
    kind !in Kinds ||
    match value
    case Null => false
    case Bool(_) => kind == "boolean" || kind == "number"
    case Int(_) => kind == "number"
    case Float(_) => kind == "float"
    case Str(_) => kind == "string"
    case List(_) => kind == "array"
    case Dict(_) => kind == "object"
  }

  /** Neither null nor the empty value of its kind. */
  predicate Filled(v: SchemaVariable, value: Value) {
    && value != Null && (v.kind == "string" ==> value != Str("")) && (v.kind == "object" ==> value != Dict(map[]))
    && (v.kind == "array" ==> value != List([]))
  }

  /** The options are strings. */
  predicate AmongOptions(v: SchemaVariable, value: Value) {
    v.options == [] || (value.Str? && value.s in v.options)
  }

  /** No rule is checked for null. */
  predicate Ruled(check: Check, v: SchemaVariable, value: Value) {
    value != Null ==> forall rule :: rule in v.rules ==> check(rule, value)
  }

  predicate Free(v: SchemaVariable, value: Value, others: seq<seq<Variable>>) {
    forall list, w :: list in others && w in list && w.name == v.name ==> !Same(w.value, value)
  }

  /** The fields that come from the schema, whoever gives the value. */
  predicate FromSchema(v: SchemaVariable, w: Variable, description: string) {
    && w.name == v.name && w.kind == v.kind && w.sensitive == v.sensitive
    && w.description == match v.description case None => description case Some(d) => if d == "" then description else d
  }

  predicate IsUnchanged(stored: Option<Variable>, value: Value) {
    stored.Some? && Same(stored.value.value, value)
  }

  /** What makes a patch of one variable acceptable: each error with the tests that pass before it. */
  predicate PatchFails(check: Check, v: SchemaVariable, stored: Option<Variable>, patched: Option<Variable>, allowFrozen: bool,
                       error: ValidationError)
  {
    if patched == None then error == Missing
    else if v.restricted then error == RuleViolated && !Ruled(check, v, v.value)
    else
      var value := patched.value.value;
      var kept := IsUnchanged(stored, value);
      var missing := v.required && !Filled(v, value);
      var held := stored.Some? && !kept && v.frozen && !allowFrozen;
      match error
      case RequiredMissing => missing
      case FrozenChanged => !missing && held
      case InvalidOption => !missing && !held && !AmongOptions(v, value)
      case InvalidType => !missing && !held && AmongOptions(v, value) && !kept && !OfKind(value, v.kind)
      case RuleViolated =>
        && !missing && !held && AmongOptions(v, value) && (kept || OfKind(value, v.kind))
        && !Ruled(check, v, if kept then stored.value.value else value)
      case _ => false
  }

  /** What a successful patch leaves: the schema's value if restricted, the stored one if it is the same, else the patched one. */
  predicate PatchedAs(v: SchemaVariable, stored: Option<Variable>, patched: Option<Variable>, w: Variable) {
    patched.Some? &&
    if v.restricted then w.value == v.value && FromSchema(v, w, "")
    else if IsUnchanged(stored, patched.value.value) then w.value == stored.value.value && FromSchema(v, w, stored.value.description)
    else w.value == patched.value.value && FromSchema(v, w, patched.value.description)
  }

  /** The same for creation; an optional variable given as null takes the schema's value. */
  function Chosen(v: SchemaVariable, given: Variable): Value {
    if v.required || given.value != Null then given.value else v.value
  }

  predicate CreateFails(check: Check, v: SchemaVariable, given: Option<Variable>, others: seq<seq<Variable>>, error: ValidationError) {
    if v.restricted then error == RuleViolated && !Ruled(check, v, v.value)
    else if given == None then error == Missing
    else
      var value := Chosen(v, given.value);
      var missing := v.required && !Filled(v, value);
      var used := v.unique && !Free(v, value, others);
      match error
      case RequiredMissing => missing
      case InvalidOption => !missing && !AmongOptions(v, value)
      case NotUnique => !missing && AmongOptions(v, value) && used
      case InvalidType => !missing && AmongOptions(v, value) && !used && value != Null && !OfKind(value, v.kind)
      case RuleViolated =>
        !missing && AmongOptions(v, value) && !used && (value == Null || OfKind(value, v.kind)) && !Ruled(check, v, value)
      case _ => false
  }

  predicate CreatedAs(v: SchemaVariable, given: Option<Variable>, w: Variable) {
    if v.restricted then w.value == v.value && FromSchema(v, w, "")
    else given.Some? && w.value == Chosen(v, given.value) && FromSchema(v, w, given.value.description)
  }

  /** Patching fails for entry k with this error. */
  ghost predicate PatchFailsAt(check: Check, schema: seq<SchemaVariable>, stored: seq<Variable>, patched: seq<Variable>,
                               allowFrozen: bool, k: int, error: ValidationError)
  {
    && 0 <= k < |schema| && !schema[k].sensitive
    && exists s, p :: IsNamed(stored, schema[k].name, s) && IsNamed(patched, schema[k].name, p)
         && PatchFails(check, schema[k], s, p, allowFrozen, error)
  }

  /** One variable for each of the first n entries that are not sensitive, in order. */
  ghost predicate PatchedAll(schema: seq<SchemaVariable>, stored: seq<Variable>, patched: seq<Variable>, n: nat, list: seq<Variable>)
    requires n <= |schema|
  {
    && |list| == |OpenNames(schema[..n])|
    && forall k :: 0 <= k < n && !schema[k].sensitive ==>
         |OpenNames(schema[..k])| < |list| && PatchedAt(schema[k], stored, patched, list[|OpenNames(schema[..k])|])
  }

  ghost predicate PatchedAt(v: SchemaVariable, stored: seq<Variable>, patched: seq<Variable>, w: Variable) {
    forall s, p :: IsNamed(stored, v.name, s) && IsNamed(patched, v.name, p) ==> PatchedAs(v, s, p, w)
  }

  /** None of the first n entries fails. */
  ghost predicate PatchFine(check: Check, schema: seq<SchemaVariable>, stored: seq<Variable>, patched: seq<Variable>,
                            allowFrozen: bool, n: int)
  {
    forall k, e :: 0 <= k < n ==> !PatchFailsAt(check, schema, stored, patched, allowFrozen, k, e)
  }

  ghost predicate PatchedByTests(check: Check, schema: seq<SchemaVariable>, stored: seq<Variable>, patched: seq<Variable>,
                                 allowFrozen: bool, r: Variables)
  {
    var n := |schema|;
    if r.Success? then PatchedAll(schema, stored, patched, n, r.value) && PatchFine(check, schema, stored, patched, allowFrozen, n)
    else PatchFailsFirst(check, schema, stored, patched, allowFrozen, r.error)
  }

  /** The error of the first entry that fails. */
  ghost predicate PatchFailsFirst(check: Check, schema: seq<SchemaVariable>, stored: seq<Variable>, patched: seq<Variable>,
                                  allowFrozen: bool, error: ValidationError)
  {
    exists k :: PatchFailsAt(check, schema, stored, patched, allowFrozen, k, error)
      && PatchFine(check, schema, stored, patched, allowFrozen, k)
  }

  ghost predicate CreateFailsAt(check: Check, schema: seq<SchemaVariable>, given: seq<Variable>, others: seq<seq<Variable>>,
                                k: int, error: ValidationError)
  {
    && 0 <= k < |schema| && !schema[k].sensitive
    && exists g :: IsNamed(given, schema[k].name, g) && CreateFails(check, schema[k], g, others, error)
  }

  ghost predicate CreatedAll(schema: seq<SchemaVariable>, given: seq<Variable>, n: nat, list: seq<Variable>)
    requires n <= |schema|
  {
    && |list| == |OpenNames(schema[..n])|
    && forall k :: 0 <= k < n && !schema[k].sensitive ==>
         |OpenNames(schema[..k])| < |list| && CreatedAt(schema[k], given, list[|OpenNames(schema[..k])|])
  }

  ghost predicate CreatedAt(v: SchemaVariable, given: seq<Variable>, w: Variable) {
    forall g :: IsNamed(given, v.name, g) ==> CreatedAs(v, g, w)
  }

  ghost predicate CreateFine(check: Check, schema: seq<SchemaVariable>, given: seq<Variable>, others: seq<seq<Variable>>, n: int) {
    forall k, e :: 0 <= k < n ==> !CreateFailsAt(check, schema, given, others, k, e)
  }

  ghost predicate CreatedByTests(check: Check, schema: seq<SchemaVariable>, given: seq<Variable>, others: seq<seq<Variable>>, r: Variables) {
    var n := |schema|;
    if r.Success? then CreatedAll(schema, given, n, r.value) && CreateFine(check, schema, given, others, n)
    else CreateFailsFirst(check, schema, given, others, r.error)
  }

  ghost predicate CreateFailsFirst(check: Check, schema: seq<SchemaVariable>, given: seq<Variable>, others: seq<seq<Variable>>,
                                   error: ValidationError)
  {
    exists k :: CreateFailsAt(check, schema, given, others, k, error) && CreateFine(check, schema, given, others, k)
  }

  /** The list that a validation has left, or its error. */
  function Outcome(r: Result<(), ValidationError>, variables: Option<seq<Variable>>): Variables {
    match r
    case Success(_) => Success(if variables.Some? then variables.value else [])
    case Failure(e) => Failure(e)
  }

  /** The request body whose variables are validated and replaced in place. */
  class Draft {
    var variables: Option<seq<Variable>>

    method ValidateOnCreate(check: Check, schema: seq<SchemaVariable>, others: seq<seq<Variable>>)
      returns (r: Result<(), ValidationError>)
      requires variables.Some?
      modifies this
      ensures r.Success? <==> Create(check, schema, old(variables).value, others).Success?
      ensures match Create(check, schema, old(variables).value, others)
              case Success(list) => variables == Some(list)
              case Failure(e) => r == Failure(e) && variables == old(variables)
      ensures CreatedByTests(check, schema, old(variables).value, others, Outcome(r, variables))
      ensures r.Success? ==> variables.Some?
    {
      CreateIsByTests(check, schema, variables.value, others);
      var given := variables.value;
      var list: seq<Variable> := [];
      for k := 0 to |schema|
        invariant variables == old(variables)
        invariant Create(check, schema[..k], given, others) == Success(list)
      {
        CreatePrefix(check, schema, given, others, k + 1);
        assert schema[..k + 1][..k] == schema[..k];
        if schema[k].sensitive {
          continue;
        }
        var one := CreateOne(check, schema[k], Find(given, schema[k].name), others);
        if one.Failure? {
          return Failure(one.error);
        }
        list := list + [one.value];
      }
      assert schema[..|schema|] == schema;
      variables := Some(list);
      return Success(());
    }

    method ValidateOnPatch(check: Check, schema: seq<SchemaVariable>, stored: seq<Variable>, allowFrozen: bool)
      returns (r: Result<(), ValidationError>)
      modifies this
      ensures old(variables) == None ==> r.Success? && variables == None
      ensures old(variables).Some? ==>
        match Patch(check, schema, stored, old(variables).value, allowFrozen)
        case Success(list) => r.Success? && variables == Some(list)
        case Failure(e) => r == Failure(e) && variables == old(variables)
      ensures old(variables).Some? ==>
        PatchedByTests(check, schema, stored, old(variables).value, allowFrozen, Outcome(r, variables))
      ensures r.Success? && old(variables).Some? ==> variables.Some?
    {
      if variables == None {
        return Success(());
      }
      PatchIsByTests(check, schema, stored, variables.value, allowFrozen);
      var patched := variables.value;
      var list: seq<Variable> := [];
      for k := 0 to |schema|
        invariant variables == old(variables)
        invariant Patch(check, schema[..k], stored, patched, allowFrozen) == Success(list)
      {
        PatchPrefix(check, schema, stored, patched, allowFrozen, k + 1);
        assert schema[..k + 1][..k] == schema[..k];
        if schema[k].sensitive {
          continue;
        }
        var one := PatchOne(check, schema[k], Find(stored, schema[k].name), Find(patched, schema[k].name), allowFrozen);
        if one.Failure? {
          return Failure(one.error);
        }
        list := list + [one.value];
      }
      assert schema[..|schema|] == schema;
      variables := Some(list);
      return Success(());
    }
  }

  lemma {:induction false} FoundIsNamed(variables: seq<Variable>, name: string)
    ensures IsNamed(variables, name, Find(variables, name))
  {
    if variables != [] {
      var n := |variables| - 1;
      FoundIsNamed(variables[..n], name);
      if variables[n].name == name {
        assert LastNamed(variables, n, name);
      } else if Find(variables, name).Some? {
        var j :| LastNamed(variables[..n], j, name) && variables[..n][j] == Find(variables, name).value;
        assert LastNamed(variables, j, name);
      }
    }
  }

  /** Looking up by name is looking up by position. */
  lemma FindByPosition(variables: seq<Variable>, name: string)
    ensures forall w :: IsNamed(variables, name, w) <==> w == Find(variables, name)
  {
    FoundIsNamed(variables, name);
    forall w | IsNamed(variables, name, w)
      ensures w == Find(variables, name)
    {
      if w.Some? {
        var j :| LastNamed(variables, j, name) && variables[j] == w.value;
      }
    }
  }

  lemma TestsAgree(check: Check, v: SchemaVariable, value: Value, others: seq<seq<Variable>>)
    ensures v.required ==> (Provided(v, value) <==> Filled(v, value))
    ensures TypeMatches(v, value) <==> OfKind(value, v.kind)
    ensures OptionAllowed(v, value) <==> AmongOptions(v, value)
    ensures Obeys(check, v, value) <==> Ruled(check, v, value)
    ensures Unused(v, value, others) <==> Free(v, value, others)
  {
    SameIff(value, Str(""));
    SameIff(value, Dict(map[]));
    SameIff(value, List([]));
    UnusedIsFree(v, value, others);
  }

  lemma UnusedIsFree(v: SchemaVariable, value: Value, others: seq<seq<Variable>>)
    ensures Unused(v, value, others) <==> Free(v, value, others)
  {
    forall i, j | 0 <= i < |others| && 0 <= j < |others[i]|
      ensures others[i] in others && others[i][j] in others[i]
    {
    }
    if Unused(v, value, others) {
      forall list, w | list in others && w in list && w.name == v.name
        ensures !Same(w.value, value)
      {
        var i :| 0 <= i < |others| && others[i] == list;
        var j :| 0 <= j < |list| && list[j] == w;
        assert others[i][j] == w;
      }
    }
  }

  lemma PatchOneByTests(check: Check, v: SchemaVariable, stored: Option<Variable>, patched: Option<Variable>, allowFrozen: bool)
    requires (stored.Some? ==> stored.value.name == v.name) && (patched.Some? ==> patched.value.name == v.name)
    ensures match PatchOne(check, v, stored, patched, allowFrozen)
            case Success(w) => PatchedAs(v, stored, patched, w) && forall e :: !PatchFails(check, v, stored, patched, allowFrozen, e)
            case Failure(e) => PatchFails(check, v, stored, patched, allowFrozen, e)
  {
    TestsAgree(check, v, v.value, []);
    if stored.Some? {
      TestsAgree(check, v, stored.value.value, []);
    }
    if patched.Some? {
      TestsAgree(check, v, patched.value.value, []);
    }
  }

  lemma CreateOneByTests(check: Check, v: SchemaVariable, given: Option<Variable>, others: seq<seq<Variable>>)
    requires given.Some? ==> given.value.name == v.name
    ensures match CreateOne(check, v, given, others)
            case Success(w) => CreatedAs(v, given, w) && forall e :: !CreateFails(check, v, given, others, e)
            case Failure(e) => CreateFails(check, v, given, others, e)
  {
    TestsAgree(check, v, v.value, others);
    if given.Some? {
      TestsAgree(check, v, given.value.value, others);
    }
  }

  lemma PatchEntry(check: Check, schema: seq<SchemaVariable>, stored: seq<Variable>, patched: seq<Variable>, allowFrozen: bool, k: nat)
    requires k < |schema| && !schema[k].sensitive
    ensures var v := schema[k];
            var one := PatchOne(check, v, Find(stored, v.name), Find(patched, v.name), allowFrozen);
            && (one.Success? ==> PatchedAt(v, stored, patched, one.value))
            && (one.Success? ==> forall e :: !PatchFailsAt(check, schema, stored, patched, allowFrozen, k, e))
            && (one.Failure? ==> PatchFailsAt(check, schema, stored, patched, allowFrozen, k, one.error))
  {
    var v := schema[k];
    FindByPosition(stored, v.name);
    FindByPosition(patched, v.name);
    PatchOneByTests(check, v, Find(stored, v.name), Find(patched, v.name), allowFrozen);
  }

  lemma {:induction false} PatchMeetsTests(check: Check, schema: seq<SchemaVariable>, stored: seq<Variable>, patched: seq<Variable>,
                                           allowFrozen: bool, n: nat)
    requires n <= |schema|
    ensures var r := Patch(check, schema[..n], stored, patched, allowFrozen);
            && (r.Success? ==> PatchedAll(schema, stored, patched, n, r.value) && PatchFine(check, schema, stored, patched, allowFrozen, n))
            && (r.Failure? ==> PatchFailsFirst(check, schema, stored, patched, allowFrozen, r.error))
  {
    if n > 0 {
      var m := n - 1;
      assert schema[..n][..m] == schema[..m] && schema[..n][m] == schema[m];
      PatchMeetsTests(check, schema, stored, patched, allowFrozen, m);
      if !schema[m].sensitive {
        PatchEntry(check, schema, stored, patched, allowFrozen, m);
      }
      var before := Patch(check, schema[..m], stored, patched, allowFrozen);
      if before.Success? {
        PatchedSnoc(schema, stored, patched, m, before.value);
      }
    }
  }

  lemma PatchedSnoc(schema: seq<SchemaVariable>, stored: seq<Variable>, patched: seq<Variable>, m: nat, list: seq<Variable>)
    requires m < |schema| && PatchedAll(schema, stored, patched, m, list)
    ensures schema[m].sensitive ==> PatchedAll(schema, stored, patched, m + 1, list)
    ensures forall w :: !schema[m].sensitive && PatchedAt(schema[m], stored, patched, w) ==>
      PatchedAll(schema, stored, patched, m + 1, list + [w])
  {
    assert schema[..m + 1] == schema[..m] + [schema[m]] && schema[..m + 1][..m] == schema[..m];
  }

  lemma CreateEntry(check: Check, schema: seq<SchemaVariable>, given: seq<Variable>, others: seq<seq<Variable>>, k: nat)
    requires k < |schema| && !schema[k].sensitive
    ensures var v := schema[k];
            var one := CreateOne(check, v, Find(given, v.name), others);
            && (one.Success? ==> CreatedAt(v, given, one.value))
            && (one.Success? ==> forall e :: !CreateFailsAt(check, schema, given, others, k, e))
            && (one.Failure? ==> CreateFailsAt(check, schema, given, others, k, one.error))
  {
    var v := schema[k];
    FindByPosition(given, v.name);
    CreateOneByTests(check, v, Find(given, v.name), others);
  }

  lemma {:induction false} CreateMeetsTests(check: Check, schema: seq<SchemaVariable>, given: seq<Variable>, others: seq<seq<Variable>>, n: nat)
    requires n <= |schema|
    ensures var r := Create(check, schema[..n], given, others);
            && (r.Success? ==> CreatedAll(schema, given, n, r.value) && CreateFine(check, schema, given, others, n))
            && (r.Failure? ==> CreateFailsFirst(check, schema, given, others, r.error))
  {
    if n > 0 {
      var m := n - 1;
      assert schema[..n][..m] == schema[..m] && schema[..n][m] == schema[m];
      CreateMeetsTests(check, schema, given, others, m);
      if !schema[m].sensitive {
        CreateEntry(check, schema, given, others, m);
      }
      var before := Create(check, schema[..m], given, others);
      if before.Success? {
        CreatedSnoc(schema, given, m, before.value);
      }
    }
  }

  lemma CreatedSnoc(schema: seq<SchemaVariable>, given: seq<Variable>, m: nat, list: seq<Variable>)
    requires m < |schema| && CreatedAll(schema, given, m, list)
    ensures schema[m].sensitive ==> CreatedAll(schema, given, m + 1, list)
    ensures forall w :: !schema[m].sensitive && CreatedAt(schema[m], given, w) ==> CreatedAll(schema, given, m + 1, list + [w])
  {
    assert schema[..m + 1] == schema[..m] + [schema[m]] && schema[..m + 1][..m] == schema[..m];
  }

  /** Patching succeeds exactly when every entry passes its tests, and fails with the error of the first that does not. */
  lemma PatchIsByTests(check: Check, schema: seq<SchemaVariable>, stored: seq<Variable>, patched: seq<Variable>, allowFrozen: bool)
    ensures PatchedByTests(check, schema, stored, patched, allowFrozen, Patch(check, schema, stored, patched, allowFrozen))
  {
    assert schema[..|schema|] == schema;
    PatchMeetsTests(check, schema, stored, patched, allowFrozen, |schema|);
  }

  lemma CreateIsByTests(check: Check, schema: seq<SchemaVariable>, given: seq<Variable>, others: seq<seq<Variable>>)
    ensures CreatedByTests(check, schema, given, others, Create(check, schema, given, others))
  {
    assert schema[..|schema|] == schema;
    CreateMeetsTests(check, schema, given, others, |schema|);
  }

  /** An error in a prefix is the error of the whole. */
  lemma CreatePrefix(check: Check, schema: seq<SchemaVariable>, given: seq<Variable>, others: seq<seq<Variable>>, k: nat)
    requires k <= |schema|
    ensures Create(check, schema[..k], given, others).Failure? ==>
      Create(check, schema, given, others) == Create(check, schema[..k], given, others)
  {
    if k == |schema| {
      assert schema[..k] == schema;
    } else {
      var n := |schema| - 1;
      CreatePrefix(check, schema[..n], given, others, k);
      assert schema[..n][..k] == schema[..k];
    }
  }

  lemma PatchPrefix(check: Check, schema: seq<SchemaVariable>, stored: seq<Variable>, patched: seq<Variable>, allowFrozen: bool, k: nat)
    requires k <= |schema|
    ensures Patch(check, schema[..k], stored, patched, allowFrozen).Failure? ==>
      Patch(check, schema, stored, patched, allowFrozen) == Patch(check, schema[..k], stored, patched, allowFrozen)
  {
    if k == |schema| {
      assert schema[..k] == schema;
    } else {
      var n := |schema| - 1;
      PatchPrefix(check, schema[..n], stored, patched, allowFrozen, k);
      assert schema[..n][..k] == schema[..k];
    }
  }

  ghost predicate DistinctNames(schema: seq<SchemaVariable>) {
    forall i, j :: 0 <= i < j < |schema| ==> schema[i].name != schema[j].name
  }

  function Names(variables: seq<Variable>): seq<string> {
    seq(|variables|, i requires 0 <= i < |variables| => variables[i].name)
  }

  /** The names a caller may set, in schema order. */
  function OpenNames(schema: seq<SchemaVariable>): seq<string> {
    if schema == [] then []
    else OpenNames(schema[..|schema| - 1]) + if schema[|schema| - 1].sensitive then [] else [schema[|schema| - 1].name]
  }

  /** A created resource has exactly the non-sensitive variables of its schema, in schema order. */
  lemma {:induction false} CreatedNames(check: Check, schema: seq<SchemaVariable>, given: seq<Variable>, others: seq<seq<Variable>>)
    requires Create(check, schema, given, others).Success?
    ensures Names(Create(check, schema, given, others).value) == OpenNames(schema)
  {
    if schema != [] {
      CreatedNames(check, schema[..|schema| - 1], given, others);
    }
  }

  lemma {:induction false} CreatedFind(check: Check, schema: seq<SchemaVariable>, given: seq<Variable>, others: seq<seq<Variable>>, k: nat)
    requires DistinctNames(schema) && k < |schema| && !schema[k].sensitive
    requires Create(check, schema, given, others).Success?
    ensures var one := CreateOne(check, schema[k], Find(given, schema[k].name), others);
            && one.Success?
            && Find(Create(check, schema, given, others).value, schema[k].name) == Some(one.value)
  {
    var n := |schema| - 1;
    if k < n {
      assert schema[..n][k] == schema[k];
      CreatedFind(check, schema[..n], given, others, k);
      FoundStill(check, schema, given, others, schema[k].name);
    }
  }

  /** One more schema entry does not change what is found under another name. */
  lemma FoundStill(check: Check, schema: seq<SchemaVariable>, given: seq<Variable>, others: seq<seq<Variable>>, name: string)
    requires schema != [] && schema[|schema| - 1].name != name && Create(check, schema, given, others).Success?
    ensures var before := Create(check, schema[..|schema| - 1], given, others);
            before.Success? && Find(Create(check, schema, given, others).value, name) == Find(before.value, name)
  {
    var n := |schema| - 1;
    if !schema[n].sensitive {
      var list := Create(check, schema, given, others).value;
      assert list[..|list| - 1] == Create(check, schema[..n], given, others).value;
    }
  }

  /** A variable that passed creation passes a patch with its own value, and stays as it is. */
  lemma PatchOneIdentity(check: Check, v: SchemaVariable, given: Option<Variable>, others: seq<seq<Variable>>, allowFrozen: bool)
    requires CreateOne(check, v, given, others).Success?
    ensures var w := CreateOne(check, v, given, others).value;
            PatchOne(check, v, Some(w), Some(w), allowFrozen) == Success(w)
  {
    SameReflexive(CreateOne(check, v, given, others).value.value);
  }

  lemma {:induction false} CreateThenPatchPrefix(check: Check, schema: seq<SchemaVariable>, given: seq<Variable>,
                                                 others: seq<seq<Variable>>, allowFrozen: bool, k: nat)
    requires DistinctNames(schema) && k <= |schema|
    requires Create(check, schema, given, others).Success?
    ensures var created := Create(check, schema, given, others).value;
            Patch(check, schema[..k], created, created, allowFrozen) == Create(check, schema[..k], given, others)
  {
    if k > 0 {
      CreateThenPatchPrefix(check, schema, given, others, allowFrozen, k - 1);
      assert schema[..k][..k - 1] == schema[..k - 1];
      if !schema[k - 1].sensitive {
        CreatedFind(check, schema, given, others, k - 1);
        PatchOneIdentity(check, schema[k - 1], Find(given, schema[k - 1].name), others, allowFrozen);
      }
    }
  }

  /** Patching a freshly created resource with its own variables succeeds and changes nothing. */
  lemma CreateThenPatch(check: Check, schema: seq<SchemaVariable>, given: seq<Variable>, others: seq<seq<Variable>>,
                        allowFrozen: bool)
    requires DistinctNames(schema)
    requires Create(check, schema, given, others).Success?
    ensures var created := Create(check, schema, given, others).value;
            Patch(check, schema, created, created, allowFrozen) == Success(created)
  {
    CreateThenPatchPrefix(check, schema, given, others, allowFrozen, |schema|);
    assert schema[..|schema|] == schema;
  }

  /** Every entry of this name is frozen, and neither sensitive nor restricted. */
  ghost predicate FrozenOnly(schema: seq<SchemaVariable>, name: string) {
    forall i :: 0 <= i < |schema| && schema[i].name == name ==>
      schema[i].frozen && !schema[i].sensitive && !schema[i].restricted
  }

  ghost predicate Declares(schema: seq<SchemaVariable>, name: string) {
    exists i :: 0 <= i < |schema| && schema[i].name == name
  }

  lemma PatchedName(check: Check, v: SchemaVariable, stored: seq<Variable>, patched: seq<Variable>)
    requires PatchOne(check, v, Find(stored, v.name), Find(patched, v.name), false).Success?
    ensures PatchOne(check, v, Find(stored, v.name), Find(patched, v.name), false).value.name == v.name
  {
  }

  /** For a frozen variable only the stored value passes. */
  lemma FrozenOne(check: Check, v: SchemaVariable, stored: Option<Variable>, patched: Option<Variable>)
    requires v.frozen && !v.restricted && stored.Some?
    requires PatchOne(check, v, stored, patched, false).Success?
    ensures PatchOne(check, v, stored, patched, false).value.value == stored.value.value
    ensures patched.Some? && Same(stored.value.value, patched.value.value)
  {
  }

  /** A successful patch keeps the stored value of a frozen variable, and was asked for the same one. */
  lemma {:induction false} PatchKeepsFrozen(check: Check, schema: seq<SchemaVariable>, stored: seq<Variable>, patched: seq<Variable>, name: string)
    requires FrozenOnly(schema, name) && Find(stored, name).Some?
    requires Patch(check, schema, stored, patched, false).Success?
    ensures var result := Find(Patch(check, schema, stored, patched, false).value, name);
            if Declares(schema, name) then
              && result.Some? && result.value.value == Find(stored, name).value.value
              && Find(patched, name).Some? && Same(Find(stored, name).value.value, Find(patched, name).value.value)
            else result == None
  {
    if schema != [] {
      var n := |schema| - 1;
      assert forall i :: 0 <= i < n ==> schema[..n][i] == schema[i];
      PatchKeepsFrozen(check, schema[..n], stored, patched, name);
      assert schema == schema[..n] + [schema[n]];
      DeclaresSnoc(schema[..n], schema[n], name);
      FoundAfterPatch(check, schema, stored, patched, name);
      if schema[n].name == name {
        FrozenOne(check, schema[n], Find(stored, name), Find(patched, name));
      }
    }
  }

  /** What the last schema entry adds to a patch. */
  lemma FoundAfterPatch(check: Check, schema: seq<SchemaVariable>, stored: seq<Variable>, patched: seq<Variable>, name: string)
    requires schema != [] && Patch(check, schema, stored, patched, false).Success?
    ensures var v, before := schema[|schema| - 1], Patch(check, schema[..|schema| - 1], stored, patched, false);
            var one := PatchOne(check, v, Find(stored, v.name), Find(patched, v.name), false);
            && before.Success? && (!v.sensitive ==> one.Success?)
            && Find(Patch(check, schema, stored, patched, false).value, name)
                 == if !v.sensitive && v.name == name then Some(one.value) else Find(before.value, name)
  {
    var v, before := schema[|schema| - 1], Patch(check, schema[..|schema| - 1], stored, patched, false);
    if !v.sensitive {
      PatchedName(check, v, stored, patched);
      FindSnoc(before.value, PatchOne(check, v, Find(stored, v.name), Find(patched, v.name), false).value, name);
    }
  }

  lemma FindSnoc(variables: seq<Variable>, w: Variable, name: string)
    ensures Find(variables + [w], name) == if w.name == name then Some(w) else Find(variables, name)
  {
    assert (variables + [w])[..|variables|] == variables;
  }

  lemma DeclaresSnoc(schema: seq<SchemaVariable>, v: SchemaVariable, name: string)
    ensures Declares(schema + [v], name) <==> Declares(schema, name) || v.name == name
  {
    if Declares(schema, name) {
      var i :| 0 <= i < |schema| && schema[i].name == name;
      assert (schema + [v])[i].name == name;
    }
    if v.name == name {
      assert (schema + [v])[|schema|].name == name;
    }
  }

  datatype PatchRequest = PatchRequest(schema: seq<SchemaVariable>, variables: seq<Variable>)

  /** Patches one after the other, each on the result of the one before. */
  function PatchRun(check: Check, stored: seq<Variable>, requests: seq<PatchRequest>): Variables {
    if requests == [] then Success(stored)
    else
      var n := |requests| - 1;
      match PatchRun(check, stored, requests[..n])
      case Failure(e) => Failure(e)
      case Success(list) => Patch(check, requests[n].schema, list, requests[n].variables, false)
  }

  /**
   * Over any run of successful patches, under schemas that may otherwise change, a variable that
   * stays frozen keeps its first value.
   */
  lemma {:induction false} FrozenForever(check: Check, stored: seq<Variable>, requests: seq<PatchRequest>, name: string)
    requires Find(stored, name).Some?
    requires forall k :: 0 <= k < |requests| ==> FrozenOnly(requests[k].schema, name) && Declares(requests[k].schema, name)
    requires PatchRun(check, stored, requests).Success?
    ensures var result := Find(PatchRun(check, stored, requests).value, name);
            result.Some? && result.value.value == Find(stored, name).value.value
  {
    if requests != [] {
      var n := |requests| - 1;
      FrozenForever(check, stored, requests[..n], name);
      PatchKeepsFrozen(check, requests[n].schema, PatchRun(check, stored, requests[..n]).value, requests[n].variables, name);
    }
  }
}
