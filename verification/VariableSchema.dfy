/**
 * The schema of a resource's variables: defaults from the source code version, values
 * inherited from ancestors' outputs through template references, and inherited configuration.
 */
module VariableSchema {
  import opened Common

  type Value(==, !new)

  /** Template ids are UUIDs; only their fixed text length matters here. */
  type Uuid = s: string | |s| == 36 witness seq(36, _ => '0')

  datatype Output = Output(name: string, value: Option<Value>)
  datatype Config = Config(name: string, value: Option<Value>, inheritedByChildren: bool)

  datatype Ancestor = Ancestor(templateId: Uuid, hasVersion: bool, outputs: seq<Output>, dependencyConfig: seq<Config>)

  /** An ancestor's source code version: its template and the names of its output configs. */
  datatype Version = Version(templateId: Uuid, outputNames: seq<string>)

  datatype Reference = Reference(referenceTemplateId: Uuid, inputName: string, outputName: string)

  /** A schema entry; the fields that are copied unchanged are left out. */
  datatype Entry = Entry(name: string, value: Option<Value>)

  /** The unique index on source_config_template_references. */
  ghost predicate UniqueReferences(refs: seq<Reference>) {
    forall a, b :: a in refs && b in refs && a.referenceTemplateId == b.referenceTemplateId && a.inputName == b.inputName ==> a == b
  }

  function Key(name: string, template: Uuid): string {
    name + "_" + template
  }

  /** Names may contain underscores; the fixed length of the id keeps keys apart all the same. */
  lemma KeyInjective(name: string, template: Uuid, name': string, template': Uuid)
    requires Key(name, template) == Key(name', template')
    ensures name == name' && template == template'
  {
    var k := Key(name, template);
    assert |name| == |name'|;
    assert k[..|name|] == name && k[..|name|] == name';
    assert k[|name| + 1..] == template && k[|name| + 1..] == template';
  }

  /** The value of the last output of this name, if it is not null. */
  function OutputOf(outputs: seq<Output>, name: string): Option<Value> {
    if outputs == [] then None
    else if outputs[|outputs| - 1].name == name then outputs[|outputs| - 1].value
    else OutputOf(outputs[..|outputs| - 1], name)
  }

  /** Which references, of those considered, give this ancestor a say over a variable. */
  predicate Matches(r: Reference, p: Ancestor, name: string) {
    r.inputName == name && r.referenceTemplateId == p.templateId && OutputOf(p.outputs, r.outputName).Some?
  }

  ghost function Offer(refs: set<Reference>, p: Ancestor, name: string): Option<Value> {
    if exists r :: r in refs && Matches(r, p, name) then
      var r :| r in refs && Matches(r, p, name);
      OutputOf(p.outputs, r.outputName)
    else None
  }

  /** The references whose output is configured by some ancestor's version of a referenced template. */
  ghost function Usable(refs: seq<Reference>, versions: seq<Version>): set<Reference> {
    set r | r in refs && exists v, q :: v in versions && q in refs && q.referenceTemplateId == v.templateId && r.outputName in v.outputNames
  }

  /** The last ancestor with a version that offers a non-null referenced output. */
  ghost function LastOffer(refs: set<Reference>, ancestors: seq<Ancestor>, name: string): Option<Value> {
    if ancestors == [] then None
    else
      var p := ancestors[|ancestors| - 1];
      if p.hasVersion && Offer(refs, p, name).Some? then Offer(refs, p, name)
      else LastOffer(refs, ancestors[..|ancestors| - 1], name)
  }

  /** The last configuration entry of this name that children inherit and that is not null. */
  function LastInherited(configs: seq<Config>, name: string): Option<Value> {
    if configs == [] then None
    else
      var c := configs[|configs| - 1];
      if c.name == name && c.inheritedByChildren && c.value.Some? then c.value
      else LastInherited(configs[..|configs| - 1], name)
  }

  /** Project configuration first, then each ancestor's. */
  function AllConfigs(project: seq<Config>, ancestors: seq<Ancestor>): seq<Config> {
    if ancestors == [] then project
    else AllConfigs(project, ancestors[..|ancestors| - 1]) + ancestors[|ancestors| - 1].dependencyConfig
  }

  /** The dictionary by name holds the last entry of each name. */
  ghost predicate IsLast(entries: seq<Entry>, i: int) {
    0 <= i < |entries| && forall k :: i < k < |entries| ==> entries[k].name != entries[i].name
  }

  /** The rule in plain terms: inherited configuration, else the last offer, else the default. */
  ghost function Rule(defaults: seq<Entry>, refs: seq<Reference>, versions: seq<Version>, project: seq<Config>,
                      ancestors: seq<Ancestor>, i: nat): Entry
    requires i < |defaults|
  {
    var name := defaults[i].name;
    var config := LastInherited(AllConfigs(project, ancestors), name);
    var offer := LastOffer(Usable(refs, versions), ancestors, name);
    if config.Some? then Entry(name, config)
    else if IsLast(defaults, i) && offer.Some? then Entry(name, offer)
    else defaults[i]
  }

  // The same by position.

  predicate Qualifies(c: Config, name: string) {
    c.name == name && c.inheritedByChildren && c.value.Some?
  }

  predicate NoneQualifies(configs: seq<Config>, name: string) {
    forall k :: 0 <= k < |configs| ==> !Qualifies(configs[k], name)
  }

  /** Entry k of these is the last that children inherit under this name. */
  predicate LastQualifying(configs: seq<Config>, k: int, name: string) {
    0 <= k < |configs| && Qualifies(configs[k], name) && forall l :: k < l < |configs| ==> !Qualifies(configs[l], name)
  }

  predicate NoAncestorConfig(ancestors: seq<Ancestor>, name: string) {
    forall a :: 0 <= a < |ancestors| ==> NoneQualifies(ancestors[a].dependencyConfig, name)
  }

  /** Entry k of ancestor a is the last one of the last ancestor that has one. */
  predicate LastAncestorConfig(ancestors: seq<Ancestor>, a: int, k: int, name: string) {
    && 0 <= a < |ancestors| && LastQualifying(ancestors[a].dependencyConfig, k, name)
    && forall b :: a < b < |ancestors| ==> NoneQualifies(ancestors[b].dependencyConfig, name)
  }

  predicate NoConfig(project: seq<Config>, ancestors: seq<Ancestor>, name: string) {
    NoneQualifies(project, name) && NoAncestorConfig(ancestors, name)
  }

  /** Output o of these is the last of its name. */
  predicate LastOutput(outputs: seq<Output>, o: int, name: string) {
    0 <= o < |outputs| && outputs[o].name == name && forall l :: o < l < |outputs| ==> outputs[l].name != name
  }

  /**
   * Ancestor p has a version, and this value as the last output of the name a reference for the variable gives, to p's
   * template; some version whose template is referenced configures an output of that name.
   */
  ghost predicate Provides(refs: seq<Reference>, versions: seq<Version>, p: Ancestor, name: string, value: Value) {
    p.hasVersion && exists r, o ::
      && r in refs && r.inputName == name && r.referenceTemplateId == p.templateId
      && LastOutput(p.outputs, o, r.outputName) && p.outputs[o].value == Some(value)
      && exists v, q :: v in versions && q in refs && q.referenceTemplateId == v.templateId && r.outputName in v.outputNames
  }

  ghost predicate NothingProvided(refs: seq<Reference>, versions: seq<Version>, ancestors: seq<Ancestor>, name: string) {
    forall a, value :: 0 <= a < |ancestors| ==> !Provides(refs, versions, ancestors[a], name, value)
  }

  /** Ancestor a is the last that provides a value, this one. */
  ghost predicate LastProvided(refs: seq<Reference>, versions: seq<Version>, ancestors: seq<Ancestor>, a: int, name: string, value: Value) {
    && 0 <= a < |ancestors| && Provides(refs, versions, ancestors[a], name, value)
    && forall b, other :: a < b < |ancestors| ==> !Provides(refs, versions, ancestors[b], name, other)
  }

  lemma {:induction false} InheritedAt(configs: seq<Config>, k: nat, name: string)
    requires LastQualifying(configs, k, name)
    ensures LastInherited(configs, name) == configs[k].value
  {
    var n := |configs| - 1;
    if k < n {
      assert !Qualifies(configs[n], name);
      LastQualifyingBefore(configs, k, name);
      InheritedAt(configs[..n], k, name);
    }
  }

  lemma LastQualifyingBefore(configs: seq<Config>, k: nat, name: string)
    requires LastQualifying(configs, k, name) && k < |configs| - 1
    ensures LastQualifying(configs[..|configs| - 1], k, name)
  {
  }

  lemma {:induction false} NothingInherited(configs: seq<Config>, name: string)
    ensures LastInherited(configs, name) == None <==> NoneQualifies(configs, name)
  {
    if configs != [] {
      NothingInherited(configs[..|configs| - 1], name);
      assert configs == configs[..|configs| - 1] + [configs[|configs| - 1]];
    }
  }

  lemma InheritedByPosition(configs: seq<Config>, name: string)
    ensures LastInherited(configs, name) == None <==> NoneQualifies(configs, name)
    ensures forall k :: LastQualifying(configs, k, name) ==> LastInherited(configs, name) == configs[k].value
  {
    NothingInherited(configs, name);
    forall k | LastQualifying(configs, k, name)
      ensures LastInherited(configs, name) == configs[k].value
    {
      InheritedAt(configs, k, name);
    }
  }

  lemma InheritedConcat(a: seq<Config>, b: seq<Config>, name: string)
    ensures LastInherited(a + b, name) == if LastInherited(b, name).Some? then LastInherited(b, name) else LastInherited(a, name)
  {
    if b == [] {
      assert a + b == a;
    } else {
      assert (a + b)[..|a + b| - 1] == a + b[..|b| - 1];
      InheritedConcat(a, b[..|b| - 1], name);
    }
  }

  lemma {:induction false} ConfigsByPosition(project: seq<Config>, ancestors: seq<Ancestor>, name: string)
    ensures forall a, k :: LastAncestorConfig(ancestors, a, k, name) ==>
      LastInherited(AllConfigs(project, ancestors), name) == ancestors[a].dependencyConfig[k].value
    ensures NoAncestorConfig(ancestors, name) ==> LastInherited(AllConfigs(project, ancestors), name) == LastInherited(project, name)
    ensures LastInherited(AllConfigs(project, ancestors), name) == None <==> NoConfig(project, ancestors, name)
  {
    if ancestors == [] {
      NothingInherited(project, name);
    } else {
      var n := |ancestors| - 1;
      ConfigsByPosition(project, ancestors[..n], name);
      InheritedConcat(AllConfigs(project, ancestors[..n]), ancestors[n].dependencyConfig, name);
      InheritedByPosition(ancestors[n].dependencyConfig, name);
      AncestorsBefore(ancestors, name);
    }
  }

  lemma AncestorsBefore(ancestors: seq<Ancestor>, name: string)
    requires ancestors != []
    ensures var n := |ancestors| - 1;
            && (NoAncestorConfig(ancestors, name) <==>
                  NoAncestorConfig(ancestors[..n], name) && NoneQualifies(ancestors[n].dependencyConfig, name))
            && forall a, k :: LastAncestorConfig(ancestors, a, k, name) && a < n ==>
                 LastAncestorConfig(ancestors[..n], a, k, name) && NoneQualifies(ancestors[n].dependencyConfig, name)
  {
    var n := |ancestors| - 1;
    assert forall l :: 0 <= l < n ==> ancestors[..n][l] == ancestors[l];
  }

  lemma {:induction false} OutputByPosition(outputs: seq<Output>, name: string)
    ensures forall o :: LastOutput(outputs, o, name) ==> OutputOf(outputs, name) == outputs[o].value
    ensures OutputOf(outputs, name).Some? ==> exists o :: LastOutput(outputs, o, name)
  {
    if outputs != [] {
      var n := |outputs| - 1;
      OutputByPosition(outputs[..n], name);
      if outputs[n].name == name {
        assert LastOutput(outputs, n, name);
      } else {
        forall o
          ensures LastOutput(outputs, o, name) <==> LastOutput(outputs[..n], o, name)
        {
        }
      }
    }
  }

  lemma OfferByPosition(refs: seq<Reference>, versions: seq<Version>, p: Ancestor, name: string, value: Value)
    requires UniqueReferences(refs)
    ensures p.hasVersion && Offer(Usable(refs, versions), p, name) == Some(value) <==> Provides(refs, versions, p, name, value)
  {
    var usable := Usable(refs, versions);
    if p.hasVersion && Offer(usable, p, name) == Some(value) {
      var r :| r in usable && Matches(r, p, name) && OutputOf(p.outputs, r.outputName) == Some(value);
      OutputByPosition(p.outputs, r.outputName);
      var o :| LastOutput(p.outputs, o, r.outputName);
    }
    if Provides(refs, versions, p, name, value) {
      var r, o :|
        && r in refs && r.inputName == name && r.referenceTemplateId == p.templateId
        && LastOutput(p.outputs, o, r.outputName) && p.outputs[o].value == Some(value)
        && exists v, q :: v in versions && q in refs && q.referenceTemplateId == v.templateId && r.outputName in v.outputNames;
      OutputByPosition(p.outputs, r.outputName);
      assert r in usable && Matches(r, p, name);
    }
  }

  lemma {:induction false} OffersByPosition(refs: seq<Reference>, versions: seq<Version>, ancestors: seq<Ancestor>, name: string)
    requires UniqueReferences(refs)
    ensures var offer := LastOffer(Usable(refs, versions), ancestors, name);
            && (forall a, value :: LastProvided(refs, versions, ancestors, a, name, value) ==> offer == Some(value))
            && (NothingProvided(refs, versions, ancestors, name) ==> offer == None)
  {
    if ancestors != [] {
      var n := |ancestors| - 1;
      OffersByPosition(refs, versions, ancestors[..n], name);
      forall value {
        OfferByPosition(refs, versions, ancestors[n], name, value);
      }
      assert forall l :: 0 <= l < n ==> ancestors[..n][l] == ancestors[l];
      if forall value :: !Provides(refs, versions, ancestors[n], name, value) {
        assert forall a, value :: LastProvided(refs, versions, ancestors, a, name, value) ==>
          LastProvided(refs, versions, ancestors[..n], a, name, value);
      }
    }
  }

  /**
   * The last entry of the last ancestor that has one, else the last of the project, else the last ancestor's output, else
   * the default.
   */
  ghost predicate EntryByPosition(defaults: seq<Entry>, refs: seq<Reference>, versions: seq<Version>, project: seq<Config>,
                                  ancestors: seq<Ancestor>, i: nat, entry: Entry)
    requires i < |defaults|
  {
    var name := defaults[i].name;
    && (forall a, k :: LastAncestorConfig(ancestors, a, k, name) ==> entry == Entry(name, ancestors[a].dependencyConfig[k].value))
    && (forall k :: NoAncestorConfig(ancestors, name) && LastQualifying(project, k, name) ==> entry == Entry(name, project[k].value))
    && (NoConfig(project, ancestors, name) ==>
          && (forall a, value :: IsLast(defaults, i) && LastProvided(refs, versions, ancestors, a, name, value) ==>
                entry == Entry(name, Some(value)))
          && ((IsLast(defaults, i) ==> NothingProvided(refs, versions, ancestors, name)) ==> entry == defaults[i]))
  }

  lemma RuleByPosition(defaults: seq<Entry>, refs: seq<Reference>, versions: seq<Version>, project: seq<Config>,
                       ancestors: seq<Ancestor>, i: nat)
    requires UniqueReferences(refs) && i < |defaults|
    ensures EntryByPosition(defaults, refs, versions, project, ancestors, i, Rule(defaults, refs, versions, project, ancestors, i))
  {
    ConfigsByPosition(project, ancestors, defaults[i].name);
    InheritedByPosition(project, defaults[i].name);
    OffersByPosition(refs, versions, ancestors, defaults[i].name);
  }

  lemma RulesByPosition(defaults: seq<Entry>, refs: seq<Reference>, versions: seq<Version>, project: seq<Config>, ancestors: seq<Ancestor>)
    requires UniqueReferences(refs)
    ensures forall i :: 0 <= i < |defaults| ==>
      EntryByPosition(defaults, refs, versions, project, ancestors, i, Rule(defaults, refs, versions, project, ancestors, i))
  {
    forall i | 0 <= i < |defaults|
      ensures EntryByPosition(defaults, refs, versions, project, ancestors, i, Rule(defaults, refs, versions, project, ancestors, i))
    {
      RuleByPosition(defaults, refs, versions, project, ancestors, i);
    }
  }

  lemma {:induction false} SomeLastQualifying(configs: seq<Config>, name: string) returns (k: nat)
    requires !NoneQualifies(configs, name)
    ensures LastQualifying(configs, k, name)
  {
    var n := |configs| - 1;
    if Qualifies(configs[n], name) {
      k := n;
    } else {
      assert forall l :: 0 <= l < n ==> configs[..n][l] == configs[l];
      k := SomeLastQualifying(configs[..n], name);
    }
  }

  lemma {:induction false} SomeLastAncestor(ancestors: seq<Ancestor>, name: string) returns (a: nat, k: nat)
    requires !NoAncestorConfig(ancestors, name)
    ensures LastAncestorConfig(ancestors, a, k, name)
  {
    var n := |ancestors| - 1;
    if NoneQualifies(ancestors[n].dependencyConfig, name) {
      assert forall l :: 0 <= l < n ==> ancestors[..n][l] == ancestors[l];
      a, k := SomeLastAncestor(ancestors[..n], name);
    } else {
      a := n;
      k := SomeLastQualifying(ancestors[n].dependencyConfig, name);
    }
  }

  lemma {:induction false} SomeLastProvided(refs: seq<Reference>, versions: seq<Version>, ancestors: seq<Ancestor>, name: string)
    returns (a: nat, value: Value)
    requires !NothingProvided(refs, versions, ancestors, name)
    ensures LastProvided(refs, versions, ancestors, a, name, value)
  {
    var n := |ancestors| - 1;
    if v :| Provides(refs, versions, ancestors[n], name, v) {
      a, value := n, v;
    } else {
      assert forall l :: 0 <= l < n ==> ancestors[..n][l] == ancestors[l];
      a, value := SomeLastProvided(refs, versions, ancestors[..n], name);
    }
  }

  /** The cases leave no entry open. */
  lemma PositionDecides(defaults: seq<Entry>, refs: seq<Reference>, versions: seq<Version>, project: seq<Config>,
                        ancestors: seq<Ancestor>, i: nat, entry: Entry)
    requires UniqueReferences(refs) && i < |defaults|
    ensures EntryByPosition(defaults, refs, versions, project, ancestors, i, entry)
       <==> entry == Rule(defaults, refs, versions, project, ancestors, i)
  {
    var name := defaults[i].name;
    RuleByPosition(defaults, refs, versions, project, ancestors, i);
    if !NoAncestorConfig(ancestors, name) {
      var a, k := SomeLastAncestor(ancestors, name);
    } else if !NoneQualifies(project, name) {
      var k := SomeLastQualifying(project, name);
    } else if !NothingProvided(refs, versions, ancestors, name) {
      var a, value := SomeLastProvided(refs, versions, ancestors, name);
    }
  }

  /** The rule depends on the set of versions only, so not on the order it happens to be listed in. */
  lemma VersionOrderIrrelevant(defaults: seq<Entry>, refs: seq<Reference>, versions: seq<Version>, versions': seq<Version>,
                               project: seq<Config>, ancestors: seq<Ancestor>, i: nat)
    requires i < |defaults| && Elements(versions) == Elements(versions')
    ensures Rule(defaults, refs, versions, project, ancestors, i) == Rule(defaults, refs, versions', project, ancestors, i)
  {
    assert forall v :: v in versions <==> v in Elements(versions);
    assert forall v :: v in versions' <==> v in Elements(versions');
    assert Usable(refs, versions) == Usable(refs, versions');
  }

  function OutputsMap(outputs: seq<Output>, template: Uuid): map<string, Option<Value>> {
    if outputs == [] then map[]
    else
      var o := outputs[|outputs| - 1];
      OutputsMap(outputs[..|outputs| - 1], template)[Key(o.name, template) := o.value]
  }

  function Get(m: map<string, Option<Value>>, key: string): Option<Value> {
    if key in m then m[key] else None
  }

  lemma OutputsMapExact(outputs: seq<Output>, template: Uuid, name: string, wanted: Uuid)
    ensures Get(OutputsMap(outputs, template), Key(name, wanted)) == if wanted == template then OutputOf(outputs, name) else None
  {
    if outputs != [] {
      var n := |outputs| - 1;
      OutputsMapExact(outputs[..n], template, name, wanted);
      if Key(outputs[n].name, template) == Key(name, wanted) {
        KeyInjective(outputs[n].name, template, name, wanted);
      }
    }
  }

  /** What the entries hold once the references in done have been applied for ancestor p, on top of the earlier ancestors. */
  ghost function Current(defaults: seq<Entry>, usable: set<Reference>, earlier: seq<Ancestor>, done: set<Reference>, p: Ancestor, i: nat): Entry
    requires i < |defaults|
  {
    var name := defaults[i].name;
    var offer := if Offer(done, p, name).Some? then Offer(done, p, name) else LastOffer(usable, earlier, name);
    if IsLast(defaults, i) && offer.Some? then Entry(name, offer) else defaults[i]
  }

  ghost predicate IsCurrent(defaults: seq<Entry>, usable: set<Reference>, earlier: seq<Ancestor>, done: set<Reference>, p: Ancestor, entries: seq<Entry>) {
    |entries| == |defaults| && forall i :: 0 <= i < |entries| ==> entries[i] == Current(defaults, usable, earlier, done, p, i)
  }

  ghost predicate IndexedByName(defaults: seq<Entry>, byName: map<string, nat>) {
    && (forall name :: name in byName ==> IsLast(defaults, byName[name]) && defaults[byName[name]].name == name)
    && forall i :: 0 <= i < |defaults| ==> defaults[i].name in byName
  }

  lemma OfferStep(refs: seq<Reference>, done: set<Reference>, r: Reference, p: Ancestor, name: string)
    requires UniqueReferences(refs) && r in refs && forall q :: q in done ==> q in refs
    ensures Offer(done + {r}, p, name) ==
      if Matches(r, p, name) then OutputOf(p.outputs, r.outputName) else Offer(done, p, name)
  {
    if Matches(r, p, name) {
      assert r in done + {r};
    }
    if exists q :: q in done && Matches(q, p, name) {
      var q :| q in done && Matches(q, p, name);
      assert q in done + {r};
    }
  }

  /** One reference considered for one ancestor. */
  method ApplyReference(refs: seq<Reference>, defaults: seq<Entry>, byName: map<string, nat>, entries: seq<Entry>,
                        outputsMap: map<string, Option<Value>>, r: Reference,
                        ghost usable: set<Reference>, ghost earlier: seq<Ancestor>, ghost done: set<Reference>, ghost p: Ancestor)
    returns (entries': seq<Entry>)
    requires UniqueReferences(refs) && r in refs && forall q :: q in done ==> q in refs
    requires IndexedByName(defaults, byName) && outputsMap == OutputsMap(p.outputs, p.templateId)
    requires IsCurrent(defaults, usable, earlier, done, p, entries)
    ensures IsCurrent(defaults, usable, earlier, done + {r}, p, entries')
  {
    entries' := entries;
    OutputsMapExact(p.outputs, p.templateId, r.outputName, r.referenceTemplateId);
    var value := Get(outputsMap, Key(r.outputName, r.referenceTemplateId));
    if value.Some? && r.inputName in byName {
      var k := byName[r.inputName];
      entries' := entries[k := entries[k].(value := value)];
    }
    forall i | 0 <= i < |defaults|
      ensures entries'[i] == Current(defaults, usable, earlier, done + {r}, p, i)
    {
      OfferStep(refs, done, r, p, defaults[i].name);
      assert entries[i] == Current(defaults, usable, earlier, done, p, i);
      if Matches(r, p, defaults[i].name) && IsLast(defaults, i) {
        assert IsLast(defaults, byName[r.inputName]);
        assert byName[r.inputName] == i;
      }
    }
  }

  /** refs_by_output: the references to each output name. */
  ghost predicate Grouped(refs: seq<Reference>, byOutput: map<string, seq<Reference>>) {
    forall name, r :: r in Group(byOutput, name) <==> r in refs && r.outputName == name
  }

  function Group(byOutput: map<string, seq<Reference>>, name: string): seq<Reference> {
    if name in byOutput then byOutput[name] else []
  }

  method GroupByOutput(refs: seq<Reference>) returns (byOutput: map<string, seq<Reference>>)
    ensures Grouped(refs, byOutput)
  {
    byOutput := map[];
    for k := 0 to |refs|
      invariant Grouped(refs[..k], byOutput)
    {
      var r := refs[k];
      assert refs[..k + 1] == refs[..k] + [r];
      ghost var before := byOutput;
      byOutput := byOutput[r.outputName := Group(byOutput, r.outputName) + [r]];
      forall name, q
        ensures q in Group(byOutput, name) <==> q in refs[..k + 1] && q.outputName == name
      {
        assert q in Group(before, name) <==> q in refs[..k] && q.outputName == name;
      }
    }
    assert refs[..|refs|] == refs;
  }

  method IndexByName(defaults: seq<Entry>) returns (byName: map<string, nat>)
    ensures IndexedByName(defaults, byName)
  {
    byName := map[];
    for k := 0 to |defaults|
      invariant IndexedByName(defaults[..k], byName)
    {
      byName := byName[defaults[k].name := k];
    }
    assert defaults[..|defaults|] == defaults;
  }

  ghost function WithOutput(refs: seq<Reference>, name: string): set<Reference> {
    set r | r in refs && r.outputName == name
  }

  ghost function WithOutputs(refs: seq<Reference>, names: seq<string>): set<Reference> {
    set r | r in refs && r.outputName in names
  }

  lemma OneMoreOutput(refs: seq<Reference>, names: seq<string>, k: nat, done: set<Reference>)
    requires k < |names|
    ensures done + WithOutputs(refs, names[..k]) + WithOutput(refs, names[k]) == done + WithOutputs(refs, names[..k + 1])
  {
    assert names[..k + 1] == names[..k] + [names[k]];
  }

  /** All references to one output config of an ancestor's version. */
  method ApplyOutput(refs: seq<Reference>, defaults: seq<Entry>, byName: map<string, nat>, byOutput: map<string, seq<Reference>>,
                     entries: seq<Entry>, outputsMap: map<string, Option<Value>>, name: string,
                     ghost usable: set<Reference>, ghost earlier: seq<Ancestor>, ghost done: set<Reference>, ghost p: Ancestor)
    returns (entries': seq<Entry>)
    requires UniqueReferences(refs) && Grouped(refs, byOutput) && forall q :: q in done ==> q in refs
    requires IndexedByName(defaults, byName) && outputsMap == OutputsMap(p.outputs, p.templateId)
    requires IsCurrent(defaults, usable, earlier, done, p, entries)
    ensures IsCurrent(defaults, usable, earlier, done + WithOutput(refs, name), p, entries')
  {
    entries' := entries;
    ghost var now := done;
    var group := Group(byOutput, name);
    for k := 0 to |group|
      invariant now == done + set r | r in group[..k]
      invariant IsCurrent(defaults, usable, earlier, now, p, entries')
    {
      assert group[k] in group;
      assert group[..k + 1] == group[..k] + [group[k]];
      assert forall q :: q in now ==> q in refs by {
        assert forall r :: r in group[..k] ==> r in group;
      }
      entries' := ApplyReference(refs, defaults, byName, entries', outputsMap, group[k], usable, earlier, now, p);
      now := now + {group[k]};
    }
    assert group[..|group|] == group;
    assert (set r | r in group) == WithOutput(refs, name);
  }

  /** What one version contributes: nothing unless its template is referenced. */
  ghost function FromVersion(refs: seq<Reference>, v: Version): set<Reference> {
    if exists q :: q in refs && q.referenceTemplateId == v.templateId then WithOutputs(refs, v.outputNames) else {}
  }

  method ApplyVersion(refs: seq<Reference>, defaults: seq<Entry>, byName: map<string, nat>, byOutput: map<string, seq<Reference>>,
                      refTemplates: set<Uuid>, entries: seq<Entry>, p: Ancestor, v: Version,
                      ghost usable: set<Reference>, ghost earlier: seq<Ancestor>, ghost done: set<Reference>)
    returns (entries': seq<Entry>)
    requires UniqueReferences(refs) && Grouped(refs, byOutput) && forall q :: q in done ==> q in refs
    requires forall t :: t in refTemplates <==> exists q :: q in refs && q.referenceTemplateId == t
    requires IndexedByName(defaults, byName) && IsCurrent(defaults, usable, earlier, done, p, entries)
    ensures IsCurrent(defaults, usable, earlier, done + FromVersion(refs, v), p, entries')
  {
    entries' := entries;
    if v.templateId !in refTemplates {
      assert done + FromVersion(refs, v) == done;
      return;
    }
    var outputsMap := OutputsMap(p.outputs, p.templateId);
    for k := 0 to |v.outputNames|
      invariant IsCurrent(defaults, usable, earlier, done + WithOutputs(refs, v.outputNames[..k]), p, entries')
    {
      var name := v.outputNames[k];
      ghost var now := done + WithOutputs(refs, v.outputNames[..k]);
      entries' := ApplyOutput(refs, defaults, byName, byOutput, entries', outputsMap, name, usable, earlier, now, p);
      OneMoreOutput(refs, v.outputNames, k, done);
    }
    assert v.outputNames[..|v.outputNames|] == v.outputNames;
  }

  /** The entries between two ancestors. */
  ghost predicate IsAfter(defaults: seq<Entry>, usable: set<Reference>, ancestors: seq<Ancestor>, entries: seq<Entry>) {
    |entries| == |defaults| && forall i :: 0 <= i < |entries| ==>
      entries[i] ==
        var offer := LastOffer(usable, ancestors, defaults[i].name);
        if IsLast(defaults, i) && offer.Some? then Entry(defaults[i].name, offer) else defaults[i]
  }

  lemma AncestorBegins(defaults: seq<Entry>, usable: set<Reference>, earlier: seq<Ancestor>, p: Ancestor, entries: seq<Entry>)
    requires IsAfter(defaults, usable, earlier, entries)
    ensures IsCurrent(defaults, usable, earlier, {}, p, entries)
  {
  }

  lemma AncestorEnds(defaults: seq<Entry>, usable: set<Reference>, earlier: seq<Ancestor>, p: Ancestor, entries: seq<Entry>)
    requires IsCurrent(defaults, usable, earlier, if p.hasVersion then usable else {}, p, entries)
    ensures IsAfter(defaults, usable, earlier + [p], entries)
  {
    assert (earlier + [p])[..|earlier|] == earlier;
    forall i | 0 <= i < |entries|
      ensures LastOffer(usable, earlier + [p], defaults[i].name) ==
        if p.hasVersion && Offer(usable, p, defaults[i].name).Some? then Offer(usable, p, defaults[i].name)
        else LastOffer(usable, earlier, defaults[i].name)
    {
    }
  }

  ghost function FromVersions(refs: seq<Reference>, versions: seq<Version>): set<Reference> {
    if versions == [] then {} else FromVersions(refs, versions[..|versions| - 1]) + FromVersion(refs, versions[|versions| - 1])
  }

  lemma FromVersionsUsable(refs: seq<Reference>, versions: seq<Version>)
    ensures FromVersions(refs, versions) == Usable(refs, versions)
  {
    if versions != [] {
      var n := |versions| - 1;
      FromVersionsUsable(refs, versions[..n]);
      assert versions == versions[..n] + [versions[n]];
      assert forall v :: v in versions <==> v in versions[..n] || v == versions[n];
    }
  }

  method ApplyAncestor(refs: seq<Reference>, defaults: seq<Entry>, byName: map<string, nat>, byOutput: map<string, seq<Reference>>,
                       refTemplates: set<Uuid>, versions: seq<Version>, entries: seq<Entry>, p: Ancestor, ghost earlier: seq<Ancestor>)
    returns (entries': seq<Entry>)
    requires UniqueReferences(refs) && Grouped(refs, byOutput)
    requires forall t :: t in refTemplates <==> exists q :: q in refs && q.referenceTemplateId == t
    requires IndexedByName(defaults, byName) && IsAfter(defaults, Usable(refs, versions), earlier, entries)
    ensures IsAfter(defaults, Usable(refs, versions), earlier + [p], entries')
  {
    entries' := entries;
    ghost var usable := Usable(refs, versions);
    AncestorBegins(defaults, usable, earlier, p, entries);
    if p.hasVersion {
      for k := 0 to |versions|
        invariant IsCurrent(defaults, usable, earlier, FromVersions(refs, versions[..k]), p, entries')
      {
        assert versions[..k + 1][..k] == versions[..k];
        FromVersionsUsable(refs, versions[..k]);
        entries' := ApplyVersion(refs, defaults, byName, byOutput, refTemplates, entries', p, versions[k],
                                 usable, earlier, FromVersions(refs, versions[..k]));
      }
      assert versions[..|versions|] == versions;
      FromVersionsUsable(refs, versions);
    }
    AncestorEnds(defaults, usable, earlier, p, entries');
  }

  /** The merged dependency configuration: project first, ancestors after it in order. */
  method MergeConfigs(project: seq<Config>, ancestors: seq<Ancestor>) returns (merged: map<string, Value>)
    ensures forall name :: (if name in merged then Some(merged[name]) else None) == LastInherited(AllConfigs(project, ancestors), name)
    ensures forall name, a, k :: LastAncestorConfig(ancestors, a, k, name) ==>
      name in merged && Some(merged[name]) == ancestors[a].dependencyConfig[k].value
    ensures forall name, k :: NoAncestorConfig(ancestors, name) && LastQualifying(project, k, name) ==>
      name in merged && Some(merged[name]) == project[k].value
    ensures forall name :: NoConfig(project, ancestors, name) <==> name !in merged
  {
    MergedByPosition(project, ancestors);
    merged := MergeInto(map[], [], project);
    assert [] + project == project;
    for k := 0 to |ancestors|
      invariant IsMerged(merged, AllConfigs(project, ancestors[..k]))
    {
      assert ancestors[..k + 1][..k] == ancestors[..k];
      merged := MergeInto(merged, AllConfigs(project, ancestors[..k]), ancestors[k].dependencyConfig);
    }
    assert ancestors[..|ancestors|] == ancestors;
  }

  lemma MergedByPosition(project: seq<Config>, ancestors: seq<Ancestor>)
    ensures forall name :: LastInherited(AllConfigs(project, ancestors), name) == None <==> NoConfig(project, ancestors, name)
    ensures forall name, a, k :: LastAncestorConfig(ancestors, a, k, name) ==>
      LastInherited(AllConfigs(project, ancestors), name) == ancestors[a].dependencyConfig[k].value
    ensures forall name, k :: NoAncestorConfig(ancestors, name) && LastQualifying(project, k, name) ==>
      LastInherited(AllConfigs(project, ancestors), name) == project[k].value
  {
    forall name
      ensures LastInherited(AllConfigs(project, ancestors), name) == None <==> NoConfig(project, ancestors, name)
      ensures forall a, k :: LastAncestorConfig(ancestors, a, k, name) ==>
        LastInherited(AllConfigs(project, ancestors), name) == ancestors[a].dependencyConfig[k].value
      ensures forall k :: NoAncestorConfig(ancestors, name) && LastQualifying(project, k, name) ==>
        LastInherited(AllConfigs(project, ancestors), name) == project[k].value
    {
      ConfigsByPosition(project, ancestors, name);
      InheritedByPosition(project, name);
    }
  }

  ghost predicate IsMerged(merged: map<string, Value>, configs: seq<Config>) {
    forall name :: (if name in merged then Some(merged[name]) else None) == LastInherited(configs, name)
  }

  method MergeInto(before: map<string, Value>, ghost seen: seq<Config>, configs: seq<Config>) returns (merged: map<string, Value>)
    requires IsMerged(before, seen)
    ensures IsMerged(merged, seen + configs)
  {
    merged := before;
    assert seen + [] == seen;
    for k := 0 to |configs|
      invariant IsMerged(merged, seen + configs[..k])
    {
      var c := configs[k];
      assert (seen + configs[..k + 1])[..|seen| + k] == seen + configs[..k];
      if c.inheritedByChildren && c.value.Some? {
        merged := merged[c.name := c.value.value];
      }
    }
    assert configs[..|configs|] == configs;
  }

  /** The indexed builder computes the plain rule for every variable. */
  method GetResourceVariableSchema(defaults: seq<Entry>, refs: seq<Reference>, ancestors: seq<Ancestor>, versions: seq<Version>,
                                   project: seq<Config>)
    returns (schema: seq<Entry>)
    requires UniqueReferences(refs)
    ensures |schema| == |defaults|
    ensures forall i :: 0 <= i < |defaults| ==> schema[i] == Rule(defaults, refs, versions, project, ancestors, i)
    ensures forall i :: 0 <= i < |defaults| ==> EntryByPosition(defaults, refs, versions, project, ancestors, i, schema[i])
  {
    var byName := IndexByName(defaults);
    var refTemplates := set r | r in refs :: r.referenceTemplateId;
    var byOutput := GroupByOutput(refs);
    schema := defaults;
    for k := 0 to |ancestors|
      invariant IsAfter(defaults, Usable(refs, versions), ancestors[..k], schema)
    {
      assert ancestors[..k + 1] == ancestors[..k] + [ancestors[k]];
      schema := ApplyAncestor(refs, defaults, byName, byOutput, refTemplates, versions, schema, ancestors[k], ancestors[..k]);
    }
    assert ancestors[..|ancestors|] == ancestors;
    var configs := MergeConfigs(project, ancestors);
    ghost var inherited := schema;
    for k := 0 to |schema|
      invariant |schema| == |defaults|
      invariant forall i :: k <= i < |schema| ==> schema[i] == inherited[i]
      invariant forall i :: 0 <= i < k ==> schema[i] == Rule(defaults, refs, versions, project, ancestors, i)
    {
      assert inherited[k].name == defaults[k].name;
      if schema[k].name in configs {
        schema := schema[k := schema[k].(value := Some(configs[schema[k].name]))];
      }
    }
    RulesByPosition(defaults, refs, versions, project, ancestors);
  }
}
