/**
 * Edits that wait for approval: patches are merged into one pending dictionary, which is
 * applied to the resource later. Compared with applying each patch as it comes.
 */
module StagedEdits {
  import opened Common

  type Id(==, !new)
  type Value(==, !new)

  datatype Relation = Integrations | Secrets | Parents | Children

  /** A value of a plain field; None is null. */
  type Field = Option<Value>

  type Fields = map<string, Field>

  /**
   * A dictionary of edits: plain fields by name, and for each relation key present either null or a list of
   * ids. The four relation keys are handled apart from the other fields, so they are kept apart here.
   */
  datatype Patch = Patch(fields: Fields, relations: map<Relation, Option<seq<Id>>>)

  datatype Resource = Resource(fields: Fields, related: map<Relation, set<Id>>)

  /**
   * A request to update a resource: the keys set in it, and the list that validation puts in place of the
   * variables if it runs.
   */
  datatype Edit = Edit(fields: Fields, relations: map<Relation, Option<seq<Id>>>, validated: Option<Value>)

  const VARIABLES: string := "variables"

  /** The fields whose default is not null, so that a null for them is not a default. */
  predicate Nullable(key: string) {
    key == "workspace_id" || key == "project_id"
  }

  /** What is applied directly: the request as it came in, without what equals a default. */
  function Body(edit: Edit): Patch {
    Patch(map key | key in edit.fields && (edit.fields[key].Some? || Nullable(key)) :: edit.fields[key],
          map relation | relation in edit.relations && edit.relations[relation].Some? :: edit.relations[relation])
  }

  /** What is staged: the request after validation, with its nulls. */
  function FullBody(edit: Edit): Patch {
    Patch(if edit.validated.Some? then edit.fields[VARIABLES := edit.validated] else edit.fields, edit.relations)
  }

  /** What the lookups can find, and the attributes a resource has. */
  datatype Database = Database(attributes: set<string>, known: map<Relation, set<Id>>)

  datatype UpdateError = IdsNotFound

  /** new_value_dict.update(updated_value) */
  function Merge(pending: Patch, patch: Patch): Patch {
    Patch(pending.fields + patch.fields, pending.relations + patch.relations)
  }

  /** The pending edits, one row per resource. */
  class TempStates {
    var rows: map<Id, Patch>

    method SetResourceTempState(resourceId: Id, value: Patch)
      modifies this
      ensures rows == old(rows)[resourceId := if resourceId in old(rows) then Merge(old(rows)[resourceId], value) else value]
    {
      if resourceId in rows {
        rows := rows[resourceId := Merge(rows[resourceId], value)];
      } else {
        rows := rows[resourceId := value];
      }
    }

    method DeleteByResourceId(resourceId: Id) returns (found: bool)
      modifies this
      ensures found == (resourceId in old(rows)) && rows == old(rows) - {resourceId}
    {
      found := resourceId in rows;
      rows := rows - {resourceId};
    }

    /** Approving: apply the pending dictionary once and drop the row. */
    method Approve(db: Database, resourceId: Id, resource: Resource) returns (r: Result<Resource, UpdateError>)
      requires resourceId in rows
      modifies this
      ensures r == Update(db, resource, old(rows)[resourceId])
      ensures UpdatedInParts(db, resource, old(rows)[resourceId], r)
      ensures rows == if r.Success? then old(rows) - {resourceId} else old(rows)
    {
      r := Apply(db, resource, rows[resourceId]);
      if r.Success? {
        var _ := DeleteByResourceId(resourceId);
      }
    }
  }

  function Found(db: Database, relation: Relation, ids: seq<Id>): set<Id> {
    set id | id in ids && relation in db.known && id in db.known[relation]
  }

  /** Integrations and secrets must all be found, each once; parents and children need not. */
  predicate Acceptable(db: Database, relation: Relation, ids: seq<Id>) {
    relation == Parents || relation == Children || |ids| == |Found(db, relation, ids)|
  }

  predicate AllAcceptable(db: Database, patch: Patch) {
    forall relation :: relation in patch.relations && patch.relations[relation].Some? ==>
      Acceptable(db, relation, patch.relations[relation].value)
  }

  /** What a patch makes of one relation: null and absent alike leave it alone. */
  function Related(db: Database, before: Resource, patch: Patch, relation: Relation): Option<set<Id>> {
    if relation in patch.relations && patch.relations[relation].Some?
    then Some(Found(db, relation, patch.relations[relation].value))
    else if relation in before.related then Some(before.related[relation]) else None
  }

  /** Only the keys that name an attribute are set. */
  function Attributes(db: Database, fields: Fields): Fields {
    map key | key in fields && key in db.attributes :: fields[key]
  }

  /** ResourceCRUD.update */
  function Update(db: Database, resource: Resource, patch: Patch): Result<Resource, UpdateError> {
    if !AllAcceptable(db, patch) then Failure(IdsNotFound)
    else Success(Resource(
      resource.fields + Attributes(db, patch.fields),
      map relation | relation in {Integrations, Secrets, Parents, Children} && Related(db, resource, patch, relation).Some?
        :: Related(db, resource, patch, relation).value))
  }

  // The same part by part.

  /** The ids a patch lists for a relation; a null lists none. */
  predicate Lists(patch: Patch, relation: Relation) {
    relation in patch.relations && patch.relations[relation].Some?
  }

  predicate Known(db: Database, relation: Relation, id: Id) {
    relation in db.known && id in db.known[relation]
  }

  /** A listed integration or secret is unknown as such, or listed twice. */
  ghost predicate Unacceptable(db: Database, patch: Patch, relation: Relation) {
    && Lists(patch, relation) && (relation == Integrations || relation == Secrets)
    && var ids := patch.relations[relation].value;
       || (exists i :: 0 <= i < |ids| && !Known(db, relation, ids[i]))
       || exists i, j :: 0 <= i < j < |ids| && ids[i] == ids[j]
  }

  /** After: a relation holds the known ones of the listed ids, or what it held before; likewise each plain field. */
  ghost predicate Holds(db: Database, resource: Resource, patch: Patch, after: Resource) {
    && (forall relation: Relation :: Lists(patch, relation) ==>
          && relation in after.related
          && forall id :: id in after.related[relation] <==> id in patch.relations[relation].value && Known(db, relation, id))
    && (forall relation: Relation :: !Lists(patch, relation) ==> At(after.related, relation) == At(resource.related, relation))
    && forall key :: At(after.fields, key) ==
         if key in patch.fields && key in db.attributes then Some(patch.fields[key]) else At(resource.fields, key)
  }

  ghost predicate UpdatedInParts(db: Database, resource: Resource, patch: Patch, r: Result<Resource, UpdateError>) {
    && (r.Failure? <==> exists relation :: Unacceptable(db, patch, relation))
    && (r.Success? ==> Holds(db, resource, patch, r.value))
  }

  lemma FoundOfAll(db: Database, relation: Relation, ids: seq<Id>)
    ensures |Found(db, relation, ids)| == |ids| <==>
      (forall i :: 0 <= i < |ids| ==> Known(db, relation, ids[i])) && Distinct(ids)
  {
    var found := Found(db, relation, ids);
    ElementsCardinality(ids);
    SubsetCardinality(found, Elements(ids));
    if |found| == |ids| {
      assert forall i :: 0 <= i < |ids| ==> ids[i] in Elements(ids);
    }
    if forall i :: 0 <= i < |ids| ==> Known(db, relation, ids[i]) {
      assert found == Elements(ids);
    }
  }

  lemma AcceptableInParts(db: Database, patch: Patch, relation: Relation)
    ensures Unacceptable(db, patch, relation) <==> Lists(patch, relation) && !Acceptable(db, relation, patch.relations[relation].value)
  {
    if Lists(patch, relation) {
      FoundOfAll(db, relation, patch.relations[relation].value);
    }
  }

  lemma UpdateInParts(db: Database, resource: Resource, patch: Patch)
    ensures UpdatedInParts(db, resource, patch, Update(db, resource, patch))
  {
    forall relation
      ensures Unacceptable(db, patch, relation) <==> Lists(patch, relation) && !Acceptable(db, relation, patch.relations[relation].value)
    {
      AcceptableInParts(db, patch, relation);
    }
    if AllAcceptable(db, patch) {
      var after := Update(db, resource, patch).value;
      forall relation
        ensures At(after.related, relation) == Related(db, resource, patch, relation)
      {
        FourRelations(relation);
      }
    }
  }

  function AfterRelation(db: Database, related: map<Relation, set<Id>>, patch: Patch, relation: Relation): map<Relation, set<Id>> {
    if relation in patch.relations && patch.relations[relation].Some?
    then related[relation := Found(db, relation, patch.relations[relation].value)] else related
  }

  /** One relation of the update: an empty list clears it, a non-empty one is looked up. */
  method ApplyRelation(db: Database, related: map<Relation, set<Id>>, patch: Patch, relation: Relation)
    returns (ok: bool, related': map<Relation, set<Id>>)
    ensures ok <==> (relation in patch.relations && patch.relations[relation].Some? ==>
                       Acceptable(db, relation, patch.relations[relation].value))
    ensures ok ==> related' == AfterRelation(db, related, patch, relation)
  {
    ok, related' := true, related;
    if relation in patch.relations && patch.relations[relation].Some? {
      var ids := patch.relations[relation].value;
      if ids == [] {
        related' := related[relation := {}];
        assert Found(db, relation, ids) == {};
      } else {
        var found := Found(db, relation, ids);
        if (relation == Integrations || relation == Secrets) && |ids| != |found| {
          return false, related;
        }
        related' := related[relation := found];
      }
    }
  }

  method Apply(db: Database, resource: Resource, patch: Patch) returns (r: Result<Resource, UpdateError>)
    ensures r == Update(db, resource, patch)
    ensures UpdatedInParts(db, resource, patch, r)
  {
    UpdateInParts(db, resource, patch);
    var fields := resource.fields + Attributes(db, patch.fields);
    var ok, related := ApplyRelation(db, resource.related, patch, Integrations);
    if ok {
      ok, related := ApplyRelation(db, related, patch, Secrets);
    }
    if ok {
      ok, related := ApplyRelation(db, related, patch, Parents);
    }
    if ok {
      ok, related := ApplyRelation(db, related, patch, Children);
    }
    if !ok {
      return Failure(IdsNotFound);
    }
    RelationsInTurn(db, resource, patch);
    return Success(Resource(fields, related));
  }

  lemma FourRelations(relation: Relation)
    ensures relation in {Integrations, Secrets, Parents, Children}
  {
    match relation {
      case Integrations =>
      case Secrets =>
      case Parents =>
      case Children =>
    }
  }

  lemma RelationsInTurn(db: Database, resource: Resource, patch: Patch)
    requires AllAcceptable(db, patch)
    ensures Update(db, resource, patch).value.related ==
      AfterRelation(db, AfterRelation(db, AfterRelation(db, AfterRelation(db, resource.related,
        patch, Integrations), patch, Secrets), patch, Parents), patch, Children)
  {
    var related := Update(db, resource, patch).value.related;
    var expected := AfterRelation(db, AfterRelation(db, AfterRelation(db, AfterRelation(db, resource.related,
        patch, Integrations), patch, Secrets), patch, Parents), patch, Children);
    forall relation: Relation
      ensures relation in related <==> relation in expected
      ensures relation in related ==> related[relation] == expected[relation]
    {
      FourRelations(relation);
    }
  }

  const NothingPending: Patch := Patch(map[], map[])

  /** What merging a sequence of dictionaries gives. */
  function Pending(patches: seq<Patch>): Patch {
    if patches == [] then NothingPending else Merge(Pending(patches[..|patches| - 1]), patches[|patches| - 1])
  }

  /** Each dictionary applied as it comes. */
  function InTurn(db: Database, resource: Resource, patches: seq<Patch>): Result<Resource, UpdateError> {
    if patches == [] then Update(db, resource, NothingPending)
    else
      match InTurn(db, resource, patches[..|patches| - 1])
      case Failure(e) => Failure(e)
      case Success(before) => Update(db, before, patches[|patches| - 1])
  }

  function Bodies(edits: seq<Edit>): seq<Patch> {
    seq(|edits|, i requires 0 <= i < |edits| => Body(edits[i]))
  }

  function FullBodies(edits: seq<Edit>): seq<Patch> {
    seq(|edits|, i requires 0 <= i < |edits| => FullBody(edits[i]))
  }

  /** Every edit applied directly. */
  function Direct(db: Database, resource: Resource, edits: seq<Edit>): Result<Resource, UpdateError> {
    InTurn(db, resource, Bodies(edits))
  }

  /** Every edit staged, and all approved at once. */
  function Staged(db: Database, resource: Resource, edits: seq<Edit>): Result<Resource, UpdateError> {
    Update(db, resource, Pending(FullBodies(edits)))
  }

  predicate AllEditsAcceptable(db: Database, edits: seq<Edit>) {
    forall i :: 0 <= i < |edits| ==> AllAcceptable(db, FullBody(edits[i]))
  }

  lemma PendingAcceptable(db: Database, patches: seq<Patch>)
    requires forall i :: 0 <= i < |patches| ==> AllAcceptable(db, patches[i])
    ensures AllAcceptable(db, Pending(patches))
  {
  }

  function At<K, V>(m: map<K, V>, key: K): Option<V> {
    if key in m then Some(m[key]) else None
  }

  function Or<T>(first: Option<T>, second: Option<T>): Option<T> {
    if first.Some? then first else second
  }

  /** The last list given for a relation. */
  function LastList(edits: seq<Edit>, relation: Relation): Option<seq<Id>> {
    if edits == [] then None
    else
      var last := edits[|edits| - 1];
      if relation in last.relations && last.relations[relation].Some? then last.relations[relation]
      else LastList(edits[..|edits| - 1], relation)
  }

  /** What the last edit that mentions a relation gives. */
  function LastMention(edits: seq<Edit>, relation: Relation): Option<Option<seq<Id>>> {
    if edits == [] then None
    else
      var last := edits[|edits| - 1];
      if relation in last.relations then Some(last.relations[relation]) else LastMention(edits[..|edits| - 1], relation)
  }

  /** Some edit gave a list, and the last edit that mentions the relation gives null. */
  predicate NulledAfterList(edits: seq<Edit>, relation: Relation) {
    LastMention(edits, relation) == Some(None) && LastList(edits, relation).Some?
  }

  /** The last value applied directly for a field. */
  function LastBody(edits: seq<Edit>, key: string): Option<Field> {
    if edits == [] then None
    else Or(At(Body(edits[|edits| - 1]).fields, key), LastBody(edits[..|edits| - 1], key))
  }

  function LastFull(edits: seq<Edit>, key: string): Option<Field> {
    if edits == [] then None
    else Or(At(FullBody(edits[|edits| - 1]).fields, key), LastFull(edits[..|edits| - 1], key))
  }

  /**
   * What the edit stages for this field is not what it applies directly: a null that equals the default, or
   * variables that validation has replaced.
   */
  predicate Otherwise(edit: Edit, key: string) {
    || (key in edit.fields && edit.fields[key] == None && !Nullable(key) && (key == VARIABLES ==> edit.validated == None))
    || (key == VARIABLES && edit.validated.Some? && (key in edit.fields ==> edit.fields[key] != edit.validated))
  }

  /** The last edit that stages something for this field stages something else than it applies. */
  predicate StagedOtherwise(edits: seq<Edit>, key: string) {
    edits != [] &&
    var last := edits[|edits| - 1];
    if key in FullBody(last).fields then Otherwise(last, key) else StagedOtherwise(edits[..|edits| - 1], key)
  }

  lemma Snoc(edits: seq<Edit>)
    requires edits != []
    ensures var n := |edits| - 1;
            && Bodies(edits) == Bodies(edits[..n]) + [Body(edits[n])]
            && FullBodies(edits) == FullBodies(edits[..n]) + [FullBody(edits[n])]
  {
  }

  lemma InTurnSnoc(db: Database, resource: Resource, patches: seq<Patch>, patch: Patch)
    requires InTurn(db, resource, patches).Success?
    ensures InTurn(db, resource, patches + [patch]) == Update(db, InTurn(db, resource, patches).value, patch)
  {
    assert (patches + [patch])[..|patches|] == patches;
  }

  lemma PendingSnoc(patches: seq<Patch>, patch: Patch)
    ensures Pending(patches + [patch]) == Merge(Pending(patches), patch)
  {
    assert (patches + [patch])[..|patches|] == patches;
  }

  /** Applied one by one, a relation ends at the last list given, or where it was. */
  lemma {:induction false} DirectRelation(db: Database, resource: Resource, edits: seq<Edit>, relation: Relation)
    requires AllEditsAcceptable(db, edits)
    ensures Direct(db, resource, edits).Success?
    ensures At(Direct(db, resource, edits).value.related, relation) ==
      match LastList(edits, relation)
      case Some(ids) => Some(Found(db, relation, ids))
      case None => At(resource.related, relation)
  {
    if edits == [] {
      UpdatedRelation(db, resource, NothingPending, relation);
    } else {
      var n := |edits| - 1;
      DirectRelation(db, resource, edits[..n], relation);
      Snoc(edits);
      InTurnSnoc(db, resource, Bodies(edits[..n]), Body(edits[n]));
      assert AllAcceptable(db, FullBody(edits[n]));
      UpdatedRelation(db, Direct(db, resource, edits[..n]).value, Body(edits[n]), relation);
    }
  }

  /** One dictionary applied: a list is taken over, anything else leaves the relation alone. */
  lemma UpdatedRelation(db: Database, resource: Resource, patch: Patch, relation: Relation)
    requires AllAcceptable(db, patch)
    ensures At(Update(db, resource, patch).value.related, relation) == Related(db, resource, patch, relation)
  {
    FourRelations(relation);
  }

  /** And a field at the last value applied. */
  lemma {:induction false} DirectField(db: Database, resource: Resource, edits: seq<Edit>, key: string)
    requires AllEditsAcceptable(db, edits)
    ensures Direct(db, resource, edits).Success?
    ensures At(Direct(db, resource, edits).value.fields, key) ==
      if key in db.attributes then Or(LastBody(edits, key), At(resource.fields, key)) else At(resource.fields, key)
  {
    if edits != [] {
      var n := |edits| - 1;
      DirectField(db, resource, edits[..n], key);
      Snoc(edits);
      InTurnSnoc(db, resource, Bodies(edits[..n]), Body(edits[n]));
      assert AllAcceptable(db, FullBody(edits[n]));
    }
  }

  lemma {:induction false} PendingIs(edits: seq<Edit>, key: string, relation: Relation)
    ensures At(Pending(FullBodies(edits)).fields, key) == LastFull(edits, key)
    ensures At(Pending(FullBodies(edits)).relations, relation) == LastMention(edits, relation)
  {
    if edits != [] {
      var n := |edits| - 1;
      PendingIs(edits[..n], key, relation);
      Snoc(edits);
      PendingSnoc(FullBodies(edits[..n]), FullBody(edits[n]));
    }
  }

  lemma StagedSucceeds(db: Database, resource: Resource, edits: seq<Edit>)
    requires AllEditsAcceptable(db, edits)
    ensures Staged(db, resource, edits).Success?
  {
    PendingAcceptable(db, FullBodies(edits));
  }

  lemma MentionOrList(edits: seq<Edit>, relation: Relation)
    ensures LastMention(edits, relation) == None ==> LastList(edits, relation) == None
    ensures LastMention(edits, relation).Some? && LastMention(edits, relation).value.Some? ==>
      LastMention(edits, relation).value == LastList(edits, relation)
  {
  }

  lemma OtherwiseIff(edit: Edit, key: string)
    requires key in FullBody(edit).fields
    ensures Otherwise(edit, key) <==> At(Body(edit).fields, key) != At(FullBody(edit).fields, key)
  {
  }

  lemma SameUnlessOtherwise(edits: seq<Edit>, key: string)
    ensures LastFull(edits, key) == None ==> LastBody(edits, key) == None
    ensures !StagedOtherwise(edits, key) ==> LastFull(edits, key) == LastBody(edits, key)
    ensures StagedOtherwise(edits, key) ==> LastFull(edits, key).Some?
  {
    if edits != [] {
      var last := edits[|edits| - 1];
      SameUnlessOtherwise(edits[..|edits| - 1], key);
      if key in FullBody(last).fields {
        OtherwiseIff(last, key);
      }
    }
  }

  /** The relation comes out the same either way. */
  predicate RelationAgrees(db: Database, resource: Resource, edits: seq<Edit>, relation: Relation) {
    NulledAfterList(edits, relation) ==>
      At(resource.related, relation) == Some(Found(db, relation, LastList(edits, relation).value))
  }

  /** So does the field: if the last edit stages something else, it is what is applied or found anyway. */
  predicate FieldAgrees(db: Database, resource: Resource, edits: seq<Edit>, key: string) {
    StagedOtherwise(edits, key) && key in db.attributes ==>
      LastFull(edits, key) == Or(LastBody(edits, key), At(resource.fields, key))
  }

  lemma RelationExact(db: Database, resource: Resource, edits: seq<Edit>, relation: Relation)
    requires AllEditsAcceptable(db, edits)
    ensures Staged(db, resource, edits).Success? && Direct(db, resource, edits).Success?
    ensures At(Staged(db, resource, edits).value.related, relation) == At(Direct(db, resource, edits).value.related, relation)
       <==> RelationAgrees(db, resource, edits, relation)
  {
    FourRelations(relation);
    StagedSucceeds(db, resource, edits);
    PendingIs(edits, "", relation);
    MentionOrList(edits, relation);
    DirectRelation(db, resource, edits, relation);
  }

  lemma FieldExact(db: Database, resource: Resource, edits: seq<Edit>, key: string)
    requires AllEditsAcceptable(db, edits)
    ensures Staged(db, resource, edits).Success? && Direct(db, resource, edits).Success?
    ensures At(Staged(db, resource, edits).value.fields, key) == At(Direct(db, resource, edits).value.fields, key)
       <==> FieldAgrees(db, resource, edits, key)
  {
    StagedSucceeds(db, resource, edits);
    PendingIs(edits, key, Integrations);
    SameUnlessOtherwise(edits, key);
    DirectField(db, resource, edits, key);
  }

  lemma SameMap<K, V>(a: map<K, V>, b: map<K, V>)
    requires forall key :: At(a, key) == At(b, key)
    ensures a == b
  {
    forall key
      ensures key in a <==> key in b
      ensures key in a ==> a[key] == b[key]
    {
      assert At(a, key) == At(b, key);
    }
  }

  /**
   * Staging edits and approving once gives what applying each edit in order gives, exactly when no relation is
   * set to null after a list that differs from what the resource has, and no field is last set to a null or to
   * validated variables that differ from what direct application leaves.
   */
  lemma StagedIsDirect(db: Database, resource: Resource, edits: seq<Edit>)
    requires AllEditsAcceptable(db, edits)
    ensures Staged(db, resource, edits) == Direct(db, resource, edits) <==>
      && (forall relation :: RelationAgrees(db, resource, edits, relation))
      && (forall key :: FieldAgrees(db, resource, edits, key))
  {
    RelationExact(db, resource, edits, Integrations);
    var staged, direct := Staged(db, resource, edits).value, Direct(db, resource, edits).value;
    forall relation
      ensures At(staged.related, relation) == At(direct.related, relation) <==> RelationAgrees(db, resource, edits, relation)
    {
      RelationExact(db, resource, edits, relation);
    }
    forall key
      ensures At(staged.fields, key) == At(direct.fields, key) <==> FieldAgrees(db, resource, edits, key)
    {
      FieldExact(db, resource, edits, key);
    }
    if (forall relation :: RelationAgrees(db, resource, edits, relation)) && forall key :: FieldAgrees(db, resource, edits, key) {
      SameMap(staged.related, direct.related);
      SameMap(staged.fields, direct.fields);
    }
  }

  /** The request sets nothing to null that has null for its default, and validation changes nothing. */
  ghost predicate Plain(edit: Edit) {
    && (forall relation :: relation in edit.relations ==> edit.relations[relation].Some?)
    && forall key :: !Otherwise(edit, key)
  }

  lemma PlainEdits(edits: seq<Edit>, key: string, relation: Relation)
    requires forall i :: 0 <= i < |edits| ==> Plain(edits[i])
    ensures !StagedOtherwise(edits, key) && !NulledAfterList(edits, relation)
  {
    if edits != [] {
      var n := |edits| - 1;
      assert Plain(edits[n]);
      PlainEdits(edits[..n], key, relation);
    }
  }

  /** Such edits are always safe to stage. */
  lemma PlainEditsStageSafely(db: Database, resource: Resource, edits: seq<Edit>)
    requires AllEditsAcceptable(db, edits) && forall i :: 0 <= i < |edits| ==> Plain(edits[i])
    ensures Staged(db, resource, edits) == Direct(db, resource, edits)
  {
    forall relation
      ensures RelationAgrees(db, resource, edits, relation)
    {
      PlainEdits(edits, "", relation);
    }
    forall key
      ensures FieldAgrees(db, resource, edits, key)
    {
      PlainEdits(edits, key, Integrations);
    }
    StagedIsDirect(db, resource, edits);
  }

  /** A list of integrations, then null for them: applied directly the list stays, staged it is forgotten. */
  lemma NullForgetsStagedList(db: Database, id: Id, name: Value)
    requires Integrations in db.known && id in db.known[Integrations] && "name" in db.attributes
    ensures var edits := [Edit(map[], map[Integrations := Some([id])], None),
                          Edit(map["name" := Some(name)], map[Integrations := None], None)];
            var staged, direct := Staged(db, Resource(map[], map[]), edits), Direct(db, Resource(map[], map[]), edits);
            && staged.Success? && At(staged.value.related, Integrations) == None
            && direct.Success? && At(direct.value.related, Integrations) == Some({id})
  {
    var first, second := Edit(map[], map[Integrations := Some([id])], None),
                         Edit(map["name" := Some(name)], map[Integrations := None], None);
    var edits := [first, second];
    assert Found(db, Integrations, [id]) == {id};
    assert AllEditsAcceptable(db, edits);
    assert edits[..1] == [first] && edits[..1][..0] == [];
    assert LastList(edits[..1], Integrations) == Some([id]);
    assert LastMention(edits, Integrations) == Some(None);
    StagedSucceeds(db, Resource(map[], map[]), edits);
    PendingIs(edits, "", Integrations);
    DirectRelation(db, Resource(map[], map[]), edits, Integrations);
  }

  /** Applied directly, a null clears a workspace or project, and leaves any other field as it was. */
  lemma NullAppliedDirectly(db: Database, before: Resource, key: string)
    requires key in db.attributes
    ensures var direct := Direct(db, before, [Edit(map[key := None], map[], None)]);
            && direct.Success?
            && At(direct.value.fields, key) == if key in {"workspace_id", "project_id"} then Some(None) else At(before.fields, key)
  {
    var edits := [Edit(map[key := None], map[], None)];
    assert edits[..0] == [];
    assert LastBody(edits[..0], key) == None;
    StagedSucceeds(db, before, edits);
    DirectField(db, before, edits, key);
  }

  /** One edit with a null: applied directly the field keeps its value, staged it loses it. */
  lemma NullClearsStagedField(db: Database, name: Value, description: Value)
    requires "name" in db.attributes && "description" in db.attributes
    ensures var edits := [Edit(map["name" := Some(name), "description" := None], map[], None)];
            var before := Resource(map["description" := Some(description)], map[]);
            var staged, direct := Staged(db, before, edits), Direct(db, before, edits);
            && staged.Success? && At(staged.value.fields, "description") == Some(None)
            && direct.Success? && At(direct.value.fields, "description") == Some(Some(description))
  {
    var edit := Edit(map["name" := Some(name), "description" := None], map[], None);
    var edits, before := [edit], Resource(map["description" := Some(description)], map[]);
    assert edits[..0] == [];
    assert LastBody(edits[..0], "description") == None && LastFull(edits[..0], "description") == None;
    StagedSucceeds(db, before, edits);
    PendingIs(edits, "description", Integrations);
    DirectField(db, before, edits, "description");
  }
}
