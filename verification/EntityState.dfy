/** The life cycle of a resource, as far as destroying it is concerned. */
module EntityState {
  import opened Common
  import opened Graphs

  datatype State = PROVISION | PROVISIONED | DESTROY | DESTROYED

  datatype Status =
    | PENDING | APPROVAL_PENDING | REJECTED | READY | QUEUED | IN_PROGRESS | DONE | ERROR
    | CANCELLED | UNKNOWN | ENABLED | DISABLED

  /**
   * The temporary state of a resource: whether edits are staged, and if so, whether approving them changes the
   * status, and whether the resource has a source code version afterwards.
   */
  datatype Edits = NoEdits | Staged(differ: bool, versioned: bool)

  /** versioned: a source code version is linked, without which no worker can do anything. */
  datatype Entity = Entity(state: State, status: Status, isAbstract: bool, versioned: bool, edits: Edits)

  datatype StateError =
    | AlreadyDestroying | WrongStatus | HangingUpdates | ChildrenNotDestroyed | WrongState

  predicate Gone(e: Entity) {
    e.state == DESTROYED && e.status == DONE
  }

  function DestroyEntity(e: Entity, approvalFlow: bool): Result<Entity, StateError> {
    if e.state == PROVISIONED || (e.status == ERROR && e.state == PROVISION)
    then Success(e.(state := DESTROY, status := if approvalFlow then APPROVAL_PENDING else READY))
    else Failure(WrongState)
  }

  function ApproveEntity(e: Entity): Result<Entity, StateError> {
    if e.isAbstract && (e.state == PROVISION || e.state == PROVISIONED)
    then Success(e.(status := DONE, state := PROVISIONED))
    else if e.isAbstract && e.state == DESTROY then Success(e.(status := DONE, state := DESTROYED))
    else if !e.isAbstract then Success(e.(status := READY))
    else Failure(WrongState)
  }

  /** An approval makes of an abstract resource what a worker makes of any other; another one has to be executed. */
  lemma ApprovalIsWork(e: Entity)
    ensures e.isAbstract && e.state != DESTROYED ==> ApproveEntity(e) == Success(MakeDone(e.(status := IN_PROGRESS)))
    ensures !e.isAbstract ==> ApproveEntity(e) == Success(e.(status := READY))
  {
  }

  /** The approve action, for a resource that waits for approval. */
  function ActionApprove(e: Entity): Result<Entity, StateError> {
    if e.state == PROVISION && e.edits == NoEdits then ApproveEntity(e)
    else if e.state == PROVISIONED && e.edits.Staged? then
      var updated := e.(versioned := e.edits.versioned, edits := NoEdits);
      if e.edits.differ then ApproveEntity(updated) else Success(updated)
    else if e.state == DESTROY then ApproveEntity(e)
    else Failure(WrongState)
  }

  /** Approving staged edits drops them; the resource has to be executed, or is done if abstract, only if they differ. */
  lemma EditsApproved(e: Entity)
    requires e.state == PROVISIONED && e.edits.Staged?
    ensures ActionApprove(e) == Success(Entity(
      PROVISIONED,
      if !e.edits.differ then e.status else if e.isAbstract then DONE else READY,
      e.isAbstract, e.edits.versioned, NoEdits))
  {
  }

  /** A new resource is approved once edits are out of the way; one to be destroyed whether there are any or not. */
  lemma ApprovalAccepted(e: Entity)
    ensures ActionApprove(e).Success? <==>
      match e.state
      case PROVISION => e.edits == NoEdits
      case PROVISIONED => e.edits != NoEdits
      case DESTROY => true
      case DESTROYED => false
  {
  }

  function ExecuteEntity(e: Entity): Result<Entity, StateError> {
    if || e.status == READY
       || (e.status == ERROR && e.state != DESTROYED)
       || (e.status == DONE && e.state == PROVISIONED)
    then Success(e.(status := QUEUED))
    else Failure(WrongState)
  }

  /** What can be executed, by its status, and destroyed, by its state. */
  lemma ActionsAccepted(e: Entity, approvalFlow: bool)
    ensures ExecuteEntity(e).Success? <==>
      match e.status
      case READY => true
      case ERROR => e.state != DESTROYED
      case DONE => e.state == PROVISIONED
      case _ => false
    ensures DestroyEntity(e, approvalFlow).Success? <==>
      match e.state
      case PROVISION => e.status == ERROR
      case PROVISIONED => true
      case DESTROY => false
      case DESTROYED => false
  {
  }

  function MakeInProgress(e: Entity): Entity {
    if e.status in {READY, ERROR, DONE, QUEUED} then e.(status := IN_PROGRESS) else e
  }

  function MakeDone(e: Entity): Entity {
    var done := if e.status == IN_PROGRESS then e.(status := DONE) else e;
    if done.state == DESTROY then done.(state := DESTROYED)
    else if done.state == PROVISION then done.(state := PROVISIONED)
    else done
  }

  function MakeFailed(e: Entity): Entity {
    if e.state == DESTROYED then e else e.(status := ERROR)
  }

  /** The guard on children: each must be destroyed and done. */
  ghost predicate ChildrenGone(links: Edges, entities: map<Node, Entity>, id: Node) {
    forall e :: e in links && e.0 == id && e.1 in entities ==> Gone(entities[e.1])
  }

  /** The destroy action, given whether the children are out of the way. */
  function Answer(e: Entity, childrenGone: bool, approvalFlow: bool): Result<Entity, StateError> {
    if e.state == DESTROY || e.state == DESTROYED then Failure(AlreadyDestroying)
    else if e.status !in {DONE, READY, ERROR} then Failure(WrongStatus)
    else if e.edits != NoEdits then Failure(HangingUpdates)
    else if !childrenGone then Failure(ChildrenNotDestroyed)
    else DestroyEntity(e, approvalFlow)
  }

  ghost function ActionDestroy(links: Edges, entities: map<Node, Entity>, id: Node, approvalFlow: bool): Result<Entity, StateError>
    requires id in entities
  {
    Answer(entities[id], ChildrenGone(links, entities, id), approvalFlow)
  }

  /** What a worker asks of the parents of a resource it is to provision. */
  predicate ParentReady(e: Entity) {
    e.state == PROVISIONED || e.status == DONE
  }

  /** What it asks of the children of a resource it is to destroy. */
  predicate Passed(e: Entity) {
    e.state == DESTROYED || e.status == DONE
  }

  ghost predicate ParentsReady(links: Edges, entities: map<Node, Entity>, id: Node) {
    forall e :: e in links && e.1 == id && e.0 in entities ==> ParentReady(entities[e.0])
  }

  ghost predicate ChildrenPassed(links: Edges, entities: map<Node, Entity>, id: Node) {
    forall e :: e in links && e.0 == id && e.1 in entities ==> Passed(entities[e.1])
  }

  /** Whether a worker may take up a queued resource. */
  ghost predicate WorkerMay(links: Edges, entities: map<Node, Entity>, id: Node)
    requires id in entities
  {
    match entities[id].state
    case PROVISION => ParentsReady(links, entities, id)
    case PROVISIONED => ParentsReady(links, entities, id)
    case DESTROY => ChildrenPassed(links, entities, id)
    case DESTROYED => false
  }
}
