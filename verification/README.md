# Verified models of the InfraKitchen server core

InfraKitchen provisions infrastructure from templates: blueprints order and wire templates into
workflows, resources form a graph of dependents that can be destroyed in cascade, resource variables
are inherited and validated, edits wait for approval, and a scheduler and a logger run beside all of
it. This project models those algorithms in Dafny and proves what they are for. Run
`dafny verify dfyconfig.toml` to check everything.

| module | models |
|---|---|
| `Common`, `Graphs` | results, sequences without repetition; paths, cycles and longest paths in a finite relation |
| `BlueprintOrdering` | Kahn's algorithm with levels over the wiring graph, neighbour sets visited in any order |
| `BlueprintWiring` | the layered variable merge, and why the order within a level could not matter if each step saw every completed output |
| `BlueprintRunner` | the workflow task that launches steps from what it read when it was built, so that the order does matter |
| `BlueprintCompletion` | undisturbed executions: which outputs are lost in which order of completion, and when the order does not matter |
| `ResourceWalk` | the recursive query over resources and links, as rows that carry their path |
| `CascadeDestroy` | collapsing those rows to one positioned destroy step per resource |
| `EntityState`, `DestroyRunner` | the resource life cycle around destroy, with what workers ask of parents and children; workflow task and workers interleaving freely |
| `DestroySchedule`, `DestroyOutcomes` | the big steps of a cascade destroy, and how they decide what all its interleavings can come to |
| `DestroyConditions` | the same read off the resources before it starts |
| `DestroyMessages`, `DestroyTermination`, `DestroyRuns` | who calls the workflow task back, when a run has come to rest, how long it can go on, and the runs of a single resource |
| `ResourceTree` | the object tree built from the same rows, and the ids collected from it |
| `EntityLogger` | buffered logs and messages; appends interleaved with any number of saves |
| `SchedulerReconcile`, `SchedulerProtocol` | the job store brought in line with the database; concurrent reconciliations under a lock |
| `NamingPattern` | validation of naming patterns, conversion by successive replacement |
| `VariableSchema`, `VariableValidation` | inherited variable defaults; validation on create and patch |
| `StagedEdits` | patches merged while approval is pending, applied once |
| `KeyCodec` | snake_case and camelCase names, and recursive renaming of keys |

Conventions. A link row (`child_id` = x, `parent_id` = y) makes y depend on x, so it is the edge
(x, y), from a resource to its dependent. Python dictionaries are maps, plus a sequence of keys where insertion
order matters; Python sets are sets, iterated by picking any element. Objects whose methods update
fields are classes; a loop of the source is a loop here, proved against a function or a relation whose
own properties are then proved. Identifiers, JSON values and template execution are abstract.
A concurrent component is a state machine whose steps are the code sections between two `await`s.

## Where the code and its promises part

* A workflow task resolves wires from the steps as it read them when it was built
  (`server/src/application/workflows/task.py:44`, `:355-368`), but launches further steps after marking one done in the
  same task (`:230-231`). So a step does not receive the output of the step whose end launched it: in a chain of two
  templates the wire is always lost (`ChainLosesWire`), some order of completion loses a wire as soon as there is
  one (`SomeOrderLosesIff`; `WireLostInSomeOrderIff` and `WireLostInEveryOrderIff` say which), and the results are independent of the order exactly when every level but
  the last has a single template (`ConfluentIffSingleFile`).
* The documentation (`docs/core-concepts/workflows/overview.md:113-118`) gives a run-time override
  precedence over wired outputs; the run-time merge puts the wired outputs on top (`task.py:88-91`).
  `LaunchMeetsDocumentedPriority` gives the exact condition, `WireReplacesOverride` an instance.
* A cascade destroy does not look at the resources it plans, although its documentation promises an error for unfit ones
  (`server/src/application/resources/cascade_destroy_service.py:58-59`). A refused resource is handled again, and its
  step copies the status done. `WronglyDoneIff` decides by big steps from which worlds some run marks a step done whose
  resource stands, for all links and states. Read off the resources themselves, that is: without a reachable cycle,
  some planned resource is treacherous (refused for what it is, yet able to reach the status done) and everything
  before it removable (`WronglyDoneIffTreacherous`); with
  any links and resources at rest, there is a reachable cycle or a staged edit (`RestingGoesWrongIff`).
* A worker does nothing for a resource without a source code version (`server/src/application/resources/task.py:114-116`), so
  with the approval flow off an abstract resource without one is never destroyed. `CascadeClearsIffAcyclic` and
  `ClearsIffRemovable` say exactly when a cascade destroy can succeed, `AbstractNeedsApproval` is an instance.
* With the approval flow off, setting a resource to be destroyed sends no message that would have it executed
  (`server/src/application/workflows/task.py:557-561`). `UnapprovedStalls`: one execution of the workflow then destroys nothing.
* A step whose resource somebody else is having destroyed takes over the status in progress; that worker does not report to
  the workflow task, and steps in progress are not launched again. `WorkedElsewhereStrands`: the step stays in progress for good.
* An edit is staged with its nulls and with validated variables, but applied directly without nulls and as it came in
  (`server/src/application/resources/service.py:444-448`, `:611-618`), and a null for a relation erases a list staged before.
  `StagedIsDirect` gives the exact condition, `NullForgetsStagedList` and `NullClearsStagedField` instances.
* A substituted value with braces in it is expanded again or refused. `ConversionExact` gives the exact
  condition, `BracedValueExpandsAgain` an instance. Names of configuration entries are free text;
  `HarmlessNamesConvert` says which names with braces cannot matter, `BracedNameHarms` which do.
* With cyclic links a subtree can hang below a node object that is detached from the root, so collected
  ids miss reachable resources. `InheritingResources` says exactly which are collected, `CyclicRowsDetach` is an instance.
* Keys can collide when renamed, and then an entry is lost. `EntriesKeptIff` says exactly when, `IrregularKeysCollide`
  is an instance.

## Model

| member | source | states |
|---|---|---|
| BlueprintOrdering.BuildGraph | server/src/application/blueprints/service.py:272-282 | the adjacency sets are exactly the wiring restricted to the blueprint, and each in-degree is the number of distinct sources; repeated and external rules change nothing |
| BlueprintOrdering.Relax | server/src/application/blueprints/service.py:293-297 | in any iteration order of the neighbour set, each neighbour loses one and exactly those that reach zero are queued, each once |
| BlueprintOrdering.PlaceLevel | server/src/application/blueprints/service.py:289-299 | a round places its whole queue at one level, and the next queue is exactly the unplaced templates with no unplaced source |
| BlueprintOrdering.TopologicalSort | server/src/application/blueprints/service.py:266-303 | fails if and only if the wiring inside the blueprint is cyclic; otherwise lists every template once, in ascending order, each at the length of the longest wiring path that ends at it |
| BlueprintOrdering.EmptyFrontier | server/src/application/blueprints/service.py:300-301 | if the queue runs dry while templates are unplaced, there is a wiring cycle |
| BlueprintOrdering.ReadyLevel | server/src/application/blueprints/service.py:290-299 | a template whose sources are all placed below a level has its longest path exactly that long |
| BlueprintOrdering.LevelsDetermined | server/src/application/blueprints/service.py:272-303 | levels do not depend on iteration order, template order, rule order or repeated rules |
| BlueprintOrdering.RulesAscend | server/src/application/blueprints/service.py:267-270 | sources come before targets: each rule inside the blueprint leads to a strictly higher level and a later place |
| BlueprintOrdering.LevelsContiguous | server/src/application/blueprints/service.py:286-298 | every level below a used one is used too, by an earlier entry |
| BlueprintWiring.ResolveVariablesForStep | server/src/application/blueprints/service.py:306-334 | each variable gets its override, else the value of the last rule that delivers one, else the default: as a merge, and by the position of that rule |
| BlueprintWiring.DocumentedByPosition | server/src/application/blueprints/service.py:313-332 | the positions decide: one value is the override, else what the last rule whose source has put the output out brings, else the default |
| BlueprintWiring.CreatedWithoutWires | server/src/application/blueprints/service.py:189-195 | a step is created from its defaults and overrides alone, no output being known |
| BlueprintWiring.SourcesSettled | server/src/application/blueprints/service.py:305-334 | in any order that puts sources first, every source inside the blueprint has its final outputs when a step is resolved from all outputs completed before it |
| BlueprintWiring.SolutionUnique | server/src/application/blueprints/service.py:305-334 | the wiring equations (each template's outputs follow from all outputs) have one solution, which resolving in any such order finds |
| BlueprintWiring.RunConfluent | server/src/application/blueprints/service.py:305-334 | resolved from all outputs completed before, all orders that put sources first give the same outputs |
| BlueprintWiring.BlueprintRunDetermined | server/src/application/blueprints/service.py:305-334 | with override over last wire over default and every completed output given, any two level orders yield the same outputs, whatever executing a template means |
| BlueprintRunner.ResolveWiredVariables | server/src/application/workflows/task.py:342-405 | a name is wired to a value if and only if the last rule for it that brings something brings that value: its source is done and put the same output out, or is no step, and the first other done step wired to the same output of the same source holds the value |
| BlueprintRunner.LaunchMeetsDocumentedPriority | server/src/application/workflows/task.py:88-93 | a step launched from one view has the variables documented for a fuller one if and only if no wire replaces an override with something else and nothing the fuller view adds would show |
| BlueprintRunner.WireReplacesOverride | server/src/application/workflows/task.py:91 | an instance where the wired value replaces the run-time override |
| BlueprintRunner.TaskDoes | server/src/application/workflows/task.py:237-294 | one task marks done exactly the running steps it finds finished, and launches exactly the waiting ones with all lower steps done by then whose resource can be created |
| BlueprintRunner.RunInv | server/src/application/workflows/task.py:202-294 | in every run, with failures and retries, each launched step had every lower step read as done or marked done by its task, and its variables and outputs follow from what was read |
| BlueprintRunner.WireLostIff | server/src/application/workflows/task.py:355-368 | in every run a launched step misses the output of a step it is wired from exactly when its own launching task marked that step done |
| BlueprintRunner.ReceivesAllIff | server/src/application/workflows/task.py:355-378 | in every run a launched step receives everything it is wired to inside the blueprint if and only if none of it was put out by a step its own launching task marked done |
| BlueprintCompletion.LastFinisherUnseen | server/src/application/workflows/task.py:230-231 | undisturbed, a step is launched from everything below it except the step that completes last there |
| BlueprintCompletion.WireLostInSomeOrderIff | server/src/application/workflows/task.py:230-231 | wire by wire: a wire is lost in some order of completion if and only if its source is exactly one level below its target |
| BlueprintCompletion.WireLostInEveryOrderIff | server/src/application/workflows/task.py:230-231 | and in every order if and only if, moreover, the source is alone on its level |
| BlueprintCompletion.SomeOrderLosesIff | server/src/application/workflows/task.py:237-294 | some order of completion loses a wire if and only if any step is wired to another |
| BlueprintCompletion.ConfluentIffSingleFile | server/src/application/workflows/task.py:202-294 | all orders of completion give the same results, for all defaults, overrides and templates, if and only if every level but the last has a single step |
| BlueprintCompletion.SortedPlan | server/src/application/blueprints/service.py:183-205 | the topological sort provides the levels these results assume, and an order in which the steps can complete |
| BlueprintCompletion.ChainLosesWire | server/src/application/workflows/task.py:355-368 | two templates, one wired to the other: the workflow completes and the second never receives the output it is documented to |
| ResourceWalk.StepExact | server/src/application/resources/crud.py:223-237 | the recursive term turns the simple paths of one length into exactly those one longer |
| ResourceWalk.OneRowPerSimplePath | server/src/application/resources/crud.py:204-255 | the query terminates with exactly one row per simple path from the root, at the level of the path's length |
| ResourceWalk.AcyclicWalksSimple | server/src/application/resources/crud.py:237 | without reachable cycles the cycle guard excludes nothing: every walk is a row |
| CascadeDestroy.Deduplicate | server/src/application/resources/cascade_destroy_service.py:104-111 | one entry per resource met, with its greatest level and a template it was met with |
| CascadeDestroy.CollectDescendantsPostOrder | server/src/application/resources/cascade_destroy_service.py:84-117 | one step per resource met, in ascending position, the position being the greatest level of all minus that of the resource |
| CascadeDestroy.PlanCoversReachable | server/src/application/resources/cascade_destroy_service.py:99-115 | the plan covers exactly the resources reachable from the root |
| CascadeDestroy.ChildDeeper | server/src/application/resources/cascade_destroy_service.py:94-97 | on acyclic links a dependent is kept at a strictly greater depth than what it depends on |
| CascadeDestroy.ChildrenFirstIffAcyclic | server/src/application/resources/cascade_destroy_service.py:94-97 | every dependent is positioned strictly before what it depends on if and only if no cycle is reachable from the root |
| CascadeDestroy.SamePositionIndependent | server/src/application/resources/cascade_destroy_service.py:94-97 | on acyclic links two resources at one position are never ancestor and descendant |
| CascadeDestroy.RootOnTop | server/src/application/resources/cascade_destroy_service.py:113-116 | exactly the root has the highest position |
| CascadeDestroy.PositionsContiguous | server/src/application/resources/cascade_destroy_service.py:113-116 | on acyclic links every position from 0 to the root's is used |
| EntityState.ApprovalIsWork | server/src/core/utils/entity_state_handler.py:18-31 | an approval makes of an abstract resource what a worker makes of any other, and leaves another one ready to be executed |
| EntityState.EditsApproved | server/src/application/resources/service.py:715-727 | approving staged edits drops them, and has the resource executed again, or done if abstract, only if variables or version differ |
| EntityState.ApprovalAccepted | server/src/application/resources/service.py:685-737 | a new resource can be approved once no edits are staged, a provisioned one only if some are, one to be destroyed always |
| EntityState.ActionsAccepted | server/src/core/utils/entity_state_handler.py:34-92 | what can be executed, by status, and what can be destroyed, by state |
| DestroyRunner.DeadlockStands | server/src/application/resources/service.py:755-766 | resources that each have a dependent among themselves are never destroyed, in any run |
| DestroyRunner.NothingToLaunch | server/src/application/workflows/task.py:442-476 | a step that is done, in progress, or behind one that is not done is not launched |
| DestroyRunner.PlanClosed | server/src/application/resources/cascade_destroy_service.py:99-117 | the plan made from the query has one step per resource, in order, and with a resource everything that depends on it |
| DestroySchedule.MovesPersist | server/src/application/resources/task.py:231-245 | what has become possible for one resource, by the workflow task, by the workers' demands on parents and children and by the guard on dependents, stays possible while others proceed |
| DestroySchedule.RealizeSchedule | server/src/application/workflows/task.py:564-614 | every schedule of big steps, a worker finishing a resource or a step carried from waiting to done, is what some interleaving of task and workers comes to |
| DestroyOutcomes.Matched | server/src/application/workflows/task.py:410-614 | and every interleaving agrees with some schedule, resource by resource, until a step is lost whose resource stands and is done; then the world was endangered |
| DestroyOutcomes.NeverWronglyDone | server/src/application/workflows/task.py:564-614 | from a world that is not endangered no run marks a step done whose resource stands |
| DestroyOutcomes.SometimesWronglyDone | server/src/application/workflows/task.py:564-614 | from an endangered world some run does, with workers that start only when parents are ready or children passed, and finish only what has a version |
| DestroyOutcomes.WronglyDoneIff | server/src/application/workflows/task.py:410-614 | for every plan, all links and all states: some run marks a step done whose resource stands if and only if some schedule leads to a refusal after which the resource can still be done |
| DestroyOutcomes.ClearsIff | server/src/application/workflows/task.py:442-492 | some run destroys the whole plan if and only if some schedule does |
| DestroyConditions.LayeredIffAcyclic | server/src/application/resources/cascade_destroy_service.py:94-97 | in the plan made from the query all dependents come strictly first if and only if no cycle is reachable from the root |
| DestroyConditions.ClearsIffRemovable | server/src/application/resources/task.py:436-459 | without cycles, some run destroys the whole plan if and only if every planned resource is gone, accepted and able to end, or on its way with a version or an approval |
| DestroyConditions.CascadeClearsIffAcyclic | server/src/application/resources/cascade_destroy_service.py:84-117 | of resources that the destroy action accepts, some run destroys the whole plan if and only if no cycle is reachable from the root and each has a version, or is abstract with the approval flow on |
| DestroyConditions.ReadyInTime | server/src/application/resources/task.py:231-237 | a resource becomes ready while a dependent waits only if it is so at once, is worked on, or is queued and its own parents do: the least fixpoint over the links |
| DestroyConditions.WronglyDoneIffTreacherous | server/src/application/resources/service.py:741-768 | without cycles, some run marks a step done whose resource stands if and only if some planned resource is refused for what it is and yet can be done, its parents getting ready in time, and everything at lower positions is removable |
| DestroyConditions.CascadeNeverBlocked | server/src/application/resources/cascade_destroy_service.py:96-97 | without cycles, where nothing can go wrong, the destroy action never refuses a resource it can destroy and whose turn it is |
| DestroyConditions.RestingGoesWrongIff | server/src/application/resources/cascade_destroy_service.py:58-59 | for a plan made from the query and resources at rest, whatever the links, some run marks a step done whose resource stands if and only if a cycle is reachable from the root or edits are staged |
| DestroyConditions.AbstractNeedsApproval | server/src/application/resources/task.py:114-116 | one abstract resource in error without a version: some run destroys it if and only if the approval flow is on |
| DestroyConditions.StagedEditsGoWrong | server/src/application/resources/service.py:751-752 | one resource at rest without links goes wrong in some run if and only if edits are staged |
| DestroyConditions.WaitingParentHoldsUp | server/src/application/resources/task.py:446-452 | two linked resources that wait for their first approval: the parent is never ready, so no step is ever marked wrongly done |
| DestroyMessages.RunOrderly | server/src/application/workflows/task.py:313-340 | in every run driven by the messages that are sent, from any states, each step is done, in error, called, about to be handled, worked on for the workflow, blocked by a lower one, forgotten for want of an approval, or stranded |
| DestroyMessages.RunIsRun | server/src/application/workflows/task.py:410-614 | every such run is one of the free interleavings, so what holds for all of those holds for it |
| DestroyMessages.RestMeansFinished | server/src/application/workflows/task.py:410-614 | when no message waits and nobody works, all steps are done, or one is in error, or forgotten with the approval flow off, or stranded: following a resource that somebody else worked on, or that was shelved, before the cascade started |
| DestroyMessages.ApprovedRestIsDestroyed | server/src/application/workflows/task.py:442-492 | with the approval flow, where nothing can go wrong and nobody works at the start, a run that rests without an error has destroyed every planned resource |
| DestroyMessages.UnapprovedStalls | server/src/application/workflows/task.py:557-561 | without the approval flow no single execution of the workflow gets any resource further than being set to be destroyed |
| DestroyMessages.StagedEditsMarkedDone | server/src/application/resources/cascade_destroy_service.py:58-59 | one resource with staged edits: executing the workflow twice, with the messages that are sent, marks its step done and leaves it as it was |
| DestroyMessages.WorkedElsewhereStrands | server/src/application/workflows/task.py:465-473 | a resource that somebody else is having destroyed: its step stays in progress although the resource is destroyed, however often the workflow is executed |
| DestroyTermination.HandleDescends | server/src/application/workflows/task.py:493-614 | handling a step uses up more of what can still happen than the message it sends and the steps its end sets off |
| DestroyTermination.RunsAreBounded | server/src/application/workflows/task.py:410-492 | in every run the number of happenings with an effect is bounded by the resources, the steps, and the executions of the workflow and failures of workers |
| DestroyTermination.StillMeansRest | server/src/application/resources/task.py:400-403 | when nothing but an execution or a failure has an effect, no message waits, nothing is left to launch, and workers that are not done can only fail |
| DestroyRuns.ApprovedRunDestroys | server/src/application/workflows/task.py:493-614 | one resource, message by message: with the approval flow it waits, is approved, executed, worked on and destroyed, and its step done, from every state the destroy action accepts |
| DestroyRuns.FailedRunIsRetried | server/src/application/workflows/task.py:600-611 | when its worker fails the step is in error; executing the workflow again has the resource executed again, and destroyed |
| DestroyRuns.AbstractRunDestroys | server/src/core/utils/entity_state_handler.py:18-31 | an abstract resource is destroyed by its approval, without a worker or a version |
| DestroyRuns.SecondExecutionDestroys | server/src/application/workflows/task.py:557-561 | without the approval flow the first execution leaves the resource ready, and the second has it destroyed |
| ResourceTree.BuildMaps | server/src/application/resources/service.py:938-962 | one object per row; the node map holds the last object of each resource, the children map lists the objects by the resource they hang from |
| ResourceTree.ListedAscending | server/src/application/resources/service.py:958-961 | the children of a resource are listed in the order of their rows |
| ResourceTree.LastIndexIsLast | server/src/application/resources/service.py:951 | the object that stays in the node map is that of the last row of the resource |
| ResourceTree.ExtendChildren | server/src/application/resources/service.py:964-967 | exactly the last object of each resource receives its children, in row order, in any order of the children map |
| ResourceTree.GetTree | server/src/application/resources/service.py:937-971 | the heap of objects after both passes, and that the returned object is that of a row without a parent |
| ResourceTree.TreeHoldsReachable | server/src/application/resources/service.py:937-971 | on acyclic links the tree holds exactly the reachable resources although shared ones have several objects |
| ResourceTree.EveryObjectHangs | server/src/application/resources/service.py:964-967 | on acyclic links every object created is in the tree |
| ResourceTree.TreeIsCopyIffSinglePaths | server/src/application/resources/service.py:937-971 | on acyclic links the tree repeats the links at every object if and only if every reachable resource with dependents is reached by a single path |
| ResourceTree.SingleParentsCopied | server/src/application/resources/service.py:937-971 | when no resource has two parents, every object has exactly one child per dependent of its resource |
| ResourceTree.RootedDistinct | server/src/application/resources/service.py:949-967 | whatever the links, no object is met twice on the way down from the root |
| ResourceTree.CollectResourceIds | server/src/application/resources/service.py:1143-1148 | whatever the links, the recursion over the objects terminates and appends what the same recursion over row indices does |
| ResourceTree.CollectExact | server/src/application/resources/service.py:1143-1148 | collecting from an object adds exactly the resources below it, each once |
| ResourceTree.HoldsIff | server/src/application/resources/service.py:964-967 | for any rows, a resource is in the tree if and only if one of its rows leads to the root's by going up, again and again, from a row to the last row of the resource it is listed under |
| ResourceTree.InheritingResources | server/src/application/resources/service.py:1156-1160 | whatever the links, the collected ids are reachable, each once, and exactly those with a row that leads up to the root's; without reachable cycles they are all reachable ones |
| ResourceTree.CyclicRowsDetach | server/src/application/resources/service.py:964-967 | with a cycle, rows the query does return lead to a tree that misses a reachable resource |
| EntityLogger.Logger.AppendLog | server/src/core/custom_entity_log_controller.py:78-102 | appends the log and the message; empty data appends nothing |
| EntityLogger.Logger.AddLogHeader | server/src/core/custom_entity_log_controller.py:52-66 | appends a header log, even an empty one, and no message |
| EntityLogger.Logger.HandOff | server/src/core/custom_entity_log_controller.py:115-116 | hands the buffered logs over and leaves an empty buffer |
| EntityLogger.Logger.SendMessages | server/src/core/custom_entity_log_controller.py:121-124 | every message is sent, in order, and the list ends empty |
| EntityLogger.Logger.SaveLog | server/src/core/custom_entity_log_controller.py:111-119 | undisturbed, a save persists all logs and sends all messages in order, and leaves both buffers empty |
| EntityLogger.RunKeepsInv | server/src/core/custom_entity_log_controller.py:78-124 | in every interleaving of appends and saves only the lock holder is past the lock, and nothing is lost, duplicated or reordered |
| EntityLogger.NothingLostOrRepeated | server/src/core/custom_entity_log_controller.py:78-124 | in every interleaving persisted, in-flight and buffered logs are all logs in append order; sent messages and the unsent tail are all messages in order, each once |
| EntityLogger.HistoryIsAppended | server/src/core/custom_entity_log_controller.py:78-102 | the histories compared with are what the append events alone produce |
| EntityLogger.SaveIsComplete | server/src/core/custom_entity_log_controller.py:111-124 | when a save returns, all messages are sent, everything logged before the call is persisted, and the log buffer holds just what came after the hand-off |
| EntityLogger.SaveCanFinish | server/src/core/custom_entity_log_controller.py:111-124 | from every reachable point, whoever holds the lock can go on to its end, with every message sent and the lock free |
| EntityLogger.LockIsNeeded | server/src/core/custom_entity_log_controller.py:112 | a second saver let past the lock at a reachable point would send a message twice |
| SchedulerReconcile.IdsDisjoint | server/src/scheduler.py:32-33 | database ids, action ids and the polling job's id never coincide, and action ids are unambiguous |
| SchedulerReconcile.DetectionExactIffLabelled | server/src/scheduler.py:99-102 | change detection is exact for every database row of a job if and only if the job's trigger is built from its name |
| SchedulerReconcile.FirstStoreLabelled | server/src/scheduler.py:187-195 | the store with nothing but the polling job, or empty, is one the results apply to |
| SchedulerReconcile.Scheduler.UpsertCronJobs | server/src/scheduler.py:123-131 | every database job is registered as it is in the database, all other entries unchanged, and a store already so is not written to |
| SchedulerReconcile.Scheduler.RemoveStaleCronJobs | server/src/scheduler.py:133-141 | removes exactly the entries that are neither internal nor in the database |
| SchedulerReconcile.Scheduler.UpsertActions | server/src/scheduler.py:143-165 | every pending action is registered at its current run time, all other entries unchanged, and a store already so is not written to |
| SchedulerReconcile.Scheduler.RemoveStaleActions | server/src/scheduler.py:167-172 | removes exactly the action entries that are not pending any more |
| SchedulerReconcile.Scheduler.Reconcile | server/src/scheduler.py:105-172 | the store becomes exactly the database's cron jobs and pending actions, the polling job untouched; labels stay tied to triggers; a store already reconciled sees no add, replace, reschedule or remove |
| SchedulerReconcile.ReconciledMirrors | server/src/scheduler.py:121-172 | the reconciled store holds each cron job with current cron, type and script, each action at its current run time, and nothing else but the polling job |
| SchedulerReconcile.ReconciledIsStable | server/src/scheduler.py:108-109 | reconciling again with the same data wants no change |
| SchedulerProtocol.NextProper | server/src/scheduler.py:114-172 | every event keeps: one task past the lock, the store reflects the versions last applied, and nothing read is older than those |
| SchedulerProtocol.HistoryIsChanges | server/src/scheduler.py:115-119 | the current version of the database is the last one that a change has written, whatever else happens |
| SchedulerProtocol.RunNeverGoesBack | server/src/scheduler.py:35-37 | over every run of changes, firings and reconciliations, the versions applied to the store never go backwards |
| SchedulerProtocol.QuietRunConverges | server/src/scheduler.py:105-119 | once changes stop, the next reconciliation that starts makes the store mirror the database, and it stays so |
| SchedulerProtocol.StartConverges | server/src/scheduler.py:105-119 | the same from any first store and database, whatever has happened in between |
| SchedulerProtocol.ReconciliationGoesThrough | server/src/scheduler.py:114-172 | from every reachable world with the lock free a reconciliation can go through, and then the store mirrors the database |
| NamingPattern.ConvertField | server/src/application/resources/functions.py:601-637 | the guarded loops give what one unguarded replacement pass per binding gives, the field being refused when braces are left; a single placeholder gives the brace-free text it stands for, and is refused if nothing has its name |
| NamingPattern.BoundByPosition | server/src/application/resources/functions.py:613-627 | a name stands for the first variable of the name, else for output j of parent i, the first in the order of parents and positions, else for the first such configuration entry; it is bound to nothing if and only if none has the name |
| NamingPattern.IntendedByPosition | server/src/application/resources/functions.py:612-635 | what a conversion is meant to give: the characters and the texts the placeholders stand for, joined; nothing if and only if a brace is stray or a placeholder is bound to nothing |
| NamingPattern.GuardedBind | server/src/application/resources/functions.py:617-627 | skipping a pass because the name does not occur or no brace is left never changes the result |
| NamingPattern.AcceptedIff | server/src/application/resources/schema.py:27-43 | a pattern is accepted if and only if it has no braces, or as many of each kind, some placeholder, and an identifier in every placeholder |
| NamingPattern.IdentifierChars | server/src/application/resources/schema.py:24 | the characters of identifiers by their places in ASCII |
| NamingPattern.IdentifierIff | server/src/application/resources/schema.py:24 | an identifier is one or more of these characters, and perhaps a newline after them, which the dollar sign lets through |
| NamingPattern.GroupsFound | server/src/application/resources/functions.py:612 | the conversion looks up exactly the non-empty placeholders of any pattern |
| NamingPattern.AcceptedShape | server/src/application/resources/schema.py:27-43 | an accepted pattern has balanced braces and brace-free placeholders, and any stray brace leaves an opening brace that nothing closes |
| NamingPattern.PassesSubstitute | server/src/application/resources/functions.py:612-627 | with brace-free values, successive passes equal one simultaneous substitution in which the first binding of a name wins |
| NamingPattern.UnresolvableRefused | server/src/application/resources/functions.py:629-635 | an accepted pattern with an unbound placeholder or a stray brace is refused, whatever the values contain |
| NamingPattern.ConversionExact | server/src/application/resources/functions.py:601-637 | for every accepted pattern whose passes find no name with a brace, the conversion gives the simultaneous substitution, variables before outputs before configuration, or the due refusal, if and only if the pattern is unresolvable anyway or no value used contains a brace |
| NamingPattern.HarmlessIdle | server/src/application/resources/functions.py:617-627 | with brace-free values no pass finds a name unless its braces, read from inside a placeholder, close and open in turn |
| NamingPattern.HarmlessNamesConvert | server/src/application/resources/functions.py:601-637 | so the conversion is right for every accepted pattern, brace-free values and names that are free of braces or harmless |
| NamingPattern.ConvertedByPosition | server/src/application/resources/functions.py:601-637 | an accepted pattern whose placeholders stand for brace-free texts converts to those texts in place, for any harmless names |
| NamingPattern.BracedValueExpandsAgain | server/src/application/resources/functions.py:613-621 | an instance where a value that reads like a placeholder is expanded again |
| NamingPattern.BracedNameHarms | server/src/application/resources/functions.py:623-627 | a configuration name with braces whose placeholder is an accepted pattern resolves that pattern although its placeholders are bound to nothing |
| NamingPattern.BracedNameSpans | server/src/application/resources/functions.py:623-627 | such a name exists for any two placeholders next to each other |
| VariableSchema.GetResourceVariableSchema | server/src/application/resources/functions.py:267-344 | for every variable: the last inherited entry of the last ancestor that has one, else the last of the project, else the last ancestor's non-null referenced output, else the default; by ancestor and position |
| VariableSchema.PositionDecides | server/src/application/resources/functions.py:296-342 | the cases by position leave no entry open, and agree with the rule over merged configuration and offers |
| VariableSchema.MergeConfigs | server/src/application/resources/functions.py:194-214 | a name is merged with the last inheritable non-null entry of the last ancestor that has one, else with the project's last, and absent if and only if there is none |
| VariableSchema.KeyInjective | server/src/application/resources/functions.py:327 | name and template id can be told from the joined key, underscores in names notwithstanding |
| VariableSchema.OutputsMapExact | server/src/application/resources/functions.py:327-332 | a lookup for a reference finds the ancestor's output if and only if the reference is to the ancestor's template |
| VariableSchema.OfferStep | server/src/application/source_code_versions/model.py:134-142 | under the unique reference index, considering one more reference decides a variable exactly when that reference matches |
| VariableSchema.VersionOrderIrrelevant | server/src/application/resources/service.py:1040-1043 | the result depends on the set of ancestor versions only, not on the order a set is listed in |
| VariableValidation.Draft.ValidateOnCreate | server/src/application/resources/functions.py:413-486 | succeeds if and only if every entry that is not sensitive passes its tests, with one variable for each in order that holds the schema's value if restricted, else the given one, or the schema's for an optional null; else reports the error of the first entry that fails and leaves the variables alone |
| VariableValidation.Draft.ValidateOnPatch | server/src/application/resources/functions.py:489-583 | succeeds if and only if every entry that is not sensitive passes its tests, with one variable for each in order that holds the schema's value if restricted, the stored one if the patched one is the same, else the patched one; else reports the error of the first entry that fails; a patch without variables passes untouched |
| VariableValidation.PatchOneByTests | server/src/application/resources/functions.py:507-583 | each error of a patch with exactly the tests that pass before it: required, frozen, options, type, rules; and what success leaves |
| VariableValidation.CreateOneByTests | server/src/application/resources/functions.py:430-486 | the same for creation: required, options, uniqueness, type, rules |
| VariableValidation.SameIff | server/src/application/resources/functions.py:554 | values compare equal if and only if they agree at every depth once booleans and integers are written as floats |
| VariableValidation.CreatedNames | server/src/application/resources/functions.py:430-486 | the names after creation are exactly the non-sensitive schema names, in schema order |
| VariableValidation.CreateThenPatch | server/src/application/resources/functions.py:507-583 | patching with the variables that creation produced succeeds under the same schema and returns the same list |
| VariableValidation.PatchKeepsFrozen | server/src/application/resources/functions.py:546-570 | a successful patch keeps the stored value of a frozen variable, and was asked for an equal one |
| VariableValidation.FrozenForever | server/src/application/resources/functions.py:489-583 | over any run of successful patches under changing schemas, a variable that stays frozen stays present with its first value |
| StagedEdits.TempStates.SetResourceTempState | server/src/application/resource_temp_state/handler.py:23-33 | an edit is merged into the pending row of its resource, or starts one; other rows are untouched |
| StagedEdits.TempStates.DeleteByResourceId | server/src/application/resource_temp_state/handler.py:41-47 | drops the row of the resource, and reports whether there was one |
| StagedEdits.TempStates.Approve | server/src/application/resources/service.py:715-727 | the pending edits are applied once, relation by relation and field by field, and dropped; if applying fails they stay |
| StagedEdits.Apply | server/src/application/resources/crud.py:102-149 | fails if and only if a listed integration or secret is unknown as such or listed twice; otherwise each relation with a list holds exactly the known ones listed, the others stay, and each field that is an attribute takes its new value |
| StagedEdits.DirectRelation | server/src/application/resources/crud.py:107-147 | after any sequence of direct edits a relation is at the last list given, or where it was |
| StagedEdits.DirectField | server/src/application/resources/crud.py:103-105 | after any sequence of direct edits a plain field is at the last value applied, or as it was |
| StagedEdits.NullAppliedDirectly | server/src/application/resources/schema.py:224-229 | applied directly, a null clears the workspace or the project and leaves any other field as it was |
| StagedEdits.StagedIsDirect | server/src/application/resources/service.py:595-618 | staging edits and approving once equals applying each in order, if and only if no relation is set to null after a list that differs from what the resource has, and no field is last set to a null or to validated variables that differ from what direct application leaves |
| StagedEdits.PlainEditsStageSafely | server/src/application/resources/service.py:611-618 | edits without nulls that stand for a default, and that validation leaves alone, are always safe to stage |
| StagedEdits.NullForgetsStagedList | server/src/application/resources/service.py:611-618 | a list of integrations followed by null: lost when staged, kept when applied directly |
| StagedEdits.NullClearsStagedField | server/src/application/resources/service.py:444-448 | an edit with a null description: cleared when staged, kept when applied directly |
| KeyCodec.SplitEncode | server/src/infrakitchen_mcp/rest_tools.py:417-418 | splitting and joining capitalized parts equals one pass over the characters |
| KeyCodec.RoundTripIffRegular | server/src/core/database.py:308-317 | converting to camel case and back restores a name if and only if it has no capitals, each underscore stands between a lowercase letter or digit and a lowercase letter, and middle segments have two characters |
| KeyCodec.CamelInjective | server/src/infrakitchen_mcp/rest_tools.py:414-418 | distinct regular names stay distinct |
| KeyCodec.SameCamelIff | server/src/infrakitchen_mcp/rest_tools.py:414-418 | two names become the same if and only if they agree up to lost underscores: those not followed by a letter that they mark |
| KeyCodec.Camelize | server/src/infrakitchen_mcp/rest_tools.py:397-411 | the loop over a dictionary's items computes the recursive renaming |
| KeyCodec.RenamedByPosition | server/src/infrakitchen_mcp/rest_tools.py:397-411 | at every depth: lists item by item; a dictionary has each name once that some key becomes, with the value of the last such key, renamed in turn unless it is plain data |
| KeyCodec.FieldsRenamed | server/src/infrakitchen_mcp/rest_tools.py:403-411 | with regular keys each entry yields one renamed entry, in order |
| KeyCodec.CamelizeReversible | server/src/infrakitchen_mcp/rest_tools.py:397-411 | on documents with regular keys the renaming can be undone, so no entry is lost at any depth |
| KeyCodec.EntriesKeptIff | server/src/infrakitchen_mcp/rest_tools.py:397-411 | renaming a document never adds entries, and keeps them all if and only if no dictionary it renames has two keys that become the same |
| KeyCodec.IrregularKeysCollide | server/src/infrakitchen_mcp/rest_tools.py:403-411 | an instance where irregular keys collide and an entry is lost |

## Left out

- BlueprintRunner.RunInv: one worker handles one message at a time, as its lock has it (`server/src/core/base_worker.py:79`); several worker processes on one workflow, edits of a workflow in error, and messages that change no step to done are not modelled. A step whose resource could not be created is launched again by any later task, as in the code.
- NamingPattern.ConversionExact: says nothing about conversions in which a pass does find a name with braces, beyond `BracedNameHarms`; the result may then agree with what is meant by chance. Python's `str()` of a value is its given text, and one field is converted where the code loops over several.
- StagedEdits.StagedIsDirect: assumes that all integration and secret ids are found, since a direct edit with an unknown id raises at once. The `pop` of relation keys from the body, fields already assigned when an update raises, and requests refused before they are applied or staged are not modelled.
- VariableValidation.Draft.ValidateOnCreate: variables are values, so two schema entries of one name sharing an object, and the descriptions written to given objects before a failure, are not captured; validation rules are an arbitrary predicate and NaN is not a float here.
- VariableSchema.GetResourceVariableSchema: the schema fields that are copied unchanged (descriptions, options, rules, flags) are omitted from the entry.
- DestroyOutcomes.WronglyDoneIff: resources are not edited, rejected, recreated, executed or newly linked by users while the cascade runs, and permissions of the requester are not modelled. A worker's retries with delays are one attempt that may fail once it is not let; what happens inside a started worker is that it finishes, if there is a version, or fails.
- DestroyConditions.WronglyDoneIffTreacherous: for cyclic links the condition on the resources alone is given when all are at rest; for cyclic links and resources in motion it is the existence of a schedule, which by `MovesPersist` can be searched for step by step.
- DestroyMessages.RestMeansFinished: workers that others set to work during the cascade are left out. That messages suffice to go wrong is shown for an instance (`StagedEditsMarkedDone`), not for every endangered world.
- CascadeDestroy.CollectDescendantsPostOrder: rows may come in any order, so the query's ordering by level and id is not used; building workflow rows from the steps is plumbing.
- SchedulerReconcile.Scheduler.UpsertActions: an action's label is not updated when only its entity changes, as in the code. Cron parsing, misfires and invalid expressions are opaque.
- SchedulerProtocol.RunNeverGoesBack: each read sees the newest committed version; failed reads, which release the lock without writing, are not modelled.
- EntityLogger.SaveIsComplete: failure-free runs only; a failed commit or publish, and `save_if_more_than` (a conditional call of the modelled save), are left out.
- KeyCodec.RoundTripIffRegular: ASCII case mapping only.
- Required constants of blueprints, enabling and disabling, action lists, favourites and batches: finite tables or easy members.
- SQL filters and eager loading, GraphQL, HTTP, RabbitMQ, migrations, Casbin, git, the tofu client and the UI: plumbing over libraries.
