/**
 * Polls and reload events reconciling concurrently with database changes. A task suspends
 * while waiting for the lock and at each of its two reads; the writes happen in one section.
 */
module SchedulerProtocol {
  import opened Common
  import opened SchedulerReconcile

  type Task = nat

  /** Where a call to schedule_jobs stands; reads are versions of the database. */
  datatype Progress =
    | Waiting
    | ReadingJobs
    | ReadingActions(jobsAt: nat)
    | Writing(jobsAt: nat, actionsAt: nat)

  datatype World = World(
    history: seq<Snapshot>,  // every version of the database, the last one current
    store: Store,
    holder: Option<Task>,
    tasks: map<Task, Progress>,
    jobsApplied: int,        // versions the store was last brought up to, -1 before the first time
    actionsApplied: int)

  datatype Event =
    | Change(db: Snapshot)
    | Fire(id: string)  // a date job runs once and leaves the store
    | Call(task: Task)
    | Acquire(task: Task)
    | ReadJobs(task: Task)
    | ReadActions(task: Task)
    | Write(task: Task)

  ghost predicate Proper(w: World) {
    Exclusive(w) && Reflecting(w) && AllAhead(w)
  }

  /** Only the holder of the lock is past it. */
  predicate Exclusive(w: World) {
    && (forall task :: task in w.tasks && w.tasks[task] != Waiting ==> w.holder == Some(task))
    && (w.holder.Some? ==> w.holder.value in w.tasks && w.tasks[w.holder.value] != Waiting)
  }

  /** The store is what the versions last applied to it say. */
  ghost predicate Reflecting(w: World) {
    && w.history != []
    && (forall v :: 0 <= v < |w.history| ==> PrimaryKeys(w.history[v]))
    && WellLabelled(w.store)
    && -1 <= w.jobsApplied < |w.history| && -1 <= w.actionsApplied < |w.history|
    && (w.jobsApplied >= 0 ==> ReflectsJobs(w.store, w.history[w.jobsApplied].jobs))
    && (w.actionsApplied >= 0 ==> ReflectsActions(w.store, w.history[w.actionsApplied].actions))
  }

  predicate AllAhead(w: World) {
    forall task :: task in w.tasks ==> Ahead(w, w.tasks[task])
  }

  /** The cron entries are exactly those of this version. */
  ghost predicate ReflectsJobs(store: Store, jobs: seq<DbJob>) {
    forall id :: id != POLL_JOB_ID && !IsActionId(id) ==>
      At(store, id) == match FindJob(jobs, id) case None => None case Some(job) => Some(CronJob(job))
  }

  /** The action entries are this version's, at its run times, less those that have fired since. */
  ghost predicate ReflectsActions(store: Store, actions: seq<Action>) {
    forall id :: id in store && IsActionId(id) ==>
      FindAction(actions, id).Some? && store[id].trigger == DateTrigger(FindAction(actions, id).value.runAt)
  }

  /** What a task has read is no older than what the store reflects. */
  predicate Ahead(w: World, p: Progress) {
    match p
    case Waiting => true
    case ReadingJobs => true
    case ReadingActions(jobsAt) => w.jobsApplied <= jobsAt < |w.history|
    case Writing(jobsAt, actionsAt) =>
      w.jobsApplied <= jobsAt <= actionsAt < |w.history| && w.actionsApplied <= actionsAt
  }

  predicate Is(w: World, task: Task, p: Progress) {
    task in w.tasks && w.tasks[task] == p
  }

  function Move(w: World, task: Task, p: Progress): World {
    w.(tasks := w.tasks[task := p])
  }

  /** What a task about to write was shown. */
  function Seen(w: World, p: Progress): Snapshot
    requires p.Writing? && p.jobsAt < |w.history| && p.actionsAt < |w.history|
  {
    Snapshot(w.history[p.jobsAt].jobs, w.history[p.actionsAt].actions)
  }

  predicate CanWrite(w: World, task: Task) {
    task in w.tasks && w.tasks[task].Writing? && w.tasks[task].jobsAt < |w.history| && w.tasks[task].actionsAt < |w.history|
  }

  ghost function Next(w: World, event: Event): World {
    match event
    case Change(db) => if PrimaryKeys(db) then w.(history := w.history + [db]) else w
    case Fire(id) => if id in w.store && w.store[id].trigger.DateTrigger? then w.(store := w.store - {id}) else w
    case Call(task) => if task in w.tasks then w else Move(w, task, Waiting)
    case Acquire(task) =>
      if Is(w, task, Waiting) && w.holder == None then Move(w.(holder := Some(task)), task, ReadingJobs) else w
    case ReadJobs(task) =>
      if Is(w, task, ReadingJobs) && w.history != [] then Move(w, task, ReadingActions(|w.history| - 1)) else w
    case ReadActions(task) =>
      if task in w.tasks && w.tasks[task].ReadingActions? && w.history != []
      then Move(w, task, Writing(w.tasks[task].jobsAt, |w.history| - 1))
      else w
    case Write(task) =>
      if CanWrite(w, task) then
        var p := w.tasks[task];
        w.(store := Reconciled(w.store, Seen(w, p)), holder := None, tasks := w.tasks - {task},
           jobsApplied := p.jobsAt, actionsApplied := p.actionsAt)
      else w
  }

  ghost function Run(w: World, events: seq<Event>): World {
    if events == [] then w else Next(Run(w, events[..|events| - 1]), events[|events| - 1])
  }

  /** The versions of the database that events write. */
  function Changes(events: seq<Event>): seq<Snapshot> {
    if events == [] then []
    else
      var last := events[|events| - 1];
      Changes(events[..|events| - 1]) + if last.Change? && PrimaryKeys(last.db) then [last.db] else []
  }

  /** The current version is the last one written, whatever else happens. */
  lemma {:induction false} HistoryIsChanges(w: World, events: seq<Event>)
    ensures Run(w, events).history == w.history + Changes(events)
  {
    if events != [] {
      HistoryIsChanges(w, events[..|events| - 1]);
    }
  }

  lemma ReconciledLabelled(before: Store, db: Snapshot)
    requires WellLabelled(before)
    ensures WellLabelled(Reconciled(before, db))
    ensures ReflectsJobs(Reconciled(before, db), db.jobs) && ReflectsActions(Reconciled(before, db), db.actions)
  {
    var after := Reconciled(before, db);
    ReconciledIs(before, db);
    assert forall id :: At(after, id) == Wanted(before, db, id);
    forall id | id in after
      ensures Labelled(id, after[id])
    {
      assert At(after, id) == Wanted(before, db, id);
      if id == POLL_JOB_ID {
      } else if IsActionId(id) {
        var action := FindAction(db.actions, id).value;
        if id in before {
          assert Labelled(id, before[id]);
        }
      } else {
        assert FindJob(db.jobs, id).value.id == id;
      }
    }
  }

  lemma FiredReflects(w: World, id: string)
    requires Proper(w)
    ensures w.jobsApplied >= 0 ==> ReflectsJobs(Next(w, Fire(id)).store, w.history[w.jobsApplied].jobs)
  {
    var after := Next(w, Fire(id)).store;
    if w.jobsApplied >= 0 && after != w.store {
      assert Labelled(id, w.store[id]);
      forall other | other != POLL_JOB_ID && !IsActionId(other)
        ensures At(after, other) == At(w.store, other)
      {
        if other in w.store {
          assert Labelled(other, w.store[other]);
        }
      }
    }
  }

  lemma NextReflecting(w: World, event: Event)
    requires Proper(w)
    ensures Reflecting(Next(w, event))
  {
    if event.Write? && CanWrite(w, event.task) {
      ReconciledLabelled(w.store, Seen(w, w.tasks[event.task]));
    }
    if event.Fire? {
      FiredReflects(w, event.id);
    }
  }

  lemma NextProper(w: World, event: Event)
    requires Proper(w)
    ensures Proper(Next(w, event))
    ensures w.jobsApplied <= Next(w, event).jobsApplied
    ensures w.actionsApplied <= Next(w, event).actionsApplied
  {
    NextReflecting(w, event);
    if event.Write? && CanWrite(w, event.task) {
      assert Ahead(w, w.tasks[event.task]);
    }
    forall task | task in Next(w, event).tasks
      ensures Ahead(Next(w, event), Next(w, event).tasks[task])
    {
      if task in w.tasks {
        assert Ahead(w, w.tasks[task]);
      }
    }
  }

  /** Over every run, the versions applied to the store never go backwards. */
  lemma {:induction false} RunNeverGoesBack(w: World, events: seq<Event>)
    requires Proper(w)
    ensures Proper(Run(w, events))
    ensures w.jobsApplied <= Run(w, events).jobsApplied && w.actionsApplied <= Run(w, events).actionsApplied
  {
    if events != [] {
      RunNeverGoesBack(w, events[..|events| - 1]);
      NextProper(Run(w, events[..|events| - 1]), events[|events| - 1]);
    }
  }

  function Current(w: World): Snapshot
    requires w.history != []
  {
    w.history[|w.history| - 1]
  }

  /** Nothing outside the reconcilers happens. */
  predicate Quiet(event: Event) {
    !event.Change? && !event.Fire?
  }

  /** No task still holds something older than the current version. */
  predicate UpToDate(w: World) {
    forall task :: task in w.tasks ==>
      match w.tasks[task]
      case Waiting => true
      case ReadingJobs => true
      case ReadingActions(jobsAt) => jobsAt == |w.history| - 1
      case Writing(jobsAt, actionsAt) => jobsAt == actionsAt == |w.history| - 1
  }

  lemma QuietStep(w: World, event: Event)
    requires Proper(w) && UpToDate(w) && Quiet(event)
    ensures UpToDate(Next(w, event)) && Next(w, event).history == w.history
    ensures Mirrors(w.store, Current(w)) || (event.Write? && CanWrite(w, event.task)) ==>
      Mirrors(Next(w, event).store, Current(w))
  {
    if event.Write? && CanWrite(w, event.task) {
      var db := Seen(w, w.tasks[event.task]);
      assert db == Current(w);
      ReconciledIs(w.store, db);
      ReconciledMirrors(w.store, db, Reconciled(w.store, db));
    }
  }

  /** Some reconciliation writes in the course of the run. */
  ghost predicate Completes(w: World, events: seq<Event>) {
    events != [] &&
    var n := |events| - 1;
    Completes(w, events[..n]) || (events[n].Write? && CanWrite(Run(w, events[..n]), events[n].task))
  }

  lemma {:induction false} QuietRun(w: World, events: seq<Event>)
    requires Proper(w) && UpToDate(w)
    requires forall i :: 0 <= i < |events| ==> Quiet(events[i])
    ensures Proper(Run(w, events)) && UpToDate(Run(w, events)) && Run(w, events).history == w.history
    ensures Completes(w, events) ==> Mirrors(Run(w, events).store, Current(w))
  {
    if events != [] {
      var before := Run(w, events[..|events| - 1]);
      QuietRun(w, events[..|events| - 1]);
      QuietStep(before, events[|events| - 1]);
      NextProper(before, events[|events| - 1]);
    }
  }

  /**
   * Once changes stop, the next reconciliation that starts makes the store mirror the database, and
   * it stays so: w is any reachable world in which no reconciliation is under way.
   */
  lemma QuietRunConverges(start: World, earlier: seq<Event>, events: seq<Event>)
    requires Proper(start)
    requires var w := Run(start, earlier); w.holder == None && Completes(w, events)
    requires forall i :: 0 <= i < |events| ==> Quiet(events[i])
    ensures var w := Run(start, earlier);
            && w.history != []
            && Mirrors(Run(w, events).store, Current(w))
  {
    RunNeverGoesBack(start, earlier);
    QuietRun(Run(start, earlier), events);
  }

  /** Everything starts with a well-labelled store, of which no version is known to be reflected. */
  function Start(db: Snapshot, store: Store): World {
    World([db], store, None, map[], -1, -1)
  }

  lemma StartProper(db: Snapshot, store: Store)
    requires PrimaryKeys(db) && WellLabelled(store)
    ensures Proper(Start(db, store))
  {
  }

  /** From any start, whatever has happened, the first reconciliation after the last change settles the store. */
  lemma StartConverges(db: Snapshot, store: Store, earlier: seq<Event>, events: seq<Event>)
    requires PrimaryKeys(db) && WellLabelled(store)
    requires var w := Run(Start(db, store), earlier); w.holder == None && Completes(w, events)
    requires forall i :: 0 <= i < |events| ==> Quiet(events[i])
    ensures var w := Run(Start(db, store), earlier);
            && w.history != []
            && Mirrors(Run(w, events).store, Current(w))
  {
    StartProper(db, store);
    QuietRunConverges(Start(db, store), earlier, events);
  }

  lemma RunSnoc(w: World, events: seq<Event>, event: Event)
    ensures Run(w, events + [event]) == Next(Run(w, events), event)
  {
    assert (events + [event])[..|events|] == events;
  }

  function Steps(task: Task): seq<Event> {
    [Call(task)] + [Acquire(task)] + [ReadJobs(task)] + [ReadActions(task)]
  }

  /** A task that finds the lock free gets to the point where it writes what is current. */
  lemma StepsLead(w: World, task: Task)
    requires w.holder == None && w.history != [] && task !in w.tasks
    ensures var n := |w.history| - 1;
            Run(w, Steps(task)) == w.(holder := Some(task), tasks := w.tasks[task := Writing(n, n)])
  {
    var n := |w.history| - 1;
    RunSnoc(w, [], Call(task));
    assert [] + [Call(task)] == [Call(task)];
    RunSnoc(w, [Call(task)], Acquire(task));
    RunSnoc(w, [Call(task)] + [Acquire(task)], ReadJobs(task));
    RunSnoc(w, [Call(task)] + [Acquire(task)] + [ReadJobs(task)], ReadActions(task));
    assert w.tasks[task := Waiting][task := ReadingJobs][task := ReadingActions(n)][task := Writing(n, n)] == w.tasks[task := Writing(n, n)];
  }

  /** From any reachable world with the lock free, a reconciliation can go through, and settles the store. */
  lemma ReconciliationGoesThrough(start: World, earlier: seq<Event>, task: Task) returns (events: seq<Event>)
    requires Proper(start)
    requires var w := Run(start, earlier); w.holder == None && task !in w.tasks
    ensures forall i :: 0 <= i < |events| ==> Quiet(events[i])
    ensures var w := Run(start, earlier);
            && w.history != [] && Run(w, events).holder == None && Run(w, events).tasks == w.tasks
            && Mirrors(Run(w, events).store, Current(w))
  {
    var w := Run(start, earlier);
    RunNeverGoesBack(start, earlier);
    events := Steps(task) + [Write(task)];
    StepsLead(w, task);
    RunSnoc(w, Steps(task), Write(task));
    assert events[..|events| - 1] == Steps(task);
    assert w.tasks[task := Writing(|w.history| - 1, |w.history| - 1)] - {task} == w.tasks;
    QuietRunConverges(start, earlier, events);
  }
}
