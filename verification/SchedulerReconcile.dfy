/**
 * Reconciling the scheduler's job store with the database: database cron jobs, pending
 * entity actions and the internal polling job share one store, told apart by their ids.
 */
module SchedulerReconcile {
  import opened Common

  /** The text of a UUID: 36 characters, hexadecimal digits and hyphens. */
  predicate UuidText(s: string) {
    |s| == 36 && forall i :: 0 <= i < |s| ==> '0' <= s[i] <= '9' || 'a' <= s[i] <= 'f' || s[i] == '-'
  }

  type Uuid = s: string | UuidText(s) witness seq(36, _ => '0')

  const POLL_JOB_ID := "poll_new_jobs"
  const ENTITY_ACTION_JOB_PREFIX := "entity_action:"

  predicate IsActionId(id: string) {
    ENTITY_ACTION_JOB_PREFIX <= id
  }

  function ActionJobId(id: Uuid): string {
    ENTITY_ACTION_JOB_PREFIX + id
  }

  /** The id of a database job is never taken for an internal one, and action ids are unambiguous. */
  lemma IdsDisjoint(id: Uuid, other: Uuid)
    ensures id != POLL_JOB_ID && !IsActionId(id)
    ensures IsActionId(ActionJobId(id)) && ActionJobId(id) != POLL_JOB_ID
    ensures ActionJobId(id) == ActionJobId(other) ==> id == other
  {
    assert ENTITY_ACTION_JOB_PREFIX[1] == 'n';
    assert id[1] != 'n';
    assert ActionJobId(id)[|ENTITY_ACTION_JOB_PREFIX|..] == id;
    assert ActionJobId(other)[|ENTITY_ACTION_JOB_PREFIX|..] == other;
    assert ActionJobId(id)[0] == 'e';
  }

  datatype JobType = SQL | BASH
  datatype Trigger = CronTrigger(expression: string) | DateTrigger(runDate: int) | IntervalTrigger(minutes: nat)

  /** The function a job runs, with its keyword arguments. */
  datatype Work =
    | RunJob(jobId: Uuid, jobType: JobType, jobScript: string)
    | RunEntityAction(actionId: Uuid)
    | ScheduleJobs

  datatype Job = Job(trigger: Trigger, work: Work, name: string)
  type Store = map<string, Job>

  datatype DbJob = DbJob(id: Uuid, jobType: JobType, script: string, cron: string)
  datatype Action = Action(id: Uuid, runAt: int, action: string, entity: string, entityId: string)

  /** What one reconciliation reads: all cron jobs and all pending scheduled actions. */
  datatype Snapshot = Snapshot(jobs: seq<DbJob>, actions: seq<Action>)

  predicate PrimaryKeys(db: Snapshot) {
    && (forall i, j :: 0 <= i < j < |db.jobs| ==> db.jobs[i].id != db.jobs[j].id)
    && (forall i, j :: 0 <= i < j < |db.actions| ==> db.actions[i].id != db.actions[j].id)
  }

  function CronJob(job: DbJob): Job {
    Job(CronTrigger(job.cron), RunJob(job.id, job.jobType, job.script), job.cron)
  }

  function ActionJob(action: Action): Job {
    Job(DateTrigger(action.runAt), RunEntityAction(action.id), action.action + ":" + action.entity + ":" + action.entityId)
  }

  /** Change detection looks at the label and the arguments, not at the trigger. */
  predicate JobChanged(existing: Job, job: DbJob) {
    || existing.name != job.cron
    || !existing.work.RunJob?
    || existing.work.jobType != job.jobType
    || existing.work.jobScript != job.script
  }

  /** For a registered job, detection is exact for every database row precisely if the trigger is the label's. */
  lemma DetectionExactIffLabelled(existing: Job)
    requires existing.work.RunJob?
    ensures (forall job: DbJob :: job.id == existing.work.jobId ==> (JobChanged(existing, job) <==> existing != CronJob(job)))
       <==> existing.trigger == CronTrigger(existing.name)
  {
    var same := DbJob(existing.work.jobId, existing.work.jobType, existing.work.jobScript, existing.name);
    assert !JobChanged(existing, same);
    assert existing == CronJob(same) <==> existing.trigger == CronTrigger(existing.name);
  }

  /** An entry is one of the three kinds, and a cron job's trigger is built from its name. */
  predicate Labelled(id: string, job: Job) {
    if id == POLL_JOB_ID then true
    else if IsActionId(id) then
      job.trigger.DateTrigger? && job.work.RunEntityAction? && id == ActionJobId(job.work.actionId)
    else
      job.work.RunJob? && id == job.work.jobId && job.trigger == CronTrigger(job.name)
  }

  predicate WellLabelled(store: Store) {
    forall id :: id in store ==> Labelled(id, store[id])
  }

  /** The store that reconciling starts with: the polling job, or nothing yet. */
  lemma FirstStoreLabelled(job: Job)
    ensures WellLabelled(map[]) && WellLabelled(map[POLL_JOB_ID := job])
  {
  }

  function At(store: Store, id: string): Option<Job> {
    if id in store then Some(store[id]) else None
  }

  function FindJob(jobs: seq<DbJob>, id: string): (job: Option<DbJob>)
    ensures job.Some? ==> job.value.id == id && job.value in jobs
    ensures job == None ==> forall j :: j in jobs ==> j.id != id
  {
    if jobs == [] then None
    else if jobs[|jobs| - 1].id == id then Some(jobs[|jobs| - 1])
    else FindJob(jobs[..|jobs| - 1], id)
  }

  function FindAction(actions: seq<Action>, id: string): (action: Option<Action>)
    ensures action.Some? ==> ActionJobId(action.value.id) == id && action.value in actions
    ensures action == None ==> forall a :: a in actions ==> ActionJobId(a.id) != id
  {
    if actions == [] then None
    else if ActionJobId(actions[|actions| - 1].id) == id then Some(actions[|actions| - 1])
    else FindAction(actions[..|actions| - 1], id)
  }

  /** A pending action keeps its registered job, moved to the current run time. */
  function Scheduled(existing: Option<Job>, action: Action): Job {
    if existing.Some? then existing.value.(trigger := DateTrigger(action.runAt)) else ActionJob(action)
  }

  /** What the store should hold under an id, given what it held before. */
  function Wanted(before: Store, db: Snapshot, id: string): Option<Job> {
    if id == POLL_JOB_ID then At(before, id)
    else if IsActionId(id) then
      match FindAction(db.actions, id)
      case None => None
      case Some(action) => Some(Scheduled(At(before, id), action))
    else
      match FindJob(db.jobs, id)
      case None => None
      case Some(job) => Some(CronJob(job))
  }

  /** The store a reconciliation leaves behind. */
  ghost predicate IsReconciled(before: Store, db: Snapshot, after: Store) {
    forall id :: At(after, id) == Wanted(before, db, id)
  }

  /** That store, as a value. */
  ghost function Reconciled(before: Store, db: Snapshot): Store {
    var ids := before.Keys + (set job | job in db.jobs :: job.id) + (set action | action in db.actions :: ActionJobId(action.id));
    map id | id in ids && Wanted(before, db, id).Some? :: Wanted(before, db, id).value
  }

  lemma ReconciledIs(before: Store, db: Snapshot)
    ensures IsReconciled(before, db, Reconciled(before, db))
  {
    var after := Reconciled(before, db);
    forall id
      ensures At(after, id) == Wanted(before, db, id)
    {
      if Wanted(before, db, id).Some? {
        if FindAction(db.actions, id).Some? {
          assert id == ActionJobId(FindAction(db.actions, id).value.id);
        }
      }
    }
  }

  /** In plain terms: the database's cron jobs and pending actions, and nothing else but the polling job. */
  ghost predicate Mirrors(store: Store, db: Snapshot) {
    && (forall job :: job in db.jobs ==> At(store, job.id) == Some(CronJob(job)))
    && (forall action :: action in db.actions ==>
          var entry := At(store, ActionJobId(action.id));
          entry.Some? && entry.value.trigger == DateTrigger(action.runAt) && entry.value.work == RunEntityAction(action.id))
    && forall id :: id in store ==>
         || id == POLL_JOB_ID
         || (exists job :: job in db.jobs && job.id == id)
         || (exists action :: action in db.actions && ActionJobId(action.id) == id)
  }

  lemma ReconciledMirrors(before: Store, db: Snapshot, after: Store)
    requires PrimaryKeys(db) && WellLabelled(before) && IsReconciled(before, db, after)
    ensures Mirrors(after, db)
    ensures At(after, POLL_JOB_ID) == At(before, POLL_JOB_ID)
  {
    forall job | job in db.jobs
      ensures At(after, job.id) == Some(CronJob(job))
    {
      var k :| 0 <= k < |db.jobs| && db.jobs[k] == job;
      JobStep(db.jobs, k);
      IdsDisjoint(job.id, job.id);
      assert At(after, job.id) == Wanted(before, db, job.id);
    }
    forall action | action in db.actions
      ensures var entry := At(after, ActionJobId(action.id));
              entry.Some? && entry.value.trigger == DateTrigger(action.runAt) && entry.value.work == RunEntityAction(action.id)
    {
      ActionMirrored(before, db, after, action);
    }
    forall id | id in after
      ensures || id == POLL_JOB_ID
              || (exists job :: job in db.jobs && job.id == id)
              || (exists action :: action in db.actions && ActionJobId(action.id) == id)
    {
      assert At(after, id) == Wanted(before, db, id);
    }
    assert At(after, POLL_JOB_ID) == Wanted(before, db, POLL_JOB_ID);
  }

  lemma ActionMirrored(before: Store, db: Snapshot, after: Store, action: Action)
    requires PrimaryKeys(db) && WellLabelled(before) && IsReconciled(before, db, after)
    requires action in db.actions
    ensures var entry := At(after, ActionJobId(action.id));
            entry.Some? && entry.value.trigger == DateTrigger(action.runAt) && entry.value.work == RunEntityAction(action.id)
  {
    var k :| 0 <= k < |db.actions| && db.actions[k] == action;
    var id := ActionJobId(action.id);
    ActionStep(db.actions, k);
    IdsDisjoint(action.id, action.id);
    assert At(after, id) == Wanted(before, db, id);
    if id in before {
      assert Labelled(id, before[id]);
      IdsDisjoint(before[id].work.actionId, action.id);
    }
  }

  /** Reconciling again with the same data finds nothing to change. */
  lemma ReconciledIsStable(before: Store, db: Snapshot, after: Store)
    requires IsReconciled(before, db, after)
    ensures IsReconciled(after, db, after)
  {
    forall id
      ensures At(after, id) == Wanted(after, db, id)
    {
      assert At(after, id) == Wanted(before, db, id);
    }
  }

  class Scheduler {
    var jobs: Store
    ghost var writes: nat  // calls that add, replace, reschedule or remove a job

    method AddJob(id: string, job: Job)
      modifies this
      ensures jobs == old(jobs)[id := job] && writes == old(writes) + 1
    {
      jobs := jobs[id := job];
      writes := writes + 1;
    }

    method RescheduleJob(id: string, trigger: Trigger)
      requires id in jobs
      modifies this
      ensures jobs == old(jobs)[id := old(jobs)[id].(trigger := trigger)] && writes == old(writes) + 1
    {
      jobs := jobs[id := jobs[id].(trigger := trigger)];
      writes := writes + 1;
    }

    method RemoveJob(id: string)
      modifies this
      ensures jobs == old(jobs) - {id} && writes == old(writes) + 1
    {
      jobs := jobs - {id};
      writes := writes + 1;
    }

    /** One iteration: add the job if it is new, replace it if its row has changed. */
    method UpsertCronJob(job: DbJob)
      requires job.id in jobs ==> Labelled(job.id, jobs[job.id])
      modifies this
      ensures jobs == old(jobs)[job.id := CronJob(job)]
      ensures old(At(jobs, job.id)) == Some(CronJob(job)) ==> writes == old(writes)
    {
      IdsDisjoint(job.id, job.id);
      if job.id !in jobs {
        AddJob(job.id, CronJob(job));
      } else if JobChanged(jobs[job.id], job) {
        AddJob(job.id, CronJob(job));
      } else {
        assert jobs == jobs[job.id := CronJob(job)];
      }
    }

    /** Add or update the jobs that are present in the database. */
    method UpsertCronJobs(db: Snapshot)
      requires PrimaryKeys(db) && WellLabelled(jobs)
      modifies this
      ensures IsUpserted(old(jobs), db.jobs, jobs)
      ensures IsUpserted(old(jobs), db.jobs, old(jobs)) ==> writes == old(writes)
    {
      ghost var before := jobs;
      ghost var stable := IsUpserted(before, db.jobs, before);
      for k := 0 to |db.jobs|
        invariant IsUpserted(before, db.jobs[..k], jobs)
        invariant stable ==> writes == old(writes) && jobs == before
      {
        JobStep(db.jobs, k);
        assert At(jobs, db.jobs[k].id) == WithCronJob(before, db.jobs[..k], db.jobs[k].id);
        ghost var earlier := jobs;
        if stable {
          assert At(before, db.jobs[k].id) == WithCronJob(before, db.jobs, db.jobs[k].id);
        }
        UpsertCronJob(db.jobs[k]);
        UpsertStep(before, db.jobs, k, earlier);
      }
      assert db.jobs[..|db.jobs|] == db.jobs;
    }

    /** Remove the jobs that were deleted from the database, leaving internal jobs alone. */
    method RemoveStaleCronJobs(db: Snapshot)
      modifies this
      ensures jobs == old(jobs) - StaleCrons(old(jobs), db.jobs)
      ensures (forall id :: id in old(jobs) ==> !StaleCron(db.jobs, id)) ==> writes == old(writes)
    {
      var pending := jobs.Keys;
      while pending != {}
        invariant pending <= old(jobs).Keys
        invariant jobs == old(jobs) - (StaleCrons(old(jobs), db.jobs) - pending)
        invariant (forall id :: id in old(jobs) ==> !StaleCron(db.jobs, id)) ==> writes == old(writes)
        decreases pending
      {
        var id :| id in pending;
        pending := pending - {id};
        if StaleCron(db.jobs, id) {
          RemoveJob(id);
        }
      }
    }

    /** One iteration: register the action if it is new, reschedule it if its run time has changed. */
    method UpsertAction(action: Action)
      requires ActionJobId(action.id) in jobs ==> Labelled(ActionJobId(action.id), jobs[ActionJobId(action.id)])
      modifies this
      ensures jobs == old(jobs)[ActionJobId(action.id) := Scheduled(old(At(jobs, ActionJobId(action.id))), action)]
      ensures old(At(jobs, ActionJobId(action.id))) == Some(Scheduled(old(At(jobs, ActionJobId(action.id))), action))
        ==> writes == old(writes)
    {
      var id := ActionJobId(action.id);
      IdsDisjoint(action.id, action.id);
      if id !in jobs {
        AddJob(id, ActionJob(action));
      } else if jobs[id].trigger.runDate != action.runAt {
        RescheduleJob(id, DateTrigger(action.runAt));
      } else {
        assert jobs == jobs[id := Scheduled(Some(jobs[id]), action)];
      }
    }

    /** Register the pending actions, and move those whose run time has changed. */
    method UpsertActions(db: Snapshot)
      requires PrimaryKeys(db) && WellLabelled(jobs)
      modifies this
      ensures IsScheduled(old(jobs), db.actions, jobs)
      ensures IsScheduled(old(jobs), db.actions, old(jobs)) ==> writes == old(writes)
    {
      ghost var before := jobs;
      ghost var stable := IsScheduled(before, db.actions, before);
      for k := 0 to |db.actions|
        invariant IsScheduled(before, db.actions[..k], jobs)
        invariant stable ==> writes == old(writes) && jobs == before
      {
        var id := ActionJobId(db.actions[k].id);
        ActionStep(db.actions, k);
        assert At(jobs, id) == WithAction(before, db.actions[..k], id);
        ghost var earlier := jobs;
        if stable {
          assert At(before, id) == WithAction(before, db.actions, id);
        }
        UpsertAction(db.actions[k]);
        ScheduleStep(before, db.actions, k, earlier);
      }
      assert db.actions[..|db.actions|] == db.actions;
    }

    /** Remove the action jobs that are no longer pending in the database. */
    method RemoveStaleActions(db: Snapshot)
      modifies this
      ensures jobs == old(jobs) - StaleActions(old(jobs), db.actions)
      ensures (forall id :: id in old(jobs) ==> !StaleAction(db.actions, id)) ==> writes == old(writes)
    {
      var pending := jobs.Keys;
      while pending != {}
        invariant pending <= old(jobs).Keys
        invariant jobs == old(jobs) - (StaleActions(old(jobs), db.actions) - pending)
        invariant (forall id :: id in old(jobs) ==> !StaleAction(db.actions, id)) ==> writes == old(writes)
        decreases pending
      {
        var id :| id in pending;
        pending := pending - {id};
        if StaleAction(db.actions, id) {
          RemoveJob(id);
        }
      }
    }

    /** One reconciliation; on a store that already mirrors the database it writes nothing. */
    method Reconcile(db: Snapshot)
      requires PrimaryKeys(db) && WellLabelled(jobs)
      modifies this
      ensures jobs == Reconciled(old(jobs), db)
      ensures WellLabelled(jobs) && Mirrors(jobs, db)
      ensures At(jobs, POLL_JOB_ID) == old(At(jobs, POLL_JOB_ID))
      ensures IsReconciled(old(jobs), db, old(jobs)) ==> writes == old(writes) && jobs == old(jobs)
    {
      ghost var before := jobs;
      UpsertCronJobs(db);
      ghost var upserted := jobs;
      RemoveStaleCronJobs(db);
      ghost var pruned := jobs;
      CronPhases(before, db, upserted, pruned);
      UpsertActions(db);
      ghost var scheduled := jobs;
      RemoveStaleActions(db);
      ActionPhases(before, db, pruned, scheduled, jobs);
      ReconciledMirrors(before, db, jobs);
      ReconciledIs(before, db);
      SameReconciled(before, db, jobs, Reconciled(before, db));
      if IsReconciled(before, db, before) {
        StableStore(before, db);
        SameStore(upserted, before);
        SameStore(pruned, before);
        SameStore(scheduled, before);
        SameStore(jobs, before);
      }
    }
  }

  /** A cron entry whose database row is gone. */
  predicate StaleCron(dbJobs: seq<DbJob>, id: string) {
    id != POLL_JOB_ID && !IsActionId(id) && FindJob(dbJobs, id) == None
  }

  predicate StaleAction(actions: seq<Action>, id: string) {
    IsActionId(id) && FindAction(actions, id) == None
  }

  ghost function StaleCrons(store: Store, dbJobs: seq<DbJob>): set<string> {
    set id | id in store && StaleCron(dbJobs, id)
  }

  ghost function StaleActions(store: Store, actions: seq<Action>): set<string> {
    set id | id in store && StaleAction(actions, id)
  }

  function WithCronJob(before: Store, dbJobs: seq<DbJob>, id: string): Option<Job> {
    match FindJob(dbJobs, id)
    case None => At(before, id)
    case Some(job) => Some(CronJob(job))
  }

  function WithAction(before: Store, actions: seq<Action>, id: string): Option<Job> {
    match FindAction(actions, id)
    case None => At(before, id)
    case Some(action) => Some(Scheduled(At(before, id), action))
  }

  ghost predicate CronsReconciled(before: Store, db: Snapshot, after: Store) {
    forall id :: At(after, id) == (if id == POLL_JOB_ID || IsActionId(id) then At(before, id) else Wanted(before, db, id))
  }

  ghost predicate IsUpserted(before: Store, dbJobs: seq<DbJob>, after: Store) {
    forall id :: At(after, id) == WithCronJob(before, dbJobs, id)
  }

  ghost predicate IsScheduled(before: Store, actions: seq<Action>, after: Store) {
    forall id :: At(after, id) == WithAction(before, actions, id)
  }

  lemma SameStore(a: Store, b: Store)
    requires forall id :: At(a, id) == At(b, id)
    ensures a == b
  {
    forall id
      ensures id in a <==> id in b
      ensures id in a ==> a[id] == b[id]
    {
      assert At(a, id) == At(b, id);
    }
  }

  lemma SameReconciled(before: Store, db: Snapshot, a: Store, b: Store)
    requires IsReconciled(before, db, a) && IsReconciled(before, db, b)
    ensures a == b
  {
    forall id
      ensures At(a, id) == At(b, id)
    {
      assert At(a, id) == Wanted(before, db, id);
    }
    SameStore(a, b);
  }

  /** Primary keys make the row of an id unique, seen from the front or from the whole list. */
  lemma JobStep(jobs: seq<DbJob>, k: nat)
    requires k < |jobs|
    requires forall i, j :: 0 <= i < j < |jobs| ==> jobs[i].id != jobs[j].id
    ensures FindJob(jobs, jobs[k].id) == Some(jobs[k])
    ensures FindJob(jobs[..k], jobs[k].id) == None
    ensures forall id :: FindJob(jobs[..k + 1], id) == if id == jobs[k].id then Some(jobs[k]) else FindJob(jobs[..k], id)
  {
    assert jobs[k] in jobs;
    assert jobs[..k + 1][..k] == jobs[..k];
  }

  lemma ActionStep(actions: seq<Action>, k: nat)
    requires k < |actions|
    requires forall i, j :: 0 <= i < j < |actions| ==> actions[i].id != actions[j].id
    ensures var key := ActionJobId(actions[k].id);
            && FindAction(actions, key) == Some(actions[k])
            && FindAction(actions[..k], key) == None
            && forall id :: FindAction(actions[..k + 1], id) == if id == key then Some(actions[k]) else FindAction(actions[..k], id)
  {
    assert actions[k] in actions;
    assert actions[..k + 1][..k] == actions[..k];
    FoundById(actions, actions[k].id);
    FoundById(actions[..k], actions[k].id);
  }

  /** Looking up an action's job finds an action with its id. */
  lemma FoundById(actions: seq<Action>, id: Uuid)
    ensures FindAction(actions, ActionJobId(id)).Some? ==> FindAction(actions, ActionJobId(id)).value.id == id
  {
    var found := FindAction(actions, ActionJobId(id));
    if found.Some? {
      IdsDisjoint(found.value.id, id);
    }
  }

  lemma UpsertStep(before: Store, dbJobs: seq<DbJob>, k: nat, earlier: Store)
    requires k < |dbJobs|
    requires forall i, j :: 0 <= i < j < |dbJobs| ==> dbJobs[i].id != dbJobs[j].id
    requires IsUpserted(before, dbJobs[..k], earlier)
    ensures IsUpserted(before, dbJobs[..k + 1], earlier[dbJobs[k].id := CronJob(dbJobs[k])])
  {
    JobStep(dbJobs, k);
    var after := earlier[dbJobs[k].id := CronJob(dbJobs[k])];
    forall id
      ensures At(after, id) == WithCronJob(before, dbJobs[..k + 1], id)
    {
      assert At(earlier, id) == WithCronJob(before, dbJobs[..k], id);
    }
  }

  lemma ScheduleStep(before: Store, actions: seq<Action>, k: nat, earlier: Store)
    requires k < |actions|
    requires forall i, j :: 0 <= i < j < |actions| ==> actions[i].id != actions[j].id
    requires IsScheduled(before, actions[..k], earlier)
    ensures var key := ActionJobId(actions[k].id);
            IsScheduled(before, actions[..k + 1], earlier[key := Scheduled(At(earlier, key), actions[k])])
  {
    ActionStep(actions, k);
    var key := ActionJobId(actions[k].id);
    assert At(earlier, key) == WithAction(before, actions[..k], key);
    var after := earlier[key := Scheduled(At(earlier, key), actions[k])];
    forall id
      ensures At(after, id) == WithAction(before, actions[..k + 1], id)
    {
      assert At(earlier, id) == WithAction(before, actions[..k], id);
    }
  }

  /** After the cron phases: database jobs exactly, everything internal untouched. */
  lemma CronPhases(before: Store, db: Snapshot, upserted: Store, pruned: Store)
    requires WellLabelled(before) && IsUpserted(before, db.jobs, upserted)
    requires pruned == upserted - StaleCrons(upserted, db.jobs)
    ensures WellLabelled(pruned) && CronsReconciled(before, db, pruned)
  {
    forall id
      ensures At(pruned, id) == if id == POLL_JOB_ID || IsActionId(id) then At(before, id) else Wanted(before, db, id)
      ensures id in pruned ==> Labelled(id, pruned[id])
    {
      assert At(upserted, id) == WithCronJob(before, db.jobs, id);
      assert At(pruned, id) == if StaleCron(db.jobs, id) then None else At(upserted, id);
      if FindJob(db.jobs, id).Some? {
        IdsDisjoint(FindJob(db.jobs, id).value.id, FindJob(db.jobs, id).value.id);
      }
    }
  }

  lemma ActionPhases(before: Store, db: Snapshot, pruned: Store, scheduled: Store, after: Store)
    requires WellLabelled(pruned) && IsScheduled(pruned, db.actions, scheduled)
    requires CronsReconciled(before, db, pruned)
    requires after == scheduled - StaleActions(scheduled, db.actions)
    ensures IsReconciled(before, db, after) && WellLabelled(after)
  {
    forall id
      ensures At(after, id) == Wanted(before, db, id)
      ensures id in after ==> Labelled(id, after[id])
    {
      assert At(scheduled, id) == WithAction(pruned, db.actions, id);
      assert At(pruned, id) == if id == POLL_JOB_ID || IsActionId(id) then At(before, id) else Wanted(before, db, id);
      assert At(after, id) == if StaleAction(db.actions, id) then None else At(scheduled, id);
      if FindAction(db.actions, id).Some? {
        IdsDisjoint(FindAction(db.actions, id).value.id, FindAction(db.actions, id).value.id);
      }
    }
  }

  /** In a store that needs no change, no phase finds anything to do. */
  lemma StableStore(store: Store, db: Snapshot)
    requires IsReconciled(store, db, store)
    ensures IsUpserted(store, db.jobs, store) && IsScheduled(store, db.actions, store)
    ensures forall id :: id in store ==> !StaleCron(db.jobs, id) && !StaleAction(db.actions, id)
  {
    forall id
      ensures At(store, id) == WithCronJob(store, db.jobs, id)
      ensures At(store, id) == WithAction(store, db.actions, id)
      ensures id in store ==> !StaleCron(db.jobs, id) && !StaleAction(db.actions, id)
    {
      assert At(store, id) == Wanted(store, db, id);
      if FindAction(db.actions, id).Some? {
        IdsDisjoint(FindAction(db.actions, id).value.id, FindAction(db.actions, id).value.id);
      }
      if FindJob(db.jobs, id).Some? {
        IdsDisjoint(FindJob(db.jobs, id).value.id, FindJob(db.jobs, id).value.id);
      }
    }
  }
}
