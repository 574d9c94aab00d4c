/**
 * The cron job service: a per-job status machine over NEW, START, STOP and
 * FAILED, the scheduler's registered triggers on this node, the name lock
 * guarding create and rename, the lock-guarded startup sweep and the
 * execution decision (active window, then job type).
 */
module CronJobs {
  import opened Base
  import opened Text
  import opened Records
  import opened Coordination

  datatype JobError =
    | NotFound
    | Unauthorized
    | NameTaken
    | InvalidProjectId
    | StopBeforeUpdate
    | CreateFailed
    | SchedulerFailure
    | SchedulerRejected
    | RemoveFailed

  /** What the scheduler's addJob does: registers, or throws one of its two exceptions. */
  datatype AddOutcome = Added | SchedulerError | ServerError

  /** What the mapper's update of the edited row does. */
  datatype WriteOutcome = Written | NotWritten | WriteThrew

  /** The fields a creation request carries. */
  datatype JobInfo = JobInfo(
    projectId: int,
    name: string,
    jobType: string,
    cronExpression: string,
    startDate: int,
    endDate: int)

  /** The fields an update request carries. */
  datatype JobUpdate = JobUpdate(
    id: int,
    projectId: int,
    name: string,
    jobType: string,
    cronExpression: string,
    startDate: int,
    endDate: int)

  /** What a worker does with a manual execution. */
  datatype Dispatch =
    | EmailRun(jobId: int)
    | WeChatWorkRun(jobId: int)
    | EmptyTypeLogged
    | NoRun
    | OutsideWindow

  /** Time-to-live, in seconds, of the lock that guards a job during the startup sweep. */
  const StartupLockTtl: nat := 300

  /** The startup sweep's lock key: `CRONJOB_<id>_<projectId>`. */
  function StartupLockName(id: int, projectId: int): string {
    "CRONJOB" + "_" + IntToString(id) + "_" + IntToString(projectId)
  }

  function StartupKey(job: CronJob): LockKey {
    RawKey(StartupLockName(job.id, job.projectId))
  }

  /** Jobs with different ids (or projects) never compete for the same startup lock. */
  lemma StartupLockNameInjective(id1: int, p1: int, id2: int, p2: int)
    requires StartupLockName(id1, p1) == StartupLockName(id2, p2)
    ensures id1 == id2 && p1 == p2
  {
    var a, b := IntToString(id1), IntToString(p1);
    var c, d := IntToString(id2), IntToString(p2);
    assert StartupLockName(id1, p1)[8..] == a + "_" + b;
    assert StartupLockName(id2, p2)[8..] == c + "_" + d;
    SplitAtSeparator(a, b, c, d, '_');
    IntToStringInjective(id1, id2);
    IntToStringInjective(p1, p2);
  }

  function NewJob(id: int, info: JobInfo): CronJob {
    CronJob(id, info.projectId, info.name, info.jobType, info.cronExpression,
            info.startDate, info.endDate, New, None)
  }

  /** The stored job after the update request's fields are copied in. */
  function Edited(job: CronJob, upd: JobUpdate, now: int): CronJob {
    job.(name := upd.name, jobType := upd.jobType, cronExpression := upd.cronExpression,
         startDate := upd.startDate, endDate := upd.endDate, updateTime := Some(now))
  }

  /**
   * The worker's decision for a manual execution at time `now`: nothing runs
   * outside [startDate, endDate] (both ends included); inside it the trimmed
   * job type selects the email or the WeChat Work service.
   */
  function Decide(job: CronJob, now: int): (d: Dispatch)
    ensures d != OutsideWindow <==> job.startDate <= now <= job.endDate
    ensures d.EmailRun? <==> job.startDate <= now <= job.endDate && Trim(job.jobType) == "email"
    ensures d.WeChatWorkRun? <==> job.startDate <= now <= job.endDate && Trim(job.jobType) == "weChatWork"
    ensures d == EmptyTypeLogged <==> job.startDate <= now <= job.endDate && Trim(job.jobType) == ""
    ensures (d.EmailRun? || d.WeChatWorkRun?) ==> d.jobId == job.id
  {
    if !(job.startDate <= now && now <= job.endDate) then OutsideWindow
    else
      var t := Trim(job.jobType);
      if t == "" then EmptyTypeLogged
      else if t == "email" then EmailRun(job.id)
      else if t == "weChatWork" then WeChatWorkRun(job.id)
      else NoRun
  }

  /** Blanks around the stored job type do not change what runs. */
  lemma DecideIgnoresPadding(job: CronJob, p: string, q: string, now: int)
    requires AllBlank(p) && AllBlank(q)
    ensures Decide(job.(jobType := p + job.jobType + q), now) == Decide(job, now)
  {
    TrimIgnoresPadding(p, job.jobType, q);
  }

  /** Both ends of the active window are inside it. */
  lemma WindowIsInclusive(job: CronJob)
    requires job.startDate <= job.endDate
    ensures Decide(job, job.startDate) != OutsideWindow
    ensures Decide(job, job.endDate) != OutsideWindow
    ensures Decide(job, job.endDate + 1) == OutsideWindow
  {
  }

  /** The startup sweep takes a job when it is started and its lock is free. */
  predicate SweepAcquires(job: CronJob, held: map<LockKey, nat>) {
    job.status == Start && StartupKey(job) !in held
  }

  /** A job after the startup sweep: only a scheduler error on an acquired job changes it. */
  function AfterSweep(job: CronJob, held: map<LockKey, nat>, add: int -> AddOutcome): CronJob {
    if SweepAcquires(job, held) && add(job.id) == SchedulerError then job.(status := Failed) else job
  }

  /** The ids the mapper reports as started. */
  function StartedIds(jobs: map<int, CronJob>): set<int> {
    set k | k in jobs && jobs[k].status == Start
  }

  /** The started jobs with an id below `bound`: those a sweep in id order has passed. */
  function StartedBelow(jobs: map<int, CronJob>, bound: int): set<int> {
    set k | k in jobs && jobs[k].status == Start && k < bound
  }

  lemma StartedBelowStep(jobs: map<int, CronJob>, i: int)
    ensures StartedBelow(jobs, i + 1) ==
              if i in jobs && jobs[i].status == Start then StartedBelow(jobs, i) + {i} else StartedBelow(jobs, i)
  {
  }

  /**
   * `held` is the lock table `held0` after the sweep has gone through the jobs
   * in `ids`: the locks held before are untouched, the startup lock of every
   * job the sweep acquired is held with its time-to-live, and nothing else
   * was added.
   */
  ghost predicate SweptLocks(held: map<LockKey, nat>, jobs: map<int, CronJob>, held0: map<LockKey, nat>, ids: set<int>) {
    && (forall key :: key in held0 ==> key in held && held[key] == held0[key])
    && (forall k :: k in ids && k in jobs && SweepAcquires(jobs[k], held0) ==>
          StartupKey(jobs[k]) in held && held[StartupKey(jobs[k])] == StartupLockTtl)
    && (forall key :: key in held && key !in held0 ==>
          exists k :: k in ids && k in jobs && SweepAcquires(jobs[k], held0) && StartupKey(jobs[k]) == key)
  }

  /** The jobs in `ids` that the sweep registers with the scheduler. */
  ghost function SweepAdds(jobs: map<int, CronJob>, held: map<LockKey, nat>, add: int -> AddOutcome, ids: set<int>): set<int> {
    set k | k in ids && k in jobs && SweepAcquires(jobs[k], held) && add(k) == Added
  }

  /**
   * One more started job swept. Jobs with distinct ids hold distinct startup
   * locks, so its lock is free now exactly when it was free before the sweep,
   * and taking it extends the swept lock table.
   */
  lemma SweptLocksStep(held: map<LockKey, nat>, held': map<LockKey, nat>, jobs: map<int, CronJob>,
                       held0: map<LockKey, nat>, ids: set<int>, ids': set<int>, k: int)
    requires forall j :: j in jobs ==> jobs[j].id == j
    requires SweptLocks(held, jobs, held0, ids)
    requires k in jobs && k !in ids && jobs[k].status == Start && ids' == ids + {k}
    requires held' == if StartupKey(jobs[k]) !in held then held[StartupKey(jobs[k]) := StartupLockTtl] else held
    ensures StartupKey(jobs[k]) !in held <==> SweepAcquires(jobs[k], held0)
    ensures SweptLocks(held', jobs, held0, ids')
  {
    var key := StartupKey(jobs[k]);
    if key in held && key !in held0 {
      var j :| j in ids && j in jobs && SweepAcquires(jobs[j], held0) && StartupKey(jobs[j]) == key;
      StartupLockNameInjective(jobs[j].id, jobs[j].projectId, jobs[k].id, jobs[k].projectId);
    }
    forall x | x in held' && x !in held0
      ensures exists j :: j in ids + {k} && j in jobs && SweepAcquires(jobs[j], held0) && StartupKey(jobs[j]) == x
    {
      if x != key {
        var j :| j in ids && j in jobs && SweepAcquires(jobs[j], held0) && StartupKey(jobs[j]) == x;
      }
    }
  }

  lemma SweepAddsStep(jobs: map<int, CronJob>, held: map<LockKey, nat>, add: int -> AddOutcome, ids: set<int>, ids': set<int>, k: int)
    requires k in jobs && ids' == ids + {k}
    ensures SweepAdds(jobs, held, add, ids') ==
              if SweepAcquires(jobs[k], held) && add(k) == Added then SweepAdds(jobs, held, add, ids) + {k}
              else SweepAdds(jobs, held, add, ids)
  {
  }

  /**
   * The table's invariant: ids are positive, below the next id to assign and
   * match their key, and no two jobs of a project share a name.
   */
  ghost predicate ValidTable(jobs: map<int, CronJob>, nextId: int) {
    && 0 < nextId
    && (forall k :: k in jobs ==> 0 < k < nextId && jobs[k].id == k)
    && (forall a, b ::
          a in jobs && b in jobs && jobs[a].name == jobs[b].name && jobs[a].projectId == jobs[b].projectId
          ==> a == b)
  }

  /** The table after sweeping `ids`: those jobs are as AfterSweep leaves them, the others unchanged. */
  ghost predicate SweptJobs(jobs: map<int, CronJob>, jobs0: map<int, CronJob>, held0: map<LockKey, nat>,
                            add: int -> AddOutcome, ids: set<int>)
  {
    && jobs.Keys == jobs0.Keys
    && (forall k :: k in jobs0 ==> jobs[k] == if k in ids then AfterSweep(jobs0[k], held0, add) else jobs0[k])
  }

  lemma SweptJobsStep(jobs: map<int, CronJob>, jobs0: map<int, CronJob>, held0: map<LockKey, nat>,
                      add: int -> AddOutcome, ids: set<int>, k: int, fails: bool, jobs': map<int, CronJob>)
    requires SweptJobs(jobs, jobs0, held0, add, ids)
    requires k in jobs0 && k !in ids && jobs0[k].id == k
    requires fails <==> SweepAcquires(jobs0[k], held0) && add(k) == SchedulerError
    requires jobs' == if fails then jobs[k := jobs[k].(status := Failed)] else jobs
    ensures SweptJobs(jobs', jobs0, held0, add, ids + {k})
  {
    assert jobs[k] == jobs0[k];
  }

  /**
   * The state a sweep of the jobs `ids` of `jobs0` leaves behind, from the
   * lock table `held0` and the triggers `triggers0`: the swept jobs are as
   * AfterSweep leaves them and the others unchanged, the triggers gained the
   * swept jobs the scheduler added, and the lock table is as SweptLocks says.
   */
  ghost predicate SweepState(jobs: map<int, CronJob>, triggers: set<int>, held: map<LockKey, nat>,
                             jobs0: map<int, CronJob>, held0: map<LockKey, nat>, triggers0: set<int>,
                             add: int -> AddOutcome, ids: set<int>)
  {
    && SweptJobs(jobs, jobs0, held0, add, ids)
    && triggers == triggers0 + SweepAdds(jobs0, held0, add, ids)
    && SweptLocks(held, jobs0, held0, ids)
  }

  /** The sweep changes statuses only, so the table stays valid. */
  lemma SweepStateValid(jobs: map<int, CronJob>, triggers: set<int>, held: map<LockKey, nat>,
                        jobs0: map<int, CronJob>, held0: map<LockKey, nat>, triggers0: set<int>,
                        add: int -> AddOutcome, ids: set<int>, nextId: int)
    requires ValidTable(jobs0, nextId)
    requires SweepState(jobs, triggers, held, jobs0, held0, triggers0, add, ids)
    ensures ValidTable(jobs, nextId)
  {
    forall k | k in jobs
      ensures jobs[k].id == jobs0[k].id && jobs[k].name == jobs0[k].name && jobs[k].projectId == jobs0[k].projectId
    {
    }
  }

  /** Before the sweep (ids are positive, so none lies below 1) nothing is swept. */
  lemma SweepStateStart(jobs0: map<int, CronJob>, held0: map<LockKey, nat>, triggers0: set<int>, add: int -> AddOutcome)
    requires forall j :: j in jobs0 ==> 0 < j
    ensures SweepState(jobs0, triggers0, held0, jobs0, held0, triggers0, add, StartedBelow(jobs0, 1))
  {
    assert StartedBelow(jobs0, 1) == {};
    assert SweepAdds(jobs0, held0, add, {}) == {};
  }

  /**
   * Sweeping one more started job `k`: take its startup lock if free; when
   * taken, a successful registration adds its trigger and a scheduler error
   * marks it FAILED.
   */
  lemma SweepStateStep(jobs: map<int, CronJob>, triggers: set<int>, held: map<LockKey, nat>,
                       jobs0: map<int, CronJob>, held0: map<LockKey, nat>, triggers0: set<int>,
                       add: int -> AddOutcome, ids: set<int>, k: int, acquired: bool,
                       jobs': map<int, CronJob>, triggers': set<int>, held': map<LockKey, nat>)
    requires forall j :: j in jobs0 ==> jobs0[j].id == j
    requires SweepState(jobs, triggers, held, jobs0, held0, triggers0, add, ids)
    requires k in jobs0 && k !in ids && jobs0[k].status == Start
    requires acquired <==> StartupKey(jobs0[k]) !in held
    requires held' == if acquired then held[StartupKey(jobs0[k]) := StartupLockTtl] else held
    requires triggers' == if acquired && add(k) == Added then triggers + {k} else triggers
    requires jobs' == if acquired && add(k) == SchedulerError then jobs[k := jobs[k].(status := Failed)] else jobs
    ensures SweepState(jobs', triggers', held', jobs0, held0, triggers0, add, ids + {k})
  {
    SweptLocksStep(held, held', jobs0, held0, ids, ids + {k}, k);
    SweepAddsStep(jobs0, held0, add, ids, ids + {k}, k);
    SweptJobsStep(jobs, jobs0, held0, add, ids, k, acquired && add(k) == SchedulerError, jobs');
  }

  class CronJobService {
    /** The cron job table, by id. */
    var jobs: map<int, CronJob>
    /** The id the table assigns to the next insert. */
    var nextId: int
    /** Ids of the jobs with a trigger registered in this node's scheduler. */
    var triggers: set<int>
    const store: Store

    ghost predicate Valid()
      reads this
    {
      ValidTable(jobs, nextId)
    }

    /** Job `k` is stored under `name` in project `projectId`. */
    ghost predicate Holds(k: int, name: string, projectId: int)
      reads this
    {
      k in jobs && jobs[k].name == name && jobs[k].projectId == projectId
    }

    /** Some job other than `id` holds the name in the project. */
    ghost predicate NameInUse(name: string, projectId: int, id: Option<int>)
      reads this
    {
      exists k :: Holds(k, name, projectId) && (id.None? || k != id.value)
    }

    function NameLockKey(name: string, projectId: int): LockKey {
      NameKey(CronJobEntity, name, Some(projectId))
    }

    constructor (store: Store)
      ensures Valid() && this.store == store
      ensures jobs == map[] && triggers == {}
    {
      jobs := map[];
      nextId := 1;
      triggers := {};
      this.store := store;
    }

    /** The mapper's lookup of a job id by name within a project. */
    method FindByName(name: string, projectId: int) returns (found: Option<int>)
      ensures found.Some? ==> Holds(found.value, name, projectId)
      ensures found.None? ==> forall k :: !Holds(k, name, projectId)
    {
      if k :| k in jobs && jobs[k].name == name && jobs[k].projectId == projectId {
        found := Some(k);
      } else {
        found := None;
      }
    }

    /** The name is taken exactly when another job of the project holds it. */
    method IsExist(name: string, id: Option<int>, projectId: int) returns (taken: bool)
      requires Valid()
      ensures taken <==> exists k :: Holds(k, name, projectId) && (id.None? || k != id.value)
    {
      var found := FindByName(name, projectId);
      taken := IsNameTaken(found, id);
    }

    method CreateCronJob(info: JobInfo, mayWrite: bool, inserted: bool) returns (r: Result<CronJob, JobError>)
      requires Valid()
      modifies this, store`held
      ensures Valid() && triggers == old(triggers)
      ensures store.held == old(store.held)
      ensures !mayWrite ==> r == Err(Unauthorized)
      ensures mayWrite && old(NameInUse(info.name, info.projectId, None)) ==> r == Err(NameTaken)
      ensures mayWrite && !old(NameInUse(info.name, info.projectId, None))
              && store.locking && NameLockKey(info.name, info.projectId) in old(store.held)
              ==> r == Err(NameTaken)
      ensures r.Ok? <==> (mayWrite && !old(NameInUse(info.name, info.projectId, None))
                          && !(store.locking && NameLockKey(info.name, info.projectId) in old(store.held))
                          && inserted)
      ensures r.Ok? ==> (r.value == NewJob(old(nextId), info) && old(nextId) !in old(jobs)
                         && jobs == old(jobs)[old(nextId) := r.value])
      ensures r.Err? ==> jobs == old(jobs)
      ensures r == Err(CreateFailed) <==> (mayWrite && !old(NameInUse(info.name, info.projectId, None))
                                           && !(store.locking && NameLockKey(info.name, info.projectId) in old(store.held))
                                           && !inserted)
    {
      if !mayWrite {
        return Err(Unauthorized);
      }
      var taken := IsExist(info.name, None, info.projectId);
      assert taken == NameInUse(info.name, info.projectId, None);
      if taken {
        return Err(NameTaken);
      }
      assert forall k :: k in jobs ==> !Holds(k, info.name, info.projectId);
      var lock := store.NameLock(CronJobEntity, info.name, Some(info.projectId));
      var acquired := store.Acquire(lock);
      if !acquired {
        return Err(NameTaken);
      }
      if lock.Some? {
        AcquireThenReleaseRestores(old(store.held), lock.value, store.nameLockTtl);
      }
      if !inserted {
        store.Release(lock);
        return Err(CreateFailed);
      }
      var job := NewJob(nextId, info);
      jobs := jobs[nextId := job];
      nextId := nextId + 1;
      store.Release(lock);
      r := Ok(job);
    }

    /** Why an update is refused before anything is written, in the order the checks run. */
    ghost function UpdateRejection(upd: JobUpdate, mayWrite: bool): Option<JobError>
      reads this, store
    {
      if upd.id !in jobs then Some(NotFound)
      else if jobs[upd.id].projectId != upd.projectId then Some(InvalidProjectId)
      else if !mayWrite then Some(Unauthorized)
      else if NameInUse(upd.name, upd.projectId, Some(upd.id)) then Some(NameTaken)
      else if jobs[upd.id].status == Start then Some(StopBeforeUpdate)
      else if store.locking && NameLockKey(upd.name, upd.projectId) in store.held then Some(NameTaken)
      else None
    }

    /**
     * updateCronJob: the checks, the name lock, then the write. When the
     * write or the scheduler's modifyJob throws, the catch block removes the
     * trigger and persists the job as FAILED; when that removal throws too,
     * the exception escapes, the transaction is rolled back and only the
     * lock release in the `finally` takes effect.
     */
    method UpdateCronJob(upd: JobUpdate, mayWrite: bool, write: WriteOutcome, modifyFails: bool, removeFails: bool,
                         now: int)
      returns (r: Result<bool, JobError>)
      requires Valid()
      modifies this, store`held
      ensures Valid() && nextId == old(nextId)
      ensures store.held == old(store.held)
      ensures old(UpdateRejection(upd, mayWrite)).Some? ==>
                r == Err(old(UpdateRejection(upd, mayWrite)).value)
                && jobs == old(jobs) && triggers == old(triggers)
      ensures old(UpdateRejection(upd, mayWrite)).None? ==>
                (r.Ok? <==> !((write == WriteThrew || (write == Written && modifyFails)) && removeFails))
                && (r.Ok? ==> (r.value <==> write == Written && !modifyFails))
      ensures r == Ok(true) ==>
                jobs == old(jobs)[upd.id := Edited(old(jobs)[upd.id], upd, now)] && triggers == old(triggers)
      ensures old(UpdateRejection(upd, mayWrite)).None? && write == NotWritten ==>
                jobs == old(jobs) && triggers == old(triggers)
      ensures old(UpdateRejection(upd, mayWrite)).None? && (write == WriteThrew || (write == Written && modifyFails))
                && !removeFails ==>
                jobs == old(jobs)[upd.id := Edited(old(jobs)[upd.id], upd, now).(status := Failed)]
                && triggers == old(triggers) - {upd.id}
      ensures old(UpdateRejection(upd, mayWrite)).None? && (write == WriteThrew || (write == Written && modifyFails))
                && removeFails ==>
                r == Err(RemoveFailed) && jobs == old(jobs) && triggers == old(triggers)
    {
      if upd.id !in jobs {
        return Err(NotFound);
      }
      var job := jobs[upd.id];
      if job.projectId != upd.projectId {
        return Err(InvalidProjectId);
      }
      if !mayWrite {
        return Err(Unauthorized);
      }
      var taken := IsExist(upd.name, Some(upd.id), upd.projectId);
      assert taken == NameInUse(upd.name, upd.projectId, Some(upd.id));
      if taken {
        return Err(NameTaken);
      }
      assert forall k :: k in jobs && k != upd.id ==> !Holds(k, upd.name, upd.projectId);
      if job.status == Start {
        return Err(StopBeforeUpdate);
      }
      var lock := store.NameLock(CronJobEntity, upd.name, Some(upd.projectId));
      var acquired := store.Acquire(lock);
      if !acquired {
        return Err(NameTaken);
      }
      if lock.Some? {
        AcquireThenReleaseRestores(old(store.held), lock.value, store.nameLockTtl);
      }
      var edited := Edited(job, upd, now);
      var res := false;
      if write == Written && !modifyFails {
        jobs := jobs[upd.id := edited];
        res := true;
      } else if write == WriteThrew || write == Written {
        if removeFails {
          // the catch block's removeJob throws: everything is rolled back
          store.Release(lock);
          return Err(RemoveFailed);
        }
        // the catch block: remove the trigger, persist the edited job as FAILED
        triggers := triggers - {upd.id};
        jobs := jobs[upd.id := edited.(status := Failed)];
      }
      store.Release(lock);
      r := Ok(res);
    }

    /**
     * deleteCronJob: lookup, permission, then the row is deleted and the
     * trigger removed. When that removal throws, the exception escapes and
     * the deletion is rolled back.
     */
    method DeleteCronJob(id: int, mayWrite: bool, deleted: bool, removeFails: bool) returns (r: Result<bool, JobError>)
      requires Valid()
      modifies this
      ensures Valid() && nextId == old(nextId)
      ensures id !in old(jobs) ==> r == Err(NotFound)
      ensures id in old(jobs) && !mayWrite ==> r == Err(Unauthorized)
      ensures id in old(jobs) && mayWrite ==> r == if deleted && removeFails then Err(RemoveFailed) else Ok(deleted)
      ensures r == Ok(true) ==> jobs == old(jobs) - {id} && triggers == old(triggers) - {id}
      ensures r != Ok(true) ==> jobs == old(jobs) && triggers == old(triggers)
    {
      if id !in jobs {
        return Err(NotFound);
      }
      if !mayWrite {
        return Err(Unauthorized);
      }
      if deleted && removeFails {
        return Err(RemoveFailed);
      }
      if deleted {
        jobs := jobs - {id};
        triggers := triggers - {id};
      }
      r := Ok(deleted);
    }

    /**
     * startCronJob as written: on a SchedulerException the job is set to
     * FAILED and saved, but the ServerException thrown right after escapes
     * the transaction, so that save is rolled back and the job keeps its
     * status.
     */
    method StartCronJob(id: int, mayWrite: bool, add: AddOutcome, now: int) returns (r: Result<CronJob, JobError>)
      requires Valid()
      modifies this
      ensures Valid() && nextId == old(nextId)
      ensures id !in old(jobs) ==> r == Err(NotFound)
      ensures id in old(jobs) && !mayWrite ==> r == Err(Unauthorized)
      ensures r.Ok? <==> id in old(jobs) && mayWrite && add == Added
      ensures r.Ok? ==>
                r.value == old(jobs)[id].(status := Start, updateTime := Some(now))
                && jobs == old(jobs)[id := r.value] && triggers == old(triggers) + {id}
      ensures id in old(jobs) && mayWrite && add == SchedulerError ==> r == Err(SchedulerFailure)
      ensures id in old(jobs) && mayWrite && add == ServerError ==> r == Err(SchedulerRejected)
      ensures r.Err? ==> jobs == old(jobs) && triggers == old(triggers)
    {
      if id !in jobs {
        return Err(NotFound);
      }
      if !mayWrite {
        return Err(Unauthorized);
      }
      var job := jobs[id];
      match add
      case Added =>
        triggers := triggers + {id};
        job := job.(status := Start, updateTime := Some(now));
        jobs := jobs[id := job];
        r := Ok(job);
      case SchedulerError =>
        r := Err(SchedulerFailure);
      case ServerError =>
        r := Err(SchedulerRejected);
    }

    /**
     * startCronJob as its catch block means it: a job the scheduler refused
     * is recorded as FAILED at `now`, and the error still reaches the
     * caller.
     */
    method StartCronJobRecordingFailure(id: int, mayWrite: bool, add: AddOutcome, now: int)
      returns (r: Result<CronJob, JobError>)
      requires Valid()
      modifies this
      ensures Valid() && nextId == old(nextId)
      ensures id !in old(jobs) ==> r == Err(NotFound)
      ensures id in old(jobs) && !mayWrite ==> r == Err(Unauthorized)
      ensures r.Ok? <==> id in old(jobs) && mayWrite && add == Added
      ensures r.Ok? ==>
                r.value == old(jobs)[id].(status := Start, updateTime := Some(now))
                && jobs == old(jobs)[id := r.value] && triggers == old(triggers) + {id}
      ensures id in old(jobs) && mayWrite && add == SchedulerError ==>
                r == Err(SchedulerFailure)
                && jobs == old(jobs)[id := old(jobs)[id].(status := Failed, updateTime := Some(now))]
                && triggers == old(triggers)
      ensures !(id in old(jobs) && mayWrite && add != ServerError) ==> jobs == old(jobs) && triggers == old(triggers)
      ensures id in old(jobs) && mayWrite && add == ServerError ==> r == Err(SchedulerRejected)
    {
      if id !in jobs {
        return Err(NotFound);
      }
      if !mayWrite {
        return Err(Unauthorized);
      }
      var job := jobs[id];
      match add
      case Added =>
        triggers := triggers + {id};
        job := job.(status := Start, updateTime := Some(now));
        jobs := jobs[id := job];
        r := Ok(job);
      case SchedulerError =>
        job := job.(status := Failed, updateTime := Some(now));
        jobs := jobs[id := job];
        r := Err(SchedulerFailure);
      case ServerError =>
        r := Err(SchedulerRejected);
    }

    method StopCronJob(id: int, mayWrite: bool, removeFails: bool, now: int) returns (r: Result<CronJob, JobError>)
      requires Valid()
      modifies this, store`published
      ensures Valid() && nextId == old(nextId)
      ensures id !in old(jobs) ==> r == Err(NotFound)
      ensures id in old(jobs) && !mayWrite ==> r == Err(Unauthorized)
      ensures r.Err? ==> jobs == old(jobs) && triggers == old(triggers) && store.published == old(store.published)
      ensures id in old(jobs) && mayWrite && store.enabled ==>
                r == Ok(old(jobs)[id].(status := Stop))
                && jobs == old(jobs) && triggers == old(triggers)
                && store.published == old(store.published) + [Message(CronJobHandler, StopJob(r.value), "-1")]
      ensures id in old(jobs) && mayWrite && !store.enabled ==>
                store.published == old(store.published)
                && r == Ok(if removeFails then old(jobs)[id].(status := Failed)
                           else old(jobs)[id].(status := Stop, updateTime := Some(now)))
                && jobs == old(jobs)[id := r.value]
                && triggers == if removeFails then old(triggers) else old(triggers) - {id}
    {
      if id !in jobs {
        return Err(NotFound);
      }
      if !mayWrite {
        return Err(Unauthorized);
      }
      var job := jobs[id].(status := Stop);
      if store.enabled {
        store.Publish(Message(CronJobHandler, StopJob(job), "-1"));
        return Ok(job);
      }
      if !removeFails {
        triggers := triggers - {id};
        job := job.(updateTime := Some(now));
      } else {
        job := job.(status := Failed);
      }
      jobs := jobs[id := job];
      r := Ok(job);
    }

    /** The sweep's step for id `i`: a started job there is swept, any other id is passed over. */
    method SweepJob(i: int, add: int -> AddOutcome, ghost jobs0: map<int, CronJob>, ghost held0: map<LockKey, nat>,
                    ghost triggers0: set<int>)
      requires forall j :: j in jobs0 ==> jobs0[j].id == j
      requires SweepState(jobs, triggers, store.held, jobs0, held0, triggers0, add, StartedBelow(jobs0, i))
      modifies this, store`held
      ensures nextId == old(nextId)
      ensures SweepState(jobs, triggers, store.held, jobs0, held0, triggers0, add, StartedBelow(jobs0, i + 1))
    {
      ghost var done := StartedBelow(jobs0, i);
      StartedBelowStep(jobs0, i);
      if i in jobs && jobs[i].status == Start {
        ghost var jobs1, triggers1, held1 := jobs, triggers, store.held;
        var job := jobs[i];
        var acquired := store.TryLock(StartupKey(job), StartupLockTtl);
        if acquired {
          match add(i)
          case Added =>
            triggers := triggers + {i};
          case SchedulerError =>
            jobs := jobs[i := job.(status := Failed)];
          case ServerError =>
        }
        SweepStateStep(jobs1, triggers1, held1, jobs0, held0, triggers0, add, done, i, acquired, jobs, triggers, store.held);
      }
    }

    /**
     * The startup sweep: every started job whose startup lock this node
     * acquires is registered with the scheduler; a scheduler error marks that
     * job FAILED and the others go on. The locks are left to expire. When
     * the lock helper hands out no lock, dereferencing the null lock aborts
     * the sweep at the first started job, before anything changes.
     */
    method StartAllJobs(add: int -> AddOutcome) returns (completed: bool)
      requires Valid()
      modifies this, store`held
      ensures Valid() && nextId == old(nextId)
      ensures !store.locking ==>
                jobs == old(jobs) && triggers == old(triggers) && store.held == old(store.held)
                && (completed <==> StartedIds(old(jobs)) == {})
      ensures store.locking ==> completed
      ensures store.locking ==>
                SweepState(jobs, triggers, store.held, old(jobs), old(store.held), old(triggers), add, StartedIds(old(jobs)))
    {
      if !store.locking {
        completed := StartedIds(jobs) == {};
      } else {
        SweepAll(add);
        completed := true;
      }
    }

    /** The sweep proper, with lock objects: the started jobs in id order. */
    method SweepAll(add: int -> AddOutcome)
      requires Valid() && store.locking
      modifies this, store`held
      ensures Valid() && nextId == old(nextId)
      ensures SweepState(jobs, triggers, store.held, old(jobs), old(store.held), old(triggers), add, StartedIds(old(jobs)))
    {
      ghost var jobs0, held0, triggers0 := jobs, store.held, triggers;
      SweepStateStart(jobs0, held0, triggers0, add);
      var i := 1;
      while i < nextId
        invariant 1 <= i <= nextId && nextId == old(nextId)
        invariant forall j :: j in jobs0 ==> jobs0[j].id == j && j < nextId
        invariant SweepState(jobs, triggers, store.held, jobs0, held0, triggers0, add, StartedBelow(jobs0, i))
      {
        SweepJob(i, add, jobs0, held0, triggers0);
        i := i + 1;
      }
      assert StartedBelow(jobs0, nextId) == StartedIds(jobs0);
      SweepStateValid(jobs, triggers, store.held, jobs0, held0, triggers0, add, StartedIds(jobs0), nextId);
    }

    /**
     * Manual execution: the job is looked up and the caller's permission
     * checked; the run itself is handed to a worker, which applies Decide.
     * The call reports success whatever the worker then does.
     */
    method ExecuteCronJob(id: int, mayWrite: bool, now: int) returns (r: Result<bool, JobError>, run: Option<Dispatch>)
      ensures id !in jobs ==> r == Err(NotFound)
      ensures id in jobs && !mayWrite ==> r == Err(Unauthorized)
      ensures id in jobs && mayWrite ==> r == Ok(true) && run == Some(Decide(jobs[id], now))
      ensures r.Err? ==> run == None
    {
      if id !in jobs {
        return Err(NotFound), None;
      }
      if !mayWrite {
        return Err(Unauthorized), None;
      }
      r, run := Ok(true), Some(Decide(jobs[id], now));
    }
  }
}
