/**
 * Properties of the scheduler's gating and write-back logic, stated over the
 * specification functions of module Scheduler.
 */
module SchedulerProperties {
  import opened Wrappers
  import opened Models
  import opened Scheduler

  /**
   * A write to an existing id with serializable content succeeds and is seen
   * by the next lookup: the three written fields are new, every other field
   * and every other record as before.
   */
  lemma UpdateThenLookup(store: Store, jobId: int, status: int, content: Payload,
                         serialize: Payload -> Option<string>, now: int, other: int)
    requires KeyedById(store) && jobId in store && serialize(content).Some?
    ensures var (ok, after) := UpdateJob(store, jobId, status, content, serialize, now);
            var old_ := store[jobId];
            ok && Lookup(after, jobId) == Some(BatchJob(jobId, old_.jobName, old_.jobEnabled, old_.jobCron,
                                                      old_.jobRunLagCheck, status,
                                                      serialize(content), now))
    ensures other != jobId ==> Lookup(UpdateJob(store, jobId, status, content, serialize, now).1, other) == Lookup(store, other)
  {
  }

  /** A disabled job on the first fetch is denied, whatever its status, timestamp or second fetch. */
  lemma DisabledDenies(job: BatchJob, second: Option<BatchJob>, now: int)
    requires !job.jobEnabled
    ensures !PreliminaryCheck(Some(job), second, now)
  {
  }

  /** A job RUNNING on the first fetch is denied. */
  lemma RunningDenies(job: BatchJob, second: Option<BatchJob>, now: int)
    requires job.jobStatus == RUNNING
    ensures !PreliminaryCheck(Some(job), second, now)
  {
  }

  /** A record missing on either fetch is denied. */
  lemma MissingRecordDenies(first: Option<BatchJob>, second: Option<BatchJob>, now: int)
    requires first.None? || second.None?
    ensures !PreliminaryCheck(first, second, now)
  {
  }

  /**
   * Once the first fetch shows an enabled, not-RUNNING job, the decision is
   * the lag rule on the second fetch: equal elapsed seconds deny, strictly
   * more permit. In microseconds: at least lag + 1 whole seconds for a
   * non-negative lag, more than lag seconds for a negative one.
   */
  lemma LagBoundary(first: BatchJob, second: BatchJob, now: int)
    requires first.jobEnabled && first.jobStatus != RUNNING
    ensures var elapsed := TruncSeconds(now - second.lastUpdatedTs);
            PreliminaryCheck(Some(first), Some(second), now) <==> elapsed > second.jobRunLagCheck
    ensures TruncSeconds(now - second.lastUpdatedTs) == second.jobRunLagCheck ==>
              !PreliminaryCheck(Some(first), Some(second), now)
    ensures second.jobRunLagCheck >= 0 ==>
              (PreliminaryCheck(Some(first), Some(second), now) <==>
               now - second.lastUpdatedTs >= (second.jobRunLagCheck + 1) * MicrosPerSecond)
    ensures second.jobRunLagCheck < 0 ==>
              (PreliminaryCheck(Some(first), Some(second), now) <==>
               now - second.lastUpdatedTs > second.jobRunLagCheck * MicrosPerSecond)
  {
  }

  /**
   * Enabled and status are not read again after the delay: a second fetch
   * that shows the job disabled or RUNNING decides nothing, and neither do
   * the timestamp and lag of the first fetch.
   */
  lemma SnapshotsReadSeparately(first: BatchJob, second: BatchJob, now: int,
                                enabled: bool, status: int, ts: int, lag: int)
    ensures PreliminaryCheck(Some(first), Some(second.(jobEnabled := enabled, jobStatus := status)), now)
         == PreliminaryCheck(Some(first), Some(second), now)
    ensures PreliminaryCheck(Some(first.(lastUpdatedTs := ts, jobRunLagCheck := lag)), Some(second), now)
         == PreliminaryCheck(Some(first), Some(second), now)
  {
  }

  /** A record stamped half a second in the future has 0 elapsed seconds, and a lag of -1 lets it through. */
  lemma HalfSecondAheadTruncatesToZero(job: BatchJob, now: int)
    requires job.jobEnabled && job.jobStatus == COMPLETED
    requires job.lastUpdatedTs == now + 500_000 && job.jobRunLagCheck == -1
    ensures TruncSeconds(now - job.lastUpdatedTs) == 0
    ensures PreliminaryCheck(Some(job), Some(job), now)
  {
  }

  /** `list_map_dict` registers jobs 1, 2 and 3; 1 and 3 return COMPLETED, 2 returns FAILED. */
  lemma ListMapDictStatuses()
    ensures ListMapDict.Keys == {1, 2, 3}
    ensures ListMapDict[1] == COMPLETED && ListMapDict[2] == FAILED && ListMapDict[3] == COMPLETED
    ensures forall id :: id in ListMapDict ==> IsValidStatus(ListMapDict[id]) && ListMapDict[id] != RUNNING
  {
    StatusChoicesExact(0);
    StatusChoicesExact(2);
  }

  /** The worker keeps every record under its own id. */
  lemma WorkerKeepsPrimaryKey(store: Store, jobId: int, registry: Registry, content: Payload,
                              serialize: Payload -> Option<string>, checkNow: int, writeNow: int)
    requires KeyedById(store)
    ensures KeyedById(WorkerStep(store, jobId, registry, content, serialize, checkNow, writeNow).1)
  {
  }

  /**
   * With a registry whose jobs never return RUNNING (as `list_map_dict`),
   * the worker never leaves a record RUNNING that was not, and writes only
   * statuses the registry holds.
   */
  lemma WorkerNeverWritesRunning(store: Store, jobId: int, registry: Registry, content: Payload,
                                 serialize: Payload -> Option<string>, checkNow: int, writeNow: int, id: int)
    requires forall r :: r in registry ==> registry[r] != RUNNING
    requires id in store && store[id].jobStatus != RUNNING
    ensures var after := WorkerStep(store, jobId, registry, content, serialize, checkNow, writeNow).1;
            id in after && after[id].jobStatus != RUNNING
  {
  }

  /** Every record's status is one STATUS_CHOICES declares. */
  predicate AllStatusesValid(store: Store) {
    forall id :: id in store ==> IsValidStatus(store[id].jobStatus)
  }

  /**
   * Run with `list_map_dict`, the worker keeps every status in the store one
   * of the declared codes, and never leaves a record RUNNING that was not.
   */
  lemma ListMapDictKeepsStatusesValid(store: Store, jobId: int, content: Payload,
                                      serialize: Payload -> Option<string>, checkNow: int, writeNow: int)
    requires AllStatusesValid(store)
    ensures var after := WorkerStep(store, jobId, ListMapDict, content, serialize, checkNow, writeNow).1;
            AllStatusesValid(after) &&
            forall id :: id in store && store[id].jobStatus != RUNNING ==> after[id].jobStatus != RUNNING
  {
    ListMapDictStatuses();
    var after := WorkerStep(store, jobId, ListMapDict, content, serialize, checkNow, writeNow).1;
    forall id | id in store && store[id].jobStatus != RUNNING
      ensures after[id].jobStatus != RUNNING
    {
      WorkerNeverWritesRunning(store, jobId, ListMapDict, content, serialize, checkNow, writeNow, id);
    }
  }

  /**
   * A completed cycle stamps a later time than the record held, provided the
   * lag is not negative and the write-back happens no earlier than the check.
   */
  lemma TimestampAdvances(store: Store, jobId: int, registry: Registry, content: Payload,
                          serialize: Payload -> Option<string>, checkNow: int, writeNow: int)
    requires jobId in store && store[jobId].jobRunLagCheck >= 0 && checkNow <= writeNow
    ensures var (outcome, after) := WorkerStep(store, jobId, registry, content, serialize, checkNow, writeNow);
            outcome.Ran? && outcome.updated ==>
              after[jobId].jobStatus == registry[jobId] &&
              after[jobId].lastUpdatedTs > store[jobId].lastUpdatedTs
  {
  }

  /** With a negative lag a record stamped in the future still runs, and its timestamp goes back. */
  lemma NegativeLagMovesTimestampBack(serialize: Payload -> Option<string>, content: Payload)
    requires serialize(content).Some?
    ensures var job := BatchJob(1, "job1", true, "* * * * *", -5, COMPLETED, None, 2_000_000);
            var (outcome, after) := WorkerStep(map[1 := job], 1, ListMapDict, content, serialize, 0, 0);
            outcome == Ran(COMPLETED, true) && after[1].lastUpdatedTs < job.lastUpdatedTs
  {
  }

  /**
   * After a write-back at `writeNow`, a fire whose check sees no more than
   * the lag elapsed since then changes nothing.
   */
  lemma LagThrottlesNextRun(store: Store, jobId: int, registry: Registry, content: Payload,
                            serialize: Payload -> Option<string>, checkNow: int, writeNow: int,
                            content2: Payload, checkNow2: int, writeNow2: int)
    requires var (outcome, after) := WorkerStep(store, jobId, registry, content, serialize, checkNow, writeNow);
             outcome.Ran? && outcome.updated
    requires TruncSeconds(checkNow2 - writeNow) <= store[jobId].jobRunLagCheck
    ensures var after := WorkerStep(store, jobId, registry, content, serialize, checkNow, writeNow).1;
            WorkerStep(after, jobId, registry, content2, serialize, checkNow2, writeNow2) == (NotPermitted, after)
  {
  }

  /** One cron fire: the content the job produces and the two clock readings. */
  datatype Fire = Fire(content: Payload, checkNow: int, writeNow: int)

  /** The store after the worker has handled each fire in turn. */
  function Fires(store: Store, jobId: int, registry: Registry,
                 serialize: Payload -> Option<string>, fires: seq<Fire>): Store
  {
    if fires == [] then store
    else
      var after := WorkerStep(store, jobId, registry, fires[0].content, serialize,
                              fires[0].checkNow, fires[0].writeNow).1;
      Fires(after, jobId, registry, serialize, fires[1..])
  }

  /** A job that is missing, disabled or RUNNING is never written, however often it fires. */
  lemma {:induction false} IdleJobNeverWritten(store: Store, jobId: int, registry: Registry,
                                               serialize: Payload -> Option<string>, fires: seq<Fire>)
    requires jobId !in store || !store[jobId].jobEnabled || store[jobId].jobStatus == RUNNING
    ensures Fires(store, jobId, registry, serialize, fires) == store
  {
    if fires != [] {
      var f := fires[0];
      assert WorkerStep(store, jobId, registry, f.content, serialize, f.checkNow, f.writeNow).1 == store;
      IdleJobNeverWritten(store, jobId, registry, serialize, fires[1..]);
    }
  }

  /** Job 1, completed ten minutes ago with a 300-second lag: it runs and ends COMPLETED with content. */
  lemma ScenarioDueJobRuns(serialize: Payload -> Option<string>, content: Payload, now: int)
    requires serialize(content).Some?
    ensures var job := BatchJob(1, "job1", true, "*/5 * * * *", 300, COMPLETED, None, now - 600 * MicrosPerSecond);
            var (outcome, after) := WorkerStep(map[1 := job], 1, ListMapDict, content, serialize, now, now);
            outcome == Ran(COMPLETED, true) && after[1].jobStatus == COMPLETED &&
            after[1].jobContent.Some? && after[1].lastUpdatedTs == now
  {
  }

  /** Job 2 marked RUNNING: not permitted, no write. */
  lemma ScenarioRunningJobSkipped(serialize: Payload -> Option<string>, content: Payload, now: int, ts: int)
    ensures var job := BatchJob(2, "job2", true, "*/5 * * * *", 300, RUNNING, None, ts);
            WorkerStep(map[2 := job], 2, ListMapDict, content, serialize, now, now) == (NotPermitted, map[2 := job])
  {
  }

  /** Job 3, updated two seconds ago with a 300-second lag: not permitted. */
  lemma ScenarioRecentJobSkipped(serialize: Payload -> Option<string>, content: Payload, now: int)
    ensures var job := BatchJob(3, "job3", true, "*/5 * * * *", 300, COMPLETED, None, now - 2 * MicrosPerSecond);
            WorkerStep(map[3 := job], 3, ListMapDict, content, serialize, now, now) == (NotPermitted, map[3 := job])
  {
  }
}
