/**
 * The job-gating and status write-back logic of the scheduler: record lookup,
 * status write-back, the preliminary admission check and the worker, over an
 * in-memory store that maps a job id to its `BatchJob` record.
 *
 * Each operation is given as a pure function over the store (its
 * specification) and, where the source changes state, as a method of
 * `JobStore` proved to agree with that function.
 */
module Scheduler {
  import opened Wrappers
  import opened Models

  /** The `batch_jobs` table: job id to record. */
  type Store = map<int, BatchJob>

  /** `job_id` is the primary key: every record is stored under its own id. */
  predicate KeyedById(store: Store) {
    forall id :: id in store ==> store[id].jobId == id
  }

  /** The dictionary a batch job returns as its result content. */
  datatype Payload = Payload(entries: seq<(string, string)>)

  /** `get_latest_job`: the record stored under `jobId`, or None; never fails. */
  function Lookup(store: Store, jobId: int): (r: Option<BatchJob>)
    ensures r.None? <==> jobId !in store
    ensures r.Some? ==> r.value == store[jobId]
    ensures KeyedById(store) && r.Some? ==> r.value.jobId == jobId
  {
    if jobId in store then Some(store[jobId]) else None
  }

  /** A record after write-back: status, content and timestamp replaced. */
  function WriteBack(job: BatchJob, status: int, content: string, now: int): (r: BatchJob)
    ensures r.jobStatus == status && r.jobContent == Some(content) && r.lastUpdatedTs == now
    ensures r.jobId == job.jobId && r.jobName == job.jobName && r.jobEnabled == job.jobEnabled
    ensures r.jobCron == job.jobCron && r.jobRunLagCheck == job.jobRunLagCheck
  {
    job.(jobStatus := status, jobContent := Some(content), lastUpdatedTs := now)
  }

  /**
   * `do_job_update`: whether the write succeeded, and the store after it.
   * `serialize` stands for `json.dumps`, None where it would raise.
   */
  function UpdateJob(store: Store, jobId: int, status: int, content: Payload,
                     serialize: Payload -> Option<string>, now: int): (r: (bool, Store))
    ensures r.0 <==> jobId in store && serialize(content).Some?
    ensures !r.0 ==> r.1 == store
    ensures r.1.Keys == store.Keys
    ensures r.0 ==> r.1[jobId] == WriteBack(store[jobId], status, serialize(content).value, now)
    ensures forall id :: id in store && id != jobId ==> r.1[id] == store[id]
    ensures KeyedById(store) ==> KeyedById(r.1)
  {
    var job := Lookup(store, jobId);
    var text := serialize(content);
    if job.None? || text.None? then (false, store)
    else (true, store[jobId := WriteBack(job.value, status, text.value, now)])
  }

  const MicrosPerSecond: int := 1_000_000

  /**
   * `int(delta.total_seconds())` for a span of `micros` microseconds: whole
   * seconds, truncated toward zero (so half a second either way is 0).
   */
  function TruncSeconds(micros: int): (s: int)
    ensures micros >= 0 ==> s >= 0 && s * MicrosPerSecond <= micros < (s + 1) * MicrosPerSecond
    ensures micros < 0 ==> s <= 0 && (s - 1) * MicrosPerSecond < micros <= s * MicrosPerSecond
  {
    if micros >= 0 then micros / MicrosPerSecond else -((-micros) / MicrosPerSecond)
  }

  /**
   * `do_batch_preliminary_check` as a decision over the record as fetched
   * before the randomized delay (`first`) and after it (`second`), with `now`
   * read after the second fetch. Enabled and RUNNING are read from `first`
   * only; the lag check from `second` only. A missing record fails closed.
   */
  function PreliminaryCheck(first: Option<BatchJob>, second: Option<BatchJob>, now: int): (permitted: bool)
    ensures permitted ==> first.Some? && second.Some?
    ensures permitted ==> first.value.jobEnabled && first.value.jobStatus != RUNNING
    ensures permitted ==> now - second.value.lastUpdatedTs > second.value.jobRunLagCheck * MicrosPerSecond
  {
    if first.None? then false
    else if !first.value.jobEnabled then false
    else if first.value.jobStatus == RUNNING then false
    else if second.None? then false
    else TruncSeconds(now - second.value.lastUpdatedTs) > second.value.jobRunLagCheck
  }

  /** Total of a sequence of pause lengths: between 5 and 20 seconds per pause. */
  ghost function TotalSleep(draws: seq<int>): (total: int)
    requires forall i :: 0 <= i < |draws| ==> 5 <= draws[i] <= 20
    ensures 5 * |draws| <= total <= 20 * |draws|
  {
    if draws == [] then 0 else TotalSleep(draws[..|draws| - 1]) + draws[|draws| - 1]
  }

  /** `list_map_dict`, by the status each job's function returns: 1 and 3 complete, 2 fails. */
  type Registry = map<int, int>

  const ListMapDict: Registry := map[1 := COMPLETED, 2 := FAILED, 3 := COMPLETED]

  /** What one invocation of the worker did. */
  datatype WorkerOutcome =
    | JobNotFound           // the first fetch found nothing; the worker raises before the check
    | NotPermitted          // the preliminary check said no
    | RunnerNotFound        // no function registered for the id; calling None raises
    | Ran(status: int, updated: bool)  // the job ran and returned `status`; `updated` is the write-back's result

  /**
   * `batch_job_worker` on a store with no other writer: fetch, check, run the
   * registered job, write its status and content back. `checkNow` is the time
   * the check reads, `writeNow` the time the write-back stamps.
   */
  function WorkerStep(store: Store, jobId: int, registry: Registry, content: Payload,
                      serialize: Payload -> Option<string>, checkNow: int, writeNow: int): (r: (WorkerOutcome, Store))
    ensures r.0 == JobNotFound <==> jobId !in store
    ensures r.0 == NotPermitted <==>
              jobId in store && !PreliminaryCheck(Some(store[jobId]), Some(store[jobId]), checkNow)
    ensures r.0 == RunnerNotFound <==>
              jobId in store && PreliminaryCheck(Some(store[jobId]), Some(store[jobId]), checkNow) && jobId !in registry
    ensures r.0.Ran? ==> jobId in registry && r.0.status == registry[jobId]
    ensures r.0.Ran? ==> (r.0.updated <==> serialize(content).Some?)
    ensures r.1 != store ==> r.0.Ran? && r.0.updated
    ensures jobId in store && PreliminaryCheck(Some(store[jobId]), Some(store[jobId]), checkNow) &&
            jobId in registry && serialize(content).Some? ==>
              r == (Ran(registry[jobId], true),
                    store[jobId := WriteBack(store[jobId], registry[jobId], serialize(content).value, writeNow)])
  {
    var job := Lookup(store, jobId);
    if job.None? then (JobNotFound, store)
    else if !PreliminaryCheck(job, job, checkNow) then (NotPermitted, store)
    else if jobId !in registry then (RunnerNotFound, store)
    else
      var status := registry[jobId];
      var (updated, after) := UpdateJob(store, jobId, status, content, serialize, writeNow);
      (Ran(status, updated), after)
  }

  /** The store as one node's scheduler sees it, updated in place by the worker. */
  class JobStore {
    var jobs: Store

    ghost predicate Valid()
      reads this
    {
      KeyedById(jobs)
    }

    constructor (initial: Store)
      requires KeyedById(initial)
      ensures Valid() && jobs == initial
    {
      jobs := initial;
    }

    /** `do_job_update`: overwrite status, content and timestamp of one record. */
    method DoJobUpdate(jobId: int, status: int, content: Payload,
                       serialize: Payload -> Option<string>, now: int) returns (updated: bool)
      requires Valid()
      modifies this
      ensures Valid()
      ensures (updated, jobs) == UpdateJob(old(jobs), jobId, status, content, serialize, now)
    {
      var job := Lookup(jobs, jobId);
      var text := serialize(content);
      if job.None? || text.None? {
        return false;
      }
      jobs := jobs[jobId := WriteBack(job.value, status, text.value, now)];
      return true;
    }

    /**
     * `do_batch_preliminary_check`. The three random pauses are `draws`
     * (each in [5, 20] seconds); `slept` is the time spent in them: nothing
     * when the first fetch already refuses, all three draws otherwise.
     * Nothing else writes the store in between, so both fetches agree.
     */
    method DoBatchPreliminaryCheck(jobId: int, ghost draws: seq<int>, now: int)
      returns (permitted: bool, ghost slept: int)
      requires |draws| == 3 && forall i :: 0 <= i < |draws| ==> 5 <= draws[i] <= 20
      ensures permitted == PreliminaryCheck(Lookup(jobs, jobId), Lookup(jobs, jobId), now)
      ensures var first := Lookup(jobs, jobId);
              slept == if first.None? || !first.value.jobEnabled || first.value.jobStatus == RUNNING
                       then 0 else TotalSleep(draws)
      ensures slept == 0 || 15 <= slept <= 60
    {
      slept := 0;
      var first := Lookup(jobs, jobId);
      if first.None? {
        return false, slept;
      } else if !first.value.jobEnabled {
        return false, slept;
      } else if first.value.jobStatus == RUNNING {
        return false, slept;
      }
      for i := 1 to 4
        invariant slept == TotalSleep(draws[..i - 1])
      {
        assert draws[..i] == draws[..i - 1] + [draws[i - 1]];
        slept := slept + draws[i - 1];
      }
      assert draws[..3] == draws;
      var second := Lookup(jobs, jobId);
      if second.None? {
        return false, slept;
      }
      permitted := TruncSeconds(now - second.value.lastUpdatedTs) > second.value.jobRunLagCheck;
    }

    /** `batch_job_worker`: check, run the registered job, write its result back. */
    method BatchJobWorker(jobId: int, registry: Registry, content: Payload,
                          serialize: Payload -> Option<string>, ghost draws: seq<int>,
                          checkNow: int, writeNow: int) returns (outcome: WorkerOutcome)
      requires Valid()
      requires |draws| == 3 && forall i :: 0 <= i < |draws| ==> 5 <= draws[i] <= 20
      modifies this
      ensures Valid()
      ensures (outcome, jobs) == WorkerStep(old(jobs), jobId, registry, content, serialize, checkNow, writeNow)
    {
      var job := Lookup(jobs, jobId);
      if job.None? {
        return JobNotFound;
      }
      var canRun;
      ghost var slept;
      canRun, slept := DoBatchPreliminaryCheck(jobId, draws, checkNow);
      if !canRun {
        return NotPermitted;
      }
      if jobId !in registry {
        return RunnerNotFound;
      }
      var status := registry[jobId];
      var updated := DoJobUpdate(jobId, status, content, serialize, writeNow);
      outcome := Ran(status, updated);
    }
  }
}
