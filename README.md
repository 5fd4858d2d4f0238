# Batch-job gating and status write-back, in Dafny

This project models the core of a Django app that runs named batch jobs on
cron schedules: the `BatchJob` record and its status codes
(`batchproject/schedulerapp/models.py`), and the scheduler's job gating and
status write-back (`batchproject/schedulerapp/scheduler.py`).

- `Models` (models.dfy): the `BatchJob` record, `STATUS_CHOICES`
  (0 COMPLETED, 1 RUNNING, 2 FAILED), the field defaults of a new record, and
  `__str__`. `Decimal` (decimal.dfy) renders integers as Python's `str` does,
  with a parser as its inverse.
- `Scheduler` (scheduler.dfy): the store is a map from job id to record.
  `Lookup` is `get_latest_job`. `UpdateJob` is `do_job_update`.
  `PreliminaryCheck` is the admission rule of `do_batch_preliminary_check`,
  taking the record as fetched before the randomized delay and as re-fetched
  after it. `WorkerStep` is `batch_job_worker`. `ListMapDict` is
  `list_map_dict`, reduced to the status each job returns. The record itself
  is the datatype `Models.BatchJob`. The class
  `JobStore` holds the map and updates it in place. Its methods
  `DoJobUpdate`, `DoBatchPreliminaryCheck` (with the three-pause delay loop)
  and `BatchJobWorker` are proved equal to those functions.
- `SchedulerProperties` (scheduler_properties.dfy) holds the lemmas: how the
  check gates, the lag boundary, what the worker writes, and that an idle job
  is never written.

Timestamps are integers counting microseconds. Elapsed time is truncated
toward zero to whole seconds, as `int(total_seconds())` does. `json.dumps`
is a function parameter that returns None where it would raise. The clock
is a parameter too.

Three consequences of the code are worth knowing:
- A malformed cron expression aborts the whole start-up rather than skipping
  that job, since `CronTrigger.from_crontab` in `start()` (scheduler.py:175)
  is not guarded.
- A completed cycle need not leave `last_updated_ts` greater. The code does
  not bound `job_run_lag_check`: with a negative lag, a record stamped in the
  future passes the check and its timestamp moves back
  (`NegativeLagMovesTimestampBack`). `TimestampAdvances` proves it does move
  forward when the lag is not negative and the clock does not go back.
- Nothing in the code writes RUNNING. The worker writes only what the job
  returns, and `list_map_dict`'s jobs return 0 or 2. So the RUNNING guard fires
  only for records set to RUNNING from outside.

## Model

| member | source | states |
|---|---|---|
| Models.LabelOf | batchproject/schedulerapp/models.py:4-8 | a code has a label exactly when some choice carries that code, and the label found is paired with it |
| Models.ChoiceLookups | batchproject/schedulerapp/models.py:4-8 | with distinct codes, the label found for a declared code is the one declared with it |
| Models.StatusChoicesExact | batchproject/schedulerapp/models.py:4-8 | the valid status codes are exactly 0, 1 and 2, labelled COMPLETED, RUNNING and FAILED, with no code or label repeated |
| Models.NewBatchJob | batchproject/schedulerapp/models.py:11-19 | a new record keeps every field the caller gives (id, lag, status, name, cron, content, enabled, timestamp); left out, it is enabled, has no content, an empty name and cron, and is stamped with its creation time |
| Decimal.IntToStringRoundTrip | batchproject/schedulerapp/models.py:22 | the decimal text of an integer parses back to the same integer |
| Models.Str | batchproject/schedulerapp/models.py:21-22 | the rendering is the id, the name, the status code and the timestamp text in that order, each after a single space: the first word parses back to the id, the name follows it after one space, and the text ends with a space, the status code, a space and the timestamp |
| Scheduler.Lookup | batchproject/schedulerapp/scheduler.py:18-29 | the lookup returns None exactly when the id is absent, otherwise the stored record, whose own id is the one asked for |
| Scheduler.WriteBack | batchproject/schedulerapp/scheduler.py:43-45 | write-back sets status, content and timestamp, and leaves id, name, enabled, cron and lag unchanged |
| Scheduler.UpdateJob | batchproject/schedulerapp/scheduler.py:32-50 | succeeds exactly when the id exists and the content serializes; on failure the store is unchanged; on success only that record changes; the primary-key invariant is kept |
| Scheduler.TruncSeconds | batchproject/schedulerapp/scheduler.py:84-86 | elapsed microseconds become whole seconds truncated toward zero, bounded on both sides for either sign |
| Scheduler.PreliminaryCheck | batchproject/schedulerapp/scheduler.py:53-91 | permission implies both fetches found the record, the first fetch shows it enabled and not RUNNING, and more than the lag in microseconds has elapsed since the second fetch's timestamp |
| Scheduler.JobStore.DoJobUpdate | batchproject/schedulerapp/scheduler.py:32-50 | the in-place update returns and leaves exactly what UpdateJob gives, and keeps the primary-key invariant |
| Scheduler.TotalSleep | batchproject/schedulerapp/scheduler.py:73-76 | pauses of 5 to 20 seconds each add up to between 5 and 20 seconds per pause |
| Scheduler.JobStore.DoBatchPreliminaryCheck | batchproject/schedulerapp/scheduler.py:53-91 | the answer is PreliminaryCheck of two fetches of the store; the time slept is 0 when the first fetch is missing, disabled or RUNNING, and otherwise the sum of the three draws, between 15 and 60 seconds |
| Scheduler.WorkerStep | batchproject/schedulerapp/scheduler.py:94-113 | a missing job, a refused check and an unregistered job each give their own outcome and no write; otherwise the job runs and reports its registered status; the store changes only on a successful write-back; when the check passes, the job is registered and the content serializes, the record is written with that status, the content and the write time |
| Scheduler.JobStore.BatchJobWorker | batchproject/schedulerapp/scheduler.py:94-113 | the outcome and the new store are exactly WorkerStep of the old store; the primary-key invariant is kept |
| SchedulerProperties.UpdateThenLookup | batchproject/schedulerapp/scheduler.py:40-47 | after a successful update, the lookup shows the given status, the serialized content and the new timestamp over the old name, enabled, cron and lag; other ids look the same |
| SchedulerProperties.DisabledDenies | batchproject/schedulerapp/scheduler.py:62-66 | a job disabled on the first fetch is refused, whatever its status, timestamp or second fetch |
| SchedulerProperties.RunningDenies | batchproject/schedulerapp/scheduler.py:67-70 | a job with status 1 on the first fetch is refused |
| SchedulerProperties.MissingRecordDenies | batchproject/schedulerapp/scheduler.py:61-62 | a record missing on either fetch is refused |
| SchedulerProperties.LagBoundary | batchproject/schedulerapp/scheduler.py:77-91 | after the first-fetch gates, permission holds exactly when elapsed whole seconds exceed the lag; equality refuses; in microseconds, exactly when at least lag + 1 seconds elapsed for a lag of 0 or more, and more than lag seconds for a negative lag |
| SchedulerProperties.SnapshotsReadSeparately | batchproject/schedulerapp/scheduler.py:62-87 | the second fetch's enabled flag and status do not affect the decision, and neither do the first fetch's timestamp and lag |
| SchedulerProperties.HalfSecondAheadTruncatesToZero | batchproject/schedulerapp/scheduler.py:84-86 | a record stamped half a second ahead has 0 elapsed seconds, and a lag of -1 admits it |
| SchedulerProperties.ListMapDictStatuses | batchproject/schedulerapp/scheduler.py:159-163 | the registry holds jobs 1, 2 and 3; 1 and 3 return COMPLETED, 2 returns FAILED; none returns RUNNING or an invalid code |
| SchedulerProperties.WorkerKeepsPrimaryKey | batchproject/schedulerapp/scheduler.py:94-113 | every record stays stored under its own id after the worker |
| SchedulerProperties.WorkerNeverWritesRunning | batchproject/schedulerapp/scheduler.py:109-112 | with jobs that never return 1, the worker leaves no record RUNNING that was not |
| SchedulerProperties.ListMapDictKeepsStatusesValid | batchproject/schedulerapp/scheduler.py:106-163 | run with list_map_dict, the worker keeps every stored status a declared code and makes no record RUNNING |
| SchedulerProperties.TimestampAdvances | batchproject/schedulerapp/scheduler.py:84-112 | with a lag of 0 or more and a write no earlier than the check, a completed cycle stores the job's status and a strictly later timestamp |
| SchedulerProperties.NegativeLagMovesTimestampBack | batchproject/schedulerapp/scheduler.py:86 | with a negative lag, a record stamped two seconds ahead runs and its timestamp moves back |
| SchedulerProperties.LagThrottlesNextRun | batchproject/schedulerapp/scheduler.py:77-87 | after a write-back, a fire that sees no more than the lag elapsed since it is refused and writes nothing |
| SchedulerProperties.IdleJobNeverWritten | batchproject/schedulerapp/scheduler.py:62-70 | a missing, disabled or RUNNING job is never written, however many times it fires |
| SchedulerProperties.ScenarioDueJobRuns | batchproject/schedulerapp/scheduler.py:106-127 | job 1, last updated ten minutes ago with a 300-second lag, runs and ends COMPLETED with content and the new timestamp |
| SchedulerProperties.ScenarioRunningJobSkipped | batchproject/schedulerapp/scheduler.py:67-70 | job 2 marked RUNNING is refused and nothing is written |
| SchedulerProperties.ScenarioRecentJobSkipped | batchproject/schedulerapp/scheduler.py:84-87 | job 3, updated two seconds ago with a 300-second lag, is refused and nothing is written |

## Left out

- `start()` (scheduler.py:166-181): the APScheduler background scheduler, cron parsing, the full table scan and the `atexit` shutdown hook. They wrap a library that is not part of this model, and they run on threads. An unguarded `CronTrigger.from_crontab` aborts start-up on one malformed expression. That behaviour is not modelled.
- The three `time.sleep(random.randint(5, 20))` pauses are kept only as ghost draws. Their total is bounded, but no time passes in the model.
- Concurrency between nodes. `PreliminaryCheck` takes both fetches as inputs, so a record changed between them can be stated. The `JobStore` methods and `WorkerStep` assume no other writer, so both fetches see the same record. The race after the check is not modelled.
- Scheduler.JobStore.DoJobUpdate: does not model `save()` or a lookup failing for database reasons. Only a missing id or unserializable content make it return False.
- `json.dumps` is the parameter `serialize`. Its output format is not modelled.
- The bodies of `batch_job_1..3` (sleeps, random counts, elapsed time) are not modelled. The registry keeps the status each returns, and the content of a run is a parameter.
- Models.Str: the timestamp's text form (`str` of an aware datetime) is a parameter, not derived from the integer timestamp.
- Timestamps are integer microseconds, so mixing naive and aware datetimes (a TypeError, refused by the check) is not modelled. `total_seconds()` float rounding for spans over about 285 years is not modelled either.
- Logging and `socket.gethostname()`.
- Django field options that do not constrain stored values: `choices` is not enforced on save, so any integer status is stored as given. The `max_length` of `job_content` does not apply to a text column.
- `admin.py` (admin list columns) and `views.py` (an HTML view whose status-label dict repeats `STATUS_CHOICES`): presentation only.
