/**
 * The `BatchJob` record of the scheduler app: its status enumeration, its
 * field defaults and its text rendering.
 */
module Models {
  import opened Wrappers
  import Decimal

  const COMPLETED: int := 0
  const RUNNING: int := 1
  const FAILED: int := 2

  /** STATUS_CHOICES: each stored status code with its label, in declaration order. */
  const StatusChoices: seq<(int, string)> := [(COMPLETED, "COMPLETED"), (RUNNING, "RUNNING"), (FAILED, "FAILED")]

  /** No code and no label appears twice in a choices list. */
  predicate DistinctChoices(choices: seq<(int, string)>) {
    forall i, j :: 0 <= i < j < |choices| ==> choices[i].0 != choices[j].0 && choices[i].1 != choices[j].1
  }

  /** The label a choices list gives a code (the first match), if any. */
  function LabelOf(choices: seq<(int, string)>, code: int): (r: Option<string>)
    ensures r.Some? <==> exists i :: 0 <= i < |choices| && choices[i].0 == code
    ensures r.Some? ==> exists i :: 0 <= i < |choices| && choices[i] == (code, r.value)
  {
    if choices == [] then None
    else if choices[0].0 == code then Some(choices[0].1)
    else
      var r := LabelOf(choices[1..], code);
      assert forall i :: 0 < i < |choices| ==> choices[i] == choices[1..][i - 1];
      r
  }

  /** No code appears twice in a choices list. */
  predicate DistinctCodes(choices: seq<(int, string)>) {
    forall i, j :: 0 <= i < j < |choices| ==> choices[i].0 != choices[j].0
  }

  /** With distinct codes, the label found for a declared code is the one declared with it. */
  lemma ChoiceLookups(choices: seq<(int, string)>, k: nat)
    requires DistinctCodes(choices) && k < |choices|
    ensures LabelOf(choices, choices[k].0) == Some(choices[k].1)
  {
  }

  /** The label STATUS_CHOICES gives a status code. */
  function StatusLabel(code: int): Option<string> {
    LabelOf(StatusChoices, code)
  }

  /** A status code that STATUS_CHOICES declares. */
  predicate IsValidStatus(code: int) {
    StatusLabel(code).Some?
  }

  /** The valid codes are exactly 0 (COMPLETED), 1 (RUNNING) and 2 (FAILED), each with one label. */
  lemma StatusChoicesExact(code: int)
    ensures IsValidStatus(code) <==> code == COMPLETED || code == RUNNING || code == FAILED
    ensures StatusLabel(COMPLETED) == Some("COMPLETED")
    ensures StatusLabel(RUNNING) == Some("RUNNING")
    ensures StatusLabel(FAILED) == Some("FAILED")
    ensures DistinctChoices(StatusChoices)
  {
    ChoiceLookups(StatusChoices, 0);
    ChoiceLookups(StatusChoices, 1);
    ChoiceLookups(StatusChoices, 2);
  }

  /**
   * One row of the `batch_jobs` table. `job_id` is the primary key; timestamps
   * are microseconds since the epoch; `job_content` may be null.
   */
  datatype BatchJob = BatchJob(
    jobId: int,
    jobName: string,
    jobEnabled: bool,
    jobCron: string,
    jobRunLagCheck: int,
    jobStatus: int,
    jobContent: Option<string>,
    lastUpdatedTs: int)

  /**
   * A record created with the model's defaults for every field the caller
   * leaves out: an empty name and cron expression, enabled, no content, and
   * the creation time as the last-updated timestamp. The id, the lag check
   * and the status have no default and must be given.
   */
  function NewBatchJob(jobId: int, jobRunLagCheck: int, jobStatus: int, now: int,
                       jobName: Option<string> := None, jobEnabled: Option<bool> := None,
                       jobCron: Option<string> := None, jobContent: Option<string> := None,
                       lastUpdatedTs: Option<int> := None): (r: BatchJob)
    ensures r.jobId == jobId && r.jobRunLagCheck == jobRunLagCheck && r.jobStatus == jobStatus
    ensures jobEnabled.None? ==> r.jobEnabled
    ensures lastUpdatedTs.None? ==> r.lastUpdatedTs == now
    ensures jobName.None? ==> r.jobName == ""
    ensures jobCron.None? ==> r.jobCron == ""
    ensures jobEnabled.Some? ==> r.jobEnabled == jobEnabled.value
    ensures lastUpdatedTs.Some? ==> r.lastUpdatedTs == lastUpdatedTs.value
    ensures jobName.Some? ==> r.jobName == jobName.value
    ensures jobCron.Some? ==> r.jobCron == jobCron.value
    ensures r.jobContent == jobContent
  {
    BatchJob(jobId, jobName.GetOr(""), jobEnabled.GetOr(true), jobCron.GetOr(""),
             jobRunLagCheck, jobStatus, jobContent, lastUpdatedTs.GetOr(now))
  }

  /**
   * `__str__`: id, name, status code and timestamp, separated by single
   * spaces. The timestamp's text form is given by the caller. The id is the
   * first word and reads back as the id; then come a single space and the
   * name; the text ends with the status code and the timestamp, each after a
   * single space.
   */
  function Str(job: BatchJob, tsText: string): (r: string)
    ensures Decimal.ParseInt(Decimal.FirstWord(r)) == Some(job.jobId)
    ensures var tail := " " + Decimal.IntToString(job.jobStatus) + " " + tsText;
            |tail| <= |r| && r[|r| - |tail|..] == tail
    ensures var w := Decimal.FirstWord(r);
            var tail := " " + Decimal.IntToString(job.jobStatus) + " " + tsText;
            |w| + 1 + |tail| <= |r| && r[|w|] == ' ' && r[|w| + 1..|r| - |tail|] == job.jobName
  {
    var id := Decimal.IntToString(job.jobId);
    var rest := job.jobName + " " + Decimal.IntToString(job.jobStatus) + " " + tsText;
    Decimal.FirstWordOfJoin(id, rest);
    Decimal.IntToStringRoundTrip(job.jobId);
    id + " " + rest
  }
}
