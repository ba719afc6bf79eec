/** What the client derives from a job's status: the progress percentage,
    the terminal/non-terminal classification, the outcome of showing one
    status response, and how long the batch status poller keeps going. */
module JobStatus {
  import opened Common

  const Completed := "completed"
  const Failed := "failed"
  const JobNotFound := "Job not found"

  /** A job's status snapshot as the status endpoint returns it. The status
      is any string; `totalMcNumbers` and `processedCount` are whatever the
      server sends (the client does not check them). */
  datatype Snapshot = Snapshot(
    jobId: string,
    status: string,
    totalMcNumbers: int,
    processedCount: int,
    failedCount: int,
    completedAt: Option<string>,
    errorMessage: Option<string>)

  /** One answer to `GET /extract-status/{jobId}`: a snapshot with a success
      code (its body an object whose `status` is a string), a failure code
      whose body is an object that may carry `detail`, or `Rejected` for any
      answer that makes the handler throw, with the error's message. Besides
      a rejected request or body read, that covers a success body of `null`
      (reading `total_mc_numbers` throws), a success body whose `status` is
      absent, `null` or not a string (`status.toUpperCase()` throws), and a
      failure body of `null` (reading `detail` throws, so the message is the
      error's and not 'Job not found'). The catch leaves `#job-actions` as
      it was. */
  datatype StatusResponse =
    | Success(snapshot: Snapshot)
    | Refused(detail: Option<string>)
    | Rejected(message: string)

  /** `total > 0 ? Math.round(processed / total * 100) : 0` in exact
      arithmetic: for a positive total, `(200p + t) div (2t)` is
      `floor(100p/t + 1/2)`, which is `Math.round` of `100p/t`. */
  function Progress(processed: int, total: int): (r: int)
  {
    if total > 0 then (200 * processed + total) / (2 * total) else 0
  }

  /** The percentage is `100 * processed / total` rounded to the nearest
      integer, halves rounding up: `r - 1/2 <= 100p/t < r + 1/2`. */
  lemma ProgressRounds(processed: int, total: int)
    requires total > 0
    ensures var r := Progress(processed, total);
      2 * total * r <= 200 * processed + total < 2 * total * r + 2 * total
  {
    var r := Progress(processed, total);
    var n := 200 * processed + total;
    var d := 2 * total;
    assert n == d * (n / d) + n % d;
  }

  /** With no work to do the percentage is 0, whatever has been processed. */
  lemma ProgressZeroTotal(processed: int, total: int)
    requires total <= 0
    ensures Progress(processed, total) == 0
  {
  }

  /** Multiplying by a positive number keeps an order. */
  lemma MulMonotonic(a: int, b: int, c: int)
    requires a > 0 && b <= c
    ensures a * b <= a * c
  {
    assert a * c - a * b == a * (c - b);
  }

  /** For a consistent snapshot the percentage lies in [0, 100], is 0 when
      nothing was processed and 100 when everything was. */
  lemma ProgressBounded(processed: int, total: int)
    requires 0 <= processed <= total
    ensures 0 <= Progress(processed, total) <= 100
    ensures processed == 0 ==> Progress(processed, total) == 0
    ensures 0 < total == processed ==> Progress(processed, total) == 100
  {
    if total > 0 {
      ProgressRounds(processed, total);
      var r := Progress(processed, total);
      MulMonotonic(200, processed, total);
      if r < 0 {
        MulMonotonic(2 * total, r, -1);
      }
      if r > 100 {
        MulMonotonic(2 * total, 101, r);
      }
      if processed == 0 && r >= 1 {
        MulMonotonic(2 * total, 1, r);
      }
      if processed == total && r < 100 {
        MulMonotonic(2 * total, r, 99);
      }
    }
  }

  /** More work processed never shows a smaller percentage. */
  lemma ProgressMonotonic(p: int, q: int, total: int)
    requires p <= q
    ensures Progress(p, total) <= Progress(q, total)
  {
    if total > 0 {
      ProgressRounds(p, total);
      ProgressRounds(q, total);
      var a, b := Progress(p, total), Progress(q, total);
      if a > b {
        MulMonotonic(2 * total, b + 1, a);
      }
    }
  }

  /** 'completed' and 'failed' end a job; any other string does not. */
  predicate IsTerminal(status: string)
  {
    status == Completed || status == Failed
  }

  /** How the download block `job-actions` is updated by one status view:
      left as it is, shown and tagged with a job id, or hidden. */
  datatype ActionsUpdate = Unchanged | ShowFor(jobId: string) | Hide

  /** What takes the place of the status panel. */
  datatype Panel =
    | ErrorPanel(message: string)
    | JobPanel(progress: int, errorNote: Option<string>, completedAt: Option<string>)

  datatype StatusView = StatusView(panel: Panel, actions: ActionsUpdate)

  /** `showJobStatus(jobId)` after the response has arrived. A failure code
      shows `detail`, or 'Job not found' when there is none; a rejected request
      shows its message; neither touches the download block. A snapshot shows
      its progress, its error message and completion time when present, and
      shows the download block, tagged with the requested `jobId`, exactly
      when the status is 'completed'. */
  function ShowJobStatus(jobId: string, response: StatusResponse): (v: StatusView)
    ensures response.Refused? ==> v == StatusView(ErrorPanel(OrDefault(response.detail, JobNotFound)), Unchanged)
    ensures response.Rejected? ==> v == StatusView(ErrorPanel(response.message), Unchanged)
    ensures response.Success? ==>
      && v.panel.JobPanel?
      && v.panel.progress == Progress(response.snapshot.processedCount, response.snapshot.totalMcNumbers)
      && (v.panel.errorNote.Some? <==> Truthy(response.snapshot.errorMessage))
      && (Truthy(response.snapshot.errorMessage) ==> v.panel.errorNote == response.snapshot.errorMessage)
      && (v.panel.completedAt.Some? <==> Truthy(response.snapshot.completedAt))
      && (Truthy(response.snapshot.completedAt) ==> v.panel.completedAt == response.snapshot.completedAt)
    ensures response.Success? ==> (v.actions == ShowFor(jobId) <==> response.snapshot.status == Completed)
    ensures response.Success? ==> (v.actions == Hide <==> response.snapshot.status != Completed)
  {
    match response
    case Refused(detail) => StatusView(ErrorPanel(OrDefault(detail, JobNotFound)), Unchanged)
    case Rejected(message) => StatusView(ErrorPanel(message), Unchanged)
    case Success(s) =>
      var note := if Truthy(s.errorMessage) then s.errorMessage else None;
      var done := if Truthy(s.completedAt) then s.completedAt else None;
      StatusView(JobPanel(Progress(s.processedCount, s.totalMcNumbers), note, done),
                 if s.status == Completed then ShowFor(jobId) else Hide)
  }

  /** Download actions are only ever offered for a job in a terminal state,
      and an error view never carries a message that is empty. */
  lemma ShowJobStatusActionsTerminal(jobId: string, response: StatusResponse)
    ensures ShowJobStatus(jobId, response).actions.ShowFor? ==>
      response.Success? && IsTerminal(response.snapshot.status)
    ensures response.Refused? ==> ShowJobStatus(jobId, response).panel.message != ""
  {
  }

  /** A worked example: 50 of 200 processed shows 25%, not terminal. */
  lemma ExampleProgress()
    ensures Progress(50, 200) == 25 && !IsTerminal("processing")
  {
  }

  /** One answer the batch status poller receives: a parsed JSON body, whose
      `status` is absent (`undefined`) when the body has none, or
      `BatchRejected` for any answer that makes the handler throw: a rejected
      request or body read, a `null` body (reading its fields throws), or a
      matched status element without its `.progress-fill` or `.status`
      child. `updateBatchStatus` never looks at the HTTP status code, so an
      error answer with a JSON object body is a `BatchStatus` too. */
  datatype BatchResponse = BatchStatus(status: Option<string>) | BatchRejected

  /** `updateBatchStatus` schedules a further poll exactly when it read a
      body whose status is neither 'completed' nor 'failed' (an absent status
      included); an answer that makes the handler throw is logged by the
      catch and ends the polling. */
  predicate Reschedules(response: BatchResponse)
  {
    response.BatchStatus? && !(response.status.Some? && IsTerminal(response.status.value))
  }

  /** The number of status requests a batch poller makes when the server's
      answers, in order, are `responses` (a finite prefix of them: the count
      stops at its end). */
  function BatchPolls(responses: seq<BatchResponse>): (n: nat)
    ensures n <= |responses|
    ensures responses != [] ==> n >= 1
    decreases |responses|
  {
    if responses == [] then 0
    else if Reschedules(responses[0]) then 1 + BatchPolls(responses[1..])
    else 1
  }

  /** The poller stops at the first answer that does not reschedule: every
      answer before the last one polled rescheduled, and when it stopped
      before the end of the answers, the last one polled did not; while every
      answer reschedules, it polls them all. */
  lemma {:induction false} BatchPollsStopAtFirstTerminal(responses: seq<BatchResponse>)
    ensures var n := BatchPolls(responses);
      (forall i :: 0 <= i < n - 1 ==> Reschedules(responses[i]))
      && (0 < n < |responses| ==> !Reschedules(responses[n - 1]))
      && ((forall i :: 0 <= i < |responses| ==> Reschedules(responses[i])) ==> n == |responses|)
    decreases |responses|
  {
    if responses != [] && Reschedules(responses[0]) {
      BatchPollsStopAtFirstTerminal(responses[1..]);
      var n := BatchPolls(responses);
      assert forall i :: 1 <= i < n - 1 ==> responses[i] == responses[1..][i - 1];
    }
  }

  /** Statuses 'processing' then 'completed': exactly two polls, whatever the
      server would have answered afterwards. */
  lemma BatchPollsProcessingThenCompleted(rest: seq<BatchResponse>)
    ensures BatchPolls([BatchStatus(Some("processing")), BatchStatus(Some(Completed))] + rest) == 2
  {
    var rs := [BatchStatus(Some("processing")), BatchStatus(Some(Completed))] + rest;
    assert rs[1..] == [BatchStatus(Some(Completed))] + rest;
  }

  /** Error bodies without a status keep the poller going: answered only
      with them, it polls every one of them. */
  lemma ErrorBodiesKeepPolling(responses: seq<BatchResponse>)
    requires forall i :: 0 <= i < |responses| ==> responses[i] == BatchStatus(None)
    ensures BatchPolls(responses) == |responses|
  {
    BatchPollsStopAtFirstTerminal(responses);
  }
}
