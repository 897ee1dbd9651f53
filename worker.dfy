/**
 * The local worker, `worker_main`: it polls the job API, reports RUNNING for
 * every job it picks up, downloads the job's sheet, runs a fresh bot on it
 * and reports COMPLETED or FAILED together with the updated sheet. It stops
 * once `MaxPolls` polls in a row have found no job.
 *
 * The API and the file system are inputs: the answers to the polls are a
 * finite script, the downloaded bytes come with each job, and decoding the
 * bytes into a sheet is a parameter.
 */
module JobWorker {
  import opened Schema
  import opened Sheet
  import opened RowLedger
  import ItemProcessor
  import opened BatchRunner

  /** `MAX_POLLS`: consecutive empty polls after which the worker stops. */
  const MaxPolls: nat := 1000

  type byte = bv8

  /** A decoded sheet: every row has one cell per column. */
  type Frame = t: Table | WellFormed(t) witness Table([], [])

  /** The spreadsheet reader: the frame the bytes decode to, or `None` when no reader accepts them. */
  type Decoder = seq<byte> -> Option<Frame>

  /** One job as the API offers it; `file` is what the download returned (`None` on any download error). */
  datatype Job = Job(id: string, file: Option<seq<byte>>, session: Session, oracle: Oracle)

  /** The answer to one poll of the pending-jobs endpoint. */
  datatype Poll = NoJob | Offered(job: Job)

  datatype JobStatus = Running | Completed | Failed

  /** The `summary` sent with a status update. */
  datatype Note = PickedUp | DownloadFailed | RunSummary(summary: Summary)

  /** One call of `update_job_status`; `file` is the uploaded sheet, if any. */
  datatype StatusUpdate = StatusUpdate(jobId: string, status: JobStatus, note: Note, file: Option<Table>)

  /**
   * The worker's state between polls: the next script position, the count
   * of empty polls since the last job that ran, the status updates sent,
   * the headless flag of every bot run, and whether the first-run marker
   * exists.
   */
  datatype WorkerState = WorkerState(next: nat, pollCount: nat, updates: seq<StatusUpdate>,
                                     headless: seq<bool>, marker: bool)

  /** A run's exit code 0 (something posted) or 4 (nothing to do) completes the job; any other fails it. */
  function FinalStatus(code: int): (s: JobStatus)
    ensures s != Running
    ensures s == Completed <==> code == 0 || code == 4
  {
    if code == 0 then Completed
    else if code == 4 then Completed
    else Failed
  }

  /** The sheet handed to the bot: the decoded frame, if the bytes decode at all. */
  function Decoded(decode: Decoder, bytes: seq<byte>): (sheet: Option<Table>)
    ensures sheet.Some? ==> WellFormed(sheet.value)
    ensures sheet.Some? <==> decode(bytes).Some?
  {
    match decode(bytes)
    case None => None
    case Some(f) => Some(f)
  }

  /** The download produced something to run on: neither an error nor empty bytes. */
  predicate Downloaded(job: Job) {
    job.file.Some? && |job.file.value| > 0
  }

  /** What a job's bot run returns. */
  function JobRun(decode: Decoder, job: Job): (rr: RunResult)
    requires Downloaded(job)
    ensures rr.code in {0, 1, 2, 3, 4}
    ensures rr.ledger.Some? <==> job.session.driverStarts && job.session.loginConfirmed && decode(job.file.value).Some?
    ensures rr.ledger.Some? ==> WellFormed(rr.ledger.value)
  {
    RunSpec(Decoded(decode, job.file.value), job.session, job.oracle)
  }

  /** The terminal update of a job: the status it ends with, the note and the uploaded sheet. */
  function Terminal(decode: Decoder, job: Job): (u: StatusUpdate)
    ensures u.jobId == job.id && u.status != Running
    ensures u.file.Some? ==> Downloaded(job) && WellFormed(u.file.value)
  {
    if Downloaded(job) then
      var rr := JobRun(decode, job);
      StatusUpdate(job.id, FinalStatus(rr.code), RunSummary(rr.summary), rr.ledger)
    else StatusUpdate(job.id, Failed, DownloadFailed, None)
  }

  /** How a job picked up ends: its terminal status update. */
  type Runner = Job -> StatusUpdate

  /** Jobs end as `Terminal` says: the download, and if that worked, the run of a fresh bot. */
  function Reporter(decode: Decoder): Runner {
    (job: Job) => Terminal(decode, job)
  }

  /** A runner whose every terminal update is COMPLETED or FAILED and carries the job's own id. */
  ghost predicate Reports(run: Runner) {
    forall job :: run(job).jobId == job.id && run(job).status != Running
  }

  /** One pass of the polling loop on the next scripted answer. */
  function Step(polls: seq<Poll>, run: Runner, firstRun: bool, s: WorkerState): (w: WorkerState)
    requires s.next < |polls|
    ensures w.next == s.next + 1
    ensures s.updates <= w.updates && |w.updates| <= |s.updates| + 2
    ensures s.headless <= w.headless && (s.marker ==> w.marker)
  {
    match polls[s.next]
    case NoJob => s.(next := s.next + 1, pollCount := s.pollCount + 1)
    case Offered(job) =>
      var reported := s.updates + [StatusUpdate(job.id, Running, PickedUp, None), run(job)];
      if !Downloaded(job) then s.(next := s.next + 1, updates := reported)
      else
        s.(next := s.next + 1, pollCount := 0, updates := reported,
           headless := s.headless + [!firstRun], marker := s.marker || firstRun)
  }

  /** The polling loop from state `s` on, until the script ends or `MaxPolls` empty polls have been counted. */
  function Worker(polls: seq<Poll>, run: Runner, firstRun: bool, s: WorkerState): (w: WorkerState)
    ensures w.next >= |polls| || w.pollCount >= MaxPolls
    ensures s.next <= w.next && s.updates <= w.updates && s.headless <= w.headless && (s.marker ==> w.marker)
    decreases |polls| - s.next
  {
    if s.next >= |polls| || s.pollCount >= MaxPolls then s
    else Worker(polls, run, firstRun, Step(polls, run, firstRun, s))
  }

  /** The state `worker_main` starts in: the marker decides whether this is the first run. */
  function Start(markerExists: bool): WorkerState {
    WorkerState(0, 0, [], [], markerExists)
  }

  /**
   * Everything after a job's RUNNING update: FAILED when the download
   * failed; otherwise a fresh bot runs on the decoded sheet, its exit code
   * decides the final status, and its ledger, if it ever got one, is the
   * file uploaded with it.
   */
  method FinishJob(decode: Decoder, job: Job) returns (final: StatusUpdate)
    ensures final == Terminal(decode, job)
  {
    if job.file.None? || |job.file.value| == 0 {
      return StatusUpdate(job.id, Failed, DownloadFailed, None);
    }
    var bot := new Bot();
    var code, summary := bot.Run(Decoded(decode, job.file.value), job.session, job.oracle);
    var file := if bot.ledger.loaded then Some(bot.ledger.Snapshot()) else None;
    final := StatusUpdate(job.id, FinalStatus(code), RunSummary(summary), file);
  }

  /**
   * `worker_main`: polls until the script ends or `MaxPolls` empty polls in
   * a row have been counted; each job is reported RUNNING and then finished
   * by `FinishJob`; a job that ran resets the count, ran headless unless
   * this is the first run, and on a first run leaves the marker behind.
   */
  method WorkerMain(polls: seq<Poll>, decode: Decoder, markerExists: bool)
    returns (updates: seq<StatusUpdate>, headless: seq<bool>, marker: bool, pollCount: nat)
    ensures var w := Worker(polls, Reporter(decode), !markerExists, Start(markerExists));
            updates == w.updates && headless == w.headless && marker == w.marker && pollCount == w.pollCount
  {
    var firstRun := !markerExists;
    marker := markerExists;
    updates, headless, pollCount := [], [], 0;
    var next := 0;
    while next < |polls| && pollCount < MaxPolls
      invariant next <= |polls|
      invariant Worker(polls, Reporter(decode), firstRun, WorkerState(next, pollCount, updates, headless, marker))
                == Worker(polls, Reporter(decode), firstRun, Start(markerExists))
      decreases |polls| - next
    {
      ghost var s := WorkerState(next, pollCount, updates, headless, marker);
      match polls[next] {
        case NoJob =>
          pollCount := pollCount + 1;
        case Offered(job) =>
          updates := updates + [StatusUpdate(job.id, Running, PickedUp, None)];
          var final := FinishJob(decode, job);
          updates := updates + [final];
          if Downloaded(job) {
            headless := headless + [!firstRun];
            if firstRun {
              marker := true;
            }
            pollCount := 0;
          }
      }
      next := next + 1;
      StepEffect(polls, Reporter(decode), firstRun, s);
      assert WorkerState(next, pollCount, updates, headless, marker) == Step(polls, Reporter(decode), firstRun, s);
    }
  }

  /**
   * One poll: an empty poll counts one more empty poll; a job is reported
   * RUNNING and then gets its terminal update; only a job that ran resets
   * the count, runs a bot (headless unless this is the first run) and
   * leaves the first-run marker behind.
   */
  lemma StepEffect(polls: seq<Poll>, run: Runner, firstRun: bool, s: WorkerState)
    requires s.next < |polls|
    ensures Step(polls, run, firstRun, s).next == s.next + 1
    ensures polls[s.next].NoJob? ==>
              Step(polls, run, firstRun, s) == s.(next := s.next + 1, pollCount := s.pollCount + 1)
    ensures polls[s.next].Offered? ==>
              var job := polls[s.next].job;
              Step(polls, run, firstRun, s).updates
                == s.updates + [StatusUpdate(job.id, Running, PickedUp, None), run(job)]
    ensures polls[s.next].Offered? && !Downloaded(polls[s.next].job) ==>
              Step(polls, run, firstRun, s).pollCount == s.pollCount
              && Step(polls, run, firstRun, s).headless == s.headless
              && Step(polls, run, firstRun, s).marker == s.marker
    ensures polls[s.next].Offered? && Downloaded(polls[s.next].job) ==>
              Step(polls, run, firstRun, s).pollCount == 0
              && Step(polls, run, firstRun, s).headless == s.headless + [!firstRun]
              && Step(polls, run, firstRun, s).marker == (s.marker || firstRun)
  {
  }

  /**
   * A job's terminal update: FAILED when the download failed; otherwise
   * COMPLETED exactly when the run's exit code is 0 or 4, and a sheet is
   * uploaded exactly when the bot got as far as decoding one, that is when
   * the session came up and the bytes decoded.
   */
  lemma TerminalStatus(decode: Decoder, job: Job)
    ensures Terminal(decode, job).jobId == job.id && Terminal(decode, job).status != Running
    ensures !Downloaded(job) ==> Terminal(decode, job).status == Failed && Terminal(decode, job).file == None
    ensures Downloaded(job) ==>
              (Terminal(decode, job).status == Completed <==> JobRun(decode, job).code in {0, 4})
    ensures Downloaded(job) ==>
              (Terminal(decode, job).file.Some? <==>
                 job.session.driverStarts && job.session.loginConfirmed && decode(job.file.value).Some?)
    ensures Terminal(decode, job).file.Some? ==> WellFormed(Terminal(decode, job).file.value)
  {
  }

  /** The worker's own runner ends every job COMPLETED or FAILED under the job's id. */
  lemma ReporterReports(decode: Decoder)
    ensures Reports(Reporter(decode))
  {
    forall job
      ensures Reporter(decode)(job).jobId == job.id && Reporter(decode)(job).status != Running
    {
      TerminalStatus(decode, job);
    }
  }

  /**
   * A job completes exactly when its sheet ran with at least one post made
   * or with nothing to do; every failure before the first item, and a batch
   * in which nothing posted, fails it.
   */
  lemma CompletedIff(decode: Decoder, job: Job)
    requires Downloaded(job)
    ensures var rr := JobRun(decode, job);
            Terminal(decode, job).status == Completed <==>
              (exists i :: 0 <= i < |rr.outcomes| && rr.outcomes[i].status == ItemProcessor.Success)
              || (job.session.driverStarts && job.session.loginConfirmed && decode(job.file.value).Some?
                  && LoadSheet(decode(job.file.value).value).Ready? && |LoadSheet(decode(job.file.value).value).work| == 0)
  {
    var sheet := Decoded(decode, job.file.value);
    RunCodes(sheet, job.session, job.oracle);
  }

  /**
   * The status updates sent so far split into consecutive pairs, one per
   * job: a RUNNING update without a file, then a terminal update (COMPLETED
   * or FAILED) for the same job id.
   */
  predicate Paired(u: seq<StatusUpdate>)
    decreases |u|
  {
    if |u| == 0 then true
    else
      |u| >= 2 && Paired(u[..|u| - 2])
      && u[|u| - 2].status == Running && u[|u| - 2].note == PickedUp && u[|u| - 2].file == None
      && u[|u| - 1].status != Running && u[|u| - 1].jobId == u[|u| - 2].jobId
  }

  lemma PairedAppend(u: seq<StatusUpdate>, job: Job, final: StatusUpdate)
    requires Paired(u)
    requires final.jobId == job.id && final.status != Running
    ensures Paired(u + [StatusUpdate(job.id, Running, PickedUp, None), final])
  {
    var v := u + [StatusUpdate(job.id, Running, PickedUp, None), final];
    assert v[..|v| - 2] == u;
  }

  /** The loop keeps the updates paired and only ever appends to them. */
  lemma {:induction false} WorkerPaired(polls: seq<Poll>, run: Runner, firstRun: bool, s: WorkerState)
    requires Reports(run) && Paired(s.updates)
    ensures Paired(Worker(polls, run, firstRun, s).updates)
    ensures s.updates <= Worker(polls, run, firstRun, s).updates
    decreases |polls| - s.next
  {
    if s.next < |polls| && s.pollCount < MaxPolls {
      StepEffect(polls, run, firstRun, s);
      if polls[s.next].Offered? {
        PairedAppend(s.updates, polls[s.next].job, run(polls[s.next].job));
      }
      WorkerPaired(polls, run, firstRun, Step(polls, run, firstRun, s));
    }
  }

  /**
   * The loop never leaves the empty-poll count above `MaxPolls`, and stops
   * before the script ends only when the count has reached `MaxPolls`.
   */
  lemma {:induction false} WorkerPolls(polls: seq<Poll>, run: Runner, firstRun: bool, s: WorkerState)
    requires s.pollCount <= MaxPolls && s.next <= |polls|
    ensures var w := Worker(polls, run, firstRun, s);
            w.pollCount <= MaxPolls && s.next <= w.next <= |polls|
            && (w.next < |polls| ==> w.pollCount == MaxPolls)
    decreases |polls| - s.next
  {
    if s.next < |polls| && s.pollCount < MaxPolls {
      WorkerPolls(polls, run, firstRun, Step(polls, run, firstRun, s));
    }
  }

  /**
   * Every bot of one worker session runs headless exactly when the marker
   * existed at start-up, and the marker exists at the end exactly when it
   * existed at start-up or some job ran.
   */
  lemma {:induction false} HeadlessAndMarker(polls: seq<Poll>, run: Runner, firstRun: bool, s: WorkerState)
    requires forall i :: 0 <= i < |s.headless| ==> s.headless[i] == !firstRun
    ensures var w := Worker(polls, run, firstRun, s);
            (forall i :: 0 <= i < |w.headless| ==> w.headless[i] == !firstRun)
            && |s.headless| <= |w.headless|
            && w.marker == (s.marker || (firstRun && |w.headless| > |s.headless|))
    decreases |polls| - s.next
  {
    if s.next < |polls| && s.pollCount < MaxPolls {
      StepEffect(polls, run, firstRun, s);
      HeadlessAndMarker(polls, run, firstRun, Step(polls, run, firstRun, s));
    }
  }

  /** What `worker_main` leaves behind for every script of poll answers. */
  lemma WorkerMainFacts(polls: seq<Poll>, decode: Decoder, markerExists: bool)
    ensures var w := Worker(polls, Reporter(decode), !markerExists, Start(markerExists));
            Paired(w.updates) && w.pollCount <= MaxPolls
            && (w.next < |polls| ==> w.pollCount == MaxPolls)
            && (forall i :: 0 <= i < |w.headless| ==> w.headless[i] == markerExists)
            && w.marker == (markerExists || |w.headless| > 0)
  {
    ReporterReports(decode);
    WorkerPaired(polls, Reporter(decode), !markerExists, Start(markerExists));
    WorkerPolls(polls, Reporter(decode), !markerExists, Start(markerExists));
    HeadlessAndMarker(polls, Reporter(decode), !markerExists, Start(markerExists));
  }

  /** From a count of `c` empty polls, a run of at least `MaxPolls - c` further empty polls stops the worker after exactly that many. */
  lemma {:induction false} EmptyPollsStop(polls: seq<Poll>, run: Runner, firstRun: bool, s: WorkerState)
    requires s.pollCount <= MaxPolls && s.next + (MaxPolls - s.pollCount) <= |polls|
    requires forall i :: s.next <= i < s.next + (MaxPolls - s.pollCount) ==> polls[i].NoJob?
    ensures Worker(polls, run, firstRun, s)
            == s.(next := s.next + (MaxPolls - s.pollCount), pollCount := MaxPolls)
    decreases MaxPolls - s.pollCount
  {
    if s.pollCount < MaxPolls {
      EmptyPollsStop(polls, run, firstRun, Step(polls, run, firstRun, s));
    }
  }

  /** A worker that finds no job at all stops after exactly `MaxPolls` polls and sends nothing. */
  lemma NoJobsStopAtMaxPolls(polls: seq<Poll>, decode: Decoder, markerExists: bool)
    requires |polls| >= MaxPolls
    requires forall i :: 0 <= i < |polls| ==> polls[i] == NoJob
    ensures Worker(polls, Reporter(decode), !markerExists, Start(markerExists))
            == WorkerState(MaxPolls, MaxPolls, [], [], markerExists)
  {
    EmptyPollsStop(polls, Reporter(decode), !markerExists, Start(markerExists));
  }
}
