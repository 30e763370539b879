/** The job manager (app/backend/pipeline/job_manager.py): submitted jobs
    wait in a queue; a worker takes them one at a time, runs the pipeline,
    saves the result and records the job's progress. */
module Jobs {
  import opened Wrappers
  import opened Models
  import opened Engine

  /** The status record of one job. */
  datatype JobStatus = JobStatus(
    jobId: string,
    status: string,
    progress: real,
    currentStep: string,
    logs: seq<string>,
    resultPath: Option<string>)

  /** `JobStatus(job_id=…)`: queued, no progress, no logs, no result. */
  function NewJobStatus(jobId: string): (s: JobStatus)
    ensures s.jobId == jobId && s.status == "queued" && s.progress == 0.0 && s.currentStep == "queued"
    ensures s.logs == [] && s.resultPath == None
  {
    JobStatus(jobId, "queued", 0.0, "queued", [], None)
  }

  /** The queued request: the arguments of `run_pipeline`. */
  datatype JobRequest = JobRequest(
    jobId: string,
    videoPath: string,
    language: string,
    numSpeakers: Option<int>,
    packName: Option<string>,
    verify: bool)

  /** The `ValueError` `submit` raises, given whether the video file exists
      and its size in bytes: a missing file is reported before an empty one. */
  function SubmitError(videoPath: string, fileExists: bool, size: nat): (e: Option<string>)
    ensures e.None? <==> fileExists && size > 0
  {
    if !fileExists then Some("Video file not found: " + videoPath)
    else if size == 0 then Some("Video file is empty (0 bytes): " + videoPath)
    else None
  }

  /** Where the worker saves a job's result (`SETTINGS.data_dir` is
      `app/data`). */
  function ResultPath(jobId: string): string {
    "app/data/jobs/" + jobId + "/result.json"
  }

  /** The status once the worker has taken the job. */
  function Started(s: JobStatus): JobStatus {
    s.(status := "running", currentStep := "pipeline", progress := 0.1, logs := s.logs + ["Starting pipeline"])
  }

  /** The status after an exception with message `msg`. */
  function Failed(s: JobStatus, msg: string): JobStatus {
    s.(status := "failed", currentStep := "error", logs := s.logs + ["Error: " + msg])
  }

  /** The status after one pass of the worker over job `jobId`, given the
      pipeline's outcome and the error, if any, of writing the result file. */
  function Finished(s: JobStatus, jobId: string, outcome: Result<JobResult>, writeError: Option<string>): JobStatus {
    var t := Started(s);
    if outcome.Err? then Failed(t, outcome.message)
    else
      var saving := t.(progress := 0.9, currentStep := "saving");
      if writeError.Some? then Failed(saving, writeError.value)
      else saving.(resultPath := Some(ResultPath(jobId)), progress := 1.0, status := "completed",
                   currentStep := "done", logs := t.logs + ["Completed pipeline"])
  }

  /** A processed job is `completed` exactly when the pipeline and the save
      both succeed, and `failed` otherwise. A completed job has progress 1.0,
      step `done` and its result path; a failed one step `error`, the
      progress it had reached (0.1 in the pipeline, 0.9 while saving) and its
      old result path; either way two log lines are appended, the second one
      naming the error. */
  lemma FinishedSpec(s: JobStatus, jobId: string, outcome: Result<JobResult>, writeError: Option<string>)
    ensures var f := Finished(s, jobId, outcome, writeError);
            f.jobId == s.jobId
            && (f.status == "completed" <==> outcome.Ok? && writeError.None?)
            && (f.status == "completed" || f.status == "failed")
            && (f.status == "completed" ==>
                  f.progress == 1.0 && f.currentStep == "done" && f.resultPath == Some(ResultPath(jobId))
                  && f.logs == s.logs + ["Starting pipeline", "Completed pipeline"])
            && (outcome.Err? ==>
                  f.progress == 0.1 && f.currentStep == "error" && f.resultPath == s.resultPath
                  && f.logs == s.logs + ["Starting pipeline", "Error: " + outcome.message])
            && (outcome.Ok? && writeError.Some? ==>
                  f.progress == 0.9 && f.currentStep == "error" && f.resultPath == s.resultPath
                  && f.logs == s.logs + ["Starting pipeline", "Error: " + writeError.value])
  {
    var t := Started(s);
    assert t.logs == s.logs + ["Starting pipeline"];
    if outcome.Err? {
      assert t.logs + ["Error: " + outcome.message] == s.logs + ["Starting pipeline", "Error: " + outcome.message];
    } else if writeError.Some? {
      assert t.logs + ["Error: " + writeError.value] == s.logs + ["Starting pipeline", "Error: " + writeError.value];
    } else {
      assert t.logs + ["Completed pipeline"] == s.logs + ["Starting pipeline", "Completed pipeline"];
    }
  }

  /** A queued job only moves forward: its progress does not decrease and
      its old log lines stay. */
  lemma FinishedMovesForward(s: JobStatus, jobId: string, outcome: Result<JobResult>, writeError: Option<string>)
    requires s.progress <= 0.1
    ensures var f := Finished(s, jobId, outcome, writeError);
            s.progress <= f.progress && s.logs < f.logs
  {
  }

  /** What `get_result` finds: the saved result of a job that has a result
      path whose file exists (`fileExists`, `stored` stand for the file
      system). */
  function ResultOf(jobs: map<string, JobStatus>, jobId: string,
                    fileExists: string -> bool, stored: string -> JobResult): (r: Option<JobResult>)
    ensures r.Some? <==> jobId in jobs && jobs[jobId].resultPath.Some? && fileExists(jobs[jobId].resultPath.value)
  {
    if jobId in jobs && jobs[jobId].resultPath.Some? && fileExists(jobs[jobId].resultPath.value)
    then Some(stored(jobs[jobId].resultPath.value))
    else None
  }

  /** The pipeline run on a queued request. */
  function RunJob(job: JobRequest, st: Stages): Result<JobResult> {
    Pipeline(job.jobId, job.videoPath, job.language, job.numSpeakers, job.packName, job.verify, st)
  }

  /** One turn of the worker on the queue and the status table, given the
      outcome of the pipeline run on the first job and the error, if any,
      of saving its result. */
  function Step(queue: seq<JobRequest>, jobs: map<string, JobStatus>, outcome: Result<JobResult>,
                writeError: Option<string>): (seq<JobRequest>, map<string, JobStatus>)
    requires queue != [] && queue[0].jobId in jobs
  {
    var job := queue[0];
    (queue[1..], jobs[job.jobId := Finished(jobs[job.jobId], job.jobId, outcome, writeError)])
  }

  /** Whatever the outcome, a processed job has settled. */
  lemma FinishedSettles(s: JobStatus, jobId: string, outcome: Result<JobResult>, writeError: Option<string>)
    ensures Settled(Finished(s, jobId, outcome, writeError))
  {
  }

  /** A turn keeps every queued job tracked. */
  lemma StepTracked(queue: seq<JobRequest>, jobs: map<string, JobStatus>, outcome: Result<JobResult>,
                    writeError: Option<string>)
    requires Tracked(queue, jobs) && queue != []
    ensures var next := Step(queue, jobs, outcome, writeError);
            Tracked(next.0, next.1) && next.1.Keys == jobs.Keys && queue == [queue[0]] + next.0
  {
    var next := Step(queue, jobs, outcome, writeError);
    forall r | r in next.0 ensures r.jobId in next.1 {
      assert r in queue;
    }
  }

  /** Every queued job has a status. */
  predicate Tracked(queue: seq<JobRequest>, jobs: map<string, JobStatus>) {
    forall r :: r in queue ==> r.jobId in jobs
  }

  /** A status the worker never changes again. */
  predicate Settled(s: JobStatus) {
    s.status == "completed" || s.status == "failed"
  }

  /** The worker's turns, one per entry of `turns` (the pipeline's outcome
      and the save's error), while the queue lasts. */
  function Turns(queue: seq<JobRequest>, jobs: map<string, JobStatus>, turns: seq<(Result<JobResult>, Option<string>)>)
    : (seq<JobRequest>, map<string, JobStatus>)
    requires Tracked(queue, jobs)
    decreases |turns|
  {
    if queue == [] || turns == [] then (queue, jobs)
    else
      var next := Step(queue, jobs, turns[0].0, turns[0].1);
      StepTracked(queue, jobs, turns[0].0, turns[0].1);
      Turns(next.0, next.1, turns[1..])
  }

  /** With a turn per queued job, the queue empties and no job is added or
      removed. */
  lemma {:induction false} TurnsEmptyQueue(queue: seq<JobRequest>, jobs: map<string, JobStatus>,
                                           turns: seq<(Result<JobResult>, Option<string>)>)
    requires Tracked(queue, jobs) && |turns| >= |queue|
    ensures Turns(queue, jobs, turns).0 == [] && Turns(queue, jobs, turns).1.Keys == jobs.Keys
    decreases |turns|
  {
    if queue != [] {
      var next := Step(queue, jobs, turns[0].0, turns[0].1);
      StepTracked(queue, jobs, turns[0].0, turns[0].1);
      TurnsEmptyQueue(next.0, next.1, turns[1..]);
    }
  }

  /** With a turn per queued job, every job that was queued has settled. */
  lemma {:induction false} TurnsSettle(queue: seq<JobRequest>, jobs: map<string, JobStatus>,
                                       turns: seq<(Result<JobResult>, Option<string>)>)
    requires Tracked(queue, jobs) && |turns| >= |queue|
    ensures forall r :: r in queue ==> r.jobId in Turns(queue, jobs, turns).1
                                       && Settled(Turns(queue, jobs, turns).1[r.jobId])
    decreases |turns|
  {
    if queue != [] {
      var next := Step(queue, jobs, turns[0].0, turns[0].1);
      var job := queue[0];
      StepTracked(queue, jobs, turns[0].0, turns[0].1);
      TurnsSettle(next.0, next.1, turns[1..]);
      FinishedSettles(jobs[job.jobId], job.jobId, turns[0].0, turns[0].1);
      SettledStays(next.0, next.1, turns[1..], job.jobId);
    }
  }

  /** The worker's turns leave every job that was not queued as it was. */
  lemma {:induction false} TurnsKeepOthers(queue: seq<JobRequest>, jobs: map<string, JobStatus>,
                                           turns: seq<(Result<JobResult>, Option<string>)>, id: string)
    requires Tracked(queue, jobs) && id in jobs && forall r :: r in queue ==> r.jobId != id
    ensures id in Turns(queue, jobs, turns).1 && Turns(queue, jobs, turns).1[id] == jobs[id]
    decreases |turns|
  {
    if queue != [] && turns != [] {
      var next := Step(queue, jobs, turns[0].0, turns[0].1);
      StepTracked(queue, jobs, turns[0].0, turns[0].1);
      assert queue[0] in queue;
      forall r | r in next.0 ensures r.jobId != id {
        assert r in queue;
      }
      TurnsKeepOthers(next.0, next.1, turns[1..], id);
    }
  }

  /** Once the worker has had a turn per queued job, the queue is empty,
      every job that was queued has settled as `completed` or `failed`, and
      every job that was not queued is as it was. */
  lemma TurnsSettleQueue(queue: seq<JobRequest>, jobs: map<string, JobStatus>,
                         turns: seq<(Result<JobResult>, Option<string>)>)
    requires Tracked(queue, jobs) && |turns| >= |queue|
    ensures var after := Turns(queue, jobs, turns);
            after.0 == [] && after.1.Keys == jobs.Keys
            && (forall r :: r in queue ==> Settled(after.1[r.jobId]))
            && (forall id :: id in jobs && (forall r :: r in queue ==> r.jobId != id) ==> after.1[id] == jobs[id])
  {
    TurnsEmptyQueue(queue, jobs, turns);
    TurnsSettle(queue, jobs, turns);
    forall id | id in jobs && (forall r :: r in queue ==> r.jobId != id)
      ensures Turns(queue, jobs, turns).1[id] == jobs[id]
    {
      TurnsKeepOthers(queue, jobs, turns, id);
    }
  }

  /** A settled job stays as it is through later turns. */
  lemma {:induction false} SettledStays(queue: seq<JobRequest>, jobs: map<string, JobStatus>,
                                        turns: seq<(Result<JobResult>, Option<string>)>, id: string)
    requires Tracked(queue, jobs) && id in jobs && Settled(jobs[id])
    ensures id in Turns(queue, jobs, turns).1 && Settled(Turns(queue, jobs, turns).1[id])
    decreases |turns|
  {
    if queue != [] && turns != [] {
      var next := Step(queue, jobs, turns[0].0, turns[0].1);
      var job := queue[0];
      StepTracked(queue, jobs, turns[0].0, turns[0].1);
      FinishedSettles(jobs[job.jobId], job.jobId, turns[0].0, turns[0].1);
      SettledStays(next.0, next.1, turns[1..], id);
    }
  }

  /** A job whose pipeline and save succeeded has its saved result to show. */
  lemma CompletedJobHasResult(jobs: map<string, JobStatus>, jobId: string, outcome: Result<JobResult>,
                              fileExists: string -> bool, stored: string -> JobResult)
    requires jobId in jobs && outcome.Ok? && fileExists(ResultPath(jobId))
    ensures ResultOf(jobs[jobId := Finished(jobs[jobId], jobId, outcome, None)], jobId, fileExists, stored)
            == Some(stored(ResultPath(jobId)))
  {
  }

  /** A job that failed before any save has no result. */
  lemma FailedNewJobHasNoResult(jobs: map<string, JobStatus>, jobId: string, outcome: Result<JobResult>,
                                writeError: Option<string>, fileExists: string -> bool, stored: string -> JobResult)
    requires outcome.Err? || writeError.Some?
    ensures ResultOf(jobs[jobId := Finished(NewJobStatus(jobId), jobId, outcome, writeError)], jobId, fileExists, stored)
            == None
  {
  }

  class JobManager {
    var queue: seq<JobRequest>
    var jobs: map<string, JobStatus>
    var workerStarted: bool

    predicate Valid()
      reads this
    {
      Tracked(queue, jobs)
    }

    /** `JobManager()`: an empty queue, no jobs, no worker. */
    constructor ()
      ensures Valid() && queue == [] && jobs == map[] && !workerStarted
    {
      queue := [];
      jobs := map[];
      workerStarted := false;
    }

    /** `start`: the worker is started once. */
    method Start()
      modifies this
      ensures workerStarted && queue == old(queue) && jobs == old(jobs)
    {
      if !workerStarted {
        workerStarted := true;
      }
    }

    /** `submit`: a missing or empty video is refused and nothing changes;
        otherwise the job is recorded as queued under the fresh id `newId`
        and put at the back of the queue. */
    method Submit(videoPath: string, language: string, numSpeakers: Option<int>, packName: Option<string>,
                  verify: bool, fileExists: bool, size: nat, newId: string) returns (r: Result<string>)
      requires Valid()
      modifies this
      ensures Valid() && workerStarted == old(workerStarted)
      ensures SubmitError(videoPath, fileExists, size).Some? ==>
                r == Err(SubmitError(videoPath, fileExists, size).value) && queue == old(queue) && jobs == old(jobs)
      ensures SubmitError(videoPath, fileExists, size).None? ==>
                r == Ok(newId) && jobs == old(jobs)[newId := NewJobStatus(newId)]
                && queue == old(queue) + [JobRequest(newId, videoPath, language, numSpeakers, packName, verify)]
    {
      if !fileExists {
        return Err("Video file not found: " + videoPath);
      }
      if size == 0 {
        return Err("Video file is empty (0 bytes): " + videoPath);
      }
      jobs := jobs[newId := NewJobStatus(newId)];
      queue := queue + [JobRequest(newId, videoPath, language, numSpeakers, packName, verify)];
      return Ok(newId);
    }

    /** `get_status`. */
    method GetStatus(jobId: string) returns (s: Option<JobStatus>)
      ensures s.Some? <==> jobId in jobs
      ensures s.Some? ==> s.value == jobs[jobId]
    {
      if jobId in jobs {
        return Some(jobs[jobId]);
      }
      return None;
    }

    /** `get_result`. */
    method GetResult(jobId: string, fileExists: string -> bool, stored: string -> JobResult) returns (r: Option<JobResult>)
      ensures r == ResultOf(jobs, jobId, fileExists, stored)
    {
      if jobId !in jobs {
        return None;
      }
      var status := jobs[jobId];
      if status.resultPath.None? || !fileExists(status.resultPath.value) {
        return None;
      }
      return Some(stored(status.resultPath.value));
    }

    /** One turn of `_worker`: with an empty queue it waits and nothing
        changes; otherwise it takes the first job, runs the pipeline on it
        and records the outcome in the job's status. */
    method ProcessNext(st: Stages, writeError: Option<string>) returns (processed: bool)
      requires Valid()
      modifies this
      ensures Valid() && workerStarted == old(workerStarted)
      ensures processed <==> old(queue) != []
      ensures !processed ==> queue == old(queue) && jobs == old(jobs)
      ensures processed ==> (queue, jobs) == Step(old(queue), old(jobs), RunJob(old(queue)[0], st), writeError)
    {
      if queue == [] {
        return false;
      }
      var job := queue[0];
      assert job in queue;
      queue := queue[1..];
      var status := jobs[job.jobId];
      status := status.(status := "running", currentStep := "pipeline", progress := 0.1,
                        logs := status.logs + ["Starting pipeline"]);
      var result := RunJob(job, st);
      if result.Err? {
        status := status.(status := "failed", currentStep := "error", logs := status.logs + ["Error: " + result.message]);
      } else {
        status := status.(progress := 0.9, currentStep := "saving");
        if writeError.Some? {
          status := status.(status := "failed", currentStep := "error", logs := status.logs + ["Error: " + writeError.value]);
        } else {
          status := status.(resultPath := Some(ResultPath(job.jobId)), progress := 1.0, status := "completed",
                            currentStep := "done", logs := status.logs + ["Completed pipeline"]);
        }
      }
      jobs := jobs[job.jobId := status];
      forall r | r in queue ensures r.jobId in jobs {
        assert r in old(queue);
      }
      return true;
    }
  }
}
