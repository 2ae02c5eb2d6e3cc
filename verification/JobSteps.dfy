/** Jobs, how one of them is handled by a worker, and what is written down about it. */
module JobSteps {
  import Breakers = CircuitBreaker

  datatype JobType = Forensic | Geospatial | UnknownType

  datatype Job = Job(id: string, jobType: JobType, attempts: nat)

  datatype JobStatus =
    | Queued
    | Running
    | Retrying
    | Deferred
    | Completed
    | Cancelled
    | DeadLettered(poison: bool, recordedAttempts: nat)

  predicate Final(status: JobStatus) {
    status.Completed? || status.Cancelled? || status.DeadLettered?
  }

  /** How the handler ends; `poison` is the detector's verdict on its error and the job's data. */
  datatype HandlerRun = HandlerRun(succeeds: bool, poison: bool, entered: real, ended: real)

  const BREAKER_CONFIG := Breakers.Config(5, 120.0, 2)

  predicate HasHandler(jobType: JobType) { jobType != UnknownType }

  /** Every known job type has its breaker. */
  type BreakerTable = b: map<JobType, Breakers.Metrics> | Forensic in b && Geospatial in b
    witness map[Forensic := Breakers.NewMetrics(0.0), Geospatial := Breakers.NewMetrics(0.0)]

  predicate BreakerOpen(breakers: BreakerTable, jobType: JobType) {
    HasHandler(jobType) && breakers[jobType].state == Breakers.Open
  }

  /** Does the job's handler run and succeed? A job of unknown type fails without a handler. */
  predicate Succeeds(job: Job, run: HandlerRun) {
    HasHandler(job.jobType) && run.succeeds
  }

  /** The breakers after the handler of the job has run behind its breaker. */
  function AfterRun(breakers: BreakerTable, job: Job, run: HandlerRun): BreakerTable {
    if HasHandler(job.jobType) then
      var m := Breakers.Admitted(breakers[job.jobType]);
      var ending := if run.succeeds then Breakers.Success else Breakers.Failure;
      breakers[job.jobType := Breakers.Recorded(m, ending, run.ended, BREAKER_CONFIG)]
    else breakers
  }

  /** What follows a failed attempt: a dead letter, or the job with its attempt counted. The dead
      letter records the attempts the job arrived with. */
  datatype Aftermath = Buried(status: JobStatus) | Again(job: Job)

  function AfterFailure(job: Job, poison: bool, maxRetries: int): Aftermath {
    if poison then Buried(DeadLettered(true, job.attempts))
    else if job.attempts + 1 < maxRetries then Again(job.(attempts := job.attempts + 1))
    else Buried(DeadLettered(false, job.attempts))
  }
}
