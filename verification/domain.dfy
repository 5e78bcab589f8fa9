/**
 * The persisted side of the job subsystem: job records (JobInfo), the log
 * messages stored inside them (JobMessage) and their severity levels.
 *
 * The lifecycle operations ping, restart, stop and dead change a record in
 * place in edison's `JobInfo`; here each is a function from the record before to
 * the record after. Their internals are not visible, so they are modelled
 * abstractly: a status tag and a last-updated instant taken from the clock.
 */
module JobDomain {

  /** A job URI such as "some/job", treated as an opaque string. */
  type Uri = string

  /** An instant of the injected (fixed) clock. */
  type Instant = int

  /** The persisted severity vocabulary. */
  datatype Level = INFO | WARNING | ERROR

  /** One entry of a job's log. */
  datatype JobMessage = JobMessage(level: Level, message: string, timestamp: Instant)

  /** The lifecycle state a record is in. */
  datatype JobStatus = Running | Restarted | Stopped | Dead

  /** One execution of a job, as stored in the repository. */
  datatype JobInfo = JobInfo(
    jobUri: Uri,
    jobType: string,
    started: Instant,
    hostname: string,
    lastUpdated: Instant,
    status: JobStatus,
    messages: seq<JobMessage>)
  {
    /** Both records describe the same job execution: the fields fixed at creation agree. */
    predicate SameJob(other: JobInfo) {
      && jobUri == other.jobUri
      && jobType == other.jobType
      && started == other.started
      && hostname == other.hostname
    }

    /** Keep-alive: the record is refreshed, its status is left alone. */
    function Ping(now: Instant): (r: JobInfo)
      ensures r.SameJob(this) && r.messages == messages
      ensures r.status == status && r.lastUpdated == now
    {
      this.(lastUpdated := now)
    }

    /** The job was restarted. */
    function Restart(now: Instant): (r: JobInfo)
      ensures r.SameJob(this) && r.messages == messages
      ensures r.status == Restarted && r.lastUpdated == now
    {
      this.(status := Restarted, lastUpdated := now)
    }

    /** The job stopped. */
    function Stop(now: Instant): (r: JobInfo)
      ensures r.SameJob(this) && r.messages == messages
      ensures r.status == Stopped && r.lastUpdated == now
    {
      this.(status := Stopped, lastUpdated := now)
    }

    /** The job was found dead. */
    function Dead(now: Instant): (r: JobInfo)
      ensures r.SameJob(this) && r.messages == messages
      ensures r.status == JobStatus.Dead && r.lastUpdated == now
    {
      this.(status := JobStatus.Dead, lastUpdated := now)
    }
  }

  /** A fresh record for a job that starts now on the given host. */
  function NewJobInfo(jobUri: Uri, jobType: string, now: Instant, hostname: string): (r: JobInfo)
    ensures r.jobUri == jobUri && r.jobType == jobType && r.hostname == hostname
    ensures r.started == now && r.lastUpdated == now
    ensures r.status == Running && r.messages == []
  {
    JobInfo(jobUri, jobType, now, hostname, now, Running, [])
  }
}
