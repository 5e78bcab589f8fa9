/**
 * The events a running job publishes: lifecycle transitions and log lines.
 * Both are immutable values; the originating job contributes only its job type.
 */
module JobEvents {
  import opened JobDomain

  /** What the originating job declares about itself; only the job type reaches the events. */
  datatype JobDefinition = JobDefinition(jobType: string, jobName: string, description: string)

  /** The job definition of the test's runnable. */
  const SomeJobDefinition := JobDefinition("someJobType", "someName", "")

  /** The lifecycle transitions a job announces. */
  datatype State = START | KEEP_ALIVE | RESTART | STOP | DEAD

  datatype StateChangeEvent = StateChangeEvent(jobType: string, jobUri: Uri, state: State)

  /** The event vocabulary of severities; note WARN rather than WARNING. */
  datatype EventLevel = INFO | WARN | ERROR

  datatype MessageEvent = MessageEvent(jobType: string, jobUri: Uri, level: EventLevel, message: string)

  /** A transition of the given job; the event carries the job's type. */
  function NewStateChangeEvent(job: JobDefinition, jobUri: Uri, state: State): (e: StateChangeEvent)
    ensures e.jobType == job.jobType && e.jobUri == jobUri && e.state == state
  {
    StateChangeEvent(job.jobType, jobUri, state)
  }

  /** A log line of the given job. */
  function NewMessageEvent(job: JobDefinition, jobUri: Uri, level: EventLevel, message: string): (e: MessageEvent)
    ensures e.jobType == job.jobType && e.jobUri == jobUri && e.level == level && e.message == message
  {
    MessageEvent(job.jobType, jobUri, level, message)
  }
}
