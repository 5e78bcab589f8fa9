/**
 * The listener's unit-test scenarios, each as a client of the listener: the
 * store is set up as the test sets up its repository, one event is handled,
 * and the calls the store received are returned. Each postcondition states what
 * the test verifies about those calls; where the test only checks that a call
 * happened, the postcondition also says that no other call did.
 */
module ListenerScenarios {
  import opened JobDomain
  import opened JobEvents
  import opened Repository
  import opened PersistenceListener

  const SomeJob: Uri := "some/job"
  const Localhost := "localhost"

  /** Handles one state change against a store holding the given records. */
  method HandleStateChange(jobs: map<Uri, JobInfo>, now: Instant, state: State) returns (calls: seq<RepositoryCall>)
    ensures calls == StateChangeCalls(jobs, NewStateChangeEvent(SomeJobDefinition, SomeJob, state), now, Localhost)
  {
    var repository := new JobRepository(jobs);
    var listener := new PersistenceJobEventListener(repository, now, Localhost);
    listener.ConsumeStateChange(NewStateChangeEvent(SomeJobDefinition, SomeJob, state));
    calls := repository.calls;
  }

  /** Handles one message against a store holding the given records. */
  method HandleMessage(jobs: map<Uri, JobInfo>, now: Instant, level: EventLevel) returns (calls: seq<RepositoryCall>)
    ensures calls == MessageCalls(NewMessageEvent(SomeJobDefinition, SomeJob, level, "some message"), now)
  {
    var repository := new JobRepository(jobs);
    var listener := new PersistenceJobEventListener(repository, now, Localhost);
    listener.ConsumeMessage(NewMessageEvent(SomeJobDefinition, SomeJob, level, "some message"));
    calls := repository.calls;
  }

  method ShouldPersistStartEvent(now: Instant) returns (calls: seq<RepositoryCall>)
    ensures calls == [CreateOrUpdate(NewJobInfo(SomeJob, "someJobType", now, Localhost))]
  {
    calls := HandleStateChange(map[], now, START);
  }

  method ShouldPersistStillAliveEvent(now: Instant, jobInfo: JobInfo) returns (calls: seq<RepositoryCall>)
    ensures calls == [FindOne(SomeJob), CreateOrUpdate(jobInfo.Ping(now))]
  {
    calls := HandleStateChange(map[SomeJob := jobInfo], now, KEEP_ALIVE);
  }

  method ShouldPersistRestartEvent(now: Instant, jobInfo: JobInfo) returns (calls: seq<RepositoryCall>)
    ensures calls == [FindOne(SomeJob), CreateOrUpdate(jobInfo.Restart(now))]
  {
    calls := HandleStateChange(map[SomeJob := jobInfo], now, RESTART);
  }

  method ShouldPersistDeadEvent(now: Instant, jobInfo: JobInfo) returns (calls: seq<RepositoryCall>)
    ensures calls == [FindOne(SomeJob), CreateOrUpdate(jobInfo.Dead(now))]
  {
    calls := HandleStateChange(map[SomeJob := jobInfo], now, DEAD);
  }

  method ShouldPersistStopEvent(now: Instant, jobInfo: JobInfo) returns (calls: seq<RepositoryCall>)
    ensures calls == [FindOne(SomeJob), CreateOrUpdate(jobInfo.Stop(now))]
  {
    calls := HandleStateChange(map[SomeJob := jobInfo], now, STOP);
  }

  /** `started` is whatever the system clock gave the stored record. */
  method ShouldPersistInfoMessages(now: Instant, started: Instant) returns (calls: seq<RepositoryCall>)
    ensures |calls| == 1 && calls[0].AppendMessage? && calls[0].uri == SomeJob
    ensures calls[0].message.level == Level.INFO && calls[0].message.message == "some message"
  {
    calls := HandleMessage(map[SomeJob := NewJobInfo(SomeJob, "someType", started, Localhost)], now, EventLevel.INFO);
  }

  method ShouldPersistWarnMessages(now: Instant, started: Instant) returns (calls: seq<RepositoryCall>)
    ensures |calls| == 1 && calls[0].AppendMessage? && calls[0].uri == SomeJob
    ensures calls[0].message.level == WARNING && calls[0].message.message == "some message"
  {
    calls := HandleMessage(map[SomeJob := NewJobInfo(SomeJob, "someType", started, Localhost)], now, WARN);
  }

  /** No record is set up for the job; the append is made all the same. */
  method ShouldPersistErrorMessages(now: Instant) returns (calls: seq<RepositoryCall>)
    ensures |calls| == 1 && calls[0].AppendMessage? && calls[0].uri == SomeJob
    ensures calls[0].message.level == Level.ERROR && calls[0].message.message == "some message"
  {
    calls := HandleMessage(map[], now, EventLevel.ERROR);
  }
}
