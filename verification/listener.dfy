/**
 * The persistence listener: it turns each state-change event and each message
 * event into calls on the job repository.
 *
 * StateChangeCalls and MessageCalls say which calls one event makes, given the
 * store it finds; the listener's methods are proved to make exactly those calls,
 * and the lemmas below say what those calls are case by case.
 */
module PersistenceListener {
  import opened JobDomain
  import opened JobEvents
  import opened Repository

  /** Translation of the event severity vocabulary into the persisted one. */
  function ToLevel(level: EventLevel): (r: Level)
    ensures FromLevel(r) == level
  {
    match level
    case INFO => Level.INFO
    case WARN => WARNING
    case ERROR => Level.ERROR
  }

  /** The reverse translation, persisted severity back to event severity. */
  function FromLevel(level: Level): EventLevel {
    match level
    case INFO => EventLevel.INFO
    case WARNING => WARN
    case ERROR => EventLevel.ERROR
  }

  /** Every persisted level is the translation of exactly one event level. */
  lemma LevelTranslationIsBijective()
    ensures forall r: Level :: ToLevel(FromLevel(r)) == r
    ensures forall a: EventLevel, b: EventLevel :: ToLevel(a) == ToLevel(b) ==> a == b
    ensures ToLevel(EventLevel.INFO) == Level.INFO
    ensures ToLevel(WARN) == WARNING
    ensures ToLevel(EventLevel.ERROR) == Level.ERROR
  {
  }

  /** The in-place operation a transition other than START applies to the found record. */
  function Transition(state: State, info: JobInfo, now: Instant): (r: JobInfo)
    requires state != START
    ensures r.SameJob(info) && r.messages == info.messages && r.lastUpdated == now
    ensures state == KEEP_ALIVE ==> r.status == info.status
    ensures state == RESTART ==> r.status == Restarted
    ensures state == STOP ==> r.status == Stopped
    ensures state == DEAD ==> r.status == JobStatus.Dead
  {
    match state
    case START => assert false; info
    case KEEP_ALIVE => info.Ping(now)
    case RESTART => info.Restart(now)
    case STOP => info.Stop(now)
    case DEAD => info.Dead(now)
  }

  /**
   * The repository calls one state-change event makes: START stores a fresh
   * record without a lookup; every other transition looks the record up and,
   * if there is one, stores it again with the transition applied.
   */
  function StateChangeCalls(jobs: map<Uri, JobInfo>, event: StateChangeEvent, now: Instant, hostname: string): (r: seq<RepositoryCall>)
    ensures 1 <= |r| <= 2
    ensures event.state != START <==> r[0] == FindOne(event.jobUri)
    ensures r[|r| - 1].CreateOrUpdate? <==> event.state == START || event.jobUri in jobs
    ensures forall c :: c in r ==> !c.AppendMessage?
  {
    if event.state == START then
      [CreateOrUpdate(NewJobInfo(event.jobUri, event.jobType, now, hostname))]
    else if event.jobUri in jobs then
      [FindOne(event.jobUri), CreateOrUpdate(Transition(event.state, jobs[event.jobUri], now))]
    else
      [FindOne(event.jobUri)]
  }

  /** The log entry a message event becomes. */
  function ToJobMessage(event: MessageEvent, now: Instant): (m: JobMessage)
    ensures FromLevel(m.level) == event.level && m.message == event.message && m.timestamp == now
  {
    JobMessage(ToLevel(event.level), event.message, now)
  }

  /** The repository calls one message event makes, whatever the store holds. */
  function MessageCalls(event: MessageEvent, now: Instant): (r: seq<RepositoryCall>)
    ensures |r| == 1 && r[0].AppendMessage? && r[0].uri == event.jobUri
    ensures r[0].message.level == ToLevel(event.level) && r[0].message.message == event.message
  {
    [AppendMessage(event.jobUri, ToJobMessage(event, now))]
  }

  /** START makes a single create-or-update, of a record built from the event, the clock and the host. */
  lemma StartPersistsNewJobInfo(jobs: map<Uri, JobInfo>, event: StateChangeEvent, now: Instant, hostname: string)
    requires event.state == START
    ensures var calls := StateChangeCalls(jobs, event, now, hostname);
      && |calls| == 1 && calls[0].CreateOrUpdate?
      && calls[0].info == NewJobInfo(event.jobUri, event.jobType, now, hostname)
      && calls[0].info.jobUri == event.jobUri && calls[0].info.jobType == event.jobType
      && calls[0].info.started == now && calls[0].info.lastUpdated == now
      && calls[0].info.hostname == hostname && calls[0].info.messages == []
    ensures ApplyCalls(jobs, StateChangeCalls(jobs, event, now, hostname))
         == jobs[event.jobUri := NewJobInfo(event.jobUri, event.jobType, now, hostname)]
  {
  }

  /**
   * A transition other than START on a stored record looks it up by the event's
   * URI, then stores that same record with the matching operation applied; the
   * record stays the same job and keeps its log.
   */
  lemma TransitionPersistsFoundRecord(jobs: map<Uri, JobInfo>, event: StateChangeEvent, now: Instant, hostname: string)
    requires event.state != START && event.jobUri in jobs
    ensures var found := jobs[event.jobUri];
      var calls := StateChangeCalls(jobs, event, now, hostname);
      && calls == [FindOne(event.jobUri), CreateOrUpdate(calls[1].info)]
      && (event.state == KEEP_ALIVE ==> calls[1].info == found.Ping(now))
      && (event.state == RESTART ==> calls[1].info == found.Restart(now))
      && (event.state == STOP ==> calls[1].info == found.Stop(now))
      && (event.state == DEAD ==> calls[1].info == found.Dead(now))
      && calls[1].info.SameJob(found) && calls[1].info.messages == found.messages
      && calls[1].info.lastUpdated == now
    ensures jobs[event.jobUri].jobUri == event.jobUri ==>
      ApplyCalls(jobs, StateChangeCalls(jobs, event, now, hostname))
        == jobs[event.jobUri := Transition(event.state, jobs[event.jobUri], now)]
  {
    ApplyTwoCalls(jobs, FindOne(event.jobUri), CreateOrUpdate(Transition(event.state, jobs[event.jobUri], now)));
  }

  /** A transition other than START for a URI without a record only looks it up. */
  lemma MissingRecordIsLeftMissing(jobs: map<Uri, JobInfo>, event: StateChangeEvent, now: Instant, hostname: string)
    requires event.state != START && event.jobUri !in jobs
    ensures StateChangeCalls(jobs, event, now, hostname) == [FindOne(event.jobUri)]
    ensures ApplyCalls(jobs, StateChangeCalls(jobs, event, now, hostname)) == jobs
  {
  }

  /**
   * A message event makes one call, an append under the event's URI of a
   * message whose level is the translated event level and whose text is the
   * event's text; no lookup and no create-or-update, whether or not a record exists.
   */
  lemma MessageIsSingleAppend(event: MessageEvent, now: Instant)
    ensures var calls := MessageCalls(event, now);
      && |calls| == 1 && calls[0].AppendMessage?
      && calls[0].uri == event.jobUri
      && calls[0].message.level == ToLevel(event.level)
      && FromLevel(calls[0].message.level) == event.level
      && calls[0].message.message == event.message
    ensures forall c :: c in MessageCalls(event, now) ==> !c.FindOne? && !c.CreateOrUpdate?
  {
  }

  /** A state-change event keeps every record under its own URI. */
  lemma StateChangeKeepsKeyed(jobs: map<Uri, JobInfo>, event: StateChangeEvent, now: Instant, hostname: string)
    requires Keyed(jobs)
    ensures Keyed(ApplyCalls(jobs, StateChangeCalls(jobs, event, now, hostname)))
  {
    if event.state != START && event.jobUri in jobs {
      TransitionPersistsFoundRecord(jobs, event, now, hostname);
    }
  }

  class PersistenceJobEventListener {
    const repository: JobRepository
    /** The instant the injected fixed clock reports. */
    const clock: Instant
    /** The host name of the system the listener runs on. */
    const hostname: string

    constructor (repository: JobRepository, clock: Instant, hostname: string)
      ensures this.repository == repository && this.clock == clock && this.hostname == hostname
    {
      this.repository := repository;
      this.clock := clock;
      this.hostname := hostname;
    }

    /** Persists a lifecycle transition: exactly the calls StateChangeCalls names, in order. */
    method ConsumeStateChange(event: StateChangeEvent)
      modifies repository
      ensures repository.calls == old(repository.calls) + StateChangeCalls(old(repository.jobs), event, clock, hostname)
      ensures repository.jobs == ApplyCalls(old(repository.jobs), StateChangeCalls(old(repository.jobs), event, clock, hostname))
    {
      if event.state == START {
        repository.CreateOrUpdate(NewJobInfo(event.jobUri, event.jobType, clock, hostname));
      } else {
        var found := repository.FindOne(event.jobUri);
        if found.Some? {
          var info := Transition(event.state, found.value, clock);
          repository.CreateOrUpdate(info);
          ApplyTwoCalls(old(repository.jobs), RepositoryCall.FindOne(event.jobUri), RepositoryCall.CreateOrUpdate(info));
        }
      }
    }

    /** Persists a log line: a single append, whatever the store holds. */
    method ConsumeMessage(event: MessageEvent)
      modifies repository
      ensures repository.calls == old(repository.calls) + MessageCalls(event, clock)
      ensures repository.jobs == ApplyCalls(old(repository.jobs), MessageCalls(event, clock))
    {
      repository.AppendMessage(event.jobUri, ToJobMessage(event, clock));
    }
  }
}
