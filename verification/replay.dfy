/**
 * A job record is the accumulation of every event delivered for its URI. This
 * module folds a sequence of delivered events over the store, each through the
 * listener's calls, and proves what holds of records across any such sequence:
 * records stay under their own URI, a record's identity never changes and its
 * log only grows until the job is started again, no record appears without a
 * START, and repeating a STOP does not make the record diverge.
 */
module EventReplay {
  import opened JobDomain
  import opened JobEvents
  import opened Repository
  import opened PersistenceListener

  /** Either kind of event the listener subscribes to. */
  datatype JobEvent =
    | StateChanged(change: StateChangeEvent)
    | Logged(log: MessageEvent)

  /** An event together with the instant the clock reports while it is handled. */
  datatype Delivery = Delivery(event: JobEvent, at: Instant)

  /** The event is a START for the URI. */
  predicate StartsJob(event: JobEvent, uri: Uri) {
    event.StateChanged? && event.change.state == START && event.change.jobUri == uri
  }

  /** The repository calls the listener makes for one event. */
  function EventCalls(jobs: map<Uri, JobInfo>, event: JobEvent, now: Instant, hostname: string): seq<RepositoryCall> {
    match event
    case StateChanged(change) => StateChangeCalls(jobs, change, now, hostname)
    case Logged(log) => MessageCalls(log, now)
  }

  /** The store after the listener has handled one delivered event. */
  function Step(jobs: map<Uri, JobInfo>, d: Delivery, hostname: string): map<Uri, JobInfo> {
    ApplyCalls(jobs, EventCalls(jobs, d.event, d.at, hostname))
  }

  /** The store after the listener has handled the delivered events in order. */
  function Replay(jobs: map<Uri, JobInfo>, deliveries: seq<Delivery>, hostname: string): map<Uri, JobInfo>
    decreases |deliveries|
  {
    if deliveries == [] then jobs else Replay(Step(jobs, deliveries[0], hostname), deliveries[1..], hostname)
  }

  /** Every repository call the listener makes for the delivered events, in order. */
  function ReplayCalls(jobs: map<Uri, JobInfo>, deliveries: seq<Delivery>, hostname: string): seq<RepositoryCall>
    decreases |deliveries|
  {
    if deliveries == [] then []
    else
      var d := deliveries[0];
      EventCalls(jobs, d.event, d.at, hostname) + ReplayCalls(Step(jobs, d, hostname), deliveries[1..], hostname)
  }

  /**
   * The store after a sequence of events is exactly what the whole sequence of
   * repository calls the listener made leaves, each call taken on its own.
   */
  lemma {:induction false} ReplayIsItsCalls(jobs: map<Uri, JobInfo>, deliveries: seq<Delivery>, hostname: string)
    ensures Replay(jobs, deliveries, hostname) == ApplyCalls(jobs, ReplayCalls(jobs, deliveries, hostname))
    decreases |deliveries|
  {
    if deliveries != [] {
      var d := deliveries[0];
      var first := EventCalls(jobs, d.event, d.at, hostname);
      var rest := ReplayCalls(Step(jobs, d, hostname), deliveries[1..], hostname);
      ReplayIsItsCalls(Step(jobs, d, hostname), deliveries[1..], hostname);
      ApplyCallsConcat(jobs, first, rest);
    }
  }

  /** A message event adds its log entry to the end of the target record's log and changes nothing else. */
  lemma MessageAppendsToLog(jobs: map<Uri, JobInfo>, log: MessageEvent, at: Instant, hostname: string)
    ensures var after := Step(jobs, Delivery(Logged(log), at), hostname);
      && after.Keys == jobs.Keys
      && (forall v :: v in jobs && v != log.jobUri ==> after[v] == jobs[v])
      && (log.jobUri in jobs ==>
            after[log.jobUri] == jobs[log.jobUri].(messages := jobs[log.jobUri].messages + [ToJobMessage(log, at)]))
  {
    ApplyOneCall(jobs, AppendMessage(log.jobUri, ToJobMessage(log, at)));
  }

  /** One event keeps every record under its own URI. */
  lemma StepKeepsKeyed(jobs: map<Uri, JobInfo>, d: Delivery, hostname: string)
    requires Keyed(jobs)
    ensures Keyed(Step(jobs, d, hostname))
  {
    match d.event
    case StateChanged(change) => StateChangeKeepsKeyed(jobs, change, d.at, hostname);
    case Logged(log) =>
      ApplyOneCall(jobs, AppendMessage(log.jobUri, ToJobMessage(log, d.at)));
      EffectKeepsKeyed(jobs, AppendMessage(log.jobUri, ToJobMessage(log, d.at)));
  }

  /** Any sequence of events keeps every record under its own URI. */
  lemma {:induction false} ReplayKeepsKeyed(jobs: map<Uri, JobInfo>, deliveries: seq<Delivery>, hostname: string)
    requires Keyed(jobs)
    ensures Keyed(Replay(jobs, deliveries, hostname))
    decreases |deliveries|
  {
    if deliveries != [] {
      StepKeepsKeyed(jobs, deliveries[0], hostname);
      ReplayKeepsKeyed(Step(jobs, deliveries[0], hostname), deliveries[1..], hostname);
    }
  }

  /**
   * One event that is not a START for the URI leaves a stored record the same
   * job, keeps its log as a prefix, and either leaves its last-updated instant
   * alone or sets it to the event's instant.
   */
  lemma StepKeepsJob(jobs: map<Uri, JobInfo>, d: Delivery, hostname: string, uri: Uri)
    requires Keyed(jobs) && uri in jobs && !StartsJob(d.event, uri)
    ensures var after := Step(jobs, d, hostname);
      && uri in after && after[uri].SameJob(jobs[uri])
      && jobs[uri].messages <= after[uri].messages
      && (after[uri].lastUpdated == jobs[uri].lastUpdated || after[uri].lastUpdated == d.at)
  {
    match d.event
    case StateChanged(change) =>
      if change.state == START {
        StartPersistsNewJobInfo(jobs, change, d.at, hostname);
      } else if change.jobUri in jobs {
        TransitionPersistsFoundRecord(jobs, change, d.at, hostname);
      } else {
        MissingRecordIsLeftMissing(jobs, change, d.at, hostname);
      }
    case Logged(log) =>
      MessageAppendsToLog(jobs, log, d.at, hostname);
  }

  /**
   * Across any sequence of events with no START for the URI, a stored record
   * stays stored, stays the same job, its log only grows, and its last-updated
   * instant never falls below a bound that it and every event's instant respect.
   */
  lemma {:induction false} ReplayKeepsJob(jobs: map<Uri, JobInfo>, deliveries: seq<Delivery>, hostname: string, uri: Uri, bound: Instant)
    requires Keyed(jobs) && uri in jobs
    requires forall i :: 0 <= i < |deliveries| ==> !StartsJob(deliveries[i].event, uri)
    requires bound <= jobs[uri].lastUpdated
    requires forall i :: 0 <= i < |deliveries| ==> bound <= deliveries[i].at
    ensures var after := Replay(jobs, deliveries, hostname);
      && uri in after && after[uri].SameJob(jobs[uri])
      && jobs[uri].messages <= after[uri].messages
      && bound <= after[uri].lastUpdated
    decreases |deliveries|
  {
    if deliveries != [] {
      var next := Step(jobs, deliveries[0], hostname);
      StepKeepsJob(jobs, deliveries[0], hostname, uri);
      StepKeepsKeyed(jobs, deliveries[0], hostname);
      ReplayKeepsJob(next, deliveries[1..], hostname, uri, bound);
    }
  }

  /** No event removes a record from the store. */
  lemma StepNeverDeletes(jobs: map<Uri, JobInfo>, d: Delivery, hostname: string)
    ensures jobs.Keys <= Step(jobs, d, hostname).Keys
  {
    match d.event
    case StateChanged(change) =>
      if change.state == START {
        StartPersistsNewJobInfo(jobs, change, d.at, hostname);
      } else if change.jobUri in jobs {
        var info := Transition(change.state, jobs[change.jobUri], d.at);
        ApplyTwoCalls(jobs, FindOne(change.jobUri), CreateOrUpdate(info));
      } else {
        MissingRecordIsLeftMissing(jobs, change, d.at, hostname);
      }
    case Logged(log) =>
      MessageAppendsToLog(jobs, log, d.at, hostname);
  }

  /** No sequence of events, START included, removes a record from the store. */
  lemma {:induction false} ReplayNeverDeletes(jobs: map<Uri, JobInfo>, deliveries: seq<Delivery>, hostname: string)
    ensures jobs.Keys <= Replay(jobs, deliveries, hostname).Keys
    decreases |deliveries|
  {
    if deliveries != [] {
      StepNeverDeletes(jobs, deliveries[0], hostname);
      ReplayNeverDeletes(Step(jobs, deliveries[0], hostname), deliveries[1..], hostname);
    }
  }

  /** One event that is not a START for the URI does not create a record for it. */
  lemma StepCreatesOnlyOnStart(jobs: map<Uri, JobInfo>, d: Delivery, hostname: string, uri: Uri)
    requires Keyed(jobs) && uri !in jobs && !StartsJob(d.event, uri)
    ensures uri !in Step(jobs, d, hostname)
  {
    match d.event
    case StateChanged(change) =>
      if change.state == START {
        StartPersistsNewJobInfo(jobs, change, d.at, hostname);
      } else if change.jobUri in jobs {
        TransitionPersistsFoundRecord(jobs, change, d.at, hostname);
      } else {
        MissingRecordIsLeftMissing(jobs, change, d.at, hostname);
      }
    case Logged(log) =>
      MessageAppendsToLog(jobs, log, d.at, hostname);
  }

  /** Without a START for the URI, no sequence of events creates a record for it. */
  lemma {:induction false} ReplayCreatesOnlyOnStart(jobs: map<Uri, JobInfo>, deliveries: seq<Delivery>, hostname: string, uri: Uri)
    requires Keyed(jobs) && uri !in jobs
    requires forall i :: 0 <= i < |deliveries| ==> !StartsJob(deliveries[i].event, uri)
    ensures uri !in Replay(jobs, deliveries, hostname)
    decreases |deliveries|
  {
    if deliveries != [] {
      StepCreatesOnlyOnStart(jobs, deliveries[0], hostname, uri);
      StepKeepsKeyed(jobs, deliveries[0], hostname);
      ReplayCreatesOnlyOnStart(Step(jobs, deliveries[0], hostname), deliveries[1..], hostname, uri);
    }
  }

  /**
   * Handling the same STOP twice leaves the store as handling it once at the
   * later instant would: the record is stopped, with no error and no divergence.
   */
  lemma {:induction false} StopIsIdempotent(jobs: map<Uri, JobInfo>, stop: StateChangeEvent, first: Instant, second: Instant, hostname: string)
    requires stop.state == STOP
    requires stop.jobUri in jobs ==> jobs[stop.jobUri].jobUri == stop.jobUri
    ensures var twice := Replay(jobs, [Delivery(StateChanged(stop), first), Delivery(StateChanged(stop), second)], hostname);
      && twice == Replay(jobs, [Delivery(StateChanged(stop), second)], hostname)
      && (stop.jobUri in twice ==> twice[stop.jobUri].status == Stopped)
  {
    var d1, d2 := Delivery(StateChanged(stop), first), Delivery(StateChanged(stop), second);
    var uri := stop.jobUri;
    assert [d1, d2][1..] == [d2];
    assert [d2][1..] == [];
    if uri in jobs {
      TransitionPersistsFoundRecord(jobs, stop, first, hostname);
      var once := Step(jobs, d1, hostname);
      assert once == jobs[uri := jobs[uri].Stop(first)];
      TransitionPersistsFoundRecord(once, stop, second, hostname);
      TransitionPersistsFoundRecord(jobs, stop, second, hostname);
      assert Step(once, d2, hostname) == Step(jobs, d2, hostname);
    } else {
      MissingRecordIsLeftMissing(jobs, stop, first, hostname);
      MissingRecordIsLeftMissing(jobs, stop, second, hostname);
    }
  }
}
