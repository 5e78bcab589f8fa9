/**
 * The keyed job store the listener writes to. Besides its contents it keeps
 * the list of calls made on it, in order, as the test's mock records them, so
 * that contracts can say "exactly these calls and nothing else".
 */
module Repository {
  import opened JobDomain

  datatype Option<T> = None | Some(value: T)

  /** One operation invoked on the store. */
  datatype RepositoryCall =
    | FindOne(uri: Uri)
    | CreateOrUpdate(info: JobInfo)
    | AppendMessage(uri: Uri, message: JobMessage)

  /** Every record is stored under its own URI. */
  ghost predicate Keyed(jobs: map<Uri, JobInfo>) {
    forall u :: u in jobs ==> jobs[u].jobUri == u
  }

  /**
   * What one call does to the store: a lookup changes nothing, create-or-update
   * stores the record under its own URI, and an append adds the message to the
   * end of the record's log, or does nothing when there is no such record.
   */
  function Effect(jobs: map<Uri, JobInfo>, call: RepositoryCall): map<Uri, JobInfo> {
    match call
    case FindOne(_) => jobs
    case CreateOrUpdate(info) => jobs[info.jobUri := info]
    case AppendMessage(uri, m) =>
      if uri in jobs then jobs[uri := jobs[uri].(messages := jobs[uri].messages + [m])] else jobs
  }

  /** The store after the given calls, made in order. */
  function ApplyCalls(jobs: map<Uri, JobInfo>, calls: seq<RepositoryCall>): map<Uri, JobInfo>
    decreases |calls|
  {
    if calls == [] then jobs else ApplyCalls(Effect(jobs, calls[0]), calls[1..])
  }

  /** Making two batches of calls one after the other is making their concatenation. */
  lemma {:induction false} ApplyCallsConcat(jobs: map<Uri, JobInfo>, a: seq<RepositoryCall>, b: seq<RepositoryCall>)
    ensures ApplyCalls(jobs, a + b) == ApplyCalls(ApplyCalls(jobs, a), b)
    decreases |a|
  {
    if a != [] {
      assert (a + b)[0] == a[0];
      assert (a + b)[1..] == a[1..] + b;
      ApplyCallsConcat(Effect(jobs, a[0]), a[1..], b);
    } else {
      assert a + b == b;
    }
  }

  /** A single call. */
  lemma ApplyOneCall(jobs: map<Uri, JobInfo>, call: RepositoryCall)
    ensures ApplyCalls(jobs, [call]) == Effect(jobs, call)
  {
  }

  /** Two calls made one after the other. */
  lemma ApplyTwoCalls(jobs: map<Uri, JobInfo>, first: RepositoryCall, second: RepositoryCall)
    ensures ApplyCalls(jobs, [first, second]) == Effect(Effect(jobs, first), second)
  {
    assert [first, second][1..] == [second];
    assert ApplyCalls(jobs, [first, second]) == ApplyCalls(Effect(jobs, first), [second]);
    assert [second][1..] == [];
  }

  /** No call moves a record to a key other than its own URI. */
  lemma EffectKeepsKeyed(jobs: map<Uri, JobInfo>, call: RepositoryCall)
    requires Keyed(jobs)
    ensures Keyed(Effect(jobs, call))
  {
  }

  class JobRepository {
    var jobs: map<Uri, JobInfo>
    var calls: seq<RepositoryCall>

    /** A store holding the given records, on which no call has been made yet. */
    constructor (jobs: map<Uri, JobInfo>)
      ensures this.jobs == jobs && calls == []
    {
      this.jobs := jobs;
      calls := [];
    }

    /** The record stored under the URI, if any; the store does not change. */
    method FindOne(uri: Uri) returns (r: Option<JobInfo>)
      modifies this`calls
      ensures calls == old(calls) + [RepositoryCall.FindOne(uri)]
      ensures r.Some? <==> uri in jobs
      ensures r.Some? ==> r.value == jobs[uri]
    {
      calls := calls + [RepositoryCall.FindOne(uri)];
      r := if uri in jobs then Some(jobs[uri]) else None;
    }

    /** Stores the record under its own URI, replacing any record there. */
    method CreateOrUpdate(info: JobInfo)
      modifies this
      ensures calls == old(calls) + [RepositoryCall.CreateOrUpdate(info)]
      ensures jobs == Effect(old(jobs), RepositoryCall.CreateOrUpdate(info))
      ensures info.jobUri in jobs && jobs[info.jobUri] == info
      ensures forall u :: u != info.jobUri ==> (u in jobs <==> u in old(jobs))
    {
      calls := calls + [RepositoryCall.CreateOrUpdate(info)];
      jobs := jobs[info.jobUri := info];
    }

    /** Adds the message to the end of the log of the record stored under the URI. */
    method AppendMessage(uri: Uri, message: JobMessage)
      modifies this
      ensures calls == old(calls) + [RepositoryCall.AppendMessage(uri, message)]
      ensures jobs == Effect(old(jobs), RepositoryCall.AppendMessage(uri, message))
      ensures jobs.Keys == old(jobs).Keys
    {
      calls := calls + [RepositoryCall.AppendMessage(uri, message)];
      if uri in jobs {
        jobs := jobs[uri := jobs[uri].(messages := jobs[uri].messages + [message])];
      }
    }
  }
}
