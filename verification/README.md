# Job-event persistence listener of edison-jobs

A running job announces what happens to it as events. A `StateChangeEvent`
carries a job type, a job URI and one of START, KEEP_ALIVE, RESTART, STOP and
DEAD. A `MessageEvent` carries a job URI, a level (INFO, WARN or ERROR) and a
text. The `PersistenceJobEventListener` turns each event into calls on the
keyed `JobRepository`:

- START stores a fresh `JobInfo` built from the event, the injected clock and
  the host name.
- KEEP_ALIVE, RESTART, STOP and DEAD look the record up with `findOne`. When a
  record exists, the listener applies `ping`, `restart`, `stop` or `dead` to it
  and passes it back to `createOrUpdate`.
- A message becomes a `JobMessage`, with WARN translated to WARNING. It is
  handed to `appendMessage`, and that is the only repository call.

The listener's implementation is not shown. The model takes the behaviour of
the listener, `JobInfo` and `JobRepository` from what
`PersistenceJobEventListenerTest` asserts about them.

Files and modules:

- `domain.dfy` (`JobDomain`): `JobInfo`, `JobMessage` and `Level`. The
  lifecycle operations are functions from the record before to the record
  after.
- `events.dfy` (`JobEvents`): the two event types and the job definition that
  supplies the job type.
- `repository.dfy` (`Repository`): the calls a store can receive and what
  each does to the store (`Effect`, `ApplyCalls`). `JobRepository` is a class
  holding the records (`jobs`) and the calls made on it, in order (`calls`),
  as the test's mock records them.
- `listener.dfy` (`PersistenceListener`): the level translation. It also
  defines `StateChangeCalls` and `MessageCalls`, the calls one event makes.
  The `PersistenceJobEventListener` class is proved to make exactly those
  calls and to leave the store as they leave it.
- `replay.dfy` (`EventReplay`): folds a sequence of delivered events over the
  store and proves what holds across any such sequence.
- `scenarios.dfy` (`ListenerScenarios`): the eight test cases, each as a
  client of the listener.

`consumeMessage` makes no lookup: `verifyNoMoreInteractions`
(PersistenceJobEventListenerTest.java:140, 158, 174) allows only the append.

## Model

| member | source | states |
|---|---|---|
| `JobDomain.JobInfo.Ping` | edison-jobs/src/test/java/de/otto/edison/jobs/eventbus/PersistenceJobEventListenerTest.java:73 | ping keeps the record the same job (URI, type, start, host) and keeps its log and status; it refreshes last-updated to the clock |
| `JobDomain.JobInfo.Restart` | edison-jobs/src/test/java/de/otto/edison/jobs/eventbus/PersistenceJobEventListenerTest.java:89 | restart keeps the job's identity and log, marks it restarted and refreshes last-updated |
| `JobDomain.JobInfo.Dead` | edison-jobs/src/test/java/de/otto/edison/jobs/eventbus/PersistenceJobEventListenerTest.java:105 | dead keeps the job's identity and log, marks it dead and refreshes last-updated |
| `JobDomain.JobInfo.Stop` | edison-jobs/src/test/java/de/otto/edison/jobs/eventbus/PersistenceJobEventListenerTest.java:121 | stop keeps the job's identity and log, marks it stopped and refreshes last-updated |
| `JobDomain.NewJobInfo` | edison-jobs/src/test/java/de/otto/edison/jobs/eventbus/PersistenceJobEventListenerTest.java:58 | the fresh record takes URI and job type from its arguments, start and last-updated both from the clock, the host from its argument; it is running with an empty log |
| `JobEvents.NewStateChangeEvent` | edison-jobs/src/test/java/de/otto/edison/jobs/eventbus/PersistenceJobEventListenerTest.java:52 | the event carries the job definition's job type, the given URI and the given transition |
| `JobEvents.NewMessageEvent` | edison-jobs/src/test/java/de/otto/edison/jobs/eventbus/PersistenceJobEventListenerTest.java:128 | the event carries the job definition's job type, the given URI, level and text |
| `Repository.JobRepository.constructor` | edison-jobs/src/test/java/de/otto/edison/jobs/eventbus/PersistenceJobEventListenerTest.java:42 | a repository holding the given records, with no call recorded yet |
| `Repository.JobRepository.FindOne` | edison-jobs/src/test/java/de/otto/edison/jobs/eventbus/PersistenceJobEventListenerTest.java:66 | records the lookup; the result is present exactly when a record is stored under the URI, and it is that record; the records do not change |
| `Repository.JobRepository.CreateOrUpdate` | edison-jobs/src/test/java/de/otto/edison/jobs/eventbus/PersistenceJobEventListenerTest.java:58 | records the call and stores the record under its own URI; no other key is added or removed |
| `Repository.JobRepository.AppendMessage` | edison-jobs/src/test/java/de/otto/edison/jobs/eventbus/PersistenceJobEventListenerTest.java:137 | records the call and appends the message to the end of the stored record's log; the set of stored URIs does not change |
| `Repository.EffectKeepsKeyed` | edison-jobs/src/test/java/de/otto/edison/jobs/eventbus/PersistenceJobEventListenerTest.java:58 | no repository call stores a record under a key other than its own URI |
| `PersistenceListener.ToLevel` | edison-jobs/src/test/java/de/otto/edison/jobs/eventbus/PersistenceJobEventListenerTest.java:156 | the event level can be recovered from the persisted level, so the translation is one-to-one |
| `PersistenceListener.ToJobMessage` | edison-jobs/src/test/java/de/otto/edison/jobs/eventbus/PersistenceJobEventListenerTest.java:136-139 | the stored message's level translates back to the event's level, its text is the event's text unchanged, and its timestamp is the clock |
| `PersistenceListener.Transition` | edison-jobs/src/test/java/de/otto/edison/jobs/eventbus/PersistenceJobEventListenerTest.java:61-123 | each transition other than START keeps the found record the same job with the same log and refreshes last-updated. KEEP_ALIVE keeps the status; RESTART, STOP and DEAD set restarted, stopped and dead. |
| `PersistenceListener.StateChangeCalls` | edison-jobs/src/test/java/de/otto/edison/jobs/eventbus/PersistenceJobEventListenerTest.java:49-123 | a state change makes one or two calls and never an append. It starts with a lookup on the event's URI exactly when it is not START. It ends with a create-or-update exactly when it is START or a record exists. |
| `PersistenceListener.MessageCalls` | edison-jobs/src/test/java/de/otto/edison/jobs/eventbus/PersistenceJobEventListenerTest.java:125-175 | a message makes one call, an append under the event's URI with the translated level and the event's text |
| `PersistenceListener.LevelTranslationIsBijective` | edison-jobs/src/test/java/de/otto/edison/jobs/eventbus/PersistenceJobEventListenerTest.java:125-175 | the translation is total and onto and maps INFO to INFO, WARN to WARNING and ERROR to ERROR |
| `PersistenceListener.StartPersistsNewJobInfo` | edison-jobs/src/test/java/de/otto/edison/jobs/eventbus/PersistenceJobEventListenerTest.java:49-58 | START makes exactly one call, a create-or-update of `NewJobInfo(uri, jobType, clock, host)`. URI and job type come from the event, start and last-updated from the clock, and the host from the system. The log is empty and the record ends up stored under the event's URI. |
| `PersistenceListener.TransitionPersistsFoundRecord` | edison-jobs/src/test/java/de/otto/edison/jobs/eventbus/PersistenceJobEventListenerTest.java:61-123 | KEEP_ALIVE, RESTART, STOP or DEAD on a stored record makes exactly two calls. The first is `findOne` on the event's URI. The second is `createOrUpdate` of that found record with `ping`, `restart`, `stop` or `dead` applied, so it is still the same job with the same log. The store then holds that record under the URI. |
| `PersistenceListener.MissingRecordIsLeftMissing` | edison-jobs/src/test/java/de/otto/edison/jobs/eventbus/PersistenceJobEventListenerTest.java:61-123 | KEEP_ALIVE, RESTART, STOP or DEAD for a URI without a record makes only the lookup and leaves the store unchanged. The test does not cover this path; it is an assumption, as "## Left out" says. |
| `PersistenceListener.MessageIsSingleAppend` | edison-jobs/src/test/java/de/otto/edison/jobs/eventbus/PersistenceJobEventListenerTest.java:125-175 | a message makes exactly one call, `appendMessage` under the event's URI, with the translated level and the unchanged text, and no lookup or create-or-update |
| `PersistenceListener.StateChangeKeepsKeyed` | edison-jobs/src/test/java/de/otto/edison/jobs/eventbus/PersistenceJobEventListenerTest.java:49-123 | a state-change event keeps every stored record under its own URI |
| `PersistenceListener.PersistenceJobEventListener.constructor` | edison-jobs/src/test/java/de/otto/edison/jobs/eventbus/PersistenceJobEventListenerTest.java:46 | the listener is bound to the given repository, clock instant and host name |
| `PersistenceListener.PersistenceJobEventListener.ConsumeStateChange` | edison-jobs/src/test/java/de/otto/edison/jobs/eventbus/PersistenceJobEventListenerTest.java:49-123 | the repository receives exactly the calls `StateChangeCalls` names, in order, and nothing else; its records are what those calls leave |
| `PersistenceListener.PersistenceJobEventListener.ConsumeMessage` | edison-jobs/src/test/java/de/otto/edison/jobs/eventbus/PersistenceJobEventListenerTest.java:125-175 | the repository receives exactly the single append `MessageCalls` names, whatever it holds; its records are what that append leaves |
| `EventReplay.ReplayIsItsCalls` | edison-jobs/src/test/java/de/otto/edison/jobs/eventbus/PersistenceJobEventListenerTest.java:49-175 | the store after any sequence of events is exactly what the concatenation of all the repository calls the listener made for them leaves |
| `EventReplay.MessageAppendsToLog` | edison-jobs/src/test/java/de/otto/edison/jobs/eventbus/PersistenceJobEventListenerTest.java:137 | a message event only appends its entry to the end of the target record's log; every other record and the set of URIs stay as they were |
| `EventReplay.StepKeepsKeyed` | edison-jobs/src/test/java/de/otto/edison/jobs/eventbus/PersistenceJobEventListenerTest.java:49-175 | any one event keeps every record under its own URI |
| `EventReplay.ReplayKeepsKeyed` | edison-jobs/src/test/java/de/otto/edison/jobs/eventbus/PersistenceJobEventListenerTest.java:49-175 | any sequence of events keeps every record under its own URI |
| `EventReplay.StepKeepsJob` | edison-jobs/src/test/java/de/otto/edison/jobs/eventbus/PersistenceJobEventListenerTest.java:61-175 | one event that is not a START for a stored job leaves the record stored and the same job. Its log keeps its old entries as a prefix, and last-updated is either unchanged or the event's instant. |
| `EventReplay.ReplayKeepsJob` | edison-jobs/src/test/java/de/otto/edison/jobs/eventbus/PersistenceJobEventListenerTest.java:61-175 | across any sequence of events with no START for a stored job, the record stays stored and the same job. Its log only grows, and last-updated stays at or above any bound that it and all event instants respect. |
| `EventReplay.StepNeverDeletes` | edison-jobs/src/test/java/de/otto/edison/jobs/eventbus/PersistenceJobEventListenerTest.java:49-175 | no single event removes a stored record's URI from the store |
| `EventReplay.ReplayNeverDeletes` | edison-jobs/src/test/java/de/otto/edison/jobs/eventbus/PersistenceJobEventListenerTest.java:49-175 | no sequence of events, START included, removes a stored record's URI from the store |
| `EventReplay.StepCreatesOnlyOnStart` | edison-jobs/src/test/java/de/otto/edison/jobs/eventbus/PersistenceJobEventListenerTest.java:61-175 | one event that is not a START for a URI does not create a record for it |
| `EventReplay.ReplayCreatesOnlyOnStart` | edison-jobs/src/test/java/de/otto/edison/jobs/eventbus/PersistenceJobEventListenerTest.java:49-175 | without a START for a URI, no sequence of events creates a record for it |
| `EventReplay.StopIsIdempotent` | edison-jobs/src/test/java/de/otto/edison/jobs/eventbus/PersistenceJobEventListenerTest.java:109-123 | handling the same STOP twice leaves the store as handling it once at the later instant would, and a stored record ends up stopped |
| `ListenerScenarios.HandleStateChange` | edison-jobs/src/test/java/de/otto/edison/jobs/eventbus/PersistenceJobEventListenerTest.java:40-47 | with the test's setup (clock, host "localhost", job "some/job" of the test runnable), the repository records exactly the calls `StateChangeCalls` names |
| `ListenerScenarios.HandleMessage` | edison-jobs/src/test/java/de/otto/edison/jobs/eventbus/PersistenceJobEventListenerTest.java:40-47 | with the test's setup, the repository records exactly the calls `MessageCalls` names for "some message" |
| `ListenerScenarios.ShouldPersistStartEvent` | edison-jobs/src/test/java/de/otto/edison/jobs/eventbus/PersistenceJobEventListenerTest.java:49-59 | START for "some/job" makes exactly one call, a create-or-update of `newJobInfo("some/job", "someJobType", clock, "localhost")` |
| `ListenerScenarios.ShouldPersistStillAliveEvent` | edison-jobs/src/test/java/de/otto/edison/jobs/eventbus/PersistenceJobEventListenerTest.java:61-75 | for any stored record, KEEP_ALIVE makes exactly `findOne("some/job")`, then `createOrUpdate` of that record pinged |
| `ListenerScenarios.ShouldPersistRestartEvent` | edison-jobs/src/test/java/de/otto/edison/jobs/eventbus/PersistenceJobEventListenerTest.java:77-91 | for any stored record, RESTART makes exactly `findOne("some/job")`, then `createOrUpdate` of that record restarted |
| `ListenerScenarios.ShouldPersistDeadEvent` | edison-jobs/src/test/java/de/otto/edison/jobs/eventbus/PersistenceJobEventListenerTest.java:93-107 | for any stored record, DEAD makes exactly `findOne("some/job")`, then `createOrUpdate` of that record marked dead |
| `ListenerScenarios.ShouldPersistStopEvent` | edison-jobs/src/test/java/de/otto/edison/jobs/eventbus/PersistenceJobEventListenerTest.java:109-123 | for any stored record, STOP makes exactly `findOne("some/job")`, then `createOrUpdate` of that record stopped |
| `ListenerScenarios.ShouldPersistInfoMessages` | edison-jobs/src/test/java/de/otto/edison/jobs/eventbus/PersistenceJobEventListenerTest.java:125-141 | an INFO message makes one call and no other: `appendMessage("some/job", m)` with level INFO and text "some message" |
| `ListenerScenarios.ShouldPersistWarnMessages` | edison-jobs/src/test/java/de/otto/edison/jobs/eventbus/PersistenceJobEventListenerTest.java:143-159 | a WARN message makes one call and no other: `appendMessage("some/job", m)` with level WARNING and text "some message" |
| `ListenerScenarios.ShouldPersistErrorMessages` | edison-jobs/src/test/java/de/otto/edison/jobs/eventbus/PersistenceJobEventListenerTest.java:161-175 | with no record stored, an ERROR message still makes one call and no other: `appendMessage("some/job", m)` with level ERROR and text "some message" |

## Left out

- Update in place and aliasing: `JobInfo` is a value. The test's "the same instance is persisted" is stated as "the record passed to `createOrUpdate` equals the found record with the operation applied". Nothing shares a record between the store and the listener.
- `JobDomain.JobInfo.Ping`, `Restart`, `Stop`, `Dead`: edison's `JobInfo` is not part of this model, and the test mocks these operations. Each is modelled as a status tag plus a last-updated instant.
  - edison's `ping()`, `restart()`, `stop()` and `dead()` take no argument (:73, :89, :105, :121), and the record refreshes from its own clock. The model passes the listener's clock instant instead.
  - The last-updated claims of `PersistenceListener.Transition`, `PersistenceListener.TransitionPersistsFoundRecord`, `EventReplay.StepKeepsJob` and `EventReplay.ReplayKeepsJob` rest on this substitution.
  - That the operations leave the record's log unchanged is an assumption about internals the test mocks. The listener itself relies only on the right operation being applied to the found record.
- `PersistenceListener.MissingRecordIsLeftMissing`: the test does not exercise KEEP_ALIVE, RESTART, STOP or DEAD for a URI with no record. The model assumes the lookup is made and nothing else.
- Appending to a URI with no record: the store's reaction is its own business. The model's store ignores such an append. The listener's contract does not depend on this choice.
- Store failures and exceptions are not modelled: every repository call succeeds. An event without a job URI cannot be expressed.
- The clock is a fixed integer instant given to the listener. `Clock.fixed(now(), ...)` and `Clock.systemDefaultZone()` become parameters. Wall-clock access is not modelled.
- The `JobMessage` timestamp is taken from the listener's clock. The test does not check it.
- `SystemInfo`'s port, `JobRunnable.execute`, and the job definition's name and description play no part in the listener. Only the host name and the job type are used.
- `verify` checks one matching call. The scenario contracts also state that no other call was made. The test checks that only for messages (`verifyNoMoreInteractions` at :140, :158, :174).
- Event-bus dispatch and concurrent delivery of events for the same job are out of scope: the model is sequential.
- NavBarConfigurationTest.java is Spring application-context wiring with no logic of the listener and is not modelled.
