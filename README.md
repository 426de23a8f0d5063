# WildFly clustered web sessions: a Dafny model

This project models the distributed web-session layer of the WildFly
application server, plus three small decision tables next to it. Each part
is a state machine or a decision procedure over abstract collaborators; the
model proves what each part promises.

- **Key affinity** (`key_affinity.dfy`, module `KeyAffinity`):
  - `DefaultKeyAffinityService` keeps one bounded queue of pre-generated cache keys per interesting cluster member.
  - It rebuilds the queues from a topology snapshot, refills them with a producer loop that has a miss budget, and serves keys from them.
  - The topology (`consistent_hash.dfy`, module `ConsistentHashes`) is a member sequence, a set of primary segments per member and a primary-owner function.
- **Expiration rescheduling** (`session_expiration.dfy`, module `SessionExpiration`):
  - `InfinispanSessionManagerFactory` reacts to rehash and topology-change events.
  - It cancels and submits expiration tasks on a single-threaded executor, remembering the topology of an in-flight rehash.
  - A schedule task hands the scheduler exactly the session ids of keys that have just become local.
- **Undertow session adapter** (`distributable_session.dfy`, module `UndertowSessions`):
  - `DistributableSession` holds a distributed session while a request is in flight.
  - It routes attribute reads and writes between replicated attributes and the per-member local context, and notifies session listeners.
  - It implements invalidation and session-id change in a fixed order, closing invalid sessions when an access fails.
  - The local context (`local_session_context.dfy`, module `LocalSessionContexts`) is the two-field object of `LocalSessionContextFactory`.
- **Transaction configuration** (`transaction_configurator.dfy`, module `TransactionConfig`): the transaction resource of a cache, mapped to service dependencies and to an Infinispan transaction configuration.
- **OpenAPI endpoint** (`openapi_context.dfy`, module `OpenApiEndpoint`): routing of `/openapi` requests, the JSON/YAML choice, the CORS headers, the per-format serialization cache, and the selection of the host to register on.
- **Expansion-pack verifier** (`expansion_pack.dfy`, module `ExpansionPack`): the install-once flag of the verifier service and the base-version check it logs on start.

Shared `Option`, `Result` and `Outcome` types are in `options.dfy` (module `Options`).

Modelling conventions:

- A Java null is `None`; a thrown exception is `Fail`/`Threw` with the exception's kind.
- Objects that Java mutates in place are classes. Their methods state the new state with `old`: in full for the lifecycle, topology and queue operations, and, over the producer passes during a wait, through `AffineExtension` (every queue grows only by keys its member owns). Decisions are pure functions, and the methods are proved against them.
- Calls into collaborators whose effect lies outside the core are appended, in order, to a `trace` or `attempts` log. These are listeners, close tasks, batch creation, session-config updates and service installs. The log carries the ordering properties.
- Concurrency is sequentialised:
  - The executor of the session factory is the log of tasks it accepted plus a shutdown flag; a future is the index of its task in that log.
  - The blocking poll of the key pool is one run of the producer per poll.

## Model

| member | source | states |
|---|---|---|
| KeyAffinity.DefaultKeyAffinityService.constructor | clustering/infinispan/spi/src/main/java/org/wildfly/clustering/infinispan/spi/affinity/DefaultKeyAffinityService.java:95-108 | A new service keeps its filter, buffer size and key generator. It has no queues, both counters are zero, it is not started, its worker has not ended, and the class invariant holds. |
| KeyAffinity.DefaultKeyAffinityService.GetKey | clustering/infinispan/spi/src/main/java/org/wildfly/clustering/infinispan/spi/affinity/DefaultKeyAffinityService.java:273 | Each call yields the next key of the generator's stream. |
| KeyAffinity.DefaultKeyAffinityService.Start | clustering/infinispan/spi/src/main/java/org/wildfly/clustering/infinispan/spi/affinity/DefaultKeyAffinityService.java:175-192 | On a started service, start changes nothing. A missing distribution manager throws NullPointerException and changes nothing. Otherwise a queue is added for every member that needs one, `maxNumberOfKeys` is the number of queues times the buffer size, `existingKeyCount == 0`, and the worker, the listener and the open latch are in place. |
| KeyAffinity.DefaultKeyAffinityService.StartWorker | clustering/infinispan/spi/src/main/java/org/wildfly/clustering/infinispan/spi/affinity/DefaultKeyAffinityService.java:187-191 | Afterwards the service is started, a new worker runs (neither stopped nor ended), it listens and the latch is open; the class invariant is kept. |
| KeyAffinity.DefaultKeyAffinityService.Stop | clustering/infinispan/spi/src/main/java/org/wildfly/clustering/infinispan/spi/affinity/DefaultKeyAffinityService.java:195-204 | On a stopped service, stop changes nothing. Otherwise the service is not started, stops listening, its worker is stopped and the latch is left open. The queues and counters are kept. |
| KeyAffinity.DefaultKeyAffinityService.HandleViewChange | clustering/infinispan/spi/src/main/java/org/wildfly/clustering/infinispan/spi/affinity/DefaultKeyAffinityService.java:207-220 | A pre event changes nothing. After a post event the queues are exactly the fresh empty queues of the end hash, whatever was there before. The counters are reset and the latch is open. |
| KeyAffinity.DefaultKeyAffinityService.AddQueuesAndReset | clustering/infinispan/spi/src/main/java/org/wildfly/clustering/infinispan/spi/affinity/DefaultKeyAffinityService.java:180-186 | The write-locked block keeps the invariant. It adds queues for the hash and resets the counters. |
| KeyAffinity.DefaultKeyAffinityService.ResetNumberOfKeys | clustering/infinispan/spi/src/main/java/org/wildfly/clustering/infinispan/spi/affinity/DefaultKeyAffinityService.java:320-326 | `maxNumberOfKeys` equals the number of queues times the buffer size, and `existingKeyCount` is 0. |
| KeyAffinity.DefaultKeyAffinityService.AddQueuesForAddresses | clustering/infinispan/spi/src/main/java/org/wildfly/clustering/infinispan/spi/affinity/DefaultKeyAffinityService.java:332-344 | The queues become the old ones overridden by a new empty queue for each member that passes the filter (a null filter passes all) and owns a primary segment. Every queue stays within the buffer size and belongs to an interesting member. |
| KeyAffinity.DefaultKeyAffinityService.TryAddKey | clustering/infinispan/spi/src/main/java/org/wildfly/clustering/infinispan/spi/affinity/DefaultKeyAffinityService.java:292-304 | A key is added iff the member has a queue with room. An added key goes to the end of that queue and `existingKeyCount` rises by one. Otherwise nothing changes. |
| KeyAffinity.DefaultKeyAffinityService.GenerateKeys | clustering/infinispan/spi/src/main/java/org/wildfly/clustering/infinispan/spi/affinity/DefaultKeyAffinityService.java:264-289 | The loop terminates. The counter rises by the number of keys added, and each added key sits in the queue of its own primary owner. When it ends within the miss budget the pool is full and the latch is closed; otherwise it made one miss too many and leaves the latch as it was. A missing distribution manager throws IllegalStateException after one key is drawn. |
| KeyAffinity.DefaultKeyAffinityService.OfferKey | clustering/infinispan/spi/src/main/java/org/wildfly/clustering/infinispan/spi/affinity/DefaultKeyAffinityService.java:274-279 | A key is accepted only for a member of interest that has a queue, and then only at the end of that queue with the counter raised by one. A refused key changes nothing. Every queue stays an extension of the base by keys its member owns. |
| KeyAffinity.DefaultKeyAffinityService.RunWorkerOnce | clustering/infinispan/spi/src/main/java/org/wildfly/clustering/infinispan/spi/affinity/DefaultKeyAffinityService.java:239-258 | A closed latch, a stopped worker or a worker whose thread has ended produces nothing and changes nothing. Otherwise one production pass runs, adding keys only to the queues of their primary owners. A missing distribution manager throws IllegalStateException out of `run`, which catches only InterruptedException, so the worker ends; the worker has ended afterwards iff it had before or this pass threw. |
| KeyAffinity.DefaultKeyAffinityService.GetKeyForAddress | clustering/infinispan/spi/src/main/java/org/wildfly/clustering/infinispan/spi/affinity/DefaultKeyAffinityService.java:117-172 | A service that is not started throws IllegalStateException and a null address throws NullPointerException, changing nothing. A member without a queue gets the next generated key with the counter untouched. A ready key is the head of the queue; it is removed, the counter drops by one, and the latch is open afterwards iff it was or the queue fell under half the buffer. On an empty queue the latch opens. A member outside the hash, or one owning no segment, gets a generated key and nothing else changes. Otherwise the producer's passes extend every queue only by keys its member owns; a key returned is owned by the member and was the head of its queue after those passes; the counter has risen by the keys produced, less one for a key returned; and the latch is open whenever the queue is under half the buffer. When the polls run out the queue is still empty (`Exhausted`). |
| KeyAffinity.DefaultKeyAffinityService.PollForKey | clustering/infinispan/spi/src/main/java/org/wildfly/clustering/infinispan/spi/affinity/DefaultKeyAffinityService.java:153-161 | While the queue is empty, each poll lets the producer run one pass. The passes extend every queue only by keys its member owns. With no key, the queue is still empty; a key found has the polled member as its primary owner and was the head of that queue, the rest of which remains. The counter has risen by exactly the keys produced, and the worker's ended flag is unchanged. |
| KeyAffinity.DefaultKeyAffinityService.TakeHead | clustering/infinispan/spi/src/main/java/org/wildfly/clustering/infinispan/spi/affinity/DefaultKeyAffinityService.java:137 | `poll` on a non-empty queue returns its head and leaves the tail; every other queue and the class invariant are kept. |
| KeyAffinity.DefaultKeyAffinityService.GetCollocatedKey | clustering/infinispan/spi/src/main/java/org/wildfly/clustering/infinispan/spi/affinity/DefaultKeyAffinityService.java:111-114 | A missing distribution manager throws IllegalStateException. A key produced for an empty queue shares the primary owner of the other key. |
| KeyAffinity.FreshQueuesStep | clustering/infinispan/spi/src/main/java/org/wildfly/clustering/infinispan/spi/affinity/DefaultKeyAffinityService.java:333-339 | One step of the member loop puts a queue exactly for a member that needs one. |
| KeyAffinity.AffineExtensionAppend | clustering/infinispan/spi/src/main/java/org/wildfly/clustering/infinispan/spi/affinity/DefaultKeyAffinityService.java:273-279 | Offering a key only to the queue of its primary owner keeps every queue a prefix-extension made of keys owned by that queue's member. |
| KeyAffinity.AffineExtensionTrans | clustering/infinispan/spi/src/main/java/org/wildfly/clustering/infinispan/spi/affinity/DefaultKeyAffinityService.java:127-163 | Two rounds of owner-only queue growth compose into one: the queues after both extend the first by keys their members own. |
| KeyAffinity.TakenHead | clustering/infinispan/spi/src/main/java/org/wildfly/clustering/infinispan/spi/affinity/DefaultKeyAffinityService.java:157 | A key polled from a queue that was empty before the producer's pass is owned by that queue's member, and putting it back in front of the polled queue restores the state before the poll. |
| SessionExpiration.CreateSessionAttributesFactory | clustering/web/infinispan/src/main/java/org/wildfly/clustering/web/infinispan/session/InfinispanSessionManagerFactory.java:192-205 | FINE yields the fine-grained factory and COARSE the coarse one, each iff. |
| SessionExpiration.StartTask | clustering/web/infinispan/src/main/java/org/wildfly/clustering/web/infinispan/session/InfinispanSessionManagerFactory.java:130-132 | The start task exists iff there is no distribution manager or the local member owns a primary segment of the write hash. It schedules exactly the keys that are local now, since its old locality is constant false. |
| SessionExpiration.CancelTask | clustering/web/infinispan/src/main/java/org/wildfly/clustering/web/infinispan/session/InfinispanSessionManagerFactory.java:246-255 | A cancel task exists iff the cache mode needs state transfer. It cancels by the end-hash locality: the keys whose primary owner is the local member. |
| SessionExpiration.ScheduleTask | clustering/web/infinispan/src/main/java/org/wildfly/clustering/web/infinispan/session/InfinispanSessionManagerFactory.java:257-268 | A schedule task exists iff state is transferred or some start member is missing at the end, and the local member owns a primary segment of the end hash. With state transfer it schedules exactly the keys that moved to the local member; without, every key the local member owns at the end. |
| SessionExpiration.Filtered | clustering/web/infinispan/src/main/java/org/wildfly/clustering/web/infinispan/session/InfinispanSessionManagerFactory.java:312 | A key is in the filtered stream iff it is a local key that passes the filter. |
| SessionExpiration.Walked | clustering/web/infinispan/src/main/java/org/wildfly/clustering/web/infinispan/session/InfinispanSessionManagerFactory.java:314-315 | The walk covers the whole stream unless it is cut exactly where the interrupt arrives. |
| SessionExpiration.RunScheduleExpirationTask | clustering/web/infinispan/src/main/java/org/wildfly/clustering/web/infinispan/session/InfinispanSessionManagerFactory.java:309-323 | The task hands the scheduler, in stream order, the ids of walked keys that were not local under the old locality and are local under the new one. The walk stops at the interrupt. |
| SessionExpiration.ScheduledIdsMembership | clustering/web/infinispan/src/main/java/org/wildfly/clustering/web/infinispan/session/InfinispanSessionManagerFactory.java:317-319 | An id is scheduled iff some key of the stream carries it and has just become local. |
| SessionExpiration.ScheduledIds | clustering/web/infinispan/src/main/java/org/wildfly/clustering/web/infinispan/session/InfinispanSessionManagerFactory.java:317-319 | At most one id is scheduled per key of the stream. |
| SessionExpiration.UninterruptedRunIsExact | clustering/web/infinispan/src/main/java/org/wildfly/clustering/web/infinispan/session/InfinispanSessionManagerFactory.java:309-323 | An uninterrupted task schedules the id of every filtered local key that became local, and no other id. |
| SessionExpiration.InfinispanSessionManagerFactory.constructor | clustering/web/infinispan/src/main/java/org/wildfly/clustering/web/infinispan/session/InfinispanSessionManagerFactory.java:111-132 | The factory starts with topology 0, no stored future, an empty executor log and its start task, and it listens. |
| SessionExpiration.InfinispanSessionManagerFactory.Submit | clustering/web/infinispan/src/main/java/org/wildfly/clustering/web/infinispan/session/InfinispanSessionManagerFactory.java:253 | A shut-down executor rejects the task. Otherwise the task is appended and its future is its position. |
| SessionExpiration.InfinispanSessionManagerFactory.TakeAndCancelFuture | clustering/web/infinispan/src/main/java/org/wildfly/clustering/web/infinispan/session/InfinispanSessionManagerFactory.java:249-252 | The stored future is taken (the slot becomes empty) and cancelled. |
| SessionExpiration.InfinispanSessionManagerFactory.Cancel | clustering/web/infinispan/src/main/java/org/wildfly/clustering/web/infinispan/session/InfinispanSessionManagerFactory.java:246-255 | Without state transfer nothing happens. With it, the previous future is taken and cancelled and the cancel task over the end hash is submitted; the rejection is reported iff the executor is shut down. |
| SessionExpiration.InfinispanSessionManagerFactory.Schedule | clustering/web/infinispan/src/main/java/org/wildfly/clustering/web/infinispan/session/InfinispanSessionManagerFactory.java:257-276 | Without a schedule task nothing happens. With one, the previous future is taken and cancelled, and the task is submitted with its future stored. A rejection is swallowed and leaves the slot empty. |
| SessionExpiration.InfinispanSessionManagerFactory.DataRehashed | clustering/web/infinispan/src/main/java/org/wildfly/clustering/web/infinispan/session/InfinispanSessionManagerFactory.java:221-234 | A pre event records the new topology id and cancels over the end hash. A post event resets the recorded id to 0 only if it equals the event's, then schedules from the start hash to the end hash. A rejected submission is swallowed. |
| SessionExpiration.InfinispanSessionManagerFactory.TopologyChanged | clustering/web/infinispan/src/main/java/org/wildfly/clustering/web/infinispan/session/InfinispanSessionManagerFactory.java:236-244 | A pre event, or a post event of the rehash in flight, changes nothing. Any other post event schedules from the read hash at the start to the write hash at the end. |
| SessionExpiration.InfinispanSessionManagerFactory.Close | clustering/web/infinispan/src/main/java/org/wildfly/clustering/web/infinispan/session/InfinispanSessionManagerFactory.java:208-219 | The factory stops listening and its executor is shut down. |
| SessionExpiration.RehashInFlight | clustering/web/infinispan/src/main/java/org/wildfly/clustering/web/infinispan/session/InfinispanSessionManagerFactory.java:224-242 | Between a rehash pre event and the topology post event of the same id, the only task submitted is the rehash's cancel task. |
| LocalSessionContexts.LocalSessionContext.constructor | clustering/web/undertow/src/main/java/org/wildfly/clustering/web/undertow/session/LocalSessionContextFactory.java:36-38 | A new context has no authenticated session and no channels. |
| LocalSessionContexts.LocalSessionContext.GetAuthenticatedSession | clustering/web/undertow/src/main/java/org/wildfly/clustering/web/undertow/session/LocalSessionContextFactory.java:40-43 | It returns the stored authenticated session. |
| LocalSessionContexts.LocalSessionContext.SetAuthenticatedSession | clustering/web/undertow/src/main/java/org/wildfly/clustering/web/undertow/session/LocalSessionContextFactory.java:45-48 | It stores the session and changes nothing else. |
| LocalSessionContexts.LocalSessionContext.GetWebSocketChannels | clustering/web/undertow/src/main/java/org/wildfly/clustering/web/undertow/session/LocalSessionContextFactory.java:50-53 | It returns the stored channels. |
| LocalSessionContexts.LocalSessionContext.SetWebSocketChannels | clustering/web/undertow/src/main/java/org/wildfly/clustering/web/undertow/session/LocalSessionContextFactory.java:55-58 | It stores the channels and changes nothing else. |
| LocalSessionContexts.CreateLocalContext | clustering/web/undertow/src/main/java/org/wildfly/clustering/web/undertow/session/LocalSessionContextFactory.java:34-38 | Each call returns a new context with both fields null. |
| LocalSessionContexts.IndependentContexts | clustering/web/undertow/src/main/java/org/wildfly/clustering/web/undertow/session/LocalSessionContextFactory.java:34-58 | Two created contexts are distinct. Setting both fields of one leaves the other empty, and each getter returns what its own setter stored. |
| UndertowSessions.GetAttributeOn | clustering/web/undertow/src/main/java/org/wildfly/clustering/web/undertow/session/DistributableSession.java:187-203 | The channels are read from the local context only. A replicated authenticated session wins over the local one. An ordinary name reads the replicated attributes. IllegalStateException is thrown iff the session rejects access and the name is not the channels. A well-typed store never throws ClassCastException. |
| UndertowSessions.SetAttributeOn | clustering/web/undertow/src/main/java/org/wildfly/clustering/web/undertow/session/DistributableSession.java:205-232 | BASIC, DIGEST and CLIENT_CERT sessions are stored locally and every other mechanism is replicated. Channels never touch the replicated attributes. An ordinary name is stored and its old value returned. It notifies nothing iff the value is unchanged, and `attributeAdded` iff there was no old value. A wrongly typed value throws ClassCastException, and a failure changes nothing. |
| UndertowSessions.RemoveAttributeOn | clustering/web/undertow/src/main/java/org/wildfly/clustering/web/undertow/session/DistributableSession.java:234-254 | A replicated authenticated session is removed and returned; otherwise the local one is cleared and returned. Channels are cleared locally. An ordinary name is removed and its old value returned, with `attributeRemoved` iff there was one. IllegalStateException is thrown iff the session rejects access and the name is not the channels. |
| UndertowSessions.GetAfterSet | clustering/web/undertow/src/main/java/org/wildfly/clustering/web/undertow/session/DistributableSession.java:191-197 | Reading back a value just set returns it, except an auto-reauthenticating session that a different replicated one shadows. |
| UndertowSessions.GetAfterRemove | clustering/web/undertow/src/main/java/org/wildfly/clustering/web/undertow/session/DistributableSession.java:238-244 | After a removal the name reads as null, except an authenticated session held both replicated and locally. |
| UndertowSessions.Int32Cast | clustering/web/undertow/src/main/java/org/wildfly/clustering/web/undertow/session/DistributableSession.java:154-163 | The narrowing to int lands in the 32-bit range, is congruent to its input modulo 2^32, and is the identity on the range. |
| UndertowSessions.RemovalNotifications | clustering/web/undertow/src/main/java/org/wildfly/clustering/web/undertow/session/DistributableSession.java:265-268 | One `attributeRemoved` per listed name, in order, each carrying that attribute's value. |
| UndertowSessions.Batch.constructor | clustering/web/undertow/src/main/java/org/wildfly/clustering/web/undertow/session/DistributableSession.java:62 | The adapter's batch starts in the given state: ACTIVE, DISCARDED or CLOSED. |
| UndertowSessions.Batch.Close | clustering/web/undertow/src/main/java/org/wildfly/clustering/web/undertow/session/DistributableSession.java:105-112 | Closing the batch leaves it CLOSED. |
| UndertowSessions.Session.constructor | clustering/web/undertow/src/main/java/org/wildfly/clustering/web/undertow/session/DistributableSession.java:86 | A new session with the given id and context is valid and open and has no attributes. |
| UndertowSessions.DistributableSession.constructor | clustering/web/undertow/src/main/java/org/wildfly/clustering/web/undertow/session/DistributableSession.java:70-76 | The adapter holds the session and its config as its entry, with that session's id, and starts with an empty trace. |
| UndertowSessions.DistributableSession.ResumableBatch | clustering/web/undertow/src/main/java/org/wildfly/clustering/web/undertow/session/DistributableSession.java:341-344 | The adapter's batch is resumed iff it exists and is not CLOSED; otherwise null is resumed. |
| UndertowSessions.DistributableSession.ResumeBatchForAccess | clustering/web/undertow/src/main/java/org/wildfly/clustering/web/undertow/session/DistributableSession.java:341-344 | The trace records the resumption of that batch. |
| UndertowSessions.DistributableSession.GetSessionEntry | clustering/web/undertow/src/main/java/org/wildfly/clustering/web/undertow/session/DistributableSession.java:78-92 | An attached entry is returned unchanged. A detached adapter builds exactly one new out-of-band entry from the retained id and local context, with a simple session config, and keeps it for later calls. |
| UndertowSessions.DistributableSession.CloseIfInvalid | clustering/web/undertow/src/main/java/org/wildfly/clustering/web/undertow/session/DistributableSession.java:346-356 | An invalid session is closed and the close task runs; a valid one is untouched. |
| UndertowSessions.DistributableSession.RequestDone | clustering/web/undertow/src/main/java/org/wildfly/clustering/web/undertow/session/DistributableSession.java:99-124 | The entry is cleared, the id and local context are retained, and the close task runs last. With a batch: a DISCARDED batch is closed first; the session is always closed; a valid session whose batch is no longer active is closed in a new batch; the batch ends CLOSED. Without one, nothing is closed and the failure is swallowed. |
| UndertowSessions.DistributableSession.GetId | clustering/web/undertow/src/main/java/org/wildfly/clustering/web/undertow/session/DistributableSession.java:126-130 | The id of the current entry, which for a detached adapter is the retained id. |
| UndertowSessions.DistributableSession.GetCreationTime | clustering/web/undertow/src/main/java/org/wildfly/clustering/web/undertow/session/DistributableSession.java:132-141 | The creation time, or IllegalStateException when the session rejects access. The batch is resumed; on failure an invalid session is closed and the close task runs. |
| UndertowSessions.DistributableSession.GetLastAccessedTime | clustering/web/undertow/src/main/java/org/wildfly/clustering/web/undertow/session/DistributableSession.java:143-152 | As above, for the last-access time. |
| UndertowSessions.DistributableSession.GetMaxInactiveInterval | clustering/web/undertow/src/main/java/org/wildfly/clustering/web/undertow/session/DistributableSession.java:154-163 | As above, for the timeout in seconds narrowed to an int. |
| UndertowSessions.DistributableSession.SetMaxInactiveInterval | clustering/web/undertow/src/main/java/org/wildfly/clustering/web/undertow/session/DistributableSession.java:165-174 | On an attached entry, the timeout is stored unless the session rejects access, in which case it throws and closes an invalid session. |
| UndertowSessions.DistributableSession.GetAttributeNames | clustering/web/undertow/src/main/java/org/wildfly/clustering/web/undertow/session/DistributableSession.java:176-185 | On an attached entry: the replicated attribute names, or IllegalStateException as above. |
| UndertowSessions.DistributableSession.GetAttribute | clustering/web/undertow/src/main/java/org/wildfly/clustering/web/undertow/session/DistributableSession.java:187-203 | The routed read of the attribute; on IllegalStateException an invalid session is closed. |
| UndertowSessions.DistributableSession.Apply | clustering/web/undertow/src/main/java/org/wildfly/clustering/web/undertow/session/DistributableSession.java:221-231 | The session takes the store of the update and the listeners hear its notifications. On IllegalStateException an invalid session is closed and the close task runs. |
| UndertowSessions.DistributableSession.SetAttribute | clustering/web/undertow/src/main/java/org/wildfly/clustering/web/undertow/session/DistributableSession.java:205-232 | A null value acts as removeAttribute. Otherwise the routed set is applied inside the resumed batch, with its result, new store, notifications and close-if-invalid. |
| UndertowSessions.DistributableSession.RemoveAttribute | clustering/web/undertow/src/main/java/org/wildfly/clustering/web/undertow/session/DistributableSession.java:234-254 | The routed removal, applied the same way. |
| UndertowSessions.DistributableSession.NotifyInvalidation | clustering/web/undertow/src/main/java/org/wildfly/clustering/web/undertow/session/DistributableSession.java:261-270 | Every attribute is reported removed exactly once with its value, then `sessionDestroyed`. |
| UndertowSessions.DistributableSession.Invalidate | clustering/web/undertow/src/main/java/org/wildfly/clustering/web/undertow/session/DistributableSession.java:256-290 | For a valid session the listeners run first, outside the batch; then the session is invalidated inside the resumed batch, its cookie is cleared, the batch is closed and the close task runs. For an invalid session no listener runs, the session is closed, the close task runs and IllegalStateException is rethrown. A valid session whose attributes cannot be read throws before anything happens. |
| UndertowSessions.DistributableSession.InvalidateInBatch | clustering/web/undertow/src/main/java/org/wildfly/clustering/web/undertow/session/DistributableSession.java:271-289 | If the session refuses to be invalidated, the exception propagates after the close task runs. An already invalid session is closed and the batch is left alone. Otherwise the session becomes invalid, an exchange has its session cleared, the batch is closed, and the close task runs last. |
| UndertowSessions.DistributableSession.ChangeSessionId | clustering/web/undertow/src/main/java/org/wildfly/clustering/web/undertow/session/DistributableSession.java:292-325 | A started response throws. On success the attributes, timeout, last-access time, authenticated session and channels are copied; then the old session is invalidated, the new id is set on the config, the entry is swapped, and `sessionIdChanged` fires. On failure the old session is closed if invalid, the new session is invalidated, the entry is kept, no `sessionIdChanged` fires, and IllegalStateException is rethrown. |
| UndertowSessions.DistributableSession.CopyAttributes | clustering/web/undertow/src/main/java/org/wildfly/clustering/web/undertow/session/DistributableSession.java:303-305 | Every attribute of the old session is set on the new one. |
| UndertowSessions.DistributableSession.CopyState | clustering/web/undertow/src/main/java/org/wildfly/clustering/web/undertow/session/DistributableSession.java:304-310 | The new session receives every attribute of the old one over its own, plus its timeout, last-access time, authenticated session and web socket channels. The old session is not touched. |
| TransactionConfig.CompleteTimeoutProperty | clustering/infinispan/extension/src/main/java/org/jboss/as/clustering/infinispan/subsystem/TransactionServiceConfigurator.java:64 | The property name is the fixed prefix, the container name, a dot, the cache name, then the fixed suffix. |
| TransactionConfig.ReadTransactionTimeout | clustering/infinispan/extension/src/main/java/org/jboss/as/clustering/infinispan/subsystem/TransactionServiceConfigurator.java:97-110 | An absent property gives 60000 ms; otherwise its value is used. |
| TransactionConfig.TransactionServiceConfigurator.constructor | clustering/infinispan/extension/src/main/java/org/jboss/as/clustering/infinispan/subsystem/TransactionServiceConfigurator.java:73-75 | A new configurator has no mode, locking mode or dependencies yet. |
| TransactionConfig.TransactionServiceConfigurator.Configure | clustering/infinispan/extension/src/main/java/org/jboss/as/clustering/infinispan/subsystem/TransactionServiceConfigurator.java:83-92 | It stores the mode, locking mode, stop timeout and completion timeout. A transaction-provider dependency exists iff the mode is neither NONE nor BATCH; a synchronization-registry dependency exists iff the mode is NON_XA. |
| TransactionConfig.TransactionServiceConfigurator.RegisteredDependencies | clustering/infinispan/extension/src/main/java/org/jboss/as/clustering/infinispan/subsystem/TransactionServiceConfigurator.java:77-81 | Exactly the non-null dependencies are registered. |
| TransactionConfig.TransactionServiceConfigurator.Get | clustering/infinispan/extension/src/main/java/org/jboss/as/clustering/infinispan/subsystem/TransactionServiceConfigurator.java:112-140 | An unconfigured mode throws NullPointerException. The cache is non-transactional iff NONE, uses synchronization iff NON_XA, and enables recovery iff FULL_XA. The manager lookup is none for NONE, embedded for BATCH, and the context manager otherwise. The registry lookup is installed iff NON_XA, which falls through to the context manager. |
| TransactionConfig.ConfiguredLookupsAreBacked | clustering/infinispan/extension/src/main/java/org/jboss/as/clustering/infinispan/subsystem/TransactionServiceConfigurator.java:83-140 | Once configured, the context-manager lookup is installed iff the transaction-provider dependency is registered, and the registry lookup iff the registry dependency is. |
| OpenApiEndpoint.EqualsIgnoreCase | microprofile/openapi-smallrye/src/main/java/org/wildfly/extension/microprofile/openapi/deployment/OpenAPIContextService.java:105 | True iff the other string is non-null, of the same length, and equal letter by letter after case folding. |
| OpenApiEndpoint.SameIgnoringCase | microprofile/openapi-smallrye/src/main/java/org/wildfly/extension/microprofile/openapi/deployment/OpenAPIContextService.java:137-138 | True iff the strings agree at every position after case folding. |
| OpenApiEndpoint.SameIgnoringCaseSymmetric | microprofile/openapi-smallrye/src/main/java/org/wildfly/extension/microprofile/openapi/deployment/OpenAPIContextService.java:137-138 | Case-insensitive comparison is symmetric. |
| OpenApiEndpoint.ContainsIff | microprofile/openapi-smallrye/src/main/java/org/wildfly/extension/microprofile/openapi/deployment/OpenAPIContextService.java:136 | `contains` finds the part iff it occurs at some position of the header. |
| OpenApiEndpoint.Contains | microprofile/openapi-smallrye/src/main/java/org/wildfly/extension/microprofile/openapi/deployment/OpenAPIContextService.java:136 | The empty part is always found, and a part is found only in a header at least as long. |
| OpenApiEndpoint.FirstFormatParam | microprofile/openapi-smallrye/src/main/java/org/wildfly/extension/microprofile/openapi/deployment/OpenAPIContextService.java:126-130 | There is a first format value iff the parameter is present with at least one value, and it is the deque's first value. |
| OpenApiEndpoint.RouteFor | microprofile/openapi-smallrye/src/main/java/org/wildfly/extension/microprofile/openapi/deployment/OpenAPIContextService.java:103-116 | A request is served iff its path equals "/openapi" ignoring case, the document is set, and the method is GET or OPTIONS. GET sends the document and OPTIONS the preflight; everything else is 404. |
| OpenApiEndpoint.FormatFor | microprofile/openapi-smallrye/src/main/java/org/wildfly/extension/microprofile/openapi/deployment/OpenAPIContextService.java:125-140 | The format is JSON iff the Accept header contains the JSON MIME type, or the first format parameter equals "JSON" or that MIME type ignoring case. It is YAML otherwise, in particular when neither is present. |
| OpenApiEndpoint.FormatParamCaseInsensitive | microprofile/openapi-smallrye/src/main/java/org/wildfly/extension/microprofile/openapi/deployment/OpenAPIContextService.java:137-138 | Two format parameters that differ only in case choose the same format. |
| OpenApiEndpoint.WithCorsHeaders | microprofile/openapi-smallrye/src/main/java/org/wildfly/extension/microprofile/openapi/deployment/OpenAPIContextService.java:162-169 | Exactly the five CORS headers are added with their fixed values; every other header is kept. |
| OpenApiEndpoint.AllHosts | microprofile/openapi-smallrye/src/main/java/org/wildfly/extension/microprofile/openapi/deployment/OpenAPIContextService.java:93-96 | The flattened hosts list server k's hosts, in their own order, right after those of the servers before it; a host is in the list iff it belongs to some server. |
| OpenApiEndpoint.InServerOrderAppend | microprofile/openapi-smallrye/src/main/java/org/wildfly/extension/microprofile/openapi/deployment/OpenAPIContextService.java:96 | Flattening one more server appends its hosts, in order, after all the earlier ones. |
| OpenApiEndpoint.FirstNamed | microprofile/openapi-smallrye/src/main/java/org/wildfly/extension/microprofile/openapi/deployment/OpenAPIContextService.java:97-98 | The position found is the first host with the name; none is found iff no host has it. |
| OpenApiEndpoint.FirstNamedAppend | microprofile/openapi-smallrye/src/main/java/org/wildfly/extension/microprofile/openapi/deployment/OpenAPIContextService.java:97-98 | The first match in a concatenation is the first match in the front part if there is one, and otherwise the first match in the back part, shifted by the front's length. |
| OpenApiEndpoint.FirstNamedIsFirstInServerOrder | microprofile/openapi-smallrye/src/main/java/org/wildfly/extension/microprofile/openapi/deployment/OpenAPIContextService.java:93-98 | The host that `findFirst` reaches in the flattened stream is the first host with the name in server-then-host order. |
| OpenApiEndpoint.HostFor | microprofile/openapi-smallrye/src/main/java/org/wildfly/extension/microprofile/openapi/deployment/OpenAPIContextService.java:89-100 | The selected host carries the deployment's host name and is that name's first host in server-then-host order: no host of an earlier server, and no earlier host of its own server, has the name. There is none iff no host of any server has that name. |
| OpenApiEndpoint.OpenAPIContextService.constructor | microprofile/openapi-smallrye/src/main/java/org/wildfly/extension/microprofile/openapi/deployment/OpenAPIContextService.java:64 | The cache starts empty and no handler is registered. |
| OpenApiEndpoint.OpenAPIContextService.Start | microprofile/openapi-smallrye/src/main/java/org/wildfly/extension/microprofile/openapi/deployment/OpenAPIContextService.java:73-79 | The handler is registered on the selected host, and on no other. |
| OpenApiEndpoint.OpenAPIContextService.Stop | microprofile/openapi-smallrye/src/main/java/org/wildfly/extension/microprofile/openapi/deployment/OpenAPIContextService.java:81-87 | The handler is unregistered from the selected host, and from no other. |
| OpenApiEndpoint.OpenAPIContextService.GetCachedOaiString | microprofile/openapi-smallrye/src/main/java/org/wildfly/extension/microprofile/openapi/deployment/OpenAPIContextService.java:149-160 | A cached format is returned without serializing and the cache is unchanged. Otherwise the document is serialized, and the result is cached unless serialization failed. |
| OpenApiEndpoint.OpenAPIContextService.HandleRequest | microprofile/openapi-smallrye/src/main/java/org/wildfly/extension/microprofile/openapi/deployment/OpenAPIContextService.java:103-147 | A 404 carries nothing and OPTIONS carries the CORS headers and "GET, HEAD, OPTIONS". GET carries the CORS headers, a Content-Type equal to the chosen format's MIME type, and the cached or freshly serialized document. |
| OpenApiEndpoint.CachedFormatIsStable | microprofile/openapi-smallrye/src/main/java/org/wildfly/extension/microprofile/openapi/deployment/OpenAPIContextService.java:149-151 | Two consecutive GET requests for the same format send the same body. When the format was already cached, the cache is unchanged and both bodies are the cached string; a successful serialization leaves the format cached. |
| ExpansionPack.ServiceTarget.constructor | expansion-pack/src/main/java/org/jboss/eap/expansion/pack/ExpansionPackDependencyVerifier.java:42 | A target starts with no services and no attempts. |
| ExpansionPack.ServiceTarget.AddService | expansion-pack/src/main/java/org/jboss/eap/expansion/pack/ExpansionPackDependencyVerifier.java:49-51 | Each attempt is logged. A duplicate name throws ServiceRegistryException and installs nothing; a new name is installed with its requirement. |
| ExpansionPack.Installation.constructor | expansion-pack/src/main/java/org/jboss/eap/expansion/pack/ExpansionPackDependencyVerifier.java:40 | The flag starts false. |
| ExpansionPack.Installation.InstallVerifier | expansion-pack/src/main/java/org/jboss/eap/expansion/pack/ExpansionPackDependencyVerifier.java:42-58 | While the flag is set nothing is attempted. Otherwise one install of the verifier is attempted, requiring product-config. The flag becomes true iff the install went through, and a registry exception is swallowed. |
| ExpansionPack.Installation.Stop | expansion-pack/src/main/java/org/jboss/eap/expansion/pack/ExpansionPackDependencyVerifier.java:99-101 | The flag is reset to false. |
| ExpansionPack.InstallOnceUntilStopped | expansion-pack/src/main/java/org/jboss/eap/expansion/pack/ExpansionPackDependencyVerifier.java:42-58 | Three installs on one target followed by a stop and an install on a second target: the verifier is attempted and installed, requiring product-config, exactly once on each target, and the flag is set at the end. |
| ExpansionPack.RetryOnSameTargetStaysUninstalled | expansion-pack/src/main/java/org/jboss/eap/expansion/pack/ExpansionPackDependencyVerifier.java:48-55 | Install, stop, install again on a target that now holds the service: the verifier is attempted twice but installed once, the duplicate is swallowed, and the flag stays false. |
| ExpansionPack.LogMessage.Code | expansion-pack/src/main/java/org/jboss/eap/expansion/pack/_private/ExpansionPackLogger.java:30-43 | The warning is tagged JBEAPXP0001 and the confirmation JBEAPXP0002. |
| ExpansionPack.PadId | expansion-pack/src/main/java/org/jboss/eap/expansion/pack/_private/ExpansionPackLogger.java:30 | A one-digit id is padded with three zeros. |
| ExpansionPack.VersionCheck | expansion-pack/src/main/java/org/jboss/eap/expansion/pack/ExpansionPackDependencyVerifier.java:74-87 | The warning is chosen iff a required base version is present and differs from the product version. It carries the release name or "JBoss EAP XP", the release version or "", and the product's name and version. Otherwise the confirmation reports the requirement, if any, which then equals the product version. |
| ExpansionPack.Start | expansion-pack/src/main/java/org/jboss/eap/expansion/pack/ExpansionPackDependencyVerifier.java:67-96 | Nothing is logged iff the resource is missing or its reading fails; otherwise the version check is logged. |
| ExpansionPack.MatchingVersionLogsOnlyDebug | expansion-pack/src/main/java/org/jboss/eap/expansion/pack/ExpansionPackDependencyVerifier.java:74-87 | A product that meets the requirement, or has none, never logs the warning tag; it logs the DEBUG tag JBEAPXP0002 whenever the resource loads. |

## Left out

- Concurrency: the read/write lock, `volatile` and atomic fields, `synchronized`, the worker thread and its 10 s await, and the single-thread executor with its `shutdownNow`/`awaitTermination`, interrupts and `Future.cancel`. Each is one sequential step: the executor is a log of accepted tasks, a future is an index into that log, a cancelled future is a member of a set, and an interrupt is the position at which the schedule task stops.
- KeyAffinity.DefaultKeyAffinityService.GetKeyForAddress: `getKeyForAddress` waits on the empty queue for as long as it takes. The model makes at most `fuel` timed polls, each preceded by one producer pass, and returns `Exhausted` when they are used up. A topology change during the wait is not interleaved. Over the wait, the new queues are stated only as an extension of the old ones by keys each member owns, not key by key, and the latch in the `finally` block only as open whenever the member's queue is under half the buffer.
- KeyAffinity.DefaultKeyAffinityService.GetCollocatedKey: the owner of a key returned is stated only for a queue that was empty on entry. Keys already queued may have been generated under an earlier topology, so the model does not claim their ownership.
- KeyAffinity.DefaultKeyAffinityService.constructor: it requires a positive buffer size, because the `ArrayBlockingQueue` that `addQueuesForAddresses` creates throws for a capacity of zero or less. In `DefaultKeyAffinityService` that failure surfaces at `start`.
- KeyAffinity: the int counters do not wrap around. `maxNumberOfKeys` would only overflow past 2^31 keys.
- KeyAffinity: the float threshold `size < bufferSize * 0.5 + 1` is the exact integer comparison `2 * size < bufferSize + 2`.
- KeyAffinity: `start` does not clear queues left from before a `stop`; `DefaultKeyAffinityService.start` does not either, and the model keeps that.
- KeyAffinity: `handleCacheStopped`, `isKeyGeneratorThreadAlive` and `getAddress2KeysMapping` are wiring or diagnostics and are not part of this model. Logging is left out.
- SessionExpiration: the expiration scheduler (`cancel(locality)`, `schedule(id)`) is the boundary. A cancel task is represented by the locality it hands to `cancel`, and a schedule task by the ids it hands to `schedule`.
- SessionExpiration: `CacheLocality` is a parameter of the constructor. The session key filter is an arbitrary predicate, and the local key set is a sequence in stream order.
- SessionExpiration: close also closes the primary-owner and expiration schedulers; those are not part of this model.
- SessionExpiration.CreateSessionAttributesFactory: the unreachable `default` branch that throws IllegalStateException is not modelled, because the strategy datatype has exactly two cases.
- UndertowSessions: the distributed `Session` is a bag of fields. An attribute or meta-data access throws IllegalStateException when the session is invalid, or is being invalidated concurrently (`rejecting`). Its id and local context are always readable.
- UndertowSessions.DistributableSession.GetSessionEntry: the out-of-band session is modelled as a new, valid, empty session. Its lookups through the session manager are not modelled, so the accessors' contracts for a detached adapter state only which entry they resolve to.
- UndertowSessions.DistributableSession.ChangeSessionId: the identifier and the new session that the session manager creates are parameters. A failure in the middle of the copy is modelled as a failure before it, so partially copied state on the new session is not modelled.
- UndertowSessions: Java reference equality (`old != value`) is value equality, and listener, batch and cookie calls are trace events. Session-config cookie handling, `Instant`/`Duration` conversion and the manager's active-session bookkeeping are left out.
- UndertowSessions.DistributableSession.SetMaxInactiveInterval: the argument is a Java int, so it is required to lie in the 32-bit range.
- UndertowSessions.DistributableSession.SetMaxInactiveInterval: a detached adapter writes through the out-of-band session to the session the manager stores. `OOBSession` is not part of this model, so for a detached adapter the contract states only which entry it resolves to, not the outcome or where the value lands.
- UndertowSessions.DistributableSession.GetAttributeNames: a detached adapter reads the names of the session the manager stores, through the out-of-band session. `OOBSession` is not part of this model, so for a detached adapter the contract states only which entry it resolves to, not the names returned.
- TransactionConfig: configuration resolution from the management model, `System.getProperty` and its security-manager branch, and `Long.parseLong` failure are left out. The system properties are given already parsed.
- TransactionConfig.TransactionServiceConfigurator.Get: the Infinispan builder is a record of the decided fields; a null locking mode, possible only before configure, is given as OPTIMISTIC.
- OpenApiEndpoint: case folding covers ASCII letters only. When serialization throws an IOException, `getModel` returns null, `computeIfAbsent` caches nothing and `send` receives null. The model records that as a `None` body and does not capture what Undertow's sender then writes. The Undertow exchange is a request/response record.
- OpenApiEndpoint: the broken `documentBuilder`/`document` fields at lines 65-66 are unused and are not part of this model. Logging is left out.
- OpenApiEndpoint.FirstFormatParam: an empty deque of format values reads as absent.
- ExpansionPack: class-path resource loading, the `Properties` parser and the `InputStream` are left out. The resource is missing, unreadable (an IOException, ignored) or loaded as a map. An IOException from `close` after the message was logged changes nothing that is modelled.
- ExpansionPack: an MSC service registry exception other than a duplicate name is not modelled. The MSC start and stop contexts are left out, and logging is a returned message.
