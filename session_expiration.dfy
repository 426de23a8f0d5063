/** InfinispanSessionManagerFactory: rescheduling of local session
    expiration when the primary ownership of sessions moves between cluster
    members. The factory listens to rehash and topology-change events of
    the session cache and hands cancel and schedule tasks to a
    single-threaded executor. */
module SessionExpiration {
  import opened Options
  import opened ConsistentHashes

  /** Key<String>: the cache key of a session, wrapping its id. */
  datatype SessionKey = SessionKey(value: string)

  /** Which keys the local member considers its own. */
  datatype Locality =
    | SimpleLocality(local: bool)
    | ConsistentHashLocality(hash: ConsistentHash<SessionKey>, localAddress: Address)

  /** Locality.isLocal: a constant, or "the local member is the key's
      primary owner in the hash". */
  predicate IsLocal(locality: Locality, key: SessionKey) {
    match locality
    case SimpleLocality(local) => local
    case ConsistentHashLocality(hash, localAddress) => hash.primaryOwner(key) == localAddress
  }

  /** The test ScheduleExpirationTask applies to every key: the local member
      has just become its primary owner. */
  predicate NewlyLocal(oldLocality: Locality, newLocality: Locality, key: SessionKey) {
    !IsLocal(oldLocality, key) && IsLocal(newLocality, key)
  }

  /** The two kinds of task the factory submits to its executor. */
  datatype Task =
    | CancelExpirationTask(locality: Locality)
    | ScheduleExpirationTask(oldLocality: Locality, newLocality: Locality)

  /** The events the factory listens to. */
  datatype DataRehashedEvent = DataRehashedEvent(
    pre: bool, newTopologyId: int,
    consistentHashAtStart: ConsistentHash<SessionKey>, consistentHashAtEnd: ConsistentHash<SessionKey>)

  datatype TopologyChangedEvent = TopologyChangedEvent(
    pre: bool, newTopologyId: int,
    readConsistentHashAtStart: ConsistentHash<SessionKey>, writeConsistentHashAtEnd: ConsistentHash<SessionKey>)

  /** The attribute persistence strategies a session manager may be configured with. */
  datatype SessionAttributePersistenceStrategy = FINE | COARSE

  /** The session attributes factory built for each strategy. */
  datatype SessionAttributesFactory = FineSessionAttributesFactory | CoarseSessionAttributesFactory

  /** createSessionAttributesFactory: one attribute per cache entry (FINE)
      or all attributes in one entry (COARSE). */
  function CreateSessionAttributesFactory(strategy: SessionAttributePersistenceStrategy): (f: SessionAttributesFactory)
    ensures f.FineSessionAttributesFactory? <==> strategy == FINE
    ensures f.CoarseSessionAttributesFactory? <==> strategy == COARSE
  {
    match strategy
    case FINE => FineSessionAttributesFactory
    case COARSE => CoarseSessionAttributesFactory
  }

  /** The start task of the constructor, given the write consistent hash of
      the distribution manager (None: the cache has none) and the locality
      of the cache as it is now. */
  function StartTask(writeHash: Option<ConsistentHash<SessionKey>>, localAddress: Address, cacheLocality: Locality): (t: Option<Task>)
    ensures t.Some? <==> writeHash.None? || OwnsPrimarySegments(writeHash.value, localAddress)
    ensures t.Some? ==> t.value.ScheduleExpirationTask? && t.value.newLocality == cacheLocality
    // nothing was local before: the task schedules every key that is local now
    ensures t.Some? ==> forall k :: NewlyLocal(t.value.oldLocality, t.value.newLocality, k) <==> IsLocal(cacheLocality, k)
  {
    if writeHash.None? || PrimarySegmentsForOwner(writeHash.value, localAddress) != {}
    then Some(ScheduleExpirationTask(SimpleLocality(false), cacheLocality))
    else None
  }

  /** The task cancel submits for the hash at the end of a rehash, if any:
      caches that need no state transfer (invalidation caches) keep their
      local expiration scheduling. */
  function CancelTask(needsStateTransfer: bool, localAddress: Address, hash: ConsistentHash<SessionKey>): (t: Option<Task>)
    ensures t.Some? <==> needsStateTransfer
    ensures t.Some? ==> t.value == CancelExpirationTask(ConsistentHashLocality(hash, localAddress))
    ensures t.Some? ==> forall k :: IsLocal(t.value.locality, k) <==> hash.primaryOwner(k) == localAddress
  {
    if needsStateTransfer then Some(CancelExpirationTask(ConsistentHashLocality(hash, localAddress))) else None
  }

  /** The task schedule submits for a change from `startHash` to `endHash`,
      if any: only when state is transferred or some member left, and only
      when the local member owns a primary segment in the end hash. */
  function ScheduleTask(needsStateTransfer: bool, localAddress: Address,
                        startHash: ConsistentHash<SessionKey>, endHash: ConsistentHash<SessionKey>): (t: Option<Task>)
    ensures t.Some? <==>
      (needsStateTransfer || !ContainsAll(endHash.members, startHash.members)) && OwnsPrimarySegments(endHash, localAddress)
    ensures t.Some? ==> t.value.ScheduleExpirationTask? && t.value.newLocality == ConsistentHashLocality(endHash, localAddress)
    // with state transfer: the keys whose primary ownership moved here;
    // without: every key owned here at the end
    ensures t.Some? ==> forall k ::
      NewlyLocal(t.value.oldLocality, t.value.newLocality, k) <==>
        endHash.primaryOwner(k) == localAddress && (needsStateTransfer ==> startHash.primaryOwner(k) != localAddress)
  {
    if needsStateTransfer || !ContainsAll(endHash.members, startHash.members) then
      if PrimarySegmentsForOwner(endHash, localAddress) != {} then
        var oldLocality := if needsStateTransfer then ConsistentHashLocality(startHash, localAddress) else SimpleLocality(false);
        Some(ScheduleExpirationTask(oldLocality, ConsistentHashLocality(endHash, localAddress)))
      else None
    else None
  }

  /** stream.filter(filter) over the local key set. */
  function Filtered(keys: seq<SessionKey>, filter: SessionKey -> bool): (r: seq<SessionKey>)
    ensures forall k :: k in r <==> k in keys && filter(k)
  {
    if keys == [] then []
    else Filtered(keys[..|keys| - 1], filter) + (if filter(keys[|keys| - 1]) then [keys[|keys| - 1]] else [])
  }

  /** The session ids a ScheduleExpirationTask passes to scheduler.schedule,
      in stream order, after walking all of `stream`. */
  function ScheduledIds(stream: seq<SessionKey>, oldLocality: Locality, newLocality: Locality): (ids: seq<string>)
    ensures |ids| <= |stream|
  {
    if stream == [] then []
    else
      var key := stream[|stream| - 1];
      ScheduledIds(stream[..|stream| - 1], oldLocality, newLocality) + (if NewlyLocal(oldLocality, newLocality, key) then [key.value] else [])
  }

  /** How many keys of a stream of `n` the task walks before it sees the
      interrupt that arrives before key number `interruptAt`. */
  function Walked(n: nat, interruptAt: Option<nat>): (w: nat)
    ensures w <= n
    ensures w < n ==> interruptAt == Some(w)
  {
    if interruptAt.Some? && interruptAt.value < n then interruptAt.value else n
  }

  /** ScheduleExpirationTask.run: walk the filtered local keys until the
      thread is interrupted and return, in order, the ids handed to the
      scheduler. */
  method RunScheduleExpirationTask(localKeys: seq<SessionKey>, filter: SessionKey -> bool,
                                   oldLocality: Locality, newLocality: Locality, interruptAt: Option<nat>)
    returns (scheduled: seq<string>)
    ensures var stream := Filtered(localKeys, filter);
      scheduled == ScheduledIds(stream[..Walked(|stream|, interruptAt)], oldLocality, newLocality)
  {
    var keys := Filtered(localKeys, filter);
    scheduled := [];
    var i := 0;
    while i < |keys|
      invariant i <= |keys|
      invariant interruptAt.Some? ==> i <= interruptAt.value
      invariant scheduled == ScheduledIds(keys[..i], oldLocality, newLocality)
    {
      if interruptAt == Some(i) {
        break;
      }
      var key := keys[i];
      assert keys[..i + 1][..i] == keys[..i];
      if !IsLocal(oldLocality, key) && IsLocal(newLocality, key) {
        scheduled := scheduled + [key.value];
      }
      i := i + 1;
    }
  }

  /** A session id is scheduled exactly when some key of the stream carries
      it and has just become local. */
  lemma {:induction false} ScheduledIdsMembership(stream: seq<SessionKey>, oldLocality: Locality, newLocality: Locality, id: string)
    ensures id in ScheduledIds(stream, oldLocality, newLocality) <==>
      exists k :: k in stream && k.value == id && NewlyLocal(oldLocality, newLocality, k)
  {
    if stream != [] {
      var front := stream[..|stream| - 1];
      var key := stream[|stream| - 1];
      ScheduledIdsMembership(front, oldLocality, newLocality, id);
      assert stream == front + [key];
      assert forall k :: k in stream <==> k in front || k == key;
    }
  }

  /** An uninterrupted run schedules the id of every filtered local key
      that has just become local, and nothing else. */
  lemma UninterruptedRunIsExact(localKeys: seq<SessionKey>, filter: SessionKey -> bool,
                                oldLocality: Locality, newLocality: Locality, id: string)
    ensures var stream := Filtered(localKeys, filter);
      id in ScheduledIds(stream[..Walked(|stream|, None)], oldLocality, newLocality) <==>
        exists k :: k in localKeys && filter(k) && k.value == id && NewlyLocal(oldLocality, newLocality, k)
  {
    var stream := Filtered(localKeys, filter);
    assert stream[..Walked(|stream|, None)] == stream;
    ScheduledIdsMembership(stream, oldLocality, newLocality, id);
  }

  class InfinispanSessionManagerFactory {
    /** The cache mode needs state transfer (it is not an invalidation cache). */
    const needsStateTransfer: bool
    /** cache.getCacheManager().getAddress() */
    const localAddress: Address
    const startTask: Option<Task>

    var rehashTopology: int
    /** The handle of the last schedule task still stored, as its position in `submitted`. */
    var rehashFuture: Option<nat>
    /** The tasks the executor accepted, in submission order. */
    var submitted: seq<Task>
    /** The positions in `submitted` of the futures cancelled. */
    var cancelled: set<nat>
    /** The executor has been shut down. */
    var shutdown: bool
    /** The factory is registered as a cache listener. */
    var listening: bool

    /** The stored future, if any, is a schedule task the executor accepted. */
    ghost predicate Valid()
      reads this
    {
      && (rehashFuture.Some? ==>
            rehashFuture.value < |submitted| && submitted[rehashFuture.value].ScheduleExpirationTask?)
      && (forall f | f in cancelled :: f < |submitted|)
    }

    /** The futures set aside by getAndSet(null). */
    static function Taken(future: Option<nat>): set<nat> {
      if future.Some? then {future.value} else {}
    }

    constructor (needsStateTransfer: bool, localAddress: Address,
                 writeHash: Option<ConsistentHash<SessionKey>>, cacheLocality: Locality)
      ensures Valid()
      ensures this.needsStateTransfer == needsStateTransfer && this.localAddress == localAddress
      ensures startTask == StartTask(writeHash, localAddress, cacheLocality)
      ensures rehashTopology == 0 && rehashFuture == None && submitted == [] && cancelled == {}
      ensures !shutdown && listening
    {
      this.needsStateTransfer := needsStateTransfer;
      this.localAddress := localAddress;
      startTask := StartTask(writeHash, localAddress, cacheLocality);
      rehashTopology := 0;
      rehashFuture := None;
      submitted := [];
      cancelled := {};
      shutdown := false;
      listening := true;
    }

    /** executor.submit: rejected once the executor is shut down. */
    method Submit(task: Task) returns (future: Option<nat>)
      modifies this`submitted
      ensures old(shutdown) ==> future == None && submitted == old(submitted)
      ensures !old(shutdown) ==> future == Some(|old(submitted)|) && submitted == old(submitted) + [task]
    {
      if shutdown {
        return None;
      }
      future := Some(|submitted|);
      submitted := submitted + [task];
    }

    /** rehashFuture.getAndSet(null), then cancel the previous task. */
    method TakeAndCancelFuture()
      requires Valid()
      modifies this`rehashFuture, this`cancelled
      ensures Valid()
      ensures rehashFuture == None && cancelled == old(cancelled) + Taken(old(rehashFuture))
    {
      var future := rehashFuture;
      rehashFuture := None;
      if future.Some? {
        cancelled := cancelled + {future.value};
      }
    }

    /** cancel. `rejected`: the executor refused the task (it propagates to
        dataRehashed, which swallows it). The future of a cancel task is
        not stored. */
    method Cancel(hash: ConsistentHash<SessionKey>) returns (rejected: bool)
      requires Valid()
      modifies this`rehashFuture, this`cancelled, this`submitted
      ensures Valid()
      ensures !needsStateTransfer ==> unchanged(this) && !rejected
      ensures needsStateTransfer ==>
        && rehashFuture == None && cancelled == old(cancelled) + Taken(old(rehashFuture))
        && rejected == old(shutdown)
        && submitted == old(submitted) + (if rejected then [] else [CancelTask(needsStateTransfer, localAddress, hash).value])
    {
      rejected := false;
      var task := CancelTask(needsStateTransfer, localAddress, hash);
      if task.Some? {
        TakeAndCancelFuture();
        var future := Submit(task.value);
        rejected := future.None?;
      }
    }

    /** schedule. A rejected submission is swallowed here. */
    method Schedule(startHash: ConsistentHash<SessionKey>, endHash: ConsistentHash<SessionKey>)
      requires Valid()
      modifies this`rehashFuture, this`cancelled, this`submitted
      ensures Valid()
      ensures ScheduleTask(needsStateTransfer, localAddress, startHash, endHash).None? ==> unchanged(this)
      ensures ScheduleTask(needsStateTransfer, localAddress, startHash, endHash).Some? ==>
        var task := ScheduleTask(needsStateTransfer, localAddress, startHash, endHash).value;
        && cancelled == old(cancelled) + Taken(old(rehashFuture))
        && (old(shutdown) ==> submitted == old(submitted) && rehashFuture == None)
        && (!old(shutdown) ==> submitted == old(submitted) + [task] && rehashFuture == Some(|old(submitted)|))
    {
      var task := ScheduleTask(needsStateTransfer, localAddress, startHash, endHash);
      if task.Some? {
        TakeAndCancelFuture();
        var future := Submit(task.value);
        // compareAndSet(null, future): the slot was emptied just above
        if rehashFuture.None? {
          rehashFuture := future;
        }
      }
    }

    /** dataRehashed. */
    method DataRehashed(event: DataRehashedEvent)
      requires Valid()
      modifies this`rehashTopology, this`rehashFuture, this`cancelled, this`submitted
      ensures Valid()
      ensures event.pre ==>
        && rehashTopology == event.newTopologyId
        && (!needsStateTransfer ==> submitted == old(submitted) && rehashFuture == old(rehashFuture) && cancelled == old(cancelled))
        && (needsStateTransfer ==>
              && rehashFuture == None && cancelled == old(cancelled) + Taken(old(rehashFuture))
              && submitted == old(submitted) + (if old(shutdown) then [] else [CancelTask(needsStateTransfer, localAddress, event.consistentHashAtEnd).value]))
      ensures !event.pre ==>
        && rehashTopology == (if old(rehashTopology) == event.newTopologyId then 0 else old(rehashTopology))
        && var task := ScheduleTask(needsStateTransfer, localAddress, event.consistentHashAtStart, event.consistentHashAtEnd);
           && (task.None? ==> submitted == old(submitted) && rehashFuture == old(rehashFuture) && cancelled == old(cancelled))
           && (task.Some? ==>
                 && cancelled == old(cancelled) + Taken(old(rehashFuture))
                 && submitted == old(submitted) + (if old(shutdown) then [] else [task.value])
                 && rehashFuture == (if old(shutdown) then None else Some(|old(submitted)|)))
    {
      if event.pre {
        rehashTopology := event.newTopologyId;
        var rejected := Cancel(event.consistentHashAtEnd);
        // a rejection means the executor was shut down: ignored
      } else {
        if rehashTopology == event.newTopologyId {
          rehashTopology := 0;
        }
        Schedule(event.consistentHashAtStart, event.consistentHashAtEnd);
      }
    }

    /** topologyChanged: a topology with no rehash of its own in flight
        may still move primary ownership, so reschedule from the read hash
        at the start to the write hash at the end. */
    method TopologyChanged(event: TopologyChangedEvent)
      requires Valid()
      modifies this`rehashFuture, this`cancelled, this`submitted
      ensures Valid()
      ensures event.pre || old(rehashTopology) == event.newTopologyId ==> unchanged(this)
      ensures !event.pre && old(rehashTopology) != event.newTopologyId ==>
        var task := ScheduleTask(needsStateTransfer, localAddress, event.readConsistentHashAtStart, event.writeConsistentHashAtEnd);
        && (task.None? ==> unchanged(this))
        && (task.Some? ==>
              && cancelled == old(cancelled) + Taken(old(rehashFuture))
              && submitted == old(submitted) + (if old(shutdown) then [] else [task.value])
              && rehashFuture == (if old(shutdown) then None else Some(|old(submitted)|)))
    {
      if !event.pre && rehashTopology != event.newTopologyId {
        Schedule(event.readConsistentHashAtStart, event.writeConsistentHashAtEnd);
      }
    }

    /** close: stop listening and shut the executor down; no task is
        accepted afterwards. */
    method Close()
      modifies this`listening, this`shutdown
      ensures !listening && shutdown
    {
      listening := false;
      shutdown := true;
    }
  }

  /** While a rehash announced by its pre event is in flight, the
      topology-changed post event of the same topology submits nothing:
      the rehash post event does the rescheduling. */
  method RehashInFlight(factory: InfinispanSessionManagerFactory, rehash: DataRehashedEvent, topology: TopologyChangedEvent)
    requires factory.Valid() && rehash.pre && !topology.pre && topology.newTopologyId == rehash.newTopologyId
    modifies factory
    ensures factory.Valid()
    ensures factory.rehashTopology == rehash.newTopologyId
    ensures factory.submitted == old(factory.submitted) +
      (if old(factory.shutdown) || !factory.needsStateTransfer then []
       else [CancelTask(factory.needsStateTransfer, factory.localAddress, rehash.consistentHashAtEnd).value])
  {
    factory.DataRehashed(rehash);
    factory.TopologyChanged(topology);
  }
}
