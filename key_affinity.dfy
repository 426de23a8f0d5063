/** DefaultKeyAffinityService: a pool of pre-generated cache keys, one
    bounded queue per interesting cluster member, each holding keys whose
    primary owner is that member. */
module KeyAffinity {
  import opened Options
  import opened ConsistentHashes

  /** interestedInAddress: a null filter accepts every member. */
  predicate InterestedInAddress(filter: Option<set<Address>>, address: Address) {
    filter.None? || address in filter.value
  }

  /** The test addQueuesForAddresses applies to each member of the hash. */
  predicate NeedsQueue<K>(hash: ConsistentHash<K>, filter: Option<set<Address>>, address: Address) {
    InterestedInAddress(filter, address) && OwnsPrimarySegments(hash, address)
  }

  /** The queues addQueuesForAddresses puts while walking `members`:
      a new, empty queue for each member that needs one. */
  function FreshQueues<K>(hash: ConsistentHash<K>, filter: Option<set<Address>>, members: seq<Address>): map<Address, seq<K>> {
    map a | a in members && NeedsQueue(hash, filter, a) :: []
  }

  /** `size < bufferSize * THRESHOLD + 1` with THRESHOLD = 0.5, in exact
      integer arithmetic. */
  predicate BelowThreshold(size: nat, bufferSize: nat) {
    2 * size < bufferSize + 2
  }

  /** `after` keeps every queue of `before`, each as a prefix, and every
      key appended since is primarily owned by the member of its queue. */
  ghost predicate AffineExtension<K>(before: map<Address, seq<K>>, after: map<Address, seq<K>>, owner: K -> Address) {
    && before.Keys == after.Keys
    && forall a | a in after ::
         && before[a] <= after[a]
         && forall j | |before[a]| <= j < |after[a]| :: owner(after[a][j]) == a
  }

  /** A topology-changed notification, as the service reads it. */
  datatype TopologyChangedEvent<!K> = TopologyChangedEvent(pre: bool, consistentHashAtEnd: ConsistentHash<K>)

  /** What getKeyForAddress hands back. `Exhausted` is the model's own: the
      caller's patience (`fuel`) ran out while DefaultKeyAffinityService would still wait. */
  datatype KeyOutcome<K> =
    | Queued(key: K)      // taken from the member's queue
    | Generated(key: K)   // a fresh, unaffinitised key from the generator
    | Exhausted
    | Failed(error: Error)

  class DefaultKeyAffinityService<K(==)> {
    const filter: Option<set<Address>>
    const bufferSize: nat
    /** The key generator, as the stream of keys it yields. */
    const keyGenerator: nat -> K
    /** How many keys have been drawn from the generator. */
    var generated: nat

    var address2key: map<Address, seq<K>>
    var maxNumberOfKeys: int
    var existingKeyCount: int
    var started: bool
    /** The current KeyGeneratorWorker has been told to stop (or none was started). */
    var workerStopped: bool
    /** The current KeyGeneratorWorker's thread has ended on an exception
        escaping generateKeys; only a new worker produces again. */
    var workerExited: bool
    /** keyProducerStartLatch is open. */
    var latchOpen: bool
    /** The service is registered as a listener on the cache. */
    var listening: bool

    /** The invariant the read/write lock guards, plus what the queues keep. */
    ghost predicate Valid()
      reads this
    {
      && bufferSize > 0
      && maxNumberOfKeys == |address2key| * bufferSize
      && QueuesBounded()
      && (forall a | a in address2key :: InterestedInAddress(filter, a))
      && (started ==> !workerStopped)
    }

    /** `after` is `before` with a new, empty queue put for every member of
        `hash` that needs one. */
    ghost predicate QueuesAdded(before: map<Address, seq<K>>, after: map<Address, seq<K>>, hash: ConsistentHash<K>) {
      after == before + FreshQueues(hash, filter, hash.members)
    }

    /** Every queue is an ArrayBlockingQueue of capacity bufferSize. */
    ghost predicate QueuesBounded()
      reads this
    {
      forall a | a in address2key :: |address2key[a]| <= bufferSize
    }

    constructor (filter: Option<set<Address>>, bufferSize: nat, keyGenerator: nat -> K)
      requires bufferSize > 0
      ensures Valid()
      ensures this.filter == filter && this.bufferSize == bufferSize && this.keyGenerator == keyGenerator
      ensures address2key == map[] && maxNumberOfKeys == 0 && existingKeyCount == 0 && generated == 0
      ensures !started && workerStopped && !workerExited && !latchOpen && !listening
    {
      this.filter := filter;
      this.bufferSize := bufferSize;
      this.keyGenerator := keyGenerator;
      generated := 0;
      address2key := map[];
      maxNumberOfKeys := 0;
      existingKeyCount := 0;
      started := false;
      workerStopped := true;
      workerExited := false;
      latchOpen := false;
      listening := false;
    }

    /** keyGenerator.getKey(): the next key of the stream. */
    method GetKey() returns (key: K)
      modifies this`generated
      ensures key == keyGenerator(old(generated)) && generated == old(generated) + 1
    {
      key := keyGenerator(generated);
      generated := generated + 1;
    }

    method Start(dm: Option<ConsistentHash<K>>) returns (outcome: Outcome)
      requires Valid()
      modifies this`address2key, this`maxNumberOfKeys, this`existingKeyCount, this`started, this`workerStopped,
               this`workerExited, this`latchOpen, this`listening
      ensures Valid()
      ensures old(started) ==> outcome == Done && unchanged(this)
      ensures !old(started) && dm.None? ==> outcome == Threw(NullPointer) && unchanged(this)
      ensures !old(started) && dm.Some? ==>
        && outcome == Done
        && QueuesAdded(old(address2key), address2key, dm.value)
        && maxNumberOfKeys == |address2key| * bufferSize && existingKeyCount == 0
        && started && !workerStopped && !workerExited && latchOpen && listening && generated == old(generated)
    {
      if started {
        return Done;
      }
      if dm.None? {
        // cache.getAdvancedCache().getDistributionManager().getCacheTopology()
        return Threw(NullPointer);
      }
      AddQueuesAndReset(dm.value);
      StartWorker();
      outcome := Done;
    }

    /** Start a new KeyGeneratorWorker, register the listener, open the latch. */
    method StartWorker()
      requires Valid()
      modifies this`workerStopped, this`workerExited, this`listening, this`latchOpen, this`started
      ensures Valid()
      ensures started && !workerStopped && !workerExited && latchOpen && listening
    {
      workerStopped := false;
      workerExited := false;
      listening := true;
      latchOpen := true;
      started := true;
    }

    method Stop()
      requires Valid()
      modifies this
      ensures Valid()
      ensures !old(started) ==> unchanged(this)
      ensures old(started) ==>
        && !started && !listening && workerStopped && latchOpen
        && address2key == old(address2key) && maxNumberOfKeys == old(maxNumberOfKeys)
        && existingKeyCount == old(existingKeyCount) && generated == old(generated)
        && workerExited == old(workerExited)
    {
      if !started {
        return;
      }
      started := false;
      listening := false;
      // keyGenWorker.stop()
      workerStopped := true;
      latchOpen := true;
    }

    method HandleViewChange(event: TopologyChangedEvent<K>)
      requires Valid()
      modifies this`address2key, this`maxNumberOfKeys, this`existingKeyCount, this`latchOpen
      ensures Valid()
      ensures event.pre ==> unchanged(this)
      ensures !event.pre ==>
        && address2key == FreshQueues(event.consistentHashAtEnd, filter, event.consistentHashAtEnd.members)
        && maxNumberOfKeys == |address2key| * bufferSize && existingKeyCount == 0 && latchOpen
    {
      if !event.pre {
        // the key mapping is stale after a view change: drop every queue
        address2key := map[];
        AddQueuesForAddresses(event.consistentHashAtEnd);
        EmptyUnion(FreshQueues(event.consistentHashAtEnd, filter, event.consistentHashAtEnd.members));
        ResetNumberOfKeys();
        latchOpen := true;
      }
    }

    /** The write-locked block of start: add queues for the current hash,
        then reset the counters. */
    method AddQueuesAndReset(hash: ConsistentHash<K>)
      requires Valid()
      modifies this`address2key, this`maxNumberOfKeys, this`existingKeyCount
      ensures Valid()
      ensures QueuesAdded(old(address2key), address2key, hash)
      ensures maxNumberOfKeys == |address2key| * bufferSize && existingKeyCount == 0
    {
      AddQueuesForAddresses(hash);
      ResetNumberOfKeys();
    }

    method ResetNumberOfKeys()
      modifies this`maxNumberOfKeys, this`existingKeyCount
      ensures maxNumberOfKeys == |address2key| * bufferSize && existingKeyCount == 0
    {
      maxNumberOfKeys := |address2key| * bufferSize;
      existingKeyCount := 0;
    }

    method AddQueuesForAddresses(hash: ConsistentHash<K>)
      requires QueuesBounded() && forall a | a in address2key :: InterestedInAddress(filter, a)
      modifies this`address2key
      ensures QueuesBounded() && forall a | a in address2key :: InterestedInAddress(filter, a)
      ensures address2key == old(address2key) + FreshQueues(hash, filter, hash.members)
    {
      for i := 0 to |hash.members|
        invariant address2key == old(address2key) + FreshQueues(hash, filter, hash.members[..i])
        invariant QueuesBounded() && forall a | a in address2key :: InterestedInAddress(filter, a)
      {
        var address := hash.members[i];
        AddQueueStep(old(address2key), address2key, hash, filter, hash.members, i);
        if InterestedInAddress(filter, address) && OwnsPrimarySegments(hash, address) {
          address2key := address2key[address := []];
        }
      }
      assert hash.members[..|hash.members|] == hash.members;
    }

    /** KeyGeneratorWorker.tryAddKey. */
    method TryAddKey(address: Address, key: K) returns (added: bool)
      requires Valid()
      modifies this`address2key, this`existingKeyCount
      ensures Valid()
      ensures added <==> address in old(address2key) && |old(address2key)[address]| < bufferSize
      ensures added ==>
        && address2key == old(address2key)[address := old(address2key)[address] + [key]]
        && existingKeyCount == old(existingKeyCount) + 1
      ensures !added ==> address2key == old(address2key) && existingKeyCount == old(existingKeyCount)
    {
      if address !in address2key {
        // the distribution may still name a member whose queue is gone
        return false;
      }
      var queue := address2key[address];
      added := |queue| < bufferSize;    // queue.offer(key)
      if added {
        address2key := address2key[address := queue + [key]];
        existingKeyCount := existingKeyCount + 1;
      }
    }

    /** KeyGeneratorWorker.generateKeys: fill the queues until the pool is
        full or the miss budget is spent. `added` and `misses` count the
        loop's outcomes. */
    method GenerateKeys(dm: Option<ConsistentHash<K>>) returns (outcome: Outcome, ghost added: nat, ghost misses: nat)
      requires Valid()
      modifies this`address2key, this`existingKeyCount, this`generated, this`latchOpen
      ensures Valid()
      ensures existingKeyCount == old(existingKeyCount) + added
      ensures dm.None? ==> address2key == old(address2key) && added == 0
      ensures dm.Some? ==> AffineExtension(old(address2key), address2key, dm.value.primaryOwner)
      ensures outcome.Threw? ==>
        && dm.None? && outcome.error == IllegalState && old(existingKeyCount) < maxNumberOfKeys
        && generated == old(generated) + 1 && latchOpen == old(latchOpen)
      ensures outcome.Done? ==>
        && generated == old(generated) + added + misses
        && (misses <= maxNumberOfKeys ==> existingKeyCount >= maxNumberOfKeys && !latchOpen)
        && (misses > maxNumberOfKeys ==> misses == maxNumberOfKeys + 1 && latchOpen == old(latchOpen))
    {
      var maxMisses := maxNumberOfKeys;
      var missCount := 0;
      added := 0;
      while existingKeyCount < maxNumberOfKeys && missCount <= maxMisses
        invariant Valid() && maxMisses == maxNumberOfKeys
        invariant 0 <= missCount <= maxMisses + 1
        invariant existingKeyCount == old(existingKeyCount) + added
        invariant generated == old(generated) + added + missCount
        invariant latchOpen == old(latchOpen)
        invariant dm.None? ==> address2key == old(address2key) && added == 0 && missCount == 0
        invariant dm.Some? ==> AffineExtension(old(address2key), address2key, dm.value.primaryOwner)
        decreases maxNumberOfKeys - existingKeyCount + maxMisses - missCount
      {
        var key := GetKey();
        if dm.None? {
          // getDistributionManager(): a null distribution manager
          misses := missCount;
          return Threw(IllegalState), added, misses;
        }
        var ok := OfferKey(dm.value, key, old(address2key));
        if ok {
          added := added + 1;
        } else {
          missCount := missCount + 1;
        }
      }
      misses := missCount;
      // too many misses: leave the latch open and try again later
      if missCount <= maxMisses {
        latchOpen := false;
      }
      outcome := Done;
    }

    /** The body of the generateKeys loop after the key is drawn: offer it
        to the queue of its primary owner when that owner is of interest. */
    method OfferKey(hash: ConsistentHash<K>, key: K, ghost base: map<Address, seq<K>>) returns (ok: bool)
      requires Valid() && AffineExtension(base, address2key, hash.primaryOwner)
      modifies this`address2key, this`existingKeyCount
      ensures Valid() && AffineExtension(base, address2key, hash.primaryOwner)
      ensures ok ==> InterestedInAddress(filter, hash.primaryOwner(key)) && hash.primaryOwner(key) in old(address2key)
      ensures ok ==> address2key == old(address2key)[hash.primaryOwner(key) := old(address2key)[hash.primaryOwner(key)] + [key]]
      ensures !ok ==> address2key == old(address2key)
      ensures existingKeyCount == old(existingKeyCount) + (if ok then 1 else 0)
    {
      var addressForKey := hash.primaryOwner(key);
      ok := false;
      if InterestedInAddress(filter, addressForKey) {
        ok := TryAddKey(addressForKey, key);
        if ok {
          AffineExtensionAppend(base, old(address2key), address2key, hash.primaryOwner, addressForKey, key);
        }
      }
    }

    /** One pass of KeyGeneratorWorker.run: produce if the latch is open
        and the worker has neither been stopped nor ended. run catches only
        InterruptedException, so the IllegalStateException of a missing
        distribution manager ends the worker's thread. */
    method RunWorkerOnce(dm: Option<ConsistentHash<K>>) returns (outcome: Outcome, ghost added: nat)
      requires Valid()
      modifies this`address2key, this`existingKeyCount, this`generated, this`latchOpen, this`workerExited
      ensures Valid()
      ensures existingKeyCount == old(existingKeyCount) + added
      ensures !old(latchOpen) || workerStopped || old(workerExited) ==> unchanged(this) && outcome == Done
      ensures outcome.Threw? ==> dm.None? && outcome.error == IllegalState
      ensures workerExited == (old(workerExited) || outcome.Threw?)
      ensures dm.None? ==> address2key == old(address2key)
      ensures dm.Some? ==> AffineExtension(old(address2key), address2key, dm.value.primaryOwner)
    {
      added := 0;
      outcome := Done;
      if latchOpen && !workerStopped && !workerExited {
        ghost var misses;
        outcome, added, misses := GenerateKeys(dm);
        if outcome.Threw? {
          workerExited := true;
        }
      }
    }

    /** getKeyForAddress. Its polling loop is modelled as a first
        non-blocking pass followed by up to `fuel` timed polls; during each
        timed poll the producer, woken by the open latch, runs one pass. */
    method GetKeyForAddress(address: Option<Address>, dm: Option<ConsistentHash<K>>, fuel: nat)
      returns (r: KeyOutcome<K>, ghost produced: nat)
      requires Valid()
      modifies this`address2key, this`existingKeyCount, this`generated, this`latchOpen, this`workerExited
      ensures Valid() && workerExited == old(workerExited)
      ensures !old(started) ==> r == Failed(IllegalState) && unchanged(this)
      ensures old(started) && address.None? ==> r == Failed(NullPointer) && unchanged(this)
      // no queue for the member: a fresh key, counter untouched
      ensures old(started) && address.Some? && address.value !in old(address2key) ==>
        && r == Generated(keyGenerator(old(generated))) && generated == old(generated) + 1
        && address2key == old(address2key) && existingKeyCount == old(existingKeyCount)
        && latchOpen == old(latchOpen)
      // a key is ready: take the head of the queue, count it out
      ensures old(started) && address.Some? && address.value in old(address2key) && old(address2key)[address.value] != [] ==>
        var a := address.value;
        && r == Queued(old(address2key)[a][0])
        && address2key == old(address2key)[a := old(address2key)[a][1..]]
        && existingKeyCount == old(existingKeyCount) - 1 && generated == old(generated)
        && latchOpen == (old(latchOpen) || BelowThreshold(|address2key[a]|, bufferSize))
      // the queue is empty
      ensures old(started) && address.Some? && address.value in old(address2key) && old(address2key)[address.value] == [] ==>
        var a := address.value;
        && (dm.None? ==> r == Failed(NullPointer) && latchOpen)
        && (dm.Some? && (a !in dm.value.members || !OwnsPrimarySegments(dm.value, a)) ==>
              && r == Generated(keyGenerator(old(generated))) && generated == old(generated) + 1
              && address2key == old(address2key) && existingKeyCount == old(existingKeyCount) && latchOpen)
        // wait: the producer's passes extend the queues by owned keys, and a key
        // found is the head of the member's queue after them
        && (dm.Some? && a in dm.value.members && OwnsPrimarySegments(dm.value, a) ==>
              && (r.Queued? || r.Exhausted?) && a in address2key
              && (r.Exhausted? ==>
                    && address2key[a] == [] && AffineExtension(old(address2key), address2key, dm.value.primaryOwner)
                    && existingKeyCount == old(existingKeyCount) + produced)
              && (r.Queued? ==>
                    && dm.value.primaryOwner(r.key) == a
                    && AffineExtension(old(address2key), address2key[a := [r.key] + address2key[a]], dm.value.primaryOwner)
                    && existingKeyCount == old(existingKeyCount) + produced - 1
                    && (BelowThreshold(|address2key[a]|, bufferSize) ==> latchOpen)))
    {
      produced := 0;
      if !started {
        return Failed(IllegalState), produced;
      }
      if address.None? {
        return Failed(NullPointer), produced;
      }
      var a := address.value;
      if a !in address2key {
        var key := GetKey();
        return Generated(key), produced;
      }
      var result: Option<K> := None;
      if address2key[a] != [] {
        // first try to take an element without waiting
        var key := TakeHead(a);
        result := Some(key);
      } else {
        // make sure the producer is started
        latchOpen := true;
        if dm.None? {
          return Failed(NullPointer), produced;
        }
        var hash := dm.value;
        if a !in hash.members || !OwnsPrimarySegments(hash, a) {
          var key := GetKey();
          return Generated(key), produced;
        }
        var polled;
        polled, produced := PollForKey(a, hash, fuel);
        if polled.None? {
          return Exhausted, produced;
        }
        result := polled;
      }
      existingKeyCount := existingKeyCount - 1;
      if BelowThreshold(|address2key[a]|, bufferSize) {
        latchOpen := true;
      }
      r := Queued(result.value);
    }

    /** queue.poll() on a non-empty queue: take its head. */
    method TakeHead(a: Address) returns (key: K)
      requires Valid() && a in address2key && address2key[a] != []
      modifies this`address2key
      ensures Valid()
      ensures key == old(address2key)[a][0] && address2key == old(address2key)[a := old(address2key)[a][1..]]
    {
      var queue := address2key[a];
      key := queue[0];
      address2key := address2key[a := queue[1..]];
    }

    /** The timed polls of getKeyForAddress on an empty queue of a member
        that owns primary segments: up to `fuel` polls, during each of which
        the producer runs one pass. A key found is taken off the queue. */
    method PollForKey(a: Address, hash: ConsistentHash<K>, fuel: nat) returns (result: Option<K>, ghost produced: nat)
      requires Valid() && started && a in address2key && address2key[a] == []
      modifies this`address2key, this`existingKeyCount, this`generated, this`latchOpen, this`workerExited
      ensures Valid() && a in address2key && workerExited == old(workerExited)
      ensures result.None? ==> address2key[a] == [] && AffineExtension(old(address2key), address2key, hash.primaryOwner)
      ensures result.Some? ==>
        && hash.primaryOwner(result.value) == a
        && AffineExtension(old(address2key), address2key[a := [result.value] + address2key[a]], hash.primaryOwner)
      ensures existingKeyCount == old(existingKeyCount) + produced
    {
      produced := 0;
      result := None;
      var polls := 0;
      while result.None?
        invariant Valid() && started && a in address2key
        invariant workerExited == old(workerExited)
        invariant result.None? ==> address2key[a] == [] && AffineExtension(old(address2key), address2key, hash.primaryOwner)
        invariant result.Some? ==>
          && hash.primaryOwner(result.value) == a
          && AffineExtension(old(address2key), address2key[a := [result.value] + address2key[a]], hash.primaryOwner)
        invariant existingKeyCount == old(existingKeyCount) + produced
        invariant polls <= fuel
        decreases fuel - polls, result.None?
      {
        if polls == fuel {
          return;
        }
        ghost var before := address2key;
        var o, added := RunWorkerOnce(Some(hash));
        produced := produced + added;
        AffineExtensionTrans(old(address2key), before, address2key, hash.primaryOwner);
        if address2key[a] != [] {
          ghost var polled := address2key;
          var key := TakeHead(a);
          TakenHead(before, polled, address2key, hash.primaryOwner, a);
          AffineExtensionTrans(old(address2key), before, polled, hash.primaryOwner);
          result := Some(key);
        }
        polls := polls + 1;
      }
    }

    /** getCollocatedKey: a key for the primary owner of `otherKey`. */
    method GetCollocatedKey(otherKey: K, dm: Option<ConsistentHash<K>>, fuel: nat)
      returns (r: KeyOutcome<K>, ghost produced: nat)
      requires Valid()
      modifies this`address2key, this`existingKeyCount, this`generated, this`latchOpen, this`workerExited
      ensures Valid() && workerExited == old(workerExited)
      ensures dm.None? ==> r == Failed(IllegalState) && unchanged(this)
      ensures dm.Some? && !old(started) ==> r == Failed(IllegalState)
      ensures dm.Some? && r.Queued? && dm.value.primaryOwner(otherKey) in old(address2key) &&
              old(address2key)[dm.value.primaryOwner(otherKey)] == [] ==>
        dm.value.primaryOwner(r.key) == dm.value.primaryOwner(otherKey)
    {
      if dm.None? {
        return Failed(IllegalState), 0;
      }
      var address := dm.value.primaryOwner(otherKey);
      r, produced := GetKeyForAddress(Some(address), dm, fuel);
    }
  }

  /** Putting a queue for the i-th member extends FreshQueues by that member. */
  lemma FreshQueuesStep<K>(hash: ConsistentHash<K>, filter: Option<set<Address>>, members: seq<Address>, i: nat)
    requires i < |members|
    ensures FreshQueues(hash, filter, members[..i+1]) ==
      if NeedsQueue(hash, filter, members[i])
      then FreshQueues(hash, filter, members[..i])[members[i] := []]
      else FreshQueues(hash, filter, members[..i])
  {
    assert forall a :: a in members[..i+1] <==> a in members[..i] || a == members[i] by {
      assert members[..i+1] == members[..i] + [members[i]];
    }
  }

  lemma EmptyUnion<K>(m: map<Address, seq<K>>)
    ensures map[] + m == m
  {
  }

  /** One step of addQueuesForAddresses: putting the member's queue when it
      needs one extends the queues put so far by one member. */
  lemma AddQueueStep<K>(base: map<Address, seq<K>>, current: map<Address, seq<K>>, hash: ConsistentHash<K>,
                        filter: Option<set<Address>>, members: seq<Address>, i: nat)
    requires i < |members|
    requires current == base + FreshQueues(hash, filter, members[..i])
    ensures NeedsQueue(hash, filter, members[i]) ==> current[members[i] := []] == base + FreshQueues(hash, filter, members[..i+1])
    ensures !NeedsQueue(hash, filter, members[i]) ==> current == base + FreshQueues(hash, filter, members[..i+1])
  {
    FreshQueuesStep(hash, filter, members, i);
  }

  /** The head taken from a queue that was empty before the producer ran
      is owned by the queue's member, and putting it back restores the queues. */
  lemma TakenHead<K>(before: map<Address, seq<K>>, polled: map<Address, seq<K>>, after: map<Address, seq<K>>,
                     owner: K -> Address, a: Address)
    requires AffineExtension(before, polled, owner) && a in before && before[a] == []
    requires a in polled && polled[a] != [] && after == polled[a := polled[a][1..]]
    ensures owner(polled[a][0]) == a
    ensures after[a := [polled[a][0]] + after[a]] == polled
  {
    assert [polled[a][0]] + polled[a][1..] == polled[a];
  }

  /** Affine extensions compose. */
  lemma AffineExtensionTrans<K>(first: map<Address, seq<K>>, second: map<Address, seq<K>>, third: map<Address, seq<K>>,
                                owner: K -> Address)
    requires AffineExtension(first, second, owner) && AffineExtension(second, third, owner)
    ensures AffineExtension(first, third, owner)
  {
    forall a | a in third
      ensures first[a] <= third[a] && forall j | |first[a]| <= j < |third[a]| :: owner(third[a][j]) == a
    {
      forall j | |first[a]| <= j < |third[a]|
        ensures owner(third[a][j]) == a
      {
        if j < |second[a]| {
          assert third[a][j] == second[a][j];
        }
      }
    }
  }

  /** Appending a key to the queue of its primary owner keeps an affine extension. */
  lemma AffineExtensionAppend<K>(base: map<Address, seq<K>>, before: map<Address, seq<K>>, after: map<Address, seq<K>>,
                                 owner: K -> Address, address: Address, key: K)
    requires AffineExtension(base, before, owner)
    requires address in before && after == before[address := before[address] + [key]]
    requires owner(key) == address
    ensures AffineExtension(base, after, owner)
  {
    forall a | a in after
      ensures base[a] <= after[a] && forall j | |base[a]| <= j < |after[a]| :: owner(after[a][j]) == a
    {
      if a == address {
        assert after[a] == before[a] + [key];
      }
    }
  }
}
