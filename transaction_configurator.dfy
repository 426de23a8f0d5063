/** TransactionServiceConfigurator: turns the transaction resource of a
    cache (its mode, locking mode and stop timeout) into the service
    dependencies the transaction configuration needs and into the
    Infinispan TransactionConfiguration itself. */
module TransactionConfig {
  import opened Options

  /** The subsystem's transaction modes. */
  datatype TransactionMode = NONE | BATCH | NON_XA | NON_DURABLE_XA | FULL_XA

  datatype LockingMode = OPTIMISTIC | PESSIMISTIC

  /** org.infinispan.transaction.TransactionMode. */
  datatype CacheTransactionMode = NON_TRANSACTIONAL | TRANSACTIONAL

  /** The transaction manager a TransactionManagerProvider hands out. */
  datatype TransactionManager = EmbeddedTransactionManager | ContextTransactionManager

  /** The capabilities a dependency can be on. */
  datatype Capability = LocalTransactionProvider | TransactionSynchronizationRegistry

  /** The parts of the built TransactionConfiguration this code decides. */
  datatype TransactionConfiguration = TransactionConfiguration(
    lockingMode: LockingMode,
    cacheStopTimeout: int,
    completedTxTimeout: int,
    transactionMode: CacheTransactionMode,
    useSynchronization: bool,
    recoveryEnabled: bool,
    transactionManagerLookup: Option<TransactionManager>,
    synchronizationRegistryLookup: bool)

  const COMPLETE_TIMEOUT_PROPERTY_PREFIX: string := "org.wildfly.infinispan.cache-configuration."
  const COMPLETE_TIMEOUT_PROPERTY_SUFFIX: string := ".transaction.complete-timeout"
  /** TimeUnit.SECONDS.toMillis(60) */
  const DEFAULT_COMPLETED_TX_TIMEOUT: int := 60_000

  /** COMPLETE_TIMEOUT_PROPERTY_PATTERN formatted with the container name,
      then the cache name. */
  function CompleteTimeoutProperty(containerName: string, cacheName: string): (name: string)
    ensures |name| == |COMPLETE_TIMEOUT_PROPERTY_PREFIX| + |containerName| + 1 + |cacheName| + |COMPLETE_TIMEOUT_PROPERTY_SUFFIX|
    ensures name[..|COMPLETE_TIMEOUT_PROPERTY_PREFIX|] == COMPLETE_TIMEOUT_PROPERTY_PREFIX
    ensures name[|name| - |COMPLETE_TIMEOUT_PROPERTY_SUFFIX|..] == COMPLETE_TIMEOUT_PROPERTY_SUFFIX
    ensures name[|COMPLETE_TIMEOUT_PROPERTY_PREFIX|..|name| - |COMPLETE_TIMEOUT_PROPERTY_SUFFIX|] == containerName + "." + cacheName
  {
    COMPLETE_TIMEOUT_PROPERTY_PREFIX + containerName + "." + cacheName + COMPLETE_TIMEOUT_PROPERTY_SUFFIX
  }

  /** readTransactionTimeoutSystemProperty over the system properties, each
      already parsed as a long. */
  function ReadTransactionTimeout(properties: map<string, int>, containerName: string, cacheName: string): (timeout: int)
    ensures CompleteTimeoutProperty(containerName, cacheName) !in properties ==> timeout == DEFAULT_COMPLETED_TX_TIMEOUT
    ensures CompleteTimeoutProperty(containerName, cacheName) in properties ==>
      timeout == properties[CompleteTimeoutProperty(containerName, cacheName)]
  {
    var property := CompleteTimeoutProperty(containerName, cacheName);
    if property in properties then properties[property] else DEFAULT_COMPLETED_TX_TIMEOUT
  }

  class TransactionServiceConfigurator {
    /** The names of the parent services: the cache container and the cache. */
    const containerName: string
    const cacheName: string

    /** null (None) until configured. */
    var mode: Option<TransactionMode>
    var locking: Option<LockingMode>
    var stopTimeout: int
    var transactionTimeout: int
    var transactionDependency: Option<Capability>
    var tsrDependency: Option<Capability>

    constructor (containerName: string, cacheName: string)
      ensures this.containerName == containerName && this.cacheName == cacheName
      ensures mode == None && locking == None && transactionDependency == None && tsrDependency == None
    {
      this.containerName := containerName;
      this.cacheName := cacheName;
      mode := None;
      locking := None;
      stopTimeout := 0;
      transactionTimeout := 0;
      transactionDependency := None;
      tsrDependency := None;
    }

    /** configure, given the resolved model attributes and the system properties. */
    method Configure(mode: TransactionMode, locking: LockingMode, stopTimeout: int, properties: map<string, int>)
      modifies this
      ensures this.mode == Some(mode) && this.locking == Some(locking) && this.stopTimeout == stopTimeout
      ensures transactionTimeout == ReadTransactionTimeout(properties, containerName, cacheName)
      // a transaction provider is needed unless the cache is non-transactional or batching
      ensures transactionDependency.Some? <==> mode !in {NONE, BATCH}
      ensures transactionDependency.Some? ==> transactionDependency.value == LocalTransactionProvider
      ensures tsrDependency.Some? <==> mode == NON_XA
      ensures tsrDependency.Some? ==> tsrDependency.value == TransactionSynchronizationRegistry
    {
      this.mode := Some(mode);
      this.locking := Some(locking);
      this.stopTimeout := stopTimeout;
      transactionTimeout := ReadTransactionTimeout(properties, containerName, cacheName);
      transactionDependency := if mode != NONE && mode != BATCH then Some(LocalTransactionProvider) else None;
      tsrDependency := if mode == NON_XA then Some(TransactionSynchronizationRegistry) else None;
    }

    /** register: the composite dependency registers the dependencies that are set. */
    function RegisteredDependencies(): (deps: seq<Capability>)
      reads this
      ensures forall c :: c in deps <==> transactionDependency == Some(c) || tsrDependency == Some(c)
      ensures |deps| <= 2
    {
      (if transactionDependency.Some? then [transactionDependency.value] else []) +
      (if tsrDependency.Some? then [tsrDependency.value] else [])
    }

    /** get: the switch on a null mode throws. */
    function Get(): (r: Result<TransactionConfiguration>)
      reads this
      ensures r.Fail? <==> mode.None?
      ensures r.Fail? ==> r.error == NullPointer
      ensures r.Ok? ==>
        var m := mode.value;
        var c := r.value;
        && (c.transactionMode == NON_TRANSACTIONAL <==> m == NONE)
        && (c.useSynchronization <==> m == NON_XA)
        && (c.recoveryEnabled <==> m == FULL_XA)
        && (c.transactionManagerLookup == None <==> m == NONE)
        && (c.transactionManagerLookup == Some(EmbeddedTransactionManager) <==> m == BATCH)
        && (c.transactionManagerLookup == Some(ContextTransactionManager) <==> m in {NON_XA, NON_DURABLE_XA, FULL_XA})
        && (c.synchronizationRegistryLookup <==> m == NON_XA)
        && c.cacheStopTimeout == stopTimeout && c.completedTxTimeout == transactionTimeout
        && (locking.Some? ==> c.lockingMode == locking.value)
    {
      if mode.None? then Fail(NullPointer)
      else
        var m := mode.value;
        var lookups: (Option<TransactionManager>, bool) :=
          match m
          case NONE => (None, false)
          case BATCH => (Some(EmbeddedTransactionManager), false)
          // NON_XA installs the registry lookup, then falls through to the default
          case NON_XA => (Some(ContextTransactionManager), true)
          case _ => (Some(ContextTransactionManager), false);
        Ok(TransactionConfiguration(
          if locking.Some? then locking.value else OPTIMISTIC,
          stopTimeout,
          transactionTimeout,
          if m == NONE then NON_TRANSACTIONAL else TRANSACTIONAL,
          m == NON_XA,
          m == FULL_XA,
          lookups.0,
          lookups.1))
    }
  }

  /** Once configured, every lookup the configuration installs is backed by
      a registered dependency: the context transaction manager by the local
      transaction provider, the registry lookup by the registry. And no
      dependency is registered that the configuration does not use. */
  method ConfiguredLookupsAreBacked(configurator: TransactionServiceConfigurator, mode: TransactionMode,
                                    locking: LockingMode, stopTimeout: int, properties: map<string, int>)
    modifies configurator
    ensures configurator.Get().Ok?
    ensures var c := configurator.Get().value;
      && (c.transactionManagerLookup == Some(ContextTransactionManager) <==> LocalTransactionProvider in configurator.RegisteredDependencies())
      && (c.synchronizationRegistryLookup <==> TransactionSynchronizationRegistry in configurator.RegisteredDependencies())
  {
    configurator.Configure(mode, locking, stopTimeout, properties);
  }
}
