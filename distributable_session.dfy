/** DistributableSession: the Undertow view of a distributed web session.
    While a request is in flight the adapter holds the distributed session
    and its cookie configuration; once the request is done it keeps only
    the session id and the local context, and builds one out-of-band
    session from them if it is touched again. Attribute reads and writes
    are routed between the replicated attributes of the distributed
    session and its per-member local context. */
module UndertowSessions {
  import opened Options
  import opened LocalSessionContexts

  /** CachedAuthenticatedSessionHandler.ATTRIBUTE_NAME */
  const AUTHENTICATED_SESSION_ATTRIBUTE: string :=
    "io.undertow.servlet.handlers.security.CachedAuthenticatedSessionHandler.AuthenticatedSession"
  const WEB_SOCKET_CHANNELS_ATTRIBUTE: string := "io.undertow.websocket.current-connections"
  /** Mechanisms that can re-authenticate on their own, so their
      authenticated session stays in the local context instead of being
      replicated: HttpServletRequest.BASIC_AUTH, DIGEST_AUTH, CLIENT_CERT_AUTH. */
  const AUTO_REAUTHENTICATING_MECHANISMS: set<string> := {"BASIC", "DIGEST", "CLIENT_CERT"}

  /** An HttpServerExchange, opaque here. */
  type Exchange = nat

  /** An attribute value: an application object, an authenticated session
      or a list of websocket channels. */
  datatype Value =
    | Plain(object: int)
    | AuthValue(auth: AuthenticatedSession)
    | ChannelsValue(channels: seq<WebSocketChannel>)

  /** The calls the adapter makes on its collaborators (the batcher, the
      close task, the session listeners, the session config), in order. */
  datatype Event =
    | ResumeBatch(ofAdapter: bool)      // true: this adapter's batch; false: null
    | CreateBatch
    | CloseTask(exchange: Option<Exchange>)
    | AttributeAdded(name: string, value: Value)
    | AttributeUpdated(name: string, value: Value, oldValue: Value)
    | AttributeRemoved(name: string, value: Value)
    | SessionDestroyed(exchange: Option<Exchange>)
    | SessionIdChanged(oldId: string)
    | ClearSession(request: Exchange, id: string)
    | SetSessionId(request: Exchange, newId: string)

  // ---------------------------------------------------------------------
  // Attribute routing, on values

  /** The state an attribute operation reads and writes: the replicated
      attributes and the two fields of the local context. */
  datatype AttributeStore = AttributeStore(
    replicated: map<string, Value>,
    auth: Option<AuthenticatedSession>,
    channels: Option<seq<WebSocketChannel>>)

  /** The store after an attribute operation, what the operation returns
      or throws, and the listener notifications it fires. */
  datatype Update = Update(store: AttributeStore, result: Result<Option<Value>>, events: seq<Event>)

  function Lookup(attributes: map<string, Value>, name: string): Option<Value> {
    if name in attributes then Some(attributes[name]) else None
  }

  function AuthAsValue(auth: Option<AuthenticatedSession>): Option<Value> {
    if auth.Some? then Some(AuthValue(auth.value)) else None
  }

  function ChannelsAsValue(channels: Option<seq<WebSocketChannel>>): Option<Value> {
    if channels.Some? then Some(ChannelsValue(channels.value)) else None
  }

  /** A name with no special routing. */
  predicate Ordinary(name: string) {
    name != AUTHENTICATED_SESSION_ATTRIBUTE && name != WEB_SOCKET_CHANNELS_ATTRIBUTE
  }

  /** The replicated slot of the authenticated session holds one. */
  predicate WellTyped(store: AttributeStore) {
    AUTHENTICATED_SESSION_ATTRIBUTE in store.replicated ==>
      store.replicated[AUTHENTICATED_SESSION_ATTRIBUTE].AuthValue?
  }

  /** The notification for an ordinary attribute set to `value` over `previous`. */
  function SetNotification(name: string, value: Value, previous: Option<Value>): seq<Event> {
    if previous.None? then [AttributeAdded(name, value)]
    else if previous.value != value then [AttributeUpdated(name, value, previous.value)]
    else []
  }

  /** getAttribute, inside the resumed batch. `rejects`: the distributed
      session throws IllegalStateException when its attributes are read. */
  function GetAttributeOn(store: AttributeStore, rejects: bool, name: string): (r: Result<Option<Value>>)
    // the channels live only in the local context
    ensures name == WEB_SOCKET_CHANNELS_ATTRIBUTE ==> r == Ok(ChannelsAsValue(store.channels))
    // a replicated authenticated session wins over a local one
    ensures name == AUTHENTICATED_SESSION_ATTRIBUTE && !rejects && WellTyped(store) ==>
      r == Ok(if AUTHENTICATED_SESSION_ATTRIBUTE in store.replicated
              then Some(store.replicated[AUTHENTICATED_SESSION_ATTRIBUTE])
              else AuthAsValue(store.auth))
    ensures Ordinary(name) && !rejects ==> r == Ok(Lookup(store.replicated, name))
    ensures r == Fail(IllegalState) <==> rejects && name != WEB_SOCKET_CHANNELS_ATTRIBUTE
    ensures WellTyped(store) ==> r != Fail(ClassCast)
  {
    if name == AUTHENTICATED_SESSION_ATTRIBUTE then
      if rejects then Fail(IllegalState)
      else if name in store.replicated then
        match store.replicated[name]
        case AuthValue(auth) => Ok(Some(AuthValue(auth)))
        case _ => Fail(ClassCast)
      else Ok(AuthAsValue(store.auth))
    else if name == WEB_SOCKET_CHANNELS_ATTRIBUTE then Ok(ChannelsAsValue(store.channels))
    else if rejects then Fail(IllegalState)
    else Ok(Lookup(store.replicated, name))
  }

  /** setAttribute with a non-null value, inside the resumed batch. */
  function SetAttributeOn(store: AttributeStore, rejects: bool, name: string, value: Value): (u: Update)
    // a failed set changes nothing and notifies no one
    ensures u.result.Fail? ==> u.store == store && u.events == []
    ensures u.result == Fail(ClassCast) <==>
      (name == AUTHENTICATED_SESSION_ATTRIBUTE && !value.AuthValue?) ||
      (name == WEB_SOCKET_CHANNELS_ATTRIBUTE && !value.ChannelsValue?)
    // an auto-reauthenticating mechanism keeps its session local
    ensures name == AUTHENTICATED_SESSION_ATTRIBUTE && value.AuthValue? && value.auth.mechanism in AUTO_REAUTHENTICATING_MECHANISMS ==>
      u == Update(store.(auth := Some(value.auth)), Ok(AuthAsValue(store.auth)), [])
    // any other mechanism replicates it
    ensures name == AUTHENTICATED_SESSION_ATTRIBUTE && value.AuthValue? && value.auth.mechanism !in AUTO_REAUTHENTICATING_MECHANISMS && !rejects ==>
      u == Update(store.(replicated := store.replicated[name := value]), Ok(Lookup(store.replicated, name)), [])
    // channels never touch the replicated attributes
    ensures name == WEB_SOCKET_CHANNELS_ATTRIBUTE ==> u.store.replicated == store.replicated && u.events == []
    ensures name == WEB_SOCKET_CHANNELS_ATTRIBUTE && value.ChannelsValue? ==>
      u.store == store.(channels := Some(value.channels)) && u.result == Ok(ChannelsAsValue(store.channels))
    // an ordinary attribute: stored, the old value returned, one notification unless unchanged
    ensures Ordinary(name) && !rejects ==>
      && u.store == store.(replicated := store.replicated[name := value])
      && u.result == Ok(Lookup(store.replicated, name))
      && (u.events == [] <==> Lookup(store.replicated, name) == Some(value))
      && (u.events == [AttributeAdded(name, value)] <==> name !in store.replicated)
    ensures !Ordinary(name) ==> u.events == []
    ensures WellTyped(store) ==> WellTyped(u.store)
  {
    if name == AUTHENTICATED_SESSION_ATTRIBUTE then
      match value
      case AuthValue(auth) =>
        if auth.mechanism in AUTO_REAUTHENTICATING_MECHANISMS then
          Update(store.(auth := Some(auth)), Ok(AuthAsValue(store.auth)), [])
        else if rejects then Update(store, Fail(IllegalState), [])
        else Update(store.(replicated := store.replicated[name := value]), Ok(Lookup(store.replicated, name)), [])
      case _ => Update(store, Fail(ClassCast), [])
    else if name == WEB_SOCKET_CHANNELS_ATTRIBUTE then
      match value
      case ChannelsValue(channels) =>
        Update(store.(channels := Some(channels)), Ok(ChannelsAsValue(store.channels)), [])
      case _ => Update(store, Fail(ClassCast), [])
    else if rejects then Update(store, Fail(IllegalState), [])
    else
      var previous := Lookup(store.replicated, name);
      Update(store.(replicated := store.replicated[name := value]), Ok(previous), SetNotification(name, value, previous))
  }

  /** removeAttribute, inside the resumed batch. */
  function RemoveAttributeOn(store: AttributeStore, rejects: bool, name: string): (u: Update)
    ensures u.result == Fail(IllegalState) <==> rejects && name != WEB_SOCKET_CHANNELS_ATTRIBUTE
    ensures u.result == Fail(IllegalState) ==> u.store == store && u.events == []
    // a replicated authenticated session is removed and returned; otherwise the local one is cleared and returned
    ensures name == AUTHENTICATED_SESSION_ATTRIBUTE && !rejects && WellTyped(store) ==>
      if name in store.replicated
      then u == Update(store.(replicated := store.replicated - {name}), Ok(Some(store.replicated[name])), [])
      else u == Update(store.(auth := None), Ok(AuthAsValue(store.auth)), [])
    ensures name == WEB_SOCKET_CHANNELS_ATTRIBUTE ==>
      u == Update(store.(channels := None), Ok(ChannelsAsValue(store.channels)), [])
    // an ordinary attribute: removed and returned, with a notification iff there was one
    ensures Ordinary(name) && !rejects ==>
      && u.store == store.(replicated := store.replicated - {name})
      && u.result == Ok(Lookup(store.replicated, name))
      && u.events == (if name in store.replicated then [AttributeRemoved(name, store.replicated[name])] else [])
    ensures WellTyped(store) ==> WellTyped(u.store) && u.result != Fail(ClassCast)
  {
    if name == AUTHENTICATED_SESSION_ATTRIBUTE then
      if rejects then Update(store, Fail(IllegalState), [])
      else
        var removed := Lookup(store.replicated, name);
        var rest := store.(replicated := store.replicated - {name});
        match removed
        case None => Update(rest.(auth := None), Ok(AuthAsValue(store.auth)), [])
        case Some(AuthValue(_)) => Update(rest, Ok(removed), [])
        // the cast fails after the removal
        case Some(_) => Update(rest, Fail(ClassCast), [])
    else if name == WEB_SOCKET_CHANNELS_ATTRIBUTE then
      Update(store.(channels := None), Ok(ChannelsAsValue(store.channels)), [])
    else if rejects then Update(store, Fail(IllegalState), [])
    else
      var previous := Lookup(store.replicated, name);
      Update(store.(replicated := store.replicated - {name}), Ok(previous),
             if previous.Some? then [AttributeRemoved(name, previous.value)] else [])
  }

  /** Reading back what was just set returns it, except for an
      auto-reauthenticated session, which a different replicated one shadows. */
  lemma GetAfterSet(store: AttributeStore, name: string, value: Value)
    requires WellTyped(store)
    requires SetAttributeOn(store, false, name, value).result.Ok?
    ensures var after := SetAttributeOn(store, false, name, value).store;
      GetAttributeOn(after, false, name) == Ok(Some(value)) <==>
        !(name == AUTHENTICATED_SESSION_ATTRIBUTE && value.auth.mechanism in AUTO_REAUTHENTICATING_MECHANISMS &&
          name in store.replicated && store.replicated[name] != value)
  {
    var after := SetAttributeOn(store, false, name, value).store;
    if name == AUTHENTICATED_SESSION_ATTRIBUTE {
      assert value.AuthValue?;
      assert WellTyped(after);
    }
  }

  /** Reading back what was just removed finds nothing, except for an
      authenticated session held both replicated and locally: removing it
      drops the replicated one and leaves the local one readable. */
  lemma GetAfterRemove(store: AttributeStore, name: string)
    requires WellTyped(store)
    ensures var after := RemoveAttributeOn(store, false, name).store;
      GetAttributeOn(after, false, name) == Ok(None) <==>
        !(name == AUTHENTICATED_SESSION_ATTRIBUTE && name in store.replicated && store.auth.Some?)
  {
    var after := RemoveAttributeOn(store, false, name).store;
    assert WellTyped(after);
  }

  /** `(int) seconds`: Java's narrowing of a long to int, keeping the low 32 bits. */
  function Int32Cast(x: int): (r: int)
    ensures -0x8000_0000 <= r < 0x8000_0000
    ensures (x - r) % 0x1_0000_0000 == 0
    ensures -0x8000_0000 <= x < 0x8000_0000 ==> r == x
  {
    (x + 0x8000_0000) % 0x1_0000_0000 - 0x8000_0000
  }

  /** The attribute-removed notifications for attributes listed in `names`, in that order. */
  function RemovalNotifications(names: seq<string>, attributes: map<string, Value>): (events: seq<Event>)
    requires forall n | n in names :: n in attributes
    ensures |events| == |names|
    ensures forall i | 0 <= i < |names| :: events[i] == AttributeRemoved(names[i], attributes[names[i]])
  {
    if names == [] then []
    else
      var last := names[|names| - 1];
      RemovalNotifications(names[..|names| - 1], attributes) + [AttributeRemoved(last, attributes[last])]
  }

  /** `names` lists every element of `keys` exactly once. */
  ghost predicate Enumerates(names: seq<string>, keys: set<string>) {
    && (forall n :: n in names <==> n in keys)
    && (forall i, j | 0 <= i < j < |names| :: names[i] != names[j])
  }

  /** Listing one more attribute adds its notification at the end. */
  lemma RemovalNotificationsAppend(names: seq<string>, attributes: map<string, Value>, name: string)
    requires forall n | n in names :: n in attributes
    requires name in attributes
    ensures RemovalNotifications(names + [name], attributes) ==
      RemovalNotifications(names, attributes) + [AttributeRemoved(name, attributes[name])]
  {
    assert (names + [name])[..|names|] == names;
  }

  /** Enumerating one more, new, element. */
  lemma EnumeratesAppend(names: seq<string>, keys: set<string>, name: string)
    requires Enumerates(names, keys) && name !in keys
    ensures Enumerates(names + [name], keys + {name})
  {
  }

  /** Moving one attribute from the names still to notify to those done
      keeps the two a partition of the attribute names. */
  lemma PartitionStep(names: set<string>, done: set<string>, keys: set<string>, name: string)
    requires names !! done && names + done == keys && name in names
    ensures (names - {name}) !! (done + {name}) && (names - {name}) + (done + {name}) == keys
  {
  }

  /** Notifying one more attribute extends the trace by its notification. */
  lemma TraceStep(before: seq<Event>, order: seq<string>, attributes: map<string, Value>, name: string)
    requires forall n | n in order :: n in attributes
    requires name in attributes
    ensures before + RemovalNotifications(order, attributes) + [AttributeRemoved(name, attributes[name])] ==
      before + RemovalNotifications(order + [name], attributes)
  {
    RemovalNotificationsAppend(order, attributes, name);
  }

  // ---------------------------------------------------------------------
  // Collaborators

  datatype BatchState = ACTIVE | DISCARDED | CLOSED

  /** A Batch of the session manager's batcher. */
  class Batch {
    var state: BatchState

    constructor (state: BatchState)
      ensures this.state == state
    {
      this.state := state;
    }

    method Close()
      modifies this
      ensures state == CLOSED
    {
      state := CLOSED;
    }
  }

  /** The SessionConfig bound to the entry: the request's own, or the
      SimpleSessionConfig of an out-of-band session. */
  datatype SessionConfig = RequestSessionConfig(handle: nat) | SimpleSessionConfig(id: string)

  /** The distributed Session<LocalSessionContext> the adapter wraps. Its
      attributes and meta data throw IllegalStateException once it is
      invalid, or while it is being invalidated elsewhere (`rejecting`);
      its id and local context are always readable. */
  class Session {
    const id: string
    const localContext: LocalSessionContext
    var valid: bool
    var rejecting: bool
    var closed: bool
    var attributes: map<string, Value>
    /** Epoch milliseconds. */
    var creationTime: int
    var lastAccessedTime: int
    /** Seconds. */
    var maxInactiveInterval: int

    /** A new session with no attributes. */
    constructor (id: string, localContext: LocalSessionContext)
      ensures this.id == id && this.localContext == localContext
      ensures valid && !rejecting && !closed && attributes == map[]
      ensures creationTime == 0 && lastAccessedTime == 0 && maxInactiveInterval == 0
    {
      this.id := id;
      this.localContext := localContext;
      valid := true;
      rejecting := false;
      closed := false;
      attributes := map[];
      creationTime := 0;
      lastAccessedTime := 0;
      maxInactiveInterval := 0;
    }

    /** Reading its attributes or meta data throws IllegalStateException. */
    predicate Rejects()
      reads this
    {
      !valid || rejecting
    }

    function Store(): AttributeStore
      reads this, localContext
    {
      AttributeStore(attributes, localContext.authenticatedSession, localContext.channels)
    }
  }

  datatype Entry = Entry(session: Session, config: SessionConfig)

  // ---------------------------------------------------------------------
  // The adapter

  class DistributableSession {
    /** The request's batch; null for an adapter made outside a request. */
    const batch: Batch?
    /** null (None) once the request is done. */
    var entry: Option<Entry>
    var id: string
    var localContext: Option<LocalSessionContext>
    /** The calls made on collaborators so far. */
    var trace: seq<Event>

    /** A detached adapter has what it needs to build an out-of-band session. */
    ghost predicate Valid()
      reads this
    {
      entry.None? ==> localContext.Some?
    }

    ghost function EntrySessions(): set<Session>
      reads this
    {
      if entry.Some? then {entry.value.session} else {}
    }

    ghost function Contexts(): set<LocalSessionContext>
      reads this
    {
      (if entry.Some? then {entry.value.session.localContext} else {}) +
      (if localContext.Some? then {localContext.value} else {})
    }

    /** After getSessionEntry: the entry that was there, or a new
        out-of-band entry built from the retained id and local context. */
    twostate predicate Resolved()
      reads this
    {
      && entry.Some?
      && (old(entry).Some? ==> entry == old(entry))
      && (old(entry).None? ==>
            && fresh(entry.value.session)
            && entry.value.session.id == old(id)
            && old(localContext) == Some(entry.value.session.localContext)
            && entry.value.config == SimpleSessionConfig(old(id)))
    }

    constructor (session: Session, config: SessionConfig, batch: Batch?)
      ensures Valid()
      ensures id == session.id && entry == Some(Entry(session, config)) && localContext == None
      ensures this.batch == batch && trace == []
    {
      id := session.id;
      entry := Some(Entry(session, config));
      this.batch := batch;
      localContext := None;
      trace := [];
    }

    /** The batch an accessor resumes: the adapter's own unless it is
        absent or already closed. */
    function ResumableBatch(): (b: Batch?)
      reads this, batch
      ensures b != null <==> batch != null && batch.state != CLOSED
      ensures b != null ==> b == batch
    {
      if batch != null && batch.state != CLOSED then batch else null
    }

    /** resumeBatch(). */
    method ResumeBatchForAccess()
      modifies this`trace
      ensures trace == old(trace) + [ResumeBatch(ResumableBatch() != null)]
    {
      var b := ResumableBatch();
      trace := trace + [ResumeBatch(b != null)];
    }

    /** getSessionEntry. */
    method GetSessionEntry() returns (e: Entry)
      requires Valid()
      modifies this`entry
      ensures Valid() && Resolved() && entry == Some(e)
      ensures old(entry).None? ==>
        && e.session.valid && !e.session.rejecting && !e.session.closed && e.session.attributes == map[]
    {
      if entry.None? {
        // new OOBSession(manager, id, localContext)
        var session := new Session(id, localContext.value);
        entry := Some(Entry(session, SimpleSessionConfig(id)));
      }
      e := entry.value;
    }

    /** closeIfInvalid. */
    method CloseIfInvalid(exchange: Option<Exchange>, session: Session)
      modifies this`trace, session`closed
      ensures session.closed == (old(session.closed) || !session.valid)
      ensures trace == old(trace) + (if session.valid then [] else [CloseTask(exchange)])
    {
      if !session.valid {
        session.closed := true;
        trace := trace + [CloseTask(exchange)];
      }
    }

    /** What an accessor leaves behind: the batch was resumed, and a
        failure on an invalid session closed it and ran the close task. */
    ghost predicate AfterAccess(session: Session, failed: bool, closedBefore: bool, traceBefore: seq<Event>, resumed: bool)
      reads this, session
    {
      && session.closed == (closedBefore || (failed && !session.valid))
      && trace == traceBefore + [ResumeBatch(resumed)] + (if failed && !session.valid then [CloseTask(None)] else [])
    }

    /** requestDone. */
    method RequestDone(exchange: Exchange)
      requires Valid()
      modifies this`entry, this`id, this`localContext, this`trace, EntrySessions()`closed, batch
      ensures Valid() && entry.None?
      // the id and the local context are retained
      ensures old(entry).Some? ==>
        id == old(entry).value.session.id && localContext == Some(old(entry).value.session.localContext)
      ensures old(entry).None? ==> id == old(id) && localContext == old(localContext)
      // without a batch nothing is closed: the failure is swallowed
      ensures batch == null ==> trace == old(trace) + [ResumeBatch(false), CloseTask(Some(exchange))]
      ensures batch == null && old(entry).Some? ==> var s := old(entry).value.session; s.closed == old(s.closed)
      // with one, the batch ends closed and the session is closed, valid or not
      ensures batch != null ==>
        && batch.state == CLOSED
        && (old(entry).Some? ==> old(entry).value.session.closed)
        && var replaced := old(batch.state) != ACTIVE && (old(entry).None? || old(entry).value.session.valid);
           trace == old(trace) + [ResumeBatch(true)] + (if replaced then [CreateBatch] else []) + [CloseTask(Some(exchange))]
    {
      var e := GetSessionEntry();
      var session := e.session;
      trace := trace + [ResumeBatch(batch != null)];
      if batch != null {
        if batch.state == DISCARDED {
          batch.Close();
        }
        if batch.state == CLOSED && session.valid {
          // close the valid session in a new batch
          trace := trace + [CreateBatch];
          session.closed := true;
        } else {
          session.closed := true;
          batch.Close();
        }
      }
      // finally: dereference the distributed session
      id := session.id;
      localContext := Some(session.localContext);
      entry := None;
      trace := trace + [CloseTask(Some(exchange))];
    }

    /** getId: never throws, needs no batch. */
    method GetId() returns (r: string)
      requires Valid()
      modifies this`entry
      ensures Valid() && Resolved()
      ensures r == entry.value.session.id
      ensures old(entry).None? ==> r == old(id)
    {
      var e := GetSessionEntry();
      r := e.session.id;
    }

    method GetCreationTime() returns (r: Result<int>)
      requires Valid()
      modifies this`entry, this`trace, EntrySessions()`closed
      ensures Valid() && Resolved()
      ensures old(entry).Some? ==>
        var s := old(entry).value.session;
        && r == (if old(s.Rejects()) then Fail(IllegalState) else Ok(s.creationTime))
        && AfterAccess(s, old(s.Rejects()), old(s.closed), old(trace), ResumableBatch() != null)
    {
      var e := GetSessionEntry();
      var session := e.session;
      ResumeBatchForAccess();
      if session.Rejects() {
        CloseIfInvalid(None, session);
        return Fail(IllegalState);
      }
      r := Ok(session.creationTime);
    }

    method GetLastAccessedTime() returns (r: Result<int>)
      requires Valid()
      modifies this`entry, this`trace, EntrySessions()`closed
      ensures Valid() && Resolved()
      ensures old(entry).Some? ==>
        var s := old(entry).value.session;
        && r == (if old(s.Rejects()) then Fail(IllegalState) else Ok(s.lastAccessedTime))
        && AfterAccess(s, old(s.Rejects()), old(s.closed), old(trace), ResumableBatch() != null)
    {
      var e := GetSessionEntry();
      var session := e.session;
      ResumeBatchForAccess();
      if session.Rejects() {
        CloseIfInvalid(None, session);
        return Fail(IllegalState);
      }
      r := Ok(session.lastAccessedTime);
    }

    /** getMaxInactiveInterval: the seconds, narrowed to an int. */
    method GetMaxInactiveInterval() returns (r: Result<int>)
      requires Valid()
      modifies this`entry, this`trace, EntrySessions()`closed
      ensures Valid() && Resolved()
      ensures old(entry).Some? ==>
        var s := old(entry).value.session;
        && r == (if old(s.Rejects()) then Fail(IllegalState) else Ok(Int32Cast(s.maxInactiveInterval)))
        && AfterAccess(s, old(s.Rejects()), old(s.closed), old(trace), ResumableBatch() != null)
    {
      var e := GetSessionEntry();
      var session := e.session;
      ResumeBatchForAccess();
      if session.Rejects() {
        CloseIfInvalid(None, session);
        return Fail(IllegalState);
      }
      r := Ok(Int32Cast(session.maxInactiveInterval));
    }

    method SetMaxInactiveInterval(interval: int) returns (r: Outcome)
      requires Valid()
      requires -0x8000_0000 <= interval < 0x8000_0000
      modifies this`entry, this`trace, EntrySessions()`closed, EntrySessions()`maxInactiveInterval
      ensures Valid() && Resolved()
      ensures old(entry).Some? ==>
        var s := old(entry).value.session;
        && r == (if old(s.Rejects()) then Threw(IllegalState) else Done)
        && s.maxInactiveInterval == (if old(s.Rejects()) then old(s.maxInactiveInterval) else interval)
        && AfterAccess(s, old(s.Rejects()), old(s.closed), old(trace), ResumableBatch() != null)
    {
      var e := GetSessionEntry();
      var session := e.session;
      ResumeBatchForAccess();
      if session.Rejects() {
        CloseIfInvalid(None, session);
        return Threw(IllegalState);
      }
      session.maxInactiveInterval := interval;
      r := Done;
    }

    method GetAttributeNames() returns (r: Result<set<string>>)
      requires Valid()
      modifies this`entry, this`trace, EntrySessions()`closed
      ensures Valid() && Resolved()
      ensures old(entry).Some? ==>
        var s := old(entry).value.session;
        && r == (if old(s.Rejects()) then Fail(IllegalState) else Ok(s.attributes.Keys))
        && AfterAccess(s, old(s.Rejects()), old(s.closed), old(trace), ResumableBatch() != null)
    {
      var e := GetSessionEntry();
      var session := e.session;
      ResumeBatchForAccess();
      if session.Rejects() {
        CloseIfInvalid(None, session);
        return Fail(IllegalState);
      }
      r := Ok(session.attributes.Keys);
    }

    method GetAttribute(name: string) returns (r: Result<Option<Value>>)
      requires Valid()
      modifies this`entry, this`trace, EntrySessions()`closed
      ensures Valid() && Resolved()
      ensures old(entry).Some? ==>
        var s := old(entry).value.session;
        && r == GetAttributeOn(old(s.Store()), old(s.Rejects()), name)
        && AfterAccess(s, r == Fail(IllegalState), old(s.closed), old(trace), ResumableBatch() != null)
    {
      var e := GetSessionEntry();
      var session := e.session;
      ResumeBatchForAccess();
      r := GetAttributeOn(session.Store(), session.Rejects(), name);
      if r == Fail(IllegalState) {
        CloseIfInvalid(None, session);
      }
    }

    /** Carry out an attribute update on the session: store it, fire its
        notifications, and on IllegalStateException close the session if
        it is invalid. */
    method Apply(session: Session, u: Update)
      modifies this`trace, session`closed, session`attributes, session.localContext
      ensures session.Store() == u.store
      ensures session.closed == (old(session.closed) || (u.result == Fail(IllegalState) && !session.valid))
      ensures trace == old(trace) + u.events + (if u.result == Fail(IllegalState) && !session.valid then [CloseTask(None)] else [])
    {
      session.attributes := u.store.replicated;
      session.localContext.SetAuthenticatedSession(u.store.auth);
      session.localContext.SetWebSocketChannels(u.store.channels);
      trace := trace + u.events;
      if u.result == Fail(IllegalState) {
        CloseIfInvalid(None, session);
      }
    }

    /** setAttribute; a null value (None) removes the attribute. */
    method SetAttribute(name: string, value: Option<Value>) returns (r: Result<Option<Value>>)
      requires Valid()
      modifies this`entry, this`trace, EntrySessions()`closed, EntrySessions()`attributes, Contexts()
      ensures Valid() && Resolved()
      ensures old(entry).Some? ==>
        var s := old(entry).value.session;
        var u := if value.None? then RemoveAttributeOn(old(s.Store()), old(s.Rejects()), name)
                 else SetAttributeOn(old(s.Store()), old(s.Rejects()), name, value.value);
        && r == u.result && s.Store() == u.store
        && s.closed == (old(s.closed) || (r == Fail(IllegalState) && !s.valid))
        && trace == old(trace) + [ResumeBatch(ResumableBatch() != null)] + u.events +
                    (if r == Fail(IllegalState) && !s.valid then [CloseTask(None)] else [])
    {
      if value.None? {
        r := RemoveAttribute(name);
        return;
      }
      var e := GetSessionEntry();
      var session := e.session;
      ResumeBatchForAccess();
      var u := SetAttributeOn(session.Store(), session.Rejects(), name, value.value);
      Apply(session, u);
      r := u.result;
    }

    method RemoveAttribute(name: string) returns (r: Result<Option<Value>>)
      requires Valid()
      modifies this`entry, this`trace, EntrySessions()`closed, EntrySessions()`attributes, Contexts()
      ensures Valid() && Resolved()
      ensures old(entry).Some? ==>
        var s := old(entry).value.session;
        var u := RemoveAttributeOn(old(s.Store()), old(s.Rejects()), name);
        && r == u.result && s.Store() == u.store
        && s.closed == (old(s.closed) || (r == Fail(IllegalState) && !s.valid))
        && trace == old(trace) + [ResumeBatch(ResumableBatch() != null)] + u.events +
                    (if r == Fail(IllegalState) && !s.valid then [CloseTask(None)] else [])
    {
      var e := GetSessionEntry();
      var session := e.session;
      ResumeBatchForAccess();
      var u := RemoveAttributeOn(session.Store(), session.Rejects(), name);
      Apply(session, u);
      r := u.result;
    }

    /** The listener calls invalidate makes before invalidating: one
        attribute-removed notification per attribute, in `order`. */
    method NotifyInvalidation(session: Session, exchange: Option<Exchange>) returns (ghost order: seq<string>)
      modifies this`trace
      ensures Enumerates(order, session.attributes.Keys)
      ensures trace == old(trace) + RemovalNotifications(order, session.attributes) + [SessionDestroyed(exchange)]
    {
      var attributes := session.attributes;
      order := [];
      var names := attributes.Keys;
      ghost var done: set<string> := {};
      while names != {}
        invariant names !! done && names + done == attributes.Keys
        invariant Enumerates(order, done)
        invariant trace == old(trace) + RemovalNotifications(order, attributes)
        decreases names
      {
        var name :| name in names;
        PartitionStep(names, done, attributes.Keys, name);
        EnumeratesAppend(order, done, name);
        TraceStep(old(trace), order, attributes, name);
        trace := trace + [AttributeRemoved(name, attributes[name])];
        order := order + [name];
        names := names - {name};
        done := done + {name};
      }
      trace := trace + [SessionDestroyed(exchange)];
    }

    /** invalidate. `order` is the order in which the attributes were
        reported removed. */
    method Invalidate(exchange: Option<Exchange>) returns (r: Outcome, ghost order: seq<string>)
      requires Valid()
      modifies this`entry, this`trace, EntrySessions()`closed, EntrySessions()`valid, batch
      ensures Valid() && Resolved()
      ensures old(entry).Some? ==>
        var s := old(entry).value.session;
        // the attributes cannot be read: the exception propagates before the batch is resumed
        && (old(s.valid) && old(s.rejecting) ==>
              r == Threw(IllegalState) && trace == old(trace) && s.valid && s.closed == old(s.closed))
        // listeners first, then the invalidation inside the batch, then the close task
        && (old(s.valid) && !old(s.rejecting) ==>
              && r == Done && !s.valid && s.closed == old(s.closed)
              && Enumerates(order, old(s.attributes.Keys))
              && trace == old(trace) + RemovalNotifications(order, old(s.attributes)) + [SessionDestroyed(exchange)]
                          + [ResumeBatch(old(ResumableBatch()) != null)]
                          + (if exchange.Some? then [ClearSession(exchange.value, s.id)] else [])
                          + [CloseTask(exchange)]
              && (batch != null ==> batch.state == CLOSED))
        // an already invalid session: no listeners; invalidating it fails, so it is closed and the failure rethrown
        && (!old(s.valid) ==>
              && r == Threw(IllegalState) && s.closed
              && trace == old(trace) + [ResumeBatch(old(ResumableBatch()) != null), CloseTask(exchange)]
              && (batch != null ==> batch.state == old(batch.state)))
    {
      order := [];
      var e := GetSessionEntry();
      var session := e.session;
      if session.valid {
        if session.Rejects() {
          // session.getAttributes() throws outside the try
          return Threw(IllegalState), order;
        }
        order := NotifyInvalidation(session, exchange);
      }
      ResumeBatchForAccess();
      r := InvalidateInBatch(exchange, session);
    }

    /** The batch block of invalidate, with its catch and finally clauses. */
    method InvalidateInBatch(exchange: Option<Exchange>, session: Session) returns (r: Outcome)
      modifies this`trace, session`valid, session`closed, batch
      // session.invalidate() throws: an invalid session is closed, the close task runs, the failure propagates
      ensures old(session.Rejects()) ==>
        && r == Threw(IllegalState) && session.valid == old(session.valid)
        && session.closed == (old(session.closed) || !session.valid)
        && trace == old(trace) + [CloseTask(exchange)]
        && (batch != null ==> batch.state == old(batch.state))
      ensures !old(session.Rejects()) ==>
        && r == Done && !session.valid && session.closed == old(session.closed)
        && trace == old(trace) + (if exchange.Some? then [ClearSession(exchange.value, session.id)] else []) + [CloseTask(exchange)]
        && (batch != null ==> batch.state == CLOSED)
    {
      if session.Rejects() {
        if !session.valid {
          session.closed := true;
        }
        trace := trace + [CloseTask(exchange)];
        return Threw(IllegalState);
      }
      session.valid := false;
      if exchange.Some? {
        trace := trace + [ClearSession(exchange.value, session.id)];
      }
      if batch != null {
        batch.Close();
      }
      trace := trace + [CloseTask(exchange)];
      r := Done;
    }

    /** changeSessionId. The identifier and the new session the session
        manager creates are `newId` and `newSession`; `responseStarted` is
        exchange.isResponseStarted(). */
    method ChangeSessionId(exchange: Exchange, config: SessionConfig, responseStarted: bool,
                           newId: string, newSession: Session) returns (r: Result<string>)
      requires Valid()
      requires newSession.id == newId
      requires entry.Some? ==> newSession != entry.value.session
      modifies this`entry, this`trace, EntrySessions()`closed, EntrySessions()`valid
      modifies newSession`valid, newSession`attributes, newSession`maxInactiveInterval, newSession`lastAccessedTime
      modifies newSession.localContext
      ensures Valid()
      ensures responseStarted ==> r == Fail(IllegalState) && unchanged(this) && unchanged(newSession, newSession.localContext)
      ensures !responseStarted && old(entry).Some? ==>
        var s := old(entry).value.session;
        var failed := old(s.Rejects()) || old(newSession.Rejects());
        // rollback: the new session is invalidated, the entry is kept, no id-changed notification
        && (failed ==>
              && r == Fail(IllegalState) && entry == old(entry)
              // newSession.invalidate(), which fails too if the new session rejects access
              && newSession.valid == (old(newSession.valid) && old(newSession.rejecting))
              && s.closed == (old(s.closed) || !s.valid) && s.valid == old(s.valid)
              && trace == old(trace) + [ResumeBatch(ResumableBatch() != null)] + (if s.valid then [] else [CloseTask(Some(exchange))]))
        // success: the state is copied, the old session invalidated, the entry swapped
        && (!failed ==>
              && r == Ok(newId)
              && newSession.attributes == old(newSession.attributes) + old(s.attributes)
              && newSession.maxInactiveInterval == old(s.maxInactiveInterval)
              && newSession.lastAccessedTime == old(s.lastAccessedTime)
              && newSession.localContext.authenticatedSession == old(s.localContext.authenticatedSession)
              && newSession.localContext.channels == old(s.localContext.channels)
              && !s.valid && newSession.valid && entry == Some(Entry(newSession, config))
              && trace == old(trace) + [ResumeBatch(ResumableBatch() != null), SetSessionId(exchange, newId), SessionIdChanged(s.id)])
    {
      if responseStarted {
        return Fail(IllegalState);
      }
      var e := GetSessionEntry();
      var oldSession := e.session;
      ResumeBatchForAccess();
      if oldSession.Rejects() || newSession.Rejects() {
        CloseIfInvalid(Some(exchange), oldSession);
        if !newSession.Rejects() {
          newSession.valid := false;
        }
        return Fail(IllegalState);
      }
      CopyState(oldSession, newSession);
      oldSession.valid := false;
      trace := trace + [SetSessionId(exchange, newId)];
      entry := Some(Entry(newSession, config));
      if !oldSession.valid {
        trace := trace + [SessionIdChanged(oldSession.id)];
      }
      r := Ok(newId);
    }

    /** What changeSessionId copies to the new session: the attributes,
        the timeout, the last-access time and both local-context fields. */
    static method CopyState(from: Session, to: Session)
      requires from != to
      modifies to`attributes, to`maxInactiveInterval, to`lastAccessedTime, to.localContext
      ensures to.attributes == old(to.attributes) + old(from.attributes)
      ensures to.maxInactiveInterval == old(from.maxInactiveInterval)
      ensures to.lastAccessedTime == old(from.lastAccessedTime)
      ensures to.localContext.authenticatedSession == old(from.localContext.authenticatedSession)
      ensures to.localContext.channels == old(from.localContext.channels)
    {
      CopyAttributes(from, to);
      to.maxInactiveInterval := from.maxInactiveInterval;
      to.lastAccessedTime := from.lastAccessedTime;
      var auth := from.localContext.GetAuthenticatedSession();
      var channels := from.localContext.GetWebSocketChannels();
      to.localContext.SetAuthenticatedSession(auth);
      to.localContext.SetWebSocketChannels(channels);
    }

    /** The copy loop of changeSessionId. */
    static method CopyAttributes(from: Session, to: Session)
      requires from != to
      modifies to`attributes
      ensures to.attributes == old(to.attributes) + from.attributes
    {
      var names := from.attributes.Keys;
      while names != {}
        invariant names <= from.attributes.Keys
        invariant to.attributes == old(to.attributes) + map n | n in from.attributes.Keys - names :: from.attributes[n]
        decreases names
      {
        var name :| name in names;
        to.attributes := to.attributes[name := from.attributes[name]];
        names := names - {name};
      }
      assert from.attributes == map n | n in from.attributes.Keys - names :: from.attributes[n];
    }
  }
}
