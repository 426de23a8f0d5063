/** LocalSessionContextFactory: the per-member, never replicated part of a
    web session, holding the authenticated session of a mechanism that can
    re-authenticate on its own and the open websocket channels. */
module LocalSessionContexts {
  import opened Options

  /** An Undertow account identity, opaque here. */
  type Account = nat

  /** AuthenticatedSessionManager.AuthenticatedSession: an account and the
      name of the mechanism that authenticated it. */
  datatype AuthenticatedSession = AuthenticatedSession(account: Account, mechanism: string)

  /** A websocket channel identity, opaque here. */
  type WebSocketChannel = nat

  /** The anonymous LocalSessionContext of createLocalContext. A Java null
      is None. */
  class LocalSessionContext {
    var authenticatedSession: Option<AuthenticatedSession>
    var channels: Option<seq<WebSocketChannel>>

    constructor ()
      ensures authenticatedSession == None && channels == None
    {
      authenticatedSession := None;
      channels := None;
    }

    method GetAuthenticatedSession() returns (session: Option<AuthenticatedSession>)
      ensures session == authenticatedSession
    {
      session := authenticatedSession;
    }

    method SetAuthenticatedSession(session: Option<AuthenticatedSession>)
      modifies this`authenticatedSession
      ensures authenticatedSession == session
    {
      authenticatedSession := session;
    }

    method GetWebSocketChannels() returns (result: Option<seq<WebSocketChannel>>)
      ensures result == channels
    {
      result := channels;
    }

    method SetWebSocketChannels(newChannels: Option<seq<WebSocketChannel>>)
      modifies this`channels
      ensures channels == newChannels
    {
      channels := newChannels;
    }
  }

  /** createLocalContext: a new context with neither field set. */
  method CreateLocalContext() returns (context: LocalSessionContext)
    ensures fresh(context)
    ensures context.authenticatedSession == None && context.channels == None
  {
    context := new LocalSessionContext();
  }

  /** Two contexts are independent, and each getter returns what its own
      setter stored last, whatever was set on the other field in between. */
  method IndependentContexts(session: Option<AuthenticatedSession>, channels: Option<seq<WebSocketChannel>>)
    returns (first: LocalSessionContext, second: LocalSessionContext)
    ensures fresh(first) && fresh(second) && first != second
    ensures first.authenticatedSession == session && first.channels == channels
    ensures second.authenticatedSession == None && second.channels == None
  {
    first := CreateLocalContext();
    second := CreateLocalContext();
    first.SetAuthenticatedSession(session);
    first.SetWebSocketChannels(channels);
    var readBack := first.GetAuthenticatedSession();
    assert readBack == session;
  }
}
