/**
 * `JettyWebServer`: caches a Jetty server's connectors until the server is started, finds
 * the statistics handler that makes graceful shutdown possible, and reports ports.
 */
module JettyWebServers {
  import opened Wrappers
  import opened Strings
  import opened WebServers

  const INITIALIZE_FAILED := "Unable to start embedded Jetty web server"
  const START_FAILED := "Unable to start embedded Jetty server"
  const STOP_FAILED := "Unable to stop embedded Jetty server"

  /**
   * The Jetty handlers the server and its factory tell apart. `StatisticsHandler`,
   * `ContextHandler` and the other `HandlerWrapper`s (named by `kind`) wrap an optional inner
   * handler; a `HandlerCollection` holds several; anything else is `OtherHandler`.
   */
  datatype Handler =
    | StatisticsHandler(inner: Option<Handler>)
    | ContextHandler(contextPath: string, inner: Option<Handler>)
    | HandlerWrapper(kind: string, inner: Option<Handler>)
    | HandlerCollection(handlers: seq<Handler>)
    | OtherHandler

  /** `handler instanceof HandlerWrapper`. */
  predicate IsWrapper(handler: Handler)
  {
    handler.StatisticsHandler? || handler.ContextHandler? || handler.HandlerWrapper?
  }

  /** The handlers met by unwrapping from `handler` until the chain ends or leaves the wrappers. */
  function Chain(handler: Option<Handler>): (r: seq<Handler>)
    ensures handler.None? <==> r == []
    ensures handler.Some? ==> r[0] == handler.value
  {
    match handler
    case None => []
    case Some(h) => [h] + (if IsWrapper(h) then Chain(h.inner) else [])
  }

  /** The two kinds of handler the server looks for along a wrapper chain. */
  datatype HandlerKind = Statistics | Context

  predicate IsKind(handler: Handler, kind: HandlerKind)
  {
    match kind
    case Statistics => handler.StatisticsHandler?
    case Context => handler.ContextHandler?
  }

  /** Index `i` of `chain` holds its first handler of the given kind. */
  predicate FirstOfKindAt(chain: seq<Handler>, kind: HandlerKind, i: int)
  {
    0 <= i < |chain| && IsKind(chain[i], kind) && forall k | 0 <= k < i :: !IsKind(chain[k], kind)
  }

  /** The first handler of the given kind along the wrapper chain, if any. */
  function FindFirst(handler: Option<Handler>, kind: HandlerKind): (r: Option<Handler>)
    ensures r.Some? ==> IsKind(r.value, kind) && r.value in Chain(handler)
    ensures r.None? ==> forall x | x in Chain(handler) :: !IsKind(x, kind)
  {
    match handler
    case None => None
    case Some(h) =>
      if IsKind(h, kind) then Some(h)
      else if IsWrapper(h) then FindFirst(h.inner, kind)
      else None
  }

  /** The handler found is the first of its kind in the chain: none is passed over. */
  lemma {:induction false} FindFirstIsFirst(handler: Option<Handler>, kind: HandlerKind)
    ensures FindFirst(handler, kind).Some? ==>
              exists i :: FirstOfKindAt(Chain(handler), kind, i) && Chain(handler)[i] == FindFirst(handler, kind).value
  {
    match handler
    case None =>
    case Some(h) =>
      var chain := Chain(handler);
      if IsKind(h, kind) {
        assert FirstOfKindAt(chain, kind, 0);
      } else if IsWrapper(h) {
        FindFirstIsFirst(h.inner, kind);
        if FindFirst(h.inner, kind).Some? {
          var i :| FirstOfKindAt(Chain(h.inner), kind, i) && Chain(h.inner)[i] == FindFirst(h.inner, kind).value;
          assert chain == [h] + Chain(h.inner);
          assert FirstOfKindAt(chain, kind, i + 1);
        }
      }
  }

  /** `findStatisticsHandler`: the recursive search for the first `StatisticsHandler`. */
  function FindStatisticsHandler(handler: Option<Handler>): (r: Option<Handler>)
    ensures r.Some? ==> r.value.StatisticsHandler? && r.value in Chain(handler)
    ensures r.None? ==> forall x | x in Chain(handler) :: !x.StatisticsHandler?
  {
    FindFirst(handler, Statistics)
  }

  /**
   * `findContextHandler`: walks the wrapper chain and returns its first `ContextHandler`,
   * or nothing when the chain leaves the wrappers or ends first.
   */
  method FindContextHandler(start: Option<Handler>) returns (r: Option<Handler>)
    ensures r == FindFirst(start, Context)
  {
    var handler := start;
    while handler.Some? && IsWrapper(handler.value)
      invariant FindFirst(handler, Context) == FindFirst(start, Context)
      decreases handler
    {
      if handler.value.ContextHandler? {
        return handler;
      }
      handler := handler.value.inner;
    }
    return None;
  }

  /**
   * A Jetty `Connector`: whether it is a `NetworkConnector`, its configured port, the local
   * port it reports (none when it cannot be determined), its protocols, how starting it fails
   * (if it does) and whether it is in the stopped state.
   */
  datatype JettyConnector = JettyConnector(
    network: bool, port: int, localPort: Option<int>, protocols: seq<string>,
    startFailure: Option<StartFailure>, stopped: bool)

  /** `getLocalPort`: the connector's local port, 0 when it cannot be determined. */
  function LocalPort(connector: JettyConnector): int
  {
    match connector.localPort
    case Some(port) => port
    case None => 0
  }

  /** `getProtocols`: the protocols between parentheses, separated by ", ". */
  function Protocols(connector: JettyConnector): string
  {
    " (" + Join(connector.protocols, ", ") + ")"
  }

  /** One entry of the ports description: the local port followed by the protocols. */
  function PortEntry(connector: JettyConnector): string
  {
    IntToString(LocalPort(connector)) + Protocols(connector)
  }

  /** An entry names the port in digits, then lists the protocols between parentheses. */
  lemma PortEntryShape(connector: JettyConnector)
    ensures var entry, port := PortEntry(connector), IntToString(LocalPort(connector));
            |entry| > 0 && StartsWith(entry, port) && EndsWith(entry, ")")
            && entry[|port|..] == " (" + Join(connector.protocols, ", ") + ")"
  {
    var port := IntToString(LocalPort(connector));
    assert PortEntry(connector)[..|port|] == port;
  }

  function PortEntries(connectors: seq<JettyConnector>): (r: seq<string>)
    ensures |r| == |connectors|
  {
    seq(|connectors|, i requires 0 <= i < |connectors| => PortEntry(connectors[i]))
  }

  /** The ports description is empty exactly when the server has no connectors. */
  lemma PortsDescriptionEmptyIff(connectors: seq<JettyConnector>)
    ensures Join(PortEntries(connectors), ", ") == "" <==> connectors == []
  {
    forall i | 0 <= i < |connectors| ensures |PortEntries(connectors)[i]| > 0 {
      PortEntryShape(connectors[i]);
    }
    JoinEmptyIff(PortEntries(connectors), ", ");
  }

  /** How starting the connectors in order ends: at the first connector that fails. */
  function StartConnectors(connectors: seq<JettyConnector>): (r: Outcome<WebServerError>)
    ensures r.Fail? ==> r.error.PortInUse? || r.error == WebServerException(START_FAILED)
    ensures connectors != [] && connectors[0].startFailure.Some? ==> r == Fail(ConnectorError(connectors[0]))
  {
    if connectors == [] then Pass
    else if connectors[0].startFailure.Some? then Fail(ConnectorError(connectors[0]))
    else StartConnectors(connectors[1..])
  }

  /**
   * The error a connector's start failure raises: a port binding failure of a network
   * connector is a port in use, anything else is rethrown and wrapped.
   */
  function ConnectorError(connector: JettyConnector): (r: WebServerError)
    requires connector.startFailure.Some?
    ensures r.PortInUse? <==> connector.network && connector.startFailure == Some(PortBindingFailure)
    ensures r.PortInUse? ==> r.port == connector.port
    ensures !r.PortInUse? ==> r == WebServerException(START_FAILED)
  {
    if connector.network && connector.startFailure.value == PortBindingFailure then PortInUse(connector.port)
    else WebServerException(START_FAILED)
  }

  /**
   * Starting the connectors succeeds exactly when none of them fails; a port in use names
   * a network connector whose port failed to bind, all connectors before it having started.
   */
  lemma {:induction false} StartConnectorsOutcome(connectors: seq<JettyConnector>)
    ensures StartConnectors(connectors).Pass? <==> forall k | 0 <= k < |connectors| :: connectors[k].startFailure.None?
    ensures StartConnectors(connectors).Fail? ==>
              exists i | 0 <= i < |connectors| ::
                connectors[i].startFailure.Some? && StartConnectors(connectors).error == ConnectorError(connectors[i])
                && forall k | 0 <= k < i :: connectors[k].startFailure.None?
  {
    if connectors != [] && connectors[0].startFailure.None? {
      var rest := connectors[1..];
      StartConnectorsOutcome(rest);
      if StartConnectors(rest).Fail? {
        var i :| 0 <= i < |rest| && rest[i].startFailure.Some? && StartConnectors(rest).error == ConnectorError(rest[i])
                 && forall k | 0 <= k < i :: rest[k].startFailure.None?;
        assert connectors[i + 1] == rest[i];
        assert forall k | 0 <= k < i + 1 :: connectors[k].startFailure.None? by {
          forall k | 0 <= k < i + 1 ensures connectors[k].startFailure.None? {
            if k > 0 { assert connectors[k] == rest[k - 1]; }
          }
        }
      } else {
        assert forall k | 0 <= k < |connectors| :: connectors[k].startFailure.None? by {
          forall k | 0 <= k < |connectors| ensures connectors[k].startFailure.None? {
            if k > 0 { assert connectors[k] == rest[k - 1]; }
          }
        }
      }
    }
  }

  /**
   * The part of a Jetty `Server` the web server drives: its connectors, its handler, whether
   * it runs, and whether it stops at JVM shutdown.
   */
  class JettyServer {
    var connectors: seq<JettyConnector>
    var running: bool
    var stopAtShutdown: bool
    const handler: Option<Handler>

    constructor (connectors: seq<JettyConnector>, handler: Option<Handler>)
      ensures this.connectors == connectors && this.handler == handler
      ensures !running && stopAtShutdown
    {
      this.connectors := connectors;
      this.handler := handler;
      running := false;
      stopAtShutdown := true;
    }
  }

  class JettyWebServer {
    const server: JettyServer
    const autoStart: bool
    const gracefulShutdown: GracefulShutdown?
    /** The connectors cached by `initialize` until the server starts. */
    var connectors: seq<JettyConnector>
    var started: bool

    /**
     * The field set-up of the constructor, with `createGracefulShutdown`: a graceful shutdown
     * exists exactly when the server's handler chain holds a statistics handler.
     * `NewJettyWebServer` adds `initialize`.
     */
    constructor (server: JettyServer, autoStart: bool)
      ensures this.server == server && this.autoStart == autoStart
      ensures (gracefulShutdown != null <==> FindStatisticsHandler(server.handler).Some?)
      ensures gracefulShutdown != null ==> fresh(gracefulShutdown) && gracefulShutdown.requests == []
      ensures connectors == [] && !started
    {
      this.server := server;
      this.autoStart := autoStart;
      if FindStatisticsHandler(server.handler).Some? {
        gracefulShutdown := new GracefulShutdown();
      } else {
        gracefulShutdown := null;
      }
      connectors := [];
      started := false;
    }

    /**
     * `initialize`: caches the server's connectors and starts the server, whose start first
     * checks that every cached connector is still stopped and then takes them all away.
     * When that check or the rest of the start (`startFails`) throws, the server is stopped.
     */
    method Initialize(startFails: bool) returns (r: Outcome<WebServerError>)
      modifies this`connectors, server`connectors, server`running, server`stopAtShutdown
      ensures connectors == old(server.connectors)
      ensures r.Pass? <==> (forall k | 0 <= k < |connectors| :: connectors[k].stopped) && !startFails
      ensures r.Pass? ==> server.connectors == [] && server.running && !server.stopAtShutdown
      ensures r.Fail? ==> r.error == WebServerException(INITIALIZE_FAILED) && !server.running
      ensures r.Fail? ==> server.stopAtShutdown == old(server.stopAtShutdown)
    {
      connectors := server.connectors;
      var cached := connectors;
      for i := 0 to |cached|
        invariant forall k | 0 <= k < i :: cached[k].stopped
      {
        if !cached[i].stopped {
          server.running := false;
          return Fail(WebServerException(INITIALIZE_FAILED));
        }
      }
      server.connectors := [];
      if startFails {
        server.running := false;
        return Fail(WebServerException(INITIALIZE_FAILED));
      }
      server.running := true;
      server.stopAtShutdown := false;
      return Pass;
    }

    /**
     * `start`: a no-op once started. Otherwise gives the cached connectors back to the server
     * and, when auto-starting, starts the server (`startFails` says the server start or a
     * handler's deferred initialization throws) and then each connector in order. The server
     * becomes started only when every connector starts; any failure stops the server.
     */
    method Start(startFails: bool) returns (r: Outcome<WebServerError>)
      modifies this`started, server`connectors, server`running
      ensures old(started) ==> r.Pass? && started && unchanged(server)
      ensures !old(started) && !autoStart ==> r.Pass? && !started && server.connectors == connectors
      ensures !old(started) && autoStart && startFails ==> r == Fail(WebServerException(START_FAILED))
      ensures !old(started) && autoStart && !startFails ==> r == StartConnectors(connectors)
      ensures started <==> old(started) || (autoStart && r.Pass?)
      ensures !old(started) && started ==>
                server.running && |server.connectors| == |connectors|
                && forall k | 0 <= k < |connectors| :: server.connectors[k] == connectors[k].(stopped := false)
      ensures r.Fail? ==> !server.running && server.connectors == connectors
    {
      if started {
        return Pass;
      }
      server.connectors := connectors;
      if !autoStart {
        return Pass;
      }
      if startFails {
        server.running := false;
        return Fail(WebServerException(START_FAILED));
      }
      server.running := true;
      var cached := connectors;
      var running: seq<JettyConnector> := [];
      for i := 0 to |cached|
        invariant |running| == i
        invariant forall k | 0 <= k < i :: running[k] == cached[k].(stopped := false)
        invariant forall k | 0 <= k < i :: cached[k].startFailure.None?
        invariant StartConnectors(cached) == StartConnectors(cached[i..])
      {
        assert cached[i..][1..] == cached[i + 1..];
        if cached[i].startFailure.Some? {
          server.running := false;
          return Fail(ConnectorError(cached[i]));
        }
        running := running + [cached[i].(stopped := false)];
      }
      server.connectors := running;
      started := true;
      return Pass;
    }

    /** `getPort`: the first positive local port among the server's connectors, else -1. */
    method GetPort() returns (r: int)
      ensures r == -1 || r > 0
      ensures r == -1 <==> forall k | 0 <= k < |server.connectors| :: LocalPort(server.connectors[k]) <= 0
      ensures r > 0 ==>
                exists i | 0 <= i < |server.connectors| ::
                  LocalPort(server.connectors[i]) == r && forall k | 0 <= k < i :: LocalPort(server.connectors[k]) <= 0
    {
      var connectors := server.connectors;
      for i := 0 to |connectors|
        invariant forall k | 0 <= k < i :: LocalPort(connectors[k]) <= 0
      {
        var localPort := LocalPort(connectors[i]);
        if localPort > 0 {
          return localPort;
        }
      }
      return -1;
    }

    /** `getActualPortsDescription`: the server's connectors' entries, separated by ", ". */
    method GetActualPortsDescription() returns (ports: string)
      ensures ports == Join(PortEntries(server.connectors), ", ")
    {
      ports := DescribePorts(server.connectors);
    }

    /** The builder loop of `getActualPortsDescription`. */
    static method DescribePorts(connectors: seq<JettyConnector>) returns (ports: string)
      ensures ports == Join(PortEntries(connectors), ", ")
    {
      ghost var entries := PortEntries(connectors);
      ports := "";
      for i := 0 to |connectors|
        invariant ports == Join(entries[..i], ", ")
        invariant |ports| == 0 <==> i == 0
      {
        var entry := PortEntry(connectors[i]);
        assert |entry| > 0 by { PortEntryShape(connectors[i]); }
        JoinStep(entries, i, ports, ", ");
        if |ports| != 0 {
          ports := ports + ", " + entry;
        } else {
          ports := entry;
        }
      }
      assert entries[..|connectors|] == entries;
    }

    /**
     * `stop`: clears `started` and aborts a graceful shutdown under way before stopping the
     * server; a failure to stop (`stopFails`) is wrapped.
     */
    method Stop(stopFails: bool) returns (r: Outcome<WebServerError>)
      modifies this`started, server`running, gracefulShutdown
      ensures !started
      ensures gracefulShutdown != null ==> gracefulShutdown.requests == old(gracefulShutdown.requests) + [AbortRequest]
      ensures r.Pass? <==> !stopFails
      ensures r.Pass? ==> !server.running
      ensures r.Fail? ==> r.error == WebServerException(STOP_FAILED)
    {
      started := false;
      if gracefulShutdown != null {
        gracefulShutdown.Abort();
      }
      if stopFails {
        return Fail(WebServerException(STOP_FAILED));
      }
      server.running := false;
      return Pass;
    }

    /**
     * `shutDownGracefully`: without a graceful shutdown the callback hears IMMEDIATE at once;
     * otherwise the request is handed to the graceful shutdown, which reports later.
     */
    method ShutDownGracefully() returns (reported: Option<GracefulShutdownResult>)
      modifies gracefulShutdown
      ensures gracefulShutdown == null <==> reported == Some(GracefulShutdownResult.IMMEDIATE)
      ensures gracefulShutdown != null ==>
                reported.None? && gracefulShutdown.requests == old(gracefulShutdown.requests) + [GracefulRequest]
    {
      if gracefulShutdown == null {
        return Some(GracefulShutdownResult.IMMEDIATE);
      }
      gracefulShutdown.ShutDownGracefully();
      return None;
    }
  }

  /** The `JettyWebServer` constructor with `initialize`; a failed initialization throws. */
  method NewJettyWebServer(server: JettyServer, autoStart: bool, startFails: bool)
      returns (r: Result<JettyWebServer, WebServerError>)
    modifies server
    ensures r.Success? <==> (forall k | 0 <= k < |old(server.connectors)| :: old(server.connectors)[k].stopped) && !startFails
    ensures r.Success? ==>
              fresh(r.value) && r.value.server == server && r.value.autoStart == autoStart && !r.value.started
              && r.value.connectors == old(server.connectors)
              && (r.value.gracefulShutdown != null <==> FindStatisticsHandler(server.handler).Some?)
              && server.connectors == [] && server.running && !server.stopAtShutdown
    ensures r.Failure? ==> r.error == WebServerException(INITIALIZE_FAILED) && !server.running
  {
    var webServer := new JettyWebServer(server, autoStart);
    var initialized := webServer.Initialize(startFails);
    if initialized.Fail? {
      return Failure(initialized.error);
    }
    return Success(webServer);
  }
}
