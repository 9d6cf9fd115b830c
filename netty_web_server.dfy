/**
 * `NettyWebServer`: binds a Reactor Netty HTTP server on start, maps bind failures to
 * port-in-use errors, routes requests through the registered route providers, and disposes
 * of the bound server on stop.
 */
module NettyWebServers {
  import opened Wrappers
  import opened Strings
  import opened Sequences
  import opened Durations
  import opened WebServers

  /** `ERROR_NO_EACCES`: the permission-denied error code of `errno.h`. */
  const ERROR_NO_EACCES := -13

  const START_FAILED := "Unable to start Netty"

  /**
   * A bound `DisposableServer`: its port and its path, each absent when the server does not
   * support it (the accessor throws `UnsupportedOperationException`).
   */
  datatype DisposableServer = DisposableServer(id: nat, port: Option<int>, path: Option<string>)

  /** The cause of a `ChannelBindException`: a `NativeIoException` with its error code, or another. */
  datatype Cause = NativeIoException(expectedErr: int) | OtherCause

  datatype ChannelBindException = ChannelBindException(localPort: int, cause: Option<Cause>)

  /**
   * What binding the HTTP server does: it binds a server, or it throws, with a
   * `ChannelBindException` somewhere in the cause chain or not.
   */
  datatype BindOutcome = Bound(server: DisposableServer) | BindFailed(channelBind: Option<ChannelBindException>)

  /** A route of `HttpServerRoutes`: one a route provider added, or the final catch-all route. */
  datatype Route = ProvidedRoute(name: string) | CatchAll

  /** A `NettyRouteProvider`: a function from routes to routes. */
  type RouteProvider = seq<Route> -> seq<Route>

  /** How the HTTP server hands requests on: straight to the handler, or through routes. */
  datatype ServerHandling = Handle | Routed(routes: seq<Route>)

  /** The bind `startHttpServer` asks for: the handling and the lifecycle timeout, if any. */
  datatype BindRequest = BindRequest(handling: ServerHandling, timeout: Option<Duration>)

  /** `isPermissionDenied`: the cause is a native I/O failure with error EACCES. */
  predicate IsPermissionDenied(cause: Option<Cause>)
    ensures IsPermissionDenied(cause) <==> cause == Some(NativeIoException(ERROR_NO_EACCES))
  {
    match cause
    case Some(NativeIoException(expectedErr)) => expectedErr == ERROR_NO_EACCES
    case _ => false
  }

  /**
   * The error a failed start raises: a port in use for a channel bind failure on a positive
   * local port whose cause is not a permission denial, otherwise a generic failure.
   */
  function StartError(channelBind: Option<ChannelBindException>): (r: WebServerError)
    ensures r.PortInUse? || r == WebServerException(START_FAILED)
    ensures r.PortInUse? ==> channelBind.Some? && r.port == channelBind.value.localPort && r.port > 0
  {
    match channelBind
    case Some(bind) =>
      if bind.localPort > 0 && !IsPermissionDenied(bind.cause) then PortInUse(bind.localPort)
      else WebServerException(START_FAILED)
    case None => WebServerException(START_FAILED)
  }

  /**
   * A port in use is reported exactly for a bind failure on a positive port that was not
   * refused for lack of permission.
   */
  lemma StartErrorPortInUseIff(channelBind: Option<ChannelBindException>)
    ensures StartError(channelBind).PortInUse? <==>
              channelBind.Some? && channelBind.value.localPort > 0
              && channelBind.value.cause != Some(NativeIoException(ERROR_NO_EACCES))
  {
    if channelBind.Some? && channelBind.value.cause.Some? && channelBind.value.cause.value.NativeIoException? {
      assert IsPermissionDenied(channelBind.value.cause) <==> channelBind.value.cause == Some(NativeIoException(ERROR_NO_EACCES));
    }
  }

  /** The parts of the started message that the server supports, in order: port, then path. */
  function MessageParts(server: DisposableServer): (r: seq<string>)
    ensures |r| <= 2 && |r| == (if server.port.Some? then 1 else 0) + (if server.path.Some? then 1 else 0)
  {
    (if server.port.Some? then ["port " + IntToString(server.port.value)] else [])
    + (if server.path.Some? then ["path " + server.path.value] else [])
  }

  /** The started message: " on " and the supported parts separated by a space, or nothing. */
  function StartedOnMessage(server: DisposableServer): string
  {
    var parts := MessageParts(server);
    if parts == [] then "" else " on " + Join(parts, " ")
  }

  /** The message is empty exactly when neither the port nor the path is supported. */
  lemma StartedOnMessageEmptyIff(server: DisposableServer)
    ensures StartedOnMessage(server) == "" <==> server.port.None? && server.path.None?
  {
  }

  /** With both parts supported the message names the port, a space, then the path. */
  lemma StartedOnMessageBoth(server: DisposableServer, port: int, path: string)
    requires server.port == Some(port) && server.path == Some(path)
    ensures StartedOnMessage(server) == " on port " + IntToString(port) + " path " + path
  {
    assert MessageParts(server) == ["port " + IntToString(port), "path " + path];
    JoinTwo("port " + IntToString(port), "path " + path, " ");
  }

  /**
   * `tryAppend`: appends the formatted part, after a space unless the message is still
   * empty; an unsupported value appends nothing.
   */
  method TryAppend(message: string, part: Option<string>) returns (r: string)
    ensures part.None? ==> r == message
    ensures part.Some? && message == "" ==> r == part.value
    ensures part.Some? && message != "" ==> r == message + " " + part.value
  {
    r := message;
    if part.Some? {
      r := r + (if |r| != 0 then " " else "");
      r := r + part.value;
    }
  }

  /** `getStartedOnMessage`. */
  method GetStartedOnMessage(server: DisposableServer) returns (r: string)
    ensures r == StartedOnMessage(server)
  {
    var message := "";
    message := TryAppend(message, if server.port.Some? then Some("port " + IntToString(server.port.value)) else None);
    message := TryAppend(message, if server.path.Some? then Some("path " + server.path.value) else None);
    if server.port.Some? && server.path.Some? {
      StartedOnMessageBoth(server, server.port.value, server.path.value);
    }
    r := if |message| > 0 then " on " + message else "";
  }

  /** `applyRouteProviders`: each provider in registration order, then the catch-all route. */
  method ApplyRouteProviders(providers: seq<RouteProvider>, routes: seq<Route>) returns (r: seq<Route>)
    ensures r == ApplyInOrder(routes, providers) + [CatchAll]
  {
    r := routes;
    for i := 0 to |providers|
      invariant r == ApplyInOrder(routes, providers[..i])
    {
      assert providers[..i + 1][..i] == providers[..i];
      r := providers[i](r);
    }
    assert providers[..|providers|] == providers;
    r := r + [CatchAll];
  }

  /** A route provider that adds one named route. */
  function AddRoute(name: string): RouteProvider
  {
    (routes: seq<Route>) => routes + [ProvidedRoute(name)]
  }

  /** The providers registered for each of `names`, in order. */
  function AddRoutes(names: seq<string>): (r: seq<RouteProvider>)
    ensures |r| == |names|
  {
    seq(|names|, i requires 0 <= i < |names| => AddRoute(names[i]))
  }

  /** Providers that each add a route leave their routes in registration order. */
  lemma {:induction false} RouteProvidersApplyInOrder(routes: seq<Route>, names: seq<string>)
    ensures ApplyInOrder(routes, AddRoutes(names)) == routes + seq(|names|, i requires 0 <= i < |names| => ProvidedRoute(names[i]))
    decreases |names|
  {
    if names != [] {
      var n := |names| - 1;
      assert AddRoutes(names)[..n] == AddRoutes(names[..n]);
      RouteProvidersApplyInOrder(routes, names[..n]);
    }
  }

  /** The bind `startHttpServer` requests for the given route providers and timeout. */
  function RequestFor(providers: seq<RouteProvider>, timeout: Option<Duration>): BindRequest
  {
    BindRequest(if providers == [] then Handle else Routed(ApplyInOrder([], providers) + [CatchAll]), timeout)
  }

  class NettyWebServer {
    const lifecycleTimeout: Option<Duration>
    const gracefulShutdown: GracefulShutdown?
    var routeProviders: seq<RouteProvider>
    var disposableServer: Option<DisposableServer>
    /** The binds asked of the HTTP server, in order. */
    var binds: seq<BindRequest>
    /** The servers disposed of, in order. */
    var disposed: seq<DisposableServer>

    /** The constructor: a graceful shutdown exists exactly when GRACEFUL is configured. */
    constructor (lifecycleTimeout: Option<Duration>, shutdown: Shutdown)
      ensures this.lifecycleTimeout == lifecycleTimeout
      ensures (gracefulShutdown != null <==> shutdown == GRACEFUL)
      ensures gracefulShutdown != null ==> fresh(gracefulShutdown) && gracefulShutdown.requests == []
      ensures routeProviders == [] && disposableServer.None? && binds == [] && disposed == []
    {
      this.lifecycleTimeout := lifecycleTimeout;
      if shutdown == GRACEFUL {
        gracefulShutdown := new GracefulShutdown();
      } else {
        gracefulShutdown := null;
      }
      routeProviders := [];
      disposableServer := None;
      binds := [];
      disposed := [];
    }

    /** `setRouteProviders`: replaces the route providers. */
    method SetRouteProviders(providers: seq<RouteProvider>)
      modifies this`routeProviders
      ensures routeProviders == providers
    {
      routeProviders := providers;
    }

    /**
     * `startHttpServer`: handles requests directly without route providers, through their
     * routes otherwise, and binds with the lifecycle timeout when there is one.
     */
    method StartHttpServer() returns (request: BindRequest)
      ensures request == RequestFor(routeProviders, lifecycleTimeout)
      ensures routeProviders == [] <==> request.handling.Handle?
    {
      var handling := Handle;
      if routeProviders != [] {
        var routes := ApplyRouteProviders(routeProviders, []);
        handling := Routed(routes);
      }
      request := BindRequest(handling, lifecycleTimeout);
    }

    /**
     * `start`: binds only when no server is held. `bind` is how the bind ends; a failure
     * leaves no server and raises `StartError`.
     */
    method Start(bind: BindOutcome) returns (r: Outcome<WebServerError>)
      modifies this`disposableServer, this`binds
      ensures old(disposableServer).Some? ==> r.Pass? && unchanged(this)
      ensures old(disposableServer).None? ==>
                binds == old(binds) + [RequestFor(routeProviders, lifecycleTimeout)]
                && (r.Pass? <==> bind.Bound?)
                && (bind.Bound? ==> disposableServer == Some(bind.server))
                && (bind.BindFailed? ==> r == Fail(StartError(bind.channelBind)) && disposableServer.None?)
    {
      if disposableServer.None? {
        var request := StartHttpServer();
        binds := binds + [request];
        match bind
        case Bound(server) =>
          disposableServer := Some(server);
        case BindFailed(channelBind) =>
          return Fail(StartError(channelBind));
      }
      return Pass;
    }

    /**
     * `stop`: with a server held, aborts a graceful shutdown under way, disposes of the server
     * (an illegal-state failure is ignored) and forgets it, so that a later start binds again.
     */
    method Stop()
      modifies this`disposableServer, this`disposed, gracefulShutdown
      ensures disposableServer.None?
      ensures old(disposableServer).None? ==> disposed == old(disposed)
      ensures old(disposableServer).None? && gracefulShutdown != null ==> gracefulShutdown.requests == old(gracefulShutdown.requests)
      ensures old(disposableServer).Some? ==> disposed == old(disposed) + [old(disposableServer).value]
      ensures old(disposableServer).Some? && gracefulShutdown != null ==>
                gracefulShutdown.requests == old(gracefulShutdown.requests) + [AbortRequest]
    {
      if disposableServer.Some? {
        if gracefulShutdown != null {
          gracefulShutdown.Abort();
        }
        disposed := disposed + [disposableServer.value];
        disposableServer := None;
      }
    }

    /** `getPort`: the bound server's port, or -1 when not started or the port is unsupported. */
    function GetPort(): (r: int)
      reads this
      ensures disposableServer.None? ==> r == -1
      ensures disposableServer.Some? && disposableServer.value.port.None? ==> r == -1
      ensures disposableServer.Some? && disposableServer.value.port.Some? ==> r == disposableServer.value.port.value
    {
      match disposableServer
      case None => -1
      case Some(server) =>
        match server.port
        case Some(port) => port
        case None => -1
    }

    /**
     * `shutDownGracefully`: without a graceful shutdown the callback hears IMMEDIATE at once;
     * otherwise the request is handed to the graceful shutdown, which reports later.
     */
    method ShutDownGracefully() returns (reported: Option<GracefulShutdownResult>)
      modifies gracefulShutdown
      ensures gracefulShutdown == null <==> reported == Some(GracefulShutdownResult.IMMEDIATE)
      ensures gracefulShutdown != null ==>
                reported.None? && gracefulShutdown.requests == old(gracefulShutdown.requests) + [GracefulRequest]
    {
      if gracefulShutdown == null {
        return Some(GracefulShutdownResult.IMMEDIATE);
      }
      gracefulShutdown.ShutDownGracefully();
      return None;
    }
  }

  /** After a stop, a start binds a new server again. */
  method StopThenStart(server: NettyWebServer, bind: BindOutcome) returns (r: Outcome<WebServerError>)
    modifies server, server.gracefulShutdown
    ensures server.binds == old(server.binds) + [RequestFor(server.routeProviders, server.lifecycleTimeout)]
    ensures r.Pass? <==> bind.Bound?
  {
    server.Stop();
    r := server.Start(bind);
  }
}
