/**
 * `NettyReactiveWebServerFactory`: the protocols and listen address of the Reactor Netty
 * `HttpServer` it builds, the server customizers applied to it in insertion order, and the
 * route providers handed to the `NettyWebServer` it creates.
 */
module NettyReactiveWebServerFactories {
  import opened Wrappers
  import opened Strings
  import opened Sequences
  import opened Durations
  import opened WebServers
  import opened NettyWebServers

  const MAX_PORT := 65535
  const NO_LOOP_RESOURCES := "No LoopResources: is ReactorResourceFactory not initialized yet?"

  datatype HttpProtocol = H2 | HTTP11

  /** `listProtocols`: HTTP/2 over TLS as well as HTTP/1.1 only when both HTTP/2 and SSL are enabled. */
  function ListProtocols(http2Enabled: Option<bool>, sslEnabled: Option<bool>): (r: seq<HttpProtocol>)
    ensures r == [H2, HTTP11] || r == [HTTP11]
    ensures r == [H2, HTTP11] <==> http2Enabled == Some(true) && sslEnabled == Some(true)
    ensures HTTP11 in r
  {
    if http2Enabled.Some? && http2Enabled.value && sslEnabled.Some? && sslEnabled.value then [H2, HTTP11]
    else [HTTP11]
  }

  /** A socket address: a host, or the wildcard address when `host` is `None`, and a port. */
  datatype SocketAddress = SocketAddress(host: Option<string>, port: int)

  datatype ArgumentError = IllegalArgument(message: string)

  /**
   * `getListenAddress`: the configured address's host when one is set, otherwise the
   * wildcard, always with the configured port. An `InetSocketAddress` refuses a port
   * outside 0..65535.
   */
  function ListenAddress(address: Option<string>, port: int): (r: Result<SocketAddress, ArgumentError>)
    ensures r.Success? <==> 0 <= port <= MAX_PORT
    ensures r.Success? ==> r.value.port == port && r.value.host == address
    ensures r.Failure? ==> r.error == IllegalArgument("port out of range:" + IntToString(port))
  {
    if port < 0 || port > MAX_PORT then Failure(IllegalArgument("port out of range:" + IntToString(port)))
    else Success(SocketAddress(address, port))
  }

  /** The server that `createHttpServer` configures before the customizers see it. */
  datatype HttpServer = HttpServer(
    runOnLoopResources: bool,
    listenAddress: Result<SocketAddress, ArgumentError>,
    sslCustomized: bool,
    compressionCustomized: bool,
    protocols: seq<HttpProtocol>,
    forwarded: bool)

  type ServerCustomizer = nat

  /** The server after the customizers, each applied to the previous one's result, in order. */
  function Customized(server: HttpServer, customizers: seq<ServerCustomizer>,
                      customize: (ServerCustomizer, HttpServer) -> HttpServer): HttpServer
  {
    if customizers == [] then server
    else customize(customizers[|customizers| - 1], Customized(server, customizers[..|customizers| - 1], customize))
  }

  /** Applying two runs of customizers is applying the first, then the second to its result. */
  lemma {:induction false} CustomizedAppend(server: HttpServer, first: seq<ServerCustomizer>, second: seq<ServerCustomizer>,
                                            customize: (ServerCustomizer, HttpServer) -> HttpServer)
    ensures Customized(server, first + second, customize) == Customized(Customized(server, first, customize), second, customize)
  {
    if second == [] {
      assert first + second == first;
    } else {
      var n := |second| - 1;
      assert (first + second)[..|first + second| - 1] == first + second[..n];
      CustomizedAppend(server, first, second[..n], customize);
    }
  }

  /** `applyCustomizers`: every customizer, in insertion order, to the previous result. */
  method ApplyCustomizers(server: HttpServer, customizers: seq<ServerCustomizer>,
                          customize: (ServerCustomizer, HttpServer) -> HttpServer) returns (r: HttpServer)
    ensures r == Customized(server, customizers, customize)
  {
    r := server;
    for i := 0 to |customizers|
      invariant r == Customized(server, customizers[..i], customize)
    {
      assert customizers[..i + 1][..i] == customizers[..i];
      r := customize(customizers[i], r);
    }
    assert customizers[..|customizers|] == customizers;
  }

  /** A `ReactorResourceFactory`: whether its loop resources exist yet. */
  datatype ResourceFactory = ResourceFactory(hasLoopResources: bool)

  /**
   * The factory's settings the built server depends on, its server customizers (a
   * `LinkedHashSet`: insertion order, no repeats) and its route providers (an `ArrayList`).
   */
  class NettyReactiveWebServerFactory {
    const port: int
    const address: Option<string>
    const http2Enabled: Option<bool>
    const sslEnabled: Option<bool>
    const compressionEnabled: Option<bool>
    const lifecycleTimeout: Option<Duration>
    var useForwardHeaders: bool
    var resourceFactory: Option<ResourceFactory>
    var shutdown: Shutdown
    var serverCustomizers: seq<ServerCustomizer>
    var routeProviders: seq<RouteProvider>

    predicate Valid()
      reads this
    {
      Distinct(serverCustomizers)
    }

    constructor (port: int, address: Option<string>, http2Enabled: Option<bool>, sslEnabled: Option<bool>,
                 compressionEnabled: Option<bool>, lifecycleTimeout: Option<Duration>)
      ensures Valid()
      ensures this.port == port && this.address == address && this.http2Enabled == http2Enabled
      ensures this.sslEnabled == sslEnabled && this.compressionEnabled == compressionEnabled
      ensures this.lifecycleTimeout == lifecycleTimeout
      // an unset shutdown is not GRACEFUL, which is all the server it builds asks of it
      ensures !useForwardHeaders && resourceFactory.None? && shutdown == Shutdown.IMMEDIATE
      ensures serverCustomizers == [] && routeProviders == []
    {
      this.port := port;
      this.address := address;
      this.http2Enabled := http2Enabled;
      this.sslEnabled := sslEnabled;
      this.compressionEnabled := compressionEnabled;
      this.lifecycleTimeout := lifecycleTimeout;
      useForwardHeaders := false;
      resourceFactory := None;
      shutdown := Shutdown.IMMEDIATE;
      serverCustomizers := [];
      routeProviders := [];
    }

    /** `setServerCustomizers`: replaces the customizers, dropping repeats. */
    method SetServerCustomizers(customizers: seq<ServerCustomizer>)
      requires Valid()
      modifies this`serverCustomizers
      ensures Valid() && serverCustomizers == Dedup(customizers)
    {
      serverCustomizers := Dedup(customizers);
    }

    /** `addServerCustomizers`: appends the customizers not yet present. */
    method AddServerCustomizers(customizers: seq<ServerCustomizer>)
      requires Valid()
      modifies this`serverCustomizers
      ensures Valid() && serverCustomizers == AddAll(old(serverCustomizers), customizers)
    {
      serverCustomizers := AddAll(serverCustomizers, customizers);
    }

    /** `addRouteProviders`: appends the providers, repeats included. */
    method AddRouteProviders(providers: seq<RouteProvider>)
      modifies this`routeProviders
      ensures routeProviders == old(routeProviders) + providers
    {
      routeProviders := routeProviders + providers;
    }

    method SetUseForwardHeaders(useForwardHeaders: bool)
      modifies this`useForwardHeaders
      ensures this.useForwardHeaders == useForwardHeaders
    {
      this.useForwardHeaders := useForwardHeaders;
    }

    method SetResourceFactory(resourceFactory: Option<ResourceFactory>)
      modifies this`resourceFactory
      ensures this.resourceFactory == resourceFactory
    {
      this.resourceFactory := resourceFactory;
    }

    method SetShutdown(shutdown: Shutdown)
      modifies this`shutdown
      ensures this.shutdown == shutdown
    {
      this.shutdown := shutdown;
    }

    /**
     * `createHttpServer`: the listen address (on the shared loop resources when a resource
     * factory is set, which must have them), SSL and compression when enabled, the protocols
     * and the forwarded-header setting, and then the customizers.
     */
    method CreateHttpServer(customize: (ServerCustomizer, HttpServer) -> HttpServer)
        returns (r: Result<HttpServer, ArgumentError>)
      ensures r.Failure? <==> resourceFactory.Some? && !resourceFactory.value.hasLoopResources
      ensures r.Failure? ==> r.error == IllegalArgument(NO_LOOP_RESOURCES)
      ensures r.Success? ==> r.value == Customized(HttpServer(resourceFactory.Some?, ListenAddress(address, port),
                                                              sslEnabled == Some(true), compressionEnabled == Some(true),
                                                              ListProtocols(http2Enabled, sslEnabled), useForwardHeaders),
                                                   serverCustomizers, customize)
    {
      var server := HttpServer(false, ListenAddress(address, port), false, false, [HTTP11], false);
      if resourceFactory.Some? {
        if !resourceFactory.value.hasLoopResources {
          return Failure(IllegalArgument(NO_LOOP_RESOURCES));
        }
        server := server.(runOnLoopResources := true);
      }
      if sslEnabled.Some? && sslEnabled.value {
        server := server.(sslCustomized := true);
      }
      if compressionEnabled.Some? && compressionEnabled.value {
        server := server.(compressionCustomized := true);
      }
      server := server.(protocols := ListProtocols(http2Enabled, sslEnabled), forwarded := useForwardHeaders);
      var customized := ApplyCustomizers(server, serverCustomizers, customize);
      r := Success(customized);
    }

    /**
     * `getWebServer`: a Netty web server with this factory's lifecycle timeout and shutdown,
     * given the factory's route providers, paired with the customized `HttpServer` it serves.
     */
    method GetWebServer(customize: (ServerCustomizer, HttpServer) -> HttpServer)
        returns (r: Result<(NettyWebServer, HttpServer), ArgumentError>)
      ensures r.Failure? <==> resourceFactory.Some? && !resourceFactory.value.hasLoopResources
      ensures r.Failure? ==> r.error == IllegalArgument(NO_LOOP_RESOURCES)
      ensures r.Success? ==> r.value.1 == Customized(HttpServer(resourceFactory.Some?, ListenAddress(address, port),
                                                                sslEnabled == Some(true), compressionEnabled == Some(true),
                                                                ListProtocols(http2Enabled, sslEnabled), useForwardHeaders),
                                                     serverCustomizers, customize)
      ensures r.Success? ==> fresh(r.value.0) && r.value.0.routeProviders == routeProviders
      ensures r.Success? ==> r.value.0.lifecycleTimeout == lifecycleTimeout
      ensures r.Success? ==> (r.value.0.gracefulShutdown != null <==> shutdown == GRACEFUL)
      ensures r.Success? ==> r.value.0.disposableServer.None?
    {
      var httpServer := CreateHttpServer(customize);
      if httpServer.Failure? {
        return Failure(httpServer.error);
      }
      var webServer := new NettyWebServer(lifecycleTimeout, shutdown);
      webServer.SetRouteProviders(routeProviders);
      r := Success((webServer, httpServer.value));
    }
  }

  /** Customizers added later run after the ones already present, on their result. */
  lemma AddedCustomizersRunLast(server: HttpServer, present: seq<ServerCustomizer>, added: seq<ServerCustomizer>,
                                customize: (ServerCustomizer, HttpServer) -> HttpServer)
    requires Distinct(present) && Distinct(added)
    requires forall x :: x in added ==> x !in present
    ensures Customized(server, AddAll(present, added), customize)
         == Customized(Customized(server, present, customize), added, customize)
  {
    AddAllFresh(present, added);
    CustomizedAppend(server, present, added, customize);
  }
}
