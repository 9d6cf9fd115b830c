/**
 * `UndertowWebServerFactoryDelegate`: the ordered list of `HttpHandlerFactory`s an Undertow
 * server's handler chain is built from, and the builder customizers.
 */
module UndertowWebServerFactoryDelegates {
  import opened Wrappers
  import opened Strings
  import opened Sequences
  import opened WebServers

  /** The compression settings: only whether they are enabled matters here. */
  datatype Compression = Compression(enabled: bool)

  /** The access-log settings the access-log factory is made from. */
  datatype AccessLog = AccessLog(directory: Option<string>, pattern: Option<string>, prefix: Option<string>,
                                 suffix: Option<string>, rotate: bool)

  /** An `HttpHandlerFactory`: one passed in by the caller, or one the delegate adds. */
  datatype HttpHandlerFactory =
    | InitialFactory(id: nat)
    | CompressionFactory(compression: Compression)
    | ProxyPeerAddressFactory
    | ServerHeaderFactory(serverHeader: string)
    | GracefulShutdownFactory
    | AccessLogFactory(accessLog: AccessLog)

  /** The fixed position each added factory takes relative to the others. */
  function Rank(f: HttpHandlerFactory): nat
  {
    match f
    case InitialFactory(_) => 0
    case CompressionFactory(_) => 1
    case ProxyPeerAddressFactory => 2
    case ServerHeaderFactory(_) => 3
    case GracefulShutdownFactory => 4
    case AccessLogFactory(_) => 5
  }

  /** The factories appear in their fixed order, each at most once. */
  predicate InFixedOrder(fs: seq<HttpHandlerFactory>)
  {
    forall i, j | 0 <= i < j < |fs| :: Rank(fs[i]) < Rank(fs[j])
  }

  /** The compression settings are present and enabled. */
  predicate CompressionEnabled(compression: Option<Compression>)
  {
    compression.Some? && compression.value.enabled
  }

  /**
   * The factories added after the initial ones: compression when enabled, the proxy peer
   * address when forward headers are used, the server header when it has text, and the
   * graceful shutdown handler when GRACEFUL is configured, in that order.
   */
  function ConditionalFactories(compression: Option<Compression>, useForwardHeaders: bool,
                                serverHeader: Option<string>, shutdown: Shutdown): seq<HttpHandlerFactory>
  {
    (if CompressionEnabled(compression) then [CompressionFactory(compression.value)] else [])
    + (if useForwardHeaders then [ProxyPeerAddressFactory] else [])
    + (if HasText(serverHeader) then [ServerHeaderFactory(serverHeader.value)] else [])
    + (if shutdown == GRACEFUL then [GracefulShutdownFactory] else [])
  }

  /** The conditional factories come in their fixed order, none an initial or an access-log one. */
  lemma ConditionalFactoriesOrdered(compression: Option<Compression>, useForwardHeaders: bool,
                                    serverHeader: Option<string>, shutdown: Shutdown)
    ensures var r := ConditionalFactories(compression, useForwardHeaders, serverHeader, shutdown);
            InFixedOrder(r) && forall i | 0 <= i < |r| :: 1 <= Rank(r[i]) <= 4
  {
    var a := if CompressionEnabled(compression) then [CompressionFactory(compression.value)] else [];
    var ab := a + if useForwardHeaders then [ProxyPeerAddressFactory] else [];
    if useForwardHeaders {
      AppendInOrder(a, ProxyPeerAddressFactory, 1);
    } else {
      assert ab == a;
    }
    var abc := ab + if HasText(serverHeader) then [ServerHeaderFactory(serverHeader.value)] else [];
    if HasText(serverHeader) {
      AppendInOrder(ab, ServerHeaderFactory(serverHeader.value), 2);
    } else {
      assert abc == ab;
    }
    var abcd := abc + if shutdown == GRACEFUL then [GracefulShutdownFactory] else [];
    if shutdown == GRACEFUL {
      AppendInOrder(abc, GracefulShutdownFactory, 3);
    } else {
      assert abcd == abc;
    }
  }

  /** A factory ranked above every factory of a run in fixed order extends that run. */
  lemma AppendInOrder(fs: seq<HttpHandlerFactory>, f: HttpHandlerFactory, bound: nat)
    requires InFixedOrder(fs) && (forall i | 0 <= i < |fs| :: 1 <= Rank(fs[i]) <= bound) && bound < Rank(f)
    ensures InFixedOrder(fs + [f]) && forall i | 0 <= i < |fs| + 1 :: 1 <= Rank((fs + [f])[i]) <= Rank(f)
  {
    forall i, j | 0 <= i < j < |fs| + 1 ensures Rank((fs + [f])[i]) < Rank((fs + [f])[j]) {
      assert (fs + [f])[i] == fs[i];
    }
  }

  /** Each conditional factory is there exactly when its condition holds, with the configured value. */
  lemma ConditionalFactoriesPresent(compression: Option<Compression>, useForwardHeaders: bool,
                                    serverHeader: Option<string>, shutdown: Shutdown)
    ensures var r := ConditionalFactories(compression, useForwardHeaders, serverHeader, shutdown);
            (CompressionEnabled(compression) ==> CompressionFactory(compression.value) in r)
            && (forall f | f in r && f.CompressionFactory? :: CompressionEnabled(compression) && f.compression == compression.value)
            && (useForwardHeaders <==> ProxyPeerAddressFactory in r)
            && (HasText(serverHeader) ==> ServerHeaderFactory(serverHeader.value) in r)
            && (forall f | f in r && f.ServerHeaderFactory? :: HasText(serverHeader) && f.serverHeader == serverHeader.value)
            && (shutdown == GRACEFUL <==> GracefulShutdownFactory in r)
  {
    var a := if CompressionEnabled(compression) then [CompressionFactory(compression.value)] else [];
    var b := if useForwardHeaders then [ProxyPeerAddressFactory] else [];
    var c := if HasText(serverHeader) then [ServerHeaderFactory(serverHeader.value)] else [];
    var d := if shutdown == GRACEFUL then [GracefulShutdownFactory] else [];
    var r := a + b + c + d;
    assert ConditionalFactories(compression, useForwardHeaders, serverHeader, shutdown) == r;
    assert forall f :: f in r <==> f in a || f in b || f in c || f in d;
  }

  /**
   * The static `createHttpHandlerFactories`: the initial factories in the given order,
   * followed by the conditional ones.
   */
  method CreateHttpHandlerFactories(compression: Option<Compression>, useForwardHeaders: bool,
                                    serverHeader: Option<string>, shutdown: Shutdown,
                                    initialHttpHandlerFactories: seq<HttpHandlerFactory>)
      returns (factories: seq<HttpHandlerFactory>)
    ensures factories == initialHttpHandlerFactories
                         + ConditionalFactories(compression, useForwardHeaders, serverHeader, shutdown)
  {
    factories := initialHttpHandlerFactories;
    if compression.Some? && compression.value.enabled {
      factories := factories + [CompressionFactory(compression.value)];
    }
    if useForwardHeaders {
      factories := factories + [ProxyPeerAddressFactory];
    }
    if HasText(serverHeader) {
      factories := factories + [ServerHeaderFactory(serverHeader.value)];
    }
    if shutdown == GRACEFUL {
      factories := factories + [GracefulShutdownFactory];
    }
    assert factories == initialHttpHandlerFactories
                        + (if CompressionEnabled(compression) then [CompressionFactory(compression.value)] else [])
                        + (if useForwardHeaders then [ProxyPeerAddressFactory] else [])
                        + (if HasText(serverHeader) then [ServerHeaderFactory(serverHeader.value)] else [])
                        + (if shutdown == GRACEFUL then [GracefulShutdownFactory] else []);
  }

  /** The web server factory settings the instance overload reads. */
  datatype WebServerFactorySettings = WebServerFactorySettings(compression: Option<Compression>,
                                                               serverHeader: Option<string>, shutdown: Shutdown)

  type BuilderCustomizer = nat

  /**
   * The delegate's state: its builder customizers (a `LinkedHashSet`: insertion order, no
   * repeats), the access-log settings and whether forward headers are used.
   */
  class UndertowWebServerFactoryDelegate {
    var builderCustomizers: seq<BuilderCustomizer>
    var accessLog: AccessLog
    var accessLogEnabled: bool
    var useForwardHeaders: bool

    predicate Valid()
      reads this
    {
      Distinct(builderCustomizers)
    }

    /** A new delegate: no customizers, access logging off, log rotation on. */
    constructor ()
      ensures Valid() && builderCustomizers == []
      ensures accessLog == AccessLog(None, None, None, None, true)
      ensures !accessLogEnabled && !useForwardHeaders
    {
      builderCustomizers := [];
      accessLog := AccessLog(None, None, None, None, true);
      accessLogEnabled := false;
      useForwardHeaders := false;
    }

    /** `addBuilderCustomizers`: appends the customizers not yet present. */
    method AddBuilderCustomizers(customizers: seq<BuilderCustomizer>)
      requires Valid()
      modifies this`builderCustomizers
      ensures Valid() && builderCustomizers == AddAll(old(builderCustomizers), customizers)
    {
      builderCustomizers := AddAll(builderCustomizers, customizers);
    }

    /** `setBuilderCustomizers`: replaces the customizers, dropping repeats. */
    method SetBuilderCustomizers(customizers: seq<BuilderCustomizer>)
      requires Valid()
      modifies this`builderCustomizers
      ensures Valid() && builderCustomizers == Dedup(customizers)
    {
      builderCustomizers := Dedup(customizers);
    }

    method SetAccessLogEnabled(accessLogEnabled: bool)
      modifies this`accessLogEnabled
      ensures this.accessLogEnabled == accessLogEnabled
    {
      this.accessLogEnabled := accessLogEnabled;
    }

    method SetUseForwardHeaders(useForwardHeaders: bool)
      modifies this`useForwardHeaders
      ensures this.useForwardHeaders == useForwardHeaders
    {
      this.useForwardHeaders := useForwardHeaders;
    }

    /**
     * The instance `createHttpHandlerFactories`: the static list for the web server
     * factory's settings and this delegate's forward-header setting, with the access-log
     * factory last when access logging is enabled.
     */
    method CreateHttpHandlerFactoriesFor(settings: WebServerFactorySettings,
                                         initialHttpHandlerFactories: seq<HttpHandlerFactory>)
        returns (factories: seq<HttpHandlerFactory>)
      ensures factories == initialHttpHandlerFactories
                           + ConditionalFactories(settings.compression, useForwardHeaders, settings.serverHeader, settings.shutdown)
                           + (if accessLogEnabled then [AccessLogFactory(accessLog)] else [])
    {
      factories := CreateHttpHandlerFactories(settings.compression, useForwardHeaders, settings.serverHeader,
                                              settings.shutdown, initialHttpHandlerFactories);
      if accessLogEnabled {
        factories := factories + [AccessLogFactory(accessLog)];
      }
    }
  }

  /**
   * When the initial factories are the caller's own, the whole list keeps them first and
   * after them every added factory in its fixed order, the access log last.
   */
  lemma {:induction false} FactoriesInOrder(initial: seq<HttpHandlerFactory>, compression: Option<Compression>,
                                            useForwardHeaders: bool, serverHeader: Option<string>, shutdown: Shutdown,
                                            accessLog: Option<AccessLog>)
    requires forall i | 0 <= i < |initial| :: initial[i].InitialFactory?
    ensures var added := ConditionalFactories(compression, useForwardHeaders, serverHeader, shutdown)
                         + (if accessLog.Some? then [AccessLogFactory(accessLog.value)] else []);
            var all := initial + added;
            all[..|initial|] == initial && InFixedOrder(added)
            && (forall i | |initial| <= i < |all| :: !all[i].InitialFactory?)
            && (accessLog.Some? ==> all[|all| - 1] == AccessLogFactory(accessLog.value))
  {
    var conditional := ConditionalFactories(compression, useForwardHeaders, serverHeader, shutdown);
    var added := conditional + if accessLog.Some? then [AccessLogFactory(accessLog.value)] else [];
    ConditionalFactoriesOrdered(compression, useForwardHeaders, serverHeader, shutdown);
    if accessLog.Some? {
      AppendInOrder(conditional, AccessLogFactory(accessLog.value), 4);
    } else {
      assert added == conditional;
    }
    var all := initial + added;
    forall i | |initial| <= i < |all| ensures !all[i].InitialFactory? {
      assert all[i] == added[i - |initial|];
    }
  }
}
