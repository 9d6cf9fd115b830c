/**
 * `JettyServletWebServerFactory`: the session settings and context path a web-app context
 * gets, the resources it serves, its configurations in order, the handler chain around it,
 * the error pages it registers, and the factory's customizers and configurations.
 */
module JettyServletWebServerFactories {
  import opened Wrappers
  import opened Strings
  import opened Sequences
  import opened Durations
  import opened JavaInts
  import opened WebServers
  import opened JettyWebServers
  import opened ErrorPageFilters

  /** `ErrorPageErrorHandler.GLOBAL_ERROR_PAGE`. */
  const GLOBAL_ERROR_PAGE := "org.eclipse.jetty.server.error_page.global"
  const GZIP_HANDLER := "GzipHandler"
  const SERVER_HEADER_HANDLER := "ServerHeaderHandler"
  /** The prefix under which the loader-hiding resource hides everything. */
  const HIDDEN_PREFIX := "/org/springframework/boot"

  /** `isNegative`: no timeout, or a negative one. */
  predicate IsNegative(timeout: Option<Duration>)
    ensures timeout.None? ==> IsNegative(timeout)
    ensures timeout == Some(0) ==> !IsNegative(timeout)
    ensures timeout.Some? && IsNegative(timeout) ==> timeout.value < 0
  {
    timeout.None? || timeout.value < 0
  }

  /**
   * The session handler's max inactive interval that `configureSession` sets: -1 (never
   * expire) for no or a negative timeout, otherwise the whole seconds narrowed to an `int`.
   */
  function MaxInactiveInterval(timeout: Option<Duration>): (r: int)
    ensures INT_MIN <= r <= INT_MAX
    ensures IsNegative(timeout) ==> r == -1
    ensures !IsNegative(timeout) && GetSeconds(timeout.value) <= INT_MAX ==> r == GetSeconds(timeout.value)
  {
    if IsNegative(timeout) then -1 else IntCast(GetSeconds(timeout.value))
  }

  /** A zero timeout, and any timeout under a second, gives 0: sessions expire at once. */
  lemma SubSecondTimeoutIsZero(timeout: Duration)
    requires 0 <= timeout < NANOS_PER_SECOND
    ensures MaxInactiveInterval(Some(timeout)) == 0
  {
    assert GetSeconds(timeout) == 0;
  }

  /** A timeout of whole seconds plus a fraction gives those seconds, when they fit an `int`. */
  lemma WholeSecondsTimeout(seconds: int, rest: Duration)
    requires 0 <= seconds <= INT_MAX && 0 <= rest < NANOS_PER_SECOND
    ensures MaxInactiveInterval(Some(seconds * NANOS_PER_SECOND + rest)) == seconds
  {
    var d := seconds * NANOS_PER_SECOND + rest;
    assert GetSeconds(d) == seconds;
  }

  /** The context path `configureWebAppContext` sets: "/" in place of a missing or empty one. */
  function WebAppContextPath(contextPath: Option<string>): (r: string)
    ensures |r| > 0
    ensures HasLength(contextPath) ==> r == contextPath.value
    ensures !HasLength(contextPath) ==> r == "/"
  {
    if HasLength(contextPath) then contextPath.value else "/"
  }

  /** A URL with `META-INF/resources`: its protocol, its text, and whether it names a regular file. */
  datatype ResourceUrl = ResourceUrl(protocol: string, text: string, isFile: bool)

  /**
   * `createResource`: a regular file reached by a "file" URL is a jar, read through a jar
   * URL; any other URL is a directory the resources are under.
   */
  function CreateResource(url: ResourceUrl): (r: string)
    ensures EndsWith(r, "META-INF/resources")
    ensures url.protocol == "file" && url.isFile ==> r == "jar:" + url.text + "!/META-INF/resources"
    ensures !(url.protocol == "file" && url.isFile) ==> r == url.text + "META-INF/resources"
  {
    if url.protocol == "file" && url.isFile then "jar:" + url.text + "!/META-INF/resources"
    else url.text + "META-INF/resources"
  }

  /** `LoaderHidingResource.addPath`: nothing for the hidden paths, the delegate's resource otherwise. */
  function AddPath<R>(path: string, delegate: string -> R): (r: Option<R>)
    ensures r.None? <==> StartsWith(path, HIDDEN_PREFIX)
    ensures r.Some? ==> r.value == delegate(path)
  {
    if StartsWith(path, HIDDEN_PREFIX) then None else Some(delegate(path))
  }

  /** The Jetty `Configuration`s of a web-app context. */
  datatype Configuration =
    | ServletContextInitializerConfiguration(initializers: seq<nat>)
    | ErrorPageConfiguration
    | MimeTypeConfiguration
    | WebListenersConfiguration(classNames: seq<string>)
    | UserConfiguration(id: nat)

  /**
   * `getWebAppContextConfigurations`: the initializers' configuration, the error pages, the
   * mime types and the web listeners, in that order, then the factory's own configurations.
   */
  method GetWebAppContextConfigurations(initializers: seq<nat>, webListenerClassNames: seq<string>,
                                        configurations: seq<Configuration>)
      returns (r: seq<Configuration>)
    ensures |r| == 4 + |configurations|
    ensures r[0] == ServletContextInitializerConfiguration(initializers)
    ensures r[1] == ErrorPageConfiguration && r[2] == MimeTypeConfiguration
    ensures r[3] == WebListenersConfiguration(webListenerClassNames)
    ensures r[4..] == configurations
  {
    r := [];
    r := r + [ServletContextInitializerConfiguration(initializers)];
    r := r + [ErrorPageConfiguration];
    r := r + [MimeTypeConfiguration];
    r := r + [WebListenersConfiguration(webListenerClassNames)];
    r := r + configurations;
  }

  /** The handler `addHandlerWrappers` returns: gzip inside, the server header outside it. */
  function Wrapped(handler: Handler, compression: bool, serverHeader: Option<string>): Handler
  {
    var gzipped := if compression then HandlerWrapper(GZIP_HANDLER, Some(handler)) else handler;
    if HasText(serverHeader) then HandlerWrapper(SERVER_HEADER_HANDLER, Some(gzipped)) else gzipped
  }

  /**
   * `addHandlerWrappers`: wraps the handler in a gzip handler when compression is enabled,
   * then in a server-header handler when a server header has text.
   */
  method AddHandlerWrappers(handler: Handler, compression: bool, serverHeader: Option<string>) returns (r: Handler)
    ensures r == Wrapped(handler, compression, serverHeader)
  {
    r := handler;
    if compression {
      r := ApplyWrapper(r, GZIP_HANDLER);
    }
    if HasText(serverHeader) {
      r := ApplyWrapper(r, SERVER_HEADER_HANDLER);
    }
  }

  /** `applyWrapper`: the wrapper, holding the handler. */
  method ApplyWrapper(handler: Handler, kind: string) returns (r: Handler)
    ensures r.HandlerWrapper? && r.kind == kind && r.inner == Some(handler)
  {
    r := HandlerWrapper(kind, Some(handler));
  }

  /**
   * The server's handler in `getWebServer`: the wrapped context, inside a statistics handler
   * when the shutdown is GRACEFUL.
   */
  method ServerHandler(context: Handler, compression: bool, serverHeader: Option<string>, shutdown: Shutdown)
      returns (r: Handler)
    ensures shutdown == GRACEFUL ==> r == StatisticsHandler(Some(Wrapped(context, compression, serverHeader)))
    ensures shutdown != GRACEFUL ==> r == Wrapped(context, compression, serverHeader)
  {
    r := AddHandlerWrappers(context, compression, serverHeader);
    if shutdown == GRACEFUL {
      r := StatisticsHandler(Some(r));
    }
  }

  /** The wrappers `addHandlerWrappers` adds hide neither the context nor a statistics handler. */
  lemma WrappedFindsTheSame(handler: Handler, compression: bool, serverHeader: Option<string>, kind: HandlerKind)
    ensures FindFirst(Some(Wrapped(handler, compression, serverHeader)), kind) == FindFirst(Some(handler), kind)
  {
    var gzipped := if compression then HandlerWrapper(GZIP_HANDLER, Some(handler)) else handler;
    assert FindFirst(Some(gzipped), kind) == FindFirst(Some(handler), kind);
  }

  /**
   * The server built for a context without a statistics handler of its own supports graceful
   * shutdown exactly when GRACEFUL is configured, and always finds the context.
   */
  lemma GracefulShutdownIffGraceful(context: Handler, compression: bool, serverHeader: Option<string>, shutdown: Shutdown)
    requires context.ContextHandler? && FindStatisticsHandler(Some(context)).None?
    ensures var server := if shutdown == GRACEFUL then StatisticsHandler(Some(Wrapped(context, compression, serverHeader)))
                          else Wrapped(context, compression, serverHeader);
            (FindStatisticsHandler(Some(server)).Some? <==> shutdown == GRACEFUL)
            && FindFirst(Some(server), Context) == Some(context)
  {
    var wrapped := Wrapped(context, compression, serverHeader);
    WrappedFindsTheSame(context, compression, serverHeader, Statistics);
    WrappedFindsTheSame(context, compression, serverHeader, Context);
  }

  /** Where `addErrorPage` files a page: under a name (global or exception) or a status code. */
  datatype ErrorPageKey = NameKey(name: string) | StatusKey(status: int)

  /** The key page `page` is registered under by `addJettyErrorPages`. */
  function KeyOf(page: ErrorPage): (r: ErrorPageKey)
    ensures page.IsGlobal() ==> r == NameKey(GLOBAL_ERROR_PAGE)
    ensures !page.IsGlobal() && page.exception.Some? ==> r == NameKey(page.exception.value)
    ensures !page.IsGlobal() && page.exception.None? ==> page.status.Some? && r == StatusKey(page.status.value)
  {
    if page.IsGlobal() then NameKey(GLOBAL_ERROR_PAGE)
    else if page.exception.Some? then NameKey(page.exception.value)
    else StatusKey(page.status.value)
  }

  /** The registrations after registering `pages` in order, each replacing an earlier one with its key. */
  function RegisterAll(registered: map<ErrorPageKey, string>, pages: seq<ErrorPage>): map<ErrorPageKey, string>
  {
    if pages == [] then registered
    else RegisterAll(registered, pages[..|pages| - 1])[KeyOf(pages[|pages| - 1]) := pages[|pages| - 1].path]
  }

  /** A page not followed by another with the same key is the one its key serves. */
  lemma {:induction false} LastRegistrationWins(registered: map<ErrorPageKey, string>, pages: seq<ErrorPage>, i: nat)
    requires i < |pages| && forall k | i < k < |pages| :: KeyOf(pages[k]) != KeyOf(pages[i])
    ensures KeyOf(pages[i]) in RegisterAll(registered, pages)
    ensures RegisterAll(registered, pages)[KeyOf(pages[i])] == pages[i].path
  {
    var n := |pages| - 1;
    if i < n {
      assert forall k | i < k < n :: pages[..n][k] == pages[k];
      LastRegistrationWins(registered, pages[..n], i);
      assert pages[..n][i] == pages[i];
    }
  }

  /** The keys of `pages`. */
  ghost function PageKeys(pages: seq<ErrorPage>): set<ErrorPageKey>
  {
    set k | 0 <= k < |pages| :: KeyOf(pages[k])
  }

  /** Registering pages adds exactly their keys. */
  lemma {:induction false} RegisterAllKeys(registered: map<ErrorPageKey, string>, pages: seq<ErrorPage>)
    ensures RegisterAll(registered, pages).Keys == registered.Keys + PageKeys(pages)
  {
    if pages != [] {
      var n := |pages| - 1;
      RegisterAllKeys(registered, pages[..n]);
      forall x | x in PageKeys(pages)
        ensures x in PageKeys(pages[..n]) + {KeyOf(pages[n])}
      {
        var k :| 0 <= k < |pages| && x == KeyOf(pages[k]);
        if k < n {
          assert pages[..n][k] == pages[k];
        }
      }
      forall x | x in PageKeys(pages[..n])
        ensures x in PageKeys(pages)
      {
        var k :| 0 <= k < n && x == KeyOf(pages[..n][k]);
        assert pages[..n][k] == pages[k];
      }
      assert PageKeys(pages) == PageKeys(pages[..n]) + {KeyOf(pages[n])};
    }
  }

  /** The `ErrorPageErrorHandler` the embedded error handler is: its registered pages by key. */
  class ErrorPageErrorHandler {
    var errorPages: map<ErrorPageKey, string>

    constructor ()
      ensures errorPages == map[]
    {
      errorPages := map[];
    }
  }

  /**
   * `addJettyErrorPages`: a global page under the global key, otherwise under its exception's
   * name when it has one, else under its status code.
   */
  method AddJettyErrorPages(handler: ErrorPageErrorHandler, pages: seq<ErrorPage>)
    modifies handler
    ensures handler.errorPages == RegisterAll(old(handler.errorPages), pages)
  {
    ghost var initial := handler.errorPages;
    for i := 0 to |pages|
      invariant handler.errorPages == RegisterAll(initial, pages[..i])
    {
      var page := pages[i];
      if page.IsGlobal() {
        handler.errorPages := handler.errorPages[NameKey(GLOBAL_ERROR_PAGE) := page.path];
      } else if page.exception.Some? {
        handler.errorPages := handler.errorPages[NameKey(page.exception.value) := page.path];
      } else {
        handler.errorPages := handler.errorPages[StatusKey(page.status.value) := page.path];
      }
      assert pages[..i + 1][..i] == pages[..i];
    }
    assert pages[..|pages|] == pages;
  }

  type ServerCustomizer = nat

  /**
   * The factory's state that the rules are about: its server customizers (a `LinkedHashSet`,
   * a sequence without repeats in insertion order) and its configurations (an `ArrayList`).
   */
  class JettyServletWebServerFactory {
    const port: int
    const shutdown: Shutdown
    var serverCustomizers: seq<ServerCustomizer>
    var configurations: seq<Configuration>

    predicate Valid()
      reads this
    {
      Distinct(serverCustomizers)
    }

    constructor (port: int, shutdown: Shutdown)
      ensures Valid() && this.port == port && this.shutdown == shutdown
      ensures serverCustomizers == [] && configurations == []
    {
      this.port := port;
      this.shutdown := shutdown;
      serverCustomizers := [];
      configurations := [];
    }

    /** `setServerCustomizers`: replaces the customizers, dropping repeats. */
    method SetServerCustomizers(customizers: seq<ServerCustomizer>)
      requires Valid()
      modifies this`serverCustomizers
      ensures Valid() && serverCustomizers == Dedup(customizers)
    {
      serverCustomizers := Dedup(customizers);
    }

    /** `addServerCustomizers`: appends the customizers not yet present. */
    method AddServerCustomizers(customizers: seq<ServerCustomizer>)
      requires Valid()
      modifies this`serverCustomizers
      ensures Valid() && serverCustomizers == AddAll(old(serverCustomizers), customizers)
    {
      serverCustomizers := AddAll(serverCustomizers, customizers);
    }

    /** `setConfigurations`: replaces the configurations. */
    method SetConfigurations(configurations: seq<Configuration>)
      modifies this`configurations
      ensures this.configurations == configurations
    {
      this.configurations := configurations;
    }

    /** `addConfigurations`: appends to the configurations. */
    method AddConfigurations(configurations: seq<Configuration>)
      modifies this`configurations
      ensures this.configurations == old(this.configurations) + configurations
    {
      this.configurations := this.configurations + configurations;
    }

    /** `getJettyWebServer`: a server that auto-starts exactly when the port is not negative. */
    method GetJettyWebServer(server: JettyServer, startFails: bool) returns (r: Result<JettyWebServer, WebServerError>)
      modifies server
      ensures r.Success? ==> fresh(r.value) && r.value.server == server && (r.value.autoStart <==> port >= 0)
      ensures r.Failure? ==> r.error == WebServerException(INITIALIZE_FAILED)
    {
      r := NewJettyWebServer(server, AutoStart(port), startFails);
    }
  }
}
