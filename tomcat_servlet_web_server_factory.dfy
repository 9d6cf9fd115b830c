/**
 * `TomcatServletWebServerFactory`: the session timeout Tomcat is given, the resource jars
 * added to a context, the resource set that hides Spring Boot's own classes, and the
 * factory's collections of valves, listeners, customizers and connectors.
 */
module TomcatServletWebServerFactories {
  import opened Wrappers
  import opened Strings
  import opened Sequences
  import opened Durations
  import opened JavaInts
  import opened WebServers
  import TomcatWebServers

  const DEFAULT_PROTOCOL := "org.apache.coyote.http11.Http11NioProtocol"
  /** The prefix under which the loader-hiding resource set hides everything. */
  const HIDDEN_PREFIX := "/org/springframework/boot"
  const META_INF_RESOURCES := "/META-INF/resources"
  const NANOS_PER_MINUTE := 60 * NANOS_PER_SECOND

  /** `isZeroOrLess`: no timeout, or a negative or zero one. */
  predicate IsZeroOrLess(timeout: Option<Duration>)
    ensures timeout.None? ==> IsZeroOrLess(timeout)
    ensures timeout.Some? ==> (IsZeroOrLess(timeout) <==> timeout.value < 0 || timeout.value == 0)
  {
    timeout.None? || timeout.value <= 0
  }

  /**
   * `getSessionTimeoutInMinutes`: 0 for no, a zero or a negative timeout; otherwise the
   * whole minutes, but at least one.
   */
  function SessionTimeoutInMinutes(timeout: Option<Duration>): (r: int)
    ensures r >= 0
    ensures r == 0 <==> IsZeroOrLess(timeout)
    ensures !IsZeroOrLess(timeout) ==> r >= ToMinutes(timeout.value)
  {
    if IsZeroOrLess(timeout) then 0
    else if ToMinutes(timeout.value) > 1 then ToMinutes(timeout.value) else 1
  }

  /** A positive timeout shorter than a minute still gives a one-minute session. */
  lemma SubMinuteTimeoutIsOneMinute(timeout: Duration)
    requires 0 < timeout < NANOS_PER_MINUTE
    ensures SessionTimeoutInMinutes(Some(timeout)) == 1
  {
    assert GetSeconds(timeout) < 60;
  }

  /** A timeout of whole minutes, plus less than a minute, gives those minutes. */
  lemma WholeMinutesTimeout(minutes: int, rest: Duration)
    requires minutes >= 1 && 0 <= rest < NANOS_PER_MINUTE
    ensures SessionTimeoutInMinutes(Some(minutes * NANOS_PER_MINUTE + rest)) == minutes
  {
    var d := minutes * NANOS_PER_MINUTE + rest;
    var s := GetSeconds(d);
    assert minutes * 60 <= s < minutes * 60 + 60;
    assert ToMinutes(d) == s / 60;
  }

  /** The timeout `configureSession` gives the context: the minutes narrowed to a Java `int`. */
  function ContextSessionTimeout(timeout: Option<Duration>): (r: int)
    ensures INT_MIN <= r <= INT_MAX
    ensures SessionTimeoutInMinutes(timeout) <= INT_MAX ==> r == SessionTimeoutInMinutes(timeout)
  {
    IntCast(SessionTimeoutInMinutes(timeout))
  }

  /** A `URL` of a jar with `META-INF/resources`: its path and its full text. */
  datatype Url = Url(path: string, text: string)

  /** A URL of a jar (its path ends in ".jar" or ".jar!/") that is not yet a "jar:" URL. */
  predicate IsFileJar(url: Url)
  {
    (EndsWith(url.path, ".jar") || EndsWith(url.path, ".jar!/")) && !StartsWith(url.text, "jar:")
  }

  /**
   * The resource `addResourceJars` adds for a URL: a jar in the file system becomes a jar URL
   * of its root; a jar URL and anything that is not a jar is kept.
   */
  function ResourceJar(url: Url): (r: string)
    ensures IsFileJar(url) ==> r == "jar:" + url.text + "!/"
    ensures !IsFileJar(url) ==> r == url.text
  {
    if EndsWith(url.path, ".jar") || EndsWith(url.path, ".jar!/") then
      if !StartsWith(url.text, "jar:") then "jar:" + url.text + "!/" else url.text
    else url.text
  }

  /** `isInsideNestedJar`: the first "!/" comes before the last one. */
  predicate IsInsideNestedJar(dir: string)
    ensures IsInsideNestedJar(dir) ==> Contains(dir, "!/")
  {
    IndexOf(dir, "!/") < LastIndexOf(dir, "!/")
  }

  /** A resource is inside a nested jar exactly when "!/" occurs in it at two places. */
  lemma IsInsideNestedJarIff(dir: string)
    ensures IsInsideNestedJar(dir) <==> exists i, j :: 0 <= i < j && OccursAt(dir, "!/", i) && OccursAt(dir, "!/", j)
  {
    var first, last := IndexOf(dir, "!/"), LastIndexOf(dir, "!/");
    if IsInsideNestedJar(dir) {
      assert OccursAt(dir, "!/", last);
      assert first != -1;
      assert OccursAt(dir, "!/", first);
    }
    if exists i, j :: 0 <= i < j && OccursAt(dir, "!/", i) && OccursAt(dir, "!/", j) {
      var i, j :| 0 <= i < j && OccursAt(dir, "!/", i) && OccursAt(dir, "!/", j);
      assert first != -1 && first <= i;
      assert last != -1 && j <= last;
    }
  }

  /** The root `addResourceSet` creates the set from: a nested jar loses its last two characters. */
  function ResourceSetRoot(resource: string): (r: string)
    ensures IsInsideNestedJar(resource) ==> |resource| >= 2 && r == resource[..|resource| - 2]
    ensures !IsInsideNestedJar(resource) ==> r == resource
  {
    if IsInsideNestedJar(resource) then
      assert OccursAt(resource, "!/", LastIndexOf(resource, "!/"));
      resource[..|resource| - 2]
    else resource
  }

  /** A jar inside a jar is added by the URL of the inner jar, without its trailing "!/". */
  lemma NestedJarRoot(outer: string, inner: string)
    ensures ResourceSetRoot(outer + "!/" + inner + "!/") == outer + "!/" + inner
  {
    var resource := outer + "!/" + inner + "!/";
    assert OccursAt(resource, "!/", |outer|);
    assert OccursAt(resource, "!/", |outer| + 2 + |inner|);
    IsInsideNestedJarIff(resource);
    assert resource[..|resource| - 2] == outer + "!/" + inner;
  }

  /** A `RESOURCE_JAR` web resource set: where it is mounted, its base URL and its inner path. */
  datatype ResourceSet = ResourceSet(webAppMount: string, base: string, internalPath: string)

  /**
   * The resource sets `addResourceSet` creates: one for the root of the resource, unless the
   * URL is malformed or the set cannot be created (`accepts` says which roots work).
   */
  function ResourceSetFor(resource: string, accepts: string -> bool): seq<ResourceSet>
  {
    var root := ResourceSetRoot(resource);
    if accepts(root) then [ResourceSet("/", root, META_INF_RESOURCES)] else []
  }

  /** The resource sets created for `urls`, in order. */
  function ResourceSetsFor(urls: seq<Url>, accepts: string -> bool): (r: seq<ResourceSet>)
    ensures |r| <= |urls|
  {
    if urls == [] then []
    else ResourceSetsFor(urls[..|urls| - 1], accepts) + ResourceSetFor(ResourceJar(urls[|urls| - 1]), accepts)
  }

  /** One more URL adds its own resource sets after those of the URLs before it. */
  lemma ResourceSetsForStep(urls: seq<Url>, i: nat, accepts: string -> bool)
    requires i < |urls|
    ensures ResourceSetsFor(urls[..i + 1], accepts) == ResourceSetsFor(urls[..i], accepts) + ResourceSetFor(ResourceJar(urls[i]), accepts)
  {
    assert urls[..i + 1][..i] == urls[..i];
  }

  /** When every root can be used, each URL gives one set, in order, mounted at the root. */
  lemma {:induction false} ResourceSetsAllAccepted(urls: seq<Url>, accepts: string -> bool)
    requires forall k | 0 <= k < |urls| :: accepts(ResourceSetRoot(ResourceJar(urls[k])))
    ensures |ResourceSetsFor(urls, accepts)| == |urls|
    ensures forall k | 0 <= k < |urls| ::
              ResourceSetsFor(urls, accepts)[k] == ResourceSet("/", ResourceSetRoot(ResourceJar(urls[k])), META_INF_RESOURCES)
  {
    if urls != [] {
      var n := |urls| - 1;
      var prefix := urls[..n];
      forall k | 0 <= k < n ensures accepts(ResourceSetRoot(ResourceJar(prefix[k]))) {
        assert prefix[k] == urls[k];
      }
      ResourceSetsAllAccepted(prefix, accepts);
      AcceptedLast(urls, accepts);
    }
  }

  /** The set a URL's jar resource is added as, when its root can be used. */
  function MountedSet(url: Url): ResourceSet
  {
    ResourceSet("/", ResourceSetRoot(ResourceJar(url)), META_INF_RESOURCES)
  }

  /** The step of `ResourceSetsAllAccepted`: the sets of the URLs before the last one, then the last one's. */
  lemma AcceptedLast(urls: seq<Url>, accepts: string -> bool)
    requires urls != [] && accepts(ResourceSetRoot(ResourceJar(urls[|urls| - 1])))
    requires var prefix := urls[..|urls| - 1];
             |ResourceSetsFor(prefix, accepts)| == |prefix|
             && forall k | 0 <= k < |prefix| ::
                  ResourceSetsFor(prefix, accepts)[k] == ResourceSet("/", ResourceSetRoot(ResourceJar(prefix[k])), META_INF_RESOURCES)
    ensures |ResourceSetsFor(urls, accepts)| == |urls|
    ensures forall k | 0 <= k < |urls| ::
              ResourceSetsFor(urls, accepts)[k] == ResourceSet("/", ResourceSetRoot(ResourceJar(urls[k])), META_INF_RESOURCES)
  {
    var n := |urls| - 1;
    var head := ResourceSetsFor(urls[..n], accepts);
    var last := MountedSet(urls[n]);
    assert ResourceSetFor(ResourceJar(urls[n]), accepts) == [last];
    assert ResourceSetsFor(urls, accepts) == head + [last];
    SnocPointwise(urls, head, MountedSet);
  }

  /** Pointwise images of all elements but the last, then the last one's image, are the images of all. */
  lemma SnocPointwise(urls: seq<Url>, head: seq<ResourceSet>, f: Url -> ResourceSet)
    requires urls != [] && |head| == |urls| - 1
    requires forall k | 0 <= k < |head| :: head[k] == f(urls[..|urls| - 1][k])
    ensures forall k | 0 <= k < |urls| :: (head + [f(urls[|urls| - 1])])[k] == f(urls[k])
  {
    forall k | 0 <= k < |urls| ensures (head + [f(urls[|urls| - 1])])[k] == f(urls[k]) {
      if k < |head| {
        assert urls[..|urls| - 1][k] == urls[k];
      }
    }
  }

  /** A Tomcat context's web resources, as far as the resource jars are concerned. */
  class ContextResources {
    var resourceSets: seq<ResourceSet>

    constructor ()
      ensures resourceSets == []
    {
      resourceSets := [];
    }
  }

  /** `addResourceSet`. */
  method AddResourceSet(resources: ContextResources, resource: string, accepts: string -> bool)
    modifies resources
    ensures resources.resourceSets == old(resources.resourceSets) + ResourceSetFor(resource, accepts)
  {
    var root := resource;
    if IsInsideNestedJar(root) {
      root := root[..|root| - 2];
    }
    if accepts(root) {
      resources.resourceSets := resources.resourceSets + [ResourceSet("/", root, META_INF_RESOURCES)];
    }
  }

  /** `addResourceJars`: the resource set of each URL, in order. */
  method AddResourceJars(resources: ContextResources, urls: seq<Url>, accepts: string -> bool)
    modifies resources
    ensures resources.resourceSets == old(resources.resourceSets) + ResourceSetsFor(urls, accepts)
  {
    for i := 0 to |urls|
      invariant resources.resourceSets == old(resources.resourceSets) + ResourceSetsFor(urls[..i], accepts)
    {
      var url := urls[i];
      var jar: string;
      if EndsWith(url.path, ".jar") || EndsWith(url.path, ".jar!/") {
        jar := url.text;
        if !StartsWith(jar, "jar:") {
          jar := "jar:" + jar + "!/";
        }
      } else {
        jar := url.text;
      }
      assert jar == ResourceJar(url);
      AddResourceSet(resources, jar, accepts);
      ResourceSetsForStep(urls, i, accepts);
    }
    assert urls[..|urls|] == urls;
  }

  /** What the loader-hiding resource set answers for a path: an empty resource, or the delegate's. */
  datatype WebResource<R> = EmptyResource(path: string) | DelegateResource(resource: R)

  /** `LoaderHidingWebResourceSet.getResource`. */
  function GetResource<R>(path: string, delegate: string -> R): (r: WebResource<R>)
    ensures r.EmptyResource? <==> StartsWith(path, HIDDEN_PREFIX)
    ensures r.EmptyResource? ==> r.path == path
    ensures r.DelegateResource? ==> r.resource == delegate(path)
  {
    if StartsWith(path, HIDDEN_PREFIX) then EmptyResource(path) else DelegateResource(delegate(path))
  }

  /** `LoaderHidingWebResourceSet.listWebAppPaths`: the delegate's paths without the hidden ones. */
  function ListWebAppPaths(paths: set<string>): (r: set<string>)
    ensures r <= paths
    ensures forall p | p in paths :: p in r <==> !StartsWith(p, HIDDEN_PREFIX)
  {
    set p | p in paths && !StartsWith(p, HIDDEN_PREFIX)
  }

  /** The listing and the lookup agree: every path listed resolves through the delegate. */
  lemma ListedPathsResolve<R>(paths: set<string>, delegate: string -> R, path: string)
    requires path in ListWebAppPaths(paths)
    ensures GetResource(path, delegate) == DelegateResource(delegate(path))
  {
  }

  type Valve = nat
  type LifecycleListener = nat
  type Customizer = nat

  /** The `AprLifecycleListener` among the default context lifecycle listeners. */
  const APR_LIFECYCLE_LISTENER: LifecycleListener := 0

  /** `Assert`'s `IllegalArgumentException`, with its message. */
  datatype ArgumentError = IllegalArgument(message: string)

  /**
   * The factory's state that the rules are about. The `LinkedHashSet` fields are sequences
   * without repeats in insertion order; the `ArrayList` fields are plain sequences.
   */
  class TomcatServletWebServerFactory {
    const port: int
    const shutdown: Shutdown
    var tldSkipPatterns: seq<string>
    var protocol: string
    var engineValves: seq<Valve>
    var contextValves: seq<Valve>
    var contextLifecycleListeners: seq<LifecycleListener>
    var tomcatContextCustomizers: seq<Customizer>
    var tomcatConnectorCustomizers: seq<Customizer>
    var tomcatProtocolHandlerCustomizers: seq<Customizer>
    var additionalTomcatConnectors: seq<TomcatWebServers.Connector>

    /** The sets hold no repeats and the protocol is never empty. */
    predicate Valid()
      reads this
    {
      Distinct(tldSkipPatterns) && Distinct(tomcatContextCustomizers) && Distinct(tomcatConnectorCustomizers)
      && Distinct(tomcatProtocolHandlerCustomizers) && |protocol| > 0
    }

    /**
     * The field defaults: the default TLD skip patterns (`defaultSkipPatterns`), the default
     * protocol, and an APR lifecycle listener only when APR is available outside a native image.
     */
    constructor (port: int, shutdown: Shutdown, defaultSkipPatterns: seq<string>, aprAvailable: bool)
      ensures Valid()
      ensures this.port == port && this.shutdown == shutdown
      ensures tldSkipPatterns == Dedup(defaultSkipPatterns) && protocol == DEFAULT_PROTOCOL
      ensures contextLifecycleListeners == (if aprAvailable then [APR_LIFECYCLE_LISTENER] else [])
      ensures engineValves == [] && contextValves == [] && additionalTomcatConnectors == []
      ensures tomcatContextCustomizers == [] && tomcatConnectorCustomizers == [] && tomcatProtocolHandlerCustomizers == []
    {
      this.port := port;
      this.shutdown := shutdown;
      tldSkipPatterns := Dedup(defaultSkipPatterns);
      protocol := DEFAULT_PROTOCOL;
      engineValves := [];
      contextValves := [];
      contextLifecycleListeners := if aprAvailable then [APR_LIFECYCLE_LISTENER] else [];
      tomcatContextCustomizers := [];
      tomcatConnectorCustomizers := [];
      tomcatProtocolHandlerCustomizers := [];
      additionalTomcatConnectors := [];
    }

    /** `setTldSkipPatterns`: replaces the patterns, dropping repeats. */
    method SetTldSkipPatterns(patterns: seq<string>)
      requires Valid()
      modifies this`tldSkipPatterns
      ensures Valid() && tldSkipPatterns == Dedup(patterns)
    {
      tldSkipPatterns := Dedup(patterns);
    }

    /** `addTldSkipPatterns`: appends the patterns not yet present. */
    method AddTldSkipPatterns(patterns: seq<string>)
      requires Valid()
      modifies this`tldSkipPatterns
      ensures Valid() && tldSkipPatterns == AddAll(old(tldSkipPatterns), patterns)
    {
      tldSkipPatterns := AddAll(tldSkipPatterns, patterns);
    }

    /** `setProtocol`: an empty protocol is rejected and leaves the protocol as it was. */
    method SetProtocol(protocol: string) returns (r: Outcome<ArgumentError>)
      requires Valid()
      modifies this`protocol
      ensures Valid()
      ensures r.Pass? <==> |protocol| > 0
      ensures r.Pass? ==> this.protocol == protocol
      ensures r.Fail? ==> this.protocol == old(this.protocol) && r.error == IllegalArgument("Protocol must not be empty")
    {
      if |protocol| == 0 {
        return Fail(IllegalArgument("Protocol must not be empty"));
      }
      this.protocol := protocol;
      return Pass;
    }

    /** `setEngineValves`: replaces the engine valves. */
    method SetEngineValves(valves: seq<Valve>)
      modifies this`engineValves
      ensures engineValves == valves
    {
      engineValves := valves;
    }

    /** `addEngineValves`: appends to the engine valves. */
    method AddEngineValves(valves: seq<Valve>)
      modifies this`engineValves
      ensures engineValves == old(engineValves) + valves
    {
      engineValves := engineValves + valves;
    }

    /** `setContextValves`: replaces the context valves. */
    method SetContextValves(valves: seq<Valve>)
      modifies this`contextValves
      ensures contextValves == valves
    {
      contextValves := valves;
    }

    /** `addContextValves`: appends to the context valves. */
    method AddContextValves(valves: seq<Valve>)
      modifies this`contextValves
      ensures contextValves == old(contextValves) + valves
    {
      contextValves := contextValves + valves;
    }

    /** `setContextLifecycleListeners`: replaces the listeners, the default ones included. */
    method SetContextLifecycleListeners(listeners: seq<LifecycleListener>)
      modifies this`contextLifecycleListeners
      ensures contextLifecycleListeners == listeners
    {
      contextLifecycleListeners := listeners;
    }

    /** `addContextLifecycleListeners`: appends to the listeners. */
    method AddContextLifecycleListeners(listeners: seq<LifecycleListener>)
      modifies this`contextLifecycleListeners
      ensures contextLifecycleListeners == old(contextLifecycleListeners) + listeners
    {
      contextLifecycleListeners := contextLifecycleListeners + listeners;
    }

    /** `setTomcatContextCustomizers`: replaces the context customizers, dropping repeats. */
    method SetTomcatContextCustomizers(customizers: seq<Customizer>)
      requires Valid()
      modifies this`tomcatContextCustomizers
      ensures Valid() && tomcatContextCustomizers == Dedup(customizers)
    {
      tomcatContextCustomizers := Dedup(customizers);
    }

    /** `addContextCustomizers`: appends the context customizers not yet present. */
    method AddContextCustomizers(customizers: seq<Customizer>)
      requires Valid()
      modifies this`tomcatContextCustomizers
      ensures Valid() && tomcatContextCustomizers == AddAll(old(tomcatContextCustomizers), customizers)
    {
      tomcatContextCustomizers := AddAll(tomcatContextCustomizers, customizers);
    }

    /** `addConnectorCustomizers`: appends the connector customizers not yet present. */
    method AddConnectorCustomizers(customizers: seq<Customizer>)
      requires Valid()
      modifies this`tomcatConnectorCustomizers
      ensures Valid() && tomcatConnectorCustomizers == AddAll(old(tomcatConnectorCustomizers), customizers)
    {
      tomcatConnectorCustomizers := AddAll(tomcatConnectorCustomizers, customizers);
    }

    /** `setTomcatConnectorCustomizers`: replaces the connector customizers, dropping repeats. */
    method SetTomcatConnectorCustomizers(customizers: seq<Customizer>)
      requires Valid()
      modifies this`tomcatConnectorCustomizers
      ensures Valid() && tomcatConnectorCustomizers == Dedup(customizers)
    {
      tomcatConnectorCustomizers := Dedup(customizers);
    }

    /** `addProtocolHandlerCustomizers`: appends the protocol handler customizers not yet present. */
    method AddProtocolHandlerCustomizers(customizers: seq<Customizer>)
      requires Valid()
      modifies this`tomcatProtocolHandlerCustomizers
      ensures Valid() && tomcatProtocolHandlerCustomizers == AddAll(old(tomcatProtocolHandlerCustomizers), customizers)
    {
      tomcatProtocolHandlerCustomizers := AddAll(tomcatProtocolHandlerCustomizers, customizers);
    }

    /** `setTomcatProtocolHandlerCustomizers`: replaces them, dropping repeats. */
    method SetTomcatProtocolHandlerCustomizers(customizers: seq<Customizer>)
      requires Valid()
      modifies this`tomcatProtocolHandlerCustomizers
      ensures Valid() && tomcatProtocolHandlerCustomizers == Dedup(customizers)
    {
      tomcatProtocolHandlerCustomizers := Dedup(customizers);
    }

    /** `addAdditionalTomcatConnectors`: appends to the additional connectors. */
    method AddAdditionalTomcatConnectors(connectors: seq<TomcatWebServers.Connector>)
      modifies this`additionalTomcatConnectors
      ensures additionalTomcatConnectors == old(additionalTomcatConnectors) + connectors
    {
      additionalTomcatConnectors := additionalTomcatConnectors + connectors;
    }

    /**
     * `getTomcatWebServer`: a server over `tomcat` that auto-starts exactly when the
     * configured port is not negative, with the configured shutdown.
     */
    method GetTomcatWebServer(tomcat: TomcatWebServers.Tomcat, counter: TomcatWebServers.ContainerCounter, startupFails: bool)
        returns (r: Result<TomcatWebServers.TomcatWebServer, WebServerError>)
      requires tomcat.Valid()
      modifies tomcat, counter
      ensures r.Success? <==> tomcat.hasContext && !startupFails
      ensures r.Success? ==>
                fresh(r.value) && r.value.tomcat == tomcat
                && (r.value.autoStart <==> port >= 0) && (r.value.gracefulShutdown != null <==> shutdown == GRACEFUL)
    {
      r := TomcatWebServers.NewTomcatWebServer(tomcat, counter, AutoStart(port), shutdown, startupFails);
    }
  }

  /** Patterns added in two calls end up as if added in one: set semantics keep the first place. */
  lemma AddTldSkipPatternsTwice(patterns: seq<string>, first: seq<string>, second: seq<string>)
    ensures AddAll(AddAll(patterns, first), second) == AddAll(patterns, first + second)
  {
    AddAllAppend(patterns, first, second);
  }
}
