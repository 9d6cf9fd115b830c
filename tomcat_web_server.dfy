/**
 * `TomcatWebServer`: keeps a Tomcat instance's connectors aside until the server is started,
 * names the engine after the instance count, and reports ports and graceful shutdown.
 */
module TomcatWebServers {
  import opened Wrappers
  import opened Strings
  import opened Sequences
  import opened WebServers

  /** A Tomcat `Connector`, as far as the server reads it; `failed` is the FAILED lifecycle state. */
  datatype Connector = Connector(id: nat, port: int, localPort: int, scheme: string, failed: bool)

  /** The static `containerCounter`, shared by all servers; it starts at -1. */
  class ContainerCounter {
    var value: int

    constructor ()
      ensures value == -1
    {
      value := -1;
    }
  }

  /**
   * The part of a `Tomcat` instance the server drives: the engine's name, the server's
   * services (by id, first one being `getService()`) with their connectors, the connectors
   * whose protocol handler was stopped, and whether the instance runs or was destroyed.
   */
  class Tomcat {
    var engineName: string
    var services: seq<nat>
    var connectors: map<nat, seq<Connector>>
    var stoppedProtocolHandlers: seq<Connector>
    var running: bool
    var destroyed: bool
    /** Whether the host has a `Context` child. */
    const hasContext: bool

    constructor (engineName: string, services: seq<nat>, connectors: map<nat, seq<Connector>>, hasContext: bool)
      ensures this.engineName == engineName && this.services == services && this.connectors == connectors
      ensures this.hasContext == hasContext
      ensures stoppedProtocolHandlers == [] && !running && !destroyed
    {
      this.engineName := engineName;
      this.services := services;
      this.connectors := connectors;
      this.hasContext := hasContext;
      stoppedProtocolHandlers := [];
      running := false;
      destroyed := false;
    }

    /** A server holds distinct services, at least the default one, each with its connectors. */
    predicate Valid()
      reads this
    {
      |services| >= 1 && Distinct(services) && connectors.Keys == Elements(services)
    }

    /** `getService().findConnectors()`. */
    function ServiceConnectors(): seq<Connector>
      reads this
      requires Valid()
    {
      connectors[services[0]]
    }

    /** `getConnector()`: the default service's first connector, if any. */
    function DefaultConnector(): (r: Option<Connector>)
      reads this
      requires Valid()
      ensures r.Some? <==> |ServiceConnectors()| > 0
    {
      if |connectors[services[0]]| > 0 then Some(connectors[services[0]][0]) else None
    }
  }

  /** The engine name once the instance id is known: suffixed with "-" and the id when it is positive. */
  function EngineName(name: string, instanceId: int): (r: string)
    ensures instanceId <= 0 ==> r == name
    ensures instanceId > 0 ==> StartsWith(r, name + "-") && |r| > |name| + 1
  {
    if instanceId > 0 then name + "-" + IntToString(instanceId) else name
  }

  /** The first server keeps the engine's name; different later servers get different names. */
  lemma EngineNamesDistinct(name: string, i: int, j: int)
    ensures i <= 0 ==> EngineName(name, i) == name
    ensures i > 0 && j > 0 && i != j ==> EngineName(name, i) != EngineName(name, j)
  {
    if i > 0 && j > 0 && i != j && EngineName(name, i) == EngineName(name, j) {
      var p := name + "-";
      assert p + IntToString(i) == EngineName(name, i);
      assert p + IntToString(j) == EngineName(name, j);
      assert IntToString(i) == (p + IntToString(i))[|p|..];
      assert IntToString(j) == (p + IntToString(j))[|p|..];
      NatToStringInjective(i, j);
    }
  }

  /** Every service left without connectors: the effect of `removeServiceConnectors`. */
  function Removed(connectors: map<nat, seq<Connector>>): (r: map<nat, seq<Connector>>)
  {
    map s | s in connectors :: []
  }

  /** Every stashed service given back its stashed connectors: the effect of `addPreviouslyRemovedConnectors`. */
  function Restored(connectors: map<nat, seq<Connector>>, stash: map<nat, seq<Connector>>): (r: map<nat, seq<Connector>>)
  {
    map s | s in connectors :: if s in stash then connectors[s] + stash[s] else connectors[s]
  }

  /** Restoring the stash made by removing the connectors gives each service its connectors back. */
  lemma {:induction false} RestoreUndoesRemove(connectors: map<nat, seq<Connector>>, stash: map<nat, seq<Connector>>)
    ensures Restored(Removed(connectors), stash + connectors) == connectors
  {
    forall s | s in connectors
      ensures Restored(Removed(connectors), stash + connectors)[s] == connectors[s]
    {
      assert Removed(connectors)[s] == [];
      assert [] + connectors[s] == connectors[s];
    }
  }

  /** The connectors after `removeServiceConnectors` has visited `services`, in order. */
  function RemovedAlong(connectors: map<nat, seq<Connector>>, services: seq<nat>): map<nat, seq<Connector>>
  {
    if services == [] then connectors
    else RemovedAlong(connectors, services[..|services| - 1])[services[|services| - 1] := []]
  }

  /** The stash after `removeServiceConnectors` has visited `services`, in order. */
  function StashedAlong(stash: map<nat, seq<Connector>>, connectors: map<nat, seq<Connector>>, services: seq<nat>): map<nat, seq<Connector>>
    requires forall s | s in services :: s in connectors
  {
    if services == [] then stash
    else StashedAlong(stash, connectors, services[..|services| - 1])[services[|services| - 1] := connectors[services[|services| - 1]]]
  }

  lemma {:induction false} RemovedAlongAt(connectors: map<nat, seq<Connector>>, services: seq<nat>, x: nat)
    requires forall s | s in services :: s in connectors
    ensures RemovedAlong(connectors, services).Keys == connectors.Keys
    ensures x in connectors ==> RemovedAlong(connectors, services)[x] == if x in services then [] else connectors[x]
    decreases |services|
  {
    if services != [] {
      var init := services[..|services| - 1];
      assert forall s | s in init :: s in services;
      RemovedAlongAt(connectors, init, x);
      assert x in services <==> x in init || x == services[|services| - 1];
    }
  }

  lemma {:induction false} StashedAlongAt(stash: map<nat, seq<Connector>>, connectors: map<nat, seq<Connector>>, services: seq<nat>, x: nat)
    requires forall s | s in services :: s in connectors
    ensures StashedAlong(stash, connectors, services).Keys == stash.Keys + Elements(services)
    ensures x in services ==> StashedAlong(stash, connectors, services)[x] == connectors[x]
    ensures x !in services && x in stash ==> StashedAlong(stash, connectors, services)[x] == stash[x]
    decreases |services|
  {
    if services != [] {
      var init := services[..|services| - 1];
      assert forall s | s in init :: s in services;
      StashedAlongAt(stash, connectors, init, x);
      assert services == init + [services[|services| - 1]];
      ElementsAppend(init, services[|services| - 1]);
    }
  }

  /** Visiting every service of a valid Tomcat stashes all connectors and leaves none behind. */
  lemma RemoveAlongAll(stash: map<nat, seq<Connector>>, connectors: map<nat, seq<Connector>>, services: seq<nat>)
    requires connectors.Keys == Elements(services)
    ensures RemovedAlong(connectors, services) == Removed(connectors)
    ensures StashedAlong(stash, connectors, services) == stash + connectors
  {
    RemovedAlongAt(connectors, services, 0);
    StashedAlongAt(stash, connectors, services, 0);
    forall x | x in connectors
      ensures RemovedAlong(connectors, services)[x] == Removed(connectors)[x]
      ensures StashedAlong(stash, connectors, services)[x] == (stash + connectors)[x]
    {
      RemovedAlongAt(connectors, services, x);
      StashedAlongAt(stash, connectors, services, x);
    }
    forall x | x in stash && x !in connectors
      ensures StashedAlong(stash, connectors, services)[x] == (stash + connectors)[x]
    {
      StashedAlongAt(stash, connectors, services, x);
    }
    RemovedAlongAt(connectors, services, 0);
    StashedAlongAt(stash, connectors, services, 0);
  }

  /** The connectors after `addPreviouslyRemovedConnectors` has visited `services`, in order. */
  function RestoredAlong(connectors: map<nat, seq<Connector>>, stash: map<nat, seq<Connector>>, services: seq<nat>): map<nat, seq<Connector>>
  {
    if services == [] then connectors
    else
      var previous := RestoredAlong(connectors, stash, services[..|services| - 1]);
      var last := services[|services| - 1];
      if last in stash && last in previous then previous[last := previous[last] + stash[last]] else previous
  }

  lemma {:induction false} RestoredAlongAt(connectors: map<nat, seq<Connector>>, stash: map<nat, seq<Connector>>, services: seq<nat>, x: nat)
    requires Distinct(services)
    ensures RestoredAlong(connectors, stash, services).Keys == connectors.Keys
    ensures x in connectors ==>
              RestoredAlong(connectors, stash, services)[x] == if x in services && x in stash then connectors[x] + stash[x] else connectors[x]
    decreases |services|
  {
    if services != [] {
      var init := services[..|services| - 1];
      var last := services[|services| - 1];
      assert Distinct(init);
      assert last !in init by {
        forall k | 0 <= k < |init| ensures init[k] != last {
          assert init[k] == services[k];
        }
      }
      RestoredAlongAt(connectors, stash, init, x);
      assert x in services <==> x in init || x == last;
    }
  }

  /** Visiting every service of a valid Tomcat restores exactly the stashed connectors. */
  lemma RestoreAlongAll(connectors: map<nat, seq<Connector>>, stash: map<nat, seq<Connector>>, services: seq<nat>)
    requires Distinct(services) && connectors.Keys == Elements(services)
    ensures RestoredAlong(connectors, stash, services) == Restored(connectors, stash)
  {
    RestoredAlongAt(connectors, stash, services, 0);
    forall x | x in connectors
      ensures RestoredAlong(connectors, stash, services)[x] == Restored(connectors, stash)[x]
    {
      RestoredAlongAt(connectors, stash, services, x);
    }
    RestoredAlongAt(connectors, stash, services, 0);
  }

  /** The state of the loop of `addPreviouslyRemovedConnectors` after visiting the first `i` services. */
  ghost predicate RestoreLoopState(services: seq<nat>, original: map<nat, seq<Connector>>, stash: map<nat, seq<Connector>>,
                                   initialStopped: seq<Connector>, stopHandlers: bool, i: nat,
                                   current: map<nat, seq<Connector>>, left: map<nat, seq<Connector>>, stopped: seq<Connector>)
  {
    i <= |services|
    && current == RestoredAlong(original, stash, services[..i])
    && current.Keys == original.Keys
    && left == stash - Elements(services[..i])
    && stopped == initialStopped + (if stopHandlers then StashedInOrder(services[..i], stash) else [])
  }

  /** Visiting service `i`, its stashed connectors added when it has some, keeps the loop state. */
  lemma RestoreLoopStep(services: seq<nat>, original: map<nat, seq<Connector>>, stash: map<nat, seq<Connector>>,
                        initialStopped: seq<Connector>, stopHandlers: bool, i: nat,
                        current: map<nat, seq<Connector>>, left: map<nat, seq<Connector>>, stopped: seq<Connector>,
                        current': map<nat, seq<Connector>>, left': map<nat, seq<Connector>>, stopped': seq<Connector>)
    requires Distinct(services) && original.Keys == Elements(services) && i < |services|
    requires RestoreLoopState(services, original, stash, initialStopped, stopHandlers, i, current, left, stopped)
    requires services[i] in left ==> services[i] in current
                                     && current' == current[services[i] := current[services[i]] + left[services[i]]]
                                     && stopped' == stopped + (if stopHandlers then left[services[i]] else [])
                                     && left' == left - {services[i]}
    requires services[i] !in left ==> current' == current && stopped' == stopped && left' == left
    ensures RestoreLoopState(services, original, stash, initialStopped, stopHandlers, i + 1, current', left', stopped')
  {
    RestoreServicesStep(services, original, stash, i);
    var service := services[i];
    if service in left {
      assert left[service] == stash[service];
      if stopHandlers {
        assert stopped' == initialStopped + (StashedInOrder(services[..i], stash) + stash[service]);
      }
    }
  }

  /** The facts the loop of `addPreviouslyRemovedConnectors` needs to visit service `i`. */
  lemma RestoreServicesStep(services: seq<nat>, original: map<nat, seq<Connector>>, stash: map<nat, seq<Connector>>, i: nat)
    requires Distinct(services) && original.Keys == Elements(services) && i < |services|
    ensures services[i] in original
    ensures var previous := RestoredAlong(original, stash, services[..i]);
            var service := services[i];
            RestoredAlong(original, stash, services[..i + 1])
            == if service in stash && service in previous then previous[service := previous[service] + stash[service]] else previous
    ensures StashedInOrder(services[..i + 1], stash)
            == StashedInOrder(services[..i], stash) + (if services[i] in stash then stash[services[i]] else [])
    ensures services[i] in stash - Elements(services[..i]) <==> services[i] in stash
    ensures services[i] in stash ==> (stash - Elements(services[..i]))[services[i]] == stash[services[i]]
    ensures stash - Elements(services[..i + 1]) == (stash - Elements(services[..i])) - {services[i]}
    ensures services[i] !in stash ==> stash - Elements(services[..i + 1]) == stash - Elements(services[..i])
  {
    var service := services[i];
    var done := services[..i];
    assert services[..i + 1] == done + [service];
    assert service !in done by {
      forall k | 0 <= k < i ensures done[k] != service { }
    }
    assert service in services;
    RestoreStep(original, stash, done, service);
  }

  /** One more service visited by `addPreviouslyRemovedConnectors`: its stashed connectors, if any, are added. */
  lemma RestoreStep(original: map<nat, seq<Connector>>, stash: map<nat, seq<Connector>>, done: seq<nat>, service: nat)
    requires service !in done
    ensures var previous := RestoredAlong(original, stash, done);
            RestoredAlong(original, stash, done + [service])
            == if service in stash && service in previous then previous[service := previous[service] + stash[service]] else previous
    ensures StashedInOrder(done + [service], stash) == StashedInOrder(done, stash) + (if service in stash then stash[service] else [])
    ensures service in stash - Elements(done) <==> service in stash
    ensures stash - Elements(done + [service]) == (stash - Elements(done)) - {service}
  {
    assert (done + [service])[..|done|] == done;
    ElementsAppend(done, service);
  }

  /** The stashed connectors of `services`, in service order: the connectors whose protocol handler is stopped. */
  function StashedInOrder(services: seq<nat>, stash: map<nat, seq<Connector>>): seq<Connector>
  {
    if services == [] then []
    else
      var last := services[|services| - 1];
      StashedInOrder(services[..|services| - 1], stash) + (if last in stash then stash[last] else [])
  }

  /** One connector in the ports description: its (local) port and its scheme in parentheses. */
  function PortDescription(connector: Connector, localPort: bool): (r: string)
    ensures |r| >= 4 && EndsWith(r, ")")
  {
    IntToString(if localPort then connector.localPort else connector.port) + " (" + connector.scheme + ")"
  }

  function PortDescriptions(connectors: seq<Connector>, localPort: bool): (r: seq<string>)
    ensures |r| == |connectors|
  {
    seq(|connectors|, i requires 0 <= i < |connectors| => PortDescription(connectors[i], localPort))
  }

  /** The ports description is empty exactly when the default service has no connector. */
  lemma PortsDescriptionEmptyIff(connectors: seq<Connector>, localPort: bool)
    ensures Join(PortDescriptions(connectors, localPort), " ") == "" <==> connectors == []
  {
    JoinEmptyIff(PortDescriptions(connectors, localPort), " ");
  }

  class TomcatWebServer {
    const tomcat: Tomcat
    const counter: ContainerCounter
    const autoStart: bool
    const gracefulShutdown: GracefulShutdown?
    /** The connectors taken from each service until the server starts. */
    var serviceConnectors: map<nat, seq<Connector>>
    var started: bool

    /** The field set-up of the constructor; `NewTomcatWebServer` adds `initialize`. */
    constructor (tomcat: Tomcat, counter: ContainerCounter, autoStart: bool, shutdown: Shutdown)
      ensures this.tomcat == tomcat && this.counter == counter && this.autoStart == autoStart
      ensures (gracefulShutdown != null <==> shutdown == GRACEFUL) && (gracefulShutdown != null ==> fresh(gracefulShutdown))
      ensures serviceConnectors == map[] && !started
    {
      this.tomcat := tomcat;
      this.counter := counter;
      this.autoStart := autoStart;
      if shutdown == GRACEFUL {
        gracefulShutdown := new GracefulShutdown();
      } else {
        gracefulShutdown := null;
      }
      serviceConnectors := map[];
      started := false;
    }

    /** `addInstanceIdToEngineName`. */
    method AddInstanceIdToEngineName()
      modifies counter, tomcat`engineName
      ensures counter.value == old(counter.value) + 1
      ensures tomcat.engineName == EngineName(old(tomcat.engineName), counter.value)
    {
      counter.value := counter.value + 1;
      var instanceId := counter.value;
      if instanceId > 0 {
        tomcat.engineName := tomcat.engineName + "-" + IntToString(instanceId);
      }
    }

    /** `removeServiceConnectors`: stashes each service's connectors and takes them away. */
    method RemoveServiceConnectors()
      requires tomcat.Valid()
      modifies this`serviceConnectors, tomcat`connectors
      ensures tomcat.Valid()
      ensures serviceConnectors == old(serviceConnectors) + old(tomcat.connectors)
      ensures tomcat.connectors == Removed(old(tomcat.connectors))
    {
      var services := tomcat.services;
      var original := tomcat.connectors;
      var initialStash := serviceConnectors;
      var stash := initialStash;
      var remaining := original;
      for i := 0 to |services|
        invariant stash == StashedAlong(initialStash, original, services[..i])
        invariant remaining == RemovedAlong(original, services[..i])
      {
        var service := services[i];
        assert services[..i + 1][..i] == services[..i];
        var connectors := original[service];
        stash := stash[service := connectors];
        RemovedAlongAt(original, services[..i], service);
        remaining := remaining[service := []];
      }
      assert services[..|services|] == services;
      RemoveAlongAll(initialStash, original, services);
      serviceConnectors := stash;
      tomcat.connectors := remaining;
    }

    /**
     * `addPreviouslyRemovedConnectors`: gives each service its stashed connectors back, stops
     * their protocol handler when the server does not auto-start, and drops the stash entry.
     */
    method AddPreviouslyRemovedConnectors()
      requires tomcat.Valid()
      modifies this`serviceConnectors, tomcat`connectors, tomcat`stoppedProtocolHandlers
      ensures tomcat.Valid()
      ensures tomcat.connectors == Restored(old(tomcat.connectors), old(serviceConnectors))
      ensures serviceConnectors == old(serviceConnectors) - tomcat.connectors.Keys
      ensures tomcat.stoppedProtocolHandlers
              == old(tomcat.stoppedProtocolHandlers) + (if autoStart then [] else StashedInOrder(tomcat.services, old(serviceConnectors)))
    {
      var current, left, stopped :=
        RestoreServices(tomcat.services, tomcat.connectors, serviceConnectors, tomcat.stoppedProtocolHandlers, !autoStart);
      RestoreAlongAll(tomcat.connectors, serviceConnectors, tomcat.services);
      tomcat.connectors := current;
      tomcat.stoppedProtocolHandlers := stopped;
      serviceConnectors := left;
    }

    /** The loop over the services in `addPreviouslyRemovedConnectors`. */
    static method RestoreServices(services: seq<nat>, original: map<nat, seq<Connector>>, stash: map<nat, seq<Connector>>,
                                  initialStopped: seq<Connector>, stopHandlers: bool)
        returns (current: map<nat, seq<Connector>>, left: map<nat, seq<Connector>>, stopped: seq<Connector>)
      requires Distinct(services) && original.Keys == Elements(services)
      ensures current == RestoredAlong(original, stash, services)
      ensures left == stash - Elements(services)
      ensures stopped == initialStopped + (if stopHandlers then StashedInOrder(services, stash) else [])
    {
      current := original;
      left := stash;
      stopped := initialStopped;
      for i := 0 to |services|
        invariant RestoreLoopState(services, original, stash, initialStopped, stopHandlers, i, current, left, stopped)
      {
        var service := services[i];
        ghost var before, leftBefore, stoppedBefore := current, left, stopped;
        RestoreServicesStep(services, original, stash, i);
        if service in left {
          current, stopped := AddConnectors(current, service, left[service], stopped, stopHandlers);
          left := left - {service};
        }
        RestoreLoopStep(services, original, stash, initialStopped, stopHandlers, i,
                        before, leftBefore, stoppedBefore, current, left, stopped);
      }
      assert services[..|services|] == services;
    }

    /**
     * The inner loop of `addPreviouslyRemovedConnectors`: adds a service's stashed connectors
     * one by one, stopping each one's protocol handler when asked to.
     */
    static method AddConnectors(current: map<nat, seq<Connector>>, service: nat, connectors: seq<Connector>,
                                stopped: seq<Connector>, stopHandlers: bool)
        returns (added: map<nat, seq<Connector>>, stoppedAfter: seq<Connector>)
      requires service in current
      ensures added == current[service := current[service] + connectors]
      ensures stoppedAfter == stopped + (if stopHandlers then connectors else [])
    {
      added := current;
      stoppedAfter := stopped;
      for k := 0 to |connectors|
        invariant added.Keys == current.Keys && added[service] == current[service] + connectors[..k]
        invariant forall s | s in added && s != service :: added[s] == current[s]
        invariant stoppedAfter == stopped + (if stopHandlers then connectors[..k] else [])
      {
        assert connectors[..k + 1] == connectors[..k] + [connectors[k]];
        added := added[service := added[service] + [connectors[k]]];
        if stopHandlers {
          stoppedAfter := stoppedAfter + [connectors[k]];
        }
      }
      assert connectors[..|connectors|] == connectors;
    }

    /** `getPort`: the default connector's local port, or -1 without one. */
    function GetPort(): (r: int)
      reads this, tomcat
      requires tomcat.Valid()
      ensures tomcat.DefaultConnector().None? ==> r == -1
      ensures tomcat.DefaultConnector().Some? ==> r == tomcat.DefaultConnector().value.localPort
    {
      match tomcat.DefaultConnector()
      case Some(connector) => connector.localPort
      case None => -1
    }

    /** `getPortsDescription`: each connector of the default service, separated by single spaces. */
    method GetPortsDescription(localPort: bool) returns (ports: string)
      requires tomcat.Valid()
      ensures ports == Join(PortDescriptions(tomcat.ServiceConnectors(), localPort), " ")
    {
      ports := DescribePorts(tomcat.connectors[tomcat.services[0]], localPort);
    }

    /** The builder loop of `getPortsDescription`. */
    static method DescribePorts(connectors: seq<Connector>, localPort: bool) returns (ports: string)
      ensures ports == Join(PortDescriptions(connectors, localPort), " ")
    {
      ghost var entries := PortDescriptions(connectors, localPort);
      ports := "";
      for i := 0 to |connectors|
        invariant ports == Join(entries[..i], " ")
        invariant |ports| == 0 <==> i == 0
      {
        var entry := PortDescription(connectors[i], localPort);
        JoinStep(entries, i, ports, " ");
        if |ports| != 0 {
          ports := ports + " " + entry;
        } else {
          ports := entry;
        }
      }
      assert entries[..|connectors|] == entries;
    }

    /**
     * `start`: a no-op once started; otherwise restores the connectors, runs the deferred
     * load when the default connector exists and the server auto-starts, and becomes started
     * only when no connector is in the FAILED state. `deferredLoadFailure` is how the
     * deferred load on startup fails, if it does.
     */
    method Start(deferredLoadFailure: Option<StartFailure>) returns (r: Outcome<WebServerError>)
      requires tomcat.Valid()
      modifies this`started, this`serviceConnectors, tomcat`connectors, tomcat`stoppedProtocolHandlers, tomcat`running
      ensures tomcat.Valid()
      ensures old(started) ==> r.Pass? && started && unchanged(this) && unchanged(tomcat)
      ensures !old(started) ==> tomcat.connectors == Restored(old(tomcat.connectors), old(serviceConnectors))
      ensures started <==> old(started) || r.Pass?
      ensures !old(started) && r.Pass? ==>
                tomcat.DefaultConnector().Some? && !tomcat.DefaultConnector().value.failed
                && (forall c | c in tomcat.ServiceConnectors() :: !c.failed)
      ensures !old(started) ==> serviceConnectors == old(serviceConnectors) - tomcat.connectors.Keys
      ensures !old(started) ==>
                tomcat.stoppedProtocolHandlers
                == old(tomcat.stoppedProtocolHandlers)
                   + (if autoStart then [] else StashedInOrder(tomcat.services, old(serviceConnectors)))
      ensures !old(started) && tomcat.DefaultConnector().Some? && autoStart && deferredLoadFailure.Some? ==>
                r == Fail(if deferredLoadFailure.value == PortBindingFailure then PortInUse(tomcat.DefaultConnector().value.port)
                          else WebServerException("Unable to start embedded Tomcat server"))
      ensures !old(started) && tomcat.DefaultConnector().None? ==> r == Fail(WebServerException("Unable to start embedded Tomcat server"))
      ensures !old(started) && tomcat.DefaultConnector().Some? && !(autoStart && deferredLoadFailure.Some?) ==>
                (r.Pass? <==> forall c | c in tomcat.ServiceConnectors() :: !c.failed)
      ensures r.Fail? && r.error.ConnectorStartFailed? ==>
                !tomcat.running
                && exists k | 0 <= k < |tomcat.ServiceConnectors()| ::
                     tomcat.ServiceConnectors()[k].failed && r.error.port == tomcat.ServiceConnectors()[k].port
                     && forall j | 0 <= j < k :: !tomcat.ServiceConnectors()[j].failed
      ensures r.Fail? && !r.error.ConnectorStartFailed? ==> tomcat.running == old(tomcat.running)
    {
      if started {
        return Pass;
      }
      AddPreviouslyRemovedConnectors();
      var connector := tomcat.DefaultConnector();
      if connector.Some? && autoStart && deferredLoadFailure.Some? {
        return Fail(if deferredLoadFailure.value == PortBindingFailure then PortInUse(connector.value.port)
                    else WebServerException("Unable to start embedded Tomcat server"));
      }
      // checkThatConnectorsHaveStarted: a missing default connector fails on its state lookup.
      if connector.None? {
        return Fail(WebServerException("Unable to start embedded Tomcat server"));
      }
      var connectors := tomcat.connectors[tomcat.services[0]];
      if connector.value.failed {
        tomcat.running := false;
        assert connectors[0] == connector.value;
        return Fail(ConnectorStartFailed(connector.value.port));
      }
      for i := 0 to |connectors|
        invariant forall k | 0 <= k < i :: !connectors[k].failed
      {
        if connectors[i].failed {
          tomcat.running := false;
          return Fail(ConnectorStartFailed(connectors[i].port));
        }
      }
      started := true;
      return Pass;
    }

    /**
     * `stop`: clears `started`, aborts a graceful shutdown under way, stops and destroys
     * Tomcat, and gives back the instance id only when the server had been started.
     */
    method Stop()
      modifies this`started, counter, tomcat`running, tomcat`destroyed, gracefulShutdown
      ensures !started && !tomcat.running && tomcat.destroyed
      ensures counter.value == old(counter.value) - (if old(started) then 1 else 0)
      ensures gracefulShutdown != null ==> gracefulShutdown.requests == old(gracefulShutdown.requests) + [AbortRequest]
    {
      var wasStarted := started;
      started := false;
      if gracefulShutdown != null {
        gracefulShutdown.Abort();
      }
      tomcat.running := false;
      tomcat.destroyed := true;
      if wasStarted {
        counter.value := counter.value - 1;
      }
    }

    /**
     * `shutDownGracefully`: without a graceful shutdown the callback hears IMMEDIATE at once;
     * otherwise the request is handed to the graceful shutdown, which reports later.
     */
    method ShutDownGracefully() returns (reported: Option<GracefulShutdownResult>)
      modifies gracefulShutdown
      ensures gracefulShutdown == null <==> reported == Some(GracefulShutdownResult.IMMEDIATE)
      ensures gracefulShutdown != null ==> reported.None? && gracefulShutdown.requests == old(gracefulShutdown.requests) + [GracefulRequest]
    {
      if gracefulShutdown == null {
        return Some(GracefulShutdownResult.IMMEDIATE);
      }
      gracefulShutdown.ShutDownGracefully();
      return None;
    }
  }

  /**
   * The `TomcatWebServer` constructor with `initialize`: names the engine, looks up the
   * context, starts Tomcat (whose context start event stashes the connectors) and, when the
   * context is missing or a child failed to start (`startupFails`), stops and destroys it.
   */
  method NewTomcatWebServer(tomcat: Tomcat, counter: ContainerCounter, autoStart: bool, shutdown: Shutdown, startupFails: bool)
      returns (r: Result<TomcatWebServer, WebServerError>)
    requires tomcat.Valid()
    modifies tomcat, counter
    ensures tomcat.Valid()
    ensures counter.value == old(counter.value) + 1
    ensures tomcat.engineName == EngineName(old(tomcat.engineName), counter.value)
    ensures r.Success? <==> tomcat.hasContext && !startupFails
    ensures r.Success? ==>
              fresh(r.value) && r.value.tomcat == tomcat && r.value.counter == counter && !r.value.started
              && r.value.autoStart == autoStart && (r.value.gracefulShutdown != null <==> shutdown == GRACEFUL)
              && r.value.serviceConnectors == old(tomcat.connectors)
              && tomcat.connectors == Removed(old(tomcat.connectors)) && tomcat.running
    ensures r.Failure? ==> r.error == WebServerException("Unable to start embedded Tomcat") && !tomcat.running && tomcat.destroyed
  {
    var server := new TomcatWebServer(tomcat, counter, autoStart, shutdown);
    server.AddInstanceIdToEngineName();
    if !tomcat.hasContext {
      tomcat.running := false;
      tomcat.destroyed := true;
      return Failure(WebServerException("Unable to start embedded Tomcat"));
    }
    server.RemoveServiceConnectors();
    tomcat.running := true;
    if startupFails {
      tomcat.running := false;
      tomcat.destroyed := true;
      return Failure(WebServerException("Unable to start embedded Tomcat"));
    }
    return Success(server);
  }
}
