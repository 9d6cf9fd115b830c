/**
 * What the embedded web servers share: the configured shutdown mode, the result a graceful
 * shutdown reports, the `GracefulShutdown` collaborator, and the errors a server raises.
 */
module WebServers {
  import opened Wrappers

  /** `Shutdown`: the shutdown a server is configured for. */
  datatype Shutdown = GRACEFUL | IMMEDIATE

  /** `GracefulShutdownResult`. */
  datatype GracefulShutdownResult = REQUESTS_ACTIVE | IDLE | IMMEDIATE

  /** A call a server makes on its `GracefulShutdown`. */
  datatype ShutdownRequest = GracefulRequest | AbortRequest

  /**
   * A server's `GracefulShutdown`. Its implementations are not part of this model, so it
   * only records the calls it receives, in order.
   */
  class GracefulShutdown {
    var requests: seq<ShutdownRequest>

    constructor ()
      ensures requests == []
    {
      requests := [];
    }

    method ShutDownGracefully()
      modifies this
      ensures requests == old(requests) + [GracefulRequest]
    {
      requests := requests + [GracefulRequest];
    }

    method Abort()
      modifies this
      ensures requests == old(requests) + [AbortRequest]
    {
      requests := requests + [AbortRequest];
    }
  }

  /**
   * The exceptions the servers raise: `PortInUseException`, `ConnectorStartFailedException`
   * and `WebServerException` with its message.
   */
  datatype WebServerError =
    | PortInUse(port: int)
    | ConnectorStartFailed(port: int)
    | WebServerException(message: string)

  /** How a connector fails to bind or start: a port binding failure or another I/O failure. */
  datatype StartFailure = PortBindingFailure | OtherFailure

  /** The port a factory configures: a negative port (do not start) is clamped to 0. */
  function ListenPort(port: int): (r: nat)
    ensures r == port <==> port >= 0
    ensures port < 0 ==> r == 0
  {
    if port < 0 then 0 else port
  }

  /** Whether a factory's server starts its connectors: only for a non-negative port. */
  predicate AutoStart(port: int)
  {
    port >= 0
  }
}
