/** Actuator `CachingOperationInvokerAdvisor`: wraps read operations in a caching invoker. */
module CachingOperationInvokerAdvisors {
  import opened Wrappers

  datatype OperationType = READ | WRITE | DELETE

  /** An operation parameter: whether it is mandatory, and whether its type is an `ApiVersion` or a `SecurityContext`. */
  datatype OperationParameter = OperationParameter(mandatory: bool, isApiVersion: bool, isSecurityContext: bool)

  /** An operation invoker: the endpoint's own, or one wrapped by `CachingOperationInvoker`. */
  datatype Invoker = Target(id: nat) | Caching(target: Invoker, timeToLive: int)

  /** A parameter that stops caching: mandatory, and supplied neither as the API version nor the security context. */
  predicate PreventsCaching(p: OperationParameter)
  {
    p.mandatory && !p.isApiVersion && !p.isSecurityContext
  }

  /** `hasMandatoryParameter`: searches the parameters in order for one that prevents caching. */
  function HasMandatoryParameter(parameters: seq<OperationParameter>): (b: bool)
    ensures b <==> exists i | 0 <= i < |parameters| :: PreventsCaching(parameters[i])
  {
    if parameters == [] then false
    else if PreventsCaching(parameters[0]) then true
    else
      var rest := HasMandatoryParameter(parameters[1..]);
      assert rest <==> exists i | 1 <= i < |parameters| :: PreventsCaching(parameters[i]) by {
        if rest {
          var i :| 0 <= i < |parameters[1..]| && PreventsCaching(parameters[1..][i]);
          assert PreventsCaching(parameters[i + 1]);
        }
        if exists i | 1 <= i < |parameters| :: PreventsCaching(parameters[i]) {
          var i :| 1 <= i < |parameters| && PreventsCaching(parameters[i]);
          assert PreventsCaching(parameters[1..][i - 1]);
        }
      }
      rest
  }

  /** `apply`, given the time to live configured for each endpoint id (null as `None`). */
  function Apply(endpointId: string, operationType: OperationType, parameters: seq<OperationParameter>,
                 invoker: Invoker, endpointIdTimeToLive: string -> Option<int>): (r: Invoker)
    ensures operationType != READ ==> r == invoker
    ensures HasMandatoryParameter(parameters) ==> r == invoker
  {
    if operationType == READ && !HasMandatoryParameter(parameters) then
      var timeToLive := endpointIdTimeToLive(endpointId);
      if timeToLive.Some? && timeToLive.value > 0 then Caching(invoker, timeToLive.value) else invoker
    else invoker
  }

  /**
   * The invoker is wrapped, with exactly the configured time to live, iff the operation reads,
   * no parameter prevents caching and the time to live is set and positive; otherwise the
   * original invoker comes back.
   */
  lemma CachingIff(endpointId: string, operationType: OperationType, parameters: seq<OperationParameter>,
                   invoker: Invoker, endpointIdTimeToLive: string -> Option<int>)
    ensures var r := Apply(endpointId, operationType, parameters, invoker, endpointIdTimeToLive);
            var ttl := endpointIdTimeToLive(endpointId);
            if operationType == READ && !HasMandatoryParameter(parameters) && ttl.Some? && ttl.value > 0
            then r == Caching(invoker, ttl.value)
            else r == invoker
  {
  }

  /** Mandatory `ApiVersion` and `SecurityContext` parameters, and optional ones, never prevent caching. */
  lemma SuppliedParametersAllowCaching(parameters: seq<OperationParameter>)
    requires forall i | 0 <= i < |parameters| :: !parameters[i].mandatory || parameters[i].isApiVersion || parameters[i].isSecurityContext
    ensures !HasMandatoryParameter(parameters)
  {
  }

  /** A single mandatory parameter of any other type disables caching, whatever the time to live. */
  lemma MandatoryParameterDisablesCaching(endpointId: string, parameters: seq<OperationParameter>, invoker: Invoker,
                                          endpointIdTimeToLive: string -> Option<int>, i: nat)
    requires i < |parameters| && PreventsCaching(parameters[i])
    ensures Apply(endpointId, READ, parameters, invoker, endpointIdTimeToLive) == invoker
  {
  }
}
