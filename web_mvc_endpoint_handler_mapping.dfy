/**
 * Actuator `AbstractWebMvcEndpointHandlerMapping`: registers a request mapping per web
 * operation, and adapts a servlet request into operation arguments and a response.
 */
module WebMvcEndpointHandlerMappings {
  import opened Wrappers
  import opened Strings

  /** A web operation: its id, the path of its request predicate, its match-all variable and HTTP method. */
  datatype WebOperation = WebOperation(id: string, path: string, matchAllRemaining: Option<string>, httpMethod: string)

  datatype WebEndpoint = WebEndpoint(id: string, operations: seq<WebOperation>)

  /** A registered request mapping: an operation's, or the links mapping at the root. */
  datatype Mapping = OperationMapping(operationId: string, pattern: string, httpMethod: string) | LinksMapping(pattern: string)

  /** The path rewrite of `registerMappingForOperation`: "{*v}" becomes "**" for the match-all variable v. */
  function RewritePath(path: string, matchAllRemaining: Option<string>): (r: string)
    ensures matchAllRemaining.None? ==> r == path
    ensures |r| <= |path|
  {
    match matchAllRemaining
    case None => path
    case Some(v) => ReplaceAll(path, "{*" + v + "}", "**")
  }

  /** Replacing a pattern that does not occur changes nothing. */
  lemma {:induction false} ReplaceAbsent(s: string, t: string, r: string)
    requires |t| > 0 && !Contains(s, t)
    ensures ReplaceAll(s, t, r) == s
    decreases |s|
  {
    if |s| >= |t| {
      assert !OccursAt(s, t, 0);
      assert !Contains(s[1..], t) by {
        forall i | 0 <= i <= |s[1..]| - |t| ensures !OccursAt(s[1..], t, i) {
          assert s[1..][i..i + |t|] == s[i + 1..i + 1 + |t|];
          assert !OccursAt(s, t, i + 1);
        }
      }
      ReplaceAbsent(s[1..], t, r);
    }
  }

  /** A prefix holding no character that starts the pattern is copied unchanged. */
  lemma {:induction false} ReplaceAfterPrefix(p: string, x: string, t: string, r: string)
    requires |t| > 0 && t[0] !in p
    ensures ReplaceAll(p + x, t, r) == p + ReplaceAll(x, t, r)
    decreases |p|
  {
    if p != [] {
      if |p + x| >= |t| {
        assert (p + x)[0] == p[0] != t[0];
        assert (p + x)[..|t|] != t;
        assert (p + x)[1..] == p[1..] + x;
        ReplaceAfterPrefix(p[1..], x, t, r);
      } else {
        assert ReplaceAll(x, t, r) == x;
      }
    } else {
      assert p + x == x;
    }
  }

  /** Without a match-all variable the path is unchanged. */
  lemma PathWithoutVariableUnchanged(path: string)
    ensures RewritePath(path, None) == path
  {
  }

  /** A path that never names the variable as "{*v}" is unchanged too. */
  lemma PathWithoutCaptureUnchanged(path: string, v: string)
    requires !Contains(path, "{*" + v + "}")
    ensures RewritePath(path, Some(v)) == path
  {
    ReplaceAbsent(path, "{*" + v + "}", "**");
  }

  // The usual endpoint path, a base followed by "/{*v}", is registered with "**" in place of the capture.
  lemma TrailingCaptureBecomesWildcard(base: string, v: string)
    requires '{' !in base
    ensures RewritePath(base + "/{*" + v + "}", Some(v)) == base + "/**"
  {
    var t := "{*" + v + "}";
    assert base + "/{*" + v + "}" == (base + "/") + t;
    ReplaceAfterPrefix(base + "/", t, t, "**");
    assert t[..|t|] == t;
    assert t[|t|..] == [];
  }

  /** The mapping `registerMappingForOperation` registers, under the endpoint mapping's sub-path. */
  function MappingFor(op: WebOperation, subPath: string -> string): Mapping
  {
    OperationMapping(op.id, subPath(RewritePath(op.path, op.matchAllRemaining)), op.httpMethod)
  }

  function MappingsOfOperations(ops: seq<WebOperation>, subPath: string -> string): (r: seq<Mapping>)
    ensures |r| == |ops|
  {
    seq(|ops|, i requires 0 <= i < |ops| => MappingFor(ops[i], subPath))
  }

  /** The operation mappings of all endpoints, endpoint by endpoint, operation by operation. */
  function OperationMappings(endpoints: seq<WebEndpoint>, subPath: string -> string): seq<Mapping>
  {
    if endpoints == [] then []
    else OperationMappings(endpoints[..|endpoints| - 1], subPath)
         + MappingsOfOperations(endpoints[|endpoints| - 1].operations, subPath)
  }

  function OperationCount(endpoints: seq<WebEndpoint>): nat
  {
    if endpoints == [] then 0 else OperationCount(endpoints[..|endpoints| - 1]) + |endpoints[|endpoints| - 1].operations|
  }

  /** One mapping per operation of every endpoint. */
  lemma {:induction false} OneMappingPerOperation(endpoints: seq<WebEndpoint>, subPath: string -> string)
    ensures |OperationMappings(endpoints, subPath)| == OperationCount(endpoints)
  {
    if endpoints != [] {
      OneMappingPerOperation(endpoints[..|endpoints| - 1], subPath);
    }
  }

  /** The mappings a handler mapping has registered, in order. */
  class EndpointHandlerMapping {
    const endpoints: seq<WebEndpoint>
    const shouldRegisterLinksMapping: bool
    /** `EndpointMapping.createSubPath`. */
    const subPath: string -> string
    var registered: seq<Mapping>

    constructor (endpoints: seq<WebEndpoint>, shouldRegisterLinksMapping: bool, subPath: string -> string)
      ensures this.endpoints == endpoints && this.shouldRegisterLinksMapping == shouldRegisterLinksMapping
      ensures this.subPath == subPath && registered == []
    {
      this.endpoints := endpoints;
      this.shouldRegisterLinksMapping := shouldRegisterLinksMapping;
      this.subPath := subPath;
      registered := [];
    }

    method RegisterMappingForOperation(op: WebOperation)
      modifies this
      ensures registered == old(registered) + [MappingFor(op, subPath)]
    {
      var path := op.path;
      if op.matchAllRemaining.Some? {
        path := ReplaceAll(path, "{*" + op.matchAllRemaining.value + "}", "**");
      }
      registered := registered + [OperationMapping(op.id, subPath(path), op.httpMethod)];
    }

    /** `initHandlerMethods`: every operation's mapping, then the links mapping if wanted. */
    method InitHandlerMethods()
      modifies this
      ensures registered == old(registered) + OperationMappings(endpoints, subPath)
                            + (if shouldRegisterLinksMapping then [LinksMapping(subPath(""))] else [])
    {
      for i := 0 to |endpoints|
        invariant registered == old(registered) + OperationMappings(endpoints[..i], subPath)
      {
        var operations := endpoints[i].operations;
        for j := 0 to |operations|
          invariant registered == old(registered) + OperationMappings(endpoints[..i], subPath)
                                  + MappingsOfOperations(operations[..j], subPath)
        {
          assert MappingsOfOperations(operations[..j + 1], subPath)
                 == MappingsOfOperations(operations[..j], subPath) + [MappingFor(operations[j], subPath)];
          RegisterMappingForOperation(operations[j]);
        }
        assert operations[..|operations|] == operations;
        assert endpoints[..i + 1][..i] == endpoints[..i];
      }
      assert endpoints[..|endpoints|] == endpoints;
      if shouldRegisterLinksMapping {
        registered := registered + [LinksMapping(subPath(""))];
      }
    }
  }

  /**
   * `StringUtils.tokenizeToStringArray(value, "/", false, true)`: the text between slashes,
   * empty tokens dropped; a null value has none.
   */
  function TokensOf(value: Option<string>): seq<string>
  {
    match value
    case None => []
    case Some(s) => TokensFrom(s, "")
  }

  /** Tokens of `s`, the current token having collected `current` so far. */
  function TokensFrom(s: string, current: string): seq<string>
    decreases |s|
  {
    if s == [] then (if current == [] then [] else [current])
    else if s[0] == '/' then (if current == [] then [] else [current]) + TokensFrom(s[1..], "")
    else TokensFrom(s[1..], current + [s[0]])
  }

  /** Every token is non-empty and holds no slash. */
  lemma {:induction false} TokensAreSegments(s: string, current: string)
    requires '/' !in current
    ensures forall t | t in TokensFrom(s, current) :: t != [] && '/' !in t
    decreases |s|
  {
    if s != [] {
      if s[0] == '/' {
        TokensAreSegments(s[1..], "");
      } else {
        TokensAreSegments(s[1..], current + [s[0]]);
      }
    }
  }

  lemma {:induction false} TokensOfSegment(t: string, current: string)
    requires '/' !in t && current + t != []
    ensures TokensFrom(t, current) == [current + t]
    decreases |t|
  {
    if t != [] {
      assert t[0] in t && forall c | c in t[1..] :: c in t;
      assert current + [t[0]] + t[1..] == current + t;
      assert t[0] != '/';
      assert TokensFrom(t, current) == TokensFrom(t[1..], current + [t[0]]);
      TokensOfSegment(t[1..], current + [t[0]]);
    } else {
      assert current + t == current;
    }
  }

  lemma {:induction false} TokensAppendSegment(x: string, t: string, current: string)
    requires '/' !in t && t != []
    ensures TokensFrom(x + "/" + t, current) == TokensFrom(x, current) + [t]
    decreases |x|
  {
    if x == [] {
      assert x + "/" + t == ['/'] + t;
      assert (['/'] + t)[0] == '/' && (['/'] + t)[1..] == t;
      TokensOfSegment(t, "");
      assert "" + t == t;
    } else {
      assert (x + "/" + t)[0] == x[0];
      assert (x + "/" + t)[1..] == x[1..] + "/" + t;
      if x[0] == '/' {
        TokensAppendSegment(x[1..], t, "");
      } else {
        TokensAppendSegment(x[1..], t, current + [x[0]]);
      }
    }
  }

  /** Tokenizing the segments joined with slashes gives back the segments. */
  lemma {:induction false} TokensOfJoin(segments: seq<string>)
    requires forall t | t in segments :: t != [] && '/' !in t
    ensures TokensOf(Some(Join(segments, "/"))) == segments
  {
    if |segments| == 1 {
      TokensOfSegment(segments[0], "");
      assert "" + segments[0] == segments[0];
    } else if |segments| > 1 {
      var init := segments[..|segments| - 1];
      assert forall t | t in init :: t in segments;
      TokensOfJoin(init);
      TokensAppendSegment(Join(init, "/"), segments[|segments| - 1], "");
      assert init + [segments[|segments| - 1]] == segments;
    }
  }

  /** The segments `tokenize` returns: URI-decoded only when asked and only when holding '%'. */
  function Decoded(tokens: seq<string>, decode: bool, uriDecode: string -> string): (r: seq<string>)
    ensures |r| == |tokens|
  {
    seq(|tokens|, i requires 0 <= i < |tokens| => if decode && '%' in tokens[i] then uriDecode(tokens[i]) else tokens[i])
  }

  /** `tokenize`: splits the attribute value, then decodes the segments in place. */
  method Tokenize(value: Option<string>, decode: bool, uriDecode: string -> string) returns (r: seq<string>)
    ensures |r| == |TokensOf(value)|
    ensures forall i | 0 <= i < |r| ::
              r[i] == if decode && '%' in TokensOf(value)[i] then uriDecode(TokensOf(value)[i]) else TokensOf(value)[i]
  {
    var tokens := TokensOf(value);
    var segments := new string[|tokens|](i requires 0 <= i < |tokens| => tokens[i]);
    if decode {
      for i := 0 to segments.Length
        invariant forall j | 0 <= j < i :: segments[j] == Decoded(tokens, true, uriDecode)[j]
        invariant forall j | i <= j < segments.Length :: segments[j] == tokens[j]
      {
        if '%' in segments[i] {
          segments[i] := uriDecode(segments[i]);
        }
      }
    }
    return segments[..];
  }

  /** Segments holding no '%' are never decoded. */
  lemma PlainSegmentsKept(tokens: seq<string>, uriDecode: string -> string, i: nat)
    requires i < |tokens| && '%' !in tokens[i]
    ensures Decoded(tokens, true, uriDecode)[i] == tokens[i]
    ensures Decoded(tokens, false, uriDecode) == tokens
  {
  }

  datatype HandlerError =
    | UnableToExtractRemainingSegments
    | IndexOutOfBounds
    | BadRequest(status: int, reason: string)

  /**
   * The remaining path segments `getRemainingPathSegments` answers: the path tokens from the
   * pattern's last token onwards, or the failure met on the way.
   */
  function RemainingSegmentsOf(pathTokens: seq<string>, patternTokens: seq<string>): Result<seq<string>, HandlerError>
  {
    if |pathTokens| - |patternTokens| + 1 < 0 then Failure(UnableToExtractRemainingSegments)
    else if |patternTokens| == 0 then Failure(IndexOutOfBounds)
    else Success(pathTokens[|patternTokens| - 1..])
  }

  /**
   * The copy in `getRemainingPathSegments`: pathTokens − patternTokens + 1 path tokens from
   * index patternTokens − 1. A negative count fails the state check; an empty pattern makes the
   * array copy start at −1, which throws.
   */
  method RemainingSegments(pathTokens: seq<string>, patternTokens: seq<string>) returns (r: Result<seq<string>, HandlerError>)
    ensures r.Success? <==> 1 <= |patternTokens| <= |pathTokens| + 1
    ensures r.Success? ==> r.value == pathTokens[|patternTokens| - 1..]
    ensures |pathTokens| + 1 < |patternTokens| ==> r == Failure(UnableToExtractRemainingSegments)
    ensures r.Failure? ==> r.error.UnableToExtractRemainingSegments? || r.error.IndexOutOfBounds?
    ensures r == RemainingSegmentsOf(pathTokens, patternTokens)
  {
    var count := |pathTokens| - |patternTokens| + 1;
    if count < 0 {
      return Failure(UnableToExtractRemainingSegments);
    }
    if |patternTokens| == 0 {
      return Failure(IndexOutOfBounds);
    }
    var from := |patternTokens| - 1;
    var remaining := new string[count];
    for i := 0 to count
      invariant forall j | 0 <= j < i :: remaining[j] == pathTokens[from + j]
    {
      remaining[i] := pathTokens[from + i];
    }
    return Success(remaining[..]);
  }

  /** An argument value: a single text, the remaining path segments, or a multi-valued parameter. */
  datatype Argument = Text(text: string) | Segments(segments: seq<string>) | Values(values: seq<string>)

  /** The request attributes and parameters the adapter reads. */
  datatype Request = Request(httpMethod: string, pathWithinMapping: Option<string>, bestMatchingPattern: Option<string>,
                             templateVariables: map<string, string>, parameters: seq<(string, seq<string>)>)

  /** A parameter with exactly one value passes that value; any other count passes the list. */
  function ParameterValue(values: seq<string>): (a: Argument)
    ensures a.Text? <==> |values| == 1
  {
    if |values| != 1 then Values(values) else Text(values[0])
  }

  /** The parameters as successive puts: a later entry with the same name wins. */
  function ParameterArguments(parameters: seq<(string, seq<string>)>): map<string, Argument>
  {
    if parameters == [] then map[]
    else
      var p := parameters[|parameters| - 1];
      ParameterArguments(parameters[..|parameters| - 1])[p.0 := ParameterValue(p.1)]
  }

  function TextArguments(values: map<string, string>): map<string, Argument>
  {
    map k | k in values :: Text(values[k])
  }

  /** The arguments of `getArguments`, each later source overriding earlier keys. */
  function ArgumentsOf(templateVariables: map<string, string>, remaining: Option<(string, seq<string>)>,
                       body: Option<map<string, string>>, parameters: seq<(string, seq<string>)>): map<string, Argument>
  {
    var template := TextArguments(templateVariables);
    var withRemaining := if remaining.Some? then template[remaining.value.0 := Segments(remaining.value.1)] else template;
    var withBody := if body.Some? then withRemaining + TextArguments(body.value) else withRemaining;
    withBody + ParameterArguments(parameters)
  }

  /** The last parameter entry with a given name decides its argument. */
  lemma {:induction false} LastParameterWins(parameters: seq<(string, seq<string>)>, name: string, i: nat)
    requires i < |parameters| && parameters[i].0 == name
    requires forall j | i < j < |parameters| :: parameters[j].0 != name
    ensures name in ParameterArguments(parameters) && ParameterArguments(parameters)[name] == ParameterValue(parameters[i].1)
  {
    if i < |parameters| - 1 {
      LastParameterWins(parameters[..|parameters| - 1], name, i);
    }
  }

  lemma {:induction false} ParameterNames(parameters: seq<(string, seq<string>)>, name: string)
    ensures name in ParameterArguments(parameters) <==> exists i | 0 <= i < |parameters| :: parameters[i].0 == name
  {
    if parameters != [] {
      var init := parameters[..|parameters| - 1];
      ParameterNames(init, name);
      if exists i | 0 <= i < |init| :: init[i].0 == name {
        var i :| 0 <= i < |init| && init[i].0 == name;
        assert parameters[i].0 == name;
      }
      if exists i | 0 <= i < |parameters| :: parameters[i].0 == name {
        var i :| 0 <= i < |parameters| && parameters[i].0 == name;
        if i < |init| {
          assert init[i].0 == name;
        }
      }
    }
  }

  /**
   * Argument precedence: request parameters override the body, which overrides the remaining
   * path segments, which override the template variables.
   */
  lemma ArgumentPrecedence(templateVariables: map<string, string>, remaining: Option<(string, seq<string>)>,
                           body: Option<map<string, string>>, parameters: seq<(string, seq<string>)>, k: string)
    ensures var args := ArgumentsOf(templateVariables, remaining, body, parameters);
            var params := ParameterArguments(parameters);
            if k in params then k in args && args[k] == params[k]
            else if body.Some? && k in body.value then k in args && args[k] == Text(body.value[k])
            else if remaining.Some? && remaining.value.0 == k then k in args && args[k] == Segments(remaining.value.1)
            else if k in templateVariables then k in args && args[k] == Text(templateVariables[k])
            else k !in args
  {
  }

  /**
   * The arguments `getArguments` builds for a request, or the failure of extracting the
   * remaining path segments when the operation has a match-all variable.
   */
  function ArgumentsFor(request: Request, operation: WebOperation, body: Option<map<string, string>>,
                        uriDecode: string -> string): Result<map<string, Argument>, HandlerError>
  {
    var postBody := if request.httpMethod == "POST" then body else None;
    match operation.matchAllRemaining
    case None => Success(ArgumentsOf(request.templateVariables, None, postBody, request.parameters))
    case Some(variable) =>
      var pathTokens := Decoded(TokensOf(request.pathWithinMapping), true, uriDecode);
      match RemainingSegmentsOf(pathTokens, TokensOf(request.bestMatchingPattern))
      case Failure(e) => Failure(e)
      case Success(segments) =>
        Success(ArgumentsOf(request.templateVariables, Some((variable, segments)), postBody, request.parameters))
  }

  /** `getArguments`: template variables, then the remaining segments, the POST body and the parameters. */
  method GetArguments(request: Request, operation: WebOperation, body: Option<map<string, string>>, uriDecode: string -> string)
    returns (r: Result<map<string, Argument>, HandlerError>)
    ensures operation.matchAllRemaining.None? ==> r.Success?
    ensures r.Failure? ==> r.error.UnableToExtractRemainingSegments? || r.error.IndexOutOfBounds?
    ensures r.Success? && operation.matchAllRemaining.None? ==>
              r.value == ArgumentsOf(request.templateVariables, None,
                                     if request.httpMethod == "POST" then body else None, request.parameters)
    ensures r.Success? && operation.matchAllRemaining.Some? ==>
              var patternTokens := TokensOf(request.bestMatchingPattern);
              var pathTokens := Decoded(TokensOf(request.pathWithinMapping), true, uriDecode);
              1 <= |patternTokens| <= |pathTokens| + 1
              && r.value == ArgumentsOf(request.templateVariables,
                                        Some((operation.matchAllRemaining.value, pathTokens[|patternTokens| - 1..])),
                                        if request.httpMethod == "POST" then body else None, request.parameters)
    ensures r == ArgumentsFor(request, operation, body, uriDecode)
  {
    var arguments := TextArguments(request.templateVariables);
    var remaining: Option<(string, seq<string>)> := None;
    if operation.matchAllRemaining.Some? {
      var pathTokens := Tokenize(request.pathWithinMapping, true, uriDecode);
      var patternTokens := Tokenize(request.bestMatchingPattern, false, uriDecode);
      assert pathTokens == Decoded(TokensOf(request.pathWithinMapping), true, uriDecode);
      assert patternTokens == TokensOf(request.bestMatchingPattern);
      var segments := RemainingSegments(pathTokens, patternTokens);
      if segments.Failure? {
        return Failure(segments.error);
      }
      remaining := Some((operation.matchAllRemaining.value, segments.value));
      arguments := arguments[operation.matchAllRemaining.value := Segments(segments.value)];
    }
    if body.Some? && request.httpMethod == "POST" {
      arguments := arguments + TextArguments(body.value);
    }
    arguments := PutParameters(arguments, request.parameters);
    return Success(arguments);
  }

  /** The `forEach` over the parameter map: each name put with its value or values. */
  method PutParameters(arguments: map<string, Argument>, parameters: seq<(string, seq<string>)>)
    returns (r: map<string, Argument>)
    ensures r == arguments + ParameterArguments(parameters)
  {
    r := arguments;
    for i := 0 to |parameters|
      invariant r == arguments + ParameterArguments(parameters[..i])
    {
      assert parameters[..i + 1][..i] == parameters[..i];
      r := r[parameters[i].0 := ParameterValue(parameters[i].1)];
    }
    assert parameters[..|parameters|] == parameters;
  }

  /** What an operation invocation returned: nothing, a `WebEndpointResponse`, or another object. */
  datatype InvocationResult = NoResult | WebEndpointResponse(status: int, body: Option<string>) | Plain(value: string)

  /** What the adapter hands to Spring MVC: a status-and-body entity, or the result as is. */
  datatype HandledResult = ResponseEntity(status: int, body: Option<string>) | PassThrough(value: string)

  const NOT_FOUND := 404
  const NO_CONTENT := 204
  const BAD_REQUEST := 400

  /** `handleResult`. */
  function HandleResult(result: InvocationResult, httpMethod: string): (h: HandledResult)
    ensures result.NoResult? ==> h == ResponseEntity(if httpMethod == "GET" then NOT_FOUND else NO_CONTENT, None)
    ensures result.WebEndpointResponse? ==> h == ResponseEntity(result.status, result.body)
    ensures result.Plain? ==> h == PassThrough(result.value)
  {
    match result
    case NoResult => ResponseEntity(if httpMethod != "GET" then NO_CONTENT else NOT_FOUND, None)
    case Plain(value) => PassThrough(value)
    case WebEndpointResponse(status, body) => ResponseEntity(status, body)
  }

  /** An empty entity answers exactly a missing result: 404 for GET, 204 otherwise. */
  lemma EmptyEntityOnlyForNoResult(result: InvocationResult, httpMethod: string)
    requires forall s :: result != WebEndpointResponse(s, None)
    ensures HandleResult(result, httpMethod).ResponseEntity? && HandleResult(result, httpMethod).body.None?
            <==> result.NoResult?
    ensures result.NoResult? ==> HandleResult(result, httpMethod).status in {NOT_FOUND, NO_CONTENT}
  {
  }

  /** The outcome of `operation.invoke`: a result, or an `InvalidEndpointRequestException`. */
  datatype InvokeOutcome = Returned(result: InvocationResult) | InvalidRequest(reason: string)

  /**
   * `ServletWebOperationAdapter.handle`: the arguments, then the invocation, whose invalid-request
   * failure becomes a 400 BAD_REQUEST.
   */
  method Handle(request: Request, operation: WebOperation, body: Option<map<string, string>>, uriDecode: string -> string,
                invoke: map<string, Argument> -> InvokeOutcome)
    returns (r: Result<HandledResult, HandlerError>)
    ensures r == match ArgumentsFor(request, operation, body, uriDecode)
                 case Failure(e) => Failure(e)
                 case Success(args) =>
                   (match invoke(args)
                    case Returned(result) => Success(HandleResult(result, request.httpMethod))
                    case InvalidRequest(reason) => Failure(BadRequest(BAD_REQUEST, reason)))
    ensures operation.matchAllRemaining.None? ==>
              var args := ArgumentsOf(request.templateVariables, None,
                                      if request.httpMethod == "POST" then body else None, request.parameters);
              r == (match invoke(args)
                    case Returned(result) => Success(HandleResult(result, request.httpMethod))
                    case InvalidRequest(reason) => Failure(BadRequest(BAD_REQUEST, reason)))
    ensures r.Failure? && r.error.BadRequest? ==> r.error.status == BAD_REQUEST
  {
    var arguments := GetArguments(request, operation, body, uriDecode);
    if arguments.Failure? {
      return Failure(arguments.error);
    }
    var outcome := invoke(arguments.value);
    match outcome {
      case Returned(result) =>
        return Success(HandleResult(result, request.httpMethod));
      case InvalidRequest(reason) =>
        return Failure(BadRequest(BAD_REQUEST, reason));
    }
  }
}
