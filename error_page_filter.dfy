/**
 * `ErrorPageFilter`: a servlet filter that routes error statuses and uncaught exceptions
 * to registered error pages, for deployments without an embedded container's own routing.
 */
module ErrorPageFilters {
  import opened Wrappers

  /** A fully qualified class name. */
  type TypeName = string

  /**
   * A `Throwable`: its class followed by its superclasses below `Object` (so `isInstance`
   * of a class is membership), its message and its cause.
   */
  datatype Throwable = Throwable(chain: seq<TypeName>, message: Option<string>, cause: Option<Throwable>)

  /**
   * An `ErrorPage`, which is not part of this model beyond its three properties: a page
   * with neither a status nor an exception type is global.
   */
  datatype ErrorPage = ErrorPage(status: Option<int>, exception: Option<TypeName>, path: string)
  {
    predicate IsGlobal()
    {
      status.None? && exception.None?
    }
  }

  /** The filter's three routing tables. */
  datatype Tables = Tables(global: Option<string>, statuses: map<int, string>, exceptions: map<TypeName, string>)

  /** One step of `addErrorPages`: a page goes to exactly one table, replacing what its key held. */
  function AddPage(tables: Tables, page: ErrorPage): (r: Tables)
    ensures page.IsGlobal() ==> r == tables.(global := Some(page.path))
    ensures !page.IsGlobal() && page.status.Some?
            ==> r == tables.(statuses := tables.statuses[page.status.value := page.path])
    ensures !page.IsGlobal() && page.status.None?
            ==> r == tables.(exceptions := tables.exceptions[page.exception.value := page.path])
  {
    if page.IsGlobal() then tables.(global := Some(page.path))
    else if page.status.Some? then tables.(statuses := tables.statuses[page.status.value := page.path])
    else tables.(exceptions := tables.exceptions[page.exception.value := page.path])
  }

  /** `addErrorPages`: the pages registered in order. */
  function AddPages(tables: Tables, pages: seq<ErrorPage>): Tables
  {
    if pages == [] then tables else AddPage(AddPages(tables, pages[..|pages| - 1]), pages[|pages| - 1])
  }

  predicate IsStatusPage(page: ErrorPage, status: int)
  {
    !page.IsGlobal() && page.status == Some(status)
  }

  predicate IsExceptionPage(page: ErrorPage, exception: TypeName)
  {
    !page.IsGlobal() && page.status.None? && page.exception == Some(exception)
  }

  /** The status table holds a status iff it did already or some page registered it. */
  lemma {:induction false} StatusRegistered(tables: Tables, pages: seq<ErrorPage>, status: int)
    ensures status in AddPages(tables, pages).statuses
            <==> status in tables.statuses || exists i | 0 <= i < |pages| :: IsStatusPage(pages[i], status)
  {
    if pages != [] {
      var init := pages[..|pages| - 1];
      StatusRegistered(tables, init, status);
      if exists i | 0 <= i < |init| :: IsStatusPage(init[i], status) {
        var i :| 0 <= i < |init| && IsStatusPage(init[i], status);
        assert pages[i] == init[i];
      }
      if exists i | 0 <= i < |pages| :: IsStatusPage(pages[i], status) {
        var i :| 0 <= i < |pages| && IsStatusPage(pages[i], status);
        if i < |init| {
          assert init[i] == pages[i];
        }
      }
    }
  }

  /** The last page registered for a status wins. */
  lemma {:induction false} LastStatusPageWins(tables: Tables, pages: seq<ErrorPage>, status: int, k: nat)
    requires k < |pages| && IsStatusPage(pages[k], status)
    requires forall i | k < i < |pages| :: !IsStatusPage(pages[i], status)
    ensures status in AddPages(tables, pages).statuses
    ensures AddPages(tables, pages).statuses[status] == pages[k].path
  {
    if k < |pages| - 1 {
      var init := pages[..|pages| - 1];
      assert forall i | k < i < |init| :: init[i] == pages[i];
      LastStatusPageWins(tables, init, status, k);
    }
  }

  /** The last page registered for an exception type wins. */
  lemma {:induction false} LastExceptionPageWins(tables: Tables, pages: seq<ErrorPage>, exception: TypeName, k: nat)
    requires k < |pages| && IsExceptionPage(pages[k], exception)
    requires forall i | k < i < |pages| :: !IsExceptionPage(pages[i], exception)
    ensures exception in AddPages(tables, pages).exceptions
    ensures AddPages(tables, pages).exceptions[exception] == pages[k].path
  {
    if k < |pages| - 1 {
      var init := pages[..|pages| - 1];
      assert forall i | k < i < |init| :: init[i] == pages[i];
      LastExceptionPageWins(tables, init, exception, k);
    }
  }

  /** Pages of the other kinds never touch the global path. */
  lemma {:induction false} GlobalUntouched(tables: Tables, pages: seq<ErrorPage>)
    requires forall i | 0 <= i < |pages| :: !pages[i].IsGlobal()
    ensures AddPages(tables, pages).global == tables.global
  {
    if pages != [] {
      GlobalUntouched(tables, pages[..|pages| - 1]);
    }
  }

  /** The global path is the last global page's. */
  lemma {:induction false} LastGlobalPageWins(tables: Tables, pages: seq<ErrorPage>, k: nat)
    requires k < |pages| && pages[k].IsGlobal()
    requires forall i | k < i < |pages| :: !pages[i].IsGlobal()
    ensures AddPages(tables, pages).global == Some(pages[k].path)
  {
    if k < |pages| - 1 {
      var init := pages[..|pages| - 1];
      assert forall i | k < i < |init| :: init[i] == pages[i];
      LastGlobalPageWins(tables, init, k);
    }
  }

  /** `getErrorPath(map, status)`: the page for the status if registered, else the global one. */
  function StatusErrorPath(tables: Tables, status: int): (r: Option<string>)
    ensures status in tables.statuses ==> r == Some(tables.statuses[status])
    ensures status !in tables.statuses ==> r == tables.global
  {
    if status in tables.statuses then Some(tables.statuses[status]) else tables.global
  }

  /** The index of the first class of `chain` with a registered page, or `|chain|`. */
  function FirstRegistered(chain: seq<TypeName>, exceptions: map<TypeName, string>): (i: nat)
    ensures i <= |chain|
    ensures i < |chain| ==> chain[i] in exceptions
    ensures forall j | 0 <= j < i :: chain[j] !in exceptions
  {
    if chain == [] then 0
    else if chain[0] in exceptions then 0
    else 1 + FirstRegistered(chain[1..], exceptions)
  }

  /** `candidate.isInstance(t)` for some client-abort class. */
  predicate IsClientAbortType(t: Throwable, clientAbortTypes: set<TypeName>)
  {
    exists candidate | candidate in clientAbortTypes :: candidate in t.chain
  }

  /** `isClientAbortException`: false for null; true iff the throwable or a transitive cause is a client abort. */
  predicate IsClientAbortException(ex: Option<Throwable>, clientAbortTypes: set<TypeName>)
    ensures IsClientAbortException(ex, clientAbortTypes) ==> ex.Some?
    ensures ex.Some? && IsClientAbortType(ex.value, clientAbortTypes) ==> IsClientAbortException(ex, clientAbortTypes)
    decreases ex
  {
    match ex
    case None => false
    case Some(t) => IsClientAbortType(t, clientAbortTypes) || IsClientAbortException(t.cause, clientAbortTypes)
  }

  /** The throwable followed by its causes. */
  function CauseChain(ex: Throwable): (r: seq<Throwable>)
    ensures r != [] && r[0] == ex
    decreases ex
  {
    match ex.cause
    case None => [ex]
    case Some(cause) => [ex] + CauseChain(cause)
  }

  /** Some throwable of `throwables` has a client-abort type. */
  predicate AnyClientAbort(throwables: seq<Throwable>, clientAbortTypes: set<TypeName>)
  {
    exists i | 0 <= i < |throwables| :: IsClientAbortType(throwables[i], clientAbortTypes)
  }

  /** A client abort is detected exactly when some throwable along the cause chain has a client-abort type. */
  lemma {:induction false} ClientAbortAlongCauses(ex: Throwable, clientAbortTypes: set<TypeName>)
    ensures IsClientAbortException(Some(ex), clientAbortTypes) <==> AnyClientAbort(CauseChain(ex), clientAbortTypes)
    decreases ex
  {
    var chain := CauseChain(ex);
    if IsClientAbortType(ex, clientAbortTypes) {
      assert IsClientAbortType(chain[0], clientAbortTypes);
    }
    match ex.cause
    case None =>
      assert chain == [ex];
    case Some(cause) =>
      ClientAbortAlongCauses(cause, clientAbortTypes);
      var rest := CauseChain(cause);
      assert chain == [ex] + rest;
      if AnyClientAbort(chain, clientAbortTypes) {
        var i :| 0 <= i < |chain| && IsClientAbortType(chain[i], clientAbortTypes);
        if i > 0 {
          assert rest[i - 1] == chain[i];
        }
      }
      if AnyClientAbort(rest, clientAbortTypes) {
        var i :| 0 <= i < |rest| && IsClientAbortType(rest[i], clientAbortTypes);
        assert chain[i + 1] == rest[i];
      }
  }

  /** `getDescription`: the servlet path and path info (none counts as empty) in square brackets. */
  function GetDescription(servletPath: string, pathInfo: Option<string>): (r: string)
    ensures |r| >= 2 && r[0] == '[' && r[|r| - 1] == ']'
    ensures r[1..|r| - 1] == servletPath + (if pathInfo.Some? then pathInfo.value else "")
  {
    "[" + servletPath + (if pathInfo.Some? then pathInfo.value else "") + "]"
  }

  /** What the filter does with an error status or an exception. */
  datatype Action =
    | IgnoreClientAbort
    | LogCommitted(failure: Option<Throwable>)
    | SendError(status: int, message: Option<string>)
    | ForwardStatus(path: string, status: int, message: Option<string>)
    | Rethrow(ex: Throwable)
    | RethrowWrapped(ex: Throwable)
    | ForwardException(path: string, ex: Throwable)

  /** `handleCommittedResponse`: a client abort is ignored; anything else is logged. */
  function HandleCommittedResponse(ex: Option<Throwable>, clientAbortTypes: set<TypeName>): (r: Action)
    ensures r == IgnoreClientAbort <==> IsClientAbortException(ex, clientAbortTypes)
    ensures r != IgnoreClientAbort ==> r == LogCommitted(ex)
  {
    if IsClientAbortException(ex, clientAbortTypes) then IgnoreClientAbort else LogCommitted(ex)
  }

  /**
   * `handleErrorStatus`: a committed response cannot be forwarded; without a page the error
   * goes to the container; otherwise the status is set and the request forwarded to the page.
   */
  function HandleErrorStatus(tables: Tables, committed: bool, status: int, message: Option<string>): (r: Action)
    ensures committed ==> r == LogCommitted(None)
    ensures !committed && StatusErrorPath(tables, status).None? ==> r == SendError(status, message)
    ensures !committed && StatusErrorPath(tables, status).Some?
            ==> r == ForwardStatus(StatusErrorPath(tables, status).value, status, message)
  {
    if committed then HandleCommittedResponse(None, {})
    else match StatusErrorPath(tables, status)
      case None => SendError(status, message)
      case Some(path) => ForwardStatus(path, status, message)
  }

  /** The exception types `rethrow` throws as they are. */
  const UNCHECKED_OR_DECLARED: set<TypeName> :=
    {"java.lang.RuntimeException", "java.lang.Error", "java.io.IOException", "javax.servlet.ServletException"}

  /** `rethrow`: runtime exceptions, errors, I/O and servlet exceptions as they are; others wrapped. */
  function RethrowAction(ex: Throwable): (r: Action)
    ensures (exists t | t in UNCHECKED_OR_DECLARED :: t in ex.chain) <==> r == Rethrow(ex)
    ensures r == Rethrow(ex) || r == RethrowWrapped(ex)
  {
    if exists t | t in UNCHECKED_OR_DECLARED :: t in ex.chain then Rethrow(ex) else RethrowWrapped(ex)
  }

  /**
   * `handleException`, with `path` the page `getErrorPath(type)` found for the exception's
   * class: no page rethrows; a committed response cannot be forwarded; otherwise the
   * request is forwarded to the page with status 500.
   */
  function HandleException(path: Option<string>, committed: bool, ex: Throwable, clientAbortTypes: set<TypeName>): (r: Action)
    ensures path.None? ==> r == RethrowAction(ex)
    ensures path.Some? && committed ==> r == HandleCommittedResponse(Some(ex), clientAbortTypes)
    ensures path.Some? && !committed ==> r == ForwardException(path.value, ex)
    ensures r.Rethrow? || r.RethrowWrapped? || r.ForwardException? || r.LogCommitted?
            || (r == IgnoreClientAbort && IsClientAbortException(Some(ex), clientAbortTypes))
  {
    if path.None? then RethrowAction(ex)
    else if committed then HandleCommittedResponse(Some(ex), clientAbortTypes)
    else ForwardException(path.value, ex)
  }

  /** The filter's registration tables. */
  class ErrorPageFilter {
    var global: Option<string>
    var statuses: map<int, string>
    var exceptions: map<TypeName, string>

    constructor ()
      ensures global.None? && statuses == map[] && exceptions == map[]
    {
      global := None;
      statuses := map[];
      exceptions := map[];
    }

    function CurrentTables(): Tables
      reads this
    {
      Tables(global, statuses, exceptions)
    }

    /** `addErrorPages`: each page, in order, into its table. */
    method AddErrorPages(errorPages: seq<ErrorPage>)
      modifies this
      ensures CurrentTables() == AddPages(old(CurrentTables()), errorPages)
    {
      for i := 0 to |errorPages|
        invariant CurrentTables() == AddPages(old(CurrentTables()), errorPages[..i])
      {
        var errorPage := errorPages[i];
        assert errorPages[..i + 1][..i] == errorPages[..i];
        if errorPage.IsGlobal() {
          global := Some(errorPage.path);
        } else if errorPage.status.Some? {
          statuses := statuses[errorPage.status.value := errorPage.path];
        } else {
          exceptions := exceptions[errorPage.exception.value := errorPage.path];
        }
      }
      assert errorPages[..|errorPages|] == errorPages;
    }

    /**
     * `getErrorPath(type)`: walks from the class up its superclasses below `Object` and
     * answers the page of the nearest one registered, else the global page.
     */
    method ExceptionErrorPath(chain: seq<TypeName>) returns (r: Option<string>)
      ensures var i := FirstRegistered(chain, exceptions);
              r == if i < |chain| then Some(exceptions[chain[i]]) else global
    {
      var k := 0;
      while k < |chain|
        invariant k <= |chain| && k <= FirstRegistered(chain, exceptions)
        decreases |chain| - k
      {
        if chain[k] in exceptions {
          return Some(exceptions[chain[k]]);
        }
        k := k + 1;
      }
      return global;
    }

    /**
     * `handleException`: the page is the one `getErrorPath` finds for the exception's class,
     * then as `HandleException` says. An exception of a class with its own page is forwarded
     * there unless the response is committed; one whose classes have no page and with no
     * global page is rethrown.
     */
    method HandleExceptionOf(committed: bool, ex: Throwable, clientAbortTypes: set<TypeName>) returns (r: Action)
      ensures var i := FirstRegistered(ex.chain, exceptions);
              r == HandleException(if i < |ex.chain| then Some(exceptions[ex.chain[i]]) else global,
                                   committed, ex, clientAbortTypes)
      ensures ex.chain != [] && ex.chain[0] in exceptions && !committed ==> r == ForwardException(exceptions[ex.chain[0]], ex)
      ensures global.None? && (forall t | t in ex.chain :: t !in exceptions) ==> r == RethrowAction(ex)
    {
      var errorPath := ExceptionErrorPath(ex.chain);
      r := HandleException(errorPath, committed, ex, clientAbortTypes);
    }
  }

  /** The servlet response the filter wraps: its status, whether it is committed, and the errors sent to it. */
  class HttpResponse {
    var status: int
    var committed: bool
    var sentErrors: seq<(int, Option<string>)>

    constructor (status: int)
      ensures this.status == status && !committed && sentErrors == []
    {
      this.status := status;
      committed := false;
      sentErrors := [];
    }

    /** `sendError` commits the response. */
    method SendError(status: int, message: Option<string>)
      modifies this
      ensures sentErrors == old(sentErrors) + [(status, message)] && committed && this.status == status
    {
      sentErrors := sentErrors + [(status, message)];
      committed := true;
      this.status := status;
    }

    method FlushBuffer()
      modifies this
      ensures committed && status == old(status) && sentErrors == old(sentErrors)
    {
      committed := true;
    }
  }

  /**
   * `ErrorWrapperResponse`: records the error sent to it instead of passing it on, and sends it
   * to the real response only when the real response is flushed or written to.
   */
  class ErrorWrapperResponse {
    const response: HttpResponse
    var status: int
    var message: Option<string>
    var hasErrorToSend: bool

    constructor (response: HttpResponse)
      ensures this.response == response && !hasErrorToSend && message.None?
    {
      this.response := response;
      status := 0;
      message := None;
      hasErrorToSend := false;
    }

    /** `sendError(status, message)`: recorded, not delegated. */
    method SendError(status: int, message: Option<string>)
      modifies this
      ensures this.status == status && this.message == message && hasErrorToSend
      ensures unchanged(response)
      ensures GetStatus() == status
    {
      this.status := status;
      this.message := message;
      hasErrorToSend := true;
    }

    /** `sendError(status)`: recorded with no message. */
    method SendErrorStatus(status: int)
      modifies this
      ensures this.status == status && message.None? && hasErrorToSend
      ensures unchanged(response)
      ensures GetStatus() == status
    {
      SendError(status, None);
    }

    /** `getStatus`: the recorded status once an error is recorded; the real response's before. */
    function GetStatus(): (r: int)
      reads this, response
      ensures hasErrorToSend ==> r == status
      ensures !hasErrorToSend ==> r == response.status
    {
      if hasErrorToSend then status else response.status
    }

    /** `sendErrorIfNecessary`: the recorded error goes out only if the response is not yet committed. */
    method SendErrorIfNecessary()
      modifies response
      ensures hasErrorToSend && !old(response.committed)
              ==> response.sentErrors == old(response.sentErrors) + [(status, message)]
      ensures !(hasErrorToSend && !old(response.committed)) ==> unchanged(response)
      ensures hasErrorToSend ==> response.committed
    {
      if hasErrorToSend && !response.committed {
        response.SendError(status, message);
      }
    }

    /** `flushBuffer`: any pending error first, then the real flush. */
    method FlushBuffer()
      modifies response
      ensures hasErrorToSend && !old(response.committed)
              ==> response.sentErrors == old(response.sentErrors) + [(status, message)]
      ensures !(hasErrorToSend && !old(response.committed)) ==> response.sentErrors == old(response.sentErrors)
      ensures response.committed
    {
      SendErrorIfNecessary();
      response.FlushBuffer();
    }
  }
}
