/**
 * Devtools `Restarter`: the single object that remembers what the next restart launches with
 * (URLs, changed class loader files), tracks the root application contexts, and relaunches
 * the application until it starts or its failure handler gives up.
 */
module Restarters {
  import opened Wrappers
  import opened Sequences
  import opened ClassLoaderFiles

  type Url = string

  /** An application context, by identity. */
  type Context = nat

  /** `FailureHandler.Outcome`. */
  datatype HandlerOutcome = ABORT | RETRY

  /** The error a failed relaunch reports. */
  datatype LaunchError = LaunchError(id: nat)

  /** `FailureHandler`: decides, for a failed launch, whether to try again. */
  type FailureHandler = LaunchError -> HandlerOutcome

  /** `FailureHandler.NONE`, which always aborts. */
  const NONE: FailureHandler := _ => ABORT

  /** One relaunch: the main class and copies of the URLs and override files at that moment. */
  datatype Launch = Launch(mainClassName: string, urls: seq<Url>, updatedFiles: Files)

  datatype RestarterError = NotInitialized | NoMainClass | NullContext

  /** An attempt ends the start loop when it succeeds or its failure is answered `ABORT`. */
  predicate EndsStart(handler: FailureHandler, result: Option<LaunchError>)
  {
    result.None? || handler(result.value) == ABORT
  }

  /**
   * The number of launch attempts `start` makes when the launches report `results` in turn:
   * up to and including the first that ends the loop.
   */
  function AttemptsMade(handler: FailureHandler, results: seq<Option<LaunchError>>): (n: nat)
    ensures n <= |results|
    ensures results != [] ==> n >= 1
    ensures forall i | 0 <= i < n - 1 :: !EndsStart(handler, results[i])
    ensures n == |results| || EndsStart(handler, results[n - 1])
    ensures forall k | 0 <= k < |results| && EndsStart(handler, results[k]) :: n <= k + 1
  {
    if results == [] then 0
    else if EndsStart(handler, results[0]) then 1
    else 1 + AttemptsMade(handler, results[1..])
  }

  /** With `FailureHandler.NONE` there is exactly one attempt. */
  lemma NoneAttemptsOnce(results: seq<Option<LaunchError>>)
    requires results != []
    ensures AttemptsMade(NONE, results) == 1
  {
  }

  /** A handler that always retries makes attempts until the first success. */
  lemma RetryUntilSuccess(handler: FailureHandler, results: seq<Option<LaunchError>>, k: nat)
    requires forall e :: handler(e) == RETRY
    requires k < |results| && results[k].None? && forall i | 0 <= i < k :: results[i].Some?
    ensures AttemptsMade(handler, results) == k + 1
  {
  }

  /** `count` copies of a launch. */
  function Repeat(launch: Launch, count: nat): (r: seq<Launch>)
    ensures |r| == count && forall i | 0 <= i < count :: r[i] == launch
  {
    if count == 0 then [] else Repeat(launch, count - 1) + [launch]
  }

  /** The contexts `stop` closes before it meets a null one: the index of the first null, if any. */
  function ClosablePrefix(contexts: seq<Option<Context>>): (n: nat)
    ensures n <= |contexts|
    ensures forall i | 0 <= i < n :: contexts[i].Some?
    ensures n < |contexts| <==> None in contexts
    ensures n < |contexts| ==> contexts[n].None?
  {
    if contexts == [] || contexts[0].None? then 0 else 1 + ClosablePrefix(contexts[1..])
  }

  function Unwrap(contexts: seq<Option<Context>>): (r: seq<Context>)
    requires forall i | 0 <= i < |contexts| :: contexts[i].Some?
    ensures |r| == |contexts| && forall i | 0 <= i < |r| :: Some(r[i]) == contexts[i]
  {
    if contexts == [] then [] else [contexts[0].value] + Unwrap(contexts[1..])
  }

  /** An `ObjectFactory`, with the number of times it has been asked for its product. */
  class ObjectFactory {
    const product: Option<nat>
    var calls: nat

    constructor (product: Option<nat>)
      ensures this.product == product && calls == 0
    {
      this.product := product;
      calls := 0;
    }

    method GetObject() returns (r: Option<nat>)
      modifies this
      ensures r == product && calls == old(calls) + 1
    {
      calls := calls + 1;
      r := product;
    }
  }

  class Restarter {
    const args: seq<string>
    const forceReferenceCleanup: bool
    const initialUrls: Option<seq<Url>>
    const mainClassName: Option<string>
    var urls: seq<Url>
    var classLoaderFiles: Files
    var attributes: map<string, Option<nat>>
    var rootContexts: seq<Option<Context>>
    var enabled: bool
    var finished: bool
    /** How often the deferred log has been replayed. */
    var logReplays: nat
    /** The contexts `stop` has closed, in order. */
    var closedContexts: seq<Context>
    /** Every relaunch so far, in order. */
    var launches: seq<Launch>

    ghost predicate Valid()
      reads this
    {
      Distinct(urls) && (finished <==> logReplays == 1) && logReplays <= 1
    }

    /**
     * The constructor: the initializer has supplied the initial URLs (null when there are
     * none) and the main class has been looked up on the thread (null when not found).
     */
    constructor (args: seq<string>, forceReferenceCleanup: bool, initialUrls: Option<seq<Url>>,
                 mainClassName: Option<string>)
      ensures Valid()
      ensures this.args == args && this.forceReferenceCleanup == forceReferenceCleanup
      ensures this.initialUrls == initialUrls && this.mainClassName == mainClassName
      ensures urls == [] && classLoaderFiles == map[] && attributes == map[] && rootContexts == []
      ensures enabled && !finished && logReplays == 0 && closedContexts == [] && launches == []
    {
      this.args := args;
      this.forceReferenceCleanup := forceReferenceCleanup;
      this.initialUrls := initialUrls;
      this.mainClassName := mainClassName;
      urls := [];
      classLoaderFiles := map[];
      attributes := map[];
      rootContexts := [];
      enabled := true;
      finished := false;
      logReplays := 0;
      closedContexts := [];
      launches := [];
    }

    /**
     * Instance `initialize`: the initial URLs, when there are any, join the URL set, and an
     * immediate restart then launches once with `FailureHandler.NONE`, reporting `result`.
     */
    method InitializeInstance(restartOnInitialize: bool, result: Option<LaunchError>)
      requires Valid()
      modifies this
      ensures Valid()
      ensures urls == if initialUrls.Some? then AddAll(old(urls), initialUrls.value) else old(urls)
      ensures initialUrls.Some? && restartOnInitialize && mainClassName.Some?
              ==> launches == old(launches) + [Launch(mainClassName.value, urls, classLoaderFiles)]
      ensures !(initialUrls.Some? && restartOnInitialize && mainClassName.Some?) ==> launches == old(launches)
      ensures classLoaderFiles == old(classLoaderFiles) && attributes == old(attributes)
      ensures rootContexts == old(rootContexts) && closedContexts == old(closedContexts)
      ensures enabled == old(enabled) && finished == old(finished) && logReplays == old(logReplays)
    {
      if initialUrls.Some? {
        urls := AddAll(urls, initialUrls.value);
        if restartOnInitialize {
          assert EndsStart(NONE, [result][0]);
          var _ := Start(NONE, [result]);
        }
      }
    }

    method SetEnabled(enabled: bool)
      requires Valid()
      modifies this
      ensures Valid()
      ensures this.enabled == enabled
      ensures urls == old(urls) && classLoaderFiles == old(classLoaderFiles) && attributes == old(attributes)
      ensures rootContexts == old(rootContexts) && closedContexts == old(closedContexts)
      ensures finished == old(finished) && logReplays == old(logReplays) && launches == old(launches)
    {
      this.enabled := enabled;
    }

    /** `addUrls`: the URL set ignores URLs it already holds and keeps insertion order. */
    method AddUrls(added: seq<Url>)
      requires Valid()
      modifies this
      ensures Valid()
      ensures urls == AddAll(old(urls), added)
      ensures classLoaderFiles == old(classLoaderFiles) && attributes == old(attributes)
      ensures rootContexts == old(rootContexts) && closedContexts == old(closedContexts)
      ensures enabled == old(enabled) && finished == old(finished) && logReplays == old(logReplays)
      ensures launches == old(launches)
    {
      urls := AddAll(urls, added);
    }

    /** `addClassLoaderFiles`: the override files accumulate, later ones replacing earlier ones. */
    method AddClassLoaderFiles(added: Files)
      requires Valid()
      modifies this
      ensures Valid()
      ensures classLoaderFiles == AddFiles(old(classLoaderFiles), added)
      ensures urls == old(urls) && attributes == old(attributes)
      ensures rootContexts == old(rootContexts) && closedContexts == old(closedContexts)
      ensures enabled == old(enabled) && finished == old(finished) && logReplays == old(logReplays)
      ensures launches == old(launches)
    {
      classLoaderFiles := AddFiles(classLoaderFiles, added);
    }

    /**
     * `restart`: nothing when restart is disabled; otherwise `stop`, then `start`.
     * `results` are what the successive launches report; one of them ends the loop.
     */
    method Restart(handler: FailureHandler, results: seq<Option<LaunchError>>) returns (r: Outcome<RestarterError>)
      requires Valid()
      requires exists k | 0 <= k < |results| :: EndsStart(handler, results[k])
      modifies this
      ensures Valid()
      ensures !old(enabled) ==> r == Pass && launches == old(launches) && rootContexts == old(rootContexts)
                                && closedContexts == old(closedContexts)
      ensures old(enabled) && None !in old(rootContexts) && mainClassName.Some?
              ==> r == Pass && rootContexts == [] && closedContexts == old(closedContexts) + Unwrap(old(rootContexts))
                  && launches == old(launches)
                                 + Repeat(Launch(mainClassName.value, urls, classLoaderFiles), AttemptsMade(handler, results))
      ensures old(enabled) && None in old(rootContexts) ==> r == Fail(NullContext) && launches == old(launches)
      ensures old(enabled) && mainClassName.None? ==> r.Fail? && launches == old(launches)
      ensures urls == old(urls) && classLoaderFiles == old(classLoaderFiles) && attributes == old(attributes)
      ensures enabled == old(enabled) && finished == old(finished) && logReplays == old(logReplays)
    {
      if !enabled {
        return Pass;
      }
      r := Stop();
      if r.Pass? {
        r := Start(handler, results);
      }
    }

    /**
     * `start`: relaunches while the launch fails and the handler answers `RETRY`. Each
     * launch needs a main class and uses the URLs and override files held at the time.
     */
    method Start(handler: FailureHandler, results: seq<Option<LaunchError>>) returns (r: Outcome<RestarterError>)
      requires Valid()
      requires exists k | 0 <= k < |results| :: EndsStart(handler, results[k])
      modifies this
      ensures Valid()
      ensures mainClassName.None? ==> r == Fail(NoMainClass) && launches == old(launches)
      ensures mainClassName.Some? ==> r == Pass
      ensures mainClassName.Some? ==>
                launches == old(launches) + Repeat(Launch(mainClassName.value, urls, classLoaderFiles), AttemptsMade(handler, results))
      ensures urls == old(urls) && classLoaderFiles == old(classLoaderFiles) && attributes == old(attributes)
      ensures rootContexts == old(rootContexts) && closedContexts == old(closedContexts)
      ensures enabled == old(enabled) && finished == old(finished) && logReplays == old(logReplays)
    {
      var attempt := 0;
      while true
        invariant 0 <= attempt < |results|
        invariant forall i | 0 <= i < attempt :: !EndsStart(handler, results[i])
        invariant mainClassName.Some? ==>
                    launches == old(launches) + Repeat(Launch(mainClassName.value, urls, classLoaderFiles), attempt)
        invariant mainClassName.None? ==> launches == old(launches)
        invariant Valid()
        invariant urls == old(urls) && classLoaderFiles == old(classLoaderFiles) && attributes == old(attributes)
        invariant rootContexts == old(rootContexts) && closedContexts == old(closedContexts)
        invariant enabled == old(enabled) && finished == old(finished) && logReplays == old(logReplays)
        decreases |results| - attempt
      {
        if mainClassName.None? {
          return Fail(NoMainClass);
        }
        var error := results[attempt];
        launches := launches + [Launch(mainClassName.value, urls, classLoaderFiles)];
        if error.None? || handler(error.value) == ABORT {
          return Pass;
        }
        attempt := attempt + 1;
      }
    }

    /**
     * The context loop of `stop`: over a copy of the tracked contexts, closes each and stops
     * tracking it. A null context fails when it is closed.
     */
    method Stop() returns (r: Outcome<RestarterError>)
      requires Valid()
      modifies this
      ensures Valid()
      ensures r.Pass? <==> None !in old(rootContexts)
      ensures r.Fail? ==> r.error == NullContext
      ensures var n := ClosablePrefix(old(rootContexts));
              rootContexts == old(rootContexts)[n..] && closedContexts == old(closedContexts) + Unwrap(old(rootContexts)[..n])
      ensures urls == old(urls) && classLoaderFiles == old(classLoaderFiles) && attributes == old(attributes)
      ensures enabled == old(enabled) && finished == old(finished) && logReplays == old(logReplays)
      ensures launches == old(launches)
    {
      var contexts := rootContexts;
      var n := ClosablePrefix(contexts);
      for i := 0 to |contexts|
        invariant i <= n
        invariant rootContexts == contexts[i..]
        invariant closedContexts == old(closedContexts) + Unwrap(contexts[..i])
        invariant Valid() && launches == old(launches)
        invariant urls == old(urls) && classLoaderFiles == old(classLoaderFiles) && attributes == old(attributes)
        invariant enabled == old(enabled) && finished == old(finished) && logReplays == old(logReplays)
      {
        match contexts[i]
        case None =>
          return Fail(NullContext);
        case Some(context) =>
          closedContexts := closedContexts + [context];
          assert contexts[..i + 1] == contexts[..i] + [contexts[i]];
          UnwrapAppend(contexts[..i], [contexts[i]]);
          rootContexts := RemoveFirst(rootContexts, contexts[i]);
      }
      return Pass;
    }

    /** `finish`: the first call replays the deferred log and marks the restarter finished. */
    method Finish()
      requires Valid()
      modifies this
      ensures Valid()
      ensures finished
      ensures logReplays == 1
      ensures urls == old(urls) && classLoaderFiles == old(classLoaderFiles) && attributes == old(attributes)
      ensures rootContexts == old(rootContexts) && closedContexts == old(closedContexts)
      ensures enabled == old(enabled) && launches == old(launches)
    {
      if !finished {
        logReplays := logReplays + 1;
        finished := true;
      }
    }

    /** `prepare`: a context with a parent is ignored; any other (null included) is tracked. */
    method Prepare(context: Option<Context>, hasParent: Context -> bool)
      requires Valid()
      modifies this
      ensures Valid()
      ensures rootContexts == if context.Some? && hasParent(context.value) then old(rootContexts)
                              else old(rootContexts) + [context]
      ensures urls == old(urls) && classLoaderFiles == old(classLoaderFiles) && attributes == old(attributes)
      ensures closedContexts == old(closedContexts) && launches == old(launches)
      ensures enabled == old(enabled) && finished == old(finished) && logReplays == old(logReplays)
    {
      if context.Some? && hasParent(context.value) {
        return;
      }
      rootContexts := rootContexts + [context];
    }

    /** `remove`: stops tracking one occurrence of a non-null context. */
    method Remove(context: Option<Context>)
      requires Valid()
      modifies this
      ensures Valid()
      ensures rootContexts == if context.Some? then RemoveFirst(old(rootContexts), context) else old(rootContexts)
      ensures urls == old(urls) && classLoaderFiles == old(classLoaderFiles) && attributes == old(attributes)
      ensures closedContexts == old(closedContexts) && launches == old(launches)
      ensures enabled == old(enabled) && finished == old(finished) && logReplays == old(logReplays)
    {
      if context.Some? {
        rootContexts := RemoveFirst(rootContexts, context);
      }
    }

    /** `getOrAddAttribute`: asks the factory only when the name is absent, then answers the stored value. */
    method GetOrAddAttribute(name: string, factory: ObjectFactory) returns (r: Option<nat>)
      requires Valid()
      modifies this, factory
      ensures Valid()
      ensures name in old(attributes) ==> r == old(attributes)[name] && attributes == old(attributes)
                                          && factory.calls == old(factory.calls)
      ensures name !in old(attributes) ==> r == factory.product && attributes == old(attributes)[name := r]
                                           && factory.calls == old(factory.calls) + 1
      ensures urls == old(urls) && classLoaderFiles == old(classLoaderFiles) && rootContexts == old(rootContexts)
      ensures closedContexts == old(closedContexts) && launches == old(launches)
      ensures enabled == old(enabled) && finished == old(finished) && logReplays == old(logReplays)
    {
      if name !in attributes {
        var product := factory.GetObject();
        attributes := attributes[name := product];
      }
      r := attributes[name];
    }

    /** `removeAttribute`: answers the stored value (null when absent) and deletes the entry. */
    method RemoveAttribute(name: string) returns (r: Option<nat>)
      requires Valid()
      modifies this
      ensures Valid()
      ensures r == if name in old(attributes) then old(attributes)[name] else None
      ensures attributes == old(attributes) - {name}
      ensures urls == old(urls) && classLoaderFiles == old(classLoaderFiles) && rootContexts == old(rootContexts)
      ensures closedContexts == old(closedContexts) && launches == old(launches)
      ensures enabled == old(enabled) && finished == old(finished) && logReplays == old(logReplays)
    {
      r := if name in attributes then attributes[name] else None;
      attributes := attributes - {name};
    }
  }

  lemma UnwrapAppend(s: seq<Option<Context>>, t: seq<Option<Context>>)
    requires forall i | 0 <= i < |s| :: s[i].Some?
    requires forall i | 0 <= i < |t| :: t[i].Some?
    ensures Unwrap(s + t) == Unwrap(s) + Unwrap(t)
  {
  }

  /** Stored attributes are stable: asking again returns the first answer without calling the factory. */
  lemma AttributeCacheStable(attributes: map<string, Option<nat>>, name: string, product: Option<nat>)
    ensures var stored := if name in attributes then attributes else attributes[name := product];
            name in stored && stored[name] == (if name in attributes then attributes[name] else product)
  {
  }

  /** Restarter's static `instance`: at most one restarter, created by the first `initialize`. */
  class RestarterHolder {
    var instance: Restarter?

    constructor ()
      ensures instance == null
    {
      instance := null;
    }

    /** `getInstance`: fails before any `initialize`. */
    function GetInstance(): (r: Result<Restarter, RestarterError>)
      reads this
      ensures r.Failure? <==> instance == null
      ensures r.Success? ==> r.value == instance
    {
      if instance == null then Failure(NotInitialized) else Success(instance)
    }

    /**
     * Static `initialize`: creates the restarter only when there is none, and only the
     * creating call runs instance initialisation.
     */
    method Initialize(args: seq<string>, forceReferenceCleanup: bool, initialUrls: Option<seq<Url>>,
                      mainClassName: Option<string>, restartOnInitialize: bool, result: Option<LaunchError>)
      returns (created: bool)
      requires instance != null ==> instance.Valid()
      modifies this
      ensures instance != null && instance.Valid()
      ensures created <==> old(instance) == null
      ensures !created ==> instance == old(instance)
      ensures created ==> fresh(instance) && instance.args == args && instance.initialUrls == initialUrls
                          && instance.mainClassName == mainClassName && instance.enabled
                          && instance.urls == (if initialUrls.Some? then Dedup(initialUrls.value) else [])
                          && instance.launches == (if initialUrls.Some? && restartOnInitialize && mainClassName.Some?
                                                   then [Launch(mainClassName.value, instance.urls, map[])] else [])
    {
      created := instance == null;
      if created {
        var localInstance := new Restarter(args, forceReferenceCleanup, initialUrls, mainClassName);
        instance := localInstance;
        localInstance.InitializeInstance(restartOnInitialize, result);
      }
    }

    /** `disable`: initialises without initial URLs if need be, then turns restarting off. */
    method Disable(mainClassName: Option<string>)
      requires instance != null ==> instance.Valid()
      modifies this, instance
      ensures instance != null && instance.Valid() && !instance.enabled
      ensures old(instance) != null ==> instance == old(instance)
                                        && instance.urls == old(instance.urls) && instance.launches == old(instance.launches)
      ensures old(instance) == null ==> fresh(instance) && instance.urls == [] && instance.launches == []
    {
      var _ := Initialize([], false, None, mainClassName, false, None);
      instance.SetEnabled(false);
    }
  }
}
