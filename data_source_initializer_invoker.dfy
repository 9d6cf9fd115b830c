/**
 * `DataSourceInitializerInvoker`: creates the schema when the bean is initialised and runs
 * the data scripts at most once, when the schema-created event is published or received.
 */
module DataSourceInitializerInvokers {
  import opened Wrappers

  /** A `DataSourceInitializer` for a data source. `DataSourceInitializer` is not part of this model. */
  datatype DataSourceInitializer = DataSourceInitializer(dataSource: nat)

  /**
   * The invoker's state, with counters for what its initializer has been asked to do:
   * `createSchema` calls, `initSchema` calls and published events.
   */
  class DataSourceInitializerInvoker {
    /** `dataSource.getIfUnique()`: the unique data source, if there is one. */
    const uniqueDataSource: Option<nat>
    var dataSourceInitializer: Option<DataSourceInitializer>
    var initialized: bool
    var initializersCreated: nat
    var schemaCreations: nat
    var schemaInitializations: nat
    var eventsPublished: nat

    /**
     * The scripts have run once iff `initialized`, and never more; an initializer exists only
     * for a unique data source, and at most one is ever created.
     */
    ghost predicate Valid()
      reads this
    {
      schemaInitializations == (if initialized then 1 else 0)
      && initializersCreated == (if dataSourceInitializer.Some? then 1 else 0)
      && (dataSourceInitializer.Some? ==> uniqueDataSource.Some? && dataSourceInitializer.value.dataSource == uniqueDataSource.value)
      && (initialized ==> dataSourceInitializer.Some?)
    }

    constructor (uniqueDataSource: Option<nat>)
      ensures Valid() && this.uniqueDataSource == uniqueDataSource
      ensures dataSourceInitializer.None? && !initialized && schemaCreations == 0 && eventsPublished == 0
    {
      this.uniqueDataSource := uniqueDataSource;
      dataSourceInitializer := None;
      initialized := false;
      initializersCreated := 0;
      schemaCreations := 0;
      schemaInitializations := 0;
      eventsPublished := 0;
    }

    /** `getDataSourceInitializer`: created on first use when the data source is unique, then reused. */
    method GetDataSourceInitializer() returns (r: Option<DataSourceInitializer>)
      requires Valid()
      modifies this
      ensures Valid() && r == dataSourceInitializer
      ensures old(dataSourceInitializer).Some? ==> dataSourceInitializer == old(dataSourceInitializer)
      ensures old(dataSourceInitializer).None? ==>
                dataSourceInitializer == (if uniqueDataSource.Some? then Some(DataSourceInitializer(uniqueDataSource.value)) else None)
      ensures initialized == old(initialized) && schemaCreations == old(schemaCreations)
      ensures schemaInitializations == old(schemaInitializations) && eventsPublished == old(eventsPublished)
    {
      if dataSourceInitializer.None? {
        if uniqueDataSource.Some? {
          dataSourceInitializer := Some(DataSourceInitializer(uniqueDataSource.value));
          initializersCreated := initializersCreated + 1;
        }
      }
      return dataSourceInitializer;
    }

    /**
     * `afterPropertiesSet`: creates the schema and, if that created it, publishes the event
     * and runs the data scripts. `schemaCreated` is what `createSchema` answers; `publishFails`
     * stands for `publishEvent` throwing IllegalStateException; `listenerRegistered` for this
     * bean receiving its own event during publishing.
     */
    method AfterPropertiesSet(schemaCreated: bool, publishFails: bool, listenerRegistered: bool)
      requires Valid()
      modifies this
      ensures Valid()
      ensures uniqueDataSource.None? ==> schemaCreations == old(schemaCreations) && eventsPublished == old(eventsPublished)
                                         && initialized == old(initialized)
      ensures uniqueDataSource.Some? ==> schemaCreations == old(schemaCreations) + 1
      ensures uniqueDataSource.Some? && schemaCreated && !publishFails ==> initialized
      ensures !(uniqueDataSource.Some? && schemaCreated && !publishFails) ==> initialized == old(initialized)
      ensures eventsPublished == old(eventsPublished) + (if uniqueDataSource.Some? && schemaCreated && !publishFails then 1 else 0)
    {
      var initializer := GetDataSourceInitializer();
      if initializer.Some? {
        schemaCreations := schemaCreations + 1;
        if schemaCreated {
          Initialize(initializer.value, publishFails, listenerRegistered);
        }
      }
    }

    /** `initialize`: publishes the event, then runs the data scripts unless that already happened. */
    method Initialize(initializer: DataSourceInitializer, publishFails: bool, listenerRegistered: bool)
      requires Valid() && dataSourceInitializer == Some(initializer)
      modifies this
      ensures Valid() && dataSourceInitializer == old(dataSourceInitializer) && schemaCreations == old(schemaCreations)
      ensures publishFails ==> initialized == old(initialized) && eventsPublished == old(eventsPublished)
      ensures !publishFails ==> initialized && eventsPublished == old(eventsPublished) + 1
    {
      if publishFails {
        return;
      }
      eventsPublished := eventsPublished + 1;
      if listenerRegistered {
        OnApplicationEvent();
      }
      if !initialized {
        schemaInitializations := schemaInitializations + 1;
        initialized := true;
      }
    }

    /** `onApplicationEvent`: runs the data scripts if an initializer exists and they have not run. */
    method OnApplicationEvent()
      requires Valid()
      modifies this
      ensures Valid() && schemaCreations == old(schemaCreations) && eventsPublished == old(eventsPublished)
      ensures old(dataSourceInitializer).Some? ==> dataSourceInitializer == old(dataSourceInitializer)
      ensures initialized <==> old(initialized) || uniqueDataSource.Some?
    {
      var initializer := GetDataSourceInitializer();
      if !initialized && initializer.Some? {
        schemaInitializations := schemaInitializations + 1;
        initialized := true;
      }
    }
  }

  /** One step a context can take on the invoker: its initialisation, or a delivered event. */
  datatype Step = AfterProperties(schemaCreated: bool, publishFails: bool, listenerRegistered: bool) | Event

  /**
   * Over any sequence of initialisations and events, the data scripts run at most once and
   * never without a unique data source.
   */
  method RunSteps(invoker: DataSourceInitializerInvoker, steps: seq<Step>)
    requires invoker.Valid()
    modifies invoker
    ensures invoker.Valid() && invoker.schemaInitializations <= 1
    ensures invoker.uniqueDataSource.None? ==> invoker.schemaInitializations == 0
  {
    for i := 0 to |steps|
      invariant invoker.Valid()
    {
      match steps[i] {
        case AfterProperties(created, fails, registered) =>
          invoker.AfterPropertiesSet(created, fails, registered);
        case Event =>
          invoker.OnApplicationEvent();
      }
    }
  }
}
