/**
 * Devtools `ClassPathFileChangeListener`: turns a change set from the file system watcher into
 * a `ClassPathChangedEvent`, and stops the watcher when the change calls for a restart.
 */
module ClassPathFileChangeListeners {
  import opened DirectorySnapshots
  import opened FileSystemWatchers

  /** A `ClassPathRestartStrategy`: whether a changed file calls for a restart. */
  type RestartStrategy = ChangedFile -> bool

  datatype ClassPathChangedEvent = ClassPathChangedEvent(changeSet: set<ChangedFiles>, restartRequired: bool)

  /** An `ApplicationEventPublisher`, as the events published through it. */
  class EventPublisher {
    var published: seq<ClassPathChangedEvent>

    constructor ()
      ensures published == []
    {
      published := [];
    }

    method PublishEvent(event: ClassPathChangedEvent)
      modifies this
      ensures published == old(published) + [event]
    {
      published := published + [event];
    }
  }

  /**
   * `isRestartRequired`: never while an agent-based reloader is active; otherwise when some
   * changed file of some directory satisfies the strategy.
   */
  predicate IsRestartRequired(agentActive: bool, strategy: RestartStrategy, changeSet: set<ChangedFiles>)
    ensures agentActive || changeSet == {} ==> !IsRestartRequired(agentActive, strategy, changeSet)
    ensures IsRestartRequired(agentActive, strategy, changeSet)
            ==> exists changedFiles | changedFiles in changeSet :: changedFiles.files != {}
  {
    !agentActive
    && exists changedFiles, changedFile | changedFiles in changeSet && changedFile in changedFiles.files
         :: strategy(changedFile)
  }

  class ClassPathFileChangeListener {
    const eventPublisher: EventPublisher
    const restartStrategy: RestartStrategy
    const fileSystemWatcherToStop: FileSystemWatcher?

    constructor (eventPublisher: EventPublisher, restartStrategy: RestartStrategy,
                 fileSystemWatcherToStop: FileSystemWatcher?)
      ensures this.eventPublisher == eventPublisher && this.restartStrategy == restartStrategy
      ensures this.fileSystemWatcherToStop == fileSystemWatcherToStop
    {
      this.eventPublisher := eventPublisher;
      this.restartStrategy := restartStrategy;
      this.fileSystemWatcherToStop := fileSystemWatcherToStop;
    }

    /**
     * `onChange`: publishes one event with the change set and the restart decision, then
     * stops the watcher to stop, if there is one, exactly when a restart is required.
     */
    method OnChange(changeSet: set<ChangedFiles>, agentActive: bool)
      modifies eventPublisher
      modifies if fileSystemWatcherToStop != null
               then {fileSystemWatcherToStop, fileSystemWatcherToStop.remainingScans} else {}
      ensures var restart := IsRestartRequired(agentActive, restartStrategy, changeSet);
        eventPublisher.published == old(eventPublisher.published) + [ClassPathChangedEvent(changeSet, restart)]
      ensures fileSystemWatcherToStop != null ==>
        if IsRestartRequired(agentActive, restartStrategy, changeSet)
        then fileSystemWatcherToStop.watchThread == null
             && (old(fileSystemWatcherToStop.watchThread) != null ==> fileSystemWatcherToStop.remainingScans.value == 0)
        else fileSystemWatcherToStop.watchThread == old(fileSystemWatcherToStop.watchThread)
             && fileSystemWatcherToStop.remainingScans.value == old(fileSystemWatcherToStop.remainingScans.value)
    {
      var restart := RestartRequired(changeSet, agentActive);
      var event := ClassPathChangedEvent(changeSet, restart);
      eventPublisher.PublishEvent(event);
      if event.restartRequired && fileSystemWatcherToStop != null {
        fileSystemWatcherToStop.Stop();
      }
    }

    /** The search loop of `isRestartRequired`. */
    method RestartRequired(changeSet: set<ChangedFiles>, agentActive: bool) returns (restart: bool)
      ensures restart == IsRestartRequired(agentActive, restartStrategy, changeSet)
    {
      if agentActive {
        return false;
      }
      var directories := changeSet;
      while directories != {}
        invariant directories <= changeSet
        invariant forall d, f | d in changeSet - directories && f in d.files :: !restartStrategy(f)
        decreases directories
      {
        var changedFiles :| changedFiles in directories;
        var files := changedFiles.files;
        while files != {}
          invariant files <= changedFiles.files
          invariant forall f | f in changedFiles.files - files :: !restartStrategy(f)
          decreases files
        {
          var changedFile :| changedFile in files;
          if restartStrategy(changedFile) {
            return true;
          }
          files := files - {changedFile};
        }
        directories := directories - {changedFiles};
      }
      return false;
    }
  }

  /** An empty change set never calls for a restart. */
  lemma NoChangesNoRestart(agentActive: bool, strategy: RestartStrategy)
    ensures !IsRestartRequired(agentActive, strategy, {})
  {
  }

  /** The decision over several directories is the disjunction of the decisions over each part. */
  lemma RestartOverUnion(agentActive: bool, strategy: RestartStrategy, a: set<ChangedFiles>, b: set<ChangedFiles>)
    ensures IsRestartRequired(agentActive, strategy, a + b)
            <==> IsRestartRequired(agentActive, strategy, a) || IsRestartRequired(agentActive, strategy, b)
  {
    if IsRestartRequired(agentActive, strategy, a + b) {
      var d, f :| d in a + b && f in d.files && strategy(f);
      if d in a {
        assert IsRestartRequired(agentActive, strategy, a);
      } else {
        assert IsRestartRequired(agentActive, strategy, b);
      }
    }
  }

  /** With an active agent reloader nothing restarts, whatever changed. */
  lemma AgentNeverRestarts(strategy: RestartStrategy, changeSet: set<ChangedFiles>)
    ensures !IsRestartRequired(true, strategy, changeSet)
  {
  }
}
