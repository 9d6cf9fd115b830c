/**
 * Devtools `FileSystemWatcher`: source directories are registered before the watcher starts;
 * a watch thread then scans them repeatedly, waits for each burst of changes to settle, and
 * hands the diff against its baseline to the listeners.
 */
module FileSystemWatchers {
  import opened Wrappers
  import opened Durations
  import opened DirectorySnapshots

  /** A registered `FileChangeListener`, known by identity. */
  type ListenerId = nat

  /** One `onChange` call: the listener and the change set it was given. */
  datatype Notification = Notification(listener: ListenerId, changeSet: set<ChangedFiles>)

  datatype WatcherError =
    | PollIntervalIsNull
    | QuietPeriodIsNull
    | PollIntervalNotPositive
    | QuietPeriodNotPositive
    | PollIntervalNotGreaterThanQuietPeriod
    | SourceIsFile(directory: Path)
    | AlreadyStarted

  /** What the file system shows at every path at one moment. */
  type Listing = Path -> Entry

  /** The files under every directory of a listing are one per path. */
  ghost predicate Listable(listing: Listing)
  {
    forall p :: OnePerPath(FilesUnder(listing(p)))
  }

  /** None of the watched directories has become a regular file. */
  predicate NoneIsFile(keys: set<Path>, listing: Listing)
  {
    forall p | p in keys :: !listing(p).RegularFile?
  }

  /** Each directory's snapshot is of that directory and holds one entry per path. */
  predicate WellFormed(m: map<Path, DirectorySnapshot>)
  {
    forall p | p in m :: m[p].directory == p && OnePerPath(m[p].files)
  }

  // ---------------------------------------------------------------- construction

  /**
   * The constructor's checks, in order: both intervals present, each at least one whole
   * millisecond, and the poll interval longer than the quiet period in milliseconds.
   */
  function CheckIntervals(poll: Option<Duration>, quiet: Option<Duration>): (r: Outcome<WatcherError>)
    ensures r.Pass? <==> poll.Some? && quiet.Some? && quiet.value >= NANOS_PER_MILLI
                         && ToMillis(poll.value) > ToMillis(quiet.value)
    ensures r.Pass? ==> poll.value >= 2 * NANOS_PER_MILLI
    ensures poll.None? ==> r == Fail(PollIntervalIsNull)
    ensures poll.Some? && quiet.None? ==> r == Fail(QuietPeriodIsNull)
    ensures poll.Some? && quiet.Some? && ToMillis(poll.value) <= 0 ==> r == Fail(PollIntervalNotPositive)
    ensures poll.Some? && quiet.Some? && ToMillis(poll.value) > 0 && ToMillis(quiet.value) <= 0
            ==> r == Fail(QuietPeriodNotPositive)
    ensures poll.Some? && quiet.Some? && ToMillis(poll.value) > 0 && ToMillis(quiet.value) > 0
              && ToMillis(poll.value) <= ToMillis(quiet.value)
            ==> r == Fail(PollIntervalNotGreaterThanQuietPeriod)
  {
    if poll.None? then Fail(PollIntervalIsNull)
    else if quiet.None? then Fail(QuietPeriodIsNull)
    else if ToMillis(poll.value) <= 0 then Fail(PollIntervalNotPositive)
    else if ToMillis(quiet.value) <= 0 then Fail(QuietPeriodNotPositive)
    else if ToMillis(poll.value) <= ToMillis(quiet.value) then Fail(PollIntervalNotGreaterThanQuietPeriod)
    else Pass
  }

  /** The shared `AtomicInteger remainingScans`: -1 means "scan until stopped". */
  class ScanBudget {
    var value: int

    constructor ()
      ensures value == -1
    {
      value := -1;
    }
  }

  /**
   * A `SnapshotStateRepository`: `STATIC` keeps the last saved snapshots for the next watcher,
   * `NONE` keeps nothing and restores nothing.
   */
  class SnapshotStateRepository {
    const retains: bool
    var stored: Option<map<Path, DirectorySnapshot>>

    ghost predicate Valid()
      reads this
    {
      stored.Some? ==> WellFormed(stored.value)
    }

    /** `SnapshotStateRepository.NONE`. */
    constructor Discarding()
      ensures !retains && stored == None && Valid()
    {
      retains := false;
      stored := None;
    }

    /** `SnapshotStateRepository.STATIC`, before anything was saved. */
    constructor Static()
      ensures retains && stored == None && Valid()
    {
      retains := true;
      stored := None;
    }

    method Save(state: map<Path, DirectorySnapshot>)
      requires Valid() && WellFormed(state)
      modifies this
      ensures Valid()
      ensures stored == if retains then Some(state) else old(stored)
    {
      if retains {
        stored := Some(state);
      }
    }

    function Restore(): Option<map<Path, DirectorySnapshot>>
      reads this
    {
      if retains then stored else None
    }
  }

  // ---------------------------------------------------------------- the scan, as values

  /**
   * `getCurrentSnapshots`: a fresh snapshot of every watched directory, or nothing when one of
   * them has become a regular file and `new DirectorySnapshot` throws.
   */
  function Snapshots(keys: set<Path>, listing: Listing): (m: Option<map<Path, DirectorySnapshot>>)
    ensures m.None? <==> exists p | p in keys :: listing(p).RegularFile?
    ensures m.Some? ==> m.value.Keys == keys
    ensures m.Some? && Listable(listing) ==> WellFormed(m.value)
  {
    if NoneIsFile(keys, listing) then Some(map p | p in keys :: DirectorySnapshot(p, FilesUnder(listing(p))))
    else None
  }

  /**
   * `isDifferent`: the watched directories differ, or some directory's snapshots are unequal
   * once both are restricted to the files the trigger filter accepts.
   */
  predicate Differs(previous: map<Path, DirectorySnapshot>, current: map<Path, DirectorySnapshot>,
                    filter: FileFilter)
  {
    previous.Keys != current.Keys
    || exists p | p in previous :: !EqualsUnder(previous[p], current[p], filter)
  }

  /** How the sampling of one scan ends. */
  datatype Sampling =
    | Settled(snapshots: map<Path, DirectorySnapshot>)
    | Unsettled
    | SourceBecameFile

  /**
   * The snapshots a scan settles on: directories are resnapshot until two consecutive sets of
   * snapshots are equal under the filter. `Unsettled` when the samples run out first, and
   * `SourceBecameFile` when a sample finds a watched directory turned into a regular file.
   */
  function Settle(previous: map<Path, DirectorySnapshot>, samples: seq<Listing>, filter: FileFilter)
    : (r: Sampling)
    ensures r.Settled? ==> r.snapshots.Keys == previous.Keys
    ensures r.Settled? && (forall j | 0 <= j < |samples| :: Listable(samples[j])) ==> WellFormed(r.snapshots)
    ensures r.SourceBecameFile? ==> exists j | 0 <= j < |samples| :: !NoneIsFile(previous.Keys, samples[j])
    ensures (forall j | 0 <= j < |samples| :: NoneIsFile(previous.Keys, samples[j])) ==> !r.SourceBecameFile?
  {
    if samples == [] then Unsettled
    else match Snapshots(previous.Keys, samples[0])
      case None => SourceBecameFile
      case Some(current) =>
        if Differs(previous, current, filter) then
          var r := Settle(current, samples[1..], filter);
          assert r.SourceBecameFile? ==> exists j | 1 <= j < |samples| :: !NoneIsFile(previous.Keys, samples[j]) by {
            if r.SourceBecameFile? {
              var j :| 0 <= j < |samples[1..]| && !NoneIsFile(current.Keys, samples[1..][j]);
              assert samples[1..][j] == samples[j + 1];
            }
          }
          r
        else Settled(current)
  }

  /** `updateSnapshots`' change set: one non-empty `ChangedFiles` per changed directory. */
  function ChangeSet(baseline: map<Path, DirectorySnapshot>, snapshots: map<Path, DirectorySnapshot>,
                     filter: FileFilter): set<ChangedFiles>
    requires snapshots.Keys <= baseline.Keys
  {
    set p | p in snapshots && Changes(baseline[p], snapshots[p], filter) != {}
      :: ChangedFiles(baseline[p].directory, Changes(baseline[p], snapshots[p], filter))
  }

  /** `fireListeners`: every listener in order gets the change set, once. */
  function Notify(listeners: seq<ListenerId>, changeSet: set<ChangedFiles>): (r: seq<Notification>)
    ensures |r| == |listeners|
    ensures forall i | 0 <= i < |r| :: r[i] == Notification(listeners[i], changeSet)
  {
    seq(|listeners|, i requires 0 <= i < |listeners| => Notification(listeners[i], changeSet))
  }

  /** The watcher's baseline, the `onChange` calls made so far, and what the repository holds. */
  datatype WatchState = WatchState(directories: map<Path, DirectorySnapshot>,
                                   notified: seq<Notification>,
                                   stored: Option<map<Path, DirectorySnapshot>>)

  /**
   * `updateSnapshots(snapshots)`: the snapshots become the baseline and are saved; listeners
   * are called only when the change set is not empty.
   */
  function AfterUpdate(w: WatchState, listeners: seq<ListenerId>, filter: FileFilter, retains: bool,
                       snapshots: map<Path, DirectorySnapshot>): WatchState
    requires snapshots.Keys <= w.directories.Keys
  {
    var changeSet := ChangeSet(w.directories, snapshots, filter);
    WatchState(snapshots,
               w.notified + (if changeSet == {} then [] else Notify(listeners, changeSet)),
               if retains then Some(snapshots) else w.stored)
  }

  /**
   * `scan`: settle, then update only when the settled snapshots differ from the baseline.
   * `None` when the scan throws because a watched directory has become a regular file.
   */
  function AfterScan(w: WatchState, listeners: seq<ListenerId>, filter: FileFilter, retains: bool,
                     samples: seq<Listing>): Option<WatchState>
  {
    match Settle(w.directories, samples, filter)
    case SourceBecameFile => None
    case Unsettled => Some(w)
    case Settled(current) =>
      if Differs(w.directories, current, filter) then Some(AfterUpdate(w, listeners, filter, retains, current))
      else Some(w)
  }

  /**
   * Successive scans, each on its own samples, until one throws and ends the watch thread:
   * the state reached, and whether a scan threw.
   */
  function AfterScans(w: WatchState, listeners: seq<ListenerId>, filter: FileFilter, retains: bool,
                      rounds: seq<seq<Listing>>): (WatchState, bool)
  {
    if rounds == [] then (w, false)
    else
      var (v, thrown) := AfterScans(w, listeners, filter, retains, rounds[..|rounds| - 1]);
      if thrown then (v, true)
      else match AfterScan(v, listeners, filter, retains, rounds[|rounds| - 1])
        case None => (v, true)
        case Some(u) => (u, false)
  }

  /**
   * How many scans `run` performs with `budget` remaining and `available` rounds of the
   * file system to look at: all of them while the budget is -1, at most the budget when it
   * is positive, and none otherwise.
   */
  function ScansAllowed(budget: int, available: nat): (n: nat)
    ensures n <= available
    ensures budget > 0 && available >= budget ==> n == budget
    ensures budget != -1 && budget <= 0 ==> n == 0
    ensures budget == -1 ==> n == available
  {
    if budget == -1 then available
    else if budget > 0 then (if budget < available then budget else available)
    else 0
  }

  // ---------------------------------------------------------------- the watch thread

  /** The `Watcher` runnable: one per started watch thread. */
  class Watcher {
    const budget: ScanBudget
    const listeners: seq<ListenerId>
    const triggerFilter: FileFilter
    const repository: SnapshotStateRepository
    var directories: map<Path, DirectorySnapshot>
    /** The `onChange` calls made, in order. */
    var notified: seq<Notification>

    ghost predicate Valid()
      reads this, repository
    {
      WellFormed(directories) && repository.Valid()
    }

    function State(): WatchState
      reads this, repository
    {
      WatchState(directories, notified, repository.stored)
    }

    constructor (budget: ScanBudget, listeners: seq<ListenerId>, triggerFilter: FileFilter,
                 directories: map<Path, DirectorySnapshot>, repository: SnapshotStateRepository)
      ensures this.budget == budget && this.listeners == listeners
      ensures this.triggerFilter == triggerFilter && this.repository == repository
      ensures this.directories == directories && notified == []
    {
      this.budget := budget;
      this.listeners := listeners;
      this.triggerFilter := triggerFilter;
      this.repository := repository;
      this.directories := directories;
      notified := [];
    }

    /**
     * `run`: scans while the budget is -1 or positive, taking one from a positive budget per
     * scan. The rounds stand for what the file system shows during successive scans.
     */
    method Run(rounds: seq<seq<Listing>>) returns (scans: nat, r: Outcome<SnapshotError>)
      requires Valid()
      requires forall i, j | 0 <= i < |rounds| && 0 <= j < |rounds[i]| :: Listable(rounds[i][j])
      modifies this, budget, repository
      ensures Valid()
      ensures scans <= ScansAllowed(old(budget.value), |rounds|)
      ensures r.Pass? ==> scans == ScansAllowed(old(budget.value), |rounds|)
      ensures budget.value == if old(budget.value) > 0 then old(budget.value) - scans else old(budget.value)
      ensures (State(), r.Fail?)
              == AfterScans(old(State()), listeners, triggerFilter, repository.retains,
                            rounds[..ScansAllowed(old(budget.value), |rounds|)])
      ensures r.Fail? ==> r.error.DirectoryIsFile? && r.error.directory in directories
    {
      scans := 0;
      r := Pass;
      var remaining := budget.value;
      while (remaining > 0 || remaining == -1) && scans < |rounds| && r.Pass?
        invariant 0 <= scans <= |rounds| && remaining == budget.value
        invariant old(budget.value) > 0 ==> 0 <= remaining == old(budget.value) - scans
        invariant old(budget.value) <= 0 ==> remaining == old(budget.value)
        invariant old(budget.value) <= 0 && old(budget.value) != -1 ==> scans == 0
        invariant Valid()
        invariant (State(), r.Fail?)
                  == AfterScans(old(State()), listeners, triggerFilter, repository.retains, rounds[..scans])
        invariant r.Fail? ==> r.error.DirectoryIsFile? && r.error.directory in directories
        decreases |rounds| - scans
      {
        if remaining > 0 {
          budget.value := budget.value - 1;
        }
        r := Scan(rounds[scans]);
        assert rounds[..scans + 1][..scans] == rounds[..scans];
        scans := scans + 1;
        remaining := budget.value;
      }
      var allowed := ScansAllowed(old(budget.value), |rounds|);
      assert rounds[..scans] + rounds[scans..allowed] == rounds[..allowed];
      if r.Fail? {
        ThrownIsFinal(old(State()), listeners, triggerFilter, repository.retains, rounds[..scans], rounds[scans..allowed]);
      }
    }

    /** `scan`: resnapshot until settled, then publish when the baseline differs. */
    method Scan(samples: seq<Listing>) returns (r: Outcome<SnapshotError>)
      requires Valid() && forall j | 0 <= j < |samples| :: Listable(samples[j])
      modifies this, repository
      ensures Valid()
      ensures r.Fail? <==> AfterScan(old(State()), listeners, triggerFilter, repository.retains, samples).None?
      ensures r.Pass? ==> Some(State()) == AfterScan(old(State()), listeners, triggerFilter, repository.retains, samples)
      ensures r.Fail? ==> State() == old(State())
      ensures r.Fail? ==> r.error.DirectoryIsFile? && r.error.directory in directories
    {
      var current := directories;
      var different := true;
      var i := 0;
      while different && i < |samples|
        modifies {}
        invariant 0 <= i <= |samples|
        invariant current.Keys == directories.Keys && WellFormed(current)
        invariant Settle(directories, samples, triggerFilter)
                  == if different then Settle(current, samples[i..], triggerFilter) else Settled(current)
        decreases |samples| - i
      {
        var previous := current;
        assert samples[i..][1..] == samples[i + 1..] && samples[i..][0] == samples[i];
        var snapshots := GetCurrentSnapshots(samples[i]);
        if snapshots.Failure? {
          return Fail(snapshots.error);
        }
        current := snapshots.value;
        different := IsDifferent(previous, current);
        i := i + 1;
      }
      if !different {
        var changed := IsDifferent(directories, current);
        if changed {
          UpdateSnapshots(current);
        }
      }
      return Pass;
    }

    /**
     * `getCurrentSnapshots`: `new DirectorySnapshot` of every watched directory, which throws
     * for one that has become a regular file.
     */
    method GetCurrentSnapshots(listing: Listing) returns (r: Result<map<Path, DirectorySnapshot>, SnapshotError>)
      ensures r.Failure? <==> Snapshots(directories.Keys, listing).None?
      ensures r.Success? ==> Snapshots(directories.Keys, listing) == Some(r.value)
      ensures r.Failure? ==> r.error.DirectoryIsFile? && r.error.directory in directories
                             && listing(r.error.directory).RegularFile?
    {
      var snapshots := map[];
      var pending := directories.Keys;
      while pending != {}
        invariant pending <= directories.Keys
        invariant NoneIsFile(directories.Keys - pending, listing)
        invariant Snapshots(directories.Keys - pending, listing) == Some(snapshots)
        decreases pending
      {
        var directory :| directory in pending;
        var snapshot := NewDirectorySnapshot(directory, listing(directory));
        if snapshot.Failure? {
          return Failure(snapshot.error);
        }
        pending := pending - {directory};
        snapshots := snapshots[directory := snapshot.value];
        assert NoneIsFile(directories.Keys - pending, listing);
        assert Snapshots(directories.Keys - pending, listing).value == snapshots;
      }
      assert directories.Keys - pending == directories.Keys;
      return Success(snapshots);
    }

    method IsDifferent(previous: map<Path, DirectorySnapshot>, current: map<Path, DirectorySnapshot>)
      returns (different: bool)
      ensures different == Differs(previous, current, triggerFilter)
    {
      if previous.Keys != current.Keys {
        return true;
      }
      var pending := previous.Keys;
      while pending != {}
        invariant pending <= previous.Keys
        invariant forall p | p in previous.Keys - pending :: EqualsUnder(previous[p], current[p], triggerFilter)
        decreases pending
      {
        var directory :| directory in pending;
        pending := pending - {directory};
        if !EqualsUnder(previous[directory], current[directory], triggerFilter) {
          return true;
        }
      }
      return false;
    }

    /** `updateSnapshots`: the diff of each directory, then a new baseline, a save and the listeners. */
    method UpdateSnapshots(snapshots: map<Path, DirectorySnapshot>)
      requires Valid() && WellFormed(snapshots) && snapshots.Keys == directories.Keys
      modifies this, repository
      ensures Valid()
      ensures State() == AfterUpdate(old(State()), listeners, triggerFilter, repository.retains, snapshots)
    {
      var updated: map<Path, DirectorySnapshot> := map[];
      var changeSet: set<ChangedFiles> := {};
      var pending := snapshots.Keys;
      while pending != {}
        modifies {}
        invariant pending <= snapshots.Keys
        invariant updated.Keys == snapshots.Keys - pending
        invariant forall p | p in updated :: updated[p] == snapshots[p]
        invariant changeSet == ChangeSet(directories, updated, triggerFilter)
        decreases pending
      {
        var key :| key in pending;
        var snapshot := snapshots[key];
        var previous := directories[snapshot.directory];
        ChangeSetStep(directories, updated, key, snapshot, triggerFilter);
        updated := updated[snapshot.directory := snapshot];
        var r := GetChangedFiles(previous, snapshot, triggerFilter);
        var changedFiles := r.value;
        if changedFiles.files != {} {
          changeSet := changeSet + {changedFiles};
        }
        pending := pending - {key};
      }
      assert updated == snapshots;
      directories := updated;
      repository.Save(updated);
      if changeSet != {} {
        FireListeners(changeSet);
      }
    }

    method FireListeners(changeSet: set<ChangedFiles>)
      modifies this
      ensures directories == old(directories)
      ensures notified == old(notified) + Notify(listeners, changeSet)
    {
      var i := 0;
      while i < |listeners|
        invariant 0 <= i <= |listeners| && directories == old(directories)
        invariant notified == old(notified) + Notify(listeners[..i], changeSet)
      {
        notified := notified + [Notification(listeners[i], changeSet)];
        i := i + 1;
        assert Notify(listeners[..i], changeSet)
               == Notify(listeners[..i - 1], changeSet) + [Notification(listeners[i - 1], changeSet)];
      }
      assert listeners[..i] == listeners;
    }
  }

  /** Adding one directory's diff to the change set. */
  lemma ChangeSetStep(baseline: map<Path, DirectorySnapshot>, updated: map<Path, DirectorySnapshot>,
                      key: Path, snapshot: DirectorySnapshot, filter: FileFilter)
    requires WellFormed(baseline) && key in baseline && key !in updated && updated.Keys <= baseline.Keys
    requires snapshot.directory == key
    ensures ChangeSet(baseline, updated[key := snapshot], filter)
            == ChangeSet(baseline, updated, filter)
               + (if Changes(baseline[key], snapshot, filter) == {} then {}
                  else {ChangedFiles(key, Changes(baseline[key], snapshot, filter))})
  {
    var m := updated[key := snapshot];
    forall p | p in updated ensures m[p] == updated[p] {
    }
  }

  // ---------------------------------------------------------------- the public watcher

  /** The map `start` hands to a new watcher: the snapshot of every directory that has one. */
  function Present(directories: map<Path, Option<DirectorySnapshot>>): map<Path, DirectorySnapshot>
  {
    map p | p in directories && directories[p].Some? :: directories[p].value
  }

  /**
   * The snapshot `createOrRestoreInitialSnapshots` gives one directory: the restored one when
   * the repository has it, otherwise a fresh one, which `new DirectorySnapshot` refuses to take
   * of a regular file.
   */
  function InitialSnapshot(p: Path, restored: Option<map<Path, DirectorySnapshot>>, listing: Listing)
    : (r: Option<DirectorySnapshot>)
    ensures r.None? <==> !(restored.Some? && p in restored.value) && listing(p).RegularFile?
    ensures restored.Some? && p in restored.value ==> r == Some(restored.value[p])
  {
    if restored.Some? && p in restored.value then Some(restored.value[p])
    else if listing(p).RegularFile? then None
    else Some(DirectorySnapshot(p, FilesUnder(listing(p))))
  }

  /**
   * `createOrRestoreInitialSnapshots`: every watched directory's initial snapshot, or nothing
   * when one of them cannot be taken.
   */
  function InitialSnapshots(keys: set<Path>, restored: Option<map<Path, DirectorySnapshot>>,
                            listing: Listing): (m: Option<map<Path, Option<DirectorySnapshot>>>)
    ensures m.None? <==> exists p | p in keys :: InitialSnapshot(p, restored, listing).None?
    ensures m.Some? ==> m.value.Keys == keys && forall p | p in m.value :: m.value[p].Some?
  {
    if forall p | p in keys :: InitialSnapshot(p, restored, listing).Some? then
      Some(map p | p in keys :: InitialSnapshot(p, restored, listing))
    else None
  }

  class FileSystemWatcher {
    const daemon: bool
    const pollInterval: int
    const quietPeriod: int
    const repository: SnapshotStateRepository
    const remainingScans: ScanBudget
    var listeners: seq<ListenerId>
    /** Each watched directory, with no snapshot until `start`. */
    var directories: map<Path, Option<DirectorySnapshot>>
    /** The running watcher, standing for `watchThread`. */
    var watchThread: Watcher?
    var triggerFilter: FileFilter

    ghost predicate Valid()
      reads this, repository
    {
      repository.Valid()
      && forall p | p in directories && directories[p].Some? ::
           directories[p].value.directory == p && OnePerPath(directories[p].value.files)
    }

    constructor (daemon: bool, pollInterval: int, quietPeriod: int, repository: SnapshotStateRepository)
      requires 0 < quietPeriod < pollInterval && repository.Valid()
      ensures this.daemon == daemon && this.pollInterval == pollInterval
      ensures this.quietPeriod == quietPeriod && this.repository == repository
      ensures fresh(remainingScans) && remainingScans.value == -1
      ensures listeners == [] && directories == map[] && watchThread == null && triggerFilter == None
      ensures Valid()
    {
      this.daemon := daemon;
      this.pollInterval := pollInterval;
      this.quietPeriod := quietPeriod;
      this.repository := repository;
      remainingScans := new ScanBudget();
      listeners := [];
      directories := map[];
      watchThread := null;
      triggerFilter := None;
    }

    /**
     * `new FileSystemWatcher(daemon, pollInterval, quietPeriod, repository)`: the intervals are
     * checked and kept in milliseconds; a null repository means `NONE`.
     */
    static method Create(daemon: bool, poll: Option<Duration>, quiet: Option<Duration>,
                         repository: SnapshotStateRepository?)
      returns (r: Result<FileSystemWatcher, WatcherError>)
      requires repository != null ==> repository.Valid()
      ensures r.Failure? <==> CheckIntervals(poll, quiet).Fail?
      ensures r.Failure? ==> r.error == CheckIntervals(poll, quiet).error
      ensures r.Success? ==> fresh(r.value) && r.value.Valid()
      ensures r.Success? ==> r.value.pollInterval == ToMillis(poll.value)
      ensures r.Success? ==> r.value.quietPeriod == ToMillis(quiet.value) && r.value.daemon == daemon
      ensures r.Success? ==> r.value.listeners == [] && r.value.directories == map[]
      ensures r.Success? ==> r.value.watchThread == null && r.value.remainingScans.value == -1
      ensures r.Success? && repository != null ==> r.value.repository == repository
      ensures r.Success? && repository == null ==> fresh(r.value.repository) && !r.value.repository.retains
    {
      var check := CheckIntervals(poll, quiet);
      if check.Fail? {
        return Failure(check.error);
      }
      var repo: SnapshotStateRepository;
      if repository != null {
        repo := repository;
      } else {
        repo := new SnapshotStateRepository.Discarding();
      }
      var watcher := new FileSystemWatcher(daemon, ToMillis(poll.value), ToMillis(quiet.value), repo);
      return Success(watcher);
    }

    /** `addListener`: refused once a watch thread exists. */
    method AddListener(listener: ListenerId) returns (r: Outcome<WatcherError>)
      modifies this
      ensures r.Fail? <==> watchThread != null
      ensures r.Fail? ==> r.error == AlreadyStarted
      ensures listeners == if r.Pass? then old(listeners) + [listener] else old(listeners)
      ensures directories == old(directories) && watchThread == old(watchThread)
      ensures triggerFilter == old(triggerFilter)
    {
      if watchThread != null {
        return Fail(AlreadyStarted);
      }
      listeners := listeners + [listener];
      return Pass;
    }

    /** `addSourceDirectory`: refuses a regular file, then refuses once a watch thread exists. */
    method AddSourceDirectory(directory: Path, isFile: bool) returns (r: Outcome<WatcherError>)
      modifies this
      ensures isFile ==> r == Fail(SourceIsFile(directory))
      ensures !isFile ==> (r.Fail? <==> watchThread != null)
      ensures !isFile && r.Fail? ==> r.error == AlreadyStarted
      ensures directories == if r.Pass? then old(directories)[directory := None] else old(directories)
      ensures listeners == old(listeners) && watchThread == old(watchThread)
      ensures triggerFilter == old(triggerFilter)
    {
      if isFile {
        return Fail(SourceIsFile(directory));
      }
      if watchThread != null {
        return Fail(AlreadyStarted);
      }
      directories := directories[directory := None];
      return Pass;
    }

    method SetTriggerFilter(filter: FileFilter)
      modifies this
      ensures triggerFilter == filter
      ensures listeners == old(listeners) && directories == old(directories)
      ensures watchThread == old(watchThread)
    {
      triggerFilter := filter;
    }

    /**
     * `start`: refreshes every directory's snapshot (restored or fresh), then creates a
     * watcher over copies of the current state, unless one is already running. A directory
     * that has become a regular file makes it throw part way, with the directories visited
     * before it already refreshed and no watcher created.
     */
    method Start(listing: Listing) returns (r: Outcome<SnapshotError>)
      requires Valid() && Listable(listing)
      modifies this
      ensures Valid()
      ensures r.Fail? <==> InitialSnapshots(old(directories).Keys, repository.Restore(), listing).None?
      ensures r.Pass? ==> directories == InitialSnapshots(old(directories).Keys, repository.Restore(), listing).value
      ensures r.Fail? ==> r.error.DirectoryIsFile? && r.error.directory in old(directories)
                          && InitialSnapshot(r.error.directory, repository.Restore(), listing).None?
      ensures r.Fail? ==> directories.Keys == old(directories).Keys
                          && forall p | p in directories :: directories[p] == old(directories)[p]
                                                            || directories[p] == InitialSnapshot(p, repository.Restore(), listing)
      ensures listeners == old(listeners) && triggerFilter == old(triggerFilter)
      ensures r.Fail? || old(watchThread) != null ==> watchThread == old(watchThread)
      ensures r.Pass? && old(watchThread) == null ==>
        watchThread != null && fresh(watchThread) && watchThread.Valid()
        && watchThread.budget == remainingScans && watchThread.listeners == listeners
        && watchThread.triggerFilter == triggerFilter && watchThread.repository == repository
        && watchThread.directories == Present(directories) && watchThread.notified == []
    {
      var restored := repository.Restore();
      ghost var before := directories;
      var pending := directories.Keys;
      while pending != {}
        invariant pending <= before.Keys && directories.Keys == before.Keys
        invariant forall p | p in directories
                    :: directories[p] == if p in pending then before[p] else InitialSnapshot(p, restored, listing)
        invariant forall p | p in before.Keys - pending :: InitialSnapshot(p, restored, listing).Some?
        invariant Valid()
        invariant watchThread == old(watchThread) && listeners == old(listeners) && triggerFilter == old(triggerFilter)
        decreases pending
      {
        var directory :| directory in pending;
        var snapshot: DirectorySnapshot;
        if restored.Some? && directory in restored.value {
          snapshot := restored.value[directory];
        } else {
          var made := NewDirectorySnapshot(directory, listing(directory));
          if made.Failure? {
            return Fail(made.error);
          }
          snapshot := made.value;
        }
        directories := directories[directory := Some(snapshot)];
        pending := pending - {directory};
      }
      assert directories == InitialSnapshots(before.Keys, restored, listing).value;
      if watchThread == null {
        var local := Present(directories);
        watchThread := new Watcher(remainingScans, listeners, triggerFilter, local, repository);
      }
      return Pass;
    }

    /** `stopAfter(n)`: a running watcher gets `n` more scans; the watcher is dropped. */
    method StopAfter(n: int)
      modifies this, remainingScans
      ensures watchThread == null
      ensures remainingScans.value == if old(watchThread) != null then n else old(remainingScans.value)
      ensures listeners == old(listeners) && directories == old(directories)
      ensures triggerFilter == old(triggerFilter)
    {
      if watchThread != null {
        remainingScans.value := n;
      }
      watchThread := null;
    }

    method Stop()
      modifies this, remainingScans
      ensures watchThread == null
      ensures remainingScans.value == if old(watchThread) != null then 0 else old(remainingScans.value)
      ensures listeners == old(listeners) && directories == old(directories)
      ensures triggerFilter == old(triggerFilter)
    {
      StopAfter(0);
    }
  }

  // ---------------------------------------------------------------- properties

  /** Snapshots never differ from themselves. */
  lemma DiffersIrreflexive(m: map<Path, DirectorySnapshot>, filter: FileFilter)
    ensures !Differs(m, m, filter)
  {
  }

  /** Whether two sets of snapshots differ does not depend on their order. */
  lemma DiffersSymmetric(a: map<Path, DirectorySnapshot>, b: map<Path, DirectorySnapshot>,
                         filter: FileFilter)
    ensures Differs(a, b, filter) <==> Differs(b, a, filter)
  {
    if a.Keys == b.Keys {
      forall p | p in a ensures EqualsUnder(a[p], b[p], filter) <==> EqualsUnder(b[p], a[p], filter) {
      }
    }
  }

  /**
   * Sample `k` can be snapshot and equals the snapshots taken just before it (the baseline for
   * the first sample).
   */
  predicate StableAt(previous: map<Path, DirectorySnapshot>, samples: seq<Listing>, filter: FileFilter, k: nat)
    requires k < |samples|
  {
    var before := if k == 0 then Some(previous) else Snapshots(previous.Keys, samples[k - 1]);
    var now := Snapshots(previous.Keys, samples[k]);
    before.Some? && now.Some? && !Differs(before.value, now.value, filter)
  }

  /** A settled state is a sample that equals the one before it, under the filter. */
  lemma {:induction false} SettleIsStable(previous: map<Path, DirectorySnapshot>, samples: seq<Listing>,
                                          filter: FileFilter)
    requires Settle(previous, samples, filter).Settled?
    ensures exists k: nat | k < |samples| ::
      Some(Settle(previous, samples, filter).snapshots) == Snapshots(previous.Keys, samples[k])
      && StableAt(previous, samples, filter, k)
  {
    var current := Snapshots(previous.Keys, samples[0]).value;
    if Differs(previous, current, filter) {
      SettleIsStable(current, samples[1..], filter);
      var k: nat :| k < |samples[1..]|
        && Some(Settle(current, samples[1..], filter).snapshots) == Snapshots(current.Keys, samples[1..][k])
        && StableAt(current, samples[1..], filter, k);
      assert samples[1..][k] == samples[k + 1];
      assert k > 0 ==> samples[1..][k - 1] == samples[k];
      assert StableAt(previous, samples, filter, k + 1);
    } else {
      assert StableAt(previous, samples, filter, 0);
    }
  }

  /** Once a scan has thrown, the watch thread has ended: later rounds change nothing. */
  lemma {:induction false} ThrownIsFinal(w: WatchState, listeners: seq<ListenerId>, filter: FileFilter, retains: bool,
                                         rounds: seq<seq<Listing>>, later: seq<seq<Listing>>)
    requires AfterScans(w, listeners, filter, retains, rounds).1
    ensures AfterScans(w, listeners, filter, retains, rounds + later) == AfterScans(w, listeners, filter, retains, rounds)
    decreases |later|
  {
    if later == [] {
      assert rounds + later == rounds;
    } else {
      var shorter := later[..|later| - 1];
      ThrownIsFinal(w, listeners, filter, retains, rounds, shorter);
      assert (rounds + later)[..|rounds + later| - 1] == rounds + shorter;
    }
  }

  /** A scan throws exactly when one of its samples, up to where it settles, finds a watched directory turned into a file. */
  lemma ScanThrowsOnlyForFiles(w: WatchState, listeners: seq<ListenerId>, filter: FileFilter, retains: bool,
                               samples: seq<Listing>)
    ensures AfterScan(w, listeners, filter, retains, samples).None?
            ==> exists j | 0 <= j < |samples| :: !NoneIsFile(w.directories.Keys, samples[j])
    ensures (forall j | 0 <= j < |samples| :: NoneIsFile(w.directories.Keys, samples[j]))
            ==> AfterScan(w, listeners, filter, retains, samples).Some?
  {
  }

  /** Every published `ChangedFiles` is the diff of one watched directory and is not empty. */
  lemma ChangeSetEntries(baseline: map<Path, DirectorySnapshot>, snapshots: map<Path, DirectorySnapshot>,
                         filter: FileFilter, c: ChangedFiles)
    requires WellFormed(baseline) && snapshots.Keys <= baseline.Keys
    ensures c in ChangeSet(baseline, snapshots, filter)
            <==> c.sourceDirectory in snapshots && c.files != {}
                 && c.files == Changes(baseline[c.sourceDirectory], snapshots[c.sourceDirectory], filter)
  {
  }

  /** Listeners are called only with a non-empty change set, once each, in registration order. */
  lemma ListenersSeeOnlyChanges(w: WatchState, listeners: seq<ListenerId>, filter: FileFilter,
                                retains: bool, snapshots: map<Path, DirectorySnapshot>)
    requires snapshots.Keys <= w.directories.Keys
    ensures var after := AfterUpdate(w, listeners, filter, retains, snapshots);
      var changeSet := ChangeSet(w.directories, snapshots, filter);
      && after.directories == snapshots
      && (changeSet == {} ==> after.notified == w.notified)
      && (changeSet != {} ==> after.notified == w.notified + Notify(listeners, changeSet))
      && (retains ==> after.stored == Some(snapshots))
  {
  }

  /**
   * Without a trigger filter, snapshots of the same directories differ exactly when some
   * directory has changes to publish.
   */
  lemma DiffersIffChanges(baseline: map<Path, DirectorySnapshot>, snapshots: map<Path, DirectorySnapshot>)
    requires WellFormed(baseline) && WellFormed(snapshots) && baseline.Keys == snapshots.Keys
    ensures Differs(baseline, snapshots, None) <==> ChangeSet(baseline, snapshots, None) != {}
  {
    if Differs(baseline, snapshots, None) {
      var p :| p in baseline && !EqualsUnder(baseline[p], snapshots[p], None);
      EqualIffNoChanges(baseline[p], snapshots[p]);
      assert ChangedFiles(baseline[p].directory, Changes(baseline[p], snapshots[p], None))
             in ChangeSet(baseline, snapshots, None);
    } else if ChangeSet(baseline, snapshots, None) != {} {
      var c :| c in ChangeSet(baseline, snapshots, None);
      var p :| p in snapshots && Changes(baseline[p], snapshots[p], None) != {}
        && c == ChangedFiles(baseline[p].directory, Changes(baseline[p], snapshots[p], None));
      EqualIffNoChanges(baseline[p], snapshots[p]);
    }
  }

  /**
   * With a trigger filter, a scan reacts only to the files the filter accepts, and the changes
   * it publishes never include those files.
   */
  lemma TriggerFilesOnlyTrigger(baseline: map<Path, DirectorySnapshot>,
                                snapshots: map<Path, DirectorySnapshot>, accept: Path -> bool)
    requires WellFormed(baseline) && snapshots.Keys == baseline.Keys
    ensures Differs(baseline, snapshots, Some(accept))
            <==> exists p | p in baseline :: Filtered(baseline[p].files, Some(accept))
                                              != Filtered(snapshots[p].files, Some(accept))
                                           || baseline[p].directory != snapshots[p].directory
    ensures forall c, f | c in ChangeSet(baseline, snapshots, Some(accept)) && f in c.files :: !accept(f.file)
  {
    forall c, f | c in ChangeSet(baseline, snapshots, Some(accept)) && f in c.files
      ensures !accept(f.file)
    {
      var p :| p in snapshots && Changes(baseline[p], snapshots[p], Some(accept)) != {}
        && c == ChangedFiles(baseline[p].directory, Changes(baseline[p], snapshots[p], Some(accept)));
      TriggerFilesNeverReported(baseline[p], snapshots[p], accept, f);
    }
  }
}
