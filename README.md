# Spring Boot core rules, modelled in Dafny

This project models the sequential rules at the heart of several Spring Boot components and
proves what those components promise. It covers five groups.

- **Devtools change detection and restart.** `DirectorySnapshot` diffs two snapshots of a
  source directory into ADD, MODIFY and DELETE changes, and compares snapshots under a filter.
  `FileSystemWatcher` keeps a baseline, settles each burst of changes and notifies listeners.
  `ClassPathFileChangeListener` decides when a restart is needed. `ClassPathChangeUploader`
  turns change events into `ClassLoaderFiles`. `RestartClassLoader` resolves classes and
  resources through changed-file overrides, its own URLs and its parent. `Restarter` keeps the
  state of the next restart and relaunches until the failure handler gives up.
- **Error-page routing.** `ErrorPageFilter` keeps global, status and exception tables, looks up
  pages along the exception class chain, and wraps the response so that `sendError` is recorded
  and replayed.
- **Actuator endpoints.** `EndpointDiscoverer` rejects duplicate endpoint ids and orphan or
  repeated extensions, merges operations with replace-last semantics, rejects duplicate
  operations, and caches the endpoints it discovers. `AbstractWebMvcEndpointHandlerMapping`
  rewrites paths, tokenises them, builds arguments and maps results to responses.
  `CachingOperationInvokerAdvisor` decides when a read operation is cached, and
  `OperationMethodParameter` decides when a parameter is mandatory.
- **Small state machines.** `DataSourceInitializerInvoker` runs the data scripts at most once.
  `SpringBootTestRandomPortEnvironmentPostProcessor` applies the random management-port rule.
- **Embedded web servers.** `TomcatWebServer`, `JettyWebServer` and `NettyWebServer` track
  started flags, put connectors aside until start, shut down gracefully or report IMMEDIATE,
  and describe their ports. The Tomcat, Jetty, Netty and Undertow factories supply the session,
  resource, handler-chain, customizer and factory-list rules.

There is one Dafny module per Java file. `common.dfy` holds the shared helpers:

- `Wrappers`: `Option`, `Result`, `Outcome`.
- `Strings`: Java string operations.
- `Sequences`: `LinkedHashSet` insertion as `AddAll` and `Dedup`.
- `Durations`: `java.time.Duration` in nanoseconds.
- `JavaInts`: `int` narrowing.

`web_server.dfy` holds what the servers share: `Shutdown`, `GracefulShutdownResult`, the
graceful-shutdown collaborator and the server errors.

The model follows the Java code's own form:

- Objects whose fields the source updates in place are classes, with `modifies` frames.
  Examples are the watcher, the restarter, the filter's response wrapper, the servers and the
  factories.
- Loops are methods proved against specification functions.
- Decision rules are functions with lemmas.
- Exceptions that the source throws, including `Assert` failures, are `Result` or `Outcome`
  values, not preconditions.
- Collaborators that are not visible become parameters: the file system, the class definition,
  the parent class loader, the failure handler, filters, customizers and route providers.

## Model

| member | source | states |
|---|---|---|
| `DirectorySnapshots.CollectFiles` | spring-boot-project/spring-boot-devtools/src/main/java/org/springframework/boot/devtools/filewatch/DirectorySnapshot.java:71-83 | the result is the given set plus exactly the files found under the source: regular files listed in it, files under listed directories other than "." and "..", nothing for an unlistable directory |
| `DirectorySnapshots.NewDirectorySnapshot` | spring-boot-project/spring-boot-devtools/src/main/java/org/springframework/boot/devtools/filewatch/DirectorySnapshot.java:61-69 | fails, naming the directory, exactly when it is a regular file; otherwise the snapshot is of that directory and holds the files collected under it |
| `DirectorySnapshots.CollectedAreRegularFiles` | spring-boot-project/spring-boot-devtools/src/main/java/org/springframework/boot/devtools/filewatch/DirectorySnapshot.java:71-83 | every collected file comes from a listable directory, through one of its children |
| `DirectorySnapshots.ChildrenCollected` | spring-boot-project/spring-boot-devtools/src/main/java/org/springframework/boot/devtools/filewatch/DirectorySnapshot.java:73-81 | every regular file listed directly, or under a listed non-dot directory, is collected |
| `DirectorySnapshots.FilesMap` | spring-boot-project/spring-boot-devtools/src/main/java/org/springframework/boot/devtools/filewatch/DirectorySnapshot.java:124-130 | the map's keys are the snapshot's paths and each path maps to that file's snapshot |
| `DirectorySnapshots.GetFilesMap` | spring-boot-project/spring-boot-devtools/src/main/java/org/springframework/boot/devtools/filewatch/DirectorySnapshot.java:124-130 | the loop builds exactly that map |
| `DirectorySnapshots.GetChangedFiles` | spring-boot-project/spring-boot-devtools/src/main/java/org/springframework/boot/devtools/filewatch/DirectorySnapshot.java:85-118 | fails exactly when the snapshots are of different directories; otherwise returns the older snapshot's directory with the set of changes the two passes define |
| `DirectorySnapshots.MatchCurrentFiles` | spring-boot-project/spring-boot-devtools/src/main/java/org/springframework/boot/devtools/filewatch/DirectorySnapshot.java:96-110 | the first pass reports the ADD and MODIFY entries, and leaves in the map exactly the older files whose path no accepted newer file took, unchanged |
| `DirectorySnapshots.ReportDeletedFiles` | spring-boot-project/spring-boot-devtools/src/main/java/org/springframework/boot/devtools/filewatch/DirectorySnapshot.java:112-116 | the second pass adds a DELETE for each accepted file left in the map, and nothing else |
| `DirectorySnapshots.DeletionsOfRemaining` | spring-boot-project/spring-boot-devtools/src/main/java/org/springframework/boot/devtools/filewatch/DirectorySnapshot.java:96-116 | the accepted files left after the first pass are exactly the older files the newer snapshot lacks |
| `DirectorySnapshots.TriggerFilesNeverReported` | spring-boot-project/spring-boot-devtools/src/main/java/org/springframework/boot/devtools/filewatch/DirectorySnapshot.java:96-122 | a file the trigger filter accepts is never reported |
| `DirectorySnapshots.ChangeFacts` | spring-boot-project/spring-boot-devtools/src/main/java/org/springframework/boot/devtools/filewatch/DirectorySnapshot.java:96-117 | a reported change bears the older snapshot's directory and an accepted path; ADD paths are only in the newer snapshot, DELETE paths only in the older, MODIFY paths in both with a different newer snapshot |
| `DirectorySnapshots.AddClassification` | spring-boot-project/spring-boot-devtools/src/main/java/org/springframework/boot/devtools/filewatch/DirectorySnapshot.java:100-104 | an accepted path only the newer snapshot has is reported ADD |
| `DirectorySnapshots.ModifyClassification` | spring-boot-project/spring-boot-devtools/src/main/java/org/springframework/boot/devtools/filewatch/DirectorySnapshot.java:105-108 | an accepted path both snapshots have, with different file snapshots, is reported MODIFY |
| `DirectorySnapshots.ModifiedFileReported` | spring-boot-project/spring-boot-devtools/src/main/java/org/springframework/boot/devtools/filewatch/DirectorySnapshot.java:100-108 | a newer accepted file whose path the older snapshot holds under another snapshot is not among the older files |
| `DirectorySnapshots.DeleteClassification` | spring-boot-project/spring-boot-devtools/src/main/java/org/springframework/boot/devtools/filewatch/DirectorySnapshot.java:112-116 | an accepted path only the older snapshot has is reported DELETE |
| `DirectorySnapshots.ReportedOnce` | spring-boot-project/spring-boot-devtools/src/main/java/org/springframework/boot/devtools/filewatch/DirectorySnapshot.java:96-116 | two reported changes of one path are the same change: no path is reported twice or with two kinds |
| `DirectorySnapshots.DiffBounded` | spring-boot-project/spring-boot-devtools/src/main/java/org/springframework/boot/devtools/filewatch/DirectorySnapshot.java:96-117 | the diff has no more entries than the union of both snapshots' paths |
| `DirectorySnapshots.IdenticalFilesNoChanges` | spring-boot-project/spring-boot-devtools/src/main/java/org/springframework/boot/devtools/filewatch/DirectorySnapshot.java:96-117 | snapshots with the same files yield no changes |
| `DirectorySnapshots.Filter` | spring-boot-project/spring-boot-devtools/src/main/java/org/springframework/boot/devtools/filewatch/DirectorySnapshot.java:160-174 | all files with no filter, otherwise exactly the accepted ones |
| `DirectorySnapshots.EqualsUnderFilter` | spring-boot-project/spring-boot-devtools/src/main/java/org/springframework/boot/devtools/filewatch/DirectorySnapshot.java:147-158 | filtered equality of snapshots of one directory holds exactly when they agree on every accepted file |
| `DirectorySnapshots.EqualIffNoChanges` | spring-boot-project/spring-boot-devtools/src/main/java/org/springframework/boot/devtools/filewatch/DirectorySnapshot.java:132-158 | without a filter, two snapshots of one directory are equal exactly when their diff is empty |
| `FileSystemWatchers.CheckIntervals` | spring-boot-project/spring-boot-devtools/src/main/java/org/springframework/boot/devtools/filewatch/FileSystemWatcher.java:120-125 | passes exactly when both intervals are present, the quiet period is at least a millisecond and the poll interval is longer in milliseconds; a missing poll interval is reported before a missing quiet period, then a poll interval under a millisecond, a quiet period under a millisecond and a poll interval not longer than the quiet period, each with its own error, in that order |
| `FileSystemWatchers.ScanBudget.constructor` | spring-boot-project/spring-boot-devtools/src/main/java/org/springframework/boot/devtools/filewatch/FileSystemWatcher.java:71 | the remaining scans start at -1, meaning unbounded |
| `FileSystemWatchers.SnapshotStateRepository.Discarding` | spring-boot-project/spring-boot-devtools/src/main/java/org/springframework/boot/devtools/filewatch/FileSystemWatcher.java:129-130 | the repository used when none is given keeps nothing |
| `FileSystemWatchers.SnapshotStateRepository.Save` | spring-boot-project/spring-boot-devtools/src/main/java/org/springframework/boot/devtools/filewatch/FileSystemWatcher.java:411 | a retaining repository then holds the saved snapshots; the other keeps what it had |
| `FileSystemWatchers.Snapshots` | spring-boot-project/spring-boot-devtools/src/main/java/org/springframework/boot/devtools/filewatch/FileSystemWatcher.java:376-385 | nothing exactly when some watched directory has become a regular file; otherwise one snapshot per watched directory, one entry per path |
| `FileSystemWatchers.Settle` | spring-boot-project/spring-boot-devtools/src/main/java/org/springframework/boot/devtools/filewatch/FileSystemWatcher.java:336-344 | settled snapshots cover the same directories; the sampling throws only when some sample finds a watched directory turned into a file, and never when none does |
| `FileSystemWatchers.Notify` | spring-boot-project/spring-boot-devtools/src/main/java/org/springframework/boot/devtools/filewatch/FileSystemWatcher.java:418-422 | one call per listener, in registration order, each with the whole change set |
| `FileSystemWatchers.ScansAllowed` | spring-boot-project/spring-boot-devtools/src/main/java/org/springframework/boot/devtools/filewatch/FileSystemWatcher.java:314-328 | scans run without bound while the budget is -1, at most the budget when it is positive, and not at all otherwise |
| `FileSystemWatchers.Watcher.constructor` | spring-boot-project/spring-boot-devtools/src/main/java/org/springframework/boot/devtools/filewatch/FileSystemWatcher.java:298-309 | the watcher holds the shared budget, the listeners, the filter, the repository and its own copy of the snapshots |
| `FileSystemWatchers.Watcher.Run` | spring-boot-project/spring-boot-devtools/src/main/java/org/springframework/boot/devtools/filewatch/FileSystemWatcher.java:311-329 | scans while the budget allows, taking one per scan from a positive budget; a scan that throws ends the thread, whose state is then that of the allowed rounds with the scans after the throw doing nothing |
| `FileSystemWatchers.Watcher.Scan` | spring-boot-project/spring-boot-devtools/src/main/java/org/springframework/boot/devtools/filewatch/FileSystemWatcher.java:331-349 | throws, changing nothing, exactly when the sampling meets a watched directory that is now a file, naming that directory; otherwise settles, then updates only on a difference from the baseline |
| `FileSystemWatchers.Watcher.GetCurrentSnapshots` | spring-boot-project/spring-boot-devtools/src/main/java/org/springframework/boot/devtools/filewatch/FileSystemWatcher.java:376-385 | takes `new DirectorySnapshot` of every watched directory; fails exactly when one has become a regular file, naming it; otherwise the snapshots `Snapshots` gives |
| `FileSystemWatchers.Watcher.IsDifferent` | spring-boot-project/spring-boot-devtools/src/main/java/org/springframework/boot/devtools/filewatch/FileSystemWatcher.java:354-371 | true exactly when the directory sets differ or some directory's snapshots are unequal under the trigger filter |
| `FileSystemWatchers.Watcher.UpdateSnapshots` | spring-boot-project/spring-boot-devtools/src/main/java/org/springframework/boot/devtools/filewatch/FileSystemWatcher.java:390-416 | the new snapshots become the baseline and are saved, and listeners hear of the non-empty diffs only when there is one |
| `FileSystemWatchers.Watcher.FireListeners` | spring-boot-project/spring-boot-devtools/src/main/java/org/springframework/boot/devtools/filewatch/FileSystemWatcher.java:418-422 | appends one notification per listener, in order |
| `FileSystemWatchers.InitialSnapshot` | spring-boot-project/spring-boot-devtools/src/main/java/org/springframework/boot/devtools/filewatch/FileSystemWatcher.java:216-222 | the restored snapshot when the repository holds one; otherwise a fresh snapshot, which fails exactly when the path is now a regular file |
| `FileSystemWatchers.InitialSnapshots` | spring-boot-project/spring-boot-devtools/src/main/java/org/springframework/boot/devtools/filewatch/FileSystemWatcher.java:216-222 | nothing exactly when some directory's initial snapshot cannot be taken; otherwise an initial snapshot for every watched directory |
| `FileSystemWatchers.FileSystemWatcher.constructor` | spring-boot-project/spring-boot-devtools/src/main/java/org/springframework/boot/devtools/filewatch/FileSystemWatcher.java:118-131 | a watcher with no listeners, no directories, no thread, no filter and an unbounded budget |
| `FileSystemWatchers.FileSystemWatcher.Create` | spring-boot-project/spring-boot-devtools/src/main/java/org/springframework/boot/devtools/filewatch/FileSystemWatcher.java:118-131 | fails exactly when the interval checks fail, with their error; otherwise keeps the intervals in milliseconds and the repository, or a discarding one when none is given |
| `FileSystemWatchers.FileSystemWatcher.AddListener` | spring-boot-project/spring-boot-devtools/src/main/java/org/springframework/boot/devtools/filewatch/FileSystemWatcher.java:139-145 | refused exactly once started; otherwise the listener is appended and nothing else changes |
| `FileSystemWatchers.FileSystemWatcher.AddSourceDirectory` | spring-boot-project/spring-boot-devtools/src/main/java/org/springframework/boot/devtools/filewatch/FileSystemWatcher.java:166-173 | a regular file is refused first, then any directory once started; otherwise the directory is registered without a snapshot |
| `FileSystemWatchers.FileSystemWatcher.SetTriggerFilter` | spring-boot-project/spring-boot-devtools/src/main/java/org/springframework/boot/devtools/filewatch/FileSystemWatcher.java:180-184 | sets the filter and nothing else |
| `FileSystemWatchers.FileSystemWatcher.Start` | spring-boot-project/spring-boot-devtools/src/main/java/org/springframework/boot/devtools/filewatch/FileSystemWatcher.java:195-222 | fails exactly when an unrestored directory has become a regular file, naming it, leaving each directory either as it was or refreshed and creating no watcher; otherwise every directory is refreshed and, when none runs, a watcher over copies of the state is created |
| `FileSystemWatchers.FileSystemWatcher.StopAfter` | spring-boot-project/spring-boot-devtools/src/main/java/org/springframework/boot/devtools/filewatch/FileSystemWatcher.java:236-261 | a running watcher's budget becomes the given count; the thread is dropped either way |
| `FileSystemWatchers.FileSystemWatcher.Stop` | spring-boot-project/spring-boot-devtools/src/main/java/org/springframework/boot/devtools/filewatch/FileSystemWatcher.java:227-229 | a running watcher's budget becomes 0 and the thread is dropped |
| `FileSystemWatchers.DiffersIrreflexive` | spring-boot-project/spring-boot-devtools/src/main/java/org/springframework/boot/devtools/filewatch/FileSystemWatcher.java:354-371 | snapshots never differ from themselves |
| `FileSystemWatchers.DiffersSymmetric` | spring-boot-project/spring-boot-devtools/src/main/java/org/springframework/boot/devtools/filewatch/FileSystemWatcher.java:354-371 | whether two sets of snapshots differ does not depend on their order |
| `FileSystemWatchers.SettleIsStable` | spring-boot-project/spring-boot-devtools/src/main/java/org/springframework/boot/devtools/filewatch/FileSystemWatcher.java:337-344 | a settled result is a sample that could be snapshot and equals, under the filter, the one taken just before it |
| `FileSystemWatchers.ThrownIsFinal` | spring-boot-project/spring-boot-devtools/src/main/java/org/springframework/boot/devtools/filewatch/FileSystemWatcher.java:311-329 | once a scan has thrown, later rounds change nothing: the watch thread has ended |
| `FileSystemWatchers.ScanThrowsOnlyForFiles` | spring-boot-project/spring-boot-devtools/src/main/java/org/springframework/boot/devtools/filewatch/FileSystemWatcher.java:331-385 | a scan throws only when one of its samples finds a watched directory turned into a file, and never when none does |
| `FileSystemWatchers.ChangeSetEntries` | spring-boot-project/spring-boot-devtools/src/main/java/org/springframework/boot/devtools/filewatch/FileSystemWatcher.java:396-407 | every published entry is the non-empty diff of one watched directory against its baseline |
| `FileSystemWatchers.ListenersSeeOnlyChanges` | spring-boot-project/spring-boot-devtools/src/main/java/org/springframework/boot/devtools/filewatch/FileSystemWatcher.java:409-415 | listeners are called only with a non-empty change set, once each, in registration order |
| `FileSystemWatchers.DiffersIffChanges` | spring-boot-project/spring-boot-devtools/src/main/java/org/springframework/boot/devtools/filewatch/FileSystemWatcher.java:346-347 | without a trigger filter, snapshots of the same directories differ exactly when some directory has changes to publish |
| `FileSystemWatchers.TriggerFilesOnlyTrigger` | spring-boot-project/spring-boot-devtools/src/main/java/org/springframework/boot/devtools/filewatch/FileSystemWatcher.java:331-349 | with a trigger filter, only accepted files decide whether a scan reacts, and the changes published never include them |
| `ClassPathFileChangeListeners.EventPublisher.PublishEvent` | spring-boot-project/spring-boot-devtools/src/main/java/org/springframework/boot/devtools/classpath/ClassPathFileChangeListener.java:74-75 | the event is appended to those published |
| `ClassPathFileChangeListeners.ClassPathFileChangeListener.constructor` | spring-boot-project/spring-boot-devtools/src/main/java/org/springframework/boot/devtools/classpath/ClassPathFileChangeListener.java:57-64 | keeps the publisher, the strategy and the watcher to stop |
| `ClassPathFileChangeListeners.ClassPathFileChangeListener.OnChange` | spring-boot-project/spring-boot-devtools/src/main/java/org/springframework/boot/devtools/classpath/ClassPathFileChangeListener.java:66-79 | publishes one event carrying the change set and the restart decision, and stops the watcher, when there is one, exactly when a restart is required |
| `ClassPathFileChangeListeners.ClassPathFileChangeListener.RestartRequired` | spring-boot-project/spring-boot-devtools/src/main/java/org/springframework/boot/devtools/classpath/ClassPathFileChangeListener.java:81-96 | false while an agent reloader is active; otherwise true exactly when some changed file of some directory satisfies the strategy |
| `ClassPathFileChangeListeners.IsRestartRequired` | spring-boot-project/spring-boot-devtools/src/main/java/org/springframework/boot/devtools/classpath/ClassPathFileChangeListener.java:81-95 | never with an active agent reloader or an empty change set; a restart needs some directory with changed files |
| `ClassPathFileChangeListeners.NoChangesNoRestart` | spring-boot-project/spring-boot-devtools/src/main/java/org/springframework/boot/devtools/classpath/ClassPathFileChangeListener.java:87-95 | an empty change set never calls for a restart |
| `ClassPathFileChangeListeners.RestartOverUnion` | spring-boot-project/spring-boot-devtools/src/main/java/org/springframework/boot/devtools/classpath/ClassPathFileChangeListener.java:87-95 | the decision over two parts is the disjunction of the decisions over each |
| `ClassPathFileChangeListeners.AgentNeverRestarts` | spring-boot-project/spring-boot-devtools/src/main/java/org/springframework/boot/devtools/classpath/ClassPathFileChangeListener.java:83-85 | with an active agent reloader nothing restarts |
| `ClassPathChangeUploaders.TypeMappingInjective` | spring-boot-project/spring-boot-devtools/src/main/java/org/springframework/boot/devtools/remote/client/ClassPathChangeUploader.java:63-69 | distinct change types map to distinct kinds |
| `ClassPathChangeUploaders.TypeMappingOnto` | spring-boot-project/spring-boot-devtools/src/main/java/org/springframework/boot/devtools/remote/client/ClassPathChangeUploader.java:63-69 | every kind of class loader file comes from some change type |
| `ClassPathChangeUploaders.AsClassLoaderFile` | spring-boot-project/spring-boot-devtools/src/main/java/org/springframework/boot/devtools/remote/client/ClassPathChangeUploader.java:173-178 | the kind is the mapped type; contents are absent exactly for a deletion, which carries the current time; any other file carries its bytes and modification time |
| `ClassPathChangeUploaders.GetClassLoaderFiles` | spring-boot-project/spring-boot-devtools/src/main/java/org/springframework/boot/devtools/remote/client/ClassPathChangeUploader.java:157-171 | an entry for exactly the relative names of the changed files, each held once whatever the directories it changed in, and each the converted form of a changed file of that name with that file's source directory |
| `ClassLoaderFiles.AddFile` | spring-boot-project/spring-boot-devtools/src/main/java/org/springframework/boot/devtools/remote/client/ClassPathChangeUploader.java:166-167 | the name is held once, under the given directory and as the given file; every other name is kept, and the size grows by one exactly when the name was new |
| `ClassLoaderFiles.AddFileTwice` | spring-boot-project/spring-boot-devtools/src/main/java/org/springframework/boot/devtools/remote/client/ClassPathChangeUploader.java:161-169 | adding a name again, from any directory, replaces the first addition and does not grow the collection |
| `ClassPathChangeUploaders.UploadMessage` | spring-boot-project/spring-boot-devtools/src/main/java/org/springframework/boot/devtools/remote/client/ClassPathChangeUploader.java:144-147 | the message starts with "Uploaded", the count and "class resource" |
| `ClassPathChangeUploaders.UploadMessagePlural` | spring-boot-project/spring-boot-devtools/src/main/java/org/springframework/boot/devtools/remote/client/ClassPathChangeUploader.java:146 | the plural is used exactly when the count is not one |
| `ClassPathChangeUploaders.NewUploader` | spring-boot-project/spring-boot-devtools/src/main/java/org/springframework/boot/devtools/remote/client/ClassPathChangeUploader.java:77-87 | an empty URL is refused first, then a malformed one; otherwise the uploader holds the parsed URI and the request factory |
| `RestartClassLoaders.ClassFilePath` | spring-boot-project/spring-boot-devtools/src/main/java/org/springframework/boot/devtools/restart/classloader/RestartClassLoader.java:138 | the resource path is the binary name with every '.' replaced by '/', followed by ".class" |
| `RestartClassLoaders.ClassFilePathHasNoDots` | spring-boot-project/spring-boot-devtools/src/main/java/org/springframework/boot/devtools/restart/classloader/RestartClassLoader.java:138 | the path holds no '.' before its suffix |
| `ClassLoaderFiles.GetFile` | spring-boot-project/spring-boot-devtools/src/main/java/org/springframework/boot/devtools/restart/classloader/RestartClassLoader.java:94-95 | a file exactly for a held name, whatever directory holds it, and the file held under it |
| `RestartClassLoaders.CreateFileUrl` | spring-boot-project/spring-boot-devtools/src/main/java/org/springframework/boot/devtools/restart/classloader/RestartClassLoader.java:197-204 | a "reloaded" URL whose path is "/" plus the name, served from the override file |
| `RestartClassLoaders.FindResource` | spring-boot-project/spring-boot-devtools/src/main/java/org/springframework/boot/devtools/restart/classloader/RestartClassLoader.java:123-133 | without an override, the loader's own resource; nothing for a deleted override; otherwise the override's URL |
| `RestartClassLoaders.GetResource` | spring-boot-project/spring-boot-devtools/src/main/java/org/springframework/boot/devtools/restart/classloader/RestartClassLoader.java:110-121 | nothing for a deleted override; otherwise this loader's resource, and the parent's only when this loader has none |
| `RestartClassLoaders.FindClass` | spring-boot-project/spring-boot-devtools/src/main/java/org/springframework/boot/devtools/restart/classloader/RestartClassLoader.java:166-185 | without an override, the class the own URLs hold; not found for a deleted override; otherwise the class defined from the override's bytes |
| `RestartClassLoaders.LoadClass` | spring-boot-project/spring-boot-devtools/src/main/java/org/springframework/boot/devtools/restart/classloader/RestartClassLoader.java:135-164 | not found for a deleted override; then an already loaded class; then `findClass`; the parent only when that finds nothing |
| `RestartClassLoaders.OverriddenClassIsDefinedFromBytes` | spring-boot-project/spring-boot-devtools/src/main/java/org/springframework/boot/devtools/restart/classloader/RestartClassLoader.java:135-185 | a class with added or modified bytes that is not loaded yet is defined from those bytes |
| `RestartClassLoaders.DeletedOverrideHides` | spring-boot-project/spring-boot-devtools/src/main/java/org/springframework/boot/devtools/restart/classloader/RestartClassLoader.java:110-185 | a deleted override hides the class and its resource whatever the URLs and the parent hold |
| `RestartClassLoaders.CompoundEnumeration.constructor` | spring-boot-project/spring-boot-devtools/src/main/java/org/springframework/boot/devtools/restart/classloader/RestartClassLoader.java:228-231 | holds the first element in front of the enumeration |
| `RestartClassLoaders.CompoundEnumeration.HasMoreElements` | spring-boot-project/spring-boot-devtools/src/main/java/org/springframework/boot/devtools/restart/classloader/RestartClassLoader.java:233-236 | true exactly when elements remain, the pending first one included |
| `RestartClassLoaders.CompoundEnumeration.NextElement` | spring-boot-project/spring-boot-devtools/src/main/java/org/springframework/boot/devtools/restart/classloader/RestartClassLoader.java:238-246 | answers the first of the remaining elements and drops it; the inner enumeration is not touched while the first element is pending |
| `RestartClassLoaders.ResourcesOf` | spring-boot-project/spring-boot-devtools/src/main/java/org/springframework/boot/devtools/restart/classloader/RestartClassLoader.java:89-108 | without an override, the parent's resources; with one, the parent's first resource is dropped, and the override's URL put in front unless it is deleted |
| `RestartClassLoaders.ResourcesReplaceFirst` | spring-boot-project/spring-boot-devtools/src/main/java/org/springframework/boot/devtools/restart/classloader/RestartClassLoader.java:97-105 | an override replaces at most the parent's first resource: the count grows by at most one, not at all when the parent has some, and the last parent resource stays last |
| `RestartClassLoaders.FirstResourceIsResource` | spring-boot-project/spring-boot-devtools/src/main/java/org/springframework/boot/devtools/restart/classloader/RestartClassLoader.java:89-121 | with a live override, the first element `getResources` enumerates is what `getResource` answers |
| `RestartClassLoaders.GetResources` | spring-boot-project/spring-boot-devtools/src/main/java/org/springframework/boot/devtools/restart/classloader/RestartClassLoader.java:89-108 | the enumeration returned yields exactly those resources, over the parent's own enumeration |
| `Restarters.AttemptsMade` | spring-boot-project/spring-boot-devtools/src/main/java/org/springframework/boot/devtools/restart/Restarter.java:424-435 | attempts continue up to and including the first that succeeds or is answered ABORT, and no further |
| `Restarters.NoneAttemptsOnce` | spring-boot-project/spring-boot-devtools/src/main/java/org/springframework/boot/devtools/restart/Restarter.java:322-331 | `FailureHandler.NONE` makes exactly one attempt |
| `Restarters.RetryUntilSuccess` | spring-boot-project/spring-boot-devtools/src/main/java/org/springframework/boot/devtools/restart/Restarter.java:424-435 | a handler that always retries makes attempts until the first success |
| `Restarters.ClosablePrefix` | spring-boot-project/spring-boot-devtools/src/main/java/org/springframework/boot/devtools/restart/Restarter.java:472-475 | the contexts closed before the first null one: all are present, and the prefix is shorter than the list exactly when a null is tracked |
| `Restarters.ObjectFactory.GetObject` | spring-boot-project/spring-boot-devtools/src/main/java/org/springframework/boot/devtools/restart/Restarter.java:618 | answers the product and counts the call |
| `Restarters.Restarter.constructor` | spring-boot-project/spring-boot-devtools/src/main/java/org/springframework/boot/devtools/restart/Restarter.java:160-177 | keeps the arguments, the initial URLs and the main class; no URLs, files, attributes or contexts; enabled and not finished |
| `Restarters.Restarter.InitializeInstance` | spring-boot-project/spring-boot-devtools/src/main/java/org/springframework/boot/devtools/restart/Restarter.java:307-320 | initial URLs join the URL set; an immediate restart then launches once when there is a main class; nothing else changes |
| `Restarters.Restarter.SetEnabled` | spring-boot-project/spring-boot-devtools/src/main/java/org/springframework/boot/devtools/restart/Restarter.java:360-362 | sets the flag and nothing else |
| `Restarters.Restarter.AddUrls` | spring-boot-project/spring-boot-devtools/src/main/java/org/springframework/boot/devtools/restart/Restarter.java:369-372 | the URL set ignores URLs it already holds and keeps insertion order |
| `Restarters.Restarter.AddClassLoaderFiles` | spring-boot-project/spring-boot-devtools/src/main/java/org/springframework/boot/devtools/restart/Restarter.java:379-382 | the override files accumulate by name: an added file replaces the one of the same name from any source directory, and the others stay |
| `ClassLoaderFiles.AddFiles` | spring-boot-project/spring-boot-devtools/src/main/java/org/springframework/boot/devtools/restart/Restarter.java:379-382 | the names are those of both; an added file replaces the one of the same name whatever its directory, and the others stay |
| `Restarters.Restarter.Restart` | spring-boot-project/spring-boot-devtools/src/main/java/org/springframework/boot/devtools/restart/Restarter.java:405-416 | nothing at all when restart is disabled (no launch, no context closed or untracked); otherwise stops the contexts, then launches as `start` does, failing on a null context or a missing main class |
| `Restarters.Restarter.Start` | spring-boot-project/spring-boot-devtools/src/main/java/org/springframework/boot/devtools/restart/Restarter.java:424-461 | fails without a main class; otherwise makes the attempts the handler allows, each with the URLs and override files held at the time |
| `Restarters.Restarter.Stop` | spring-boot-project/spring-boot-devtools/src/main/java/org/springframework/boot/devtools/restart/Restarter.java:468-485 | closes and stops tracking every context up to the first null one, and fails exactly when a null context is tracked |
| `Restarters.Restarter.Finish` | spring-boot-project/spring-boot-devtools/src/main/java/org/springframework/boot/devtools/restart/Restarter.java:569-576 | the first call replays the deferred log; afterwards the restarter is finished and the log has been replayed once |
| `Restarters.Restarter.Prepare` | spring-boot-project/spring-boot-devtools/src/main/java/org/springframework/boot/devtools/restart/Restarter.java:584-592 | a context with a parent is ignored; any other, null included, is tracked |
| `Restarters.Restarter.Remove` | spring-boot-project/spring-boot-devtools/src/main/java/org/springframework/boot/devtools/restart/Restarter.java:594-598 | stops tracking one occurrence of a non-null context |
| `Restarters.Restarter.GetOrAddAttribute` | spring-boot-project/spring-boot-devtools/src/main/java/org/springframework/boot/devtools/restart/Restarter.java:615-622 | asks the factory only for an absent name, stores its answer, and answers the stored value |
| `Restarters.Restarter.RemoveAttribute` | spring-boot-project/spring-boot-devtools/src/main/java/org/springframework/boot/devtools/restart/Restarter.java:624-628 | answers the stored value, or null when absent, and deletes the entry |
| `Restarters.AttributeCacheStable` | spring-boot-project/spring-boot-devtools/src/main/java/org/springframework/boot/devtools/restart/Restarter.java:615-622 | once stored, an attribute is answered again without calling the factory |
| `Restarters.RestarterHolder.GetInstance` | spring-boot-project/spring-boot-devtools/src/main/java/org/springframework/boot/devtools/restart/Restarter.java:271-276 | fails exactly before the first `initialize` |
| `Restarters.RestarterHolder.Initialize` | spring-boot-project/spring-boot-devtools/src/main/java/org/springframework/boot/devtools/restart/Restarter.java:249-263 | creates the restarter only when there is none, and only the creating call runs instance initialisation |
| `Restarters.RestarterHolder.Disable` | spring-boot-project/spring-boot-devtools/src/main/java/org/springframework/boot/devtools/restart/Restarter.java:183-186 | initialises without initial URLs when needed, then turns restarting off |
| `ErrorPageFilters.AddPage` | spring-boot-project/spring-boot/src/main/java/org/springframework/boot/web/servlet/support/ErrorPageFilter.java:309-318 | a global page sets only the global path; a page with a status goes only to the status table; any other only to the exception table, replacing what its key held |
| `ErrorPageFilters.StatusRegistered` | spring-boot-project/spring-boot/src/main/java/org/springframework/boot/web/servlet/support/ErrorPageFilter.java:305-320 | after registration a status is in the table iff it was before or some page registered it |
| `ErrorPageFilters.LastStatusPageWins` | spring-boot-project/spring-boot/src/main/java/org/springframework/boot/web/servlet/support/ErrorPageFilter.java:305-320 | the path stored for a status is the last page registered for it |
| `ErrorPageFilters.LastExceptionPageWins` | spring-boot-project/spring-boot/src/main/java/org/springframework/boot/web/servlet/support/ErrorPageFilter.java:305-320 | the path stored for an exception type is the last page registered for it |
| `ErrorPageFilters.GlobalUntouched` | spring-boot-project/spring-boot/src/main/java/org/springframework/boot/web/servlet/support/ErrorPageFilter.java:305-320 | pages that are not global leave the global path as it was |
| `ErrorPageFilters.LastGlobalPageWins` | spring-boot-project/spring-boot/src/main/java/org/springframework/boot/web/servlet/support/ErrorPageFilter.java:305-320 | the global path is the last global page's |
| `ErrorPageFilters.ErrorPageFilter.AddErrorPages` | spring-boot-project/spring-boot/src/main/java/org/springframework/boot/web/servlet/support/ErrorPageFilter.java:305-320 | the filter's tables become the pages registered one by one, in order, over the old tables |
| `ErrorPageFilters.StatusErrorPath` | spring-boot-project/spring-boot/src/main/java/org/springframework/boot/web/servlet/support/ErrorPageFilter.java:264-269 | the page registered for the status, otherwise the global page, which may be absent |
| `ErrorPageFilters.FirstRegistered` | spring-boot-project/spring-boot/src/main/java/org/springframework/boot/web/servlet/support/ErrorPageFilter.java:271-280 | the nearest class on the superclass chain with a page: every class before it has none |
| `ErrorPageFilters.ErrorPageFilter.ExceptionErrorPath` | spring-boot-project/spring-boot/src/main/java/org/springframework/boot/web/servlet/support/ErrorPageFilter.java:271-280 | the page of the nearest registered class on the superclass chain below `Object`, otherwise the global page |
| `ErrorPageFilters.ErrorPageFilter.HandleExceptionOf` | spring-boot-project/spring-boot/src/main/java/org/springframework/boot/web/servlet/support/ErrorPageFilter.java:188-201 | handles the exception with the page `getErrorPath` finds for its class: forwarded to its own class's page unless committed, rethrown when neither its classes nor the global page have one |
| `ErrorPageFilters.CauseChain` | spring-boot-project/spring-boot/src/main/java/org/springframework/boot/web/servlet/support/ErrorPageFilter.java:261 | the throwable comes first, followed by its causes |
| `ErrorPageFilters.IsClientAbortException` | spring-boot-project/spring-boot/src/main/java/org/springframework/boot/web/servlet/support/ErrorPageFilter.java:252-262 | false for null; true when the throwable is itself of a client-abort type (its causes: `ClientAbortAlongCauses`) |
| `ErrorPageFilters.ClientAbortAlongCauses` | spring-boot-project/spring-boot/src/main/java/org/springframework/boot/web/servlet/support/ErrorPageFilter.java:252-262 | a client abort is detected exactly when the throwable or one of its transitive causes has a client-abort type |
| `ErrorPageFilters.GetDescription` | spring-boot-project/spring-boot/src/main/java/org/springframework/boot/web/servlet/support/ErrorPageFilter.java:227-230 | the servlet path followed by the path info, an absent one counting as empty, inside square brackets |
| `ErrorPageFilters.HandleCommittedResponse` | spring-boot-project/spring-boot/src/main/java/org/springframework/boot/web/servlet/support/ErrorPageFilter.java:232-250 | a client abort is ignored exactly when one is detected; anything else is logged |
| `ErrorPageFilters.HandleErrorStatus` | spring-boot-project/spring-boot/src/main/java/org/springframework/boot/web/servlet/support/ErrorPageFilter.java:166-186 | a committed response is not forwarded; without a page the error goes to the container; otherwise the status is set and the request forwarded to the page |
| `ErrorPageFilters.RethrowAction` | spring-boot-project/spring-boot/src/main/java/org/springframework/boot/web/servlet/support/ErrorPageFilter.java:288-302 | the throwable is rethrown as it is exactly when it is a runtime exception, an error, an I/O or a servlet exception; otherwise it is wrapped |
| `ErrorPageFilters.HandleException` | spring-boot-project/spring-boot/src/main/java/org/springframework/boot/web/servlet/support/ErrorPageFilter.java:188-201 | no page rethrows; a committed response is handled as committed; otherwise a forward to the page; so an exception is always rethrown, forwarded or logged, and ignored only when it is a client abort |
| `ErrorPageFilters.ErrorPageFilter.constructor` | spring-boot-project/spring-boot/src/main/java/org/springframework/boot/web/servlet/support/ErrorPageFilter.java:93-101 | empty tables and no global page |
| `ErrorPageFilters.HttpResponse.SendError` | spring-boot-project/spring-boot/src/main/java/org/springframework/boot/web/servlet/support/ErrorPageFilter.java:177 | the error is sent and commits the response |
| `ErrorPageFilters.ErrorWrapperResponse.constructor` | spring-boot-project/spring-boot/src/main/java/org/springframework/boot/web/servlet/support/ErrorPageFilter.java:345-349 | nothing recorded yet |
| `ErrorPageFilters.ErrorWrapperResponse.SendError` | spring-boot-project/spring-boot/src/main/java/org/springframework/boot/web/servlet/support/ErrorPageFilter.java:357-363 | records the status and message and marks an error pending, leaving the real response untouched |
| `ErrorPageFilters.ErrorWrapperResponse.SendErrorStatus` | spring-boot-project/spring-boot/src/main/java/org/springframework/boot/web/servlet/support/ErrorPageFilter.java:352-354 | records the status with no message |
| `ErrorPageFilters.ErrorWrapperResponse.GetStatus` | spring-boot-project/spring-boot/src/main/java/org/springframework/boot/web/servlet/support/ErrorPageFilter.java:365-372 | the recorded status once an error has been recorded, the wrapped response's before; `sendError` makes it the status sent |
| `ErrorPageFilters.ErrorWrapperResponse.SendErrorIfNecessary` | spring-boot-project/spring-boot/src/main/java/org/springframework/boot/web/servlet/support/ErrorPageFilter.java:380-384 | the pending error reaches the real response exactly when one is recorded and the response is not committed |
| `ErrorPageFilters.ErrorWrapperResponse.FlushBuffer` | spring-boot-project/spring-boot/src/main/java/org/springframework/boot/web/servlet/support/ErrorPageFilter.java:375-378 | any pending error goes out first, then the response is committed |
| `EndpointDiscoverers.OperationKeyEquality` | spring-boot-project/spring-boot-actuator/src/main/java/org/springframework/boot/actuate/endpoint/annotation/EndpointDiscoverer.java:448-462 | key equality is reflexive, symmetric and transitive, agrees with the hash, and ignores the description |
| `EndpointDiscoverers.GetLast` | spring-boot-project/spring-boot-actuator/src/main/java/org/springframework/boot/actuate/endpoint/annotation/EndpointDiscoverer.java:278-280 | nothing for an empty list; otherwise its last element |
| `EndpointDiscoverers.WithoutLast` | spring-boot-project/spring-boot-actuator/src/main/java/org/springframework/boot/actuate/endpoint/annotation/EndpointDiscoverer.java:271 | removing the last element shortens a non-empty list by one |
| `EndpointDiscoverers.WithoutLastDistinct` | spring-boot-project/spring-boot-actuator/src/main/java/org/springframework/boot/actuate/endpoint/annotation/EndpointDiscoverer.java:271 | with distinct operations, removing the last one drops exactly the final position |
| `EndpointDiscoverers.KeyListAfterAddOps` | spring-boot-project/spring-boot-actuator/src/main/java/org/springframework/boot/actuate/endpoint/annotation/EndpointDiscoverer.java:256-276 | per key, the operations are appended in order; when replacing, the list the key held before the call first loses its last operation, once |
| `EndpointDiscoverers.AddOpsWellIndexed` | spring-boot-project/spring-boot-actuator/src/main/java/org/springframework/boot/actuate/endpoint/annotation/EndpointDiscoverer.java:256-276 | every key is listed once, each listed key has a list, and no list is empty |
| `EndpointDiscoverers.AddOperations` | spring-boot-project/spring-boot-actuator/src/main/java/org/springframework/boot/actuate/endpoint/annotation/EndpointDiscoverer.java:256-276 | the loop indexes the operations one by one as the per-operation step says |
| `EndpointDiscoverers.DuplicateKeys` | spring-boot-project/spring-boot-actuator/src/main/java/org/springframework/boot/actuate/endpoint/annotation/EndpointDiscoverer.java:282-285 | no duplicates are reported exactly when every key holds at most one operation |
| `EndpointDiscoverers.LastOfEach` | spring-boot-project/spring-boot-actuator/src/main/java/org/springframework/boot/actuate/endpoint/annotation/EndpointDiscoverer.java:250-251 | the last operation of each key, in key order |
| `EndpointDiscoverers.FilterEndpoint` | spring-boot-project/spring-boot-actuator/src/main/java/org/springframework/boot/actuate/endpoint/annotation/EndpointDiscoverer.java:373-381 | the filter endpoint carries the bean's id and no operations |
| `EndpointDiscoverers.EndpointFiltered` | spring-boot-project/spring-boot-actuator/src/main/java/org/springframework/boot/actuate/endpoint/annotation/EndpointDiscoverer.java:331-338 | filtered exactly when some configured filter does not match the bean's filter endpoint |
| `EndpointDiscoverers.FilteredNeverExposed` | spring-boot-project/spring-boot-actuator/src/main/java/org/springframework/boot/actuate/endpoint/annotation/EndpointDiscoverer.java:313-316 | a filtered endpoint bean is never exposed |
| `EndpointDiscoverers.CreateEndpointBean` | spring-boot-project/spring-boot-actuator/src/main/java/org/springframework/boot/actuate/endpoint/annotation/EndpointDiscoverer.java:504-516 | fails for an `@Endpoint` id without text, then for one `EndpointId.of` refuses; otherwise a bean with the id `EndpointId.of` makes, its name and no extensions |
| `EndpointDiscoverers.CreateExtensionBean` | spring-boot-project/spring-boot-actuator/src/main/java/org/springframework/boot/actuate/endpoint/annotation/EndpointDiscoverer.java:587-599 | fails when the endpoint type carries no `@Endpoint`, then when `EndpointId.of` refuses its id; otherwise an extension bean naming the id `EndpointId.of` makes |
| `EndpointDiscoverers.IndexOfId` | spring-boot-project/spring-boot-actuator/src/main/java/org/springframework/boot/actuate/endpoint/annotation/EndpointDiscoverer.java:176-177 | the first bean whose id is equal, as `EndpointId.equals` compares, to the one looked up: no bean before it has such an id |
| `EndpointDiscoverers.EndpointBeansSucceed` | spring-boot-project/spring-boot-actuator/src/main/java/org/springframework/boot/actuate/endpoint/annotation/EndpointDiscoverer.java:144-163 | succeeds exactly when every non-scoped definition has an id with text that `EndpointId.of` accepts and no two of those ids are equal as `EndpointId.equals` compares them; then the beans of those definitions, in order |
| `EndpointDiscoverers.EqualIdsRejected` | spring-boot-project/spring-boot-actuator/src/main/java/org/springframework/boot/actuate/endpoint/annotation/EndpointDiscoverer.java:146-160 | two non-scoped endpoint beans whose ids are equal as `EndpointId.equals` compares them make creation fail, whatever the text they were written with |
| `EndpointDiscoverers.EndpointBeansFailurePersists` | spring-boot-project/spring-boot-actuator/src/main/java/org/springframework/boot/actuate/endpoint/annotation/EndpointDiscoverer.java:151-161 | a failure met on a prefix of the definitions is the failure of the whole |
| `EndpointDiscoverers.CreateEndpointBeans` | spring-boot-project/spring-boot-actuator/src/main/java/org/springframework/boot/actuate/endpoint/annotation/EndpointDiscoverer.java:144-163 | the loop produces the beans or the first error the specification gives |
| `EndpointDiscoverers.ExtendBean` | spring-boot-project/spring-boot-actuator/src/main/java/org/springframework/boot/actuate/endpoint/annotation/EndpointDiscoverer.java:203-212 | an exposed extension on an endpoint bean that is neither exposed nor filtered is rejected; the ids stay the same |
| `EndpointDiscoverers.ExtensionWithoutEndpointRejected` | spring-boot-project/spring-boot-actuator/src/main/java/org/springframework/boot/actuate/endpoint/annotation/EndpointDiscoverer.java:186-188 | an extension whose bean cannot be created, or whose endpoint id equals no endpoint bean's, makes the whole step fail |
| `EndpointDiscoverers.ExtendedKeepsIds` | spring-boot-project/spring-boot-actuator/src/main/java/org/springframework/boot/actuate/endpoint/annotation/EndpointDiscoverer.java:174-192 | adding extensions never changes which beans there are |
| `EndpointDiscoverers.ExtendedFailurePersists` | spring-boot-project/spring-boot-actuator/src/main/java/org/springframework/boot/actuate/endpoint/annotation/EndpointDiscoverer.java:182-191 | a failure met on a prefix of the extensions is the failure of the whole |
| `EndpointDiscoverers.ExtendedBeansContents` | spring-boot-project/spring-boot-actuator/src/main/java/org/springframework/boot/actuate/endpoint/annotation/EndpointDiscoverer.java:174-212 | on success, each bean gains exactly its own exposed extensions, in order, and nothing else about it changes |
| `EndpointDiscoverers.ExtendBeanAt` | spring-boot-project/spring-boot-actuator/src/main/java/org/springframework/boot/actuate/endpoint/annotation/EndpointDiscoverer.java:203-212 | only the bean given gains the extension, and only when the extension is exposed |
| `EndpointDiscoverers.SameFilteringAfterExtending` | spring-boot-project/spring-boot-actuator/src/main/java/org/springframework/boot/actuate/endpoint/annotation/EndpointDiscoverer.java:295-316 | whether an extension or endpoint is exposed does not depend on the bean's extensions |
| `EndpointDiscoverers.AddExtensionBeans` | spring-boot-project/spring-boot-actuator/src/main/java/org/springframework/boot/actuate/endpoint/annotation/EndpointDiscoverer.java:174-192 | the loop creates each extension bean and adds it to the endpoint bean with an equal id, as the specification says |
| `EndpointDiscoverers.MultipleExtensionsRejected` | spring-boot-project/spring-boot-actuator/src/main/java/org/springframework/boot/actuate/endpoint/annotation/EndpointDiscoverer.java:236-241 | an endpoint bean with more than one extension is rejected, naming its extensions |
| `EndpointDiscoverers.MergedKeyList` | spring-boot-project/spring-boot-actuator/src/main/java/org/springframework/boot/actuate/endpoint/annotation/EndpointDiscoverer.java:228-246 | per key, the bean's operations, or, when the extension has some, the bean's without its last one followed by the extension's |
| `EndpointDiscoverers.MergedWellIndexed` | spring-boot-project/spring-boot-actuator/src/main/java/org/springframework/boot/actuate/endpoint/annotation/EndpointDiscoverer.java:228-246 | the merged index is well formed |
| `EndpointDiscoverers.ConvertedOperations` | spring-boot-project/spring-boot-actuator/src/main/java/org/springframework/boot/actuate/endpoint/annotation/EndpointDiscoverer.java:228-254 | a converted endpoint has at most one extension and exactly one operation per merged key, in key order |
| `EndpointDiscoverers.ConvertToEndpoint` | spring-boot-project/spring-boot-actuator/src/main/java/org/springframework/boot/actuate/endpoint/annotation/EndpointDiscoverer.java:228-254 | bean operations, then extension operations, the duplicate check, then the last operation of each key |
| `EndpointDiscoverers.EndpointsFailurePersists` | spring-boot-project/spring-boot-actuator/src/main/java/org/springframework/boot/actuate/endpoint/annotation/EndpointDiscoverer.java:218-224 | a failure met on a prefix of the beans is the failure of the whole |
| `EndpointDiscoverers.EndpointsOfExposed` | spring-boot-project/spring-boot-actuator/src/main/java/org/springframework/boot/actuate/endpoint/annotation/EndpointDiscoverer.java:214-226 | succeeds exactly when every exposed bean converts; then one endpoint per exposed bean, in bean order, and none for a bean that is not exposed |
| `EndpointDiscoverers.ConvertToEndpoints` | spring-boot-project/spring-boot-actuator/src/main/java/org/springframework/boot/actuate/endpoint/annotation/EndpointDiscoverer.java:214-226 | the loop converts the exposed beans in order |
| `EndpointDiscoverers.EndpointDiscoverer.constructor` | spring-boot-project/spring-boot-actuator/src/main/java/org/springframework/boot/actuate/endpoint/annotation/EndpointDiscoverer.java:89-93 | nothing discovered and no filter endpoints cached |
| `EndpointDiscoverers.EndpointDiscoverer.GetEndpoints` | spring-boot-project/spring-boot-actuator/src/main/java/org/springframework/boot/actuate/endpoint/annotation/EndpointDiscoverer.java:127-133 | discovers only while nothing is cached and caches what was discovered; afterwards answers the cache |
| `EndpointDiscoverers.EndpointDiscoverer.DiscoverEndpoints` | spring-boot-project/spring-boot-actuator/src/main/java/org/springframework/boot/actuate/endpoint/annotation/EndpointDiscoverer.java:135-142 | endpoint beans, then their extensions, then the exposed endpoints |
| `EndpointDiscoverers.EndpointDiscoverer.GetFilterEndpoint` | spring-boot-project/spring-boot-actuator/src/main/java/org/springframework/boot/actuate/endpoint/annotation/EndpointDiscoverer.java:373-381 | created on first use for a bean and cached; taken from the cache afterwards |
| `WebMvcEndpointHandlerMappings.ReplaceAbsent` | spring-boot-project/spring-boot-actuator/src/main/java/org/springframework/boot/actuate/endpoint/web/servlet/AbstractWebMvcEndpointHandlerMapping.java:187 | replacing a pattern that does not occur changes nothing |
| `WebMvcEndpointHandlerMappings.RewritePath` | spring-boot-project/spring-boot-actuator/src/main/java/org/springframework/boot/actuate/endpoint/web/servlet/AbstractWebMvcEndpointHandlerMapping.java:183-188 | the path unchanged without a match-all variable, and never longer than the path |
| `WebMvcEndpointHandlerMappings.ReplaceAfterPrefix` | spring-boot-project/spring-boot-actuator/src/main/java/org/springframework/boot/actuate/endpoint/web/servlet/AbstractWebMvcEndpointHandlerMapping.java:187 | a prefix holding no character that starts the pattern is copied unchanged |
| `WebMvcEndpointHandlerMappings.PathWithoutVariableUnchanged` | spring-boot-project/spring-boot-actuator/src/main/java/org/springframework/boot/actuate/endpoint/web/servlet/AbstractWebMvcEndpointHandlerMapping.java:184-188 | without a match-all variable the path is registered as it is |
| `WebMvcEndpointHandlerMappings.PathWithoutCaptureUnchanged` | spring-boot-project/spring-boot-actuator/src/main/java/org/springframework/boot/actuate/endpoint/web/servlet/AbstractWebMvcEndpointHandlerMapping.java:186-188 | a path that never names the variable as "{*v}" is registered as it is |
| `WebMvcEndpointHandlerMappings.TrailingCaptureBecomesWildcard` | spring-boot-project/spring-boot-actuator/src/main/java/org/springframework/boot/actuate/endpoint/web/servlet/AbstractWebMvcEndpointHandlerMapping.java:186-188 | a trailing "/{*v}" for the match-all variable v becomes "/**" |
| `WebMvcEndpointHandlerMappings.MappingsOfOperations` | spring-boot-project/spring-boot-actuator/src/main/java/org/springframework/boot/actuate/endpoint/web/servlet/AbstractWebMvcEndpointHandlerMapping.java:148-151 | one mapping per operation of the endpoint |
| `WebMvcEndpointHandlerMappings.OneMappingPerOperation` | spring-boot-project/spring-boot-actuator/src/main/java/org/springframework/boot/actuate/endpoint/web/servlet/AbstractWebMvcEndpointHandlerMapping.java:144-152 | as many operation mappings as operations across all endpoints |
| `WebMvcEndpointHandlerMappings.EndpointHandlerMapping.constructor` | spring-boot-project/spring-boot-actuator/src/main/java/org/springframework/boot/actuate/endpoint/web/servlet/AbstractWebMvcEndpointHandlerMapping.java:144-158 | nothing registered yet |
| `WebMvcEndpointHandlerMappings.EndpointHandlerMapping.RegisterMappingForOperation` | spring-boot-project/spring-boot-actuator/src/main/java/org/springframework/boot/actuate/endpoint/web/servlet/AbstractWebMvcEndpointHandlerMapping.java:178-195 | the operation's mapping, under the rewritten sub-path, is appended to what is registered |
| `WebMvcEndpointHandlerMappings.EndpointHandlerMapping.InitHandlerMethods` | spring-boot-project/spring-boot-actuator/src/main/java/org/springframework/boot/actuate/endpoint/web/servlet/AbstractWebMvcEndpointHandlerMapping.java:144-158 | every operation's mapping endpoint by endpoint, then the links mapping at the root exactly when it is wanted |
| `WebMvcEndpointHandlerMappings.TokensAreSegments` | spring-boot-project/spring-boot-actuator/src/main/java/org/springframework/boot/actuate/endpoint/web/servlet/AbstractWebMvcEndpointHandlerMapping.java:362 | every token is non-empty and holds no slash |
| `WebMvcEndpointHandlerMappings.TokensOfSegment` | spring-boot-project/spring-boot-actuator/src/main/java/org/springframework/boot/actuate/endpoint/web/servlet/AbstractWebMvcEndpointHandlerMapping.java:362 | a single segment is a single token |
| `WebMvcEndpointHandlerMappings.TokensAppendSegment` | spring-boot-project/spring-boot-actuator/src/main/java/org/springframework/boot/actuate/endpoint/web/servlet/AbstractWebMvcEndpointHandlerMapping.java:362 | a further segment after a slash is one more token |
| `WebMvcEndpointHandlerMappings.TokensOfJoin` | spring-boot-project/spring-boot-actuator/src/main/java/org/springframework/boot/actuate/endpoint/web/servlet/AbstractWebMvcEndpointHandlerMapping.java:362 | tokenizing non-empty, slash-free segments joined with slashes gives back the segments |
| `WebMvcEndpointHandlerMappings.Decoded` | spring-boot-project/spring-boot-actuator/src/main/java/org/springframework/boot/actuate/endpoint/web/servlet/AbstractWebMvcEndpointHandlerMapping.java:363-369 | as many segments as tokens |
| `WebMvcEndpointHandlerMappings.Tokenize` | spring-boot-project/spring-boot-actuator/src/main/java/org/springframework/boot/actuate/endpoint/web/servlet/AbstractWebMvcEndpointHandlerMapping.java:360-371 | the tokens of the attribute, each decoded exactly when decoding is asked for and it holds '%' |
| `WebMvcEndpointHandlerMappings.PlainSegmentsKept` | spring-boot-project/spring-boot-actuator/src/main/java/org/springframework/boot/actuate/endpoint/web/servlet/AbstractWebMvcEndpointHandlerMapping.java:363-369 | segments without '%' are never decoded, and nothing is decoded when not asked |
| `WebMvcEndpointHandlerMappings.RemainingSegments` | spring-boot-project/spring-boot-actuator/src/main/java/org/springframework/boot/actuate/endpoint/web/servlet/AbstractWebMvcEndpointHandlerMapping.java:349-358 | the path tokens from the pattern's last token onwards; fails when the path has fewer tokens than the pattern less one |
| `WebMvcEndpointHandlerMappings.ParameterValue` | spring-boot-project/spring-boot-actuator/src/main/java/org/springframework/boot/actuate/endpoint/web/servlet/AbstractWebMvcEndpointHandlerMapping.java:345 | a parameter with exactly one value passes it as text; any other count passes the list |
| `WebMvcEndpointHandlerMappings.LastParameterWins` | spring-boot-project/spring-boot-actuator/src/main/java/org/springframework/boot/actuate/endpoint/web/servlet/AbstractWebMvcEndpointHandlerMapping.java:344-345 | the last parameter entry with a name decides its argument |
| `WebMvcEndpointHandlerMappings.ParameterNames` | spring-boot-project/spring-boot-actuator/src/main/java/org/springframework/boot/actuate/endpoint/web/servlet/AbstractWebMvcEndpointHandlerMapping.java:344-345 | a name has an argument exactly when some parameter entry has that name |
| `WebMvcEndpointHandlerMappings.ArgumentPrecedence` | spring-boot-project/spring-boot-actuator/src/main/java/org/springframework/boot/actuate/endpoint/web/servlet/AbstractWebMvcEndpointHandlerMapping.java:334-347 | parameters override the POST body, which overrides the remaining segments, which override the template variables; a key none of them has is absent |
| `WebMvcEndpointHandlerMappings.GetArguments` | spring-boot-project/spring-boot-actuator/src/main/java/org/springframework/boot/actuate/endpoint/web/servlet/AbstractWebMvcEndpointHandlerMapping.java:334-358 | the arguments from the template variables, the remaining segments when there is a match-all variable, the body only for POST, then the parameters; fails only when the remaining segments cannot be extracted, with that failure |
| `WebMvcEndpointHandlerMappings.PutParameters` | spring-boot-project/spring-boot-actuator/src/main/java/org/springframework/boot/actuate/endpoint/web/servlet/AbstractWebMvcEndpointHandlerMapping.java:344-345 | the loop puts every parameter over the arguments, later names winning |
| `WebMvcEndpointHandlerMappings.HandleResult` | spring-boot-project/spring-boot-actuator/src/main/java/org/springframework/boot/actuate/endpoint/web/servlet/AbstractWebMvcEndpointHandlerMapping.java:378-388 | no result is an empty 404 for GET and an empty 204 otherwise; a `WebEndpointResponse` gives its status and body; anything else passes as it is |
| `WebMvcEndpointHandlerMappings.EmptyEntityOnlyForNoResult` | spring-boot-project/spring-boot-actuator/src/main/java/org/springframework/boot/actuate/endpoint/web/servlet/AbstractWebMvcEndpointHandlerMapping.java:378-388 | an entity without a body comes only from a missing result or an empty response, and a missing result is 404 or 204 |
| `WebMvcEndpointHandlerMappings.Handle` | spring-boot-project/spring-boot-actuator/src/main/java/org/springframework/boot/actuate/endpoint/web/servlet/AbstractWebMvcEndpointHandlerMapping.java:310-327 | for every operation: a failure to build the arguments is passed on; otherwise the invocation's result goes through `handleResult`, and an invalid-request failure becomes a 400 BAD_REQUEST with its reason |
| `OperationMethodParameters.IsMandatory` | spring-boot-project/spring-boot-actuator/src/main/java/org/springframework/boot/actuate/endpoint/invoke/reflect/OperationMethodParameter.java:70-76 | a `@Nullable` parameter is optional; without JSR-305 any other is mandatory |
| `OperationMethodParameters.OptionalWithJsr305` | spring-boot-project/spring-boot-actuator/src/main/java/org/springframework/boot/actuate/endpoint/invoke/reflect/OperationMethodParameter.java:70-88 | with JSR-305, optional exactly when `@Nullable` or when `@Nonnull` has a `when` other than ALWAYS |
| `OperationMethodParameters.Jsr305OnlyRelaxes` | spring-boot-project/spring-boot-actuator/src/main/java/org/springframework/boot/actuate/endpoint/invoke/reflect/OperationMethodParameter.java:70-88 | JSR-305 on the class path can only make parameters optional |
| `OperationMethodParameters.ToString` | spring-boot-project/spring-boot-actuator/src/main/java/org/springframework/boot/actuate/endpoint/invoke/reflect/OperationMethodParameter.java:78-81 | the name, then " of type ", then the type's name |
| `OperationMethodParameters.ToStringDeterminesType` | spring-boot-project/spring-boot-actuator/src/main/java/org/springframework/boot/actuate/endpoint/invoke/reflect/OperationMethodParameter.java:78-81 | two parameters with the same name print alike only if their types have the same name |
| `CachingOperationInvokerAdvisors.HasMandatoryParameter` | spring-boot-project/spring-boot-actuator/src/main/java/org/springframework/boot/actuate/endpoint/invoker/cache/CachingOperationInvokerAdvisor.java:61-71 | true exactly when some parameter is mandatory and is neither an `ApiVersion` nor a `SecurityContext` |
| `CachingOperationInvokerAdvisors.Apply` | spring-boot-project/spring-boot-actuator/src/main/java/org/springframework/boot/actuate/endpoint/invoker/cache/CachingOperationInvokerAdvisor.java:44-56 | a non-read operation, or one with a mandatory parameter, keeps its invoker |
| `CachingOperationInvokerAdvisors.CachingIff` | spring-boot-project/spring-boot-actuator/src/main/java/org/springframework/boot/actuate/endpoint/invoker/cache/CachingOperationInvokerAdvisor.java:44-56 | the invoker is wrapped with exactly the configured time to live iff the operation reads, no parameter prevents caching and the time to live is set and positive |
| `CachingOperationInvokerAdvisors.SuppliedParametersAllowCaching` | spring-boot-project/spring-boot-actuator/src/main/java/org/springframework/boot/actuate/endpoint/invoker/cache/CachingOperationInvokerAdvisor.java:61-71 | optional parameters and supplied `ApiVersion` or `SecurityContext` ones never prevent caching |
| `CachingOperationInvokerAdvisors.MandatoryParameterDisablesCaching` | spring-boot-project/spring-boot-actuator/src/main/java/org/springframework/boot/actuate/endpoint/invoker/cache/CachingOperationInvokerAdvisor.java:44-71 | one mandatory parameter of another type disables caching whatever the time to live |
| `DataSourceInitializerInvokers.DataSourceInitializerInvoker.constructor` | spring-boot-project/spring-boot-autoconfigure/src/main/java/org/springframework/boot/autoconfigure/jdbc/DataSourceInitializerInvoker.java:56-67 | no initializer yet, not initialized, nothing run |
| `DataSourceInitializerInvokers.DataSourceInitializerInvoker.GetDataSourceInitializer` | spring-boot-project/spring-boot-autoconfigure/src/main/java/org/springframework/boot/autoconfigure/jdbc/DataSourceInitializerInvoker.java:111-119 | created on first use only when the data source is unique, then reused; nothing else changes |
| `DataSourceInitializerInvokers.DataSourceInitializerInvoker.AfterPropertiesSet` | spring-boot-project/spring-boot-autoconfigure/src/main/java/org/springframework/boot/autoconfigure/jdbc/DataSourceInitializerInvoker.java:69-82 | the schema is created only with a unique data source; when it was created and the event could be published, the invoker is initialized |
| `DataSourceInitializerInvokers.DataSourceInitializerInvoker.Initialize` | spring-boot-project/spring-boot-autoconfigure/src/main/java/org/springframework/boot/autoconfigure/jdbc/DataSourceInitializerInvoker.java:84-98 | publishes the event, then runs the data scripts unless that already happened; a failed publication changes nothing |
| `DataSourceInitializerInvokers.DataSourceInitializerInvoker.OnApplicationEvent` | spring-boot-project/spring-boot-autoconfigure/src/main/java/org/springframework/boot/autoconfigure/jdbc/DataSourceInitializerInvoker.java:100-109 | runs the data scripts when an initializer exists and they have not run; initialized afterwards iff it was before or the data source is unique |
| `DataSourceInitializerInvokers.RunSteps` | spring-boot-project/spring-boot-autoconfigure/src/main/java/org/springframework/boot/autoconfigure/jdbc/DataSourceInitializerInvoker.java:69-109 | over any sequence of initialisations and events the data scripts run at most once, and never without a unique data source |
| `RandomPortPostProcessors.SourcePropertyAsInteger` | spring-boot-project/spring-boot-test/src/main/java/org/springframework/boot/test/web/SpringBootTestRandomPortEnvironmentPostProcessor.java:84-102 | nothing for an absent property; an integer as it is; any other value as the conversion answers; a text whose conversion throws is converted again with its placeholders resolved, while any other value's conversion failure is passed on |
| `RandomPortPostProcessors.ResolvedValue` | spring-boot-project/spring-boot-test/src/main/java/org/springframework/boot/test/web/SpringBootTestRandomPortEnvironmentPostProcessor.java:104-107 | a failure to resolve the placeholders is passed on; otherwise the resolved text as the conversion answers |
| `RandomPortPostProcessors.EnvironmentPropertyAsInteger` | spring-boot-project/spring-boot-test/src/main/java/org/springframework/boot/test/web/SpringBootTestRandomPortEnvironmentPostProcessor.java:77-82 | the default when no non-inlined source yields a value or throws; a conversion failure comes from a non-inlined source that throws it |
| `RandomPortPostProcessors.FirstSourceWins` | spring-boot-project/spring-boot-test/src/main/java/org/springframework/boot/test/web/SpringBootTestRandomPortEnvironmentPostProcessor.java:77-82 | the lookup answers what the first non-inlined source with a value or a failure gives, and never converts the sources after it |
| `RandomPortPostProcessors.FindSource` | spring-boot-project/spring-boot-test/src/main/java/org/springframework/boot/test/web/SpringBootTestRandomPortEnvironmentPostProcessor.java:47-48 | the position of the first source with the name, and none exactly when no source has it |
| `RandomPortPostProcessors.NothingChangesUnlessRandomServerPort` | spring-boot-project/spring-boot-test/src/main/java/org/springframework/boot/test/web/SpringBootTestRandomPortEnvironmentPostProcessor.java:50-75 | nothing changes without an inlined source, nor when its server.port converts to anything but 0 (absent included), nor when it already sets management.server.port |
| `RandomPortPostProcessors.ConversionFailuresEscape` | spring-boot-project/spring-boot-test/src/main/java/org/springframework/boot/test/web/SpringBootTestRandomPortEnvironmentPostProcessor.java:50-107 | a conversion failure of the inlined server.port, or of the management port lookup that follows, escapes as the outcome |
| `RandomPortPostProcessors.OverrideValue` | spring-boot-project/spring-boot-test/src/main/java/org/springframework/boot/test/web/SpringBootTestRandomPortEnvironmentPostProcessor.java:54-66 | a change needs both lookups to succeed and a management port that is neither -1 nor 0; the value put is "0" iff it differs from the server port, 8080 by default, and "" otherwise |
| `RandomPortPostProcessors.Environment.PostProcessEnvironment` | spring-boot-project/spring-boot-test/src/main/java/org/springframework/boot/test/web/SpringBootTestRandomPortEnvironmentPostProcessor.java:44-67 | a conversion failure is passed on and changes nothing; otherwise only the inlined source changes, and only by the management port the specification gives |
| `WebServers.GracefulShutdown.ShutDownGracefully` | spring-boot-project/spring-boot/src/main/java/org/springframework/boot/web/embedded/tomcat/TomcatWebServer.java:454 | records one graceful-shutdown request |
| `WebServers.GracefulShutdown.Abort` | spring-boot-project/spring-boot/src/main/java/org/springframework/boot/web/embedded/tomcat/TomcatWebServer.java:391-394 | records one abort |
| `WebServers.ListenPort` | spring-boot-project/spring-boot/src/main/java/org/springframework/boot/web/embedded/tomcat/TomcatServletWebServerFactory.java:367 | the connector port is the configured one exactly when it is non-negative; a negative port becomes 0 |
| `TomcatWebServers.ContainerCounter.constructor` | spring-boot-project/spring-boot/src/main/java/org/springframework/boot/web/embedded/tomcat/TomcatWebServer.java:64 | the shared counter starts at -1 |
| `TomcatWebServers.Tomcat.DefaultConnector` | spring-boot-project/spring-boot/src/main/java/org/springframework/boot/web/embedded/tomcat/TomcatWebServer.java:427-431 | a connector exactly when the default service has one |
| `TomcatWebServers.EngineName` | spring-boot-project/spring-boot/src/main/java/org/springframework/boot/web/embedded/tomcat/TomcatWebServer.java:194-198 | the name itself for a non-positive id; otherwise the name, "-" and something more |
| `TomcatWebServers.EngineNamesDistinct` | spring-boot-project/spring-boot/src/main/java/org/springframework/boot/web/embedded/tomcat/TomcatWebServer.java:193-199 | the first server keeps the engine's name, and different later instance ids give different names |
| `TomcatWebServers.RestoreUndoesRemove` | spring-boot-project/spring-boot/src/main/java/org/springframework/boot/web/embedded/tomcat/TomcatWebServer.java:204-212 | restoring the connectors stashed on removal gives every service its own connectors back |
| `TomcatWebServers.RemovedAlongAt` | spring-boot-project/spring-boot/src/main/java/org/springframework/boot/web/embedded/tomcat/TomcatWebServer.java:205-211 | the services visited are left with no connectors, the others keep theirs |
| `TomcatWebServers.StashedAlongAt` | spring-boot-project/spring-boot/src/main/java/org/springframework/boot/web/embedded/tomcat/TomcatWebServer.java:205-207 | each visited service's connectors are stashed under it; the other stash entries are kept |
| `TomcatWebServers.RemoveAlongAll` | spring-boot-project/spring-boot/src/main/java/org/springframework/boot/web/embedded/tomcat/TomcatWebServer.java:204-212 | visiting every service stashes all connectors and leaves none behind |
| `TomcatWebServers.RestoredAlongAt` | spring-boot-project/spring-boot/src/main/java/org/springframework/boot/web/embedded/tomcat/TomcatWebServer.java:338-351 | each visited service with stashed connectors gets them appended |
| `TomcatWebServers.RestoreAlongAll` | spring-boot-project/spring-boot/src/main/java/org/springframework/boot/web/embedded/tomcat/TomcatWebServer.java:337-352 | visiting every service restores exactly the stashed connectors |
| `TomcatWebServers.PortDescription` | spring-boot-project/spring-boot/src/main/java/org/springframework/boot/web/embedded/tomcat/TomcatWebServer.java:419-420 | the port followed by the scheme in parentheses |
| `TomcatWebServers.PortDescriptions` | spring-boot-project/spring-boot/src/main/java/org/springframework/boot/web/embedded/tomcat/TomcatWebServer.java:415-421 | one description per connector |
| `TomcatWebServers.PortsDescriptionEmptyIff` | spring-boot-project/spring-boot/src/main/java/org/springframework/boot/web/embedded/tomcat/TomcatWebServer.java:413-423 | the ports description is empty exactly when the default service has no connector |
| `TomcatWebServers.TomcatWebServer.AddInstanceIdToEngineName` | spring-boot-project/spring-boot/src/main/java/org/springframework/boot/web/embedded/tomcat/TomcatWebServer.java:193-199 | the shared counter goes up by one, and the engine gets the name for the new instance id |
| `TomcatWebServers.TomcatWebServer.RemoveServiceConnectors` | spring-boot-project/spring-boot/src/main/java/org/springframework/boot/web/embedded/tomcat/TomcatWebServer.java:204-212 | every service's connectors are stashed and taken away |
| `TomcatWebServers.TomcatWebServer.AddPreviouslyRemovedConnectors` | spring-boot-project/spring-boot/src/main/java/org/springframework/boot/web/embedded/tomcat/TomcatWebServer.java:337-352 | the stashed connectors are given back and their stash entries removed; their protocol handlers are stopped when the server does not start automatically |
| `TomcatWebServers.TomcatWebServer.RestoreServices` | spring-boot-project/spring-boot/src/main/java/org/springframework/boot/web/embedded/tomcat/TomcatWebServer.java:339-351 | the loop over the services restores the stash as the specification says |
| `TomcatWebServers.TomcatWebServer.AddConnectors` | spring-boot-project/spring-boot/src/main/java/org/springframework/boot/web/embedded/tomcat/TomcatWebServer.java:342-348 | a service's stashed connectors are appended to it in order |
| `TomcatWebServers.TomcatWebServer.GetPort` | spring-boot-project/spring-boot/src/main/java/org/springframework/boot/web/embedded/tomcat/TomcatWebServer.java:426-432 | the default connector's local port, or -1 without one |
| `TomcatWebServers.TomcatWebServer.GetPortsDescription` | spring-boot-project/spring-boot/src/main/java/org/springframework/boot/web/embedded/tomcat/TomcatWebServer.java:413-423 | each connector of the default service described, separated by single spaces |
| `TomcatWebServers.TomcatWebServer.DescribePorts` | spring-boot-project/spring-boot/src/main/java/org/springframework/boot/web/embedded/tomcat/TomcatWebServer.java:414-422 | the builder loop joins the descriptions with single spaces |
| `TomcatWebServers.TomcatWebServer.Start` | spring-boot-project/spring-boot/src/main/java/org/springframework/boot/web/embedded/tomcat/TomcatWebServer.java:257-352 | a second start does nothing; otherwise the stashed connectors are restored and unstashed, their handlers stopped without auto-start; a failed deferred load gives PortInUse for a binding failure and "Unable to start embedded Tomcat server" otherwise, as does a missing default connector; the first FAILED connector fails the start and stops Tomcat, other failures leave it running as it was; started exactly on success |
| `TomcatWebServers.TomcatWebServer.Stop` | spring-boot-project/spring-boot/src/main/java/org/springframework/boot/web/embedded/tomcat/TomcatWebServer.java:384-411 | aborts any graceful shutdown, stops and destroys Tomcat, and decrements the shared counter only when the server had started |
| `TomcatWebServers.TomcatWebServer.ShutDownGracefully` | spring-boot-project/spring-boot/src/main/java/org/springframework/boot/web/embedded/tomcat/TomcatWebServer.java:449-455 | reports IMMEDIATE exactly without a graceful shutdown; otherwise hands the request to it |
| `TomcatWebServers.NewTomcatWebServer` | spring-boot-project/spring-boot/src/main/java/org/springframework/boot/web/embedded/tomcat/TomcatWebServer.java:115-176 | names the engine for the new instance id; succeeds exactly when the host has a context and startup succeeds; otherwise Tomcat is stopped and destroyed and "Unable to start embedded Tomcat" is raised |
| `TomcatWebServers.TomcatWebServer.constructor` | spring-boot-project/spring-boot/src/main/java/org/springframework/boot/web/embedded/tomcat/TomcatWebServer.java:115-121 | keeps Tomcat and the auto-start flag; a graceful shutdown exactly when GRACEFUL is configured; nothing stashed and not started |
| `JettyWebServers.Chain` | spring-boot-project/spring-boot/src/main/java/org/springframework/boot/web/embedded/jetty/JettyWebServer.java:119-126 | the handlers met along the wrapper chain, starting from the handler itself |
| `JettyWebServers.FindFirst` | spring-boot-project/spring-boot/src/main/java/org/springframework/boot/web/embedded/jetty/JettyWebServer.java:119-126 | a handler found is of the kind looked for and on the chain; when none is found, no handler of the chain is of that kind |
| `JettyWebServers.FindFirstIsFirst` | spring-boot-project/spring-boot/src/main/java/org/springframework/boot/web/embedded/jetty/JettyWebServer.java:119-126 | the handler found is the first of its kind along the chain |
| `JettyWebServers.FindStatisticsHandler` | spring-boot-project/spring-boot/src/main/java/org/springframework/boot/web/embedded/jetty/JettyWebServer.java:119-127 | a handler found is a `StatisticsHandler` on the wrapper chain; none found means the chain holds none |
| `JettyWebServers.FindContextHandler` | spring-boot-project/spring-boot/src/main/java/org/springframework/boot/web/embedded/jetty/JettyWebServer.java:246-254 | the loop answers the first context handler along the wrapper chain |
| `JettyWebServers.PortEntryShape` | spring-boot-project/spring-boot/src/main/java/org/springframework/boot/web/embedded/jetty/JettyWebServer.java:231-238 | an entry is the local port in digits followed by the protocols between parentheses |
| `JettyWebServers.PortEntries` | spring-boot-project/spring-boot/src/main/java/org/springframework/boot/web/embedded/jetty/JettyWebServer.java:227-232 | one entry per connector |
| `JettyWebServers.PortsDescriptionEmptyIff` | spring-boot-project/spring-boot/src/main/java/org/springframework/boot/web/embedded/jetty/JettyWebServer.java:225-234 | the ports description is empty exactly when the server has no connectors |
| `JettyWebServers.ConnectorError` | spring-boot-project/spring-boot/src/main/java/org/springframework/boot/web/embedded/jetty/JettyWebServer.java:201-206 | a port-binding failure of a network connector is a port-in-use error for its port; anything else is the generic start failure |
| `JettyWebServers.StartConnectors` | spring-boot-project/spring-boot/src/main/java/org/springframework/boot/web/embedded/jetty/JettyWebServer.java:197-208 | a failure is a port in use or the generic start failure, and a failing first connector decides it with its own error |
| `JettyWebServers.StartConnectorsOutcome` | spring-boot-project/spring-boot/src/main/java/org/springframework/boot/web/embedded/jetty/JettyWebServer.java:197-208 | starting passes exactly when every connector starts; a failure is the error of the first connector that fails |
| `JettyWebServers.JettyWebServer.constructor` | spring-boot-project/spring-boot/src/main/java/org/springframework/boot/web/embedded/jetty/JettyWebServer.java:99-113 | a graceful shutdown exactly when a statistics handler is on the handler chain; nothing cached and not started |
| `JettyWebServers.JettyWebServer.Initialize` | spring-boot-project/spring-boot/src/main/java/org/springframework/boot/web/embedded/jetty/JettyWebServer.java:129-165 | caches the connectors, then starts the server without them; fails when a connector was started prematurely or the start fails, stopping the server |
| `JettyWebServers.JettyWebServer.Start` | spring-boot-project/spring-boot/src/main/java/org/springframework/boot/web/embedded/jetty/JettyWebServer.java:176-223 | a second start does nothing; the cached connectors are given back; without auto-start nothing else happens; otherwise each connector is started and any failure stops the server |
| `JettyWebServers.JettyWebServer.GetPort` | spring-boot-project/spring-boot/src/main/java/org/springframework/boot/web/embedded/jetty/JettyWebServer.java:289-299 | the first positive local port among the connectors, otherwise -1 |
| `JettyWebServers.JettyWebServer.GetActualPortsDescription` | spring-boot-project/spring-boot/src/main/java/org/springframework/boot/web/embedded/jetty/JettyWebServer.java:225-234 | each connector's entry, separated by ", " |
| `JettyWebServers.JettyWebServer.DescribePorts` | spring-boot-project/spring-boot/src/main/java/org/springframework/boot/web/embedded/jetty/JettyWebServer.java:226-233 | the builder loop joins the entries with ", " |
| `JettyWebServers.JettyWebServer.Stop` | spring-boot-project/spring-boot/src/main/java/org/springframework/boot/web/embedded/jetty/JettyWebServer.java:270-287 | no longer started, any graceful shutdown aborted, and the server stopped unless stopping fails |
| `JettyWebServers.JettyWebServer.ShutDownGracefully` | spring-boot-project/spring-boot/src/main/java/org/springframework/boot/web/embedded/jetty/JettyWebServer.java:320-327 | reports IMMEDIATE exactly without a graceful shutdown; otherwise hands the request to it |
| `JettyWebServers.NewJettyWebServer` | spring-boot-project/spring-boot/src/main/java/org/springframework/boot/web/embedded/jetty/JettyWebServer.java:99-165 | the server is created exactly when initialization passes; otherwise "Unable to start embedded Jetty web server" is raised and the server stopped |
| `NettyWebServers.StartError` | spring-boot-project/spring-boot/src/main/java/org/springframework/boot/web/embedded/netty/NettyWebServer.java:117-123 | a bind failure with a positive local port is a port-in-use error for that port; anything else is "Unable to start Netty" |
| `NettyWebServers.IsPermissionDenied` | spring-boot-project/spring-boot/src/main/java/org/springframework/boot/web/embedded/netty/NettyWebServer.java:163-171 | true exactly for a native I/O failure with error EACCES |
| `NettyWebServers.StartErrorPortInUseIff` | spring-boot-project/spring-boot/src/main/java/org/springframework/boot/web/embedded/netty/NettyWebServer.java:117-123 | a port-in-use error exactly for a bind failure with a positive local port whose cause is not a permission denial |
| `NettyWebServers.MessageParts` | spring-boot-project/spring-boot/src/main/java/org/springframework/boot/web/embedded/netty/NettyWebServer.java:134-138 | one part for a supported port and one for a supported path |
| `NettyWebServers.StartedOnMessageEmptyIff` | spring-boot-project/spring-boot/src/main/java/org/springframework/boot/web/embedded/netty/NettyWebServer.java:134-139 | the message is empty exactly when neither the port nor the path is supported |
| `NettyWebServers.StartedOnMessageBoth` | spring-boot-project/spring-boot/src/main/java/org/springframework/boot/web/embedded/netty/NettyWebServer.java:134-139 | with both supported, " on port ", the port, " path " and the path |
| `NettyWebServers.TryAppend` | spring-boot-project/spring-boot/src/main/java/org/springframework/boot/web/embedded/netty/NettyWebServer.java:141-148 | an unsupported part leaves the message as it is; a supported one is appended, after a space unless the message is empty |
| `NettyWebServers.GetStartedOnMessage` | spring-boot-project/spring-boot/src/main/java/org/springframework/boot/web/embedded/netty/NettyWebServer.java:134-139 | the builder form gives the message the specification describes |
| `NettyWebServers.ApplyRouteProviders` | spring-boot-project/spring-boot/src/main/java/org/springframework/boot/web/embedded/netty/NettyWebServer.java:182-187 | each provider in registration order, then the catch-all route |
| `NettyWebServers.AddRoutes` | spring-boot-project/spring-boot/src/main/java/org/springframework/boot/web/embedded/netty/NettyWebServer.java:183-185 | one provider per route name |
| `NettyWebServers.RouteProvidersApplyInOrder` | spring-boot-project/spring-boot/src/main/java/org/springframework/boot/web/embedded/netty/NettyWebServer.java:182-187 | providers that each add a route leave their routes in registration order |
| `NettyWebServers.NettyWebServer.constructor` | spring-boot-project/spring-boot/src/main/java/org/springframework/boot/web/embedded/netty/NettyWebServer.java:95-104 | a graceful shutdown exactly when GRACEFUL is configured; no route providers and nothing bound |
| `NettyWebServers.NettyWebServer.SetRouteProviders` | spring-boot-project/spring-boot/src/main/java/org/springframework/boot/web/embedded/netty/NettyWebServer.java:106-108 | replaces the route providers |
| `NettyWebServers.NettyWebServer.StartHttpServer` | spring-boot-project/spring-boot/src/main/java/org/springframework/boot/web/embedded/netty/NettyWebServer.java:150-161 | routes only when there are route providers, the handler otherwise, bound with the lifecycle timeout when there is one |
| `NettyWebServers.NettyWebServer.Start` | spring-boot-project/spring-boot/src/main/java/org/springframework/boot/web/embedded/netty/NettyWebServer.java:110-132 | a started server does nothing; otherwise one bind is asked for, and its failure is mapped to the start error |
| `NettyWebServers.NettyWebServer.Stop` | spring-boot-project/spring-boot/src/main/java/org/springframework/boot/web/embedded/netty/NettyWebServer.java:203-224 | a bound server has its graceful shutdown aborted and is disposed of; afterwards nothing is bound |
| `NettyWebServers.NettyWebServer.GetPort` | spring-boot-project/spring-boot/src/main/java/org/springframework/boot/web/embedded/netty/NettyWebServer.java:226-238 | the bound server's port, or -1 when nothing is bound or the port is unsupported |
| `NettyWebServers.NettyWebServer.ShutDownGracefully` | spring-boot-project/spring-boot/src/main/java/org/springframework/boot/web/embedded/netty/NettyWebServer.java:173-180 | reports IMMEDIATE exactly without a graceful shutdown; otherwise hands the request to it |
| `NettyWebServers.StopThenStart` | spring-boot-project/spring-boot/src/main/java/org/springframework/boot/web/embedded/netty/NettyWebServer.java:110-132 | after a stop, a start binds again |
| `TomcatServletWebServerFactories.SessionTimeoutInMinutes` | spring-boot-project/spring-boot/src/main/java/org/springframework/boot/web/embedded/tomcat/TomcatServletWebServerFactory.java:492-502 | 0 exactly for a missing, zero or negative timeout; otherwise at least one minute and at least the whole minutes |
| `TomcatServletWebServerFactories.IsZeroOrLess` | spring-boot-project/spring-boot/src/main/java/org/springframework/boot/web/embedded/tomcat/TomcatServletWebServerFactory.java:500-502 | true for no timeout, and for a timeout exactly when it is negative or zero |
| `TomcatServletWebServerFactories.SubMinuteTimeoutIsOneMinute` | spring-boot-project/spring-boot/src/main/java/org/springframework/boot/web/embedded/tomcat/TomcatServletWebServerFactory.java:492-498 | a positive timeout shorter than a minute gives a one-minute session |
| `TomcatServletWebServerFactories.WholeMinutesTimeout` | spring-boot-project/spring-boot/src/main/java/org/springframework/boot/web/embedded/tomcat/TomcatServletWebServerFactory.java:492-498 | whole minutes plus less than a minute give those minutes |
| `TomcatServletWebServerFactories.ContextSessionTimeout` | spring-boot-project/spring-boot/src/main/java/org/springframework/boot/web/embedded/tomcat/TomcatServletWebServerFactory.java:466-467 | the minutes narrowed to a Java `int`, unchanged whenever they fit |
| `TomcatServletWebServerFactories.ResourceJar` | spring-boot-project/spring-boot/src/main/java/org/springframework/boot/web/embedded/tomcat/TomcatServletWebServerFactory.java:939-948 | a jar URL that is not yet a "jar:" URL becomes "jar:" plus it plus "!/"; any other URL is kept |
| `TomcatServletWebServerFactories.IsInsideNestedJar` | spring-boot-project/spring-boot/src/main/java/org/springframework/boot/web/embedded/tomcat/TomcatServletWebServerFactory.java:969-971 | true only when "!/" occurs (at two places: `IsInsideNestedJarIff`) |
| `TomcatServletWebServerFactories.IsInsideNestedJarIff` | spring-boot-project/spring-boot/src/main/java/org/springframework/boot/web/embedded/tomcat/TomcatServletWebServerFactory.java:969-971 | inside a nested jar exactly when "!/" occurs at two different places |
| `TomcatServletWebServerFactories.ResourceSetRoot` | spring-boot-project/spring-boot/src/main/java/org/springframework/boot/web/embedded/tomcat/TomcatServletWebServerFactory.java:955-960 | a resource inside a nested jar loses its final "!/"; any other is kept |
| `TomcatServletWebServerFactories.NestedJarRoot` | spring-boot-project/spring-boot/src/main/java/org/springframework/boot/web/embedded/tomcat/TomcatServletWebServerFactory.java:955-960 | a nested jar URL ending in "!/" has the inner jar as its root |
| `TomcatServletWebServerFactories.ResourceSetsFor` | spring-boot-project/spring-boot/src/main/java/org/springframework/boot/web/embedded/tomcat/TomcatServletWebServerFactory.java:937-951 | at most one resource set per URL |
| `TomcatServletWebServerFactories.ResourceSetsAllAccepted` | spring-boot-project/spring-boot/src/main/java/org/springframework/boot/web/embedded/tomcat/TomcatServletWebServerFactory.java:937-967 | when every root can be used, each URL gives one set, in order, mounted at "/" over "/META-INF/resources" |
| `TomcatServletWebServerFactories.ContextResources.constructor` | spring-boot-project/spring-boot/src/main/java/org/springframework/boot/web/embedded/tomcat/TomcatServletWebServerFactory.java:963 | no resource sets yet |
| `TomcatServletWebServerFactories.AddResourceSet` | spring-boot-project/spring-boot/src/main/java/org/springframework/boot/web/embedded/tomcat/TomcatServletWebServerFactory.java:953-967 | the resource set for the resource's root is created, or nothing when it cannot be |
| `TomcatServletWebServerFactories.AddResourceJars` | spring-boot-project/spring-boot/src/main/java/org/springframework/boot/web/embedded/tomcat/TomcatServletWebServerFactory.java:937-951 | the loop creates the sets of the URLs in order |
| `TomcatServletWebServerFactories.GetResource` | spring-boot-project/spring-boot/src/main/java/org/springframework/boot/web/embedded/tomcat/TomcatServletWebServerFactory.java:860-865 | an empty resource exactly for a path under "/org/springframework/boot"; otherwise the delegate's |
| `TomcatServletWebServerFactories.ListWebAppPaths` | spring-boot-project/spring-boot/src/main/java/org/springframework/boot/web/embedded/tomcat/TomcatServletWebServerFactory.java:873-877 | the delegate's paths without those under "/org/springframework/boot" |
| `TomcatServletWebServerFactories.ListedPathsResolve` | spring-boot-project/spring-boot/src/main/java/org/springframework/boot/web/embedded/tomcat/TomcatServletWebServerFactory.java:860-877 | every listed path resolves to the delegate's resource |
| `TomcatServletWebServerFactories.TomcatServletWebServerFactory.constructor` | spring-boot-project/spring-boot/src/main/java/org/springframework/boot/web/embedded/tomcat/TomcatServletWebServerFactory.java:101-145 | the default skip patterns, the default protocol, an APR listener only when APR is available, and empty valves, customizers and connectors |
| `TomcatServletWebServerFactories.TomcatServletWebServerFactory.SetTldSkipPatterns` | spring-boot-project/spring-boot/src/main/java/org/springframework/boot/web/embedded/tomcat/TomcatServletWebServerFactory.java:551-554 | replaces the patterns, dropping repeats |
| `TomcatServletWebServerFactories.TomcatServletWebServerFactory.AddTldSkipPatterns` | spring-boot-project/spring-boot/src/main/java/org/springframework/boot/web/embedded/tomcat/TomcatServletWebServerFactory.java:562-565 | appends the patterns not yet present |
| `TomcatServletWebServerFactories.AddTldSkipPatternsTwice` | spring-boot-project/spring-boot/src/main/java/org/springframework/boot/web/embedded/tomcat/TomcatServletWebServerFactory.java:562-565 | adding patterns in two calls is adding them in one |
| `TomcatServletWebServerFactories.TomcatServletWebServerFactory.SetProtocol` | spring-boot-project/spring-boot/src/main/java/org/springframework/boot/web/embedded/tomcat/TomcatServletWebServerFactory.java:573-576 | an empty protocol is refused with "Protocol must not be empty" and changes nothing; any other is set |
| `TomcatServletWebServerFactories.TomcatServletWebServerFactory.SetEngineValves` | spring-boot-project/spring-boot/src/main/java/org/springframework/boot/web/embedded/tomcat/TomcatServletWebServerFactory.java:594-597 | replaces the engine valves |
| `TomcatServletWebServerFactories.TomcatServletWebServerFactory.AddEngineValves` | spring-boot-project/spring-boot/src/main/java/org/springframework/boot/web/embedded/tomcat/TomcatServletWebServerFactory.java:600-603 | appends the engine valves |
| `TomcatServletWebServerFactories.TomcatServletWebServerFactory.SetContextValves` | spring-boot-project/spring-boot/src/main/java/org/springframework/boot/web/embedded/tomcat/TomcatServletWebServerFactory.java:622-625 | replaces the context valves |
| `TomcatServletWebServerFactories.TomcatServletWebServerFactory.AddContextValves` | spring-boot-project/spring-boot/src/main/java/org/springframework/boot/web/embedded/tomcat/TomcatServletWebServerFactory.java:632-635 | appends the context valves |
| `TomcatServletWebServerFactories.TomcatServletWebServerFactory.SetContextLifecycleListeners` | spring-boot-project/spring-boot/src/main/java/org/springframework/boot/web/embedded/tomcat/TomcatServletWebServerFactory.java:653-656 | replaces the listeners |
| `TomcatServletWebServerFactories.TomcatServletWebServerFactory.AddContextLifecycleListeners` | spring-boot-project/spring-boot/src/main/java/org/springframework/boot/web/embedded/tomcat/TomcatServletWebServerFactory.java:663-666 | appends the listeners |
| `TomcatServletWebServerFactories.TomcatServletWebServerFactory.SetTomcatContextCustomizers` | spring-boot-project/spring-boot/src/main/java/org/springframework/boot/web/embedded/tomcat/TomcatServletWebServerFactory.java:684-687 | replaces the context customizers, dropping repeats |
| `TomcatServletWebServerFactories.TomcatServletWebServerFactory.AddContextCustomizers` | spring-boot-project/spring-boot/src/main/java/org/springframework/boot/web/embedded/tomcat/TomcatServletWebServerFactory.java:690-693 | appends the context customizers not yet present |
| `TomcatServletWebServerFactories.TomcatServletWebServerFactory.AddConnectorCustomizers` | spring-boot-project/spring-boot/src/main/java/org/springframework/boot/web/embedded/tomcat/TomcatServletWebServerFactory.java:696-699 | appends the connector customizers not yet present |
| `TomcatServletWebServerFactories.TomcatServletWebServerFactory.SetTomcatConnectorCustomizers` | spring-boot-project/spring-boot/src/main/java/org/springframework/boot/web/embedded/tomcat/TomcatServletWebServerFactory.java:717-721 | replaces the connector customizers, dropping repeats |
| `TomcatServletWebServerFactories.TomcatServletWebServerFactory.AddProtocolHandlerCustomizers` | spring-boot-project/spring-boot/src/main/java/org/springframework/boot/web/embedded/tomcat/TomcatServletWebServerFactory.java:731-734 | appends the protocol handler customizers not yet present |
| `TomcatServletWebServerFactories.TomcatServletWebServerFactory.SetTomcatProtocolHandlerCustomizers` | spring-boot-project/spring-boot/src/main/java/org/springframework/boot/web/embedded/tomcat/TomcatServletWebServerFactory.java:754-758 | replaces the protocol handler customizers, dropping repeats |
| `TomcatServletWebServerFactories.TomcatServletWebServerFactory.AddAdditionalTomcatConnectors` | spring-boot-project/spring-boot/src/main/java/org/springframework/boot/web/embedded/tomcat/TomcatServletWebServerFactory.java:765-768 | appends the connectors |
| `TomcatServletWebServerFactories.TomcatServletWebServerFactory.GetTomcatWebServer` | spring-boot-project/spring-boot/src/main/java/org/springframework/boot/web/embedded/tomcat/TomcatServletWebServerFactory.java:522-524 | a server over the Tomcat given that starts automatically exactly when the port is not negative, with the configured shutdown |
| `JettyServletWebServerFactories.MaxInactiveInterval` | spring-boot-project/spring-boot/src/main/java/org/springframework/boot/web/embedded/jetty/JettyServletWebServerFactory.java:283-298 | -1 for a missing or negative timeout; otherwise the whole seconds, narrowed to an int |
| `JettyServletWebServerFactories.IsNegative` | spring-boot-project/spring-boot/src/main/java/org/springframework/boot/web/embedded/jetty/JettyServletWebServerFactory.java:296-298 | true for no timeout, false for a zero one, and true for a timeout only when it is negative |
| `JettyServletWebServerFactories.SubSecondTimeoutIsZero` | spring-boot-project/spring-boot/src/main/java/org/springframework/boot/web/embedded/jetty/JettyServletWebServerFactory.java:286 | a timeout under one second gives an interval of 0 |
| `JettyServletWebServerFactories.WholeSecondsTimeout` | spring-boot-project/spring-boot/src/main/java/org/springframework/boot/web/embedded/jetty/JettyServletWebServerFactory.java:286 | a timeout of whole seconds plus a fraction gives those seconds when they fit an int |
| `JettyServletWebServerFactories.WebAppContextPath` | spring-boot-project/spring-boot/src/main/java/org/springframework/boot/web/embedded/jetty/JettyServletWebServerFactory.java:253-254 | "/" in place of a missing or empty context path; otherwise the path itself |
| `JettyServletWebServerFactories.CreateResource` | spring-boot-project/spring-boot/src/main/java/org/springframework/boot/web/embedded/jetty/JettyServletWebServerFactory.java:331-339 | a regular file on a "file" URL is read as a jar at "!/META-INF/resources"; any other URL gets "META-INF/resources" appended |
| `JettyServletWebServerFactories.AddPath` | spring-boot-project/spring-boot/src/main/java/org/springframework/boot/web/embedded/jetty/JettyServletWebServerFactory.java:576-581 | no resource exactly for a path under "/org/springframework/boot"; otherwise the delegate's |
| `JettyServletWebServerFactories.GetWebAppContextConfigurations` | spring-boot-project/spring-boot/src/main/java/org/springframework/boot/web/embedded/jetty/JettyServletWebServerFactory.java:381-390 | the initializer, error-page, mime-type and web-listener configurations in that order, then the factory's configurations |
| `JettyServletWebServerFactories.AddHandlerWrappers` | spring-boot-project/spring-boot/src/main/java/org/springframework/boot/web/embedded/jetty/JettyServletWebServerFactory.java:218-226 | gzip around the handler when compression is enabled, then the server-header handler around that when the header has text |
| `JettyServletWebServerFactories.ApplyWrapper` | spring-boot-project/spring-boot/src/main/java/org/springframework/boot/web/embedded/jetty/JettyServletWebServerFactory.java:228-231 | the wrapper of the given kind, holding the handler |
| `JettyServletWebServerFactories.ServerHandler` | spring-boot-project/spring-boot/src/main/java/org/springframework/boot/web/embedded/jetty/JettyServletWebServerFactory.java:171-193 | the wrapped context, inside a statistics handler exactly when the shutdown is GRACEFUL |
| `JettyServletWebServerFactories.WrappedFindsTheSame` | spring-boot-project/spring-boot/src/main/java/org/springframework/boot/web/embedded/jetty/JettyServletWebServerFactory.java:218-226 | the added wrappers change neither which context nor which statistics handler is found |
| `JettyServletWebServerFactories.GracefulShutdownIffGraceful` | spring-boot-project/spring-boot/src/main/java/org/springframework/boot/web/embedded/jetty/JettyServletWebServerFactory.java:186-193 | the server's handler has a statistics handler exactly when GRACEFUL is configured, and it still finds the context |
| `JettyServletWebServerFactories.KeyOf` | spring-boot-project/spring-boot/src/main/java/org/springframework/boot/web/embedded/jetty/JettyServletWebServerFactory.java:552-561 | a global page under the global key; otherwise under its exception's name, else under its status code |
| `JettyServletWebServerFactories.LastRegistrationWins` | spring-boot-project/spring-boot/src/main/java/org/springframework/boot/web/embedded/jetty/JettyServletWebServerFactory.java:548-565 | a page that no later page with the same key follows is the one served for its key |
| `JettyServletWebServerFactories.RegisterAllKeys` | spring-boot-project/spring-boot/src/main/java/org/springframework/boot/web/embedded/jetty/JettyServletWebServerFactory.java:548-565 | registering pages adds exactly their keys |
| `JettyServletWebServerFactories.ErrorPageErrorHandler.constructor` | spring-boot-project/spring-boot/src/main/java/org/springframework/boot/web/embedded/jetty/JettyServletWebServerFactory.java:548-550 | a handler with no pages registered |
| `JettyServletWebServerFactories.AddJettyErrorPages` | spring-boot-project/spring-boot/src/main/java/org/springframework/boot/web/embedded/jetty/JettyServletWebServerFactory.java:548-565 | the handler's pages are the old ones with every page registered in order |
| `JettyServletWebServerFactories.JettyServletWebServerFactory.constructor` | spring-boot-project/spring-boot/src/main/java/org/springframework/boot/web/embedded/jetty/JettyServletWebServerFactory.java:485-533 | no server customizers and no configurations |
| `JettyServletWebServerFactories.JettyServletWebServerFactory.SetServerCustomizers` | spring-boot-project/spring-boot/src/main/java/org/springframework/boot/web/embedded/jetty/JettyServletWebServerFactory.java:485-488 | replaces the customizers, dropping repeats |
| `JettyServletWebServerFactories.JettyServletWebServerFactory.AddServerCustomizers` | spring-boot-project/spring-boot/src/main/java/org/springframework/boot/web/embedded/jetty/JettyServletWebServerFactory.java:500-503 | appends the customizers not yet present |
| `JettyServletWebServerFactories.JettyServletWebServerFactory.SetConfigurations` | spring-boot-project/spring-boot/src/main/java/org/springframework/boot/web/embedded/jetty/JettyServletWebServerFactory.java:511-514 | replaces the configurations |
| `JettyServletWebServerFactories.JettyServletWebServerFactory.AddConfigurations` | spring-boot-project/spring-boot/src/main/java/org/springframework/boot/web/embedded/jetty/JettyServletWebServerFactory.java:530-533 | appends the configurations |
| `JettyServletWebServerFactories.JettyServletWebServerFactory.GetJettyWebServer` | spring-boot-project/spring-boot/src/main/java/org/springframework/boot/web/embedded/jetty/JettyServletWebServerFactory.java:456-458 | a server over the given Jetty server that starts automatically exactly when the port is not negative, or the initialization failure |
| `NettyReactiveWebServerFactories.ListProtocols` | spring-boot-project/spring-boot/src/main/java/org/springframework/boot/web/embedded/netty/NettyReactiveWebServerFactory.java:207-212 | HTTP/2 with HTTP/1.1 exactly when both HTTP/2 and SSL are enabled; otherwise HTTP/1.1 alone |
| `NettyReactiveWebServerFactories.ListenAddress` | spring-boot-project/spring-boot/src/main/java/org/springframework/boot/web/embedded/netty/NettyReactiveWebServerFactory.java:214-219 | the configured host, or the wildcard when none is set, with the configured port; a port outside 0..65535 is refused |
| `NettyReactiveWebServerFactories.CustomizedAppend` | spring-boot-project/spring-boot/src/main/java/org/springframework/boot/web/embedded/netty/NettyReactiveWebServerFactory.java:221-226 | applying two runs of customizers is applying the second run to the first run's result |
| `NettyReactiveWebServerFactories.ApplyCustomizers` | spring-boot-project/spring-boot/src/main/java/org/springframework/boot/web/embedded/netty/NettyReactiveWebServerFactory.java:221-226 | each customizer is applied in insertion order to the previous one's result |
| `NettyReactiveWebServerFactories.AddedCustomizersRunLast` | spring-boot-project/spring-boot/src/main/java/org/springframework/boot/web/embedded/netty/NettyReactiveWebServerFactory.java:123-126 | customizers added later run after the ones already present, on their result |
| `NettyReactiveWebServerFactories.NettyReactiveWebServerFactory.constructor` | spring-boot-project/spring-boot/src/main/java/org/springframework/boot/web/embedded/netty/NettyReactiveWebServerFactory.java:51-78 | the given settings, with no customizers, no route providers, no resource factory and no forward headers |
| `NettyReactiveWebServerFactories.NettyReactiveWebServerFactory.SetServerCustomizers` | spring-boot-project/spring-boot/src/main/java/org/springframework/boot/web/embedded/netty/NettyReactiveWebServerFactory.java:114-117 | replaces the customizers, dropping repeats |
| `NettyReactiveWebServerFactories.NettyReactiveWebServerFactory.AddServerCustomizers` | spring-boot-project/spring-boot/src/main/java/org/springframework/boot/web/embedded/netty/NettyReactiveWebServerFactory.java:123-126 | appends the customizers not yet present |
| `NettyReactiveWebServerFactories.NettyReactiveWebServerFactory.AddRouteProviders` | spring-boot-project/spring-boot/src/main/java/org/springframework/boot/web/embedded/netty/NettyReactiveWebServerFactory.java:133-136 | appends the route providers, repeats included |
| `NettyReactiveWebServerFactories.NettyReactiveWebServerFactory.SetUseForwardHeaders` | spring-boot-project/spring-boot/src/main/java/org/springframework/boot/web/embedded/netty/NettyReactiveWebServerFactory.java:152-154 | sets whether forwarded headers are honoured |
| `NettyReactiveWebServerFactories.NettyReactiveWebServerFactory.SetResourceFactory` | spring-boot-project/spring-boot/src/main/java/org/springframework/boot/web/embedded/netty/NettyReactiveWebServerFactory.java:161-163 | sets the resource factory |
| `NettyReactiveWebServerFactories.NettyReactiveWebServerFactory.SetShutdown` | spring-boot-project/spring-boot/src/main/java/org/springframework/boot/web/embedded/netty/NettyReactiveWebServerFactory.java:165-168 | sets the shutdown |
| `NettyReactiveWebServerFactories.NettyReactiveWebServerFactory.CreateHttpServer` | spring-boot-project/spring-boot/src/main/java/org/springframework/boot/web/embedded/netty/NettyReactiveWebServerFactory.java:175-199 | fails with "No LoopResources" exactly when a resource factory without loop resources is set; otherwise the address, SSL, compression, protocols and forwarding, and then the customizers |
| `NettyReactiveWebServerFactories.NettyReactiveWebServerFactory.GetWebServer` | spring-boot-project/spring-boot/src/main/java/org/springframework/boot/web/embedded/netty/NettyReactiveWebServerFactory.java:80-93 | fails with "No LoopResources" as `createHttpServer` does; otherwise a new, unstarted Netty server with the factory's lifecycle timeout and route providers, which shuts down gracefully exactly when GRACEFUL is configured, paired with the customized `HttpServer` it serves |
| `UndertowWebServerFactoryDelegates.ConditionalFactoriesOrdered` | spring-boot-project/spring-boot/src/main/java/org/springframework/boot/web/embedded/undertow/UndertowWebServerFactoryDelegate.java:92-103 | the added factories come in a fixed order: compression, proxy peer address, server header, graceful shutdown |
| `UndertowWebServerFactoryDelegates.ConditionalFactoriesPresent` | spring-boot-project/spring-boot/src/main/java/org/springframework/boot/web/embedded/undertow/UndertowWebServerFactoryDelegate.java:92-103 | each added factory is present exactly when its condition holds, and carries the configured value |
| `UndertowWebServerFactoryDelegates.CreateHttpHandlerFactories` | spring-boot-project/spring-boot/src/main/java/org/springframework/boot/web/embedded/undertow/UndertowWebServerFactoryDelegate.java:89-105 | the initial factories in their given order, followed by the conditional ones |
| `UndertowWebServerFactoryDelegates.FactoriesInOrder` | spring-boot-project/spring-boot/src/main/java/org/springframework/boot/web/embedded/undertow/UndertowWebServerFactoryDelegate.java:89-105 | the initial factories stay first, the added ones follow in their fixed order, and the access log comes last |
| `UndertowWebServerFactoryDelegates.UndertowWebServerFactoryDelegate.constructor` | spring-boot-project/spring-boot/src/main/java/org/springframework/boot/web/embedded/undertow/UndertowWebServerFactoryDelegate.java:43-87 | no customizers, access logging off, log rotation on, and forward headers off |
| `UndertowWebServerFactoryDelegates.UndertowWebServerFactoryDelegate.AddBuilderCustomizers` | spring-boot-project/spring-boot/src/main/java/org/springframework/boot/web/embedded/undertow/UndertowWebServerFactoryDelegate.java:107-110 | appends the customizers not yet present |
| `UndertowWebServerFactoryDelegates.UndertowWebServerFactoryDelegate.SetBuilderCustomizers` | spring-boot-project/spring-boot/src/main/java/org/springframework/boot/web/embedded/undertow/UndertowWebServerFactoryDelegate.java:116-119 | replaces the customizers, dropping repeats |
| `UndertowWebServerFactoryDelegates.UndertowWebServerFactoryDelegate.SetAccessLogEnabled` | spring-boot-project/spring-boot/src/main/java/org/springframework/boot/web/embedded/undertow/UndertowWebServerFactoryDelegate.java:161-163 | sets whether access logging is enabled |
| `UndertowWebServerFactoryDelegates.UndertowWebServerFactoryDelegate.SetUseForwardHeaders` | spring-boot-project/spring-boot/src/main/java/org/springframework/boot/web/embedded/undertow/UndertowWebServerFactoryDelegate.java:173-175 | sets whether forwarded headers are used |
| `UndertowWebServerFactoryDelegates.UndertowWebServerFactoryDelegate.CreateHttpHandlerFactoriesFor` | spring-boot-project/spring-boot/src/main/java/org/springframework/boot/web/embedded/undertow/UndertowWebServerFactoryDelegate.java:210-220 | the static list for the web server factory's settings and this delegate's forwarding, with the access-log factory last when access logging is enabled |

## Left out

- EndpointDiscoverers.CreateEndpointBean: `EndpointId` is not part of this model. `EndpointId.of` under the environment is a given function that makes an id, or refuses the value, and an id's `equals` is comparison of a given key; which values `EndpointId.of` refuses and which ids it treats as equal are not modelled.
- Restarters.Restarter.Prepare: installing a `ClassLoaderFilesResourcePatternResolver` as the resource loader of a root `GenericApplicationContext` is not modelled; the model records only which contexts are tracked.
- Threads, sleeps and locks are not modelled, because they are there for concurrency. This covers the watch thread, the Netty await thread, `LeakSafeThread` and `synchronized`. The watcher's `run` loop, its `scan` loop and the restart loop are sequential steps.
- FileSystemWatchers.FileSystemWatcher.Start: `HashMap.replaceAll` visits the directories in an order the model leaves open, so after a failure the contract states only that each directory is as it was or refreshed.
- FileSystemWatchers.Scan: the snapshots the scan takes are a finite list of samples. When the samples run out before two consecutive snapshots agree, the scan changes nothing. The source would go on scanning for ever.
- Restarters.Restarter.Start: the launch results are a finite list that contains a result ending the loop. The source may retry for ever.
- The `Restarter.stop` cleanup is not modelled: garbage collection, finalization, the out-of-memory allocation loop and the reflective cache clearing. It is JVM-specific.
- Real I/O is not modelled: file listing, file reading, the HTTP upload and its retry on connection failure, Java serialization, and the JVM's class definition and URL stream handlers. Listings, bytes and defined classes are parameters or opaque values.
- Logging, `DeferredLog` replay and log message text are not modelled. The one exception is the upload message of `ClassPathChangeUploader`.
- Null arguments rejected by `Assert.notNull` cannot occur, because Dafny references and function values are never null. Values that the source allows to be null are `Option`s.
- Tomcat, Jetty, Reactor Netty and Undertow library calls are opaque. This covers server and connector creation, SSL configuration, the library settings made in `getWebServer` and Undertow's `createBuilder`. A library step with a visible effect is a field or flag of the model: statistics handlers, `runOn` loop resources, SSL and compression flags on the Netty server.
- The `GracefulShutdown` implementations and `GracefulShutdownResult` are not part of this model beyond the results they report.
- `ClassLoaderFile`, `ClassLoaderFiles` (a map by name of files with their source directory), `ChangedFile`, `FileSnapshot`, `ErrorPage`, `TldPatterns`, `DataSourceInitializer`, `TestPropertySourceUtils` and the snapshot state repositories are not part of this model. Each is modelled only by the properties its callers use.
- The conversion service and placeholder resolution used by the random-port post-processor are oracles: what they answer for a value, or the exception they throw, is given. Their failures are passed on as the source throws them.
- Annotation scanning, reflection and `LambdaSafe` in `EndpointDiscoverer` are not modelled. Endpoint beans, extensions, filters and operation keys are given values and predicates.
- EndpointDiscoverers.EndpointDiscoverer.GetEndpoints: discovery evaluates the filters on bean values and does not fill the filter-endpoint cache, which the source keys by bean identity and fills through `getFilterEndpoint` while filters are evaluated. The contract states only that cached entries are kept and that any new entry is the bean's filter endpoint.
- NettyReactiveWebServerFactories.NettyReactiveWebServerFactory.GetWebServer: the server gets a copy of the factory's route providers. The source hands it the factory's own list, so providers added to the factory later also reach the server. The customized `HttpServer` is returned beside the server rather than held in it, because the server model binds through abstract bind requests.
- EndpointDiscoverers.CreateEndpointBeans: an endpoint bean is a value. The extension added to the bean in the id map is therefore recorded in the bean list by index, not by aliasing.
- `ErrorPageFilter.doFilter` is not modelled. Neither is its dispatch on an already-committed error request, nor the unwrapping of `NestedServletException` to its root cause. The operations it calls are modelled.
- `ErrorPageFilter.getOrder`, the `init` and `destroy` hooks and the plain property setters with no rule are not modelled. Examples are the Netty lifecycle-timeout setter and the Undertow buffer and thread settings.
- ErrorPageFilters.ErrorWrapperResponse.FlushBuffer: the writer and output-stream accessors are not modelled separately. They send the pending error exactly as `flushBuffer` does.
- TomcatWebServers.Tomcat.DefaultConnector: `Tomcat.getConnector` is the default service's first connector. Tomcat's creation of a connector on demand is not modelled.
- TomcatWebServers.NewTomcatWebServer: construction and `initialize` are one method. Jetty uses `NewJettyWebServer` the same way. The source's constructor calls `initialize` at once.
- JettyWebServers.JettyWebServer.Initialize: the deferred initialization of the context handlers gives only whether the start failed. It is reported as the initialization failure.
- JettyWebServers.JettyWebServer.Stop: an `InterruptedException` during stop is not modelled, because it comes from threads.
- JettyWebServers.JettyWebServer.GetPort: a connector's local port is given with the connector. It may be missing. The `NetworkConnector` cast and the reflective `getLocalPort` lookup that produce it are not modelled. The same holds for an unsupported Netty port.
- The port clamp `Math.max(port, 0)` is `WebServers.ListenPort`. The Tomcat and Jetty factories both use it. The Jetty call site is not a separate member.
- NettyReactiveWebServerFactories.NettyReactiveWebServerFactory.constructor: an unset shutdown is `IMMEDIATE`. The source leaves it null, which means the same to the server, because only GRACEFUL enables graceful shutdown.
- NettyReactiveWebServerFactories.ListenAddress: the address that Reactor Netty asks for lazily is computed when the server is created. Its port range is that of `InetSocketAddress`.
- TomcatServletWebServerFactories.AddResourceSet: whether Tomcat accepts a resource set is the `accepts` oracle. The exception it throws otherwise is swallowed, as the source does.
- JettyServletWebServerFactories.AddJettyErrorPages: the error handler is always an `ErrorPageErrorHandler`. The `instanceof` check that skips any other handler is not modelled.
- JettyServletWebServerFactories.MaxInactiveInterval: above `Integer.MAX_VALUE` seconds the contract states only that the narrowed value is an `int`. The two's-complement narrowing itself is the `JavaInts.IntCast` helper.
- The DI, configuration and test wiring that has no standalone rules is not modelled. Examples are the auto-configurations, application listeners, property post-processors, context loaders and reactive factory duplicates.
