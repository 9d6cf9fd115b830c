/**
 * Devtools `DirectorySnapshot`: the files found under a source directory at one moment,
 * the diff between two snapshots of the same directory, and filtered equality.
 */
module DirectorySnapshots {
  import opened Wrappers

  /** An absolute file or directory path. */
  type Path = string

  /**
   * A file's state at snapshot time. Two snapshots of one file are equal exactly when the
   * file's length and modification time are (`FileSnapshot` is not part of this model).
   */
  datatype FileSnapshot = FileSnapshot(file: Path, length: int, lastModified: int)

  datatype ChangeType = ADD | DELETE | MODIFY

  datatype ChangedFile = ChangedFile(sourceDirectory: Path, file: Path, kind: ChangeType)

  /** The changes found in one source directory. */
  datatype ChangedFiles = ChangedFiles(sourceDirectory: Path, files: set<ChangedFile>)

  /** A nullable `FileFilter`: `Some(accept)` holds the filter's `accept` test on a path. */
  type FileFilter = Option<Path -> bool>

  datatype DirectorySnapshot = DirectorySnapshot(directory: Path, files: set<FileSnapshot>)

  /**
   * What the file system shows at a path. `listable` is false when `File.listFiles` returns
   * null for a directory; `children` is its listing otherwise.
   */
  datatype Entry =
    | RegularFile(snapshot: FileSnapshot)
    | Directory(name: string, listable: bool, children: seq<Entry>)
    | OtherEntry(name: string)

  datatype SnapshotError = DirectoryIsFile(directory: Path) | DifferentDirectory(expected: Path)

  /** A listing holds one entry per path, so a snapshot holds one `FileSnapshot` per file. */
  predicate OnePerPath(files: set<FileSnapshot>)
  {
    forall f, g | f in files && g in files && f.file == g.file :: f == g
  }

  function PathsOf(files: set<FileSnapshot>): set<Path>
  {
    set f | f in files :: f.file
  }

  // ---------------------------------------------------------------- collecting files

  /** The names `collectFiles` never descends into. */
  predicate IsDots(name: string)
  {
    name == "." || name == ".."
  }

  /**
   * The snapshots `collectFiles(source, ...)` gathers: nothing unless `source` is a listable
   * directory; otherwise, for each child in listing order, the child itself when it is a
   * regular file and the files under it when it is a directory not named "." or "..".
   */
  function FilesUnder(source: Entry): set<FileSnapshot>
    decreases source, 1
  {
    if source.Directory? && source.listable then FilesFrom(source, 0) else {}
  }

  function FilesFrom(source: Entry, i: nat): set<FileSnapshot>
    requires source.Directory? && source.listable
    decreases source, 0, |source.children| - i
  {
    if i >= |source.children| then {}
    else ChildFiles(source.children[i]) + FilesFrom(source, i + 1)
  }

  function ChildFiles(child: Entry): set<FileSnapshot>
    decreases child, 2
  {
    match child
    case RegularFile(f) => {f}
    case Directory(name, _, _) => if IsDots(name) then {} else FilesUnder(child)
    case OtherEntry(_) => {}
  }

  /** `collectFiles(source, result)`: adds the files found under `source` to `result`. */
  method CollectFiles(source: Entry, result: set<FileSnapshot>) returns (r: set<FileSnapshot>)
    ensures r == result + FilesUnder(source)
    decreases source
  {
    r := result;
    if source.Directory? && source.listable {
      var children := source.children;
      var i := 0;
      while i < |children|
        invariant 0 <= i <= |children|
        invariant r + FilesFrom(source, i) == result + FilesFrom(source, 0)
      {
        var child := children[i];
        if child.Directory? && !IsDots(child.name) {
          r := CollectFiles(child, r);
        } else if child.RegularFile? {
          r := r + {child.snapshot};
        }
        i := i + 1;
      }
    }
  }

  /**
   * `new DirectorySnapshot(directory)`: refuses a regular file, otherwise collects the files
   * under `root`, what the file system shows at `directory`.
   */
  method NewDirectorySnapshot(directory: Path, root: Entry)
    returns (r: Result<DirectorySnapshot, SnapshotError>)
    ensures root.RegularFile? <==> r.Failure?
    ensures r.Success? ==> r.value == DirectorySnapshot(directory, FilesUnder(root))
    ensures r.Failure? ==> r.error == DirectoryIsFile(directory)
  {
    if root.RegularFile? {
      return Failure(DirectoryIsFile(directory));
    }
    var files := CollectFiles(root, {});
    return Success(DirectorySnapshot(directory, files));
  }

  /** Only regular files are recorded, and an unlistable directory yields nothing. */
  lemma {:induction false} CollectedAreRegularFiles(source: Entry, f: FileSnapshot)
    requires f in FilesUnder(source)
    ensures source.Directory? && source.listable
    ensures exists i :: 0 <= i < |source.children| && f in ChildFiles(source.children[i])
  {
    FromSomeChild(source, 0, f);
  }

  lemma {:induction false} FromSomeChild(source: Entry, k: nat, f: FileSnapshot)
    requires source.Directory? && source.listable && f in FilesFrom(source, k)
    ensures exists i :: k <= i < |source.children| && f in ChildFiles(source.children[i])
    decreases |source.children| - k
  {
    if f !in ChildFiles(source.children[k]) {
      FromSomeChild(source, k + 1, f);
    }
  }

  /** Every file listed directly, or under a listed non-dot directory, is collected. */
  lemma {:induction false} ChildrenCollected(source: Entry, i: nat, f: FileSnapshot)
    requires source.Directory? && source.listable && i < |source.children|
    requires f in ChildFiles(source.children[i])
    ensures f in FilesUnder(source)
  {
    InFrom(source, 0, i, f);
  }

  lemma {:induction false} InFrom(source: Entry, k: nat, i: nat, f: FileSnapshot)
    requires source.Directory? && source.listable && k <= i < |source.children|
    requires f in ChildFiles(source.children[i])
    ensures f in FilesFrom(source, k)
    decreases i - k
  {
    if k < i {
      InFrom(source, k + 1, i, f);
    }
  }

  // ---------------------------------------------------------------- the diff

  /**
   * `acceptChangedFile`: a file takes part in the diff unless the trigger filter accepts it.
   * It depends on the file's path only.
   */
  predicate AcceptChangedFile(filter: FileFilter, f: FileSnapshot)
  {
    filter.None? || !filter.value(f.file)
  }

  /** `getFilesMap`: each file's snapshot under its path. */
  function FilesMap(files: set<FileSnapshot>): (m: map<Path, FileSnapshot>)
    requires OnePerPath(files)
    ensures m.Keys == PathsOf(files)
    ensures forall f | f in files :: m[f.file] == f
  {
    map f | f in files :: f.file := f
  }

  method GetFilesMap(snapshot: DirectorySnapshot) returns (m: map<Path, FileSnapshot>)
    requires OnePerPath(snapshot.files)
    ensures m == FilesMap(snapshot.files)
  {
    m := map[];
    var pending := snapshot.files;
    while pending != {}
      invariant pending <= snapshot.files
      invariant m.Keys == PathsOf(snapshot.files - pending)
      invariant forall f | f in snapshot.files - pending :: m[f.file] == f
      decreases pending
    {
      var f :| f in pending;
      pending := pending - {f};
      m := m[f.file := f];
    }
    assert snapshot.files - pending == snapshot.files;
  }

  /** The ADD and MODIFY entries for the newer files `files`, against `previous`. */
  function Updates(previous: DirectorySnapshot, files: set<FileSnapshot>, filter: FileFilter)
    : set<ChangedFile>
  {
    var dir := previous.directory;
    (set f | f in files && AcceptChangedFile(filter, f) && f.file !in PathsOf(previous.files)
       :: ChangedFile(dir, f.file, ADD))
    + (set f | f in files && AcceptChangedFile(filter, f) && f.file in PathsOf(previous.files)
                 && f !in previous.files
         :: ChangedFile(dir, f.file, MODIFY))
  }

  /** The DELETE entries: older files whose path the newer snapshot lacks. */
  function Deletions(previous: DirectorySnapshot, current: DirectorySnapshot, filter: FileFilter)
    : set<ChangedFile>
  {
    set g | g in previous.files && AcceptChangedFile(filter, g) && g.file !in PathsOf(current.files)
      :: ChangedFile(previous.directory, g.file, DELETE)
  }

  /** The changes `getChangedFiles` reports between an older and a newer snapshot. */
  function Changes(previous: DirectorySnapshot, current: DirectorySnapshot, filter: FileFilter)
    : set<ChangedFile>
  {
    Updates(previous, current.files, filter) + Deletions(previous, current, filter)
  }

  /** Paths of the accepted files among `files`: the ones the first pass takes out of the map. */
  function AcceptedPaths(files: set<FileSnapshot>, filter: FileFilter): set<Path>
  {
    set f | f in files && AcceptChangedFile(filter, f) :: f.file
  }

  /**
   * `previous.getChangedFiles(current, triggerFilter)`: fails when the snapshots are of different
   * directories; otherwise walks the newer files, taking each accepted one out of the older
   * files' map (ADD when it was absent, MODIFY when it differs), then reports each accepted
   * older file left in the map as DELETE.
   */
  method GetChangedFiles(previous: DirectorySnapshot, current: DirectorySnapshot, filter: FileFilter)
    returns (r: Result<ChangedFiles, SnapshotError>)
    requires OnePerPath(previous.files) && OnePerPath(current.files)
    ensures previous.directory != current.directory <==> r.Failure?
    ensures r.Success? ==>
      r.value == ChangedFiles(previous.directory, Changes(previous, current, filter))
  {
    if current.directory != previous.directory {
      return Failure(DifferentDirectory(previous.directory));
    }
    var previousFiles := GetFilesMap(previous);
    var changes;
    changes, previousFiles := MatchCurrentFiles(previous, current, filter, previousFiles);
    changes := ReportDeletedFiles(previous.directory, filter, previousFiles, changes);
    DeletionsOfRemaining(previous, current, filter, previousFiles);
    return Success(ChangedFiles(previous.directory, changes));
  }

  /**
   * The first pass of `getChangedFiles`: each accepted newer file is taken out of the older
   * files' map and reported ADD when it was absent, MODIFY when it differs.
   */
  method MatchCurrentFiles(previous: DirectorySnapshot, current: DirectorySnapshot,
                           filter: FileFilter, previousFiles: map<Path, FileSnapshot>)
    returns (changes: set<ChangedFile>, left: map<Path, FileSnapshot>)
    requires OnePerPath(previous.files) && OnePerPath(current.files)
    requires previousFiles == FilesMap(previous.files)
    ensures changes == Updates(previous, current.files, filter)
    ensures left.Keys == previousFiles.Keys - AcceptedPaths(current.files, filter)
    ensures forall p | p in left :: left[p] == previousFiles[p]
  {
    var dir := previous.directory;
    changes := {};
    left := previousFiles;
    var pending := current.files;
    ghost var done: set<FileSnapshot> := {};
    while pending != {}
      invariant done + pending == current.files && done !! pending
      invariant Matched(previous, filter, previousFiles, done, left, changes)
      decreases pending
    {
      var f :| f in pending;
      var left', changes' := left, changes;
      if AcceptChangedFile(filter, f) {
        if f.file in left {
          var previousFile := left[f.file];
          left' := left - {f.file};
          if previousFile != f {
            changes' := changes + {ChangedFile(dir, f.file, MODIFY)};
          }
        } else {
          changes' := changes + {ChangedFile(dir, f.file, ADD)};
        }
      }
      MatchStep(previous, current, filter, previousFiles, done, left, changes, f, left', changes');
      pending := pending - {f};
      done := done + {f};
      left, changes := left', changes';
    }
  }

  /**
   * What the first pass has established after the newer files `done`: their accepted paths are
   * out of the map, the rest of the map is untouched, and their changes are reported.
   */
  predicate Matched(previous: DirectorySnapshot, filter: FileFilter,
                    previousFiles: map<Path, FileSnapshot>, done: set<FileSnapshot>,
                    left: map<Path, FileSnapshot>, changes: set<ChangedFile>)
  {
    && left.Keys == previousFiles.Keys - AcceptedPaths(done, filter)
    && (forall p | p in left :: left[p] == previousFiles[p])
    && changes == Updates(previous, done, filter)
  }

  /** One turn of the first pass, for the newer file `f`, keeps `Matched`. */
  lemma MatchStep(previous: DirectorySnapshot, current: DirectorySnapshot, filter: FileFilter,
                  previousFiles: map<Path, FileSnapshot>, done: set<FileSnapshot>,
                  left: map<Path, FileSnapshot>, changes: set<ChangedFile>, f: FileSnapshot,
                  left': map<Path, FileSnapshot>, changes': set<ChangedFile>)
    requires OnePerPath(previous.files) && OnePerPath(current.files)
    requires previousFiles == FilesMap(previous.files)
    requires done <= current.files && f in current.files && f !in done
    requires Matched(previous, filter, previousFiles, done, left, changes)
    requires left' == if AcceptChangedFile(filter, f) && f.file in left then left - {f.file} else left
    requires changes' == if !AcceptChangedFile(filter, f) then changes
                         else if f.file !in left then changes + {ChangedFile(previous.directory, f.file, ADD)}
                         else if left[f.file] != f then changes + {ChangedFile(previous.directory, f.file, MODIFY)}
                         else changes
    ensures Matched(previous, filter, previousFiles, done + {f}, left', changes')
  {
    NotYetTaken(current.files, done, f, filter);
    AcceptedPathsStep(done, f, filter);
    assert previousFiles.Keys == PathsOf(previous.files);
    assert f.file in left <==> f.file in previousFiles.Keys;
    var taken := if AcceptChangedFile(filter, f) then {f.file} else {};
    assert left'.Keys == left.Keys - taken;
    assert left'.Keys == previousFiles.Keys - (AcceptedPaths(done, filter) + taken);
    if AcceptChangedFile(filter, f) && f.file in left {
      assert left[f.file] == previousFiles[f.file];
      if f in previous.files {
        assert previousFiles[f.file] == f;
      }
    }
    ReportStep(previous, filter, done, left, changes, f, changes');
  }

  /** The changes one turn of the first pass adds are those `Updates` adds for `f`. */
  lemma ReportStep(previous: DirectorySnapshot, filter: FileFilter, done: set<FileSnapshot>,
                   left: map<Path, FileSnapshot>, changes: set<ChangedFile>, f: FileSnapshot,
                   changes': set<ChangedFile>)
    requires changes == Updates(previous, done, filter)
    requires AcceptChangedFile(filter, f) ==>
      (f.file in left <==> f.file in PathsOf(previous.files))
      && (f.file in left ==> (left[f.file] == f <==> f in previous.files))
    requires changes' == if !AcceptChangedFile(filter, f) then changes
                         else if f.file !in left then changes + {ChangedFile(previous.directory, f.file, ADD)}
                         else if left[f.file] != f then changes + {ChangedFile(previous.directory, f.file, MODIFY)}
                         else changes
    ensures changes' == Updates(previous, done + {f}, filter)
  {
    UpdatesStep(previous, done, f, filter);
  }

  /** The second pass of `getChangedFiles`: each accepted file left in the map is a DELETE. */
  method ReportDeletedFiles(dir: Path, filter: FileFilter, left: map<Path, FileSnapshot>,
                            updates: set<ChangedFile>)
    returns (changes: set<ChangedFile>)
    ensures changes == updates + DeletesOf(left, left.Keys, filter, dir)
  {
    changes := updates;
    var rest := left.Keys;
    ghost var seen: set<Path> := {};
    while rest != {}
      invariant seen + rest == left.Keys && seen !! rest
      invariant changes == updates + DeletesOf(left, seen, filter, dir)
      decreases rest
    {
      var p :| p in rest;
      rest := rest - {p};
      var previousFile := left[p];
      DeletesStep(left, seen, p, filter, dir);
      if AcceptChangedFile(filter, previousFile) {
        changes := changes + {ChangedFile(dir, p, DELETE)};
      }
      seen := seen + {p};
    }
  }

  /** One ADD or MODIFY entry, or none, for a single newer file. */
  function UpdateOf(previous: DirectorySnapshot, f: FileSnapshot, filter: FileFilter): set<ChangedFile>
  {
    if !AcceptChangedFile(filter, f) then {}
    else if f.file !in PathsOf(previous.files) then {ChangedFile(previous.directory, f.file, ADD)}
    else if f !in previous.files then {ChangedFile(previous.directory, f.file, MODIFY)}
    else {}
  }

  lemma UpdatesStep(previous: DirectorySnapshot, done: set<FileSnapshot>, f: FileSnapshot,
                    filter: FileFilter)
    ensures Updates(previous, done + {f}, filter)
            == Updates(previous, done, filter) + UpdateOf(previous, f, filter)
  {
  }

  lemma AcceptedPathsStep(done: set<FileSnapshot>, f: FileSnapshot, filter: FileFilter)
    ensures AcceptedPaths(done + {f}, filter)
            == AcceptedPaths(done, filter) + (if AcceptChangedFile(filter, f) then {f.file} else {})
  {
  }

  /** A newer file's path has not been taken out of the map before its turn. */
  lemma NotYetTaken(files: set<FileSnapshot>, done: set<FileSnapshot>, f: FileSnapshot,
                    filter: FileFilter)
    requires OnePerPath(files) && done <= files && f in files && f !in done
    ensures f.file !in AcceptedPaths(done, filter)
  {
  }

  /** The DELETE entries for the accepted files under the paths `keys` of the map `left`. */
  function DeletesOf(left: map<Path, FileSnapshot>, keys: set<Path>, filter: FileFilter, dir: Path)
    : set<ChangedFile>
    requires keys <= left.Keys
  {
    set p | p in keys && AcceptChangedFile(filter, left[p]) :: ChangedFile(dir, p, DELETE)
  }

  lemma DeletesStep(left: map<Path, FileSnapshot>, keys: set<Path>, p: Path, filter: FileFilter,
                    dir: Path)
    requires keys <= left.Keys && p in left
    ensures DeletesOf(left, keys + {p}, filter, dir)
            == DeletesOf(left, keys, filter, dir)
               + (if AcceptChangedFile(filter, left[p]) then {ChangedFile(dir, p, DELETE)} else {})
  {
  }

  /** The accepted files left in the map after the first pass are exactly the deletions. */
  lemma DeletionsOfRemaining(previous: DirectorySnapshot, current: DirectorySnapshot,
                             filter: FileFilter, left: map<Path, FileSnapshot>)
    requires OnePerPath(previous.files) && OnePerPath(current.files)
    requires left.Keys == FilesMap(previous.files).Keys - AcceptedPaths(current.files, filter)
    requires forall p | p in left :: left[p] == FilesMap(previous.files)[p]
    ensures DeletesOf(left, left.Keys, filter, previous.directory) == Deletions(previous, current, filter)
  {
    var dir := previous.directory;
    var lhs := DeletesOf(left, left.Keys, filter, dir);
    forall c | c in lhs ensures c in Deletions(previous, current, filter) {
      var p :| p in left.Keys && AcceptChangedFile(filter, left[p]) && c == ChangedFile(dir, p, DELETE);
      var g := left[p];
      assert g in previous.files && g.file == p;
    }
    forall c | c in Deletions(previous, current, filter) ensures c in lhs {
      var g :| g in previous.files && AcceptChangedFile(filter, g) && g.file !in PathsOf(current.files)
        && c == ChangedFile(dir, g.file, DELETE);
      assert g.file !in AcceptedPaths(current.files, filter);
      assert g.file in left && left[g.file] == g;
    }
  }

  // ---------------------------------------------------------------- properties of the diff

  /** A file the trigger filter accepts is never reported, whatever its state. */
  lemma {:induction false} TriggerFilesNeverReported(previous: DirectorySnapshot,
                                                    current: DirectorySnapshot,
                                                    accept: Path -> bool, c: ChangedFile)
    requires c in Changes(previous, current, Some(accept))
    ensures !accept(c.file)
  {
  }

  /**
   * What a reported change says about its path: ADD paths are only in the newer snapshot,
   * DELETE paths only in the older one, MODIFY paths in both; all are accepted paths of the
   * older snapshot's directory.
   */
  lemma ChangeFacts(previous: DirectorySnapshot, current: DirectorySnapshot, filter: FileFilter,
                    c: ChangedFile)
    requires c in Changes(previous, current, filter)
    ensures c.sourceDirectory == previous.directory
    ensures filter.None? || !filter.value(c.file)
    ensures c.kind == ADD ==> c.file in PathsOf(current.files) && c.file !in PathsOf(previous.files)
    ensures c.kind == MODIFY ==> c.file in PathsOf(current.files) && c.file in PathsOf(previous.files)
    ensures c.kind == MODIFY ==> exists f :: f in current.files && f.file == c.file && f !in previous.files
    ensures c.kind == DELETE ==> c.file !in PathsOf(current.files) && c.file in PathsOf(previous.files)
  {
    if c in Deletions(previous, current, filter) {
      var g :| g in previous.files && AcceptChangedFile(filter, g) && g.file !in PathsOf(current.files)
        && c == ChangedFile(previous.directory, g.file, DELETE);
      assert c.file in PathsOf(previous.files);
    } else {
      var f :| f in current.files && AcceptChangedFile(filter, f) && c.file == f.file
        && c.sourceDirectory == previous.directory
        && (c.kind == ADD ==> f.file !in PathsOf(previous.files))
        && (c.kind != ADD ==> c.kind == MODIFY && f.file in PathsOf(previous.files));
      assert c.file in PathsOf(current.files);
    }
  }

  /** An accepted path only the newer snapshot has is reported ADD, and only such paths are. */
  lemma AddClassification(previous: DirectorySnapshot, current: DirectorySnapshot,
                          filter: FileFilter, p: Path)
    requires filter.None? || !filter.value(p)
    ensures ChangedFile(previous.directory, p, ADD) in Changes(previous, current, filter)
            <==> p in PathsOf(current.files) && p !in PathsOf(previous.files)
  {
    var c := ChangedFile(previous.directory, p, ADD);
    if c in Changes(previous, current, filter) {
      ChangeFacts(previous, current, filter, c);
    }
  }

  /** An accepted path both snapshots have, with different snapshots, is reported MODIFY. */
  lemma ModifyClassification(previous: DirectorySnapshot, current: DirectorySnapshot,
                             filter: FileFilter, p: Path)
    requires OnePerPath(previous.files) && OnePerPath(current.files)
    requires filter.None? || !filter.value(p)
    ensures ChangedFile(previous.directory, p, MODIFY) in Changes(previous, current, filter)
            <==> p in PathsOf(current.files) && p in PathsOf(previous.files)
                 && FilesMap(current.files)[p] != FilesMap(previous.files)[p]
  {
    var c := ChangedFile(previous.directory, p, MODIFY);
    if c in Changes(previous, current, filter) {
      ChangeFacts(previous, current, filter, c);
      var f :| f in current.files && f.file == p && f !in previous.files;
      var g :| g in previous.files && g.file == p;
    } else if p in PathsOf(current.files) && p in PathsOf(previous.files) {
      var f :| f in current.files && f.file == p;
      ModifiedFileReported(previous, current, filter, f);
    }
  }

  /** A newer accepted file whose path the older snapshot has under another snapshot is MODIFY. */
  lemma ModifiedFileReported(previous: DirectorySnapshot, current: DirectorySnapshot,
                             filter: FileFilter, f: FileSnapshot)
    requires f in current.files && AcceptChangedFile(filter, f) && f.file in PathsOf(previous.files)
    ensures f !in previous.files
            ==> ChangedFile(previous.directory, f.file, MODIFY) in Changes(previous, current, filter)
  {
  }

  /** An accepted path only the older snapshot has is reported DELETE, and only such paths are. */
  lemma DeleteClassification(previous: DirectorySnapshot, current: DirectorySnapshot,
                             filter: FileFilter, p: Path)
    requires filter.None? || !filter.value(p)
    ensures ChangedFile(previous.directory, p, DELETE) in Changes(previous, current, filter)
            <==> p in PathsOf(previous.files) && p !in PathsOf(current.files)
  {
    var c := ChangedFile(previous.directory, p, DELETE);
    if c in Changes(previous, current, filter) {
      ChangeFacts(previous, current, filter, c);
    }
  }

  /** Each path is reported at most once, with a single kind of change. */
  lemma ReportedOnce(previous: DirectorySnapshot, current: DirectorySnapshot,
                     filter: FileFilter, c: ChangedFile, d: ChangedFile)
    requires c in Changes(previous, current, filter) && d in Changes(previous, current, filter)
    requires c.file == d.file
    ensures c == d
  {
    ChangeFacts(previous, current, filter, c);
    ChangeFacts(previous, current, filter, d);
  }

  /** The diff is no larger than the union of both snapshots' paths. */
  lemma DiffBounded(previous: DirectorySnapshot, current: DirectorySnapshot, filter: FileFilter)
    ensures |Changes(previous, current, filter)|
            <= |PathsOf(previous.files) + PathsOf(current.files)|
  {
    var changes := Changes(previous, current, filter);
    var paths := PathsOf(previous.files) + PathsOf(current.files);
    forall c, d | c in changes && d in changes && c.file == d.file ensures c == d {
      ReportedOnce(previous, current, filter, c, d);
    }
    forall c | c in changes ensures c.file in paths {
      ChangeFacts(previous, current, filter, c);
    }
    InjectionBound(changes, paths);
  }

  /** A set mapped injectively into another is no larger. */
  lemma {:induction false} InjectionBound(s: set<ChangedFile>, paths: set<Path>)
    requires forall c | c in s :: c.file in paths
    requires forall c, d | c in s && d in s && c.file == d.file :: c == d
    ensures |s| <= |paths|
    decreases s
  {
    if s != {} {
      var c :| c in s;
      var s' := s - {c};
      forall d | d in s' ensures d.file in paths - {c.file} {
      }
      InjectionBound(s', paths - {c.file});
    }
  }

  /** Two snapshots with the same files differ in nothing. */
  lemma {:induction false} IdenticalFilesNoChanges(previous: DirectorySnapshot,
                                                  current: DirectorySnapshot, filter: FileFilter)
    requires previous.files == current.files
    ensures Changes(previous, current, filter) == {}
  {
    assert Updates(previous, current.files, filter) == {};
    assert forall g | g in previous.files :: g.file in PathsOf(current.files);
  }

  // ---------------------------------------------------------------- filtered equality

  /** `filter(source, filter)`: every file with a null filter, else the accepted files. */
  function Filtered(files: set<FileSnapshot>, filter: FileFilter): set<FileSnapshot>
  {
    if filter.None? then files else set f | f in files && filter.value(f.file)
  }

  method Filter(source: set<FileSnapshot>, filter: FileFilter) returns (filtered: set<FileSnapshot>)
    ensures filtered == Filtered(source, filter)
  {
    if filter.None? {
      return source;
    }
    filtered := {};
    var pending := source;
    while pending != {}
      invariant pending <= source
      invariant filtered == set f | f in source - pending && filter.value(f.file)
      decreases pending
    {
      var f :| f in pending;
      pending := pending - {f};
      if filter.value(f.file) {
        filtered := filtered + {f};
      }
    }
    assert source - pending == source;
  }

  /** `equals(other, filter)`: same directory, and the same files once both are filtered. */
  predicate EqualsUnder(a: DirectorySnapshot, b: DirectorySnapshot, filter: FileFilter)
  {
    a.directory == b.directory && Filtered(a.files, filter) == Filtered(b.files, filter)
  }

  /** Filtered equality only looks at the files the filter accepts (both directions). */
  lemma EqualsUnderFilter(a: DirectorySnapshot, b: DirectorySnapshot, accept: Path -> bool)
    requires a.directory == b.directory
    ensures EqualsUnder(a, b, Some(accept))
            <==> forall f: FileSnapshot | accept(f.file) :: f in a.files <==> f in b.files
  {
    if EqualsUnder(a, b, Some(accept)) {
      forall f: FileSnapshot | accept(f.file) ensures f in a.files <==> f in b.files {
        assert f in a.files <==> f in Filtered(a.files, Some(accept));
        assert f in b.files <==> f in Filtered(b.files, Some(accept));
      }
    }
  }

  /**
   * Without a filter, two snapshots of one directory are equal exactly when the diff between
   * them is empty.
   */
  lemma {:induction false} EqualIffNoChanges(a: DirectorySnapshot, b: DirectorySnapshot)
    requires a.directory == b.directory
    requires OnePerPath(a.files) && OnePerPath(b.files)
    ensures EqualsUnder(a, b, None) <==> Changes(a, b, None) == {}
  {
    if Changes(a, b, None) == {} {
      forall f | f in b.files ensures f in a.files {
        AddClassification(a, b, None, f.file);
        ModifyClassification(a, b, None, f.file);
        assert f.file in PathsOf(b.files);
        assert FilesMap(b.files)[f.file] == f;
      }
      forall g | g in a.files ensures g in b.files {
        DeleteClassification(a, b, None, g.file);
        assert g.file in PathsOf(a.files);
        var h :| h in b.files && h.file == g.file;
        assert h in a.files;
      }
    } else {
      var c :| c in Changes(a, b, None);
      if c in Deletions(a, b, None) {
        var g :| g in a.files && g.file !in PathsOf(b.files) && c.file == g.file;
        assert g !in b.files;
      } else {
        var f :| f in b.files && c.file == f.file && (f.file !in PathsOf(a.files) || f !in a.files);
        assert f !in a.files;
      }
    }
  }
}
