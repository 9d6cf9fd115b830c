/**
 * The changed class-path entries handed to a restarted application. `ClassLoaderFile` and
 * `ClassLoaderFiles` are not part of this model: a file is its kind, modification time and
 * (absent when deleted) contents. A collection holds each name at most once, under the source
 * directory that last added it, because adding a file first removes that name from every
 * source directory.
 */
module ClassLoaderFiles {
  import opened Wrappers

  type byte = bv8

  datatype Kind = ADDED | DELETED | MODIFIED

  datatype ClassLoaderFile = ClassLoaderFile(kind: Kind, lastModified: int, contents: Option<seq<byte>>)

  /** A file together with the source directory it was added under. */
  datatype FileEntry = FileEntry(sourceDirectory: string, file: ClassLoaderFile)

  /** The files of a `ClassLoaderFiles`, by name. */
  type Files = map<string, FileEntry>

  /** What a `ClassLoaderFile` guarantees on construction: contents are absent exactly for a deletion. */
  predicate Consistent(file: ClassLoaderFile)
  {
    file.contents.None? <==> file.kind == DELETED
  }

  /** A `ClassLoaderFileRepository`: the override recorded for a resource name, if any. */
  type Repository = string -> Option<ClassLoaderFile>

  /** `getFile`: the file held under a name, whatever its source directory. */
  function GetFile(files: Files, name: string): (r: Option<ClassLoaderFile>)
    ensures r.Some? <==> name in files
    ensures r.Some? ==> FileEntry(files[name].sourceDirectory, r.value) == files[name]
  {
    if name in files then Some(files[name].file) else None
  }

  /**
   * `addFile(sourceDirectory, name, file)`: the name leaves every source directory, then joins
   * `sourceDirectory`. Every other name keeps its entry, and `size` grows by one exactly when the
   * name was not held.
   */
  function AddFile(files: Files, sourceDirectory: string, name: string, file: ClassLoaderFile): (r: Files)
    ensures r.Keys == files.Keys + {name}
    ensures GetFile(r, name) == Some(file) && r[name].sourceDirectory == sourceDirectory
    ensures forall n | n in files && n != name :: r[n] == files[n]
    ensures |r| == if name in files then |files| else |files| + 1
  {
    files[name := FileEntry(sourceDirectory, file)]
  }

  /** `addAll`: every file of `added` is added in turn, so its entries replace those of the same name. */
  function AddFiles(files: Files, added: Files): (r: Files)
    ensures r.Keys == files.Keys + added.Keys
    ensures forall n | n in added :: r[n] == added[n]
    ensures forall n | n in files && n !in added :: r[n] == files[n]
  {
    files + added
  }

  /** However often a name is added, and from whichever directories, it is held once: the last addition. */
  lemma AddFileTwice(files: Files, d1: string, d2: string, name: string, f1: ClassLoaderFile, f2: ClassLoaderFile)
    ensures AddFile(AddFile(files, d1, name, f1), d2, name, f2) == AddFile(files, d2, name, f2)
    ensures |AddFile(AddFile(files, d1, name, f1), d2, name, f2)| == |AddFile(files, d1, name, f1)|
  {
    var once := AddFile(files, d1, name, f1);
    var twice := AddFile(once, d2, name, f2);
    assert twice.Keys == AddFile(files, d2, name, f2).Keys;
  }
}
