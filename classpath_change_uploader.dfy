/**
 * Devtools remote `ClassPathChangeUploader`: converts a class-path change event into
 * `ClassLoaderFiles` for upload to the remote application.
 */
module ClassPathChangeUploaders {
  import opened Wrappers
  import opened Strings
  import opened DirectorySnapshots
  import opened ClassLoaderFiles
  import opened ClassPathFileChangeListeners

  /** `TYPE_MAPPINGS`: how a change of the watched file becomes the kind of a class loader file. */
  function TypeMapping(t: ChangeType): Kind
  {
    match t
    case ADD => ADDED
    case DELETE => DELETED
    case MODIFY => MODIFIED
  }

  /** The mapping is one-to-one. */
  lemma TypeMappingInjective(s: ChangeType, t: ChangeType)
    requires TypeMapping(s) == TypeMapping(t)
    ensures s == t
  {
  }

  /** The mapping is onto: every kind of class loader file comes from some change. */
  lemma TypeMappingOnto(k: Kind)
    ensures exists t :: TypeMapping(t) == k
  {
    match k
    case ADDED => assert TypeMapping(ADD) == k;
    case DELETED => assert TypeMapping(DELETE) == k;
    case MODIFIED => assert TypeMapping(MODIFY) == k;
  }

  /** What the uploader reads from the local file system and the clock. */
  datatype FileAccess = FileAccess(contents: Path -> seq<byte>, lastModified: Path -> int, now: int)

  /**
   * `asClassLoaderFile`: a deleted file has no contents and the current time; any other file
   * carries its bytes and modification time.
   */
  function AsClassLoaderFile(changedFile: ChangedFile, io: FileAccess): (r: ClassLoaderFile)
    ensures r.kind == TypeMapping(changedFile.kind)
    ensures r.contents.None? <==> changedFile.kind == DELETE
    ensures r.contents.Some? ==> r.contents.value == io.contents(changedFile.file)
    ensures r.contents.Some? ==> r.lastModified == io.lastModified(changedFile.file)
    ensures r.contents.None? ==> r.lastModified == io.now
  {
    var kind := TypeMapping(changedFile.kind);
    var bytes := if kind != DELETED then Some(io.contents(changedFile.file)) else None;
    var lastModified := if kind != DELETED then io.lastModified(changedFile.file) else io.now;
    ClassLoaderFile(kind, lastModified, bytes)
  }

  /** Some changed file of the change set is uploaded under `name` as `entry`. */
  predicate UploadedFrom(changeSet: set<ChangedFiles>, relativeName: ChangedFile -> string, io: FileAccess,
                         name: string, entry: FileEntry)
  {
    exists d, f | d in changeSet && f in d.files
      :: relativeName(f) == name && entry == FileEntry(d.sourceDirectory, AsClassLoaderFile(f, io))
  }

  /**
   * `getClassLoaderFiles`: every changed file of every directory is added under its relative
   * name and its directory. A name changed in several directories is held once, as the file
   * visited last.
   */
  method GetClassLoaderFiles(changeSet: set<ChangedFiles>, relativeName: ChangedFile -> string, io: FileAccess)
    returns (files: Files)
    ensures forall name :: name in files
              <==> exists d, f | d in changeSet && f in d.files :: relativeName(f) == name
    ensures forall name | name in files :: UploadedFrom(changeSet, relativeName, io, name, files[name])
  {
    files := map[];
    var directories := changeSet;
    while directories != {}
      invariant directories <= changeSet
      invariant forall name :: name in files
                  <==> exists d, f | d in changeSet - directories && f in d.files :: relativeName(f) == name
      invariant forall name | name in files :: UploadedFrom(changeSet, relativeName, io, name, files[name])
      decreases directories
    {
      var changedFiles :| changedFiles in directories;
      ghost var before := files;
      var pending := changedFiles.files;
      while pending != {}
        invariant pending <= changedFiles.files
        invariant forall name :: name in files
                    <==> name in before
                         || exists f | f in changedFiles.files - pending :: relativeName(f) == name
        invariant forall name | name in files :: UploadedFrom(changeSet, relativeName, io, name, files[name])
        decreases pending
      {
        var changedFile :| changedFile in pending;
        files := AddFile(files, changedFiles.sourceDirectory, relativeName(changedFile), AsClassLoaderFile(changedFile, io));
        pending := pending - {changedFile};
      }
      directories := directories - {changedFiles};
    }
  }

  /** `logUpload`'s message. */
  function UploadMessage(size: nat): (message: string)
    ensures StartsWith(message, "Uploaded " + NatToString(size) + " class resource")
  {
    "Uploaded " + NatToString(size) + " class " + (if size != 1 then "resources" else "resource")
  }

  /** The message uses the plural exactly when the count is not one. */
  lemma UploadMessagePlural(size: nat)
    ensures EndsWith(UploadMessage(size), "resources") <==> size != 1
  {
    var m := UploadMessage(size);
    if size == 1 {
      assert m[|m| - 1] == 'e';
    }
  }

  datatype UploaderError = EmptyUrl | MalformedUrl(url: string)

  /** A configured uploader: the remote URI and the HTTP request factory it posts with. */
  datatype ClassPathChangeUploader = ClassPathChangeUploader(uri: string, requestFactory: nat)

  /**
   * The constructor: the URL must have length, then parse as a URI (`toUri` stands for
   * `new URL(url).toURI()`). A null request factory is excluded by the type.
   */
  function NewUploader(url: Option<string>, requestFactory: nat, toUri: string -> Option<string>)
    : (r: Result<ClassPathChangeUploader, UploaderError>)
    ensures !HasLength(url) ==> r == Failure(EmptyUrl)
    ensures HasLength(url) && toUri(url.value).None? ==> r == Failure(MalformedUrl(url.value))
    ensures r.Success? <==> HasLength(url) && toUri(url.value).Some?
    ensures r.Success? ==> r.value == ClassPathChangeUploader(toUri(url.value).value, requestFactory)
  {
    if !HasLength(url) then Failure(EmptyUrl)
    else match toUri(url.value)
      case None => Failure(MalformedUrl(url.value))
      case Some(uri) => Success(ClassPathChangeUploader(uri, requestFactory))
  }
}
