/**
 * Devtools `RestartClassLoader`: a class loader whose classes and resources may be overridden,
 * or hidden, by the files changed since its URLs were built.
 */
module RestartClassLoaders {
  import opened Wrappers
  import opened ClassLoaderFiles

  /** `String.replace(char, char)`. */
  function ReplaceChar(s: string, from: char, to: char): (r: string)
    ensures |r| == |s|
    ensures forall i :: 0 <= i < |s| ==> r[i] == if s[i] == from then to else s[i]
  {
    if s == [] then [] else [if s[0] == from then to else s[0]] + ReplaceChar(s[1..], from, to)
  }

  /** The resource a class is read from: the binary name with '.' replaced by '/', plus ".class". */
  function ClassFilePath(name: string): (path: string)
    ensures |path| == |name| + 6 && path[|name|..] == ".class"
    ensures forall i :: 0 <= i < |name| ==> path[i] == if name[i] == '.' then '/' else name[i]
  {
    ReplaceChar(name, '.', '/') + ".class"
  }

  /** The class-file path holds no '.' before its suffix. */
  lemma ClassFilePathHasNoDots(name: string)
    ensures forall i :: 0 <= i < |name| ==> ClassFilePath(name)[i] != '.'
  {
  }

  /** A resource URL: one the loader's jars and directories resolve, or a synthetic "reloaded" one. */
  datatype Url = Located(location: string) | Reloaded(path: string, file: ClassLoaderFile)

  /** `createFileUrl`: a "reloaded" URL with path "/" + name, served from the override. */
  function CreateFileUrl(name: string, file: ClassLoaderFile): (url: Url)
    ensures url.Reloaded? && url.path == "/" + name && url.file == file
  {
    Reloaded("/" + name, file)
  }

  /** A loaded class: defined here from override bytes, or one found by other means. */
  datatype LoadedClass = Defined(name: string, bytes: seq<byte>) | Found(name: string, origin: nat)

  datatype ClassNotFound = ClassNotFound(name: string)

  /**
   * What the loader consults besides its overrides: its own URLs (`super.findResource`,
   * `super.findClass`), the classes it has already loaded, and the parent loader.
   */
  datatype Lookups = Lookups(
    ownResource: string -> Option<Url>,
    ownClass: string -> Option<LoadedClass>,
    loadedClass: string -> Option<LoadedClass>,
    parentResource: string -> Option<Url>,
    parentClass: string -> Option<LoadedClass>)

  predicate IsDeleted(file: Option<ClassLoaderFile>)
  {
    file.Some? && file.value.kind == DELETED
  }

  /** `findResource`: the override when there is one (none if deleted), else the own URLs. */
  function FindResource(name: string, updatedFiles: Repository, lookups: Lookups): (r: Option<Url>)
    ensures updatedFiles(name).None? ==> r == lookups.ownResource(name)
    ensures IsDeleted(updatedFiles(name)) ==> r.None?
    ensures updatedFiles(name).Some? && !IsDeleted(updatedFiles(name))
            ==> r == Some(CreateFileUrl(name, updatedFiles(name).value))
  {
    match updatedFiles(name)
    case None => lookups.ownResource(name)
    case Some(file) => if file.kind == DELETED then None else Some(CreateFileUrl(name, file))
  }

  /** `getResource`: a deleted override hides the resource; else this loader's, else the parent's. */
  function GetResource(name: string, updatedFiles: Repository, lookups: Lookups): (r: Option<Url>)
    ensures IsDeleted(updatedFiles(name)) ==> r.None?
    ensures !IsDeleted(updatedFiles(name)) && FindResource(name, updatedFiles, lookups).Some?
            ==> r == FindResource(name, updatedFiles, lookups)
    ensures !IsDeleted(updatedFiles(name)) && FindResource(name, updatedFiles, lookups).None?
            ==> r == lookups.parentResource(name)
  {
    var file := updatedFiles(name);
    if file.Some? && file.value.kind == DELETED then None
    else
      var resource := FindResource(name, updatedFiles, lookups);
      if resource.Some? then resource else lookups.parentResource(name)
  }

  /**
   * `findClass`: without an override, the own URLs; a deleted override is not found;
   * otherwise the class is defined from the override's bytes.
   */
  function FindClass(name: string, updatedFiles: Repository, lookups: Lookups): (r: Result<LoadedClass, ClassNotFound>)
    requires updatedFiles(ClassFilePath(name)).Some? ==> Consistent(updatedFiles(ClassFilePath(name)).value)
    ensures var file := updatedFiles(ClassFilePath(name));
            file.None? ==> r == (if lookups.ownClass(name).Some? then Success(lookups.ownClass(name).value)
                                 else Failure(ClassNotFound(name)))
    ensures IsDeleted(updatedFiles(ClassFilePath(name))) ==> r == Failure(ClassNotFound(name))
    ensures var file := updatedFiles(ClassFilePath(name));
            file.Some? && !IsDeleted(file) ==> r == Success(Defined(name, file.value.contents.value))
  {
    match updatedFiles(ClassFilePath(name))
    case None =>
      (match lookups.ownClass(name)
       case Some(c) => Success(c)
       case None => Failure(ClassNotFound(name)))
    case Some(file) =>
      if file.kind == DELETED then Failure(ClassNotFound(name))
      else Success(Defined(name, file.contents.value))
  }

  /**
   * `loadClass`: a deleted override is not found; then an already loaded class; then
   * `findClass`; and when that finds nothing, the parent (`Class.forName`).
   */
  function LoadClass(name: string, updatedFiles: Repository, lookups: Lookups): (r: Result<LoadedClass, ClassNotFound>)
    requires updatedFiles(ClassFilePath(name)).Some? ==> Consistent(updatedFiles(ClassFilePath(name)).value)
    ensures IsDeleted(updatedFiles(ClassFilePath(name))) ==> r == Failure(ClassNotFound(name))
    ensures !IsDeleted(updatedFiles(ClassFilePath(name))) && lookups.loadedClass(name).Some?
            ==> r == Success(lookups.loadedClass(name).value)
    ensures var found := FindClass(name, updatedFiles, lookups);
            var fallBack := !IsDeleted(updatedFiles(ClassFilePath(name))) && lookups.loadedClass(name).None?;
            fallBack && found.Success? ==> r == found
    ensures var found := FindClass(name, updatedFiles, lookups);
            var fallBack := !IsDeleted(updatedFiles(ClassFilePath(name))) && lookups.loadedClass(name).None?;
            fallBack && found.Failure?
            ==> r == (if lookups.parentClass(name).Some? then Success(lookups.parentClass(name).value)
                      else Failure(ClassNotFound(name)))
  {
    var file := updatedFiles(ClassFilePath(name));
    if file.Some? && file.value.kind == DELETED then Failure(ClassNotFound(name))
    else if lookups.loadedClass(name).Some? then Success(lookups.loadedClass(name).value)
    else
      var found := FindClass(name, updatedFiles, lookups);
      if found.Success? then found
      else if lookups.parentClass(name).Some? then Success(lookups.parentClass(name).value)
      else Failure(ClassNotFound(name))
  }

  /** A class overridden by added or modified bytes always loads from those bytes, unless already loaded. */
  lemma OverriddenClassIsDefinedFromBytes(name: string, updatedFiles: Repository, lookups: Lookups)
    requires updatedFiles(ClassFilePath(name)).Some? && Consistent(updatedFiles(ClassFilePath(name)).value)
    requires updatedFiles(ClassFilePath(name)).value.kind != DELETED
    requires lookups.loadedClass(name).None?
    ensures LoadClass(name, updatedFiles, lookups)
            == Success(Defined(name, updatedFiles(ClassFilePath(name)).value.contents.value))
  {
  }

  /** A deleted override hides a class and its resource whatever the URLs and the parent hold. */
  lemma DeletedOverrideHides(name: string, updatedFiles: Repository, lookups: Lookups, other: Lookups)
    requires IsDeleted(updatedFiles(ClassFilePath(name))) && Consistent(updatedFiles(ClassFilePath(name)).value)
    ensures LoadClass(name, updatedFiles, lookups) == LoadClass(name, updatedFiles, other)
    ensures FindClass(name, updatedFiles, lookups) == FindClass(name, updatedFiles, other)
    ensures GetResource(ClassFilePath(name), updatedFiles, lookups).None?
    ensures FindResource(ClassFilePath(name), updatedFiles, lookups).None?
  {
  }

  /** A `java.util.Enumeration` over a given sequence of elements. */
  class SeqEnumeration<E> {
    var remaining: seq<E>

    constructor (elements: seq<E>)
      ensures remaining == elements
    {
      remaining := elements;
    }

    predicate HasMoreElements()
      reads this
    {
      remaining != []
    }

    /** The next element; `None` stands for `NoSuchElementException`. */
    method NextElement() returns (r: Option<E>)
      modifies this
      ensures old(remaining) == [] ==> r.None? && remaining == []
      ensures old(remaining) != [] ==> r == Some(old(remaining)[0]) && remaining == old(remaining)[1..]
    {
      if remaining == [] {
        r := None;
      } else {
        r := Some(remaining[0]);
        remaining := remaining[1..];
      }
    }
  }

  /** `CompoundEnumeration`: an enumeration with one additional element at the front. */
  class CompoundEnumeration<E> {
    var firstElement: Option<E>
    const enumeration: SeqEnumeration<E>

    constructor (firstElement: E, enumeration: SeqEnumeration<E>)
      ensures this.firstElement == Some(firstElement) && this.enumeration == enumeration
    {
      this.firstElement := Some(firstElement);
      this.enumeration := enumeration;
    }

    /** The elements still to come, the pending first element first. */
    function Elements(): seq<E>
      reads this, enumeration
    {
      (if firstElement.Some? then [firstElement.value] else []) + enumeration.remaining
    }

    predicate HasMoreElements()
      reads this, enumeration
      ensures HasMoreElements() <==> Elements() != []
    {
      firstElement.Some? || enumeration.HasMoreElements()
    }

    method NextElement() returns (r: Option<E>)
      modifies this, enumeration
      ensures old(Elements()) == [] ==> r.None? && Elements() == []
      ensures old(Elements()) != [] ==> r == Some(old(Elements())[0]) && Elements() == old(Elements())[1..]
      ensures old(firstElement).Some? ==> unchanged(enumeration)
    {
      if firstElement.None? {
        r := enumeration.NextElement();
      } else {
        r := firstElement;
        firstElement := None;
      }
    }
  }

  /** The enumeration `getResources` returns: the parent's own, or one with an override in front. */
  datatype Resources<E> = Parents(parent: SeqEnumeration<E>) | Compound(compound: CompoundEnumeration<E>)

  function ResourceElements(r: Resources<Url>): seq<Url>
    reads if r.Parents? then {r.parent} else {r.compound, r.compound.enumeration}
  {
    match r
    case Parents(parent) => parent.remaining
    case Compound(compound) => compound.Elements()
  }

  /**
   * What `getResources` enumerates, given the parent's resources: with an override, the
   * parent's first element is dropped, and the override's URL prepended unless it is deleted.
   */
  function ResourcesOf(name: string, updatedFiles: Repository, parentResources: seq<Url>): (r: seq<Url>)
    ensures updatedFiles(name).None? ==> r == parentResources
    ensures IsDeleted(updatedFiles(name)) ==> r == if parentResources == [] then [] else parentResources[1..]
    ensures updatedFiles(name).Some? && !IsDeleted(updatedFiles(name))
            ==> r == [CreateFileUrl(name, updatedFiles(name).value)]
                     + (if parentResources == [] then [] else parentResources[1..])
  {
    match updatedFiles(name)
    case None => parentResources
    case Some(file) =>
      var rest := if parentResources == [] then [] else parentResources[1..];
      if file.kind == DELETED then rest else [CreateFileUrl(name, file)] + rest
  }

  /** An override replaces at most the parent's first resource: the count never grows. */
  lemma ResourcesReplaceFirst(name: string, updatedFiles: Repository, parentResources: seq<Url>)
    ensures |ResourcesOf(name, updatedFiles, parentResources)| <= |parentResources| + 1
    ensures parentResources != [] ==> |ResourcesOf(name, updatedFiles, parentResources)| <= |parentResources|
    ensures |parentResources| > 1 ==> ResourcesOf(name, updatedFiles, parentResources)[|ResourcesOf(name, updatedFiles, parentResources)| - 1] == parentResources[|parentResources| - 1]
  {
  }

  /** With a live override, the first of `getResources` is what `getResource` answers. */
  lemma FirstResourceIsResource(name: string, updatedFiles: Repository, lookups: Lookups, parentResources: seq<Url>)
    requires updatedFiles(name).Some? && !IsDeleted(updatedFiles(name))
    ensures ResourcesOf(name, updatedFiles, parentResources) != []
    ensures Some(ResourcesOf(name, updatedFiles, parentResources)[0]) == GetResource(name, updatedFiles, lookups)
  {
  }

  /** `getResources`: asks the parent, then (with an override) advances past its first element. */
  method GetResources(name: string, updatedFiles: Repository, parentResources: SeqEnumeration<Url>)
    returns (r: Resources<Url>)
    modifies parentResources
    ensures r.Parents? ==> r.parent == parentResources
    ensures r.Compound? ==> fresh(r.compound) && r.compound.enumeration == parentResources
    ensures ResourceElements(r) == ResourcesOf(name, updatedFiles, old(parentResources.remaining))
  {
    var resources := parentResources;
    var file := updatedFiles(name);
    if file.Some? {
      if resources.HasMoreElements() {
        var _ := resources.NextElement();
      }
      if file.value.kind != DELETED {
        var compound := new CompoundEnumeration(CreateFileUrl(name, file.value), resources);
        return Compound(compound);
      }
    }
    return Parents(resources);
  }
}
