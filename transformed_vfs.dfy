/**
 * The virtual file system through which the compiler front end reads
 * dependency classes (TransformedVirtualFileSystem.kt, TransformedVirtualFile.kt).
 * Paths are looked up in IntelliJ's jar or local file system, the files
 * found are wrapped, and the wrapper hands out `.class` contents only after
 * running the registered transformers over them, at most once per wrapper.
 */
module TransformedVfs {
  import opened Common
  import opened ClasspathTransformers

  /**
   * An IntelliJ VirtualFile, as far as the wrapper observes it. It is a
   * foreign object; its properties are fixed for the lifetime of the model.
   */
  class VirtualFile {
    const name: string
    const path: string
    const isDirectory: bool
    const modificationStamp: int
    const timeStamp: int
    /** `contentsToByteArray()`, which is also what `inputStream` yields */
    const contents: Bytes
    /** `length` as the file reports it */
    const length: int
    const hashCode: int
    const parent: VirtualFile?
    const children: seq<VirtualFile>
  }

  const Protocol: string := "remap-transformed"

  /** `"!/" in path`: the path names an entry inside an archive. */
  predicate IsJarPath(path: string) {
    HasSubstring(path, "!/")
  }

  /** A path is a jar path exactly when `!` is immediately followed by `/` somewhere in it. */
  lemma JarPathHasSeparator(path: string)
    ensures IsJarPath(path) <==> exists i :: 0 <= i < |path| - 1 && path[i] == '!' && path[i + 1] == '/'
  {
    if IsJarPath(path) {
      var i :| OccursAt(path, "!/", i);
      assert path[i..i + 2][0] == path[i] && path[i..i + 2][1] == path[i + 1];
    }
    if exists i :: 0 <= i < |path| - 1 && path[i] == '!' && path[i + 1] == '/' {
      var i :| 0 <= i < |path| - 1 && path[i] == '!' && path[i + 1] == '/';
      assert path[i..i + 2] == "!/";
      assert OccursAt(path, "!/", i);
    }
  }

  datatype IoError = UnsupportedOperation

  /** The Kotlin `object TransformedVirtualFileSystem`. */
  class TransformedVirtualFileSystem {
    var transformers: seq<ClasspathTransformer>
    const asm: Asm
    /** the application environment's jar and local file systems */
    const jarFileSystem: string -> Option<VirtualFile>
    const localFileSystem: string -> Option<VirtualFile>
    /** the key of the keyed extension that registers this file system */
    const keyedInstanceKey: string

    constructor (asm: Asm, jarFileSystem: string -> Option<VirtualFile>, localFileSystem: string -> Option<VirtualFile>)
      ensures transformers == []
      ensures keyedInstanceKey == GetProtocol() == Protocol
      ensures this.asm == asm && this.jarFileSystem == jarFileSystem && this.localFileSystem == localFileSystem
    {
      transformers := [];
      this.asm := asm;
      this.jarFileSystem := jarFileSystem;
      this.localFileSystem := localFileSystem;
      keyedInstanceKey := Protocol;
    }

    function GetProtocol(): string {
      Protocol
    }

    /** The file the underlying file system finds for `path`: archives by the jar file system, the rest locally. */
    function Lookup(path: string): Option<VirtualFile> {
      if IsJarPath(path) then jarFileSystem(path) else localFileSystem(path)
    }

    method FindFileByPath(path: string) returns (r: TransformedVirtualFile?)
      ensures r == null <==> Lookup(path).None?
      ensures r != null ==> fresh(r) && r.target == Lookup(path).value && r.fileSystem == this
      ensures r != null ==> r.Valid() && r.transformedCache.None?
    {
      var found := if IsJarPath(path) then jarFileSystem(path) else localFileSystem(path);
      if found.None? {
        return null;
      }
      r := new TransformedVirtualFile(found.value, this);
    }

    method RefreshAndFindFileByPath(path: string) returns (r: TransformedVirtualFile?)
      ensures r == null <==> Lookup(path).None?
      ensures r != null ==> fresh(r) && r.target == Lookup(path).value && r.fileSystem == this
      ensures r != null ==> r.Valid() && r.transformedCache.None?
    {
      r := FindFileByPath(path);
    }

    /** A no-op: no `modifies` clause, so nothing changes. */
    method Refresh(asynchronous: bool) {
    }

    /** `transformers += ts`. */
    method Register(ts: seq<ClasspathTransformer>)
      modifies this
      ensures transformers == old(transformers) + ts
    {
      transformers := transformers + ts;
    }

    method Transform(input: Bytes) returns (output: Result<Bytes, TransformError>)
      ensures output == Transformed(transformers, asm, input)
      ensures transformers == [] ==> output == Success(input)
    {
      output := TransformBytes(transformers, asm, input);
    }
  }

  /** `TransformedVirtualFile(target)`: a read-only view of `target` whose `.class` contents are transformed. */
  class TransformedVirtualFile {
    const target: VirtualFile
    const fileSystem: TransformedVirtualFileSystem
    var transformedCache: Option<Bytes>
    /** how many times this wrapper cached a transformation */
    ghost var transformations: nat

    /**
     * A result is cached at most once per wrapper, and the cache holds it once
     * it has been; a transformation that throws caches nothing.
     */
    ghost predicate Valid()
      reads this
    {
      transformations <= 1 && (transformations == 0 <==> transformedCache.None?)
    }

    constructor (target: VirtualFile, fileSystem: TransformedVirtualFileSystem)
      ensures Valid() && this.target == target && this.fileSystem == fileSystem
      ensures transformedCache.None? && transformations == 0
      ensures GetName() == target.name && GetPath() == target.path && IsDirectory() == target.isDirectory
      ensures GetModificationStamp() == target.modificationStamp && GetTimeStamp() == target.timeStamp
      ensures !IsWritable() && IsValid() && GetFileSystem() == fileSystem
    {
      this.target := target;
      this.fileSystem := fileSystem;
      transformedCache := None;
      transformations := 0;
    }

    function GetName(): string { target.name }
    function GetPath(): string { target.path }
    function GetFileSystem(): TransformedVirtualFileSystem { fileSystem }
    predicate IsWritable() { false }
    predicate IsDirectory() { target.isDirectory }
    predicate IsValid() { true }
    function GetModificationStamp(): int { target.modificationStamp }
    function GetTimeStamp(): int { target.timeStamp }

    /** Only `.class` files are transformed. */
    predicate IsClassFile() {
      EndsWith(GetName(), ".class")
    }

    function GetOutputStream(requestor: object?, newModificationStamp: int, newTimeStamp: int): (r: Result<(), IoError>)
      ensures r.Failure? && r.error == UnsupportedOperation
    {
      Failure(UnsupportedOperation)
    }

    /** A no-op: no `modifies` clause, so nothing changes. */
    method Refresh(asynchronous: bool, recursive: bool) {
    }

    /**
     * Returns the cached transformation if there is one, ignoring `hint`;
     * otherwise transforms `hint`, or the target's contents when there is no
     * hint, and caches the result. A failing transformation propagates and
     * leaves the cache empty.
     */
    method MaybeTransform(hint: Option<Bytes>) returns (r: Result<Bytes, TransformError>)
      requires Valid()
      modifies this
      ensures Valid()
      ensures old(transformedCache).Some? ==>
        r == Success(old(transformedCache).value) && transformedCache == old(transformedCache) && transformations == old(transformations)
      ensures old(transformedCache).None? ==>
        && r == Transformed(fileSystem.transformers, fileSystem.asm, hint.GetOr(target.contents))
        && (r.Success? ==> transformedCache == Some(r.value) && transformations == 1)
        && (r.Failure? ==> transformedCache.None? && transformations == 0)
    {
      if transformedCache.Some? {
        return Success(transformedCache.value);
      }
      var input := if hint.Some? then hint.value else target.contents;
      r := fileSystem.Transform(input);
      if r.Failure? {
        return r;
      }
      transformedCache := Some(r.value);
      transformations := transformations + 1;
    }

    method ContentsToByteArray() returns (r: Result<Bytes, TransformError>)
      requires Valid()
      modifies this
      ensures Valid()
      ensures !IsClassFile() ==>
        r == Success(target.contents) && transformedCache == old(transformedCache) && transformations == old(transformations)
      ensures IsClassFile() && old(transformedCache).Some? ==>
        r == Success(old(transformedCache).value) && transformedCache == old(transformedCache) && transformations == old(transformations)
      ensures IsClassFile() && old(transformedCache).None? ==>
        && r == Transformed(fileSystem.transformers, fileSystem.asm, target.contents)
        && (r.Success? ==> transformedCache == Some(r.value))
        && (r.Failure? ==> transformedCache.None?)
    {
      var result := target.contents;
      if !EndsWith(GetName(), ".class") {
        return Success(result);
      }
      r := MaybeTransform(Some(result));
    }

    method GetLength() returns (n: Result<int, TransformError>)
      requires Valid()
      modifies this
      ensures Valid()
      ensures !IsClassFile() ==>
        n == Success(target.length) && transformedCache == old(transformedCache) && transformations == old(transformations)
      ensures IsClassFile() && n.Success? ==> transformedCache.Some? && n.value == |transformedCache.value|
      ensures IsClassFile() && old(transformedCache).Some? ==>
        n.Success? && transformedCache == old(transformedCache) && transformations == old(transformations)
      ensures IsClassFile() && old(transformedCache).None? ==>
        && (n.Success? <==> Transformed(fileSystem.transformers, fileSystem.asm, target.contents).Success?)
        && (n.Success? ==> transformedCache == Some(Transformed(fileSystem.transformers, fileSystem.asm, target.contents).value))
        && (n.Failure? ==> n.error == Transformed(fileSystem.transformers, fileSystem.asm, target.contents).error && transformedCache.None?)
    {
      if !EndsWith(GetName(), ".class") {
        return Success(target.length);
      }
      var bytes := MaybeTransform(None);
      if bytes.Failure? {
        return Failure(bytes.error);
      }
      n := Success(|bytes.value|);
    }

    /** The bytes the returned stream yields. */
    method GetInputStream() returns (r: Result<Bytes, TransformError>)
      requires Valid()
      modifies this
      ensures Valid()
      ensures !IsClassFile() ==>
        r == Success(target.contents) && transformedCache == old(transformedCache) && transformations == old(transformations)
      ensures IsClassFile() && r.Success? ==> transformedCache == Some(r.value)
      ensures IsClassFile() && r.Failure? ==> transformedCache.None?
      ensures IsClassFile() && old(transformedCache).Some? ==>
        r == Success(old(transformedCache).value) && transformations == old(transformations)
      ensures IsClassFile() && old(transformedCache).None? ==>
        r == Transformed(fileSystem.transformers, fileSystem.asm, target.contents)
    {
      if !EndsWith(GetName(), ".class") {
        return Success(target.contents);
      }
      r := MaybeTransform(None);
    }

    /** The target's parent, wrapped, or null. Each call makes a new wrapper with an empty cache. */
    method GetParent() returns (r: TransformedVirtualFile?)
      ensures r == null <==> target.parent == null
      ensures r != null ==> fresh(r) && r.target == target.parent && r.fileSystem == fileSystem
      ensures r != null ==> r.Valid() && r.transformedCache.None?
    {
      if target.parent == null {
        return null;
      }
      r := new TransformedVirtualFile(target.parent, fileSystem);
    }

    /** The target's children, each wrapped, in the same order. Each call makes new wrappers. */
    method GetChildren() returns (r: array<TransformedVirtualFile>)
      ensures fresh(r) && r.Length == |target.children|
      ensures forall i :: 0 <= i < r.Length ==>
        && fresh(r[i]) && r[i].target == target.children[i] && r[i].fileSystem == fileSystem
        && r[i].Valid() && r[i].transformedCache.None?
    {
      var children := target.children;
      var wrapped: seq<TransformedVirtualFile> := [];
      while |wrapped| < |children|
        invariant |wrapped| <= |children|
        invariant forall k :: 0 <= k < |wrapped| ==>
          && fresh(wrapped[k]) && wrapped[k].target == children[k] && wrapped[k].fileSystem == fileSystem
          && wrapped[k].Valid() && wrapped[k].transformedCache.None?
      {
        var child := new TransformedVirtualFile(children[|wrapped|], fileSystem);
        wrapped := wrapped + [child];
      }
      r := new TransformedVirtualFile[|wrapped|](i requires 0 <= i < |wrapped| => wrapped[i]);
    }

    /** `other is TransformedVirtualFile && target == other.target`; equal wrappers hash alike. */
    predicate Equals(other: object?)
      ensures Equals(other) ==> other is TransformedVirtualFile && (other as TransformedVirtualFile).HashCode() == HashCode()
    {
      other != null && other is TransformedVirtualFile && (other as TransformedVirtualFile).target == target
    }

    function HashCode(): int {
      target.hashCode
    }
  }

  /** equals is an equivalence on wrappers and agrees with hashCode. */
  lemma EqualsIsConsistent(a: TransformedVirtualFile, b: TransformedVirtualFile, c: TransformedVirtualFile)
    ensures a.Equals(a)
    ensures a.Equals(b) <==> a.target == b.target
    ensures a.Equals(b) ==> b.Equals(a) && a.HashCode() == b.HashCode()
    ensures a.Equals(b) && b.Equals(c) ==> a.Equals(c)
  {
  }
}
