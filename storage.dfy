/** The storage service: reads a version's artifacts from an object-storage
    bucket or from a local directory tree, with a one-way degrade to the
    local tree when the object-storage client cannot be built.

    Both stores are external and read-only here: each is a map from a path
    (object key or file path) to its content, and a path that is absent is
    a read that fails. */
module Storage {
  import opened Common

  /** The content of the bucket and of the local file system. */
  datatype Stores = Stores(objects: map<string, string>, files: map<string, string>)

  /** The error a failed read re-throws, naming the path that was tried. */
  datatype StorageError = NotFound(path: string)

  const IndexFile := "index.html"

  /** Object key of an artifact: `<versionTag>/<filePath>`. */
  function ObjectKey(versionTag: string, filePath: string): (k: string)
    ensures |k| == |versionTag| + 1 + |filePath|
    ensures k[..|versionTag|] == versionTag && k[|versionTag|] == '/'
    ensures k[|versionTag| + 1..] == filePath
  {
    versionTag + "/" + filePath
  }

  /** Distinct artifacts of versions whose tags contain no separator live
      under distinct keys; file paths may themselves contain separators. */
  lemma ObjectKeyInjective(v1: string, f1: string, v2: string, f2: string)
    requires '/' !in v1 && '/' !in v2
    requires ObjectKey(v1, f1) == ObjectKey(v2, f2)
    ensures v1 == v2 && f1 == f2
  {
    var k := ObjectKey(v1, f1);
    assert k[|v1|] == '/' && k[|v2|] == '/';
    assert |v1| == |v2|;
    assert v1 == k[..|v1|] == v2;
  }

  /** Local path of an artifact: base path, version tag and file path
      joined with the separator: the object key under the base path. */
  function LocalPath(basePath: string, versionTag: string, filePath: string): (p: string)
    ensures |p| == |basePath| + 1 + |ObjectKey(versionTag, filePath)|
    ensures p[..|basePath|] == basePath && p[|basePath|] == '/'
    ensures p[|basePath| + 1..] == ObjectKey(versionTag, filePath)
  {
    basePath + "/" + versionTag + "/" + filePath
  }

  /** Reads a path from a store, failing when it is absent. */
  function Fetch(store: map<string, string>, path: string): (r: Result<string, StorageError>)
    ensures r.Ok? <==> path in store
    ensures r.Ok? ==> r.value == store[path]
    ensures r.Err? ==> r.error == NotFound(path)
  {
    if path in store then Ok(store[path]) else Err(NotFound(path))
  }

  class StorageService {
    var useOSS: bool
    var ossClient: bool
    const localBasePath: string

    /** `ossBuilds` says whether constructing the object-storage client
        succeeds; it is consulted only when `useOSSSetting` holds. */
    constructor (useOSSSetting: bool, basePath: string, ossBuilds: bool)
      ensures localBasePath == basePath
      ensures ossClient == (useOSSSetting && ossBuilds)
      ensures useOSS == (useOSSSetting && ossBuilds)
    {
      localBasePath := basePath;
      ossClient := false;
      useOSS := useOSSSetting;
      new;
      if useOSS {
        InitOSS(ossBuilds);
      }
    }

    /** Builds the object-storage client; on failure turns object storage
        off. It never turns it on. */
    method InitOSS(ossBuilds: bool)
      modifies this
      ensures ossClient == (old(ossClient) || ossBuilds)
      ensures useOSS == (old(useOSS) && ossBuilds)
      ensures useOSS ==> old(useOSS)
    {
      if ossBuilds {
        ossClient := true;
      } else {
        useOSS := false;
      }
    }

    /** Whether reads go to the bucket: only with a built client, and
        never once object storage is off. */
    predicate UsesOss()
      reads this
      ensures UsesOss() ==> ossClient
      ensures !useOSS ==> !UsesOss()
      ensures useOSS && ossClient ==> UsesOss()
    {
      useOSS && ossClient
    }

    /** `readFile`: the stored content of the artifact from the chosen
        store, or the failure, re-thrown unchanged. A successful read
        returns exactly the stored bytes of the path the chosen store was
        asked for; a failed one names that path. */
    function ReadFile(stores: Stores, filePath: string, versionTag: string): (r: Result<string, StorageError>)
      reads this
      ensures var path := if UsesOss() then ObjectKey(versionTag, filePath)
                          else LocalPath(localBasePath, versionTag, filePath);
              var store := if UsesOss() then stores.objects else stores.files;
              && (r.Ok? <==> path in store)
              && (r.Ok? ==> r.value == store[path])
              && (r.Err? ==> r.error == NotFound(path))
    {
      if useOSS && ossClient then Fetch(stores.objects, ObjectKey(versionTag, filePath))
      else Fetch(stores.files, LocalPath(localBasePath, versionTag, filePath))
    }

    /** `fileExists`: never fails; true exactly when the lookup at the same
        path succeeds, so it agrees with `ReadFile`. */
    function FileExists(stores: Stores, filePath: string, versionTag: string): (e: bool)
      reads this
      ensures e == ReadFile(stores, filePath, versionTag).Ok?
      ensures UsesOss() ==> (e <==> ObjectKey(versionTag, filePath) in stores.objects)
      ensures !UsesOss() ==> (e <==> LocalPath(localBasePath, versionTag, filePath) in stores.files)
    {
      if useOSS && ossClient then ObjectKey(versionTag, filePath) in stores.objects
      else LocalPath(localBasePath, versionTag, filePath) in stores.files
    }

    /** `readIndexHtml`: the version's `index.html`. */
    function ReadIndexHtml(stores: Stores, versionTag: string): (r: Result<string, StorageError>)
      reads this
      ensures r == ReadFile(stores, IndexFile, versionTag)
    {
      ReadFile(stores, IndexFile, versionTag)
    }
  }

  /** Once object storage is off, an artifact present under the local base
      path is read from there, and a missing one fails with the local path:
      there is never substitute content. */
  lemma DegradedReadsLocal(s: StorageService, stores: Stores, versionTag: string)
    requires !s.useOSS
    ensures var path := LocalPath(s.localBasePath, versionTag, IndexFile);
            && (path in stores.files ==> s.ReadIndexHtml(stores, versionTag) == Ok(stores.files[path]))
            && (path !in stores.files ==> s.ReadIndexHtml(stores, versionTag) == Err(NotFound(path)))
  {
  }
}
