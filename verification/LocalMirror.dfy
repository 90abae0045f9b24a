/** Objects of the remote and of the local mirror, and the check that ties a download to its listing. */
module LocalMirror {
  import opened Common
  import opened Freshness

  datatype ObjectMetadata = ObjectMetadata(
    contentType: Option<string>,
    etag: Option<string>,
    lastModified: Option<string>,
    cacheControl: Option<string>)

  datatype LocalObject = LocalObject(body: Bytes, metadata: ObjectMetadata)

  /** One origin's mirror by key; `FileTree` gives its layout on disk. */
  type Mirror = map<string, LocalObject>

  function Restrict(mirror: Mirror, keys: set<string>): Mirror {
    map k | k in mirror && k in keys :: mirror[k]
  }

  datatype RemoteObject = RemoteObject(
    key: string,
    body: Bytes,
    etag: Option<string>,
    lastModified: Option<string>,
    contentType: Option<string>,
    cacheControl: Option<string>)

  /** The remote at one instant. */
  type Bucket = map<string, RemoteObject>

  function Stored(obj: RemoteObject): LocalObject {
    LocalObject(obj.body, ObjectMetadata(obj.contentType, obj.etag, obj.lastModified, obj.cacheControl))
  }

  datatype DownloadError = InvalidKey | KeyMismatch | SizeChanged | EtagChanged | LastModifiedChanged

  function ValidateDownloadedObject(key: string, summary: OriginFileState, obj: RemoteObject): Result<(), DownloadError> {
    match NormalizeRemoteKey(obj.key)
    case Err(_) => Err(InvalidKey)
    case Ok(downloadedKey) =>
      if downloadedKey != key then Err(KeyMismatch)
      else if |obj.body| != summary.size then Err(SizeChanged)
      else if summary.etag.Some? && obj.etag != summary.etag then Err(EtagChanged)
      else if summary.lastModified.Some? && obj.lastModified != summary.lastModified then Err(LastModifiedChanged)
      else Ok(())
  }

  /** The mirrored object is the listed one as far as the listing says anything. */
  predicate Matches(summary: OriginFileState, obj: LocalObject) {
    && |obj.body| == summary.size
    && (summary.etag.Some? ==> obj.metadata.etag == summary.etag)
    && (summary.lastModified.Some? ==> obj.metadata.lastModified == summary.lastModified)
  }

  /** Exactly the listed keys, each matching its entry. */
  ghost predicate Agrees(files: Files, mirror: Mirror) {
    && mirror.Keys == files.Keys
    && forall k :: k in files ==> Matches(files[k], mirror[k])
  }

  lemma ValidatedMatches(key: string, summary: OriginFileState, obj: RemoteObject)
    ensures ValidateDownloadedObject(key, summary, obj).Ok? <==>
      NormalizeRemoteKey(obj.key) == Ok(key) && Matches(summary, Stored(obj))
  {
  }

  /** Entries in the same source state match the same objects. */
  lemma SameStateMatchesSame(left: OriginFileState, right: OriginFileState, obj: LocalObject)
    requires SameSourceState(left, right)
    ensures Matches(left, obj) <==> Matches(right, obj)
  {
  }
}
