/** The Firebase Storage backend (src/services/firebaseService.js): when it
    counts as configured, how a local file becomes a public object, how an
    object is found again from its public URL and deleted, and how the backend
    describes itself. */
module FirebaseService {
  import opened Base
  import opened Text
  import opened Effects

  /** The four credentials the backend needs; an unset one is the empty string. */
  datatype Config = Config(projectId: string, privateKey: string, clientEmail: string, storageBucket: string)

  datatype Credential = ProjectId | PrivateKey | ClientEmail | StorageBucket

  function Get(c: Config, k: Credential): string
  {
    match k
    case ProjectId => c.projectId
    case PrivateKey => c.privateKey
    case ClientEmail => c.clientEmail
    case StorageBucket => c.storageBucket
  }

  /** `c` with credential `k` replaced by `v`. */
  function Set(c: Config, k: Credential, v: string): (c': Config)
    ensures Get(c', k) == v
    ensures forall j :: j != k ==> Get(c', j) == Get(c, j)
  {
    match k
    case ProjectId => c.(projectId := v)
    case PrivateKey => c.(privateKey := v)
    case ClientEmail => c.(clientEmail := v)
    case StorageBucket => c.(storageBucket := v)
  }

  /** `isConfigured()`: every one of the four credentials is set. */
  predicate IsConfigured(c: Config)
  {
    c.projectId != "" && c.privateKey != "" && c.clientEmail != "" && c.storageBucket != ""
  }

  lemma ConfiguredIffAllCredentialsSet(c: Config)
    ensures IsConfigured(c) <==> forall k :: Get(c, k) != ""
  {
    if !IsConfigured(c) {
      var k :| k in [ProjectId, PrivateKey, ClientEmail, StorageBucket] && Get(c, k) == "";
    }
  }

  /** Clearing any single credential switches the backend off, and filling the
      one missing credential of an otherwise complete config switches it on. */
  lemma ClearingAnyCredentialUnconfigures(c: Config, k: Credential, v: string)
    ensures !IsConfigured(Set(c, k, ""))
    ensures (forall j :: j != k ==> Get(c, j) != "") && v != "" ==> IsConfigured(Set(c, k, v))
  {
    ConfiguredIffAllCredentialsSet(Set(c, k, ""));
    ConfiguredIffAllCredentialsSet(Set(c, k, v));
  }

  /** The backend's state once `initializeFirebase` has run: the name of the
      bucket it holds when initialised, `None` otherwise. The source assigns the
      bucket just before setting `initialized`, so one field models both. */
  datatype Service = Service(config: Config, bucket: Option<string>)
  {
    predicate Initialized() { bucket.Some? }
  }

  /** `initializeFirebase()`: nothing is opened unless all four credentials are
      set; then the bucket named by `storageBucket` is opened, unless the SDK
      throws (`sdkFails`), which leaves the backend uninitialised. */
  function Initialize(config: Config, sdkFails: bool): (s: Service)
    ensures s.config == config
    ensures s.Initialized() <==> IsConfigured(config) && !sdkFails
    ensures s.Initialized() ==> s.bucket.value == config.storageBucket
  {
    if IsConfigured(config) && !sdkFails then Service(config, Some(config.storageBucket))
    else Service(config, None)
  }

  const OctetStream := "application/octet-stream"

  /** The extension table of `getContentType`, keyed by lower-case extension. */
  const MimeTypes: map<string, string> := map[
    ".jpg" := "image/jpeg",
    ".jpeg" := "image/jpeg",
    ".png" := "image/png",
    ".webp" := "image/webp",
    ".gif" := "image/gif"
  ]

  /** `getContentType(filePath)`: the table entry for the lower-cased extension,
      `application/octet-stream` for anything else. */
  function ContentType(filePath: string): (mime: string)
    ensures var ext := Lower(Extname(filePath));
      && (mime == "image/jpeg" <==> ext == ".jpg" || ext == ".jpeg")
      && (mime == "image/png" <==> ext == ".png")
      && (mime == "image/webp" <==> ext == ".webp")
      && (mime == "image/gif" <==> ext == ".gif")
      && (mime == OctetStream <==> ext !in {".jpg", ".jpeg", ".png", ".webp", ".gif"})
  {
    var ext := Lower(Extname(filePath));
    if ext in MimeTypes then MimeTypes[ext] else OctetStream
  }

  /** A file `dir/stem.ext` is served by its lower-cased extension alone,
      whatever the directory and stem. */
  lemma ContentTypeOfName(dir: string, stem: string, ext: string)
    requires Slash !in stem && stem != [] && stem != [Dot]
    requires Slash !in ext && |ext| >= 1 && ext[0] == Dot && Dot !in ext[1..]
    ensures ContentType(dir + [Slash] + (stem + ext))
         == (if Lower(ext) in MimeTypes then MimeTypes[Lower(ext)] else OctetStream)
  {
    ExtnameOfName(dir, stem, ext);
  }

  /** The lookup ignores the case of the extension: renaming `stem.EXT` to
      `stem.ext` does not change the type a file is served as. */
  lemma ContentTypeIgnoresCase(dir: string, stem: string, ext: string)
    requires Slash !in stem && stem != [] && stem != [Dot]
    requires Slash !in ext && |ext| >= 1 && ext[0] == Dot && Dot !in ext[1..]
    ensures ContentType(dir + [Slash] + (stem + ext)) == ContentType(dir + [Slash] + (stem + Lower(ext)))
  {
    var low := Lower(ext);
    assert forall i :: 0 <= i < |ext| ==> (low[i] == Slash <==> ext[i] == Slash) && (low[i] == Dot <==> ext[i] == Dot);
    assert Slash !in low;
    assert forall i :: 0 <= i < |ext| - 1 ==> low[1..][i] == low[i + 1] && ext[1..][i] == ext[i + 1];
    assert Dot !in low[1..];
    assert Lower(low) == low;
    ContentTypeOfName(dir, stem, ext);
    ContentTypeOfName(dir, stem, low);
  }

  /** An upper-case `.JPG` is served as JPEG, wherever the file lives. */
  lemma ContentTypeOfUpperCaseJpg(dir: string, stem: string)
    requires Slash !in stem && stem != [] && stem != [Dot]
    ensures ContentType(dir + [Slash] + (stem + ".JPG")) == "image/jpeg"
  {
    JpgExtension();
    ContentTypeOfName(dir, stem, ".JPG");
  }

  lemma JpgExtension()
    ensures Slash !in ".JPG" && ".JPG"[0] == Dot && Dot !in ".JPG"[1..]
    ensures Lower(".JPG") in MimeTypes && MimeTypes[Lower(".JPG")] == "image/jpeg"
  {
    assert Lower(".JPG") == ".jpg";
  }

  /** A leading dot is not an extension. */
  lemma ContentTypeOfDotFile()
    ensures ContentType(".png") == OctetStream
  {
    BasenameOfPlainName(".png");
    assert LastDot(".png") == 0;
  }

  const UploadDir := "uploads"
  const PublicHost := "https://storage.googleapis.com/"

  /** The object name `uploadFile` stores under: the explicit name when one is
      given and non-empty, otherwise `<uuid>-<basename>`. */
  function UniqueFileName(filePath: string, fileName: Option<string>, uuid: string): string
  {
    if fileName.Some? && fileName.value != "" then fileName.value else uuid + "-" + Basename(filePath)
  }

  /** `uploads/<name>`. */
  function StorageKey(name: string): (key: string)
    ensures |key| > |UploadDir| && key[..|UploadDir|] == UploadDir && key[|UploadDir|] == Slash
  {
    UploadDir + [Slash] + name
  }

  /** `https://storage.googleapis.com/<bucket>/<key>`. */
  function PublicUrl(bucketName: string, key: string): string
  {
    PublicHost + bucketName + [Slash] + key
  }

  /** Generated names never collide when the uuids differ, even for two
      different files that share a base name, neither as keys nor as URLs. */
  lemma GeneratedKeysDistinct(bucketName: string, path1: string, path2: string, uuid1: string, uuid2: string)
    requires Basename(path1) == Basename(path2) && uuid1 != uuid2
    ensures StorageKey(UniqueFileName(path1, None, uuid1)) != StorageKey(UniqueFileName(path2, None, uuid2))
    ensures PublicUrl(bucketName, StorageKey(UniqueFileName(path1, None, uuid1)))
         != PublicUrl(bucketName, StorageKey(UniqueFileName(path2, None, uuid2)))
  {
    var tail := "-" + Basename(path1);
    var k1, k2 := StorageKey(uuid1 + tail), StorageKey(uuid2 + tail);
    assert uuid1 + "-" + Basename(path1) == uuid1 + tail;
    assert uuid2 + "-" + Basename(path2) == uuid2 + tail;
    if |uuid1| == |uuid2| {
      var i :| 0 <= i < |uuid1| && uuid1[i] != uuid2[i];
      assert k1[|UploadDir| + 1 + i] == uuid1[i];
      assert k2[|UploadDir| + 1 + i] == uuid2[i];
    } else {
      assert |k1| != |k2|;
    }
    var p := PublicHost + bucketName + [Slash];
    assert PublicUrl(bucketName, k1) == p + k1;
    assert PublicUrl(bucketName, k2) == p + k2;
    assert k1 == (p + k1)[|p|..];
    assert k2 == (p + k2)[|p|..];
  }

  /** The part of a public URL that `deleteFile` treats as the object key:
      its last two `/`-separated segments, joined by `/`. */
  function KeyFromUrl(fileUrl: string): string
  {
    var parts := Split(fileUrl);
    if |parts| < 2 then parts[0] else parts[|parts| - 2] + [Slash] + parts[|parts| - 1]
  }

  /** The definition above is `split('/')`, then `slice(-2)`, then `join('/')`. */
  lemma KeyFromUrlJoinsLastTwo(fileUrl: string)
    ensures KeyFromUrl(fileUrl) == Join(LastTwo(Split(fileUrl)))
  {
    var parts := Split(fileUrl);
    if |parts| >= 2 {
      var r := LastTwo(parts);
      assert r == [parts[|parts| - 2], parts[|parts| - 1]];
      assert r[1..] == [parts[|parts| - 1]];
    }
  }

  /** The key `deleteFile` derives from a URL built by `uploadFile` is the key the
      object was stored under, provided the name has no slash, as every
      generated name `<uuid>-<basename>` with a slash-free uuid has. */
  lemma KeyFromUrlRoundTrip(bucketName: string, name: string)
    requires Slash !in name
    ensures KeyFromUrl(PublicUrl(bucketName, StorageKey(name))) == StorageKey(name)
  {
    var prefix := PublicHost + bucketName;
    assert PublicUrl(bucketName, StorageKey(name)) == prefix + [Slash] + (UploadDir + [Slash] + name);
    SplitAtSlash(prefix, UploadDir + [Slash] + name);
    SplitAtSlash(UploadDir, name);
    assert Split(UploadDir) == [UploadDir];
    LastTwoOfPair(Split(prefix), UploadDir, name);
  }

  /** The last two segments of a split ending in `x/y` are `x` and `y`. */
  lemma LastTwoOfPair(front: seq<string>, x: string, y: string)
    ensures var parts := front + ([x] + [y]);
      |parts| >= 2 && parts[|parts| - 2] == x && parts[|parts| - 1] == y
  {
  }

  lemma GeneratedKeyRoundTrip(bucketName: string, filePath: string, uuid: string)
    requires Slash !in uuid
    ensures var key := StorageKey(UniqueFileName(filePath, None, uuid));
      KeyFromUrl(PublicUrl(bucketName, key)) == key
  {
    var name := uuid + "-" + Basename(filePath);
    assert Slash !in name by {
      assert forall c :: c in name ==> c in uuid || c == '-' || c in Basename(filePath);
    }
    KeyFromUrlRoundTrip(bucketName, name);
  }

  /** An explicit name with a slash in it does not survive the round trip:
      `deleteFile` would aim at a different object. */
  lemma ExplicitNestedNameMissesObject(bucketName: string, x: string, y: string)
    requires Slash !in x && Slash !in y
    ensures KeyFromUrl(PublicUrl(bucketName, StorageKey(x + [Slash] + y))) == x + [Slash] + y
    ensures KeyFromUrl(PublicUrl(bucketName, StorageKey(x + [Slash] + y))) != StorageKey(x + [Slash] + y)
  {
    var prefix := PublicHost + bucketName;
    var url := PublicUrl(bucketName, StorageKey(x + [Slash] + y));
    assert url == (prefix + [Slash] + UploadDir) + [Slash] + (x + [Slash] + y);
    SplitAtSlash(prefix + [Slash] + UploadDir, x + [Slash] + y);
    SplitAtSlash(x, y);
    LastTwoOfPair(Split(prefix + [Slash] + UploadDir), x, y);
  }

  /** The outcome of one call into the storage SDK. */
  datatype Step = Done | Failed(message: string)

  /** What the world supplies to one upload: the uuid `uuidv4()` returns and the
      outcomes of `bucket.upload` and `makePublic`. */
  datatype UploadEnv = UploadEnv(uuid: string, upload: Step, makePublic: Step)

  /** The public URL or the error an upload ends with, and the SDK calls it made. */
  datatype Upload = Upload(result: Result<string, string>, calls: seq<Call>)

  const UploadFailedPrefix := "Failed to upload file to Firebase Storage: "
  const NotInitialized := "Firebase not initialized"
  const FileMissing := "File does not exist"

  /** `uploadFile(filePath, fileName)`, with `files` the paths that exist on disk. */
  function UploadFile(s: Service, files: set<string>, filePath: string, fileName: Option<string>, env: UploadEnv): (u: Upload)
    // the initialisation check comes first, then the existence check; neither touches the SDK
    ensures !s.Initialized() ==> u == Upload(Failure(UploadFailedPrefix + NotInitialized), [])
    ensures s.Initialized() && filePath !in files ==> u == Upload(Failure(UploadFailedPrefix + FileMissing), [])
    // every failure carries the fixed prefix
    ensures u.result.Failure? ==> StartsWith(u.result.error, UploadFailedPrefix)
    ensures u.result.Success? <==> s.Initialized() && filePath in files && env.upload == Done && env.makePublic == Done
    // the URL is built from the bucket name and the key alone
    ensures u.result.Success? ==>
      u.result.value == PublicUrl(s.bucket.value, StorageKey(UniqueFileName(filePath, fileName, env.uuid)))
    ensures s.Initialized() && filePath in files ==>
      var key := StorageKey(UniqueFileName(filePath, fileName, env.uuid));
      u.calls == [BucketUpload(filePath, key, ContentType(filePath), Basename(filePath))]
               + (if env.upload == Done then [MakePublic(key)] else [])
  {
    if !s.Initialized() then Upload(Failure(UploadFailedPrefix + NotInitialized), [])
    else if filePath !in files then Upload(Failure(UploadFailedPrefix + FileMissing), [])
    else
      var key := StorageKey(UniqueFileName(filePath, fileName, env.uuid));
      var write := BucketUpload(filePath, key, ContentType(filePath), Basename(filePath));
      match env.upload
      case Failed(m) => Upload(Failure(UploadFailedPrefix + m), [write])
      case Done =>
        match env.makePublic
        case Failed(m) => Upload(Failure(UploadFailedPrefix + m), [write, MakePublic(key)])
        case Done => Upload(Success(PublicUrl(s.bucket.value, key)), [write, MakePublic(key)])
  }

  /** `uploadFile` never deletes. */
  lemma NoDeletesInUpload(s: Service, files: set<string>, path: string, env: UploadEnv)
    ensures DeletedKeys(UploadFile(s, files, path, None, env).calls) == []
    ensures forall c :: c in UploadFile(s, files, path, None, env).calls ==> c.BucketUpload? || c.MakePublic?
  {
    var u := UploadFile(s, files, path, None, env);
    assert forall c :: c in u.calls ==> c.BucketUpload? || c.MakePublic?;
    NoDeleteCallsNoDeletedKeys(u.calls);
  }

  /** Whether `deleteFile` reported success, and the SDK calls it made. */
  datatype Deletion = Deletion(deleted: bool, calls: seq<Call>)

  /** `deleteFile(fileUrl)`, with `failing` the keys whose delete the SDK rejects.
      It never throws: every outcome is a boolean. */
  function DeleteFile(s: Service, fileUrl: string, failing: set<string>): (d: Deletion)
    ensures !s.Initialized() ==> d == Deletion(false, [])
    ensures s.Initialized() ==> d.calls == [BucketDelete(KeyFromUrl(fileUrl))]
    ensures d.deleted <==> s.Initialized() && KeyFromUrl(fileUrl) !in failing
  {
    if !s.Initialized() then Deletion(false, [])
    else
      var key := KeyFromUrl(fileUrl);
      Deletion(key !in failing, [BucketDelete(key)])
  }

  /** Deleting the URL of a generated upload removes exactly the object written. */
  lemma DeleteHitsUploadedObject(s: Service, files: set<string>, filePath: string, env: UploadEnv, failing: set<string>)
    requires Slash !in env.uuid
    requires UploadFile(s, files, filePath, None, env).result.Success?
    ensures var u := UploadFile(s, files, filePath, None, env);
      DeleteFile(s, u.result.value, failing).calls == [BucketDelete(u.calls[0].destination)]
  {
    GeneratedKeyRoundTrip(s.bucket.value, filePath, env.uuid);
  }

  /** `getBucketInfo()`: absent fields are `None`. */
  datatype BucketInfo = BucketInfo(
    name: Option<string>,
    projectId: Option<string>,
    configured: bool,
    initialized: bool,
    message: Option<string>)

  const ConfiguredNotInitialized := "Firebase configured but not initialized"
  const NotConfigured := "Firebase not configured"

  function GetBucketInfo(s: Service): (info: BucketInfo)
    ensures info.initialized <==> s.Initialized()
    ensures s.Initialized() ==>
      info == BucketInfo(Some(s.bucket.value), Some(s.config.projectId), true, true, None)
    ensures !s.Initialized() ==>
      && info.configured == IsConfigured(s.config)
      && info.name.None? && info.projectId.None?
      && info.message == Some(if info.configured then ConfiguredNotInitialized else NotConfigured)
  {
    if s.Initialized() then
      BucketInfo(Some(s.bucket.value), Some(s.config.projectId), true, true, None)
    else
      BucketInfo(None, None, IsConfigured(s.config), false,
                 Some(if IsConfigured(s.config) then ConfiguredNotInitialized else NotConfigured))
  }

  /** On any backend `initializeFirebase` can produce, `configured` is exactly
      `isConfigured()`, the message is present exactly when the bucket is not
      open, and an open bucket is reported under its configured name. */
  lemma BucketInfoReportsConfiguration(config: Config, sdkFails: bool)
    ensures var info := GetBucketInfo(Initialize(config, sdkFails));
      && info.configured == IsConfigured(config)
      && (info.message.None? <==> info.initialized)
      && (info.initialized ==> info.name == Some(config.storageBucket))
      && (info.message == Some(ConfiguredNotInitialized) <==> IsConfigured(config) && sdkFails)
  {
  }
}
