/** The state shared by one S3 session, the bucket, the content cache and the other
    clients (crates/omnifuse-s3/src/session.rs, manifest.rs). */
module S3World {
  import opened Common
  import TextMerge

  /** Remote object metadata (manifest.rs `ObjectState`, whose path field is always the key). */
  datatype ObjectState = ObjectState(
    etag: Option<string>,
    version: Option<string>,
    lastModified: Option<string>,
    contentLength: nat)

  predicate SameGeneration(a: ObjectState, b: ObjectState) {
    !(a.version.Some? && b.version.Some? && a.version != b.version)
    && a.etag.Some? && b.etag.Some? && a.etag == b.etag
  }

  /** Unicode White_Space, as `str::trim` sees it. */
  predicate IsSpace(c: char) {
    var n := c as int;
    9 <= n <= 13 || n == 32 || n == 0x85 || n == 0xA0 || n == 0x1680 || 0x2000 <= n <= 0x200A
    || n == 0x2028 || n == 0x2029 || n == 0x202F || n == 0x205F || n == 0x3000
  }

  function RequiredEtag(state: ObjectState): Option<string> {
    if state.etag.Some? && exists i | 0 <= i < |state.etag.value| :: !IsSpace(state.etag.value[i])
    then state.etag
    else None
  }

  /** One successful write to the bucket; its position in the log is its generation. */
  datatype Write = Write(path: Path, bytes: Bytes)

  /** What the service, the libraries and the mount bring: the ETag and version of every
      generation, the metadata as a stat, a put or a listing reports it, the merge
      library, the UTF-8 check, and whether a content cache is attached. */
  datatype Setting = Setting(
    etagOf: (Path, nat) -> Option<string>,
    versionOf: (Path, nat) -> string,
    statMeta: (Path, nat) -> ObjectState,
    putMeta: (Path, nat) -> ObjectState,
    listMeta: (Path, nat) -> ObjectState,
    diffy: TextMerge.Diffy,
    utf8: Bytes -> bool,
    cached: bool)

  predicate Describes(s: Setting, state: ObjectState, k: Path, gen: nat) {
    state.etag == s.etagOf(k, gen)
    && (state.version.Some? ==> state.version == Some(s.versionOf(k, gen)))
  }

  /** The service assumption: metadata describes its generation and an ETag is never
      issued twice for a key. Providers that omit ETags are allowed. */
  ghost predicate Honest(s: Setting) {
    (forall k, n :: Describes(s, s.statMeta(k, n), k, n))
    && (forall k, n :: Describes(s, s.putMeta(k, n), k, n))
    && (forall k, n :: Describes(s, s.listMeta(k, n), k, n))
    && (forall k, m, n | m != n && s.etagOf(k, m).Some? :: s.etagOf(k, m) != s.etagOf(k, n))
  }

  /** Comparing recorded metadata decides exactly whether two generations of a key are the
      same one; without an ETag they never count as the same. */
  lemma {:induction false} SameGenerationIsExact(s: Setting, a: ObjectState, b: ObjectState, k: Path, m: nat, n: nat)
    requires Honest(s) && Describes(s, a, k, m) && Describes(s, b, k, n)
    ensures SameGeneration(a, b) <==> m == n && s.etagOf(k, m).Some?
  {
    if m != n && s.etagOf(k, m).Some? {
      assert s.etagOf(k, m) != s.etagOf(k, n);
    }
  }

  /** Why a conditional write was issued: nothing known remotely, the generation in the
      manifest (with the remote bytes held when that entry was recorded), or a merge. */
  datatype Reason =
    | Created
    | Recorded(entry: ObjectState, held: Bytes)
    | Merged(base: Bytes, local: Bytes, remote: Bytes)

  /** A session write that succeeded: the new generation and the one it replaced. */
  datatype Upload = Upload(path: Path, made: nat, over: Option<nat>, reason: Reason)

  datatype Condition = IfAbsent | IfMatch(etag: string)

  datatype Purpose = ForAdopt | ForMerge(base: Bytes)

  datatype Outcome = Synced | PreconditionFailed | Conflict | NoEtag | Failed

  /** Where the one sync in flight stands: the remote request it is about to send. */
  datatype Phase =
    | Ready(last: Outcome)
    | AtStat(path: Path, attempt: nat, local: Bytes, entry: Option<ObjectState>, held: Bytes)
    | AtRead(path: Path, attempt: nat, local: Bytes, why: Purpose, gen: nat)
    | AtRestat(path: Path, local: Bytes, gen: nat)
    | AtPut(path: Path, attempt: nat, condition: Condition, bytes: Bytes, reason: Reason)
    | AtDeleteStat(path: Path, recorded: ObjectState)
    | AtDelete(path: Path)

  /** A cache write handed to a background task. */
  datatype Blob = Blob(path: Path, etag: string, bytes: Bytes)

  datatype World = World(
    log: seq<Write>,                   // every write the bucket ever accepted
    live: map<Path, nat>,              // the current generation of each key
    cache: map<(Path, string), Bytes>, // content cache, keyed by path and ETag
    pending: set<Blob>,                // cache writes not landed yet
    readers: set<(Path, string)>,      // other cache users between metadata and read
    listing: Option<map<Path, nat>>,   // the listing a poll is working from
    local: map<Path, Bytes>,           // working directory
    base: map<Path, Bytes>,            // last synced bytes
    manifest: map<Path, ObjectState>,  // recorded remote generations
    phase: Phase,
    held: map<Path, Bytes>,            // history: remote bytes in hand when the entry was recorded
    uploads: seq<Upload>)              // history: the session's successful writes

  function LiveBytes(w: World, k: Path): Bytes
    requires k in w.live && w.live[k] < |w.log|
  {
    w.log[w.live[k]].bytes
  }

  function BaseOrEmpty(w: World, k: Path): Bytes {
    if k in w.base then w.base[k] else []
  }

  function HeldOrEmpty(w: World, k: Path): Bytes {
    if k in w.held then w.held[k] else []
  }

  /** Files are compared with their base; a file without one always counts as changed. */
  predicate LocalChanged(w: World, k: Path)
    requires k in w.local
  {
    k !in w.base || w.local[k] != w.base[k]
  }

  /** `write_blob_atomic`: the first bytes filed under a key stay. */
  function CachePut(w: World, k: Path, etag: string, bytes: Bytes): World {
    if (k, etag) in w.cache then w else w.(cache := w.cache[(k, etag) := bytes])
  }

  function FileRead(s: Setting, w: World, k: Path, etag: Option<string>, bytes: Bytes): World {
    if s.cached && etag.Some? then CachePut(w, k, etag.value, bytes) else w
  }

  function CacheHit(s: Setting, w: World, k: Path, etag: Option<string>): Option<Bytes> {
    if s.cached && etag.Some? && (k, etag.value) in w.cache then Some(w.cache[(k, etag.value)]) else None
  }

  /** `update_manifest` + `save_base`, with the history of what the session had in hand. */
  function Record(w: World, k: Path, state: ObjectState, base: Bytes, held: Bytes): World {
    w.(base := w.base[k := base], manifest := w.manifest[k := state], held := w.held[k := held])
  }

  function Forget(w: World, k: Path): World {
    w.(base := w.base - {k}, manifest := w.manifest - {k}, held := w.held - {k})
  }

  /** Everything the session keeps about one key. */
  datatype FileView = FileView(local: Option<Bytes>, base: Option<Bytes>, entry: Option<ObjectState>, held: Option<Bytes>)

  function ViewOf(w: World, k: Path): FileView {
    FileView(Lookup(w.local, k), Lookup(w.base, k), Lookup(w.manifest, k), Lookup(w.held, k))
  }

  /** The bucket is well formed: live generations are logged writes to their own key. */
  ghost predicate LogOk(w: World) {
    forall k | k in w.live :: w.live[k] < |w.log| && w.log[w.live[k]].path == k
  }
}
