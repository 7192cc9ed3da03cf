/** The sync of one dirty path as remote requests, with everything else that can happen
    between two of them (session.rs:314-540). */
module S3Steps {
  import opened Common
  import opened S3World
  import S3Refresh
  import TextMerge

  const MAX_PUT_RETRIES: nat := 3

  /** What other clients, the user, the poll worker and background cache tasks do. */
  datatype Event =
    | OtherPut(path: Path, bytes: Bytes)
    | OtherDelete(path: Path)
    | LocalWrite(path: Path, bytes: Bytes)
    | LocalRemove(path: Path)
    | Learn(path: Path)                  // a user of the shared cache sees the live ETag
    | Fetch(path: Path, etag: string)    // ... and reads the object some time later
    | Land(blob: Blob)
    | Evict(path: Path, etag: string)
    | PollList
    | PollApply(order: seq<Path>, index: set<Path>)

  datatype Label =
    | Happen(event: Event)
    | Begin(path: Path)
    | Advance

  // ---------------------------------------------------------------- events

  /** A write accepted by the bucket starts a new generation of its key. */
  function Accept(w: World, k: Path, bytes: Bytes): World {
    w.(log := w.log + [Write(k, bytes)], live := w.live[k := |w.log|])
  }

  function LiveEtag(s: Setting, w: World, k: Path): Option<string> {
    if k in w.live then s.etagOf(k, w.live[k]) else None
  }

  ghost function Occur(s: Setting, w: World, e: Event): World
    requires LogOk(w)
  {
    match e
    case OtherPut(k, bytes) => Accept(w, k, bytes)
    case OtherDelete(k) => w.(live := w.live - {k})
    case LocalWrite(k, bytes) => w.(local := w.local[k := bytes])
    case LocalRemove(k) => w.(local := w.local - {k})
    case Learn(k) =>
      var etag := LiveEtag(s, w, k);
      if etag.Some? then w.(readers := w.readers + {(k, etag.value)}) else w
    case Fetch(k, etag) =>
      if (k, etag) in w.readers && k in w.live
      then CachePut(w.(readers := w.readers - {(k, etag)}), k, etag, LiveBytes(w, k))
      else w
    case Land(blob) =>
      if blob in w.pending then CachePut(w.(pending := w.pending - {blob}), blob.path, blob.etag, blob.bytes) else w
    case Evict(k, etag) => w.(cache := w.cache - {(k, etag)})
    case PollList => w.(listing := Some(w.live))
    case PollApply(order, index) =>
      if w.listing.Some? && S3Refresh.Visits(order, S3Refresh.Changes(s, w, w.listing.value))
      then S3Refresh.Refresh(s, w, w.listing.value, order, index, S3Refresh.ApplySafe).0.(listing := None)
      else w
  }

  // ---------------------------------------------------------------- the sync in flight

  /** Everything but the session's own files and position is unchanged. */
  predicate SameOutside(a: World, b: World) {
    b == a.(local := b.local, base := b.base, manifest := b.manifest, held := b.held, phase := b.phase)
  }

  function Finish(w: World, o: Outcome): World {
    w.(phase := Ready(o))
  }

  /** One pass of `upload_or_merge_once`: read the file and the manifest, then stat. */
  function StartAttempt(w: World, k: Path, attempt: nat): (r: World)
    ensures SameOutside(w, r)
  {
    if k !in w.local then Finish(w, Failed)
    else w.(phase := AtStat(k, attempt, w.local[k], Lookup(w.manifest, k), HeldOrEmpty(w, k)))
  }

  /** `sync_one`: upload what exists, delete what does not. */
  function StartSync(w: World, k: Path): (r: World)
    ensures SameOutside(w, r)
  {
    if k in w.local then StartAttempt(w, k, 0)
    else if k in w.manifest then w.(phase := AtDeleteStat(k, w.manifest[k]))
    else Finish(w, Synced)
  }

  function PutWhenTagged(w: World, k: Path, attempt: nat, state: ObjectState, bytes: Bytes, reason: Reason): (r: World)
    ensures SameOutside(w, r)
  {
    match RequiredEtag(state)
    case None => Finish(w, NoEtag)
    case Some(etag) => w.(phase := AtPut(k, attempt, IfMatch(etag), bytes, reason))
  }

  /** The file's remote object is gone: drop an unedited file, refuse otherwise. */
  function RemoteGone(w: World, k: Path, local: Bytes): (r: World)
    ensures SameOutside(w, r)
  {
    if BaseOrEmpty(w, k) == local
    then Finish(Forget(w.(local := w.local - {k}), k), Synced)
    else Finish(w, Conflict)
  }

  /** With the remote bytes at hand: adopt equal content, or merge. */
  function AfterRead(s: Setting, w: World, k: Path, attempt: nat, local: Bytes, why: Purpose, gen: nat, remote: Bytes): (r: World)
    ensures SameOutside(w, r)
  {
    var state := s.statMeta(k, gen);
    match why
    case ForAdopt => if remote == local then w.(phase := AtRestat(k, local, gen)) else Finish(w, Conflict)
    case ForMerge(base) =>
      if !(s.utf8(base) && s.utf8(local) && s.utf8(remote)) then Finish(w, Conflict)
      else match TextMerge.Decide(s.diffy, base, local, remote)
        case UploadLocal => PutWhenTagged(w, k, attempt, state, local, Merged(base, local, remote))
        case UploadMerged(m) =>
          PutWhenTagged(w.(local := w.local[k := m]), k, attempt, state, m, Merged(base, local, remote))
        case AcceptRemote(r) => Finish(Record(w.(local := w.local[k := r]), k, state, r, remote), Synced)
        case AlreadySynced => Finish(Record(w, k, state, local, remote), Synced)
        case Conflict => Finish(w, Conflict)
  }

  /** `read_object_cached`: a hit answers at once, a miss needs a request. */
  function StartRead(s: Setting, w: World, k: Path, attempt: nat, local: Bytes, why: Purpose, gen: nat): (r: World)
    ensures SameOutside(w, r)
  {
    match CacheHit(s, w, k, s.statMeta(k, gen).etag)
    case Some(bytes) => AfterRead(s, w, k, attempt, local, why, gen, bytes)
    case None => w.(phase := AtRead(k, attempt, local, why, gen))
  }

  function AfterStat(s: Setting, w: World, k: Path, attempt: nat, local: Bytes, entry: Option<ObjectState>, held: Bytes): (r: World)
    ensures SameOutside(w, r)
  {
    match entry
    case Some(m) =>
      if k !in w.live then RemoteGone(w, k, local)
      else if !SameGeneration(m, s.statMeta(k, w.live[k]))
      then StartRead(s, w, k, attempt, local, ForMerge(BaseOrEmpty(w, k)), w.live[k])
      else PutWhenTagged(w, k, attempt, m, local, Recorded(m, held))
    case None =>
      if k in w.live then StartRead(s, w, k, attempt, local, ForAdopt, w.live[k])
      else w.(phase := AtPut(k, attempt, IfAbsent, local, Created))
  }

  predicate Admits(s: Setting, w: World, k: Path, c: Condition) {
    match c
    case IfAbsent => k !in w.live
    case IfMatch(etag) => LiveEtag(s, w, k) == Some(etag)
  }

  /** How the bucket may move: writes are only ever added, and a key that changes hands
      gets one of the new generations. */
  ghost predicate Moves(a: World, b: World) {
    a.log <= b.log
    && forall k | k in b.live ::
         (k in a.live && b.live[k] == a.live[k])
         || (|a.log| <= b.live[k] < |b.log| && b.log[b.live[k]].path == k)
  }

  lemma MovesKeepsLog(a: World, b: World)
    requires LogOk(a) && Moves(a, b)
    ensures LogOk(b)
  {
  }

  /** An accepted conditional write: spawn the cache write, record base and manifest. */
  function PutAccepted(s: Setting, w: World, k: Path, bytes: Bytes, reason: Reason): (r: World)
    ensures r.log == w.log + [Write(k, bytes)] && r.live == w.live[k := |w.log|]
    ensures r.cache == w.cache && r.readers == w.readers && r.listing == w.listing
  {
    var gen := |w.log|;
    var state := s.putMeta(k, gen);
    var w1 := Accept(w, k, bytes).(uploads := w.uploads + [Upload(k, gen, Lookup(w.live, k), reason)]);
    var w2 := if s.cached && state.etag.Some?
              then w1.(pending := w1.pending + {Blob(k, state.etag.value, bytes)}) else w1;
    Finish(Record(w2, k, state, bytes, bytes), Synced)
  }

  function StepRead(s: Setting, w: World, k: Path, attempt: nat, local: Bytes, why: Purpose, gen: nat): (r: World)
    requires LogOk(w)
    ensures r.log == w.log && r.live == w.live
  {
    if k !in w.live then Finish(w, Failed)
    else
      var bytes := LiveBytes(w, k);
      AfterRead(s, FileRead(s, w, k, s.statMeta(k, gen).etag, bytes), k, attempt, local, why, gen, bytes)
  }

  function StepRestat(s: Setting, w: World, k: Path, local: Bytes): (r: World)
    ensures SameOutside(w, r)
  {
    if k !in w.live then Finish(w, Failed)
    else Finish(Record(w, k, s.statMeta(k, w.live[k]), local, local), Synced)
  }

  function StepPut(s: Setting, w: World, k: Path, attempt: nat, condition: Condition, bytes: Bytes, reason: Reason): (r: World)
    ensures Moves(w, r)
  {
    if Admits(s, w, k, condition) then PutAccepted(s, w, k, bytes, reason)
    else if attempt + 1 < MAX_PUT_RETRIES then StartAttempt(w, k, attempt + 1)
    else Finish(w, PreconditionFailed)
  }

  function StepDeleteStat(s: Setting, w: World, k: Path, recorded: ObjectState): (r: World)
    ensures SameOutside(w, r)
  {
    if k in w.live && s.statMeta(k, w.live[k]) == recorded then w.(phase := AtDelete(k)) else Finish(w, Conflict)
  }

  function StepDelete(w: World, k: Path): (r: World)
    ensures r.log == w.log && r.live == w.live - {k}
  {
    Finish(Forget(w.(live := w.live - {k}), k), Synced)
  }

  /** The next remote request of the sync in flight, and the local work up to the one after. */
  function Step(s: Setting, w: World): World
    requires LogOk(w)
  {
    match w.phase
    case Ready(_) => w
    case AtStat(k, attempt, local, entry, held) => AfterStat(s, w, k, attempt, local, entry, held)
    case AtRead(k, attempt, local, why, gen) => StepRead(s, w, k, attempt, local, why, gen)
    case AtRestat(k, local, gen) => StepRestat(s, w, k, local)
    case AtPut(k, attempt, condition, bytes, reason) => StepPut(s, w, k, attempt, condition, bytes, reason)
    case AtDeleteStat(k, recorded) => StepDeleteStat(s, w, k, recorded)
    case AtDelete(k) => StepDelete(w, k)
  }

  lemma StepMoves(s: Setting, w: World)
    requires LogOk(w)
    ensures Moves(w, Step(s, w))
  {
    hide StepRead, StepRestat, StepPut, StepDeleteStat, StepDelete, AfterStat;
  }

  /** One transition of the whole system. A sync starts only when none is in flight. */
  ghost function Take(s: Setting, w: World, l: Label): World
    requires LogOk(w)
  {
    match l
    case Happen(e) => Occur(s, w, e)
    case Begin(k) => if w.phase.Ready? then StartSync(w, k) else w
    case Advance => Step(s, w)
  }

  /** What happens outside never moves the sync in flight. */
  lemma OccurFrame(s: Setting, w: World, e: Event)
    requires LogOk(w)
    ensures Occur(s, w, e).phase == w.phase && Occur(s, w, e).uploads == w.uploads
  {
    hide S3Refresh.Refresh, S3Refresh.Changes, S3Refresh.Visits;
    if e.PollApply? && w.listing.Some? && S3Refresh.Visits(e.order, S3Refresh.Changes(s, w, w.listing.value)) {
      S3Refresh.RefreshFrame(s, w, w.listing.value, e.order, e.index, S3Refresh.ApplySafe);
    }
  }

  lemma OccurMoves(s: Setting, w: World, e: Event)
    requires LogOk(w)
    ensures Moves(w, Occur(s, w, e))
  {
    hide S3Refresh.Refresh, S3Refresh.Visits, S3Refresh.Changes, Moves, CachePut;
    match e {
      case OtherPut(k, bytes) => AcceptMoves(w, k, bytes);
      case OtherDelete(k) => DeleteMoves(w, k);
      case PollApply(order, index) =>
        if w.listing.Some? && S3Refresh.Visits(order, S3Refresh.Changes(s, w, w.listing.value)) {
          S3Refresh.RefreshFrame(s, w, w.listing.value, order, index, S3Refresh.ApplySafe);
        }
        StillMoves(w, Occur(s, w, e));
      case Fetch(k, etag) =>
        CachePutStill(w.(readers := w.readers - {(k, etag)}), k, etag, if k in w.live then LiveBytes(w, k) else []);
        StillMoves(w, Occur(s, w, e));
      case Land(blob) =>
        CachePutStill(w.(pending := w.pending - {blob}), blob.path, blob.etag, blob.bytes);
        StillMoves(w, Occur(s, w, e));
      case _ => StillMoves(w, Occur(s, w, e));
    }
  }

  lemma CachePutStill(w: World, k: Path, etag: string, bytes: Bytes)
    ensures var after := CachePut(w, k, etag, bytes); after.log == w.log && after.live == w.live
  {
  }

  lemma StillMoves(a: World, b: World)
    requires b.log == a.log && b.live == a.live
    ensures Moves(a, b)
  {
  }

  lemma AcceptMoves(w: World, k: Path, bytes: Bytes)
    ensures Moves(w, Accept(w, k, bytes))
  {
  }

  lemma DeleteMoves(w: World, k: Path)
    ensures Moves(w, w.(live := w.live - {k}))
  {
  }

  lemma {:induction false} TakeMoves(s: Setting, w: World, l: Label)
    requires LogOk(w)
    ensures Moves(w, Take(s, w, l)) && LogOk(Take(s, w, l))
  {
    hide Step, Occur, StartSync;
    match l
    case Happen(e) => OccurMoves(s, w, e);
    case Begin(k) =>
    case Advance => StepMoves(s, w);
  }

  /** The world after a whole run. */
  ghost function Run(s: Setting, w: World, run: seq<Label>): (r: World)
    requires LogOk(w)
    ensures LogOk(r)
    decreases |run|
  {
    if run == [] then w
    else
      var before := Run(s, w, run[..|run| - 1]);
      TakeMoves(s, before, run[|run| - 1]);
      Take(s, before, run[|run| - 1])
  }

  lemma {:induction false} RunConcat(s: Setting, w: World, a: seq<Label>, b: seq<Label>)
    requires LogOk(w)
    ensures Run(s, w, a + b) == Run(s, Run(s, w, a), b)
    decreases |b|
  {
    hide Take;
    if b == [] {
      assert a + b == a;
    } else {
      var front, last := b[..|b| - 1], b[|b| - 1];
      RunConcat(s, w, a, front);
      assert (a + b)[..|a + b| - 1] == a + front && (a + b)[|a + b| - 1] == last;
    }
  }

  lemma RunOne(s: Setting, w: World, run: seq<Label>, l: Label)
    requires LogOk(w)
    ensures Run(s, w, run + [l]) == Take(s, Run(s, w, run), l)
  {
    hide Take;
    assert (run + [l])[..|run|] == run;
  }

  lemma RunNothing(s: Setting, w: World)
    requires LogOk(w)
    ensures Run(s, w, []) == w
  {
  }

  lemma RunSingle(s: Setting, w: World, l: Label)
    requires LogOk(w)
    ensures Run(s, w, [l]) == Take(s, w, l)
  {
    hide Take;
    assert [l][..0] == [];
  }
}
