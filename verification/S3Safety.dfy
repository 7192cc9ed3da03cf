/** What every run of the S3 system keeps: a sound content cache and justified uploads. */
module S3Safety {
  import opened Common
  import opened S3World
  import opened S3Steps
  import S3History
  import S3Refresh
  import TextMerge

  // ---------------------------------------------------------------- claims about generations

  /** `gen` is a logged generation of `k`. */
  predicate Logged(w: World, k: Path, gen: nat) {
    gen < |w.log| && w.log[gen].path == k
  }

  ghost predicate Issued(s: Setting, w: World, k: Path, etag: string) {
    exists n: nat :: Logged(w, k, n) && s.etagOf(k, n) == Some(etag)
  }

  /** If `etag` is the one now live on the remote, its object holds exactly `bytes`. */
  predicate TrueIfLive(s: Setting, w: World, k: Path, etag: string, bytes: Bytes)
    requires LogOk(w)
  {
    LiveEtag(s, w, k) == Some(etag) ==> LiveBytes(w, k) == bytes
  }

  /** Bytes filed under an ETag: the ETag was issued, and they are right while it is live. */
  ghost predicate Filed(s: Setting, w: World, k: Path, etag: string, bytes: Bytes)
    requires LogOk(w)
  {
    Issued(s, w, k, etag) && TrueIfLive(s, w, k, etag, bytes)
  }

  predicate TrueOfGeneration(w: World, k: Path, gen: nat, bytes: Bytes)
    requires LogOk(w)
  {
    k in w.live && w.live[k] == gen ==> LiveBytes(w, k) == bytes
  }

  lemma IssuedStays(s: Setting, a: World, b: World, k: Path, etag: string)
    requires a.log <= b.log && Issued(s, a, k, etag)
    ensures Issued(s, b, k, etag)
  {
    var n: nat :| Logged(a, k, n) && s.etagOf(k, n) == Some(etag);
    assert Logged(b, k, n);
  }

  /** However the bucket moves, a claim filed under an issued ETag stays right: a
      generation that stopped being live never becomes live again. */
  lemma FiledStays(s: Setting, a: World, b: World, k: Path, etag: string, bytes: Bytes)
    requires Honest(s) && LogOk(a) && LogOk(b) && Moves(a, b) && Filed(s, a, k, etag, bytes)
    ensures Filed(s, b, k, etag, bytes)
  {
    IssuedStays(s, a, b, k, etag);
    if LiveEtag(s, b, k) == Some(etag) {
      var n: nat :| Logged(a, k, n) && s.etagOf(k, n) == Some(etag);
      assert b.live[k] == n;
    }
  }

  lemma TrueOfGenerationStays(a: World, b: World, k: Path, gen: nat, bytes: Bytes)
    requires LogOk(a) && LogOk(b) && Moves(a, b) && Logged(a, k, gen) && TrueOfGeneration(a, k, gen, bytes)
    ensures Logged(b, k, gen) && TrueOfGeneration(b, k, gen, bytes)
  {
  }

  // ---------------------------------------------------------------- the invariant

  ghost predicate CachesOk(s: Setting, w: World)
    requires LogOk(w)
  {
    (forall key | key in w.cache :: Filed(s, w, key.0, key.1, w.cache[key]))
    && (forall blob | blob in w.pending :: Filed(s, w, blob.path, blob.etag, blob.bytes))
    && (forall r | r in w.readers :: Issued(s, w, r.0, r.1))
    && (w.listing.Some? ==> forall k | k in w.listing.value :: Logged(w, k, w.listing.value[k]))
  }

  ghost predicate EntryOk(s: Setting, w: World, k: Path, entry: ObjectState) {
    entry.etag.Some? ==> Issued(s, w, k, entry.etag.value)
  }

  ghost predicate ManifestOk(s: Setting, w: World) {
    forall k | k in w.manifest :: EntryOk(s, w, k, w.manifest[k])
  }

  /** The merge decision on these three texts is to upload `bytes`. */
  predicate DecidesToUpload(s: Setting, base: Bytes, local: Bytes, remote: Bytes, bytes: Bytes) {
    match TextMerge.Decide(s.diffy, base, local, remote)
    case UploadLocal => bytes == local
    case UploadMerged(m) => bytes == m
    case _ => false
  }

  ghost predicate PutOk(s: Setting, w: World, k: Path, condition: Condition, bytes: Bytes, reason: Reason)
    requires LogOk(w)
  {
    match reason
    case Created => condition == IfAbsent
    case Recorded(entry, held) =>
      condition.IfMatch? && entry.etag == Some(condition.etag) && Issued(s, w, k, condition.etag)
    case Merged(base, local, remote) =>
      condition.IfMatch? && Filed(s, w, k, condition.etag, remote) && DecidesToUpload(s, base, local, remote, bytes)
  }

  ghost predicate PhaseOk(s: Setting, w: World)
    requires LogOk(w)
  {
    match w.phase
    case AtStat(k, _, _, entry, _) => entry.Some? ==> EntryOk(s, w, k, entry.value)
    case AtRead(k, _, _, _, gen) => Logged(w, k, gen)
    case AtRestat(k, local, gen) => Logged(w, k, gen) && TrueOfGeneration(w, k, gen, local)
    case AtPut(k, _, condition, bytes, reason) => PutOk(s, w, k, condition, bytes, reason)
    case _ => true
  }

  /** No lost update, for one accepted upload: it created an absent key, or replaced the
      generation in the manifest, or replaced a generation whose true bytes were the
      remote side of the merge that produced what was uploaded. */
  predicate Justified(s: Setting, w: World, u: Upload) {
    Logged(w, u.path, u.made)
    && match u.reason
       case Created => u.over == None
       case Recorded(entry, held) =>
         u.over.Some? && Logged(w, u.path, u.over.value)
         && entry.etag.Some? && entry.etag == s.etagOf(u.path, u.over.value)
       case Merged(base, local, remote) =>
         u.over.Some? && Logged(w, u.path, u.over.value)
         && remote == w.log[u.over.value].bytes
         && DecidesToUpload(s, base, local, remote, w.log[u.made].bytes)
  }

  ghost predicate UploadsOk(s: Setting, w: World) {
    forall u | u in w.uploads :: Justified(s, w, u)
  }

  ghost predicate Inv(s: Setting, w: World) {
    LogOk(w) && CachesOk(s, w) && ManifestOk(s, w) && PhaseOk(s, w) && UploadsOk(s, w)
  }

  /** A freshly attached session: any bucket content, any local files, nothing recorded. */
  ghost predicate Fresh(w: World) {
    LogOk(w) && w.cache == map[] && w.pending == {} && w.readers == {} && w.listing == None
    && w.base == map[] && w.manifest == map[] && w.held == map[] && w.phase.Ready? && w.uploads == []
  }

  // ---------------------------------------------------------------- what carries over a move

  lemma CachesStay(s: Setting, a: World, b: World)
    requires Honest(s) && LogOk(a) && LogOk(b) && Moves(a, b) && CachesOk(s, a)
    requires forall key | key in b.cache :: (key in a.cache && b.cache[key] == a.cache[key]) || Filed(s, b, key.0, key.1, b.cache[key])
    requires forall blob | blob in b.pending :: blob in a.pending || Filed(s, b, blob.path, blob.etag, blob.bytes)
    requires forall r | r in b.readers :: r in a.readers || Issued(s, b, r.0, r.1)
    requires b.listing in {None, a.listing, Some(b.live)}
    ensures CachesOk(s, b)
  {
    hide Filed, Issued;
    forall key | key in b.cache ensures Filed(s, b, key.0, key.1, b.cache[key]) {
      if key in a.cache && b.cache[key] == a.cache[key] {
        FiledStays(s, a, b, key.0, key.1, a.cache[key]);
      }
    }
    forall blob | blob in b.pending ensures Filed(s, b, blob.path, blob.etag, blob.bytes) {
      if blob in a.pending {
        FiledStays(s, a, b, blob.path, blob.etag, blob.bytes);
      }
    }
    forall r | r in b.readers ensures Issued(s, b, r.0, r.1) {
      if r in a.readers {
        IssuedStays(s, a, b, r.0, r.1);
      }
    }
  }

  lemma EntryStays(s: Setting, a: World, b: World, k: Path, entry: ObjectState)
    requires a.log <= b.log && EntryOk(s, a, k, entry)
    ensures EntryOk(s, b, k, entry)
  {
    if entry.etag.Some? {
      IssuedStays(s, a, b, k, entry.etag.value);
    }
  }

  lemma ManifestStays(s: Setting, a: World, b: World)
    requires a.log <= b.log && ManifestOk(s, a)
    requires forall k | k in b.manifest :: (k in a.manifest && b.manifest[k] == a.manifest[k]) || EntryOk(s, b, k, b.manifest[k])
    ensures ManifestOk(s, b)
  {
    hide EntryOk;
    forall k | k in b.manifest ensures EntryOk(s, b, k, b.manifest[k]) {
      if k in a.manifest && b.manifest[k] == a.manifest[k] {
        EntryStays(s, a, b, k, a.manifest[k]);
      }
    }
  }

  lemma PhaseStays(s: Setting, a: World, b: World)
    requires Honest(s) && LogOk(a) && LogOk(b) && Moves(a, b) && PhaseOk(s, a) && b.phase == a.phase
    ensures PhaseOk(s, b)
  {
    hide Filed, Issued;
    match a.phase
    case AtStat(k, _, _, entry, _) => if entry.Some? { EntryStays(s, a, b, k, entry.value); }
    case AtRead(k, _, _, _, gen) =>
    case AtRestat(k, local, gen) => TrueOfGenerationStays(a, b, k, gen, local);
    case AtPut(k, _, condition, bytes, reason) =>
      match reason {
        case Created =>
        case Recorded(_, _) => IssuedStays(s, a, b, k, condition.etag);
        case Merged(_, _, remote) => FiledStays(s, a, b, k, condition.etag, remote);
      }
    case _ =>
  }

  lemma UploadsStay(s: Setting, a: World, b: World)
    requires a.log <= b.log && UploadsOk(s, a)
    requires forall u | u in b.uploads :: u in a.uploads || Justified(s, b, u)
    ensures UploadsOk(s, b)
  {
    forall u | u in b.uploads ensures Justified(s, b, u) {
      if u in a.uploads {
        assert Justified(s, a, u);
      }
    }
  }

  /** Metadata of a logged generation makes a sound manifest entry. */
  lemma DescribedEntry(s: Setting, w: World, k: Path, gen: nat, state: ObjectState)
    requires Logged(w, k, gen) && Describes(s, state, k, gen)
    ensures EntryOk(s, w, k, state)
  {
  }

  // ---------------------------------------------------------------- events

  lemma ViewAfterEntry(s: Setting, w: World, listing: map<Path, nat>, order: seq<Path>, k: Path)
    requires LogOk(w)
    ensures var view := S3Refresh.ViewAfter(s, w, listing, order, ViewOf(w, k), k);
            view.entry == Lookup(w.manifest, k) || view.entry.None? || (k in listing && view.entry == Some(s.listMeta(k, listing[k])))
  {
  }

  lemma RefreshManifest(s: Setting, w: World, listing: map<Path, nat>, order: seq<Path>, index: set<Path>)
    requires Honest(s) && LogOk(w) && ManifestOk(s, w) && S3Refresh.Visits(order, S3Refresh.Changes(s, w, listing))
    requires forall k | k in listing :: Logged(w, k, listing[k])
    ensures ManifestOk(s, S3Refresh.Refresh(s, w, listing, order, index, S3Refresh.ApplySafe).0)
  {
    var after := S3Refresh.Refresh(s, w, listing, order, index, S3Refresh.ApplySafe).0;
    S3Refresh.AppliedWorld(s, w, listing, order, index, S3Refresh.ApplySafe);
    hide S3Refresh.Refresh, S3Refresh.ViewAfter, S3Refresh.Changes;
    forall k | k in after.manifest
      ensures (k in w.manifest && after.manifest[k] == w.manifest[k]) || EntryOk(s, after, k, after.manifest[k])
    {
      S3Refresh.RefreshKeywise(s, w, listing, order, index, S3Refresh.ApplySafe, k);
      ViewAfterEntry(s, w, listing, order, k);
      assert ViewOf(after, k).entry == Some(after.manifest[k]);
      if k in listing {
        DescribedEntry(s, after, k, listing[k], s.listMeta(k, listing[k]));
      }
    }
    ManifestStays(s, w, after);
  }

  /** Bytes read from the live object may be filed under any ETag issued for its key. */
  lemma FreshReadFiled(s: Setting, w: World, k: Path, etag: string)
    requires LogOk(w) && k in w.live && Issued(s, w, k, etag)
    ensures Filed(s, w, k, etag, LiveBytes(w, k))
  {
  }

  lemma FetchedCaches(s: Setting, w: World, listing: map<Path, nat>, k: Path)
    requires Honest(s) && LogOk(w) && CachesOk(s, w)
    requires forall q | q in listing :: Logged(w, q, listing[q])
    ensures CachesOk(s, S3Refresh.Fetched(s, w, listing, k))
  {
    var after := S3Refresh.Fetched(s, w, listing, k);
    if k in listing {
      var etag := s.listMeta(k, listing[k]).etag;
      assert Describes(s, s.listMeta(k, listing[k]), k, listing[k]);
      if etag.Some? && k in w.live {
        assert Issued(s, w, k, etag.value);
        FreshReadFiled(s, w, k, etag.value);
        FiledStays(s, w, after, k, etag.value, LiveBytes(w, k));
      }
    }
    CachesStay(s, w, after);
  }

  lemma {:induction false} FetchAllCaches(s: Setting, w: World, listing: map<Path, nat>, order: seq<Path>)
    requires Honest(s) && LogOk(w) && CachesOk(s, w)
    requires forall q | q in listing :: Logged(w, q, listing[q])
    ensures CachesOk(s, S3Refresh.FetchAll(s, w, listing, order))
  {
    if order != [] {
      FetchAllCaches(s, w, listing, order[..|order| - 1]);
      FetchedCaches(s, S3Refresh.FetchAll(s, w, listing, order[..|order| - 1]), listing, order[|order| - 1]);
    }
  }

  lemma RefreshCaches(s: Setting, w: World, listing: map<Path, nat>, order: seq<Path>, index: set<Path>)
    requires Honest(s) && LogOk(w) && CachesOk(s, w)
    requires forall k | k in listing :: Logged(w, k, listing[k])
    ensures var after := S3Refresh.Refresh(s, w, listing, order, index, S3Refresh.ApplySafe).0;
            LogOk(after) && CachesOk(s, after)
  {
    hide *;
    var after := S3Refresh.Refresh(s, w, listing, order, index, S3Refresh.ApplySafe).0;
    S3Refresh.RefreshFrame(s, w, listing, order, index, S3Refresh.ApplySafe);
    var n := S3Refresh.RefreshReads(s, w, listing, order, index, S3Refresh.ApplySafe);
    var read := S3Refresh.FetchAll(s, w, listing, order[..n]);
    SameLog(w, read);
    FetchAllCaches(s, w, listing, order[..n]);
    SameCaches(s, read, after);
  }

  lemma SameLog(a: World, b: World)
    requires LogOk(a) && b.log == a.log && b.live == a.live
    ensures LogOk(b)
  {
  }

  lemma SameCaches(s: Setting, a: World, b: World)
    requires Honest(s) && LogOk(a) && CachesOk(s, a)
    requires b == a.(local := b.local, base := b.base, manifest := b.manifest, held := b.held)
    ensures LogOk(b) && CachesOk(s, b)
  {
    CachesStay(s, a, b);
  }

  lemma FiledAlongside(s: Setting, a: World, b: World, k: Path, etag: string, bytes: Bytes)
    requires LogOk(a) && b.log == a.log && b.live == a.live && Filed(s, a, k, etag, bytes)
    ensures LogOk(b) && Filed(s, b, k, etag, bytes)
  {
    IssuedStays(s, a, b, k, etag);
  }

  lemma CachePutOk(s: Setting, w: World, k: Path, etag: string, bytes: Bytes)
    requires Honest(s) && LogOk(w) && CachesOk(s, w) && Filed(s, w, k, etag, bytes)
    ensures CachesOk(s, CachePut(w, k, etag, bytes))
  {
    hide Filed, Issued, CachesOk, Honest;
    var after := CachePut(w, k, etag, bytes);
    if (k, etag) !in w.cache {
      FiledAlongside(s, w, after, k, etag, bytes);
      CachesStay(s, w, after) by {
        assert forall key | key in after.cache :: key == (k, etag) || (key in w.cache && after.cache[key] == w.cache[key]);
      }
    }
  }

  lemma FetchCaches(s: Setting, w: World, k: Path, etag: string)
    requires Honest(s) && LogOk(w) && CachesOk(s, w)
    ensures CachesOk(s, Occur(s, w, Fetch(k, etag)))
  {
    if (k, etag) in w.readers && k in w.live {
      assert (k, etag).0 == k;
      assert Issued(s, w, k, etag);
      FreshReadFiled(s, w, k, etag);
      var taken := w.(readers := w.readers - {(k, etag)});
      CachesStay(s, w, taken);
      FiledStays(s, w, taken, k, etag, LiveBytes(w, k));
      hide CachesOk, CachePut, Filed;
      CachePutOk(s, taken, k, etag, LiveBytes(w, k));
    }
  }

  lemma LandCaches(s: Setting, w: World, blob: Blob)
    requires Honest(s) && LogOk(w) && CachesOk(s, w)
    ensures CachesOk(s, Occur(s, w, Land(blob)))
  {
    if blob in w.pending {
      var taken := w.(pending := w.pending - {blob});
      FiledStays(s, w, taken, blob.path, blob.etag, blob.bytes);
      CachesStay(s, w, taken);
      hide CachesOk, CachePut, Filed;
      CachePutOk(s, taken, blob.path, blob.etag, blob.bytes);
    }
  }

  lemma LearnCaches(s: Setting, w: World, k: Path)
    requires Honest(s) && LogOk(w) && CachesOk(s, w)
    ensures CachesOk(s, Occur(s, w, Learn(k)))
  {
    var after := Occur(s, w, Learn(k));
    if LiveEtag(s, w, k).Some? {
      assert Logged(after, k, w.live[k]);
    }
    CachesStay(s, w, after);
  }

  lemma PollCaches(s: Setting, w: World, order: seq<Path>, index: set<Path>)
    requires Honest(s) && LogOk(w) && CachesOk(s, w)
    ensures var after := Occur(s, w, PollApply(order, index)); LogOk(after) && CachesOk(s, after)
  {
    if w.listing.Some? && S3Refresh.Visits(order, S3Refresh.Changes(s, w, w.listing.value)) {
      S3Refresh.AppliedWorld(s, w, w.listing.value, order, index, S3Refresh.ApplySafe);
      RefreshCaches(s, w, w.listing.value, order, index);
      hide S3Refresh.Refresh, S3Refresh.Changes;
      CachesStay(s, S3Refresh.Refresh(s, w, w.listing.value, order, index, S3Refresh.ApplySafe).0, Occur(s, w, PollApply(order, index)));
    }
  }

  lemma OccurCaches(s: Setting, w: World, e: Event)
    requires Honest(s) && LogOk(w) && CachesOk(s, w)
    ensures LogOk(Occur(s, w, e)) && CachesOk(s, Occur(s, w, e))
  {
    match e
    case Fetch(k, etag) => FetchCaches(s, w, k, etag);
    case Land(blob) => LandCaches(s, w, blob);
    case Learn(k) => LearnCaches(s, w, k);
    case PollApply(order, index) => PollCaches(s, w, order, index);
    case _ =>
      OccurMoves(s, w, e);
      MovesKeepsLog(w, Occur(s, w, e));
      CachesStay(s, w, Occur(s, w, e));
  }

  lemma OccurManifest(s: Setting, w: World, e: Event)
    requires Honest(s) && Inv(s, w)
    ensures ManifestOk(s, Occur(s, w, e))
  {
    hide CachesOk, PhaseOk, UploadsOk, ManifestOk, Moves, LogOk, Honest, Occur, S3Refresh.Visits, S3Refresh.Changes;
    OccurMoves(s, w, e);
    MovesKeepsLog(w, Occur(s, w, e));
    if e.PollApply? && w.listing.Some? && S3Refresh.Visits(e.order, S3Refresh.Changes(s, w, w.listing.value)) {
      PollManifest(s, w, e.order, e.index);
    } else {
      OthersLeaveRecords(s, w, e);
      SameManifest(s, w, Occur(s, w, e));
    }
  }

  lemma OthersLeaveRecords(s: Setting, w: World, e: Event)
    requires LogOk(w)
    requires !(e.PollApply? && w.listing.Some? && S3Refresh.Visits(e.order, S3Refresh.Changes(s, w, w.listing.value)))
    ensures Occur(s, w, e).manifest == w.manifest && Occur(s, w, e).held == w.held
  {
    hide S3Refresh.Visits, S3Refresh.Changes, S3Refresh.Refresh, LogOk;
  }

  lemma SameManifest(s: Setting, a: World, b: World)
    requires LogOk(a) && LogOk(b) && Moves(a, b) && ManifestOk(s, a) && b.manifest == a.manifest
    ensures ManifestOk(s, b)
  {
    ManifestStays(s, a, b);
  }

  lemma PollManifest(s: Setting, w: World, order: seq<Path>, index: set<Path>)
    requires Honest(s) && Inv(s, w)
    requires w.listing.Some? && S3Refresh.Visits(order, S3Refresh.Changes(s, w, w.listing.value))
    ensures ManifestOk(s, Occur(s, w, PollApply(order, index)))
  {
    hide CachesOk, PhaseOk, UploadsOk;
    var refreshed := S3Refresh.Refresh(s, w, w.listing.value, order, index, S3Refresh.ApplySafe).0;
    ListingLogged(s, w);
    RefreshManifest(s, w, w.listing.value, order, index);
    hide S3Refresh.Refresh, S3Refresh.Changes, S3Refresh.Visits;
    S3Refresh.RefreshFrame(s, w, w.listing.value, order, index, S3Refresh.ApplySafe);
    SameManifest(s, refreshed, refreshed.(listing := None));
  }

  lemma ListingLogged(s: Setting, w: World)
    requires LogOk(w) && CachesOk(s, w) && w.listing.Some?
    ensures forall k | k in w.listing.value :: Logged(w, k, w.listing.value[k])
  {
  }

  /** Whatever else happens, between any two requests, the invariant holds. */
  lemma {:induction false} OccurKeepsInv(s: Setting, w: World, e: Event)
    requires Honest(s) && Inv(s, w)
    ensures Inv(s, Occur(s, w, e))
  {
    OccurCaches(s, w, e);
    OccurManifest(s, w, e);
    OccurFrame(s, w, e);
    OccurMoves(s, w, e);
    hide Occur, CachesOk, ManifestOk;
    PhaseStays(s, w, Occur(s, w, e));
    UploadsStay(s, w, Occur(s, w, e));
  }

  // ---------------------------------------------------------------- requests of the sync

  /** The files-and-position half of the invariant, for a world with an unchanged bucket. */
  ghost predicate OwnOk(s: Setting, w: World)
    requires LogOk(w)
  {
    ManifestOk(s, w) && PhaseOk(s, w)
  }

  lemma StartAttemptOk(s: Setting, w: World, k: Path, attempt: nat)
    requires LogOk(w) && ManifestOk(s, w)
    ensures OwnOk(s, StartAttempt(w, k, attempt))
  {
    ManifestStays(s, w, StartAttempt(w, k, attempt));
    if k in w.manifest {
      EntryStays(s, w, StartAttempt(w, k, attempt), k, w.manifest[k]);
    }
  }

  lemma StartSyncOk(s: Setting, w: World, k: Path)
    requires LogOk(w) && ManifestOk(s, w)
    ensures OwnOk(s, StartSync(w, k))
  {
    StartAttemptOk(s, w, k, 0);
    ManifestStays(s, w, StartSync(w, k));
  }

  lemma FinishOk(s: Setting, w: World, o: Outcome)
    requires LogOk(w) && ManifestOk(s, w)
    ensures OwnOk(s, Finish(w, o))
  {
    ManifestStays(s, w, Finish(w, o));
  }

  lemma RecordOk(s: Setting, w: World, k: Path, gen: nat, state: ObjectState, base: Bytes, held: Bytes)
    requires LogOk(w) && ManifestOk(s, w) && Logged(w, k, gen) && Describes(s, state, k, gen)
    ensures OwnOk(s, Finish(Record(w, k, state, base, held), Synced))
  {
    DescribedEntry(s, w, k, gen, state);
    var after := Finish(Record(w, k, state, base, held), Synced);
    EntryStays(s, w, after, k, state);
    ManifestStays(s, w, after);
  }

  lemma PutWhenTaggedOk(s: Setting, w: World, k: Path, attempt: nat, state: ObjectState, bytes: Bytes, reason: Reason)
    requires LogOk(w) && ManifestOk(s, w)
    requires state.etag.Some? ==> PutOk(s, w, k, IfMatch(state.etag.value), bytes, reason)
    ensures OwnOk(s, PutWhenTagged(w, k, attempt, state, bytes, reason))
  {
    var after := PutWhenTagged(w, k, attempt, state, bytes, reason);
    ManifestStays(s, w, after);
    if state.etag.Some? {
      match reason {
        case Created =>
        case Recorded(_, _) => IssuedStays(s, w, after, k, state.etag.value);
        case Merged(_, _, remote) => FiledAlongside(s, w, after, k, state.etag.value, remote);
      }
    }
  }

  /** What a finished read knows: the bytes are right as long as the generation it was
      aimed at, or its ETag, is live. */
  ghost predicate ReadOk(s: Setting, w: World, k: Path, gen: nat, remote: Bytes)
    requires LogOk(w)
  {
    Logged(w, k, gen) && TrueOfGeneration(w, k, gen, remote)
    && (s.statMeta(k, gen).etag.Some? ==> Filed(s, w, k, s.statMeta(k, gen).etag.value, remote))
  }

  lemma ReadOkAlongside(s: Setting, a: World, b: World, k: Path, gen: nat, remote: Bytes)
    requires LogOk(a) && b.log == a.log && b.live == a.live && ReadOk(s, a, k, gen, remote)
    ensures LogOk(b) && ReadOk(s, b, k, gen, remote)
  {
    if s.statMeta(k, gen).etag.Some? {
      FiledAlongside(s, a, b, k, s.statMeta(k, gen).etag.value, remote);
    }
  }

  lemma MergedPutOk(s: Setting, w: World, k: Path, attempt: nat, local: Bytes, base: Bytes, gen: nat, remote: Bytes, bytes: Bytes)
    requires LogOk(w) && ManifestOk(s, w) && ReadOk(s, w, k, gen, remote)
    requires DecidesToUpload(s, base, local, remote, bytes)
    ensures OwnOk(s, PutWhenTagged(w, k, attempt, s.statMeta(k, gen), bytes, Merged(base, local, remote)))
  {
    PutWhenTaggedOk(s, w, k, attempt, s.statMeta(k, gen), bytes, Merged(base, local, remote));
  }

  lemma AfterReadOk(s: Setting, w: World, k: Path, attempt: nat, local: Bytes, why: Purpose, gen: nat, remote: Bytes)
    requires Honest(s) && LogOk(w) && ManifestOk(s, w) && ReadOk(s, w, k, gen, remote)
    ensures OwnOk(s, AfterRead(s, w, k, attempt, local, why, gen, remote))
  {
    FinishOk(s, w, Conflict);
    match why
    case ForAdopt => ManifestStays(s, w, AfterRead(s, w, k, attempt, local, why, gen, remote));
    case ForMerge(base) =>
      if s.utf8(base) && s.utf8(local) && s.utf8(remote) {
        hide OwnOk;
        AfterMergeOk(s, w, k, attempt, local, base, gen, remote);
      }
  }

  lemma AfterMergeOk(s: Setting, w: World, k: Path, attempt: nat, local: Bytes, base: Bytes, gen: nat, remote: Bytes)
    requires Honest(s) && LogOk(w) && ManifestOk(s, w) && ReadOk(s, w, k, gen, remote)
    requires s.utf8(base) && s.utf8(local) && s.utf8(remote)
    ensures OwnOk(s, AfterRead(s, w, k, attempt, local, ForMerge(base), gen, remote))
  {
    FinishOk(s, w, Conflict);
    assert Describes(s, s.statMeta(k, gen), k, gen);
    hide PutWhenTagged, Issued, Filed, ReadOk, OwnOk, Describes, TextMerge.Decide;
    match TextMerge.Decide(s.diffy, base, local, remote) {
      case UploadLocal => MergedPutOk(s, w, k, attempt, local, base, gen, remote, local);
      case UploadMerged(m) =>
        var w1 := w.(local := w.local[k := m]);
        ManifestStays(s, w, w1);
        ReadOkAlongside(s, w, w1, k, gen, remote);
        MergedPutOk(s, w1, k, attempt, local, base, gen, remote, m);
      case AcceptRemote(r) =>
        var w1 := w.(local := w.local[k := r]);
        ManifestStays(s, w, w1);
        RecordOk(s, w1, k, gen, s.statMeta(k, gen), r, remote);
      case AlreadySynced => RecordOk(s, w, k, gen, s.statMeta(k, gen), local, remote);
      case Conflict =>
    }
  }

  /** A cached answer for the generation just statted is a good read. */
  lemma CacheHitReadOk(s: Setting, w: World, k: Path, bytes: Bytes)
    requires Honest(s) && LogOk(w) && CachesOk(s, w) && k in w.live
    requires CacheHit(s, w, k, s.statMeta(k, w.live[k]).etag) == Some(bytes)
    ensures ReadOk(s, w, k, w.live[k], bytes)
  {
    var etag := s.statMeta(k, w.live[k]).etag;
    assert Describes(s, s.statMeta(k, w.live[k]), k, w.live[k]);
    assert (k, etag.value) in w.cache;
    assert (k, etag.value).0 == k && (k, etag.value).1 == etag.value;
  }

  lemma StartReadOk(s: Setting, w: World, k: Path, attempt: nat, local: Bytes, why: Purpose)
    requires Honest(s) && LogOk(w) && CachesOk(s, w) && ManifestOk(s, w) && k in w.live
    ensures OwnOk(s, StartRead(s, w, k, attempt, local, why, w.live[k]))
  {
    hide CachesOk, ReadOk, AfterRead, Describes;
    match CacheHit(s, w, k, s.statMeta(k, w.live[k]).etag)
    case Some(bytes) =>
      CacheHitReadOk(s, w, k, bytes);
      AfterReadOk(s, w, k, attempt, local, why, w.live[k], bytes);
    case None => ManifestStays(s, w, StartRead(s, w, k, attempt, local, why, w.live[k]));
  }

  lemma RemoteGoneOk(s: Setting, w: World, k: Path, local: Bytes)
    requires LogOk(w) && ManifestOk(s, w)
    ensures OwnOk(s, RemoteGone(w, k, local))
  {
    ManifestStays(s, w, RemoteGone(w, k, local));
  }

  lemma AfterStatOk(s: Setting, w: World, k: Path, attempt: nat, local: Bytes, entry: Option<ObjectState>, held: Bytes)
    requires Honest(s) && LogOk(w) && CachesOk(s, w) && ManifestOk(s, w)
    requires entry.Some? ==> EntryOk(s, w, k, entry.value)
    ensures OwnOk(s, AfterStat(s, w, k, attempt, local, entry, held))
  {
    hide CachesOk, StartRead, PutWhenTagged, RemoteGone;
    match entry
    case Some(m) =>
      if k !in w.live {
        RemoteGoneOk(s, w, k, local);
      } else if !SameGeneration(m, s.statMeta(k, w.live[k])) {
        StartReadOk(s, w, k, attempt, local, ForMerge(BaseOrEmpty(w, k)));
      } else {
        PutWhenTaggedOk(s, w, k, attempt, m, local, Recorded(m, held));
      }
    case None =>
      if k in w.live {
        StartReadOk(s, w, k, attempt, local, ForAdopt);
      } else {
        ManifestStays(s, w, AfterStat(s, w, k, attempt, local, entry, held));
      }
  }

  lemma StepReadOk(s: Setting, w: World, k: Path, attempt: nat, local: Bytes, why: Purpose, gen: nat)
    requires Honest(s) && LogOk(w) && CachesOk(s, w) && ManifestOk(s, w) && Logged(w, k, gen)
    ensures var after := StepRead(s, w, k, attempt, local, why, gen);
            CachesOk(s, after) && OwnOk(s, after) && after.uploads == w.uploads
  {
    FinishOk(s, w, Failed);
    CachesStay(s, w, Finish(w, Failed));
    if k in w.live {
      var bytes := LiveBytes(w, k);
      var etag := s.statMeta(k, gen).etag;
      var filed := FileRead(s, w, k, etag, bytes);
      assert Describes(s, s.statMeta(k, gen), k, gen);
      if etag.Some? {
        FreshReadFiled(s, w, k, etag.value);
        CachePutOk(s, w, k, etag.value, bytes);
      }
      ManifestStays(s, w, filed);
      ReadOkAlongside(s, w, filed, k, gen, bytes);
      hide CachesOk, CachePut, AfterRead;
      AfterReadOk(s, filed, k, attempt, local, why, gen, bytes);
      CachesStay(s, filed, AfterRead(s, filed, k, attempt, local, why, gen, bytes));
    }
  }

  /** An accepted conditional write is justified. */
  lemma AcceptedIsJustified(s: Setting, w: World, k: Path, condition: Condition, bytes: Bytes, reason: Reason)
    requires Honest(s) && LogOk(w) && PutOk(s, w, k, condition, bytes, reason) && Admits(s, w, k, condition)
    ensures var after := PutAccepted(s, w, k, bytes, reason);
            after.uploads == w.uploads + [Upload(k, |w.log|, Lookup(w.live, k), reason)]
            && Justified(s, after, Upload(k, |w.log|, Lookup(w.live, k), reason))
  {
  }

  lemma AcceptedCaches(s: Setting, w: World, k: Path, bytes: Bytes, reason: Reason)
    requires Honest(s) && LogOk(w) && CachesOk(s, w)
    ensures var after := PutAccepted(s, w, k, bytes, reason);
            LogOk(after) && CachesOk(s, after) && EntryOk(s, after, k, s.putMeta(k, |w.log|))
  {
    var after := PutAccepted(s, w, k, bytes, reason);
    assert Describes(s, s.putMeta(k, |w.log|), k, |w.log|);
    assert Logged(after, k, |w.log|);
    var etag := s.putMeta(k, |w.log|).etag;
    if etag.Some? {
      assert Filed(s, after, k, etag.value, bytes);
    }
    hide CachesOk, Filed, Issued;
    CachesStay(s, w, after);
  }

  lemma StepPutOk(s: Setting, w: World, k: Path, attempt: nat, condition: Condition, bytes: Bytes, reason: Reason)
    requires Honest(s) && Inv(s, w) && PutOk(s, w, k, condition, bytes, reason)
    ensures Inv(s, StepPut(s, w, k, attempt, condition, bytes, reason))
  {
    hide CachesOk, EntryOk;
    var after := StepPut(s, w, k, attempt, condition, bytes, reason);
    if Admits(s, w, k, condition) {
      AcceptedIsJustified(s, w, k, condition, bytes, reason);
      AcceptedCaches(s, w, k, bytes, reason);
      ManifestStays(s, w, after);
      UploadsStay(s, w, after);
    } else {
      StartAttemptOk(s, w, k, attempt + 1);
      FinishOk(s, w, PreconditionFailed);
      CachesStay(s, w, after);
      UploadsStay(s, w, after);
    }
  }

  lemma RestOfInv(s: Setting, a: World, b: World)
    requires Honest(s) && Inv(s, a) && SameOutside(a, b) && LogOk(b) && OwnOk(s, b)
    ensures Inv(s, b)
  {
    CachesStay(s, a, b);
    UploadsStay(s, a, b);
  }

  lemma StepRestatOk(s: Setting, w: World, k: Path, local: Bytes)
    requires Honest(s) && LogOk(w) && ManifestOk(s, w)
    ensures OwnOk(s, StepRestat(s, w, k, local))
  {
    FinishOk(s, w, Failed);
    if k in w.live {
      RecordOk(s, w, k, w.live[k], s.statMeta(k, w.live[k]), local, local);
    }
  }

  lemma StepDeletesOk(s: Setting, w: World, k: Path, recorded: ObjectState)
    requires Honest(s) && Inv(s, w)
    ensures OwnOk(s, StepDeleteStat(s, w, k, recorded))
    ensures Inv(s, StepDelete(w, k))
  {
    FinishOk(s, w, Conflict);
    ManifestStays(s, w, w.(phase := AtDelete(k)));
    CachesStay(s, w, StepDelete(w, k));
    ManifestStays(s, w, StepDelete(w, k));
    UploadsStay(s, w, StepDelete(w, k));
  }

  lemma {:induction false} StepKeepsInv(s: Setting, w: World)
    requires Honest(s) && Inv(s, w)
    ensures Inv(s, Step(s, w))
  {
    hide CachesOk, OwnOk, ManifestOk, UploadsOk, AfterStat, StepRead, StepPut, StepRestat, StepDeleteStat, StepDelete;
    StepMoves(s, w);
    MovesKeepsLog(w, Step(s, w));
    match w.phase
    case Ready(_) =>
    case AtStat(k, attempt, local, entry, held) =>
      AfterStatOk(s, w, k, attempt, local, entry, held);
      RestOfInv(s, w, Step(s, w));
    case AtRead(k, attempt, local, why, gen) =>
      StepReadOk(s, w, k, attempt, local, why, gen);
      UploadsStay(s, w, Step(s, w)) by { assert UploadsOk(s, w); }
      assert OwnOk(s, Step(s, w));
      OwnIsBoth(s, Step(s, w));
    case AtRestat(k, local, gen) =>
      StepRestatOk(s, w, k, local);
      RestOfInv(s, w, Step(s, w));
    case AtPut(k, attempt, condition, bytes, reason) => StepPutOk(s, w, k, attempt, condition, bytes, reason);
    case AtDeleteStat(k, recorded) =>
      StepDeletesOk(s, w, k, recorded);
      RestOfInv(s, w, Step(s, w));
    case AtDelete(k) => StepDeletesOk(s, w, k, ObjectState(None, None, None, 0));
  }

  lemma OwnIsBoth(s: Setting, w: World)
    requires LogOk(w) && OwnOk(s, w)
    ensures ManifestOk(s, w) && PhaseOk(s, w)
  {
  }

  lemma {:induction false} TakeKeepsInv(s: Setting, w: World, l: Label)
    requires Honest(s) && Inv(s, w)
    ensures LogOk(Take(s, w, l)) && Inv(s, Take(s, w, l))
  {
    TakeMoves(s, w, l);
    hide Step, Occur, StartSync;
    match l
    case Happen(e) => OccurKeepsInv(s, w, e);
    case Begin(k) => if w.phase.Ready? { StartSyncOk(s, w, k); RestOfInv(s, w, StartSync(w, k)); }
    case Advance => StepKeepsInv(s, w);
  }

  // ---------------------------------------------------------------- whole runs

  lemma {:induction false} RunKeepsInv(s: Setting, w: World, run: seq<Label>)
    requires Honest(s) && Inv(s, w)
    ensures Inv(s, Run(s, w, run))
    decreases |run|
  {
    if run != [] {
      RunKeepsInv(s, w, run[..|run| - 1]);
      TakeKeepsInv(s, Run(s, w, run[..|run| - 1]), run[|run| - 1]);
    }
  }

  /** In every run from a fresh session, in every interleaving with other clients, every
      upload that succeeded is justified; and one that relied on a recorded generation relied
      on an entry that had stood in the manifest, with the bytes in hand then. */
  lemma {:induction false} NoLostUpdate(s: Setting, w: World, run: seq<Label>)
    requires Honest(s) && Fresh(w)
    ensures forall u | u in Run(s, w, run).uploads ::
              && Justified(s, Run(s, w, run), u)
              && (u.reason.Recorded? ==> S3History.WasRecorded(s, w, run, u.path, u.reason.entry, u.reason.held))
  {
    RunKeepsInv(s, w, run);
    hide S3History.WasRecorded, Justified, Run;
    forall u | u in Run(s, w, run).uploads && u.reason.Recorded?
      ensures S3History.WasRecorded(s, w, run, u.path, u.reason.entry, u.reason.held)
    {
      S3History.UploadWasRecorded(s, w, run, u);
    }
  }

  /** A refresh reads the true bytes of every listed object that is still live. */
  lemma {:induction false} ListedReadIsTrue(s: Setting, w: World, run: seq<Label>, k: Path, gen: nat)
    requires Honest(s) && Fresh(w) && Lookup(Run(s, w, run).live, k) == Some(gen)
    ensures var now := Run(s, w, run);
            S3Refresh.ReadBytes(s, now, k, s.listMeta(k, gen).etag) == Some(LiveBytes(now, k))
  {
    RunKeepsInv(s, w, run);
    var now, etag := Run(s, w, run), s.listMeta(k, gen).etag;
    assert Describes(s, s.listMeta(k, gen), k, gen);
    if etag.Some? && (k, etag.value) in now.cache {
      assert Filed(s, now, (k, etag.value).0, (k, etag.value).1, now.cache[(k, etag.value)]);
    }
  }

  /** In every reachable state a cache entry filed under the ETag now live on the remote
      holds exactly that object's bytes, although a read may file newer bytes than its ETag. */
  lemma {:induction false} LiveCacheIsSound(s: Setting, w: World, run: seq<Label>, k: Path, etag: string)
    requires Honest(s) && Fresh(w)
    requires var now := Run(s, w, run); (k, etag) in now.cache && LiveEtag(s, now, k) == Some(etag)
    ensures var now := Run(s, w, run); now.cache[(k, etag)] == LiveBytes(now, k)
  {
    RunKeepsInv(s, w, run);
    var now := Run(s, w, run);
    assert Filed(s, now, (k, etag).0, (k, etag).1, now.cache[(k, etag)]);
  }
}
