/** Which generation may an upload silently replace? The manifest entry licenses a
    conditional write over its generation without a merge. This is safe when the session
    had that generation's bytes in hand as it recorded the entry. Every path but one
    guarantees it; the exception is adopting equal content (session.rs:363-369), where the
    second stat may describe a generation written after the bytes were read. */
module S3Trust {
  import opened Common
  import opened S3World
  import opened S3Steps
  import opened S3Safety
  import S3Refresh
  import TextMerge

  /** While the entry's generation is live, `held` are its bytes. */
  predicate Trusted(s: Setting, w: World, k: Path, entry: ObjectState, held: Bytes)
    requires LogOk(w)
  {
    entry.etag.Some? ==> TrueIfLive(s, w, k, entry.etag.value, held)
  }

  ghost predicate ManifestTrusted(s: Setting, w: World)
    requires LogOk(w)
  {
    forall k | k in w.manifest :: Trusted(s, w, k, w.manifest[k], HeldOrEmpty(w, k))
  }

  predicate PhaseTrusted(s: Setting, w: World)
    requires LogOk(w)
  {
    match w.phase
    case AtStat(k, _, _, entry, held) => entry.Some? ==> Trusted(s, w, k, entry.value, held)
    case AtPut(k, _, _, _, reason) => reason.Recorded? ==> Trusted(s, w, k, reason.entry, reason.held)
    case _ => true
  }

  /** The upload replaced bytes the session had in hand. */
  predicate NotBlind(w: World, u: Upload) {
    u.reason.Recorded? ==> u.over.Some? && u.over.value < |w.log| && u.reason.held == w.log[u.over.value].bytes
  }

  ghost predicate UploadsNotBlind(w: World) {
    forall u | u in w.uploads :: NotBlind(w, u)
  }

  ghost predicate Trust(s: Setting, w: World)
    requires LogOk(w)
  {
    ManifestTrusted(s, w) && PhaseTrusted(s, w) && UploadsNotBlind(w)
  }

  /** The race: the object changed hands between the read that found equal content and the
      second stat. */
  predicate Raced(w: World) {
    w.phase.AtRestat? && w.phase.path in w.live && w.live[w.phase.path] != w.phase.gen
  }

  /** A race that matters: the new generation has other bytes than those adopted. */
  predicate RacedAway(w: World)
    requires LogOk(w)
  {
    Raced(w) && LiveBytes(w, w.phase.path) != w.phase.local
  }

  /** A caller can see a race: the two stats report different ETags. */
  lemma {:induction false} RaceShowsInEtags(s: Setting, w: World)
    requires Honest(s) && w.phase.AtRestat? && w.phase.path in w.live
    requires s.etagOf(w.phase.path, w.phase.gen).Some? || s.etagOf(w.phase.path, w.live[w.phase.path]).Some?
    ensures Raced(w)
            <==> s.statMeta(w.phase.path, w.phase.gen).etag != s.statMeta(w.phase.path, w.live[w.phase.path]).etag
  {
    var k, m, n := w.phase.path, w.phase.gen, w.live[w.phase.path];
    assert Describes(s, s.statMeta(k, m), k, m) && Describes(s, s.statMeta(k, n), k, n);
    if m != n {
      assert s.etagOf(k, m) != s.etagOf(k, n) || (s.etagOf(k, m).None? && s.etagOf(k, n).None?);
    }
  }

  // ---------------------------------------------------------------- preservation

  lemma TrustedStays(s: Setting, a: World, b: World, k: Path, entry: ObjectState, held: Bytes)
    requires Honest(s) && LogOk(a) && LogOk(b) && Moves(a, b) && EntryOk(s, a, k, entry) && Trusted(s, a, k, entry, held)
    ensures Trusted(s, b, k, entry, held)
  {
    if entry.etag.Some? {
      FiledStays(s, a, b, k, entry.etag.value, held);
    }
  }

  lemma TrustedAlongside(s: Setting, a: World, b: World, k: Path, entry: ObjectState, held: Bytes)
    requires LogOk(a) && b.log == a.log && b.live == a.live && Trusted(s, a, k, entry, held)
    ensures LogOk(b) && Trusted(s, b, k, entry, held)
  {
  }

  lemma ManifestTrustStays(s: Setting, a: World, b: World)
    requires Honest(s) && LogOk(a) && LogOk(b) && Moves(a, b) && ManifestOk(s, a) && ManifestTrusted(s, a)
    requires forall k | k in b.manifest ::
               (Lookup(b.manifest, k) == Lookup(a.manifest, k) && HeldOrEmpty(b, k) == HeldOrEmpty(a, k))
               || Trusted(s, b, k, b.manifest[k], HeldOrEmpty(b, k))
    ensures ManifestTrusted(s, b)
  {
    hide Trusted;
    forall k | k in b.manifest ensures Trusted(s, b, k, b.manifest[k], HeldOrEmpty(b, k)) {
      if Lookup(b.manifest, k) == Lookup(a.manifest, k) && HeldOrEmpty(b, k) == HeldOrEmpty(a, k) {
        TrustedStays(s, a, b, k, a.manifest[k], HeldOrEmpty(a, k));
      }
    }
  }

  /** The usual case: the records themselves did not change. */
  lemma SameRecords(s: Setting, a: World, b: World)
    requires Honest(s) && LogOk(a) && LogOk(b) && Moves(a, b) && ManifestOk(s, a) && ManifestTrusted(s, a)
    requires b.manifest == a.manifest && b.held == a.held
    ensures ManifestTrusted(s, b)
  {
    hide Moves, Trusted;
    ManifestTrustStays(s, a, b);
  }

  lemma ForgetTrust(s: Setting, a: World, b: World, k: Path)
    requires Honest(s) && LogOk(a) && LogOk(b) && Moves(a, b) && ManifestOk(s, a) && ManifestTrusted(s, a)
    requires b.manifest == a.manifest - {k} && b.held == a.held - {k}
    ensures ManifestTrusted(s, b)
  {
    hide Moves, Trusted;
    ManifestTrustStays(s, a, b);
  }

  lemma PhaseTrustStays(s: Setting, a: World, b: World)
    requires Honest(s) && Inv(s, a) && LogOk(b) && Moves(a, b) && PhaseTrusted(s, a) && b.phase == a.phase
    ensures PhaseTrusted(s, b)
  {
    hide Moves, CachesOk, ManifestOk, UploadsOk, Trusted;
    match a.phase
    case AtStat(k, _, _, entry, held) => if entry.Some? { TrustedStays(s, a, b, k, entry.value, held); }
    case AtPut(k, _, condition, _, reason) =>
      if reason.Recorded? {
        assert EntryOk(s, a, k, reason.entry);
        TrustedStays(s, a, b, k, reason.entry, reason.held);
      }
    case _ =>
  }

  lemma UploadsTrustStays(a: World, b: World)
    requires a.log <= b.log && UploadsNotBlind(a)
    requires forall u | u in b.uploads :: u in a.uploads || NotBlind(b, u)
    ensures UploadsNotBlind(b)
  {
    forall u | u in b.uploads ensures NotBlind(b, u) {
      if u in a.uploads {
        assert NotBlind(a, u);
      }
    }
  }

  /** What a refresh may record about a key: the listed generation, with the bytes it read. */
  lemma ViewAfterHeld(s: Setting, w: World, listing: map<Path, nat>, order: seq<Path>, k: Path)
    requires LogOk(w)
    ensures var view := S3Refresh.ViewAfter(s, w, listing, order, ViewOf(w, k), k);
            (view.entry == Lookup(w.manifest, k) && view.held == Lookup(w.held, k)) || view.entry.None?
            || (k in listing && view.entry == Some(s.listMeta(k, listing[k])) && view.held.Some?
                && view.held == S3Refresh.ReadBytes(s, w, k, s.listMeta(k, listing[k]).etag))
  {
  }

  lemma RefreshReadTrusted(s: Setting, w: World, listing: map<Path, nat>, k: Path, held: Bytes)
    requires Honest(s) && LogOk(w) && CachesOk(s, w) && k in listing && Logged(w, k, listing[k])
    requires S3Refresh.ReadBytes(s, w, k, s.listMeta(k, listing[k]).etag) == Some(held)
    ensures Trusted(s, w, k, s.listMeta(k, listing[k]), held)
  {
    var etag := s.listMeta(k, listing[k]).etag;
    if CacheHit(s, w, k, etag).Some? {
      assert (k, etag.value) in w.cache;
      assert Filed(s, w, (k, etag.value).0, (k, etag.value).1, w.cache[(k, etag.value)]);
    }
  }

  lemma RefreshTrustAt(s: Setting, w: World, listing: map<Path, nat>, order: seq<Path>, after: World, k: Path)
    requires Honest(s) && LogOk(w) && CachesOk(s, w) && k in after.manifest
    requires k in listing ==> Logged(w, k, listing[k])
    requires after.log == w.log && after.live == w.live
    requires ViewOf(after, k) == S3Refresh.ViewAfter(s, w, listing, order, ViewOf(w, k), k)
    ensures LogOk(after)
    ensures (Lookup(after.manifest, k) == Lookup(w.manifest, k) && HeldOrEmpty(after, k) == HeldOrEmpty(w, k))
            || Trusted(s, after, k, after.manifest[k], HeldOrEmpty(after, k))
  {
    hide S3Refresh.ViewAfter, S3Refresh.ReadBytes, CachesOk;
    ViewAfterHeld(s, w, listing, order, k);
    var view := ViewOf(after, k);
    assert view.entry == Some(after.manifest[k]) && view.held == Lookup(after.held, k);
    if !(view.entry == Lookup(w.manifest, k) && view.held == Lookup(w.held, k)) {
      RefreshReadTrusted(s, w, listing, k, view.held.value);
    }
  }

  lemma RefreshTrust(s: Setting, w: World, listing: map<Path, nat>, order: seq<Path>, index: set<Path>)
    requires Honest(s) && Inv(s, w) && ManifestTrusted(s, w) && S3Refresh.Visits(order, S3Refresh.Changes(s, w, listing))
    requires forall k | k in listing :: Logged(w, k, listing[k])
    ensures var after := S3Refresh.Refresh(s, w, listing, order, index, S3Refresh.ApplySafe).0;
            LogOk(after) && ManifestTrusted(s, after)
  {
    var (after, result) := S3Refresh.Refresh(s, w, listing, order, index, S3Refresh.ApplySafe);
    S3Refresh.AppliedWorld(s, w, listing, order, index, S3Refresh.ApplySafe);
    assert Moves(w, after);
    hide S3Refresh.Refresh, S3Refresh.ViewAfter, S3Refresh.Changes, CachesOk, PhaseOk, UploadsOk, Trusted;
    hide ManifestOk, ManifestTrusted, Moves, Honest;
    if !result.Applied? {
      SameRecords(s, w, after);
    } else {
      forall k | k in after.manifest
        ensures (Lookup(after.manifest, k) == Lookup(w.manifest, k) && HeldOrEmpty(after, k) == HeldOrEmpty(w, k))
                || Trusted(s, after, k, after.manifest[k], HeldOrEmpty(after, k))
      {
        S3Refresh.RefreshKeywise(s, w, listing, order, index, S3Refresh.ApplySafe, k);
        RefreshTrustAt(s, w, listing, order, after, k);
      }
      ManifestTrustStays(s, w, after);
    }
  }

  lemma OccurKeepsTrust(s: Setting, w: World, e: Event)
    requires Honest(s) && Inv(s, w) && Trust(s, w)
    ensures LogOk(Occur(s, w, e)) && Trust(s, Occur(s, w, e))
  {
    var after := Occur(s, w, e);
    OccurMoves(s, w, e);
    MovesKeepsLog(w, after);
    OccurFrame(s, w, e);
    OccurKeepsRecordsTrusted(s, w, e);
    hide *;
    OccurKeepsRest(s, w, after);
  }

  lemma OccurKeepsRest(s: Setting, a: World, b: World)
    requires Honest(s) && Inv(s, a) && Trust(s, a) && LogOk(b) && Moves(a, b) && ManifestTrusted(s, b)
    requires b.phase == a.phase && b.uploads == a.uploads
    ensures Trust(s, b)
  {
    PhaseTrustStays(s, a, b);
    UploadsTrustStays(a, b);
  }

  lemma OccurKeepsRecordsTrusted(s: Setting, w: World, e: Event)
    requires Honest(s) && Inv(s, w) && Trust(s, w)
    ensures LogOk(Occur(s, w, e)) && ManifestTrusted(s, Occur(s, w, e))
  {
    var after := Occur(s, w, e);
    OccurMoves(s, w, e);
    MovesKeepsLog(w, after);
    hide CachesOk, PhaseOk, UploadsOk, PhaseTrusted, UploadsNotBlind, S3Refresh.Changes, S3Refresh.Visits;
    hide ManifestTrusted, ManifestOk, Moves, LogOk, Honest, Occur;
    if e.PollApply? && w.listing.Some? && S3Refresh.Visits(e.order, S3Refresh.Changes(s, w, w.listing.value)) {
      PollKeepsTrust(s, w, e.order, e.index);
    } else {
      OthersLeaveRecords(s, w, e);
      SameRecords(s, w, after);
    }
  }

  lemma PollKeepsTrust(s: Setting, w: World, order: seq<Path>, index: set<Path>)
    requires Honest(s) && Inv(s, w) && Trust(s, w)
    requires w.listing.Some? && S3Refresh.Visits(order, S3Refresh.Changes(s, w, w.listing.value))
    ensures var after := Occur(s, w, PollApply(order, index)); LogOk(after) && ManifestTrusted(s, after)
  {
    var refreshed := S3Refresh.Refresh(s, w, w.listing.value, order, index, S3Refresh.ApplySafe).0;
    ListingLogged(s, w);
    RefreshTrust(s, w, w.listing.value, order, index);
    RefreshManifest(s, w, w.listing.value, order, index);
    hide S3Refresh.Refresh, S3Refresh.Changes, CachesOk, PhaseOk, UploadsOk, Trust, Trusted;
    SameRecords(s, refreshed, refreshed.(listing := None));
  }

  lemma RecordTrust(s: Setting, w: World, k: Path, state: ObjectState, base: Bytes, held: Bytes)
    requires Honest(s) && LogOk(w) && ManifestOk(s, w) && ManifestTrusted(s, w) && Trusted(s, w, k, state, held)
    ensures var after := Finish(Record(w, k, state, base, held), Synced); ManifestTrusted(s, after) && PhaseTrusted(s, after)
  {
    ManifestTrustStays(s, w, Finish(Record(w, k, state, base, held), Synced));
  }

  lemma AttemptTrust(s: Setting, w: World, k: Path, attempt: nat)
    requires Honest(s) && LogOk(w) && ManifestOk(s, w) && ManifestTrusted(s, w)
    ensures var after := StartAttempt(w, k, attempt); ManifestTrusted(s, after) && PhaseTrusted(s, after)
  {
    ManifestTrustStays(s, w, StartAttempt(w, k, attempt));
  }

  lemma PutWhenTaggedTrust(s: Setting, w: World, k: Path, attempt: nat, state: ObjectState, bytes: Bytes, reason: Reason)
    requires Honest(s) && LogOk(w) && ManifestOk(s, w) && ManifestTrusted(s, w)
    requires reason.Recorded? ==> Trusted(s, w, k, reason.entry, reason.held)
    ensures var after := PutWhenTagged(w, k, attempt, state, bytes, reason); ManifestTrusted(s, after) && PhaseTrusted(s, after)
  {
    var after := PutWhenTagged(w, k, attempt, state, bytes, reason);
    SameRecords(s, w, after);
    if reason.Recorded? {
      TrustedAlongside(s, w, after, k, reason.entry, reason.held);
    }
    hide Trusted, ManifestTrusted, ManifestOk;
  }

  lemma AfterReadTrust(s: Setting, w: World, k: Path, attempt: nat, local: Bytes, why: Purpose, gen: nat, remote: Bytes)
    requires Honest(s) && LogOk(w) && ManifestOk(s, w) && ManifestTrusted(s, w) && ReadOk(s, w, k, gen, remote)
    ensures var after := AfterRead(s, w, k, attempt, local, why, gen, remote); ManifestTrusted(s, after) && PhaseTrusted(s, after)
  {
    var state := s.statMeta(k, gen);
    assert Trusted(s, w, k, state, remote);
    SameRecords(s, w, Finish(w, Conflict));
    SameRecords(s, w, w.(phase := AtRestat(k, local, gen)));
    hide ReadOk, Filed, Trusted, ManifestTrusted, ManifestOk, PutWhenTagged, Record;
    match why
    case ForAdopt =>
    case ForMerge(base) =>
      if s.utf8(base) && s.utf8(local) && s.utf8(remote) {
        match TextMerge.Decide(s.diffy, base, local, remote) {
          case UploadLocal => PutWhenTaggedTrust(s, w, k, attempt, state, local, Merged(base, local, remote));
          case UploadMerged(m) =>
            RewriteTrust(s, w, k, m, state, remote);
            PutWhenTaggedTrust(s, w.(local := w.local[k := m]), k, attempt, state, m, Merged(base, local, remote));
          case AcceptRemote(r) =>
            RewriteTrust(s, w, k, r, state, remote);
            RecordTrust(s, w.(local := w.local[k := r]), k, state, r, remote);
          case AlreadySynced => RecordTrust(s, w, k, state, local, remote);
          case Conflict =>
        }
      }
  }

  lemma RewriteTrust(s: Setting, w: World, k: Path, bytes: Bytes, state: ObjectState, remote: Bytes)
    requires Honest(s) && LogOk(w) && ManifestOk(s, w) && ManifestTrusted(s, w) && Trusted(s, w, k, state, remote)
    ensures var after := w.(local := w.local[k := bytes]);
            LogOk(after) && ManifestOk(s, after) && ManifestTrusted(s, after) && Trusted(s, after, k, state, remote)
  {
    var after := w.(local := w.local[k := bytes]);
    SameRecords(s, w, after);
    ManifestStays(s, w, after);
  }

  lemma StartReadTrust(s: Setting, w: World, k: Path, attempt: nat, local: Bytes, why: Purpose)
    requires Honest(s) && LogOk(w) && CachesOk(s, w) && ManifestOk(s, w) && ManifestTrusted(s, w) && k in w.live
    ensures var after := StartRead(s, w, k, attempt, local, why, w.live[k]); ManifestTrusted(s, after) && PhaseTrusted(s, after)
  {
    hide CachesOk, ReadOk, AfterRead;
    match CacheHit(s, w, k, s.statMeta(k, w.live[k]).etag)
    case Some(bytes) =>
      CacheHitReadOk(s, w, k, bytes);
      AfterReadTrust(s, w, k, attempt, local, why, w.live[k], bytes);
    case None => ManifestTrustStays(s, w, StartRead(s, w, k, attempt, local, why, w.live[k]));
  }

  lemma RemoteGoneTrust(s: Setting, w: World, k: Path, local: Bytes)
    requires Honest(s) && LogOk(w) && ManifestOk(s, w) && ManifestTrusted(s, w)
    ensures var after := RemoteGone(w, k, local); ManifestTrusted(s, after) && PhaseTrusted(s, after)
  {
    SameRecords(s, w, Finish(w, Conflict));
    ForgetTrust(s, w, Finish(Forget(w.(local := w.local - {k}), k), Synced), k);
  }

  lemma AfterStatTrust(s: Setting, w: World, k: Path, attempt: nat, local: Bytes, entry: Option<ObjectState>, held: Bytes)
    requires Honest(s) && LogOk(w) && CachesOk(s, w) && ManifestOk(s, w) && ManifestTrusted(s, w)
    requires entry.Some? ==> Trusted(s, w, k, entry.value, held)
    ensures var after := AfterStat(s, w, k, attempt, local, entry, held); ManifestTrusted(s, after) && PhaseTrusted(s, after)
  {
    hide CachesOk, StartRead, PutWhenTagged, RemoteGone, ManifestTrusted, Trusted;
    match entry
    case Some(m) =>
      if k !in w.live {
        RemoteGoneTrust(s, w, k, local);
      } else if !SameGeneration(m, s.statMeta(k, w.live[k])) {
        StartReadTrust(s, w, k, attempt, local, ForMerge(BaseOrEmpty(w, k)));
      } else {
        PutWhenTaggedTrust(s, w, k, attempt, m, local, Recorded(m, held));
      }
    case None =>
      if k in w.live {
        StartReadTrust(s, w, k, attempt, local, ForAdopt);
      } else {
        SameRecords(s, w, AfterStat(s, w, k, attempt, local, entry, held));
      }
  }

  lemma StepReadTrust(s: Setting, w: World, k: Path, attempt: nat, local: Bytes, why: Purpose, gen: nat)
    requires Honest(s) && LogOk(w) && CachesOk(s, w) && ManifestOk(s, w) && ManifestTrusted(s, w) && Logged(w, k, gen)
    ensures var after := StepRead(s, w, k, attempt, local, why, gen); ManifestTrusted(s, after) && PhaseTrusted(s, after)
  {
    ManifestTrustStays(s, w, Finish(w, Failed));
    if k in w.live {
      var bytes := LiveBytes(w, k);
      var filed := FileRead(s, w, k, s.statMeta(k, gen).etag, bytes);
      assert Describes(s, s.statMeta(k, gen), k, gen);
      if s.statMeta(k, gen).etag.Some? {
        FreshReadFiled(s, w, k, s.statMeta(k, gen).etag.value);
      }
      ReadOkAlongside(s, w, filed, k, gen, bytes);
      ManifestStays(s, w, filed);
      ManifestTrustStays(s, w, filed);
      hide AfterRead, ReadOk;
      AfterReadTrust(s, filed, k, attempt, local, why, gen, bytes);
    }
  }

  lemma AcceptedTrust(s: Setting, w: World, k: Path, bytes: Bytes, reason: Reason)
    requires Honest(s) && LogOk(w) && ManifestOk(s, w) && ManifestTrusted(s, w)
    ensures var after := PutAccepted(s, w, k, bytes, reason);
            LogOk(after) && ManifestTrusted(s, after) && PhaseTrusted(s, after)
  {
    var after := PutAccepted(s, w, k, bytes, reason);
    assert Moves(w, after);
    assert Trusted(s, after, k, s.putMeta(k, |w.log|), bytes);
    hide Trusted, Moves;
    ManifestTrustStays(s, w, after);
  }

  /** The condition of an accepted write names the live generation, so the bytes held for
      its entry are the ones replaced. */
  lemma AcceptedNotBlind(s: Setting, w: World, k: Path, condition: Condition, bytes: Bytes, reason: Reason)
    requires LogOk(w) && PutOk(s, w, k, condition, bytes, reason) && Admits(s, w, k, condition)
    requires reason.Recorded? ==> Trusted(s, w, k, reason.entry, reason.held)
    ensures NotBlind(PutAccepted(s, w, k, bytes, reason), Upload(k, |w.log|, Lookup(w.live, k), reason))
  {
  }

  lemma StepPutTrust(s: Setting, w: World, k: Path, attempt: nat, condition: Condition, bytes: Bytes, reason: Reason)
    requires Honest(s) && Inv(s, w) && Trust(s, w) && w.phase == AtPut(k, attempt, condition, bytes, reason)
    ensures var after := StepPut(s, w, k, attempt, condition, bytes, reason); LogOk(after) && Trust(s, after)
  {
    var after := StepPut(s, w, k, attempt, condition, bytes, reason);
    MovesKeepsLog(w, after);
    if Admits(s, w, k, condition) {
      AcceptedTrust(s, w, k, bytes, reason);
      AcceptedNotBlind(s, w, k, condition, bytes, reason);
      hide CachesOk, ManifestOk, ManifestTrusted, UploadsOk, NotBlind, Trusted, Admits, Moves;
      UploadsTrustStays(w, after);
    } else {
      RetryTrust(s, w, k, attempt);
    }
  }

  lemma RetryTrust(s: Setting, w: World, k: Path, attempt: nat)
    requires Honest(s) && Inv(s, w) && Trust(s, w)
    ensures Trust(s, Finish(w, PreconditionFailed)) && Trust(s, StartAttempt(w, k, attempt + 1))
  {
    AttemptTrust(s, w, k, attempt + 1);
    SameRecords(s, w, Finish(w, PreconditionFailed));
    hide CachesOk, ManifestOk, ManifestTrusted, UploadsOk, NotBlind, Trusted;
    UploadsTrustStays(w, StartAttempt(w, k, attempt + 1));
    UploadsTrustStays(w, Finish(w, PreconditionFailed));
  }

  lemma StepRestatTrust(s: Setting, w: World, k: Path, local: Bytes, gen: nat)
    requires Honest(s) && Inv(s, w) && Trust(s, w) && w.phase == AtRestat(k, local, gen) && !RacedAway(w)
    ensures var after := StepRestat(s, w, k, local); ManifestTrusted(s, after) && PhaseTrusted(s, after)
  {
    ManifestTrustStays(s, w, Finish(w, Failed));
    if k in w.live {
      assert Trusted(s, w, k, s.statMeta(k, w.live[k]), local);
      RecordTrust(s, w, k, s.statMeta(k, w.live[k]), local, local);
    }
  }

  lemma StepKeepsTrust(s: Setting, w: World)
    requires Honest(s) && Inv(s, w) && Trust(s, w) && !RacedAway(w)
    ensures LogOk(Step(s, w)) && Trust(s, Step(s, w))
  {
    hide CachesOk, ManifestOk, UploadsOk, ManifestTrusted, UploadsNotBlind, Moves;
    hide AfterStat, StepRead, StepPut, StepRestat, StepDeleteStat, StepDelete, Trusted;
    StepMoves(s, w);
    MovesKeepsLog(w, Step(s, w));
    match w.phase
    case Ready(_) =>
    case AtStat(k, attempt, local, entry, held) => AfterStatTrust(s, w, k, attempt, local, entry, held); SameUploads(s, w);
    case AtRead(k, attempt, local, why, gen) => StepReadTrust(s, w, k, attempt, local, why, gen); SameUploads(s, w);
    case AtRestat(k, local, gen) => StepRestatTrust(s, w, k, local, gen); SameUploads(s, w);
    case AtPut(k, attempt, condition, bytes, reason) => StepPutTrust(s, w, k, attempt, condition, bytes, reason);
    case _ => StepDeletesTrust(s, w); SameUploads(s, w);
  }

  lemma SameUploads(s: Setting, w: World)
    requires LogOk(w) && UploadsNotBlind(w) && !w.phase.AtPut?
    ensures UploadsNotBlind(Step(s, w))
  {
    assert w.log <= Step(s, w).log && Step(s, w).uploads == w.uploads by {
      hide AfterStat, StepRead, StepRestat, StepDeleteStat, StepDelete, StepPut, LogOk, UploadsNotBlind;
      match w.phase
      case AtRead(k, attempt, local, why, gen) => ReadKeepsUploads(s, w, k, attempt, local, why, gen);
      case AtDelete(k) => DeleteKeepsUploads(w, k);
      case _ =>
    }
    hide Step;
    UploadsTrustStays(w, Step(s, w));
  }

  lemma ReadKeepsUploads(s: Setting, w: World, k: Path, attempt: nat, local: Bytes, why: Purpose, gen: nat)
    requires LogOk(w)
    ensures StepRead(s, w, k, attempt, local, why, gen).uploads == w.uploads
  {
    hide AfterRead;
  }

  lemma DeleteKeepsUploads(w: World, k: Path)
    ensures StepDelete(w, k).uploads == w.uploads
  {
  }

  lemma StepDeletesTrust(s: Setting, w: World)
    requires Honest(s) && Inv(s, w) && Trust(s, w) && (w.phase.AtDeleteStat? || w.phase.AtDelete?)
    ensures LogOk(Step(s, w)) && ManifestTrusted(s, Step(s, w)) && PhaseTrusted(s, Step(s, w))
  {
    StepMoves(s, w);
    MovesKeepsLog(w, Step(s, w));
    hide CachesOk, UploadsOk, UploadsNotBlind, ManifestTrusted, ManifestOk, Moves, LogOk, Honest;
    hide AfterStat, StepRead, StepRestat, StepPut;
    if w.phase.AtDelete? {
      DeleteForgets(w, w.phase.path);
      hide StepDelete, StepDeleteStat;
      ForgetTrust(s, w, Step(s, w), w.phase.path);
    } else {
      DeleteStatLeaves(s, w, w.phase.path, w.phase.recorded);
      hide StepDelete, StepDeleteStat;
      SameRecords(s, w, Step(s, w));
    }
  }

  lemma DeleteForgets(w: World, k: Path)
    ensures var after := StepDelete(w, k);
            after.manifest == w.manifest - {k} && after.held == w.held - {k} && after.phase.Ready?
  {
  }

  lemma DeleteStatLeaves(s: Setting, w: World, k: Path, recorded: ObjectState)
    ensures var after := StepDeleteStat(s, w, k, recorded);
            after.manifest == w.manifest && after.held == w.held && (after.phase.Ready? || after.phase.AtDelete?)
  {
  }

  lemma StartKeepsTrust(s: Setting, w: World, k: Path)
    requires Honest(s) && Inv(s, w) && Trust(s, w)
    ensures LogOk(StartSync(w, k)) && Trust(s, StartSync(w, k))
  {
    AttemptTrust(s, w, k, 0);
    hide CachesOk, PhaseOk, UploadsOk, Trusted;
    var after := StartSync(w, k);
    UploadsTrustStays(w, after);
    if k !in w.local {
      SameRecords(s, w, after);
    }
  }

  lemma {:induction false} TakeKeepsTrust(s: Setting, w: World, l: Label)
    requires Honest(s) && Inv(s, w) && Trust(s, w) && (l.Advance? ==> !RacedAway(w))
    ensures LogOk(Take(s, w, l)) && Trust(s, Take(s, w, l))
  {
    match l
    case Happen(e) =>
      hide Occur;
      OccurKeepsTrust(s, w, e);
    case Begin(k) =>
      hide StartSync;
      StartKeepsTrust(s, w, k);
    case Advance =>
      hide Step;
      StepKeepsTrust(s, w);
  }

  // ---------------------------------------------------------------- whole runs

  /** No second stat of an adoption is answered after a race that matters. */
  ghost predicate AdoptsUnraced(s: Setting, w: World, run: seq<Label>)
    requires LogOk(w)
  {
    forall i | 0 <= i < |run| && run[i].Advance? :: !RacedAway(Run(s, w, run[..i]))
  }

  lemma {:induction false} RunKeepsTrust(s: Setting, w: World, run: seq<Label>)
    requires Honest(s) && Inv(s, w) && Trust(s, w) && AdoptsUnraced(s, w, run)
    ensures Inv(s, Run(s, w, run)) && Trust(s, Run(s, w, run))
    decreases |run|
  {
    if run != [] {
      hide Take;
      var front := run[..|run| - 1];
      forall i | 0 <= i < |front| && front[i].Advance? ensures !RacedAway(Run(s, w, front[..i])) {
        assert front[..i] == run[..i];
      }
      RunKeepsTrust(s, w, front);
      RunKeepsInv(s, w, run);
      TakeKeepsTrust(s, Run(s, w, front), run[|run| - 1]);
    }
  }

  /** Unless an adoption is raced, no upload ever replaces a generation the session did not
      have in hand: what a manifest entry licenses is exactly what was read or written. */
  lemma {:induction false} NoBlindOverwrite(s: Setting, w: World, run: seq<Label>)
    requires Honest(s) && Fresh(w) && AdoptsUnraced(s, w, run)
    ensures forall u | u in Run(s, w, run).uploads :: NotBlind(Run(s, w, run), u)
  {
    RunKeepsTrust(s, w, run);
  }

  /** The condition is exact for the invariant: with ETags present, the second stat of an
      adoption leaves the records trustworthy if and only if no race mattered. */
  lemma {:induction false} AdoptionIsSafeExactly(s: Setting, w: World)
    requires Honest(s) && Inv(s, w) && Trust(s, w) && w.phase.AtRestat? && w.phase.path in w.live
    requires s.etagOf(w.phase.path, w.live[w.phase.path]).Some?
    ensures LogOk(Step(s, w))
    ensures Trust(s, Step(s, w)) <==> !RacedAway(w)
  {
    var k, after := w.phase.path, Step(s, w);
    StepMoves(s, w);
    MovesKeepsLog(w, after);
    assert Describes(s, s.statMeta(k, w.live[k]), k, w.live[k]);
    assert after.manifest[k] == s.statMeta(k, w.live[k]) && HeldOrEmpty(after, k) == w.phase.local;
    if LiveBytes(w, k) == w.phase.local {
      RecordTrust(s, w, k, s.statMeta(k, w.live[k]), w.phase.local, w.phase.local);
      SameUploads(s, w);
    } else {
      assert !Trusted(s, after, k, after.manifest[k], HeldOrEmpty(after, k));
    }
  }

  // ---------------------------------------------------------------- from a race to an overwrite

  /** The adoption ends, the user edits the file, and the next sync uploads it. */
  function EditAfterAdoption(k: Path, bytes: Bytes): seq<Label> {
    [Advance, Happen(LocalWrite(k, bytes)), Begin(k), Advance, Advance]
  }

  lemma RunOfFive(s: Setting, w: World, k: Path, bytes: Bytes)
    requires LogOk(w)
    ensures var w1 := Take(s, w, Advance);
            LogOk(w1) &&
            var w2 := Take(s, w1, Happen(LocalWrite(k, bytes)));
            LogOk(w2) &&
            var w3 := Take(s, w2, Begin(k));
            LogOk(w3) &&
            var w4 := Take(s, w3, Advance);
            LogOk(w4) && Run(s, w, EditAfterAdoption(k, bytes)) == Take(s, w4, Advance)
  {
    hide Take, Run, LogOk, Moves;
    var run := EditAfterAdoption(k, bytes);
    RunNothing(s, w);
    RunOne(s, w, [], run[0]);
    RunOne(s, w, [run[0]], run[1]);
    RunOne(s, w, [run[0], run[1]], run[2]);
    RunOne(s, w, [run[0], run[1], run[2]], run[3]);
    RunOne(s, w, [run[0], run[1], run[2], run[3]], run[4]);
    assert [] + [run[0]] == [run[0]] && [run[0]] + [run[1]] == [run[0], run[1]];
    assert [run[0], run[1]] + [run[2]] == [run[0], run[1], run[2]];
    assert [run[0], run[1], run[2]] + [run[3]] == [run[0], run[1], run[2], run[3]];
    assert [run[0], run[1], run[2], run[3]] + [run[4]] == run;
  }

  /** The adoption just recorded, with the user's edit in the file. */
  function AdoptedAndEdited(s: Setting, w: World, k: Path, adopted: Bytes, bytes: Bytes): World
    requires k in w.live
  {
    var recorded := Finish(Record(w, k, s.statMeta(k, w.live[k]), adopted, adopted), Synced);
    recorded.(local := recorded.local[k := bytes])
  }

  lemma AdoptionEnds(s: Setting, w: World, bytes: Bytes)
    requires LogOk(w) && w.phase.AtRestat? && w.phase.path in w.live
    ensures var k := w.phase.path;
            var w1 := Take(s, w, Advance);
            LogOk(w1) && Take(s, w1, Happen(LocalWrite(k, bytes))) == AdoptedAndEdited(s, w, k, w.phase.local, bytes)
  {
    hide AfterStat, StepRead, StepPut, StepDelete, StepDeleteStat;
    assert Take(s, w, Advance) == StepRestat(s, w, w.phase.path, w.phase.local);
  }

  lemma EditIsUploaded(s: Setting, w: World, k: Path, adopted: Bytes, bytes: Bytes)
    requires Honest(s) && LogOk(w) && k in w.live && RequiredEtag(s.statMeta(k, w.live[k])).Some?
    ensures var w2 := AdoptedAndEdited(s, w, k, adopted, bytes);
            LogOk(w2) &&
            var w3 := Take(s, w2, Begin(k));
            LogOk(w3) &&
            var w4 := Take(s, w3, Advance);
            LogOk(w4) && Take(s, w4, Advance).uploads
            == w.uploads + [Upload(k, |w.log|, Some(w.live[k]), Recorded(s.statMeta(k, w.live[k]), adopted))]
  {
    var g := w.live[k];
    var state := s.statMeta(k, g);
    assert Describes(s, state, k, g);
    var w2 := AdoptedAndEdited(s, w, k, adopted, bytes);
    var w3 := w2.(phase := AtStat(k, 0, bytes, Some(state), adopted));
    assert Take(s, w2, Begin(k)) == w3;
    UploadOverEntry(s, w3, k, bytes, state, adopted);
    hide *;
  }

  lemma UploadOverEntry(s: Setting, w: World, k: Path, bytes: Bytes, state: ObjectState, adopted: Bytes)
    requires LogOk(w) && w.phase == AtStat(k, 0, bytes, Some(state), adopted) && k in w.live
    requires state == s.statMeta(k, w.live[k]) && RequiredEtag(state).Some? && state.etag == s.etagOf(k, w.live[k])
    ensures var next := Take(s, w, Advance);
            LogOk(next)
            && Take(s, next, Advance).uploads == w.uploads + [Upload(k, |w.log|, Some(w.live[k]), Recorded(state, adopted))]
  {
    hide StartRead, StepRead, StepRestat, StepDelete, StepDeleteStat, StartAttempt, RemoteGone, Moves;
    var next := w.(phase := AtPut(k, 0, IfMatch(RequiredEtag(state).value), bytes, Recorded(state, adopted)));
    assert Take(s, w, Advance) == next;
    assert Admits(s, next, k, IfMatch(RequiredEtag(state).value));
  }

  /** The property itself, from every reachable adoption with a usable ETag: the next edit is
      uploaded over the adopted generation, and blindly exactly when that generation's bytes
      are not the ones that were read. */
  lemma {:induction false} AdoptionLeadsToBlindUploadExactly(s: Setting, w: World, bytes: Bytes)
    requires Honest(s) && Inv(s, w) && w.phase.AtRestat? && w.phase.path in w.live
    requires RequiredEtag(s.statMeta(w.phase.path, w.live[w.phase.path])).Some?
    ensures var k := w.phase.path;
            var now := Run(s, w, EditAfterAdoption(k, bytes));
            var u := Upload(k, |w.log|, Some(w.live[k]), Recorded(s.statMeta(k, w.live[k]), w.phase.local));
            && now.uploads == w.uploads + [u]
            && (!NotBlind(now, u) <==> RacedAway(w))
  {
    var k := w.phase.path;
    RunOfFive(s, w, k, bytes);
    AdoptionEnds(s, w, bytes);
    EditIsUploaded(s, w, k, w.phase.local, bytes);
    assert w.log <= Run(s, w, EditAfterAdoption(k, bytes)).log by {
      hide Run;
      RunGrowsLog(s, w, EditAfterAdoption(k, bytes));
    }
    hide Run, Take, AdoptedAndEdited, CachesOk, ManifestOk, UploadsOk;
  }

  lemma {:induction false} RunGrowsLog(s: Setting, w: World, run: seq<Label>)
    requires LogOk(w)
    ensures w.log <= Run(s, w, run).log
    decreases |run|
  {
    if run != [] {
      hide Take;
      RunGrowsLog(s, w, run[..|run| - 1]);
      TakeMoves(s, Run(s, w, run[..|run| - 1]), run[|run| - 1]);
    }
  }

  // ---------------------------------------------------------------- the race, concretely

  function Tag(n: nat): (r: string)
    ensures |r| == n + 1 && r[0] == 'g'
  {
    seq(n + 1, _ => 'g')
  }

  function PlainSetting(): Setting {
    var meta := (k: Path, n: nat) => ObjectState(Some(Tag(n)), None, None, 0);
    Setting((k: Path, n: nat) => Some(Tag(n)), (k: Path, n: nat) => "", meta, meta, meta,
            (b: Bytes, l: Bytes, r: Bytes) => TextMerge.Clean(r), (b: Bytes) => true, false)
  }

  lemma PlainIsHonest()
    ensures Honest(PlainSetting())
  {
    var s := PlainSetting();
    forall k, m, n | m != n && s.etagOf(k, m).Some? ensures s.etagOf(k, m) != s.etagOf(k, n) {
      assert |Tag(m)| != |Tag(n)|;
    }
  }

  const KEY: Path := ["notes.txt"]

  /** Our file equals the remote one and is adopted; another client writes between the read
      and the second stat; our next edit is then uploaded straight over that write. */
  function RaceRun(): seq<Label> {
    [Begin(KEY), Advance, Advance, Happen(OtherPut(KEY, [2])), Advance,
     Happen(LocalWrite(KEY, [3])), Begin(KEY), Advance, Advance]
  }

  function RaceStart(): World {
    World([Write(KEY, [1])], map[KEY := 0], map[], {}, {}, None, map[KEY := [1]], map[], map[], Ready(Synced), map[], [])
  }

  function Metadata(n: nat): ObjectState {
    ObjectState(Some(Tag(n)), None, None, 0)
  }

  /** The bucket after the other client's write, with our second stat recorded. */
  function Adopted(): World {
    RaceStart().(log := [Write(KEY, [1]), Write(KEY, [2])], live := map[KEY := 1], base := map[KEY := [1]],
                 manifest := map[KEY := Metadata(1)], held := map[KEY := [1]])
  }

  /** The world before each step of the run. */
  function Scene(i: nat): World {
    match i
    case 0 => RaceStart()
    case 1 => RaceStart().(phase := AtStat(KEY, 0, [1], None, []))
    case 2 => RaceStart().(phase := AtRead(KEY, 0, [1], ForAdopt, 0))
    case 3 => RaceStart().(phase := AtRestat(KEY, [1], 0))
    case 4 => RaceStart().(phase := AtRestat(KEY, [1], 0), log := [Write(KEY, [1]), Write(KEY, [2])], live := map[KEY := 1])
    case 5 => Adopted()
    case 6 => Adopted().(local := map[KEY := [3]])
    case 7 => Adopted().(local := map[KEY := [3]], phase := AtStat(KEY, 0, [3], Some(Metadata(1)), [1]))
    case 8 => Adopted().(local := map[KEY := [3]], phase := AtPut(KEY, 0, IfMatch(Tag(1)), [3], Recorded(Metadata(1), [1])))
    case _ =>
      Adopted().(log := [Write(KEY, [1]), Write(KEY, [2]), Write(KEY, [3])], live := map[KEY := 2], local := map[KEY := [3]],
                 base := map[KEY := [3]], held := map[KEY := [3]], manifest := map[KEY := Metadata(2)],
                 uploads := [Upload(KEY, 2, Some(1), Recorded(Metadata(1), [1]))])
  }

  lemma SceneLog(i: nat)
    ensures LogOk(Scene(i))
  {
    EarlySceneLog(i);
    hide LogOk, Scene;
    if i >= 5 { LateSceneLog(i); }
  }

  lemma EarlySceneLog(i: nat)
    ensures i < 5 ==> LogOk(Scene(i))
  {
  }

  lemma LateSceneLog(i: nat)
    requires i >= 5
    ensures LogOk(Scene(i))
  {
  }

  lemma FirstSteps(i: nat)
    requires i < 5 && LogOk(Scene(i))
    ensures Take(PlainSetting(), Scene(i), RaceRun()[i]) == Scene(i + 1)
  {
    if i == 0 {
    } else if i == 1 {
    } else if i == 2 {
    } else if i == 3 {
      assert Scene(4).log == Scene(3).log + [Write(KEY, [2])];
    } else {
      assert i == 4;
    }
  }

  lemma SecondSync(i: nat)
    requires 5 <= i < 8 && LogOk(Scene(i))
    ensures Take(PlainSetting(), Scene(i), RaceRun()[i]) == Scene(i + 1)
  {
    if i == 7 {
      assert !IsSpace(Tag(1)[0]);
      assert RequiredEtag(Metadata(1)) == Some(Tag(1));
      hide StartRead, StartAttempt, StartSync, Occur;
    } else {
      assert i == 5 || i == 6;
    }
  }

  lemma LastPut()
    requires LogOk(Scene(8))
    ensures Take(PlainSetting(), Scene(8), RaceRun()[8]) == Scene(9)
  {
    hide StartRead, StartAttempt, StartSync, AfterRead, AfterStat, RemoteGone, StepRead, StepDelete, Occur;
    assert Scene(9).log == Scene(8).log + [Write(KEY, [3])];
    assert Admits(PlainSetting(), Scene(8), KEY, IfMatch(Tag(1)));
  }

  lemma {:induction false} Scenes(i: nat)
    requires i <= 9
    ensures LogOk(RaceStart()) && Run(PlainSetting(), RaceStart(), RaceRun()[..i]) == Scene(i)
  {
    hide Scene, Take, LogOk;
    SceneLog(0);
    if i == 0 {
      StartScene();
    } else {
      Scenes(i - 1);
      SceneLog(i - 1);
      if i - 1 < 5 { FirstSteps(i - 1); } else if i - 1 < 8 { SecondSync(i - 1); } else { LastPut(); }
      var run := RaceRun()[..i];
      assert run[..|run| - 1] == RaceRun()[..i - 1];
    }
  }

  lemma StartScene()
    ensures Scene(0) == RaceStart() && LogOk(RaceStart())
  {
  }

  lemma AdoptionRaceLosesUpdate()
    ensures Honest(PlainSetting()) && Fresh(RaceStart())
    ensures var now := Run(PlainSetting(), RaceStart(), RaceRun());
            now == Scene(9) && |now.uploads| == 1 && !NotBlind(now, now.uploads[0])
            && now.log[now.uploads[0].over.value].bytes == [2] && LiveBytes(now, KEY) == [3]
  {
    PlainIsHonest();
    StartScene();
    Scenes(9);
    assert RaceRun()[..9] == RaceRun();
  }
}
