/** What one sync achieves when nobody else touches its path, and how long any sync takes. */
module S3Agreement {
  import opened Common
  import opened S3World
  import opened S3Steps
  import opened S3Safety
  import S3Refresh
  import TextMerge

  /** Local file, base, manifest and remote agree about `k`, or none of them knows it. */
  predicate Agree(s: Setting, w: World, k: Path)
    requires LogOk(w)
  {
    if k in w.live then
      k in w.local && k in w.base && k in w.manifest
      && w.local[k] == w.base[k] == LiveBytes(w, k)
      && Describes(s, w.manifest[k], k, w.live[k])
    else k !in w.local && k !in w.base && k !in w.manifest
  }

  /** Anything may happen except to `k` itself; polls run with `k` protected, as the sync
      engine guarantees for a path being synced. */
  predicate Calm(e: Event, k: Path) {
    match e
    case OtherPut(q, _) => q != k
    case OtherDelete(q) => q != k
    case LocalWrite(q, _) => q != k
    case LocalRemove(q) => q != k
    case PollApply(_, index) => Covered(index, k)
    case _ => true
  }

  predicate CalmLabel(l: Label, k: Path) {
    l.Advance? || (l.Happen? && Calm(l.event, k))
  }

  /** The sync's picture of `k` is still accurate. */
  predicate Accurate(s: Setting, w: World, k: Path)
    requires LogOk(w)
  {
    match w.phase
    case Ready(o) => if o == Synced then Agree(s, w, k) else o in {Conflict, NoEtag}
    case AtStat(q, _, local, entry, _) => q == k && Lookup(w.local, k) == Some(local) && entry == Lookup(w.manifest, k)
    case AtRead(q, _, local, why, gen) =>
      q == k && Lookup(w.local, k) == Some(local) && Lookup(w.live, k) == Some(gen)
    case AtRestat(q, local, gen) =>
      q == k && Lookup(w.local, k) == Some(local) && Lookup(w.live, k) == Some(gen) && LiveBytes(w, k) == local
    case AtPut(q, _, condition, bytes, _) => q == k && Lookup(w.local, k) == Some(bytes) && Admits(s, w, k, condition)
    case _ => false
  }

  lemma CalmKeepsKey(s: Setting, w: World, e: Event, k: Path)
    requires LogOk(w) && Calm(e, k)
    ensures var after := Occur(s, w, e);
            ViewOf(after, k) == ViewOf(w, k) && Lookup(after.live, k) == Lookup(w.live, k)
  {
    hide S3Refresh.Refresh, S3Refresh.Changes, S3Refresh.Visits, Covered, LogOk;
    if e.PollApply? && w.listing.Some? && S3Refresh.Visits(e.order, S3Refresh.Changes(s, w, w.listing.value)) {
      S3Refresh.RefreshFrame(s, w, w.listing.value, e.order, e.index, S3Refresh.ApplySafe);
      S3Refresh.RefreshSparesCovered(s, w, w.listing.value, e.order, e.index, S3Refresh.ApplySafe, k);
    }
  }

  lemma CalmKeepsAccurate(s: Setting, w: World, e: Event, k: Path)
    requires LogOk(w) && Calm(e, k) && Accurate(s, w, k)
    ensures LogOk(Occur(s, w, e)) && Accurate(s, Occur(s, w, e), k)
  {
    var after := Occur(s, w, e);
    OccurMoves(s, w, e);
    MovesKeepsLog(w, after);
    OccurFrame(s, w, e);
    CalmKeepsKey(s, w, e, k);
    hide Occur, Calm, Moves;
    SameKeySameAccuracy(s, w, after, k) by {
      assert w.log <= after.log by { OccurMoves(s, w, e); LogGrows(w, after); }
    }
  }

  lemma LogGrows(a: World, b: World)
    requires Moves(a, b)
    ensures a.log <= b.log
  {
  }

  lemma SameKeySameAccuracy(s: Setting, a: World, b: World, k: Path)
    requires LogOk(a) && LogOk(b) && a.log <= b.log && a.phase == b.phase
    requires ViewOf(a, k) == ViewOf(b, k) && Lookup(a.live, k) == Lookup(b.live, k)
    requires Accurate(s, a, k)
    ensures Accurate(s, b, k)
  {
    assert Lookup(a.local, k) == ViewOf(a, k).local == Lookup(b.local, k);
    assert Lookup(a.base, k) == ViewOf(a, k).base == Lookup(b.base, k);
    assert Lookup(a.manifest, k) == ViewOf(a, k).entry == Lookup(b.manifest, k);
    if k in a.live {
      assert LiveBytes(a, k) == LiveBytes(b, k);
    }
  }

  // ---------------------------------------------------------------- the requests, undisturbed

  lemma PutWhenTaggedAccurate(s: Setting, w: World, k: Path, attempt: nat, state: ObjectState, bytes: Bytes, reason: Reason)
    requires LogOk(w) && Lookup(w.local, k) == Some(bytes)
    requires state.etag.Some? ==> LiveEtag(s, w, k) == state.etag
    ensures Accurate(s, PutWhenTagged(w, k, attempt, state, bytes, reason), k)
  {
  }

  lemma AfterReadAccurate(s: Setting, w: World, k: Path, attempt: nat, local: Bytes, why: Purpose, gen: nat, remote: Bytes)
    requires Honest(s) && LogOk(w) && Lookup(w.local, k) == Some(local) && Lookup(w.live, k) == Some(gen)
    requires LiveBytes(w, k) == remote
    ensures Accurate(s, AfterRead(s, w, k, attempt, local, why, gen, remote), k)
  {
    var state := s.statMeta(k, gen);
    assert Describes(s, state, k, gen);
    hide PutWhenTagged;
    match why
    case ForAdopt =>
    case ForMerge(base) =>
      if s.utf8(base) && s.utf8(local) && s.utf8(remote) {
        match TextMerge.Decide(s.diffy, base, local, remote) {
          case UploadLocal => PutWhenTaggedAccurate(s, w, k, attempt, state, local, Merged(base, local, remote));
          case UploadMerged(m) =>
            PutWhenTaggedAccurate(s, w.(local := w.local[k := m]), k, attempt, state, m, Merged(base, local, remote));
          case _ =>
        }
      }
  }

  lemma StartReadAccurate(s: Setting, w: World, k: Path, attempt: nat, local: Bytes, why: Purpose)
    requires Honest(s) && LogOk(w) && CachesOk(s, w) && Lookup(w.local, k) == Some(local) && k in w.live
    ensures Accurate(s, StartRead(s, w, k, attempt, local, why, w.live[k]), k)
  {
    hide CachesOk, AfterRead;
    match CacheHit(s, w, k, s.statMeta(k, w.live[k]).etag)
    case Some(bytes) =>
      CacheHitReadOk(s, w, k, bytes);
      AfterReadAccurate(s, w, k, attempt, local, why, w.live[k], bytes);
    case None =>
  }

  lemma AfterStatAccurate(s: Setting, w: World, k: Path, attempt: nat, local: Bytes, entry: Option<ObjectState>, held: Bytes)
    requires Honest(s) && LogOk(w) && CachesOk(s, w)
    requires Lookup(w.local, k) == Some(local) && entry == Lookup(w.manifest, k)
    ensures Accurate(s, AfterStat(s, w, k, attempt, local, entry, held), k)
  {
    hide CachesOk, StartRead, PutWhenTagged;
    match entry
    case Some(m) =>
      if k in w.live {
        assert Describes(s, s.statMeta(k, w.live[k]), k, w.live[k]);
        if SameGeneration(m, s.statMeta(k, w.live[k])) {
          PutWhenTaggedAccurate(s, w, k, attempt, m, local, Recorded(m, held));
        } else {
          StartReadAccurate(s, w, k, attempt, local, ForMerge(BaseOrEmpty(w, k)));
        }
      }
    case None => if k in w.live { StartReadAccurate(s, w, k, attempt, local, ForAdopt); }
  }

  lemma {:induction false} StepAccurate(s: Setting, w: World, k: Path)
    requires Honest(s) && LogOk(w) && CachesOk(s, w) && Accurate(s, w, k)
    ensures LogOk(Step(s, w)) && Accurate(s, Step(s, w), k)
  {
    hide CachesOk, AfterStat, AfterRead;
    StepMoves(s, w);
    MovesKeepsLog(w, Step(s, w));
    match w.phase
    case Ready(_) =>
    case AtStat(_, attempt, local, entry, held) => AfterStatAccurate(s, w, k, attempt, local, entry, held);
    case AtRead(_, attempt, local, why, gen) =>
      var filed := FileRead(s, w, k, s.statMeta(k, gen).etag, LiveBytes(w, k));
      AfterReadAccurate(s, filed, k, attempt, local, why, gen, LiveBytes(w, k));
    case AtRestat(_, local, gen) => RestatAccurate(s, w, k);
    case AtPut(_, attempt, condition, bytes, reason) => PutAccurate(s, w, k, bytes, reason);
  }

  lemma RestatAccurate(s: Setting, w: World, k: Path)
    requires Honest(s) && LogOk(w) && w.phase.AtRestat? && Accurate(s, w, k)
    ensures Accurate(s, StepRestat(s, w, k, w.phase.local), k)
  {
    assert Describes(s, s.statMeta(k, w.live[k]), k, w.live[k]);
  }

  lemma PutAccurate(s: Setting, w: World, k: Path, bytes: Bytes, reason: Reason)
    requires Honest(s) && LogOk(w) && Lookup(w.local, k) == Some(bytes)
    ensures var after := PutAccepted(s, w, k, bytes, reason); LogOk(after) && Accurate(s, after, k)
  {
    var after := PutAccepted(s, w, k, bytes, reason);
    assert Describes(s, s.putMeta(k, |w.log|), k, |w.log|);
    assert k in w.local && after.local == w.local;
  }

  lemma {:induction false} RunAccurate(s: Setting, w: World, run: seq<Label>, k: Path)
    requires Honest(s) && Inv(s, w) && Accurate(s, w, k)
    requires forall l | l in run :: CalmLabel(l, k)
    ensures Accurate(s, Run(s, w, run), k)
    decreases |run|
  {
    if run != [] {
      var front, last := run[..|run| - 1], run[|run| - 1];
      RunAccurate(s, w, front, k);
      RunKeepsInv(s, w, front);
      assert last in run;
      hide Step, Occur, Accurate, Inv, Calm;
      var before := Run(s, w, front);
      InvParts(s, before);
      match last {
        case Happen(e) => CalmKeepsAccurate(s, before, e, k);
        case Advance => StepAccurate(s, before, k);
      }
    }
  }

  lemma InvParts(s: Setting, w: World)
    requires Inv(s, w)
    ensures LogOk(w) && CachesOk(s, w)
  {
  }

  /** A sync of an existing file that nobody else interferes with: whenever it stands at
      its end it has either brought local, base, manifest and remote to agreement, or
      refused a conflict or a missing ETag; it never fails and never loses its write. */
  lemma {:induction false} UndisturbedUploadAgrees(s: Setting, w: World, k: Path, run: seq<Label>)
    requires Honest(s) && Inv(s, w) && w.phase.Ready? && k in w.local
    requires forall l | l in run :: CalmLabel(l, k)
    ensures var now := Run(s, StartSync(w, k), run);
            now.phase.Ready? ==> now.phase.last in {Synced, Conflict, NoEtag}
                                 && (now.phase.last == Synced ==> Agree(s, now, k))
  {
    var w1 := StartSync(w, k);
    TakeKeepsInv(s, w, Begin(k));
    assert w1 == Take(s, w, Begin(k));
    hide CachesOk, ManifestOk, UploadsOk, Honest;
    assert Accurate(s, w1, k);
    RunAccurate(s, w1, run, k);
  }

  // ---------------------------------------------------------------- bounded requests

  predicate AttemptOk(p: Phase) {
    (p.AtStat? || p.AtRead? || p.AtPut?) ==> p.attempt < MAX_PUT_RETRIES
  }

  /** Remote requests the sync in flight can still send. */
  function Left(p: Phase): nat
    requires AttemptOk(p)
  {
    match p
    case Ready(_) => 0
    case AtStat(_, attempt, _, _, _) => 3 * (MAX_PUT_RETRIES - 1 - attempt) + 3
    case AtRead(_, attempt, _, _, _) => 3 * (MAX_PUT_RETRIES - 1 - attempt) + 2
    case AtPut(_, attempt, _, _, _) => 3 * (MAX_PUT_RETRIES - 1 - attempt) + 1
    case AtRestat(_, _, _) => 1
    case AtDeleteStat(_, _) => 2
    case AtDelete(_) => 1
  }

  /** The sync is over, and not for want of an accepted write. */
  predicate Ends(p: Phase) {
    p.Ready? && p.last != PreconditionFailed
  }

  /** Reading leads to the write of the same attempt, or to the end. */
  lemma ReadLeadsOn(s: Setting, w: World, k: Path, attempt: nat, local: Bytes, why: Purpose, gen: nat, remote: Bytes)
    ensures var p := AfterRead(s, w, k, attempt, local, why, gen, remote).phase;
            Ends(p) || p.AtRestat? || (p.AtPut? && p.attempt == attempt)
  {
    hide TextMerge.Decide, PutWhenTagged, Record;
    if why.ForMerge? {
      match TextMerge.Decide(s.diffy, why.base, local, remote) {
        case UploadLocal => TaggedLeadsOn(w, k, attempt, s.statMeta(k, gen), local, Merged(why.base, local, remote));
        case UploadMerged(m) =>
          TaggedLeadsOn(w.(local := w.local[k := m]), k, attempt, s.statMeta(k, gen), m, Merged(why.base, local, remote));
        case _ =>
      }
    }
  }

  lemma TaggedLeadsOn(w: World, k: Path, attempt: nat, state: ObjectState, bytes: Bytes, reason: Reason)
    ensures var p := PutWhenTagged(w, k, attempt, state, bytes, reason).phase;
            Ends(p) || (p.AtPut? && p.attempt == attempt)
  {
  }

  lemma StatLeadsOn(s: Setting, w: World, k: Path, attempt: nat, local: Bytes, entry: Option<ObjectState>, held: Bytes)
    ensures var p := AfterStat(s, w, k, attempt, local, entry, held).phase;
            Ends(p) || p.AtRestat? || ((p.AtPut? || p.AtRead?) && p.attempt == attempt)
  {
    hide AfterRead, SameGeneration, RequiredEtag;
    if k in w.live {
      var why := if entry.Some? then ForMerge(BaseOrEmpty(w, k)) else ForAdopt;
      match CacheHit(s, w, k, s.statMeta(k, w.live[k]).etag) {
        case Some(bytes) => ReadLeadsOn(s, w, k, attempt, local, why, w.live[k], bytes);
        case None =>
      }
    }
  }

  lemma {:induction false} StepUsesOne(s: Setting, w: World)
    requires LogOk(w) && AttemptOk(w.phase)
    ensures AttemptOk(Step(s, w).phase)
    ensures w.phase.Ready? || Left(Step(s, w).phase) < Left(w.phase)
  {
    hide AfterStat, StepRead, StepPut, StepRestat, StepDelete, StepDeleteStat, Moves, SameOutside, LogOk;
    match w.phase
    case AtRestat(k, local, gen) => RestatEnds(s, w, k, local);
    case AtDeleteStat(k, recorded) => DeleteStatLeadsOn(s, w, k, recorded);
    case AtDelete(k) => DeleteEnds(w, k);
    case AtStat(k, attempt, local, entry, held) => StatLeadsOn(s, w, k, attempt, local, entry, held);
    case AtRead(k, attempt, local, why, gen) => StepReadLeadsOn(s, w, k, attempt, local, why, gen);
    case AtPut(k, attempt, condition, bytes, reason) => PutUsesOne(s, w, k, attempt, condition, bytes, reason);
    case _ =>
  }

  lemma PutUsesOne(s: Setting, w: World, k: Path, attempt: nat, condition: Condition, bytes: Bytes, reason: Reason)
    requires attempt < MAX_PUT_RETRIES
    ensures var p := StepPut(s, w, k, attempt, condition, bytes, reason).phase;
            p.Ready? || (p.AtStat? && p.attempt == attempt + 1 < MAX_PUT_RETRIES)
  {
    hide PutAccepted, Admits, Moves, SameOutside;
    PutEnds(s, w, k, bytes, reason);
  }

  lemma StepReadLeadsOn(s: Setting, w: World, k: Path, attempt: nat, local: Bytes, why: Purpose, gen: nat)
    requires LogOk(w)
    ensures var p := StepRead(s, w, k, attempt, local, why, gen).phase;
            Ends(p) || p.AtRestat? || (p.AtPut? && p.attempt == attempt)
  {
    hide AfterRead, FileRead;
    if k in w.live {
      var filed := FileRead(s, w, k, s.statMeta(k, gen).etag, LiveBytes(w, k));
      ReadLeadsOn(s, filed, k, attempt, local, why, gen, LiveBytes(w, k));
    }
  }

  lemma RestatEnds(s: Setting, w: World, k: Path, local: Bytes)
    ensures Ends(StepRestat(s, w, k, local).phase)
  {
  }

  lemma DeleteStatLeadsOn(s: Setting, w: World, k: Path, recorded: ObjectState)
    ensures var p := StepDeleteStat(s, w, k, recorded).phase; Ends(p) || p.AtDelete?
  {
  }

  lemma DeleteEnds(w: World, k: Path)
    ensures Ends(StepDelete(w, k).phase)
  {
  }

  lemma PutEnds(s: Setting, w: World, k: Path, bytes: Bytes, reason: Reason)
    ensures Ends(PutAccepted(s, w, k, bytes, reason).phase)
  {
  }

  function Advances(run: seq<Label>): nat {
    if run == [] then 0
    else Advances(run[..|run| - 1]) + if run[|run| - 1].Advance? then 1 else 0
  }

  lemma {:induction false} RunUses(s: Setting, w: World, run: seq<Label>)
    requires LogOk(w) && AttemptOk(w.phase) && forall l | l in run :: !l.Begin?
    ensures AttemptOk(Run(s, w, run).phase)
    ensures Left(Run(s, w, run).phase) == 0 || Left(Run(s, w, run).phase) + Advances(run) <= Left(w.phase)
    decreases |run|
  {
    if run != [] {
      var front, last := run[..|run| - 1], run[|run| - 1];
      RunUses(s, w, front);
      assert last in run;
      hide Step, Occur;
      match last {
        case Happen(e) => OccurFrame(s, Run(s, w, front), e);
        case Advance => StepUsesOne(s, Run(s, w, front));
      }
    }
  }

  /** Against any interference, a sync is over after at most nine remote requests: three
      attempts of a stat, a read and a conditional write. */
  lemma {:induction false} NineRequestsSuffice(s: Setting, w: World, k: Path, run: seq<Label>)
    requires LogOk(w) && w.phase.Ready?
    requires (forall l | l in run :: !l.Begin?) && Advances(run) >= 9
    ensures Run(s, StartSync(w, k), run).phase.Ready?
  {
    RunUses(s, StartSync(w, k), run);
  }

  /** `u` is the entry for the write just accepted. */
  predicate Entered(before: World, after: World, u: Upload) {
    after.uploads == before.uploads + [u]
    && u.made == |before.log| && |after.log| == |before.log| + 1 && after.log[u.made].path == u.path
    && u.over == Lookup(before.live, u.path) && Lookup(after.live, u.path) == Some(u.made)
  }

  lemma PutIsEntered(s: Setting, w: World, k: Path, bytes: Bytes, reason: Reason)
    ensures Entered(w, PutAccepted(s, w, k, bytes, reason), Upload(k, |w.log|, Lookup(w.live, k), reason))
  {
  }

  /** The upload history misses nothing: a request of the session that adds a write to the
      bucket is entered with the generation it made and the one it displaced. */
  lemma {:induction false} EveryUploadIsEntered(s: Setting, w: World)
    requires LogOk(w)
    ensures var after := Step(s, w);
            (after.log == w.log && after.uploads == w.uploads) || exists u :: Entered(w, after, u)
  {
    hide AfterStat, AfterRead, StepDeleteStat, StepRestat, StartAttempt, PutAccepted, Entered;
    if w.phase.AtPut? {
      PutIsEntered(s, w, w.phase.path, w.phase.bytes, w.phase.reason);
    }
  }

  // ---------------------------------------------------------------- edits made during a sync

  /** The text a merge of these three puts into the file, if it writes the file at all. */
  function WrittenOver(s: Setting, base: Bytes, local: Bytes, remote: Bytes): Option<Bytes> {
    if !(s.utf8(base) && s.utf8(local) && s.utf8(remote)) then None
    else match TextMerge.Decide(s.diffy, base, local, remote)
      case UploadMerged(m) => Some(m)
      case AcceptRemote(r) => Some(r)
      case _ => None
  }

  lemma MergeWritesOver(s: Setting, w: World, k: Path, attempt: nat, local: Bytes, base: Bytes, gen: nat, remote: Bytes)
    ensures var over := WrittenOver(s, base, local, remote);
            Lookup(AfterRead(s, w, k, attempt, local, ForMerge(base), gen, remote).local, k)
            == if over.Some? then over else Lookup(w.local, k)
  {
    hide TextMerge.Decide, PutWhenTagged, Record, SameOutside;
    var state := s.statMeta(k, gen);
    match TextMerge.Decide(s.diffy, base, local, remote)
    case UploadLocal => PutLeavesFiles(w, k, attempt, state, local, Merged(base, local, remote));
    case UploadMerged(m) =>
      PutLeavesFiles(w.(local := w.local[k := m]), k, attempt, state, m, Merged(base, local, remote));
    case AcceptRemote(r) => RecordLeavesFiles(w.(local := w.local[k := r]), k, state, r, remote);
    case AlreadySynced => RecordLeavesFiles(w, k, state, local, remote);
    case Conflict =>
  }

  lemma PutLeavesFiles(w: World, k: Path, attempt: nat, state: ObjectState, bytes: Bytes, reason: Reason)
    ensures PutWhenTagged(w, k, attempt, state, bytes, reason).local == w.local
  {
    hide RequiredEtag;
  }

  lemma RecordLeavesFiles(w: World, k: Path, state: ObjectState, bytes: Bytes, held: Bytes)
    ensures Record(w, k, state, bytes, held).local == w.local
  {
  }

  /** An edit made while the remote bytes are being fetched for a merge survives the merge
      exactly when the merge of the older text leaves the file alone, or happens to write the
      same text. */
  lemma {:induction false} EditDuringMergeSurvivesExactly(s: Setting, w: World, bytes: Bytes)
    requires LogOk(w) && w.phase.AtRead? && w.phase.why.ForMerge? && w.phase.path in w.live
    ensures var k := w.phase.path;
            var over := WrittenOver(s, w.phase.why.base, w.phase.local, LiveBytes(w, k));
            var edited := Occur(s, w, LocalWrite(k, bytes));
            LogOk(edited)
            && (Lookup(Step(s, edited).local, k) == Some(bytes) <==> over.None? || over == Some(bytes))
  {
    var k := w.phase.path;
    var edited := w.(local := w.local[k := bytes]);
    assert Occur(s, w, LocalWrite(k, bytes)) == edited;
    var read := FileRead(s, edited, k, s.statMeta(k, w.phase.gen).etag, LiveBytes(w, k));
    assert read.local == edited.local;
    MergeWritesOver(s, read, k, w.phase.attempt, w.phase.local, w.phase.why.base, w.phase.gen, LiveBytes(w, k));
    hide AfterRead, WrittenOver, AfterStat, StepPut, StepRestat, StepDelete, StepDeleteStat, FileRead;
  }

  /** An edit made while the stat of a remotely deleted object is under way survives exactly
      when the older text already differed from the base; otherwise the file is removed. */
  lemma {:induction false} EditDuringRemoteDeleteSurvivesExactly(s: Setting, w: World, bytes: Bytes)
    requires LogOk(w) && w.phase.AtStat? && w.phase.entry.Some? && w.phase.path !in w.live
    ensures var k := w.phase.path;
            var edited := Occur(s, w, LocalWrite(k, bytes));
            LogOk(edited)
            && Lookup(Step(s, edited).local, k) == if BaseOrEmpty(w, k) == w.phase.local then None else Some(bytes)
  {
    var k := w.phase.path;
    var edited := w.(local := w.local[k := bytes]);
    assert Occur(s, w, LocalWrite(k, bytes)) == edited;
    assert Step(s, edited) == RemoteGone(edited, k, w.phase.local);
    hide StartRead, PutWhenTagged, StepRead, StepPut, StepRestat, StepDelete, StepDeleteStat;
  }
}
