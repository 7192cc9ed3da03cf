/** How a sync that nobody else touches ends, told from the files, the record and the bucket
    it started from; and how often a refused write is tried again. */
module S3Outcome {
  import opened Common
  import opened S3World
  import opened S3Steps
  import opened S3Safety
  import opened S3Agreement
  import S3Refresh
  import TextMerge

  // ---------------------------------------------------------------- the starting world

  /** The live object is the recorded one: same ETag, and no version that says otherwise. */
  predicate StillRecorded(s: Setting, w: World, k: Path)
    requires k in w.manifest && k in w.live
  {
    var entry, state := w.manifest[k], s.statMeta(k, w.live[k]);
    entry.etag.Some? && state.etag.Some? && entry.etag.value == state.etag.value
    && (entry.version.Some? && state.version.Some? ==> entry.version.value == state.version.value)
  }

  /** The remote changed under a recorded file. */
  predicate Drifted(s: Setting, w: World, k: Path) {
    k in w.manifest && k in w.live && !StillRecorded(s, w, k)
  }

  predicate SyncConflicts(s: Setting, w: World, k: Path)
    requires LogOk(w) && k in w.local
  {
    var base, local := BaseOrEmpty(w, k), w.local[k];
    || (k !in w.manifest && k in w.live && LiveBytes(w, k) != local)
    || (k in w.manifest && k !in w.live && base != local)
    || (Drifted(s, w, k) && S3Refresh.TextsClash(s, base, local, LiveBytes(w, k)))
  }

  /** Without a conflict, the sync writes the bucket: a new file, an edit of the recorded
      object, or an edit that the drifted remote does not already contain. */
  predicate SyncUploads(s: Setting, w: World, k: Path)
    requires LogOk(w) && k in w.local
  {
    || (k !in w.manifest && k !in w.live)
    || (k in w.manifest && k in w.live && StillRecorded(s, w, k))
    || (Drifted(s, w, k) && w.local[k] != LiveBytes(w, k) && w.local[k] != BaseOrEmpty(w, k))
  }

  predicate Usable(etag: Option<string>) {
    etag.Some? && exists i | 0 <= i < |etag.value| :: !IsSpace(etag.value[i])
  }

  /** The write would have to name the live ETag, and there is none to name. */
  predicate LacksEtag(s: Setting, w: World, k: Path)
    requires LogOk(w) && k in w.local
  {
    k in w.live && SyncUploads(s, w, k) && !Usable(s.etagOf(k, w.live[k]))
  }

  /** The text everyone ends up with. */
  function SyncedText(s: Setting, w: World, k: Path): Bytes
    requires LogOk(w) && k in w.local
  {
    if Drifted(s, w, k) then S3Refresh.AgreedText(s, BaseOrEmpty(w, k), w.local[k], LiveBytes(w, k)) else w.local[k]
  }

  // ---------------------------------------------------------------- the way there

  /** Neither the file, its record nor its object changed. */
  predicate Untouched(a: World, b: World, k: Path) {
    ViewOf(b, k) == ViewOf(a, k) && Lookup(b.live, k) == Lookup(a.live, k)
  }

  /** Only the file may have changed, and it holds `bytes`. */
  predicate OnlyFile(a: World, b: World, k: Path, bytes: Bytes) {
    ViewOf(b, k) == ViewOf(a, k).(local := Some(bytes)) && Lookup(b.live, k) == Lookup(a.live, k)
  }

  /** Nobody knows `k` any more. */
  predicate Gone(w: World, k: Path) {
    k !in w.live && k !in w.local && k !in w.base && k !in w.manifest
  }

  /** File, base and object hold `bytes`. */
  predicate Holds(w: World, k: Path, bytes: Bytes)
    requires LogOk(w)
  {
    k in w.live && LiveBytes(w, k) == bytes && Lookup(w.local, k) == Some(bytes) && Lookup(w.base, k) == Some(bytes)
  }

  /** The sync of `k` that began in `a` has ended in `b` with `o`. */
  predicate EndedAs(s: Setting, a: World, b: World, k: Path, o: Outcome)
    requires LogOk(a) && LogOk(b) && k in a.local
  {
    if SyncConflicts(s, a, k) then o == Conflict && Untouched(a, b, k)
    else if LacksEtag(s, a, k) then o == NoEtag && OnlyFile(a, b, k, SyncedText(s, a, k))
    else
      o == Synced
      && if k in a.manifest && k !in a.live then Gone(b, k)
         else Holds(b, k, SyncedText(s, a, k)) && (Lookup(b.live, k) != Lookup(a.live, k) <==> SyncUploads(s, a, k))
  }

  function PurposeOf(w: World, k: Path): Purpose {
    if k in w.manifest then ForMerge(BaseOrEmpty(w, k)) else ForAdopt
  }

  /** Where the sync of `k` that began in `a` stands in `b`. */
  predicate OnCourse(s: Setting, a: World, b: World, k: Path)
    requires LogOk(a) && LogOk(b) && k in a.local
  {
    match b.phase
    case Ready(o) => EndedAs(s, a, b, k, o)
    case AtStat(q, _, local, entry, _) =>
      q == k && Untouched(a, b, k) && local == a.local[k] && entry == Lookup(a.manifest, k)
    case AtRead(q, _, local, why, gen) =>
      q == k && Untouched(a, b, k) && local == a.local[k] && Lookup(a.live, k) == Some(gen)
      && why == PurposeOf(a, k) && (k in a.manifest ==> Drifted(s, a, k))
    case AtRestat(q, local, gen) =>
      q == k && Untouched(a, b, k) && local == a.local[k] && k !in a.manifest
      && k in a.live && LiveBytes(a, k) == local
    case AtPut(q, _, condition, bytes, _) =>
      q == k && OnlyFile(a, b, k, bytes) && Admits(s, b, k, condition)
      && !SyncConflicts(s, a, k) && !LacksEtag(s, a, k) && SyncUploads(s, a, k) && bytes == SyncedText(s, a, k)
    case _ => false
  }

  // ---------------------------------------------------------------- others leave it on course

  lemma SameBytes(a: World, b: World, k: Path)
    requires LogOk(a) && LogOk(b) && a.log <= b.log && k in a.live && Lookup(b.live, k) == Lookup(a.live, k)
    ensures k in b.live && LiveBytes(b, k) == LiveBytes(a, k)
  {
  }

  lemma SameKeySameCourse(s: Setting, a: World, b: World, c: World, k: Path)
    requires LogOk(a) && LogOk(b) && LogOk(c) && k in a.local
    requires b.log <= c.log && b.phase == c.phase && Untouched(b, c, k)
    requires OnCourse(s, a, b, k)
    ensures OnCourse(s, a, c, k)
  {
    hide SyncConflicts, LacksEtag, SyncUploads, SyncedText, Drifted;
    assert Lookup(b.local, k) == ViewOf(b, k).local == Lookup(c.local, k);
    assert Lookup(b.base, k) == ViewOf(b, k).base == Lookup(c.base, k);
    assert Lookup(b.manifest, k) == ViewOf(b, k).entry == Lookup(c.manifest, k);
    if k in b.live {
      SameBytes(b, c, k);
    }
  }

  lemma CalmKeepsCourse(s: Setting, a: World, b: World, e: Event, k: Path)
    requires LogOk(a) && LogOk(b) && k in a.local && Calm(e, k) && OnCourse(s, a, b, k)
    ensures LogOk(Occur(s, b, e)) && OnCourse(s, a, Occur(s, b, e), k)
  {
    hide Occur, Calm, Moves, OnCourse;
    var after := Occur(s, b, e);
    OccurMoves(s, b, e);
    MovesKeepsLog(b, after);
    OccurFrame(s, b, e);
    CalmKeepsKey(s, b, e, k);
    LogGrows(b, after);
    SameKeySameCourse(s, a, b, after, k);
  }

  // ---------------------------------------------------------------- its own requests keep it on course

  lemma PutStaysOnCourse(s: Setting, a: World, b: World, k: Path, attempt: nat, state: ObjectState, bytes: Bytes, reason: Reason)
    requires LogOk(a) && LogOk(b) && k in a.local && k in a.live
    requires OnlyFile(a, b, k, bytes) && state.etag == s.etagOf(k, a.live[k])
    requires !SyncConflicts(s, a, k) && SyncUploads(s, a, k) && bytes == SyncedText(s, a, k)
    ensures OnCourse(s, a, PutWhenTagged(b, k, attempt, state, bytes, reason), k)
  {
    hide SyncConflicts, SyncUploads, SyncedText, Drifted;
  }

  lemma DriftConflicts(s: Setting, a: World, k: Path)
    requires LogOk(a) && k in a.local && Drifted(s, a, k)
    ensures SyncConflicts(s, a, k) <==> S3Refresh.TextsClash(s, BaseOrEmpty(a, k), a.local[k], LiveBytes(a, k))
  {
    hide StillRecorded, S3Refresh.TextsClash;
  }

  lemma DriftUploads(s: Setting, a: World, k: Path)
    requires LogOk(a) && k in a.local && Drifted(s, a, k)
    ensures SyncUploads(s, a, k) <==> a.local[k] != LiveBytes(a, k) && a.local[k] != BaseOrEmpty(a, k)
  {
  }

  lemma RecordingEnds(s: Setting, a: World, b: World, k: Path, state: ObjectState, bytes: Bytes)
    requires LogOk(a) && LogOk(b) && k in a.local && k in a.live && a.log <= b.log
    requires OnlyFile(a, b, k, bytes) && LiveBytes(a, k) == bytes == SyncedText(s, a, k)
    requires !SyncConflicts(s, a, k) && !SyncUploads(s, a, k)
    ensures EndedAs(s, a, Finish(Record(b, k, state, bytes, bytes), Synced), k, Synced)
  {
    hide SyncConflicts, SyncUploads, SyncedText;
    SameBytes(a, b, k);
    assert Lookup(b.local, k) == ViewOf(b, k).local;
  }

  lemma MergeStaysOnCourse(s: Setting, a: World, b: World, k: Path, attempt: nat, gen: nat, remote: Bytes)
    requires Honest(s) && LogOk(a) && LogOk(b) && k in a.local && Untouched(a, b, k) && a.log <= b.log
    requires Drifted(s, a, k) && a.live[k] == gen && remote == LiveBytes(a, k)
    ensures OnCourse(s, a, AfterRead(s, b, k, attempt, a.local[k], ForMerge(BaseOrEmpty(a, k)), gen, remote), k)
  {
    var base, local, state := BaseOrEmpty(a, k), a.local[k], s.statMeta(k, gen);
    StatDescribes(s, k, gen);
    DriftConflicts(s, a, k);
    DriftUploads(s, a, k);
    assert SyncedText(s, a, k) == S3Refresh.AgreedText(s, base, local, remote);
    assert Lookup(b.local, k) == ViewOf(b, k).local;
    hide Honest, PutWhenTagged, Drifted, SyncConflicts, SyncUploads, SyncedText, TextMerge.HasMarkers, LacksEtag, OnCourse, Record, LogOk;
    if S3Refresh.TextsClash(s, base, local, remote) {
      RefusalEnds(s, a, b, k);
    } else {
      match TextMerge.Decide(s.diffy, base, local, remote) {
        case UploadLocal => PutStaysOnCourse(s, a, b, k, attempt, state, local, Merged(base, local, remote));
        case UploadMerged(m) =>
          PutStaysOnCourse(s, a, b.(local := b.local[k := m]), k, attempt, state, m, Merged(base, local, remote));
        case AcceptRemote(r) => RecordingEnds(s, a, b.(local := b.local[k := r]), k, state, r);
        case AlreadySynced => RecordingEnds(s, a, b, k, state, local);
      }
    }
  }

  lemma RefusalEnds(s: Setting, a: World, b: World, k: Path)
    requires LogOk(a) && LogOk(b) && k in a.local && Untouched(a, b, k) && SyncConflicts(s, a, k)
    ensures OnCourse(s, a, Finish(b, Conflict), k)
  {
    hide SyncConflicts;
  }

  lemma AdoptStaysOnCourse(s: Setting, a: World, b: World, k: Path, attempt: nat, gen: nat, remote: Bytes)
    requires LogOk(a) && LogOk(b) && k in a.local && Untouched(a, b, k)
    requires k !in a.manifest && Lookup(a.live, k) == Some(gen) && remote == LiveBytes(a, k)
    ensures OnCourse(s, a, AfterRead(s, b, k, attempt, a.local[k], ForAdopt, gen, remote), k)
  {
  }

  lemma ReadStaysOnCourse(s: Setting, a: World, b: World, k: Path, attempt: nat, gen: nat, remote: Bytes)
    requires Honest(s) && LogOk(a) && LogOk(b) && k in a.local && Untouched(a, b, k) && a.log <= b.log
    requires Lookup(a.live, k) == Some(gen) && remote == LiveBytes(a, k) && (k in a.manifest ==> Drifted(s, a, k))
    ensures OnCourse(s, a, AfterRead(s, b, k, attempt, a.local[k], PurposeOf(a, k), gen, remote), k)
  {
    hide AfterRead, OnCourse, Drifted, Untouched, Honest;
    if k in a.manifest {
      MergeStaysOnCourse(s, a, b, k, attempt, gen, remote);
    } else {
      AdoptStaysOnCourse(s, a, b, k, attempt, gen, remote);
    }
  }

  lemma StartReadStaysOnCourse(s: Setting, a: World, b: World, k: Path, attempt: nat)
    requires Honest(s) && LogOk(a) && LogOk(b) && CachesOk(s, b) && k in a.local && Untouched(a, b, k) && a.log <= b.log
    requires k in a.live && (k in a.manifest ==> Drifted(s, a, k))
    ensures OnCourse(s, a, StartRead(s, b, k, attempt, a.local[k], PurposeOf(a, k), a.live[k]), k)
  {
    SameBytes(a, b, k);
    hide CachesOk, AfterRead, Drifted, Honest;
    match CacheHit(s, b, k, s.statMeta(k, a.live[k]).etag)
    case Some(bytes) =>
      CacheHitReadOk(s, b, k, bytes);
      ReadStaysOnCourse(s, a, b, k, attempt, a.live[k], bytes);
    case None =>
  }

  lemma StatStaysOnCourse(s: Setting, a: World, b: World, k: Path, attempt: nat, held: Bytes)
    requires Honest(s) && LogOk(a) && LogOk(b) && CachesOk(s, b) && k in a.local && Untouched(a, b, k) && a.log <= b.log
    ensures OnCourse(s, a, AfterStat(s, b, k, attempt, a.local[k], Lookup(a.manifest, k), held), k)
  {
    hide CachesOk, StartRead, PutWhenTagged, Honest;
    assert Lookup(b.base, k) == ViewOf(b, k).base == Lookup(a.base, k);
    assert Lookup(b.local, k) == ViewOf(b, k).local == Lookup(a.local, k);
    if k in a.live {
      if k in a.manifest && StillRecorded(s, a, k) {
        StatDescribes(s, k, a.live[k]);
        PutStaysOnCourse(s, a, b, k, attempt, a.manifest[k], a.local[k], Recorded(a.manifest[k], held));
      } else {
        StartReadStaysOnCourse(s, a, b, k, attempt);
      }
    }
  }

  lemma StatDescribes(s: Setting, k: Path, gen: nat)
    requires Honest(s)
    ensures Describes(s, s.statMeta(k, gen), k, gen)
  {
  }

  lemma {:induction false} StepStaysOnCourse(s: Setting, a: World, b: World, k: Path)
    requires Honest(s) && LogOk(a) && LogOk(b) && CachesOk(s, b) && k in a.local && a.log <= b.log && OnCourse(s, a, b, k)
    ensures LogOk(Step(s, b)) && OnCourse(s, a, Step(s, b), k)
  {
    hide CachesOk, AfterStat, AfterRead, Honest, EndedAs, Drifted, SyncConflicts, LacksEtag, SyncUploads, SyncedText;
    StepMoves(s, b);
    MovesKeepsLog(b, Step(s, b));
    match b.phase
    case Ready(_) =>
    case AtStat(_, attempt, local, entry, held) => StatStaysOnCourse(s, a, b, k, attempt, held);
    case AtRead(_, attempt, local, why, gen) =>
      SameBytes(a, b, k);
      var filed := FileRead(s, b, k, s.statMeta(k, gen).etag, LiveBytes(b, k));
      ReadStaysOnCourse(s, a, filed, k, attempt, gen, LiveBytes(b, k));
    case AtRestat(_, local, gen) => RestatEndsOnCourse(s, a, b, k);
    case AtPut(_, attempt, condition, bytes, reason) => PutEndsOnCourse(s, a, b, k);
  }

  lemma RestatEndsOnCourse(s: Setting, a: World, b: World, k: Path)
    requires LogOk(a) && LogOk(b) && k in a.local && a.log <= b.log && b.phase.AtRestat? && OnCourse(s, a, b, k)
    ensures OnCourse(s, a, StepRestat(s, b, k, b.phase.local), k)
  {
    SameBytes(a, b, k);
  }

  lemma PutEndsOnCourse(s: Setting, a: World, b: World, k: Path)
    requires LogOk(a) && LogOk(b) && k in a.local && a.log <= b.log && b.phase.AtPut? && OnCourse(s, a, b, k)
    ensures var after := PutAccepted(s, b, k, b.phase.bytes, b.phase.reason); LogOk(after) && OnCourse(s, a, after, k)
  {
    hide SyncConflicts, LacksEtag, SyncedText, StillRecorded;
    assert Lookup(b.local, k) == ViewOf(b, k).local;
  }

  lemma TakeStaysOnCourse(s: Setting, a: World, b: World, l: Label, k: Path)
    requires Honest(s) && LogOk(a) && Inv(s, b) && k in a.local && a.log <= b.log && OnCourse(s, a, b, k) && CalmLabel(l, k)
    ensures var after := Take(s, b, l); a.log <= after.log && LogOk(after) && OnCourse(s, a, after, k)
  {
    InvParts(s, b);
    TakeMoves(s, b, l);
    LogGrows(b, Take(s, b, l));
    hide Step, Occur, OnCourse, Inv, Calm, CachesOk, Moves, Honest;
    match l
    case Happen(e) => CalmKeepsCourse(s, a, b, e, k);
    case Advance => StepStaysOnCourse(s, a, b, k);
  }

  lemma {:induction false} RunStaysOnCourse(s: Setting, a: World, b: World, run: seq<Label>, k: Path)
    requires Honest(s) && LogOk(a) && Inv(s, b) && k in a.local && a.log <= b.log && OnCourse(s, a, b, k)
    requires forall l | l in run :: CalmLabel(l, k)
    ensures a.log <= Run(s, b, run).log && OnCourse(s, a, Run(s, b, run), k)
    decreases |run|
  {
    if run != [] {
      var front, last := run[..|run| - 1], run[|run| - 1];
      RunStaysOnCourse(s, a, b, front, k);
      RunKeepsInv(s, b, front);
      assert last in run;
      TakeStaysOnCourse(s, a, Run(s, b, front), last, k);
    }
    hide Take, OnCourse, Inv, CalmLabel, LogOk, Honest;
  }

  // ---------------------------------------------------------------- main result

  /** How a sync of an existing file ends when nobody else touches its path, decided by the
      world it starts from. It refuses a conflict exactly when an unrecorded file meets other
      remote bytes, an edited file has lost its object, or a drifted object clashes; it lacks
      an ETag exactly when it would replace an object that has none to name; otherwise it is
      synced, and everyone holds the agreed text. A conflict leaves everything as it was. */
  lemma {:induction false} UndisturbedSyncEndsExactly(s: Setting, w: World, k: Path, run: seq<Label>)
    requires Honest(s) && Inv(s, w) && w.phase.Ready? && k in w.local
    requires forall l | l in run :: CalmLabel(l, k)
    requires Run(s, StartSync(w, k), run).phase.Ready?
    ensures var now := Run(s, StartSync(w, k), run);
            var o := now.phase.last;
            && (o == Conflict <==> SyncConflicts(s, w, k))
            && (o == NoEtag <==> !SyncConflicts(s, w, k) && LacksEtag(s, w, k))
            && (o == Synced <==> !SyncConflicts(s, w, k) && !LacksEtag(s, w, k))
            && (o == Conflict ==> Untouched(w, now, k))
            && (o == NoEtag ==> OnlyFile(w, now, k, SyncedText(s, w, k)))
            && (o == Synced ==>
                  Agree(s, now, k)
                  && if k in w.manifest && k !in w.live then Gone(now, k)
                     else Holds(now, k, SyncedText(s, w, k))
                          && (Lookup(now.live, k) != Lookup(w.live, k) <==> SyncUploads(s, w, k)))
  {
    UndisturbedUploadAgrees(s, w, k, run);
    var w1 := StartSync(w, k);
    TakeKeepsInv(s, w, Begin(k));
    assert w1 == Take(s, w, Begin(k));
    hide CachesOk, ManifestOk, UploadsOk, Honest, SyncConflicts, LacksEtag, SyncUploads, SyncedText, Agree, CalmLabel;
    assert OnCourse(s, w, w1, k);
    RunStaysOnCourse(s, w, w1, run, k);
  }

  /** In particular a new file, neither recorded nor on the remote, ends up there. */
  lemma {:induction false} NewFileIsUploaded(s: Setting, w: World, k: Path, run: seq<Label>)
    requires Honest(s) && Inv(s, w) && w.phase.Ready? && k in w.local && k !in w.manifest && k !in w.live
    requires forall l | l in run :: CalmLabel(l, k)
    requires Advances(run) >= 9
    ensures var now := Run(s, StartSync(w, k), run);
            now.phase == Ready(Synced) && Holds(now, k, w.local[k])
  {
    assert forall l | l in run :: !l.Begin?;
    NineRequestsSuffice(s, w, k, run);
    UndisturbedSyncEndsExactly(s, w, k, run);
  }

  // ---------------------------------------------------------------- a file that is gone locally

  /** Where the sync of the missing file `k` that began in `a` stands in `b`: the object is
      removed exactly when its metadata is the recorded metadata in every field. */
  predicate OnDeleteCourse(s: Setting, a: World, b: World, k: Path) {
    var removes := k in a.manifest && k in a.live && s.statMeta(k, a.live[k]) == a.manifest[k];
    match b.phase
    case AtDeleteStat(q, recorded) => q == k && Untouched(a, b, k) && Lookup(a.manifest, k) == Some(recorded)
    case AtDelete(q) => q == k && Untouched(a, b, k) && removes
    case Ready(o) =>
      if removes then o == Synced && Gone(b, k)
      else Untouched(a, b, k) && o == if k in a.manifest then Conflict else Synced
    case _ => false
  }

  lemma SameKeySameDeleteCourse(s: Setting, a: World, b: World, c: World, k: Path)
    requires b.phase == c.phase && Untouched(b, c, k) && OnDeleteCourse(s, a, b, k)
    ensures OnDeleteCourse(s, a, c, k)
  {
    assert Lookup(b.local, k) == ViewOf(b, k).local == Lookup(c.local, k);
    assert Lookup(b.base, k) == ViewOf(b, k).base == Lookup(c.base, k);
    assert Lookup(b.manifest, k) == ViewOf(b, k).entry == Lookup(c.manifest, k);
  }

  lemma DeleteStatStaysOnCourse(s: Setting, a: World, b: World, k: Path)
    requires b.phase.AtDeleteStat? && OnDeleteCourse(s, a, b, k)
    ensures OnDeleteCourse(s, a, StepDeleteStat(s, b, k, b.phase.recorded), k)
  {
    assert Lookup(b.manifest, k) == ViewOf(b, k).entry;
  }

  lemma DeleteEndsOnCourse(s: Setting, a: World, b: World, k: Path)
    requires b.phase.AtDelete? && k !in a.local && OnDeleteCourse(s, a, b, k)
    ensures OnDeleteCourse(s, a, StepDelete(b, k), k)
  {
    assert Lookup(b.local, k) == ViewOf(b, k).local;
  }

  lemma StepStaysOnDeleteCourse(s: Setting, a: World, b: World, k: Path)
    requires LogOk(b) && k !in a.local && OnDeleteCourse(s, a, b, k)
    ensures OnDeleteCourse(s, a, Step(s, b), k)
  {
    hide AfterStat, StepRead, StepPut, StepRestat, StepDeleteStat, StepDelete, Untouched, Gone, LogOk, Moves, SameOutside;
    match b.phase
    case AtDeleteStat(_, _) => DeleteStatStaysOnCourse(s, a, b, k);
    case AtDelete(_) => DeleteEndsOnCourse(s, a, b, k);
    case Ready(_) =>
  }

  lemma {:induction false} RunStaysOnDeleteCourse(s: Setting, a: World, b: World, run: seq<Label>, k: Path)
    requires LogOk(b) && k !in a.local && OnDeleteCourse(s, a, b, k)
    requires forall l | l in run :: CalmLabel(l, k)
    ensures OnDeleteCourse(s, a, Run(s, b, run), k)
    decreases |run|
  {
    if run != [] {
      var front, last := run[..|run| - 1], run[|run| - 1];
      RunStaysOnDeleteCourse(s, a, b, front, k);
      assert last in run;
      hide Step, Occur, OnDeleteCourse, Calm;
      var before := Run(s, b, front);
      match last {
        case Happen(e) =>
          OccurFrame(s, before, e);
          CalmKeepsKey(s, before, e, k);
          SameKeySameDeleteCourse(s, a, before, Occur(s, before, e), k);
        case Advance => StepStaysOnDeleteCourse(s, a, before, k);
      }
    }
  }

  /** How the sync of a file that no longer exists ends when nobody else touches its path: a
      recorded object whose metadata is unchanged is removed and forgotten; one that changed
      or vanished is a conflict, and everything stays; an unknown path needs nothing. */
  lemma {:induction false} UndisturbedDeleteEndsExactly(s: Setting, w: World, k: Path, run: seq<Label>)
    requires LogOk(w) && w.phase.Ready? && k !in w.local
    requires forall l | l in run :: CalmLabel(l, k)
    requires Run(s, StartSync(w, k), run).phase.Ready?
    ensures var now := Run(s, StartSync(w, k), run);
            if k in w.manifest && k in w.live && s.statMeta(k, w.live[k]) == w.manifest[k]
            then now.phase.last == Synced && Gone(now, k)
            else Untouched(w, now, k) && now.phase.last == if k in w.manifest then Conflict else Synced
  {
    RunStaysOnDeleteCourse(s, w, StartSync(w, k), run, k);
  }

  // ---------------------------------------------------------------- failures

  /** The only ways a sync fails outright: the object vanished after it was seen, before it
      was read or seen again; or a write was refused and the file to try again with is gone. */
  lemma {:induction false} FailsExactlyWhenSomethingVanished(s: Setting, w: World)
    requires LogOk(w) && !w.phase.Ready?
    ensures Step(s, w).phase == Ready(Failed) <==>
            || ((w.phase.AtRead? || w.phase.AtRestat?) && w.phase.path !in w.live)
            || (w.phase.AtPut? && !Admits(s, w, w.phase.path, w.phase.condition)
                && w.phase.attempt + 1 < MAX_PUT_RETRIES && w.phase.path !in w.local)
  {
    hide AfterStat, AfterRead, PutAccepted, StepDelete, StepDeleteStat, Moves, SameOutside, FileRead;
    match w.phase
    case AtDeleteStat(k, recorded) => DeleteStatNeverFails(s, w, k, recorded);
    case AtDelete(k) => DeleteNeverFails(w, k);
    case AtStat(k, attempt, local, entry, held) => StatNeverFails(s, w, k, attempt, local, entry, held);
    case AtRead(k, attempt, local, why, gen) =>
      if k in w.live {
        var filed := FileRead(s, w, k, s.statMeta(k, gen).etag, LiveBytes(w, k));
        ReadNeverFails(s, filed, k, attempt, local, why, gen, LiveBytes(w, k));
      }
    case AtPut(k, attempt, condition, bytes, reason) => PutNeverFails(s, w, k, bytes, reason);
    case _ =>
  }

  lemma DeleteStatNeverFails(s: Setting, w: World, k: Path, recorded: ObjectState)
    ensures StepDeleteStat(s, w, k, recorded).phase != Ready(Failed)
  {
  }

  lemma DeleteNeverFails(w: World, k: Path)
    ensures StepDelete(w, k).phase != Ready(Failed)
  {
  }

  lemma PutNeverFails(s: Setting, w: World, k: Path, bytes: Bytes, reason: Reason)
    ensures PutAccepted(s, w, k, bytes, reason).phase != Ready(Failed)
  {
  }

  lemma TaggedNeverFails(w: World, k: Path, attempt: nat, state: ObjectState, bytes: Bytes, reason: Reason)
    ensures PutWhenTagged(w, k, attempt, state, bytes, reason).phase != Ready(Failed)
  {
  }

  lemma ReadNeverFails(s: Setting, w: World, k: Path, attempt: nat, local: Bytes, why: Purpose, gen: nat, remote: Bytes)
    ensures AfterRead(s, w, k, attempt, local, why, gen, remote).phase != Ready(Failed)
  {
    hide TextMerge.Decide, PutWhenTagged, Record;
    if why.ForMerge? {
      match TextMerge.Decide(s.diffy, why.base, local, remote) {
        case UploadLocal => TaggedNeverFails(w, k, attempt, s.statMeta(k, gen), local, Merged(why.base, local, remote));
        case UploadMerged(m) =>
          TaggedNeverFails(w.(local := w.local[k := m]), k, attempt, s.statMeta(k, gen), m, Merged(why.base, local, remote));
        case _ =>
      }
    }
  }

  lemma StatNeverFails(s: Setting, w: World, k: Path, attempt: nat, local: Bytes, entry: Option<ObjectState>, held: Bytes)
    ensures AfterStat(s, w, k, attempt, local, entry, held).phase != Ready(Failed)
  {
    hide AfterRead, SameGeneration, RequiredEtag;
    if k in w.live {
      var why := if entry.Some? then ForMerge(BaseOrEmpty(w, k)) else ForAdopt;
      match CacheHit(s, w, k, s.statMeta(k, w.live[k]).etag) {
        case Some(bytes) => ReadNeverFails(s, w, k, attempt, local, why, w.live[k], bytes);
        case None =>
      }
    }
  }

  // ---------------------------------------------------------------- the content cache

  /** What a request of the sync does to the content cache: a read files what it brought under
      the ETag it was asked for, unless something is filed there already; an accepted write
      hands its bytes to a background task; nothing else touches it, and without a cache or
      an ETag nothing does. */
  lemma {:induction false} CacheFollowsRequestsExactly(s: Setting, w: World)
    requires LogOk(w)
    ensures var after := Step(s, w);
            && after.cache ==
               (if w.phase.AtRead? && w.phase.path in w.live then
                  var etag := s.statMeta(w.phase.path, w.phase.gen).etag;
                  if s.cached && etag.Some? && (w.phase.path, etag.value) !in w.cache
                  then w.cache[(w.phase.path, etag.value) := LiveBytes(w, w.phase.path)] else w.cache
                else w.cache)
            && after.pending ==
               (if w.phase.AtPut? && Admits(s, w, w.phase.path, w.phase.condition) then
                  var etag := s.putMeta(w.phase.path, |w.log|).etag;
                  if s.cached && etag.Some? then w.pending + {Blob(w.phase.path, etag.value, w.phase.bytes)} else w.pending
                else w.pending)
  {
    hide AfterStat, AfterRead, StepRestat, StepDeleteStat, StartAttempt, PutAccepted, Admits, LogOk, Moves;
    if w.phase.AtRead? {
      ReadFiles(s, w);
    } else if w.phase.AtPut? {
      PutFiles(s, w, w.phase.path, w.phase.bytes, w.phase.reason);
    }
  }

  /** A sync asks for an object exactly when it needs its bytes, because nothing is recorded or
      the record no longer matches, and they are not filed under the ETag just seen. */
  lemma {:induction false} ReadsExactlyOnAMiss(s: Setting, w: World)
    requires LogOk(w) && !w.phase.AtRead?
    ensures var after := Step(s, w).phase;
            after.AtRead? <==>
            w.phase.AtStat? && w.phase.path in w.live
            && var k, seen := w.phase.path, s.statMeta(w.phase.path, w.live[w.phase.path]);
               (w.phase.entry.None? || !SameGeneration(w.phase.entry.value, seen))
               && !(s.cached && seen.etag.Some? && (k, seen.etag.value) in w.cache)
  {
    hide StepRead, StepRestat, StepPut, StepDelete, StepDeleteStat, AfterRead, AfterStat, SameGeneration, LogOk, Moves,
         SameOutside;
    match w.phase
    case AtStat(k, attempt, local, entry, held) => StatReadsOnAMiss(s, w, k, attempt, local, entry, held);
    case AtPut(k, attempt, condition, bytes, reason) => PutReadsNothing(s, w, k, attempt, condition, bytes, reason);
    case AtRestat(k, local, _) => RestatEnds(s, w, k, local);
    case AtDeleteStat(k, recorded) => DeleteStatLeadsOn(s, w, k, recorded);
    case AtDelete(k) => DeleteEnds(w, k);
    case Ready(_) =>
  }

  lemma StatReadsOnAMiss(s: Setting, w: World, k: Path, attempt: nat, local: Bytes, entry: Option<ObjectState>, held: Bytes)
    ensures AfterStat(s, w, k, attempt, local, entry, held).phase.AtRead? <==>
            k in w.live
            && var seen := s.statMeta(k, w.live[k]);
               (entry.None? || !SameGeneration(entry.value, seen))
               && !(s.cached && seen.etag.Some? && (k, seen.etag.value) in w.cache)
  {
    hide AfterRead, SameGeneration, RequiredEtag, SameOutside;
    if k in w.live {
      var why := if entry.Some? then ForMerge(BaseOrEmpty(w, k)) else ForAdopt;
      match CacheHit(s, w, k, s.statMeta(k, w.live[k]).etag) {
        case Some(bytes) => ReadLeadsOn(s, w, k, attempt, local, why, w.live[k], bytes);
        case None =>
      }
    }
  }

  lemma PutReadsNothing(s: Setting, w: World, k: Path, attempt: nat, condition: Condition, bytes: Bytes, reason: Reason)
    ensures !StepPut(s, w, k, attempt, condition, bytes, reason).phase.AtRead?
  {
    hide PutAccepted, Admits, Moves, SameOutside, HeldOrEmpty;
    PutEnds(s, w, k, bytes, reason);
    assert !StartAttempt(w, k, attempt + 1).phase.AtRead?;
  }

  lemma ReadFiles(s: Setting, w: World)
    requires LogOk(w) && w.phase.AtRead?
    ensures var after, k := Step(s, w), w.phase.path;
            && after.pending == w.pending
            && after.cache ==
               if k in w.live then
                 var etag := s.statMeta(k, w.phase.gen).etag;
                 if s.cached && etag.Some? && (k, etag.value) !in w.cache
                 then w.cache[(k, etag.value) := LiveBytes(w, k)] else w.cache
               else w.cache
  {
    hide AfterRead;
  }

  lemma PutFiles(s: Setting, w: World, k: Path, bytes: Bytes, reason: Reason)
    ensures var after, etag := PutAccepted(s, w, k, bytes, reason), s.putMeta(k, |w.log|).etag;
            && after.cache == w.cache
            && after.pending == if s.cached && etag.Some? then w.pending + {Blob(k, etag.value, bytes)} else w.pending
  {
  }

  // ---------------------------------------------------------------- refused writes

  /** This request is a conditional write that the bucket refuses. */
  predicate Refuses(s: Setting, w: World, l: Label) {
    l.Advance? && w.phase.AtPut? && !Admits(s, w, w.phase.path, w.phase.condition)
  }

  ghost function Refusals(s: Setting, w: World, run: seq<Label>): nat
    requires LogOk(w)
    decreases |run|
  {
    if run == [] then 0
    else
      var front := run[..|run| - 1];
      Refusals(s, w, front) + if Refuses(s, Run(s, w, front), run[|run| - 1]) then 1 else 0
  }

  /** The attempts of the sync are numbered by the refusals before them, and only the third
      refusal ends it. */
  predicate Numbered(p: Phase, refusals: nat) {
    match p
    case AtStat(_, attempt, _, _, _) => attempt == refusals < 3
    case AtRead(_, attempt, _, _, _) => attempt == refusals < 3
    case AtPut(_, attempt, _, _, _) => attempt == refusals < 3
    case Ready(o) => refusals <= 3 && (o == PreconditionFailed <==> refusals == 3)
    case _ => refusals < 3
  }

  lemma {:induction false} StepNumbers(s: Setting, w: World, refusals: nat)
    requires LogOk(w) && Numbered(w.phase, refusals)
    ensures Numbered(Step(s, w).phase, refusals + if Refuses(s, w, Advance) then 1 else 0)
  {
    hide AfterStat, StepRead, StepRestat, StepDelete, StepDeleteStat, PutAccepted, Moves, SameOutside, LogOk;
    match w.phase
    case AtRestat(k, local, gen) => RestatEnds(s, w, k, local);
    case AtDeleteStat(k, recorded) => DeleteStatLeadsOn(s, w, k, recorded);
    case AtDelete(k) => DeleteEnds(w, k);
    case AtStat(k, attempt, local, entry, held) => StatLeadsOn(s, w, k, attempt, local, entry, held);
    case AtRead(k, attempt, local, why, gen) => StepReadLeadsOn(s, w, k, attempt, local, why, gen);
    case AtPut(k, attempt, condition, bytes, reason) => PutEnds(s, w, k, bytes, reason);
    case _ =>
  }

  lemma RefusalsOneMore(s: Setting, w: World, run: seq<Label>)
    requires LogOk(w) && run != []
    ensures var front := run[..|run| - 1];
            Run(s, w, run) == Take(s, Run(s, w, front), run[|run| - 1])
            && Refusals(s, w, run)
               == Refusals(s, w, front) + if Refuses(s, Run(s, w, front), run[|run| - 1]) then 1 else 0
  {
    hide Take, Refuses;
  }

  lemma TakeNumbers(s: Setting, w: World, l: Label, refusals: nat)
    requires LogOk(w) && Numbered(w.phase, refusals) && !l.Begin?
    ensures Numbered(Take(s, w, l).phase, refusals + if Refuses(s, w, l) then 1 else 0)
  {
    hide Step, Occur, Numbered, Admits;
    match l
    case Happen(e) => OccurFrame(s, w, e);
    case Advance => StepNumbers(s, w, refusals);
  }

  lemma {:induction false} RunNumbers(s: Setting, w: World, run: seq<Label>, refusals: nat)
    requires LogOk(w) && Numbered(w.phase, refusals) && forall l | l in run :: !l.Begin?
    ensures Numbered(Run(s, w, run).phase, refusals + Refusals(s, w, run))
    decreases |run|
  {
    hide Take, Numbered, Refuses, LogOk, Run, Refusals;
    if run == [] {
      RunNothing(s, w);
      NoRefusals(s, w);
    } else {
      var front, last := run[..|run| - 1], run[|run| - 1];
      assert last in run;
      RunNumbers(s, w, front, refusals);
      RefusalsOneMore(s, w, run);
      TakeNumbers(s, Run(s, w, front), last, refusals + Refusals(s, w, front));
    }
  }

  lemma NoRefusals(s: Setting, w: World)
    requires LogOk(w)
    ensures Refusals(s, w, []) == 0
  {
  }

  /** Against any interference, a sync gives up exactly with the third refused write. */
  lemma {:induction false} GivesUpWithTheThirdRefusal(s: Setting, w: World, k: Path, run: seq<Label>)
    requires LogOk(w) && w.phase.Ready? && forall l | l in run :: !l.Begin?
    ensures var w1 := StartSync(w, k);
            Refusals(s, w1, run) <= 3
            && (Run(s, w1, run).phase == Ready(PreconditionFailed) <==> Refusals(s, w1, run) == 3)
  {
    RunNumbers(s, StartSync(w, k), run, 0);
  }
}
