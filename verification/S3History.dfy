/** Where the entry behind a conditional write comes from: the manifest, as the attempt
    found it (session.rs:347-386, 476-504). */
module S3History {
  import opened Common
  import opened S3World
  import opened S3Steps
  import TextMerge

  /** The manifest has this entry now, recorded with these bytes in hand. */
  predicate Records(w: World, k: Path, entry: ObjectState, held: Bytes) {
    Lookup(w.manifest, k) == Some(entry) && HeldOrEmpty(w, k) == held
  }

  /** At some moment of the run the manifest had the entry. */
  ghost predicate WasRecorded(s: Setting, w: World, run: seq<Label>, k: Path, entry: ObjectState, held: Bytes)
    requires LogOk(w)
  {
    exists i | 0 <= i <= |run| :: Records(Run(s, w, run[..i]), k, entry, held)
  }

  /** The sync in flight works with the entry. */
  predicate PhaseCarries(w: World, k: Path, entry: ObjectState, held: Bytes) {
    match w.phase
    case AtStat(p, _, _, found, h) => p == k && found == Some(entry) && h == held
    case AtPut(p, _, _, _, reason) => p == k && reason == Recorded(entry, held)
    case _ => false
  }

  predicate UploadCarries(w: World, k: Path, entry: ObjectState, held: Bytes) {
    exists u | u in w.uploads :: u.path == k && u.reason == Recorded(entry, held)
  }

  predicate Carries(w: World, k: Path, entry: ObjectState, held: Bytes) {
    PhaseCarries(w, k, entry, held) || UploadCarries(w, k, entry, held)
  }

  lemma AttemptCarries(w: World, p: Path, attempt: nat, k: Path, entry: ObjectState, held: Bytes)
    requires PhaseCarries(StartAttempt(w, p, attempt), k, entry, held)
    ensures Records(w, k, entry, held)
  {
  }

  lemma ReadCarriesNothing(
    s: Setting, w: World, p: Path, attempt: nat, local: Bytes, why: Purpose, gen: nat, remote: Bytes,
    k: Path, entry: ObjectState, held: Bytes)
    ensures !PhaseCarries(AfterRead(s, w, p, attempt, local, why, gen, remote), k, entry, held)
  {
    hide TextMerge.Decide, RequiredEtag, PutWhenTagged, Record, SameOutside;
    if why.ForMerge? {
      var state := s.statMeta(p, gen);
      match TextMerge.Decide(s.diffy, why.base, local, remote) {
        case UploadLocal => TaggedCarries(w, p, attempt, state, local, Merged(why.base, local, remote), k, entry, held);
        case UploadMerged(m) =>
          TaggedCarries(w.(local := w.local[p := m]), p, attempt, state, m, Merged(why.base, local, remote), k, entry, held);
        case _ =>
      }
    }
  }

  lemma TaggedCarries(
    w: World, p: Path, attempt: nat, state: ObjectState, bytes: Bytes, reason: Reason,
    k: Path, entry: ObjectState, held: Bytes)
    requires !reason.Recorded?
    ensures var after := PutWhenTagged(w, p, attempt, state, bytes, reason);
            !PhaseCarries(after, k, entry, held)
  {
    hide RequiredEtag;
  }

  lemma StatCarries(
    s: Setting, w: World, p: Path, attempt: nat, local: Bytes, found: Option<ObjectState>, h: Bytes,
    k: Path, entry: ObjectState, held: Bytes)
    requires PhaseCarries(AfterStat(s, w, p, attempt, local, found, h), k, entry, held)
    ensures p == k && found == Some(entry) && h == held
  {
    hide AfterRead, SameGeneration, RequiredEtag;
    if p in w.live {
      var why := if found.Some? then ForMerge(BaseOrEmpty(w, p)) else ForAdopt;
      match CacheHit(s, w, p, s.statMeta(p, w.live[p]).etag) {
        case Some(bytes) => ReadCarriesNothing(s, w, p, attempt, local, why, w.live[p], bytes, k, entry, held);
        case None =>
      }
    }
  }

  lemma PutCarries(
    s: Setting, w: World, p: Path, attempt: nat, condition: Condition, bytes: Bytes, reason: Reason,
    k: Path, entry: ObjectState, held: Bytes)
    requires var after := StepPut(s, w, p, attempt, condition, bytes, reason); Carries(after, k, entry, held)
    ensures Records(w, k, entry, held) || UploadCarries(w, k, entry, held) || (p == k && reason == Recorded(entry, held))
  {
    hide Moves, PutAccepted, StartAttempt, Records, UploadCarries, Admits;
    if Admits(s, w, p, condition) {
      AcceptedCarries(s, w, p, bytes, reason, k, entry, held);
    } else {
      RefusedUploads(w, p, attempt + 1, k, entry, held);
      if attempt + 1 < MAX_PUT_RETRIES && PhaseCarries(StartAttempt(w, p, attempt + 1), k, entry, held) {
        AttemptCarries(w, p, attempt + 1, k, entry, held);
      }
    }
  }

  lemma RefusedUploads(w: World, p: Path, attempt: nat, k: Path, entry: ObjectState, held: Bytes)
    ensures UploadCarries(StartAttempt(w, p, attempt), k, entry, held) ==> UploadCarries(w, k, entry, held)
    ensures UploadCarries(Finish(w, PreconditionFailed), k, entry, held) ==> UploadCarries(w, k, entry, held)
  {
  }

  lemma AcceptedCarries(
    s: Setting, w: World, p: Path, bytes: Bytes, reason: Reason, k: Path, entry: ObjectState, held: Bytes)
    ensures var after := PutAccepted(s, w, p, bytes, reason);
            && !PhaseCarries(after, k, entry, held)
            && (UploadCarries(after, k, entry, held) ==>
                  UploadCarries(w, k, entry, held) || (p == k && reason == Recorded(entry, held)))
  {
    var after := PutAccepted(s, w, p, bytes, reason);
    assert after.uploads == w.uploads + [Upload(p, |w.log|, Lookup(w.live, p), reason)];
    hide PutAccepted;
  }

  lemma StepCarries(s: Setting, w: World, k: Path, entry: ObjectState, held: Bytes)
    requires LogOk(w) && Carries(Step(s, w), k, entry, held)
    ensures Records(w, k, entry, held) || Carries(w, k, entry, held)
  {
    hide AfterStat, AfterRead, StepPut, Records, Moves, LogOk, FileRead;
    match w.phase
    case AtStat(p, attempt, local, found, h) =>
      if PhaseCarries(Step(s, w), k, entry, held) {
        StatCarries(s, w, p, attempt, local, found, h, k, entry, held);
      }
    case AtRead(p, attempt, local, why, gen) => StepReadCarries(s, w, p, attempt, local, why, gen, k, entry, held);
    case AtPut(p, attempt, condition, bytes, reason) =>
      PutCarries(s, w, p, attempt, condition, bytes, reason, k, entry, held);
    case _ =>
  }

  lemma StepReadCarries(
    s: Setting, w: World, p: Path, attempt: nat, local: Bytes, why: Purpose, gen: nat,
    k: Path, entry: ObjectState, held: Bytes)
    requires LogOk(w)
    ensures var after := StepRead(s, w, p, attempt, local, why, gen);
            !PhaseCarries(after, k, entry, held) && after.uploads == w.uploads
  {
    hide AfterRead;
    if p in w.live {
      var bytes := LiveBytes(w, p);
      ReadCarriesNothing(s, FileRead(s, w, p, s.statMeta(p, gen).etag, bytes), p, attempt, local, why, gen, bytes, k, entry, held);
    }
  }

  lemma TakeCarries(s: Setting, w: World, l: Label, k: Path, entry: ObjectState, held: Bytes)
    requires LogOk(w) && Carries(Take(s, w, l), k, entry, held)
    ensures Records(w, k, entry, held) || Carries(w, k, entry, held)
  {
    hide Step, Occur, LogOk, StartAttempt;
    match l
    case Happen(e) => OccurFrame(s, w, e);
    case Begin(p) =>
      if w.phase.Ready? && p in w.local && PhaseCarries(Take(s, w, l), k, entry, held) {
        AttemptCarries(w, p, 0, k, entry, held);
      }
    case Advance => StepCarries(s, w, k, entry, held);
  }

  /** What the sync in flight or an upload carries, the manifest had before. */
  lemma {:induction false} CarriedWasRecorded(
    s: Setting, w: World, run: seq<Label>, k: Path, entry: ObjectState, held: Bytes) returns (i: nat)
    requires LogOk(w) && w.phase.Ready? && w.uploads == []
    ensures i <= |run|
    ensures Carries(Run(s, w, run), k, entry, held) ==> Records(Run(s, w, run[..i]), k, entry, held)
    decreases |run|
  {
    hide Take, Records, LogOk;
    i := 0;
    if run != [] {
      var front := run[..|run| - 1];
      var before := Run(s, w, front);
      i := CarriedWasRecorded(s, w, front, k, entry, held);
      assert front[..i] == run[..i];
      hide Carries;
      if Carries(Run(s, w, run), k, entry, held) {
        TakeCarries(s, before, run[|run| - 1], k, entry, held);
        i := if Records(before, k, entry, held) then |run| - 1 else i;
      }
    }
  }

  lemma {:induction false} UploadWasRecorded(s: Setting, w: World, run: seq<Label>, u: Upload)
    requires LogOk(w) && w.phase.Ready? && w.uploads == []
    requires u in Run(s, w, run).uploads && u.reason.Recorded?
    ensures WasRecorded(s, w, run, u.path, u.reason.entry, u.reason.held)
  {
    hide Run, Records;
    var i := CarriedWasRecorded(s, w, run, u.path, u.reason.entry, u.reason.held);
  }
}
