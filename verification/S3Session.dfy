/** The S3 session as it runs: one object whose manifest, base store, working directory and
    cache are updated in place, over a bucket that other clients write as well
    (crates/omnifuse-s3/src/session.rs). Every method is tied to the step machine of
    S3Steps by the run of steps it made. */
module S3Session {
  import opened Common
  import opened S3World
  import opened S3Refresh
  import opened S3Steps
  import opened S3Safety
  import TextMerge

  datatype SyncReport =
    | Success(synced: nat)
    | Conflicts(synced: nat, files: seq<Path>)
    | Error

  predicate IsError(o: Outcome) {
    o.NoEtag? || o.Failed?
  }

  predicate IsConflict(o: Outcome) {
    o.Conflict? || o.PreconditionFailed?
  }

  function SyncedCount(outcomes: seq<Outcome>): nat {
    if outcomes == [] then 0
    else SyncedCount(outcomes[..|outcomes| - 1]) + if outcomes[|outcomes| - 1].Synced? then 1 else 0
  }

  /** The paths whose sync was refused, in order. */
  function ConflictFiles(paths: seq<Path>, outcomes: seq<Outcome>): seq<Path>
    requires |outcomes| <= |paths|
  {
    if outcomes == [] then []
    else
      var n := |outcomes| - 1;
      ConflictFiles(paths, outcomes[..n]) + if IsConflict(outcomes[n]) then [paths[n]] else []
  }

  function Report(paths: seq<Path>, outcomes: seq<Outcome>): SyncReport
    requires |outcomes| <= |paths|
  {
    if exists i | 0 <= i < |outcomes| :: IsError(outcomes[i]) then Error
    else if ConflictFiles(paths, outcomes) == [] then Success(SyncedCount(outcomes))
    else Conflicts(SyncedCount(outcomes), ConflictFiles(paths, outcomes))
  }

  // ---------------------------------------------------------------- runs

  lemma {:induction false} HappeningsSparePhase(s: Setting, w: World, run: seq<Label>)
    requires LogOk(w) && forall l | l in run :: l.Happen?
    ensures Run(s, w, run).phase == w.phase && Run(s, w, run).uploads == w.uploads
    decreases |run|
  {
    if run != [] {
      var front, last := run[..|run| - 1], run[|run| - 1];
      HappeningsSparePhase(s, w, front);
      hide Occur;
      OccurFrame(s, Run(s, w, front), last.event);
    }
  }

  /** Where an attempt may leave the system: at its end, or refused by the bucket with
      attempts left, about to start over. */
  ghost predicate Ended(s: Setting, w: World, k: Path, attempt: nat, outcome: Outcome)
    requires LogOk(w)
  {
    if outcome == PreconditionFailed && attempt + 1 < MAX_PUT_RETRIES
    then Step(s, w) == StartAttempt(w, k, attempt + 1)
    else w.phase == Ready(outcome)
  }

  /** The sync of `k` begins in the run between `from` and `to`, and at `to` has this outcome. */
  ghost predicate AnswerAt(s: Setting, w: World, k: Path, run: seq<Label>, from: nat, to: nat, outcome: Outcome)
    requires LogOk(w)
  {
    from <= to <= |run| && Begin(k) in run[from..to] && Run(s, w, run[..to]).phase == Ready(outcome)
  }

  /** Each path's sync in turn begins within the run and ends at its mark with its outcome. */
  ghost predicate AnswersAt(
    s: Setting, w: World, paths: seq<Path>, outcomes: seq<Outcome>, run: seq<Label>, marks: seq<nat>)
    requires LogOk(w)
  {
    && |outcomes| == |marks| <= |paths|
    && (forall i | 0 <= i < |marks| :: AnswerAt(s, w, paths[i], run, StartOf(marks, i), marks[i], outcomes[i]))
    && |run| == StartOf(marks, |marks|)
  }

  function StartOf(marks: seq<nat>, i: nat): nat
    requires i <= |marks|
  {
    if i == 0 then 0 else marks[i - 1]
  }

  // ---------------------------------------------------------------- the session

  class Session {
    const s: Setting

    // the bucket, the shared content cache and its users
    var log: seq<Write>
    var live: map<Path, nat>
    var cache: map<(Path, string), Bytes>
    var pending: set<Blob>
    var readers: set<(Path, string)>
    var listing: Option<map<Path, nat>>

    // the session's own
    var local: map<Path, Bytes>
    var base: map<Path, Bytes>
    var manifest: map<Path, ObjectState>

    // position and history
    ghost var phase: Phase
    ghost var held: map<Path, Bytes>
    ghost var uploads: seq<Upload>

    ghost function W(): World
      reads this
    {
      World(log, live, cache, pending, readers, listing, local, base, manifest, phase, held, uploads)
    }

    // -------------------------------------------------------------- small parts

    method CachePut(k: Path, etag: string, bytes: Bytes)
      modifies this`cache
      ensures W() == S3World.CachePut(old(W()), k, etag, bytes)
    {
      if (k, etag) !in cache {
        cache := cache[(k, etag) := bytes];
      }
    }

    /** `save_synced_state`; `bytesHeld` are the remote bytes in hand. */
    method SaveSyncedState(k: Path, state: ObjectState, bytes: Bytes, ghost bytesHeld: Bytes)
      modifies this`base, this`manifest, this`held
      ensures W() == Record(old(W()), k, state, bytes, bytesHeld)
    {
      base := base[k := bytes];
      manifest := manifest[k := state];
      held := held[k := bytesHeld];
    }

    method ForgetState(k: Path)
      modifies this`base, this`manifest, this`held
      ensures W() == Forget(old(W()), k)
    {
      manifest := manifest - {k};
      base := base - {k};
      held := held - {k};
    }

    // -------------------------------------------------------------- refresh

    /** `diff_remote`: the changed keys, each once. */
    method DiffRemote(remote: map<Path, nat>) returns (changes: seq<Path>)
      ensures Visits(changes, Changes(s, W(), remote))
    {
      changes := [];
      var rest := remote.Keys;
      while rest != {}
        invariant rest <= remote.Keys && NoDuplicates(changes)
        invariant forall k :: k in changes <==> k in remote && k !in rest && k in Changes(s, W(), remote)
      {
        var k :| k in rest;
        if !(k in manifest && SameGeneration(manifest[k], s.listMeta(k, remote[k]))) {
          changes := changes + [k];
        }
        rest := rest - {k};
      }
      ghost var modified := changes;
      rest := manifest.Keys;
      while rest != {}
        invariant rest <= manifest.Keys && NoDuplicates(changes)
        invariant forall k :: k in changes <==> k in modified || (k in manifest && k !in remote && k !in rest)
      {
        var k :| k in rest;
        if k !in remote {
          changes := changes + [k];
        }
        rest := rest - {k};
      }
    }

    method ProtectedAmong(affected: seq<Path>, index: set<Path>) returns (guarded: seq<Path>)
      ensures guarded == Guarded(affected, index)
    {
      guarded := [];
      for i := 0 to |affected|
        invariant guarded == Guarded(affected[..i], index)
      {
        assert affected[..i + 1][..i] == affected[..i];
        if exists d | d in index :: d <= affected[i] {
          guarded := guarded + [affected[i]];
        }
      }
      assert affected[..|affected|] == affected;
    }

    /** `read_object_cached` inside a refresh. */
    method ReadForRefresh(k: Path, etag: Option<string>) returns (bytes: Option<Bytes>)
      requires LogOk(W())
      modifies this`cache
      ensures bytes == ReadBytes(s, old(W()), k, etag)
      ensures W() == match bytes case None => old(W()) case Some(b) => FileRead(s, old(W()), k, etag, b)
    {
      if s.cached && etag.Some? && (k, etag.value) in cache {
        return Some(cache[(k, etag.value)]);
      }
      if k !in live {
        return None;
      }
      bytes := Some(log[live[k]].bytes);
      if s.cached && etag.Some? {
        CachePut(k, etag.value, bytes.value);
      }
    }

    /** `classify_remote_change`. */
    method DecideChange(remote: map<Path, nat>, k: Path) returns (plan: Option<Plan>)
      requires LogOk(W())
      modifies this`cache
      ensures plan == Classify(s, old(W()), remote, k)
      ensures W() == Fetched(s, old(W()), remote, k)
    {
      if k in remote {
        var state := s.listMeta(k, remote[k]);
        var read := ReadForRefresh(k, state.etag);
        if read.None? {
          return None;
        }
        if k !in local || (k in base && local[k] == base[k]) {
          return Some(WriteRemote(read.value, state));
        }
        var baseBytes := if k in base then base[k] else [];
        if !(s.utf8(baseBytes) && s.utf8(local[k]) && s.utf8(read.value)) {
          return Some(Refuse);
        }
        match TextMerge.Decide(s.diffy, baseBytes, local[k], read.value) {
          case UploadLocal => plan := Some(RefreshState(state, read.value));
          case UploadMerged(m) => plan := Some(WriteMerged(m, read.value, state));
          case AcceptRemote(r) => plan := Some(WriteRemote(r, state));
          case AlreadySynced => plan := Some(RefreshState(state, read.value));
          case Conflict => plan := Some(Refuse);
        }
      } else {
        plan := if k in local && !(k in base && local[k] == base[k]) then Some(Refuse) else Some(DeleteLocal);
      }
    }

    /** The decision, and when it is no decision at all or a refusal. */
    method ClassifyChange(remote: map<Path, nat>, k: Path) returns (plan: Option<Plan>)
      requires LogOk(W())
      modifies this`cache
      ensures plan == Classify(s, old(W()), remote, k)
      ensures plan.None? <==> S3Refresh.Unreadable(s, old(W()), remote, k)
      ensures plan.None? || plan.value.Refuse? <==> S3Refresh.Stops(s, old(W()), remote, k)
      ensures W() == Fetched(s, old(W()), remote, k)
    {
      ghost var w := W();
      plan := DecideChange(remote, k);
      hide *;
      S3Refresh.UnreadableIsUnclassified(s, w, remote, k);
      S3Refresh.StopsAreUnclassified(s, w, remote, k);
    }

    method ApplyDecision(k: Path, plan: Plan)
      modifies this`local, this`base, this`manifest, this`held
      ensures W() == ApplyPlan(old(W()), k, plan)
    {
      match plan
      case WriteRemote(bytes, state) =>
        local := local[k := bytes];
        SaveSyncedState(k, state, bytes, bytes);
      case WriteMerged(merged, remote, state) =>
        local := local[k := merged];
        SaveSyncedState(k, state, remote, remote);
      case RefreshState(state, remote) =>
        manifest := manifest[k := state];
        held := held[k := remote];
      case DeleteLocal =>
        local := local - {k};
        ForgetState(k);
      case Refuse =>
    }

    /** `apply_remote_changes`: classify every change, then apply all of them or none. */
    method ApplyRemoteChanges(remote: map<Path, nat>, changes: seq<Path>) returns (result: RefreshResult)
      requires LogOk(W()) && NoDuplicates(changes)
      modifies this`cache, this`local, this`base, this`manifest, this`held
      ensures (W(), result) == AppliedChanges(s, old(W()), remote, changes)
    {
      ghost var w := W();
      var decisions: seq<(Path, Plan)>, conflicts: seq<Path> := [], [];
      hide Refused, Classify, FetchAll, ReadableCount, Fetched, LogOk;
      ClassifyingStarts(s, w, remote, changes);
      for i := 0 to |changes|
        invariant LogOk(W()) && Classified(s, w, remote, changes, i, W(), decisions, conflicts)
      {
        ClassifyingContinues(s, w, remote, changes, i, W(), decisions, conflicts);
        var plan := ClassifyChange(remote, changes[i]);
        if plan.None? {
          return ReadFailed;
        }
        if plan.value.Refuse? {
          conflicts := conflicts + [changes[i]];
        } else {
          decisions := decisions + [(changes[i], plan.value)];
        }
      }
      ClassifyingEnds(s, w, remote, changes, W(), decisions, conflicts);
      if conflicts != [] {
        return Deferred(conflicts, MergeConflict);
      }
      result := ApplyDecisions(w, remote, changes, decisions);
    }

    method ApplyDecisions(ghost w: World, remote: map<Path, nat>, ghost changes: seq<Path>, decisions: seq<(Path, Plan)>)
      returns (result: RefreshResult)
      requires LogOk(w) && |decisions| == |changes|
      requires forall i | 0 <= i < |changes| ::
                 decisions[i].0 == changes[i] && Classify(s, w, remote, changes[i]) == Some(decisions[i].1)
                 && decisions[i].1 != Refuse
      modifies this`local, this`base, this`manifest, this`held
      ensures W() == ApplyAll(s, w, remote, changes, old(W()))
      ensures result == Applied(Listed(changes, remote, true), Listed(changes, remote, false))
    {
      hide Classify, ApplyPlan, ApplyAll, Listed;
      var changed, deleted := [], [];
      ghost var fetched := W();
      NothingApplied(s, w, remote, changes, fetched);
      for i := 0 to |decisions|
        invariant W() == ApplyAll(s, w, remote, changes[..i], fetched)
        invariant changed == Listed(changes[..i], remote, true) && deleted == Listed(changes[..i], remote, false)
      {
        var (k, plan) := decisions[i];
        OneMoreApplied(s, w, remote, changes, i, fetched);
        ApplyDecision(k, plan);
        if plan.DeleteLocal? {
          deleted := deleted + [k];
        } else {
          changed := changed + [k];
        }
      }
      assert changes[..|changes|] == changes;
      result := Applied(changed, deleted);
    }

    /** `refresh_remote`, from the moment the listing has been answered. */
    method RefreshRemote(remote: map<Path, nat>, index: set<Path>, mode: Mode)
      returns (result: RefreshResult, ghost order: seq<Path>)
      requires LogOk(W())
      modifies this`cache, this`local, this`base, this`manifest, this`held
      ensures Visits(order, Changes(s, old(W()), remote))
      ensures (W(), result) == Refresh(s, old(W()), remote, order, index, mode)
    {
      var changes := DiffRemote(remote);
      order := changes;
      hide Guarded, FetchAll, ApplyAll, ReadableCount, Refused, Listed, Changes;
      if changes == [] {
        return Unchanged, order;
      }
      var guarded := ProtectedAmong(changes, index);
      if guarded != [] {
        return Deferred(guarded, ProtectedLocalChange), order;
      }
      if mode == DetectOnly {
        return Deferred(changes, DetectOnlyMode), order;
      }
      result := ApplyRemoteChanges(remote, changes);
    }

    // -------------------------------------------------------------- everybody else

    /** The bucket accepts a write. */
    method Accepted(k: Path, bytes: Bytes)
      modifies this`log, this`live
      ensures W() == Accept(old(W()), k, bytes)
    {
      live := live[k := |log|];
      log := log + [Write(k, bytes)];
    }

    /** Other clients, the user, and the other users of the cache. */
    method Outside(e: Event)
      requires LogOk(W()) && !e.PollApply?
      modifies this
      ensures W() == Occur(s, old(W()), e)
    {
      hide Refresh, Visits, Changes, LogOk;
      match e {
        case OtherPut(k, bytes) => Accepted(k, bytes);
        case OtherDelete(k) => live := live - {k};
        case LocalWrite(k, bytes) => local := local[k := bytes];
        case LocalRemove(k) => local := local - {k};
        case Learn(k) =>
          if k in live && s.etagOf(k, live[k]).Some? {
            readers := readers + {(k, s.etagOf(k, live[k]).value)};
          }
        case Fetch(k, etag) =>
          if (k, etag) in readers && k in live {
            var bytes := LiveObject(k);
            readers := readers - {(k, etag)};
            CachePut(k, etag, bytes);
          }
        case Land(blob) =>
          if blob in pending {
            pending := pending - {blob};
            CachePut(blob.path, blob.etag, blob.bytes);
          }
        case Evict(k, etag) => cache := cache - {(k, etag)};
        case PollList => listing := Some(live);
      }
    }

    method LiveObject(k: Path) returns (bytes: Bytes)
      requires LogOk(W()) && k in live
      ensures live[k] < |log| && bytes == log[live[k]].bytes
    {
      bytes := log[live[k]].bytes;
    }

    /** The poll worker's refresh. */
    method PollWorker(index: set<Path>) returns (ghost order: seq<Path>)
      requires LogOk(W())
      modifies this
      ensures W() == Occur(s, old(W()), PollApply(order, index))
    {
      hide Refresh, Visits, Changes, LogOk;
      order := [];
      if listing.Some? {
        var _, o := RefreshRemote(listing.value, index, ApplySafe);
        listing := None;
        order := o;
      }
    }

    /** Something that is not a step of this session's sync. */
    method Happens(e: Event) returns (ghost happened: seq<Label>)
      requires LogOk(W())
      modifies this
      ensures (forall l | l in happened :: l.Happen?) && LogOk(W()) && W() == Run(s, old(W()), happened)
    {
      hide Occur, LogOk, Run;
      ghost var w, event := W(), e;
      if e.PollApply? {
        var order := PollWorker(e.index);
        event := PollApply(order, e.index);
      } else {
        Outside(e);
      }
      happened := [Happen(event)];
      RunSingle(s, w, Happen(event));
      TakeMoves(s, w, Happen(event));
    }

    /** Anything at all may happen between two requests. */
    method Others() returns (ghost run: seq<Label>)
      requires LogOk(W())
      modifies this
      ensures (forall l | l in run :: l.Happen?) && LogOk(W()) && W() == Run(s, old(W()), run)
      ensures phase == old(phase) && uploads == old(uploads)
    {
      run := [];
      ghost var w := W();
      hide Run, LogOk;
      RunNothing(s, w);
      var n: nat :| 0 <= n;
      for i := 0 to n
        invariant (forall l | l in run :: l.Happen?) && LogOk(W()) && W() == Run(s, w, run)
      {
        var e: Event :| true;
        var happened := Happens(e);
        RunConcat(s, w, run, happened);
        run := run + happened;
      }
      HappeningsSparePhase(s, w, run);
    }

    // -------------------------------------------------------------- conditional writes

    /** `put_create_and_record` and `put_update_and_record`: one conditional write, and the
        records when the bucket accepts it. */
    method PutAndRecord(k: Path, attempt: nat, condition: Condition, bytes: Bytes, ghost reason: Reason)
      returns (outcome: Outcome, ghost run: seq<Label>)
      requires LogOk(W()) && attempt < MAX_PUT_RETRIES && phase == AtPut(k, attempt, condition, bytes, reason)
      modifies this
      ensures LogOk(W()) && W() == Run(s, old(W()), run) && Ended(s, W(), k, attempt, outcome)
    {
      hide Run, LogOk, Moves;
      ghost var w := W();
      run := Others();
      ghost var mid := W();
      TakeMoves(s, mid, Advance);
      var admitted :=
        match condition
        case IfAbsent => k !in live
        case IfMatch(etag) => k in live && s.etagOf(k, live[k]) == Some(etag);
      if !admitted {
        outcome := PreconditionFailed;
        if attempt + 1 == MAX_PUT_RETRIES {
          phase := Ready(PreconditionFailed);
          RunOne(s, w, run, Advance);
          run := run + [Advance];
        }
        return;
      }
      RecordAccepted(k, bytes, reason);
      outcome := Synced;
      RunOne(s, w, run, Advance);
      run := run + [Advance];
    }

    /** The bucket took the write: a background cache write, then base and manifest. */
    method RecordAccepted(k: Path, bytes: Bytes, ghost reason: Reason)
      modifies this
      ensures W() == PutAccepted(s, old(W()), k, bytes, reason)
    {
      var gen := |log|;
      uploads := uploads + [Upload(k, gen, Lookup(live, k), reason)];
      Accepted(k, bytes);
      var state := s.putMeta(k, gen);
      if s.cached && state.etag.Some? {
        pending := pending + {Blob(k, state.etag.value, bytes)};
      }
      SaveSyncedState(k, state, bytes, bytes);
      phase := Ready(Synced);
    }

    /** A write over a generation whose ETag must be usable. */
    method PutOver(k: Path, attempt: nat, state: ObjectState, bytes: Bytes, ghost reason: Reason)
      returns (outcome: Outcome, ghost run: seq<Label>)
      requires LogOk(W()) && attempt < MAX_PUT_RETRIES
      modifies this
      ensures LogOk(W()) && W() == Run(s, PutWhenTagged(old(W()), k, attempt, state, bytes, reason), run)
      ensures Ended(s, W(), k, attempt, outcome)
    {
      hide Run, RequiredEtag;
      var etag := RequiredEtag(state);
      if etag.None? {
        phase := Ready(NoEtag);
        RunNothing(s, W());
        return NoEtag, [];
      }
      phase := AtPut(k, attempt, IfMatch(etag.value), bytes, reason);
      outcome, run := PutAndRecord(k, attempt, IfMatch(etag.value), bytes, reason);
    }

    // -------------------------------------------------------------- reading the remote object

    /** `read_object_cached` for the generation just statted; others may act before the
        request of a miss is answered. */
    method ReadObjectCached(k: Path, ghost attempt: nat, ghost localBytes: Bytes, ghost why: Purpose, gen: nat)
      returns (bytes: Option<Bytes>, ghost run: seq<Label>)
      requires LogOk(W())
      modifies this
      ensures LogOk(W())
      ensures var read := Run(s, StartRead(s, old(W()), k, attempt, localBytes, why, gen), run);
              match bytes
              case Some(remote) => read == AfterRead(s, W(), k, attempt, localBytes, why, gen, remote)
              case None => read == W() && phase == Ready(Failed)
    {
      hide Run, AfterRead, Moves;
      var etag := s.statMeta(k, gen).etag;
      if s.cached && etag.Some? && (k, etag.value) in cache {
        bytes, run := Some(cache[(k, etag.value)]), [];
        RunNothing(s, AfterRead(s, W(), k, attempt, localBytes, why, gen, bytes.value));
        return;
      }
      phase := AtRead(k, attempt, localBytes, why, gen);
      ghost var w := W();
      run := Others();
      RunOne(s, w, run, Advance);
      run := run + [Advance];
      if k !in live {
        phase := Ready(Failed);
        return None, run;
      }
      var remote := LiveObject(k);
      if s.cached && etag.Some? {
        CachePut(k, etag.value, remote);
      }
      bytes := Some(remote);
    }

    // -------------------------------------------------------------- the branches of an attempt

    /** `merge_remote_drift`. */
    method MergeRemoteDrift(k: Path, attempt: nat, localBytes: Bytes, gen: nat)
      returns (outcome: Outcome, ghost run: seq<Label>)
      requires LogOk(W()) && attempt < MAX_PUT_RETRIES
      modifies this
      ensures LogOk(W()) && Ended(s, W(), k, attempt, outcome)
      ensures W() == Run(s, StartRead(s, old(W()), k, attempt, localBytes, ForMerge(BaseOrEmpty(old(W()), k)), gen), run)
    {
      var baseBytes := if k in base then base[k] else [];
      ghost var start := StartRead(s, W(), k, attempt, localBytes, ForMerge(baseBytes), gen);
      hide Run, StartRead, Step, PutWhenTagged, LogOk, StartAttempt, Moves, SameOutside, TextMerge.Decide;
      var read, before := ReadObjectCached(k, attempt, localBytes, ForMerge(baseBytes), gen);
      if read.None? {
        return Failed, before;
      }
      var remote, state := read.value, s.statMeta(k, gen);
      if !(s.utf8(baseBytes) && s.utf8(localBytes) && s.utf8(remote)) {
        phase := Ready(Conflict);
        return Conflict, before;
      }
      match TextMerge.Decide(s.diffy, baseBytes, localBytes, remote) {
        case UploadLocal =>
          outcome, run := PutOver(k, attempt, state, localBytes, Merged(baseBytes, localBytes, remote));
          RunConcat(s, start, before, run);
          run := before + run;
        case UploadMerged(m) =>
          ghost var w := W();
          local := local[k := m];
          SameLog(w, W());
          outcome, run := PutOver(k, attempt, state, m, Merged(baseBytes, localBytes, remote));
          RunConcat(s, start, before, run);
          run := before + run;
        case AcceptRemote(r) =>
          local := local[k := r];
          SaveSyncedState(k, state, r, remote);
          phase := Ready(Synced);
          return Synced, before;
        case AlreadySynced =>
          SaveSyncedState(k, state, localBytes, remote);
          phase := Ready(Synced);
          return Synced, before;
        case Conflict =>
          phase := Ready(Conflict);
          return Conflict, before;
      }
    }

    /** `handle_remote_delete_during_upload`. */
    method HandleRemoteDelete(k: Path, localBytes: Bytes) returns (outcome: Outcome)
      modifies this
      ensures W() == RemoteGone(old(W()), k, localBytes) && phase == Ready(outcome) && outcome != PreconditionFailed
    {
      var baseBytes := if k in base then base[k] else [];
      if baseBytes == localBytes {
        local := local - {k};
        ForgetState(k);
        outcome := Synced;
      } else {
        outcome := Conflict;
      }
      phase := Ready(outcome);
    }

    /** Nothing recorded, something remote: equal content is adopted under a second stat. */
    method AdoptEqual(k: Path, ghost attempt: nat, localBytes: Bytes, gen: nat)
      returns (outcome: Outcome, ghost run: seq<Label>)
      requires LogOk(W())
      modifies this
      ensures LogOk(W()) && phase == Ready(outcome) && outcome != PreconditionFailed
      ensures W() == Run(s, StartRead(s, old(W()), k, attempt, localBytes, ForAdopt, gen), run)
    {
      ghost var start := StartRead(s, W(), k, attempt, localBytes, ForAdopt, gen);
      SameLog(W(), start);
      hide Run, StartRead, Moves, LogOk;
      var read;
      read, run := ReadObjectCached(k, attempt, localBytes, ForAdopt, gen);
      if read.None? {
        return Failed, run;
      }
      if read.value != localBytes {
        phase := Ready(Conflict);
        return Conflict, run;
      }
      ghost var w := W();
      phase := AtRestat(k, localBytes, gen);
      SameLog(w, W());
      ghost var restat := W();
      ghost var more := Others();
      RunOne(s, restat, more, Advance);
      RunConcat(s, start, run, more + [Advance]);
      run := run + (more + [Advance]);
      ghost var mid := W();
      if k in live {
        var state := s.statMeta(k, live[k]);
        SaveSyncedState(k, state, localBytes, localBytes);
        outcome := Synced;
      } else {
        outcome := Failed;
      }
      phase := Ready(outcome);
      SameLog(mid, W());
    }

    /** `upload_or_merge_once`. */
    method UploadOrMergeOnce(k: Path, attempt: nat) returns (outcome: Outcome, ghost run: seq<Label>)
      requires LogOk(W()) && attempt < MAX_PUT_RETRIES
      modifies this
      ensures LogOk(W()) && Ended(s, W(), k, attempt, outcome)
      ensures W() == Run(s, StartAttempt(old(W()), k, attempt), run)
    {
      hide Run, LogOk, Moves, StartRead, PutWhenTagged, RemoteGone;
      ghost var w0 := W();
      if k !in local {
        phase := Ready(Failed);
        SameLog(w0, W());
        RunNothing(s, W());
        return Failed, [];
      }
      var localBytes, entry := local[k], Lookup(manifest, k);
      ghost var bytesHeld := HeldOrEmpty(W(), k);
      phase := AtStat(k, attempt, localBytes, entry, bytesHeld);
      SameLog(w0, W());
      ghost var start := W();
      ghost var before := Others();
      ghost var mid := W();
      outcome, run := AfterTheStat(k, attempt, localBytes, entry, bytesHeld);
      RunOne(s, start, before, Advance);
      RunConcat(s, start, before + [Advance], run);
      run := before + [Advance] + run;
    }

    /** The branches once the stat has answered. */
    method AfterTheStat(k: Path, attempt: nat, localBytes: Bytes, entry: Option<ObjectState>, ghost bytesHeld: Bytes)
      returns (outcome: Outcome, ghost run: seq<Label>)
      requires LogOk(W()) && attempt < MAX_PUT_RETRIES
      modifies this
      ensures LogOk(W()) && Ended(s, W(), k, attempt, outcome)
      ensures W() == Run(s, AfterStat(s, old(W()), k, attempt, localBytes, entry, bytesHeld), run)
    {
      hide Run, LogOk, StartRead, PutWhenTagged, RemoteGone, Step, StartAttempt;
      if entry.Some? && k in live && !SameGeneration(entry.value, s.statMeta(k, live[k])) {
        outcome, run := MergeRemoteDrift(k, attempt, localBytes, live[k]);
      } else if entry.Some? && k !in live {
        ghost var w := W();
        outcome := HandleRemoteDelete(k, localBytes);
        SameLog(w, W());
        run := [];
        RunNothing(s, W());
      } else if entry.None? && k in live {
        outcome, run := AdoptEqual(k, attempt, localBytes, live[k]);
      } else if entry.None? {
        ghost var w := W();
        phase := AtPut(k, attempt, IfAbsent, localBytes, Created);
        SameLog(w, W());
        outcome, run := PutAndRecord(k, attempt, IfAbsent, localBytes, Created);
      } else {
        outcome, run := PutOver(k, attempt, entry.value, localBytes, Recorded(entry.value, bytesHeld));
      }
    }

    /** `upload_or_merge`: up to three attempts; what follows the loop is never reached. */
    method UploadOrMerge(k: Path) returns (outcome: Outcome, ghost run: seq<Label>)
      requires LogOk(W())
      modifies this
      ensures LogOk(W()) && phase == Ready(outcome)
      ensures W() == Run(s, StartAttempt(old(W()), k, 0), run)
    {
      hide Run, LogOk, StartAttempt, Step;
      ghost var start := StartAttempt(W(), k, 0);
      SameLog(W(), start);
      run := [];
      RunNothing(s, start);
      var attempt := 0;
      while attempt < MAX_PUT_RETRIES
        invariant attempt < MAX_PUT_RETRIES && LogOk(W())
        invariant Run(s, start, run) == StartAttempt(W(), k, attempt)
        decreases MAX_PUT_RETRIES - attempt
      {
        ghost var more;
        outcome, more := UploadOrMergeOnce(k, attempt);
        RunConcat(s, start, run, more);
        run := run + more;
        if !(outcome == PreconditionFailed && attempt + 1 < MAX_PUT_RETRIES) {
          return;
        }
        RunOne(s, start, run, Advance);
        run := run + [Advance];
        attempt := attempt + 1;
      }
      assert false;
    }

    /** `delete_remote`: compare, then delete whatever is there. */
    method DeleteRemote(k: Path) returns (outcome: Outcome, ghost run: seq<Label>)
      requires LogOk(W()) && k !in local
      modifies this
      ensures LogOk(W()) && phase == Ready(outcome) && W() == Run(s, StartSync(old(W()), k), run)
    {
      hide Run, LogOk, Moves;
      ghost var w0 := W();
      run := [];
      if k !in manifest {
        phase := Ready(Synced);
        SameLog(w0, W());
        RunNothing(s, W());
        return Synced, run;
      }
      var recorded := manifest[k];
      phase := AtDeleteStat(k, recorded);
      SameLog(w0, W());
      ghost var start := W();
      run := Others();
      RunOne(s, start, run, Advance);
      run := run + [Advance];
      ghost var mid := W();
      if !(k in live && s.statMeta(k, live[k]) == recorded) {
        phase := Ready(Conflict);
        SameLog(mid, W());
        return Conflict, run;
      }
      phase := AtDelete(k);
      SameLog(mid, W());
      ghost var more := DeleteNow(k);
      RunConcat(s, start, run, more);
      run := run + more;
      outcome := Synced;
    }

    /** The delete itself carries no condition. */
    method DeleteNow(k: Path) returns (ghost run: seq<Label>)
      requires LogOk(W()) && phase == AtDelete(k)
      modifies this
      ensures LogOk(W()) && phase == Ready(Synced) && W() == Run(s, old(W()), run)
    {
      hide Run, LogOk, Moves;
      ghost var start := W();
      run := Others();
      RunOne(s, start, run, Advance);
      run := run + [Advance];
      TakeMoves(s, W(), Advance);
      live := live - {k};
      ForgetState(k);
      phase := Ready(Synced);
    }

    /** `sync_one`. */
    method SyncOne(k: Path) returns (outcome: Outcome, ghost run: seq<Label>)
      requires LogOk(W())
      modifies this
      ensures LogOk(W()) && phase == Ready(outcome) && W() == Run(s, StartSync(old(W()), k), run)
    {
      hide Run, LogOk, StartAttempt;
      if k in local {
        outcome, run := UploadOrMerge(k);
      } else {
        outcome, run := DeleteRemote(k);
      }
    }

    /** The next path of a batch, after whatever happens before its file is read. */
    method SyncNext(k: Path) returns (outcome: Outcome, ghost run: seq<Label>)
      requires LogOk(W()) && phase.Ready?
      modifies this
      ensures LogOk(W()) && phase == Ready(outcome) && W() == Run(s, old(W()), run) && Begin(k) in run
    {
      ghost var w := W();
      hide Run, LogOk, StartSync;
      run := Others();
      TakeMoves(s, W(), Begin(k));
      RunOne(s, w, run, Begin(k));
      ghost var more;
      outcome, more := SyncOne(k);
      RunConcat(s, w, run + [Begin(k)], more);
      run := run + [Begin(k)] + more;
    }

    /** `sync_dirty`: every path in turn, with anything in between; refusals are collected,
        any other error ends the batch. */
    method SyncDirty(paths: seq<Path>)
      returns (report: SyncReport, ghost outcomes: seq<Outcome>, ghost run: seq<Label>, ghost marks: seq<nat>)
      requires LogOk(W()) && phase.Ready?
      modifies this
      ensures LogOk(W()) && phase.Ready? && W() == Run(s, old(W()), run)
      ensures |outcomes| <= |paths| && report == Report(paths, outcomes)
      ensures report.Error? || |outcomes| == |paths|
      ensures AnswersAt(s, old(W()), paths, outcomes, run, marks)
      ensures Honest(s) && Inv(s, old(W())) ==> Inv(s, W())
    {
      ghost var w := W();
      hide Run, LogOk, Inv, Honest, Tally, AnswersAt, Report, SyncedCount, ConflictFiles;
      var synced: nat, conflicts: seq<Path> := 0, [];
      outcomes, run, marks := [], [], [];
      NothingSynced(s, w, paths);
      for i := 0 to |paths|
        invariant LogOk(W()) && phase.Ready? && W() == Run(s, w, run)
        invariant |outcomes| == i && Tally(paths, outcomes, synced, conflicts)
        invariant AnswersAt(s, w, paths, outcomes, run, marks)
      {
        var outcome, more := SyncNext(paths[i]);
        RunConcat(s, w, run, more);
        OneMoreAnswer(s, w, paths, outcomes, run, marks, more, outcome);
        OneMoreTallied(paths, outcomes, synced, conflicts, outcome);
        run := run + more;
        outcomes, marks := outcomes + [outcome], marks + [|run|];
        match outcome {
          case Synced => synced := synced + 1;
          case PreconditionFailed => conflicts := conflicts + [paths[i]];
          case Conflict => conflicts := conflicts + [paths[i]];
          case _ =>
            report := Error;
            KeepsInv(s, w, run);
            return;
        }
      }
      report := if conflicts == [] then Success(synced) else Conflicts(synced, conflicts);
      Tallied(paths, outcomes, synced, conflicts);
      KeepsInv(s, w, run);
    }
  }

  // ---------------------------------------------------------------- the classify loop

  /** What applying safe changes comes to, once nothing is protected. */
  function AppliedChanges(s: Setting, w: World, listing: map<Path, nat>, order: seq<Path>): (World, RefreshResult)
    requires LogOk(w)
  {
    var n := ReadableCount(s, w, listing, order);
    var fetched := FetchAll(s, w, listing, order[..n]);
    var refused := Refused(s, w, listing, order);
    if n < |order| then (fetched, ReadFailed)
    else if refused != [] then (fetched, Deferred(refused, MergeConflict))
    else (ApplyAll(s, w, listing, order, fetched), Applied(Listed(order, listing, true), Listed(order, listing, false)))
  }

  /** The loop after `i` changes: what was read is filed, every plan so far is the one made
      from the state before the loop. */
  ghost predicate Classified(
    s: Setting, w: World, listing: map<Path, nat>, order: seq<Path>, i: nat, now: World, decisions: seq<(Path, Plan)>,
    conflicts: seq<Path>)
    requires LogOk(w) && i <= |order|
  {
    && now == FetchAll(s, w, listing, order[..i])
    && conflicts == Refused(s, w, listing, order[..i])
    && (forall j | 0 <= j < i :: Classify(s, w, listing, order[j]).Some?)
    && (conflicts == [] ==>
          |decisions| == i
          && forall j | 0 <= j < i ::
               decisions[j].0 == order[j] && Classify(s, w, listing, order[j]) == Some(decisions[j].1)
               && decisions[j].1 != Refuse)
  }

  lemma ClassifyingStarts(s: Setting, w: World, listing: map<Path, nat>, order: seq<Path>)
    requires LogOk(w)
    ensures Classified(s, w, listing, order, 0, w, [], [])
  {
  }

  lemma {:induction false} ReadsSpareOthers(
    s: Setting, w: World, listing: map<Path, nat>, order: seq<Path>, k: Path, etag: Option<string>)
    requires LogOk(w) && k !in order
    ensures var after := FetchAll(s, w, listing, order);
            LogOk(after) && ReadBytes(s, after, k, etag) == ReadBytes(s, w, k, etag)
  {
    if order != [] {
      ReadsSpareOthers(s, w, listing, order[..|order| - 1], k, etag);
    }
  }

  lemma ClassifyAfterReads(s: Setting, w: World, listing: map<Path, nat>, order: seq<Path>, k: Path)
    requires LogOk(w) && k !in order
    ensures var after := FetchAll(s, w, listing, order);
            LogOk(after) && Classify(s, after, listing, k) == Classify(s, w, listing, k)
  {
    ReadsSpareOthers(s, w, listing, order, k, if k in listing then s.listMeta(k, listing[k]).etag else None);
    hide FetchAll, ReadBytes;
  }

  lemma ClassifyingContinues(
    s: Setting, w: World, listing: map<Path, nat>, order: seq<Path>, i: nat, now: World, decisions: seq<(Path, Plan)>,
    conflicts: seq<Path>)
    requires LogOk(w) && LogOk(now) && NoDuplicates(order) && i < |order|
    requires Classified(s, w, listing, order, i, now, decisions, conflicts)
    ensures var k, plan := order[i], Classify(s, now, listing, order[i]);
            var next := Fetched(s, now, listing, k);
            LogOk(next)
            && (plan.None? ==> (next, ReadFailed) == AppliedChanges(s, w, listing, order))
            && (plan == Some(Refuse) ==>
                  Classified(s, w, listing, order, i + 1, next, decisions, conflicts + [k]))
            && (plan.Some? && plan.value != Refuse ==>
                  Classified(s, w, listing, order, i + 1, next, decisions + [(k, plan.value)], conflicts))
  {
    var k := order[i];
    assert k !in order[..i];
    PlanUnchanged(s, w, listing, order, i, now, decisions, conflicts);
    hide *;
    match Classify(s, w, listing, k)
    case None => StopsUnreadable(s, w, listing, order, i, now, decisions, conflicts);
    case Some(plan) => PlanIsNoted(s, w, listing, order, i, now, decisions, conflicts, plan);
  }

  lemma PlanUnchanged(
    s: Setting, w: World, listing: map<Path, nat>, order: seq<Path>, i: nat, now: World, decisions: seq<(Path, Plan)>,
    conflicts: seq<Path>)
    requires LogOk(w) && LogOk(now) && i < |order| && order[i] !in order[..i]
    requires Classified(s, w, listing, order, i, now, decisions, conflicts)
    ensures Classify(s, now, listing, order[i]) == Classify(s, w, listing, order[i])
  {
    hide Classify, FetchAll, Refused;
    ClassifyAfterReads(s, w, listing, order[..i], order[i]);
  }

  lemma StopsUnreadable(
    s: Setting, w: World, listing: map<Path, nat>, order: seq<Path>, i: nat, now: World, decisions: seq<(Path, Plan)>,
    conflicts: seq<Path>)
    requires LogOk(w) && LogOk(now) && i < |order| && Classified(s, w, listing, order, i, now, decisions, conflicts)
    requires Classify(s, now, listing, order[i]) == Classify(s, w, listing, order[i]) == None
    ensures var next := Fetched(s, now, listing, order[i]);
            LogOk(next) && (next, ReadFailed) == AppliedChanges(s, w, listing, order)
  {
    UnreadableStays(s, now, listing, order[i]);
    hide Classify, Fetched, FetchAll, Refused, ReadableCount, ApplyAll, Listed;
    CountedTo(s, w, listing, order, i);
  }

  lemma PlanIsNoted(
    s: Setting, w: World, listing: map<Path, nat>, order: seq<Path>, i: nat, now: World, decisions: seq<(Path, Plan)>,
    conflicts: seq<Path>, plan: Plan)
    requires LogOk(w) && LogOk(now) && i < |order| && Classified(s, w, listing, order, i, now, decisions, conflicts)
    requires Classify(s, w, listing, order[i]) == Some(plan)
    ensures var k, next := order[i], Fetched(s, now, listing, order[i]);
            LogOk(next)
            && Classified(s, w, listing, order, i + 1, next, if plan == Refuse then decisions else decisions + [(k, plan)],
                          if plan == Refuse then conflicts + [k] else conflicts)
  {
    hide Classify, Fetched, FetchAll, Refused, LogOk;
    UnreadableStays(s, now, listing, order[i]);
    OneMoreRead(s, w, listing, order, i);
  }

  lemma OneMoreRead(s: Setting, w: World, listing: map<Path, nat>, order: seq<Path>, i: nat)
    requires LogOk(w) && i < |order|
    ensures var front := FetchAll(s, w, listing, order[..i]);
            LogOk(front) && FetchAll(s, w, listing, order[..i + 1]) == Fetched(s, front, listing, order[i])
    ensures Refused(s, w, listing, order[..i + 1])
            == Refused(s, w, listing, order[..i]) + if Classify(s, w, listing, order[i]) == Some(Refuse) then [order[i]] else []
  {
    assert order[..i + 1][..i] == order[..i];
    hide Classify, Fetched;
  }

  lemma UnreadableStays(s: Setting, w: World, listing: map<Path, nat>, k: Path)
    requires LogOk(w)
    ensures var next := Fetched(s, w, listing, k);
            LogOk(next) && (Classify(s, w, listing, k).None? ==> next == w)
  {
  }

  lemma CountedTo(s: Setting, w: World, listing: map<Path, nat>, order: seq<Path>, i: nat)
    requires LogOk(w) && i <= |order|
    requires forall j | 0 <= j < i :: Classify(s, w, listing, order[j]).Some?
    requires i < |order| ==> Classify(s, w, listing, order[i]).None?
    ensures ReadableCount(s, w, listing, order) == i
  {
    hide ReadableCount, Classify;
  }

  lemma ClassifyingEnds(
    s: Setting, w: World, listing: map<Path, nat>, order: seq<Path>, now: World, decisions: seq<(Path, Plan)>,
    conflicts: seq<Path>)
    requires LogOk(w) && Classified(s, w, listing, order, |order|, now, decisions, conflicts)
    ensures AppliedChanges(s, w, listing, order)
            == if conflicts != [] then (now, Deferred(conflicts, MergeConflict))
               else (ApplyAll(s, w, listing, order, now), Applied(Listed(order, listing, true), Listed(order, listing, false)))
  {
    assert order[..|order|] == order;
    CountedTo(s, w, listing, order, |order|);
    hide ReadableCount, Classify, FetchAll, Refused;
  }

  lemma NothingApplied(s: Setting, w: World, listing: map<Path, nat>, order: seq<Path>, acc: World)
    requires LogOk(w)
    ensures ApplyAll(s, w, listing, order[..0], acc) == acc
    ensures Listed(order[..0], listing, true) == [] && Listed(order[..0], listing, false) == []
  {
  }

  lemma OneMoreApplied(s: Setting, w: World, listing: map<Path, nat>, order: seq<Path>, i: nat, acc: World)
    requires LogOk(w) && i < |order|
    requires Classify(s, w, listing, order[i]).Some? && Classify(s, w, listing, order[i]) != Some(Refuse)
    ensures var k, plan := order[i], Classify(s, w, listing, order[i]).value;
            && ApplyAll(s, w, listing, order[..i + 1], acc) == ApplyPlan(ApplyAll(s, w, listing, order[..i], acc), k, plan)
            && Listed(order[..i + 1], listing, true) == Listed(order[..i], listing, true) + (if plan.DeleteLocal? then [] else [k])
            && Listed(order[..i + 1], listing, false) == Listed(order[..i], listing, false) + (if plan.DeleteLocal? then [k] else [])
  {
    assert order[..i + 1][..i] == order[..i];
    DeletesExactlyUnlisted(s, w, listing, order[i]);
    hide Classify, ApplyPlan;
  }

  lemma DeletesExactlyUnlisted(s: Setting, w: World, listing: map<Path, nat>, k: Path)
    requires LogOk(w) && Classify(s, w, listing, k).Some? && Classify(s, w, listing, k) != Some(Refuse)
    ensures Classify(s, w, listing, k) == Some(DeleteLocal) <==> k !in listing
  {
  }

  /** No error so far, and the counts are right. */
  ghost predicate Tally(paths: seq<Path>, outcomes: seq<Outcome>, synced: nat, conflicts: seq<Path>) {
    && |outcomes| <= |paths| && (forall i | 0 <= i < |outcomes| :: !IsError(outcomes[i]))
    && synced == SyncedCount(outcomes) && conflicts == ConflictFiles(paths, outcomes)
  }

  lemma NothingSynced(s: Setting, w: World, paths: seq<Path>)
    requires LogOk(w)
    ensures Run(s, w, []) == w && Tally(paths, [], 0, []) && AnswersAt(s, w, paths, [], [], [])
  {
  }

  lemma OneMoreTallied(paths: seq<Path>, outcomes: seq<Outcome>, synced: nat, conflicts: seq<Path>, outcome: Outcome)
    requires Tally(paths, outcomes, synced, conflicts) && |outcomes| < |paths|
    ensures var all := outcomes + [outcome];
            match outcome
            case Synced => Tally(paths, all, synced + 1, conflicts)
            case PreconditionFailed => Tally(paths, all, synced, conflicts + [paths[|outcomes|]])
            case Conflict => Tally(paths, all, synced, conflicts + [paths[|outcomes|]])
            case _ => Report(paths, all) == Error
  {
    var all := outcomes + [outcome];
    assert all[..|all| - 1] == outcomes && all[|outcomes|] == outcome;
  }

  lemma Tallied(paths: seq<Path>, outcomes: seq<Outcome>, synced: nat, conflicts: seq<Path>)
    requires Tally(paths, outcomes, synced, conflicts)
    ensures Report(paths, outcomes) == if conflicts == [] then Success(synced) else Conflicts(synced, conflicts)
  {
  }

  lemma AnswerStays(s: Setting, w: World, k: Path, run: seq<Label>, from: nat, to: nat, outcome: Outcome, more: seq<Label>)
    requires LogOk(w) && AnswerAt(s, w, k, run, from, to, outcome)
    ensures AnswerAt(s, w, k, run + more, from, to, outcome)
  {
    hide Run;
    assert (run + more)[from..to] == run[from..to] && (run + more)[..to] == run[..to];
  }

  lemma AnswerArrives(s: Setting, w: World, k: Path, run: seq<Label>, more: seq<Label>, outcome: Outcome)
    requires LogOk(w) && Begin(k) in more && Run(s, w, run + more).phase == Ready(outcome)
    ensures AnswerAt(s, w, k, run + more, |run|, |run + more|, outcome)
  {
    hide Run;
    assert (run + more)[..|run + more|] == run + more && (run + more)[|run|..|run + more|] == more;
  }

  lemma OneMoreAnswer(
    s: Setting, w: World, paths: seq<Path>, outcomes: seq<Outcome>, run: seq<Label>, marks: seq<nat>, more: seq<Label>,
    outcome: Outcome)
    requires LogOk(w) && AnswersAt(s, w, paths, outcomes, run, marks) && |outcomes| < |paths|
    requires Begin(paths[|outcomes|]) in more && Run(s, w, run + more).phase == Ready(outcome)
    ensures AnswersAt(s, w, paths, outcomes + [outcome], run + more, marks + [|run + more|])
  {
    hide AnswerAt, Run, LogOk;
    var marks', outcomes' := marks + [|run + more|], outcomes + [outcome];
    AnswerArrives(s, w, paths[|outcomes|], run, more, outcome);
    forall i | 0 <= i < |marks'|
      ensures AnswerAt(s, w, paths[i], run + more, StartOf(marks', i), marks'[i], outcomes'[i])
    {
      assert StartOf(marks', i) == StartOf(marks, i);
      if i < |marks| {
        AnswerStays(s, w, paths[i], run, StartOf(marks, i), marks[i], outcomes[i], more);
      }
    }
  }

  lemma {:induction false} KeepsInv(s: Setting, w: World, run: seq<Label>)
    requires LogOk(w)
    ensures Honest(s) && Inv(s, w) ==> Inv(s, Run(s, w, run))
  {
    if Honest(s) && Inv(s, w) {
      RunKeepsInv(s, w, run);
    }
  }
}
