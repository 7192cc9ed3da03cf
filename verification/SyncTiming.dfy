/** When the dirty worker syncs, over runs in which it consumes no event
    (crates/omnifuse-core/src/sync_engine.rs:191-243). */
module SyncTiming {
  import opened Common
  import opened SyncEngine
  import S3World
  import S3Refresh

  /** Time passes, polls run, events queue up, timers fire, syncs are answered; but the
      worker consumes no event. */
  predicate Quiet(run: seq<Label>) {
    forall i | 0 <= i < |run| :: !run[i].Receive? && !run[i].Hangup?
  }

  /** The worker stands where it stood. */
  predicate Idle(a: Engine, b: Engine) {
    b.phase == a.phase && b.worker == a.worker && b.syncs == a.syncs && a.now <= b.now
  }

  lemma QuietStep(t: Setup, e: Engine, l: Label)
    requires e.phase.Waiting? && !l.Receive? && !l.Hangup?
    ensures (l.Fire? && e.worker.dirty != {} && WakeAt(t, e) <= e.now) || Idle(e, Take(t, e, l))
  {
    hide S3Refresh.Refresh, S3Refresh.Changes, S3Refresh.Visits, S3World.LogOk, Expire;
  }

  lemma TimeMovesOn(t: Setup, e: Engine, l: Label)
    ensures e.now <= Take(t, e, l).now
  {
    hide S3Refresh.Refresh, S3Refresh.Changes, S3Refresh.Visits, S3World.LogOk, Consume, Expire;
    match l
    case Receive => if e.queue != [] { KeepsTime(t, e.(queue := e.queue[1..]), e.queue[0]); }
    case Hangup => KeepsTime(t, e, Shutdown);
    case Fire => KeepsTime(t, e, Shutdown);
    case _ =>
  }

  lemma KeepsTime(t: Setup, e: Engine, ev: FsEvent)
    ensures Consume(t, e, ev).now == e.now && Expire(t, e).now == e.now
  {
    hide Batch;
  }

  /** Until the pending sleep ends nothing is synced; and if something has been, the first
      sync started when the sleep had ended. */
  lemma {:induction false} SleepsUntilDue(t: Setup, e: Engine, run: seq<Label>) returns (i: nat)
    requires e.phase.Waiting? && Quiet(run)
    ensures var later := Run(t, e, run);
            && e.now <= later.now
            && (later.now < WakeAt(t, e) ==> Idle(e, later))
            && (!Idle(e, later) ==>
                  i < |run| && run[i].Fire? && e.worker.dirty != {} && Idle(e, Run(t, e, run[..i]))
                  && WakeAt(t, e) <= Run(t, e, run[..i]).now)
    decreases |run|
  {
    i := 0;
    if run != [] {
      hide Take;
      var front, l := run[..|run| - 1], run[|run| - 1];
      i := SleepsUntilDue(t, e, front);
      var before := Run(t, e, front);
      TimeMovesOn(t, before, l);
      if Idle(e, before) {
        QuietStep(t, before, l);
        if !Idle(e, Run(t, e, run)) {
          i := |run| - 1;
        }
      } else {
        assert front[..i] == run[..i];
      }
    }
  }

  /** A modified tracked file is synced with the first timer that fires once the debounce
      period has passed since its last modification was consumed, and not before, whatever
      else happens short of another event being consumed. */
  lemma {:induction false} ModifiedFileSyncsAfterDebounce(t: Setup, e: Engine, run: seq<Label>, p: Path, quiet: seq<Label>)
    returns (i: nat)
    requires Started(e) && t.tracked(p) && Quiet(quiet)
    requires var now := Run(t, e, run); now.phase.Waiting? && now.queue != [] && now.queue[0] == FileModified(p)
    ensures var now := Run(t, e, run);
            var next := Take(t, now, Receive);
            var later := Run(t, next, quiet);
            if next.phase.Waiting? then
              && (later.now < now.now + t.debounce ==> Idle(next, later))
              && (Idle(next, later) && now.now + t.debounce <= later.now ==> StartsSyncOf(t, later, p))
              && (!Idle(next, later) ==>
                    i < |quiet| && quiet[i].Fire? && now.now + t.debounce <= Run(t, next, quiet[..i]).now
                    && StartsSyncOf(t, Run(t, next, quiet[..i]), p))
            else next.phase.Syncing? && p in next.phase.batch
  {
    RunKeeps(t, e, run);
    var now := Run(t, e, run);
    ReceiveModified(t, now, p);
    i := 0;
    hide Run, Take;
    var next := Take(t, now, Receive);
    if next.phase.Waiting? {
      i := SleepsUntilDue(t, next, quiet);
      var later := Run(t, next, quiet);
      if Idle(next, later) {
        if WakeAt(t, next) <= later.now {
          DueFileSyncs(t, later, p);
        }
      } else {
        DueFileSyncs(t, Run(t, next, quiet[..i]), p);
      }
    }
  }

  /** The timer firing now starts a sync with `p` in the batch. */
  ghost predicate StartsSyncOf(t: Setup, e: Engine, p: Path) {
    var fired := Take(t, e, Fire); fired.phase.Syncing? && p in fired.phase.batch && fired.syncs == e.syncs + 1
  }

  lemma ReceiveModified(t: Setup, e: Engine, p: Path)
    requires Inv(t, e) && t.tracked(p) && e.phase.Waiting? && e.queue != [] && e.queue[0] == FileModified(p)
    ensures var next := Take(t, e, Receive);
            if next.phase.Waiting? then p in next.worker.dirty && next.worker.deadline == Some(e.now + t.debounce)
            else next.phase.Syncing? && p in next.phase.batch
  {
    assert p in Batch(t, e.worker.dirty + {p});
  }

  lemma DueFileSyncs(t: Setup, e: Engine, p: Path)
    requires t.tracked(p) && e.phase.Waiting? && p in e.worker.dirty && WakeAt(t, e) <= e.now
    ensures StartsSyncOf(t, e, p)
  {
    assert p in Batch(t, e.worker.dirty);
  }

  /** A batch that came back offline or failed stays dirty, but nothing retries it: with no
      debounce pending, no sync starts before the parked timer's instant until the worker
      consumes another event. */
  lemma {:induction false} RetryWaitsForAnEvent(t: Setup, e: Engine, result: SyncResult, run: seq<Label>)
    requires e.phase.Syncing? && !e.phase.last && (result.Offline? || result.Failed?) && e.worker.deadline.None?
    requires Quiet(run) && Run(t, Take(t, e, Return(result)), run).now < t.farFuture
    ensures var failed := Take(t, e, Return(result));
            var later := Run(t, failed, run);
            && e.phase.batch <= failed.worker.dirty && failed.phase.Waiting?
            && Idle(failed, later)
  {
    var failed := Take(t, e, Return(result));
    var i := SleepsUntilDue(t, failed, run);
  }

  // ---------------------------------------------------------------- text merged by a refresh

  /** `p` is in no batch and will be in none without an event. */
  predicate Unseen(e: Engine, p: Path) {
    p !in e.worker.dirty && (e.phase.Syncing? ==> p !in e.phase.batch)
  }

  lemma StaysUnseen(t: Setup, e: Engine, l: Label, p: Path)
    requires Unseen(e, p) && !Marks(e, l, p)
    ensures Unseen(Take(t, e, l), p)
  {
    hide S3Refresh.Refresh, S3Refresh.Changes, S3Refresh.Visits, S3World.LogOk, Consume, Expire;
    match l
    case Receive =>
      if e.phase.Waiting? && e.queue != [] {
        ConsumingUnseen(t, e.(queue := e.queue[1..]), e.queue[0], p);
      }
    case Hangup => if e.phase.Waiting? { ConsumingUnseen(t, e, Shutdown, p); }
    case Fire => if e.phase.Waiting? { ExpiringUnseen(t, e, p); }
    case _ =>
  }

  lemma ConsumingUnseen(t: Setup, e: Engine, ev: FsEvent, p: Path)
    requires p !in e.worker.dirty && e.phase.Waiting? && ev != FileModified(p) && ev != FileClosed(p)
    ensures Unseen(Consume(t, e, ev), p)
  {
  }

  lemma ExpiringUnseen(t: Setup, e: Engine, p: Path)
    requires p !in e.worker.dirty && e.phase.Waiting?
    ensures Unseen(Expire(t, e), p)
  {
  }

  lemma {:induction false} UnseenWithoutEvents(t: Setup, e: Engine, run: seq<Label>, p: Path)
    requires Unseen(e, p) && forall i | 0 <= i < |run| :: !Marks(Run(t, e, run[..i]), run[i], p)
    ensures Unseen(Run(t, e, run), p)
    decreases |run|
  {
    if run != [] {
      hide Take, Marks, Unseen;
      var front := run[..|run| - 1];
      forall i | 0 <= i < |front|
        ensures !Marks(Run(t, e, front[..i]), front[i], p)
      {
        assert front[..i] == run[..i] && front[i] == run[i];
      }
      UnseenWithoutEvents(t, e, front, p);
      assert run[..|run| - 1] == front;
      StaysUnseen(t, Run(t, e, front), run[|run| - 1], p);
    }
  }

  /** Text that a refresh merged into a file is not uploaded by itself: the poll marks nothing
      dirty, and the file is in no batch until an event of its own is consumed. */
  lemma {:induction false} MergedTextWaitsForAnEdit(
    t: Setup, e: Engine, listing: map<Path, nat>, order: seq<Path>, p: Path, merged: S3Refresh.Plan, run: seq<Label>)
    requires S3World.LogOk(e.world) && S3Refresh.Visits(order, S3Refresh.Changes(t.s3, e.world, listing)) && p in order
    requires merged.WriteMerged? && S3Refresh.Classify(t.s3, e.world, listing, p) == Some(merged)
    requires S3Refresh.Refresh(t.s3, e.world, listing, order, e.worker.index, S3Refresh.ApplySafe).1.Applied?
    requires Unseen(e, p)
    requires var polled := Take(t, e, Poll(listing, order));
             forall i | 0 <= i < |run| :: !Marks(Run(t, polled, run[..i]), run[i], p)
    ensures var polled := Take(t, e, Poll(listing, order));
            && Lookup(polled.world.local, p) == Some(merged.merged)
            && polled.worker == e.worker
            && Unseen(Run(t, polled, run), p)
  {
    PollMerges(t, e, listing, order, p, merged);
    hide S3Refresh.Refresh, S3Refresh.Classify, S3Refresh.Changes, S3Refresh.Visits, S3World.LogOk, Run, Marks, Take;
    UnseenWithoutEvents(t, Take(t, e, Poll(listing, order)), run, p);
  }

  lemma PollMerges(t: Setup, e: Engine, listing: map<Path, nat>, order: seq<Path>, p: Path, merged: S3Refresh.Plan)
    requires S3World.LogOk(e.world) && S3Refresh.Visits(order, S3Refresh.Changes(t.s3, e.world, listing)) && p in order
    requires merged.WriteMerged? && S3Refresh.Classify(t.s3, e.world, listing, p) == Some(merged)
    requires S3Refresh.Refresh(t.s3, e.world, listing, order, e.worker.index, S3Refresh.ApplySafe).1.Applied?
    ensures var polled := Take(t, e, Poll(listing, order));
            Lookup(polled.world.local, p) == Some(merged.merged) && polled == e.(world := polled.world)
  {
    hide S3Refresh.Refresh, S3Refresh.Classify, S3Refresh.Changes, S3Refresh.Visits, S3World.LogOk;
    var polled := Take(t, e, Poll(listing, order));
    S3Refresh.RefreshKeywise(t.s3, e.world, listing, order, e.worker.index, S3Refresh.ApplySafe, p);
    assert S3World.ViewOf(polled.world, p).local == Lookup(polled.world.local, p);
  }
}
