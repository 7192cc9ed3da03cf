/** The sync engine: one dirty worker with its debounce, one poll worker, and the index that
    protects dirty paths from polls (crates/omnifuse-core/src/sync_engine.rs, dirty_index.rs). */
module SyncEngine {
  import opened Common
  import S3World
  import S3Refresh

  datatype FsEvent = FileModified(path: Path) | FileClosed(path: Path) | Flush | Shutdown

  datatype SyncResult = Success | Conflict(files: set<Path>) | Offline | Failed

  const QUEUE_CAPACITY: nat := 256

  /** `should_track`, the debounce, and the instant the inactive timer is parked at. */
  datatype Setup = Setup(tracked: Path -> bool, debounce: nat, farFuture: nat, s3: S3World.Setting)

  /** The dirty worker's variables; no deadline means the timer is parked. */
  datatype Worker = Worker(dirty: set<Path>, index: set<Path>, trigger: bool, deadline: Option<nat>)

  function Touch(t: Setup, w: Worker, p: Path): Worker {
    w.(dirty := w.dirty + {p}, index := if t.tracked(p) then w.index + {p} else w.index)
  }

  /** A received event, before the loop decides whether to sync. */
  function Absorb(t: Setup, w: Worker, e: FsEvent, now: nat): Worker {
    match e
    case FileModified(p) => Touch(t, w, p).(deadline := Some(now + t.debounce))
    case FileClosed(p) => Touch(t, w, p).(trigger := true)
    case Flush => w.(trigger := true)
    case Shutdown => w
  }

  function Batch(t: Setup, dirty: set<Path>): set<Path> {
    set p | p in dirty && t.tracked(p)
  }

  /** What a sync result does to the worker whose dirty set was drained into `batch`. */
  function Settle(w: Worker, batch: set<Path>, result: SyncResult): Worker {
    match result
    case Success => w.(index := w.index - batch)
    case Conflict(files) => w.(index := w.index - (batch - files) + batch * files)
    case Offline => w.(dirty := w.dirty + batch)
    case Failed => w.(dirty := w.dirty + batch)
  }

  datatype Phase = Waiting | Syncing(batch: set<Path>, last: bool) | Stopped

  datatype Engine = Engine(
    worker: Worker,
    phase: Phase,
    queue: seq<FsEvent>,
    now: nat,
    world: S3World.World,
    round: nat,                  // history: iterations of the loop so far
    startedAt: nat,              // history: the iteration that started the latest sync
    lastEvent: map<Path, nat>,   // history: iteration of each path's last consumed event
    delivered: map<Path, nat>,   // history: iteration that started the last answered batch with it
    consumed: nat,               // history: events consumed
    modified: nat,               // history: of these, FileModified
    fired: nat,                  // history: armed debounce timers that fired
    farFired: nat,               // history: parked timers that fired
    syncs: nat)                  // history: backend sync calls

  datatype Label =
    | Enqueue(event: FsEvent)
    | Receive
    | Hangup // the closed, empty channel reads as a shutdown event
    | Fire
    | Return(result: SyncResult)
    | Tick(elapsed: nat)
    | Poll(listing: map<Path, nat>, order: seq<Path>)
    | Outside(world: S3World.World)

  // ---------------------------------------------------------------- transitions

  /** `do_sync` up to the backend call. */
  function Drain(t: Setup, e: Engine, last: bool): Engine {
    var batch := Batch(t, e.worker.dirty);
    var drained := e.(worker := e.worker.(dirty := {}));
    if batch == {} then
      if last then drained.(phase := Stopped) else drained.(worker := drained.worker.(trigger := false))
    else drained.(phase := Syncing(batch, last), syncs := e.syncs + 1, startedAt := e.round)
  }

  /** The tail of every iteration. */
  function MaybeSync(t: Setup, e: Engine): Engine {
    if e.worker.trigger && e.worker.dirty != {} then Drain(t, e, false) else e
  }

  function Stop(t: Setup, e: Engine): Engine {
    if e.worker.dirty != {} then Drain(t, e, true) else e.(phase := Stopped)
  }

  function Noted(e: Engine, ev: FsEvent): Engine {
    var counted := e.(round := e.round + 1, consumed := e.consumed + 1);
    match ev
    case FileModified(p) => counted.(modified := e.modified + 1, lastEvent := e.lastEvent[p := e.round + 1])
    case FileClosed(p) => counted.(lastEvent := e.lastEvent[p := e.round + 1])
    case _ => counted
  }

  function Consume(t: Setup, e: Engine, ev: FsEvent): Engine {
    var noted := Noted(e, ev);
    if ev == Shutdown then Stop(t, noted)
    else MaybeSync(t, noted.(worker := Absorb(t, e.worker, ev, e.now)))
  }

  /** When the pending sleep ends. */
  function WakeAt(t: Setup, e: Engine): nat {
    match e.worker.deadline
    case Some(d) => d
    case None => t.farFuture
  }

  function Expire(t: Setup, e: Engine): Engine {
    var counted := if e.worker.deadline.Some? then e.(fired := e.fired + 1) else e.(farFired := e.farFired + 1);
    MaybeSync(t, counted.(round := e.round + 1, worker := e.worker.(trigger := true, deadline := None)))
  }

  function Answer(e: Engine, batch: set<Path>, last: bool, result: SyncResult): Engine {
    var settled := Settle(e.worker, batch, result);
    e.(worker := settled.(trigger := false),
       phase := if last then Stopped else Waiting,
       delivered := if result.Success? || result.Conflict?
                    then e.delivered + map p | p in batch :: e.startedAt
                    else e.delivered)
  }

  /** One transition; a label that is not enabled changes nothing. */
  ghost function Take(t: Setup, e: Engine, l: Label): Engine {
    match l
    case Enqueue(ev) => if |e.queue| < QUEUE_CAPACITY then e.(queue := e.queue + [ev]) else e
    case Receive =>
      if e.phase.Waiting? && e.queue != [] then Consume(t, e.(queue := e.queue[1..]), e.queue[0]) else e
    case Hangup =>
      if e.phase.Waiting? && e.queue == [] then Consume(t, e, Shutdown) else e
    case Fire =>
      if e.phase.Waiting? && e.worker.dirty != {} && WakeAt(t, e) <= e.now then Expire(t, e) else e
    case Return(result) =>
      if e.phase.Syncing? then Answer(e, e.phase.batch, e.phase.last, result) else e
    case Tick(elapsed) => e.(now := e.now + elapsed)
    case Poll(listing, order) =>
      if S3World.LogOk(e.world) && S3Refresh.Visits(order, S3Refresh.Changes(t.s3, e.world, listing))
      then e.(world := S3Refresh.Refresh(t.s3, e.world, listing, order, e.worker.index, S3Refresh.ApplySafe).0)
      else e
    case Outside(world) => e.(world := world)
  }

  ghost function Run(t: Setup, e: Engine, run: seq<Label>): Engine
    decreases |run|
  {
    if run == [] then e else Take(t, Run(t, e, run[..|run| - 1]), run[|run| - 1])
  }

  predicate Started(e: Engine) {
    e.worker == Worker({}, {}, false, None) && e.phase.Waiting? && e.queue == []
    && e.lastEvent == map[] && e.delivered == map[]
    && e.round == e.startedAt == e.consumed == e.modified == e.fired == e.farFired == e.syncs == 0
  }

  // ---------------------------------------------------------------- the invariant

  /** The path's last event is still to be synced, or a batch started after it was answered. */
  predicate Accounted(e: Engine, p: Path)
    requires p in e.lastEvent
  {
    p in e.worker.dirty
    || (e.phase.Syncing? && p in e.phase.batch && e.lastEvent[p] <= e.startedAt)
    || (p in e.delivered && e.lastEvent[p] <= e.delivered[p])
  }

  ghost predicate NothingDropped(t: Setup, e: Engine) {
    forall p | p in e.lastEvent && t.tracked(p) :: Accounted(e, p)
  }

  ghost predicate DirtyProtected(t: Setup, e: Engine) {
    (forall p | p in e.worker.dirty && t.tracked(p) :: p in e.worker.index)
    && (e.phase.Syncing? ==> e.phase.batch <= e.worker.index)
  }

  ghost predicate Shape(t: Setup, e: Engine) {
    (e.phase.Syncing? ==>
       e.worker.dirty == {} && e.phase.batch != {}
       && forall p | p in e.phase.batch :: t.tracked(p) && (p in e.lastEvent ==> e.lastEvent[p] <= e.startedAt))
    && (e.phase.Waiting? && e.worker.trigger ==> e.worker.dirty == {})
    && (forall p | p in e.lastEvent :: e.lastEvent[p] <= e.round)
  }

  ghost predicate Counted(t: Setup, e: Engine) {
    e.syncs <= e.consumed + e.fired + e.farFired
    && e.fired + (if e.worker.deadline.Some? then 1 else 0) <= e.modified
    && (e.farFired > 0 ==> t.farFuture <= e.now)
  }

  /** One more sync may start in this iteration. */
  ghost predicate Slack(t: Setup, e: Engine) {
    e.syncs < e.consumed + e.fired + e.farFired
    && e.fired + (if e.worker.deadline.Some? then 1 else 0) <= e.modified
    && (e.farFired > 0 ==> t.farFuture <= e.now)
  }

  ghost predicate Inv(t: Setup, e: Engine) {
    NothingDropped(t, e) && DirtyProtected(t, e) && Shape(t, e) && Counted(t, e)
  }

  /** The middle of an iteration: events absorbed, the tail not run yet. */
  ghost predicate Mid(t: Setup, e: Engine) {
    e.phase.Waiting? && NothingDropped(t, e) && DirtyProtected(t, e)
    && (forall p | p in e.lastEvent :: e.lastEvent[p] <= e.round)
  }

  lemma DrainKeeps(t: Setup, e: Engine, last: bool)
    requires Mid(t, e) && e.worker.dirty != {} && (Slack(t, e) || (Counted(t, e) && Batch(t, e.worker.dirty) == {}))
    ensures Inv(t, Drain(t, e, last))
  {
    var after := Drain(t, e, last);
    forall p | p in after.lastEvent && t.tracked(p) ensures Accounted(after, p) {
      assert Accounted(e, p);
      if p in e.worker.dirty {
        assert p in Batch(t, e.worker.dirty);
      }
    }
  }

  lemma SlackIsCounted(t: Setup, e: Engine)
    requires Slack(t, e)
    ensures Counted(t, e)
  {
  }

  lemma MaybeSyncKeeps(t: Setup, e: Engine)
    requires Mid(t, e) && Slack(t, e)
    ensures Inv(t, MaybeSync(t, e))
  {
    SlackIsCounted(t, e);
    if e.worker.trigger && e.worker.dirty != {} {
      DrainKeeps(t, e, false);
    }
  }

  lemma AbsorbIsMid(t: Setup, e: Engine, ev: FsEvent)
    requires Inv(t, e) && e.phase.Waiting? && ev != Shutdown
    ensures var mid := Noted(e, ev).(worker := Absorb(t, e.worker, ev, e.now)); Mid(t, mid) && Slack(t, mid)
  {
    var mid := Noted(e, ev).(worker := Absorb(t, e.worker, ev, e.now));
    forall p | p in mid.lastEvent && t.tracked(p) ensures Accounted(mid, p) {
      if p in e.lastEvent {
        assert Accounted(e, p);
      }
    }
  }

  lemma StopKeeps(t: Setup, e: Engine)
    requires Inv(t, e) && e.phase.Waiting?
    ensures Inv(t, Stop(t, Noted(e, Shutdown)))
  {
    var noted := Noted(e, Shutdown);
    forall p | p in noted.lastEvent && t.tracked(p) ensures Accounted(noted, p) {
      assert Accounted(e, p);
    }
    if e.worker.dirty != {} {
      DrainKeeps(t, noted, true);
    } else {
      forall p | p in noted.lastEvent && t.tracked(p) ensures Accounted(noted.(phase := Stopped), p) {
        assert Accounted(noted, p);
      }
    }
  }

  lemma ExpireKeeps(t: Setup, e: Engine)
    requires Inv(t, e) && e.phase.Waiting? && WakeAt(t, e) <= e.now
    ensures Inv(t, Expire(t, e))
  {
    var counted := if e.worker.deadline.Some? then e.(fired := e.fired + 1) else e.(farFired := e.farFired + 1);
    var mid := counted.(round := e.round + 1, worker := e.worker.(trigger := true, deadline := None));
    forall p | p in mid.lastEvent && t.tracked(p) ensures Accounted(mid, p) {
      assert Accounted(e, p);
    }
    MaybeSyncKeeps(t, mid);
  }

  lemma AnswerKeeps(t: Setup, e: Engine, result: SyncResult)
    requires Inv(t, e) && e.phase.Syncing?
    ensures Inv(t, Answer(e, e.phase.batch, e.phase.last, result))
  {
    var after := Answer(e, e.phase.batch, e.phase.last, result);
    forall p | p in after.lastEvent && t.tracked(p) ensures Accounted(after, p) {
      assert Accounted(e, p);
    }
  }

  lemma ConsumeKeeps(t: Setup, e: Engine, ev: FsEvent)
    requires Inv(t, e) && e.phase.Waiting?
    ensures Inv(t, Consume(t, e, ev))
  {
    if ev == Shutdown {
      StopKeeps(t, e);
    } else {
      AbsorbIsMid(t, e, ev);
      MaybeSyncKeeps(t, Noted(e, ev).(worker := Absorb(t, e.worker, ev, e.now)));
    }
  }

  lemma SameLoopKeeps(t: Setup, a: Engine, b: Engine)
    requires Inv(t, a) && b == a.(queue := b.queue, now := b.now, world := b.world) && a.now <= b.now
    ensures Inv(t, b)
  {
    forall p | p in b.lastEvent && t.tracked(p) ensures Accounted(b, p) {
      assert Accounted(a, p);
    }
  }

  lemma {:induction false} TakeKeeps(t: Setup, e: Engine, l: Label)
    requires Inv(t, e)
    ensures Inv(t, Take(t, e, l))
  {
    hide Inv, Consume, Expire, Answer, S3Refresh.Refresh, S3Refresh.Changes;
    match l
    case Receive =>
      if e.phase.Waiting? && e.queue != [] {
        var popped := e.(queue := e.queue[1..]);
        SameLoopKeeps(t, e, popped);
        ConsumeKeeps(t, popped, e.queue[0]);
      }
    case Hangup => if e.phase.Waiting? && e.queue == [] { ConsumeKeeps(t, e, Shutdown); }
    case Fire => if e.phase.Waiting? && e.worker.dirty != {} && WakeAt(t, e) <= e.now { ExpireKeeps(t, e); }
    case Return(result) => if e.phase.Syncing? { AnswerKeeps(t, e, result); }
    case _ => SameLoopKeeps(t, e, Take(t, e, l));
  }

  lemma {:induction false} RunKeeps(t: Setup, e: Engine, run: seq<Label>)
    requires Inv(t, e)
    ensures Inv(t, Run(t, e, run))
    decreases |run|
  {
    if run != [] {
      hide Inv, Take;
      RunKeeps(t, e, run[..|run| - 1]);
      TakeKeeps(t, Run(t, e, run[..|run| - 1]), run[|run| - 1]);
    }
  }

  // ---------------------------------------------------------------- main results

  /** At every loop head of every run, each tracked path whose modify or close event was
      consumed is in the dirty set, or was in a batch started after that event which the
      backend answered with success or conflict. */
  lemma NoDirtyPathIsDropped(t: Setup, e: Engine, run: seq<Label>, p: Path)
    requires Started(e) && t.tracked(p)
    requires var now := Run(t, e, run); !now.phase.Syncing? && p in now.lastEvent
    ensures var now := Run(t, e, run);
            p in now.worker.dirty || (p in now.delivered && now.lastEvent[p] <= now.delivered[p])
    ensures var now := Run(t, e, run); p in now.worker.dirty ==> p in now.worker.index
  {
    RunKeeps(t, e, run);
    assert Accounted(Run(t, e, run), p);
  }

  /** Until the parked timer's instant, backend syncs are at most the events consumed plus
      the modifications among them. */
  lemma SyncsAreBounded(t: Setup, e: Engine, run: seq<Label>)
    requires Started(e) && Run(t, e, run).now < t.farFuture
    ensures var now := Run(t, e, run); now.syncs <= now.consumed + now.modified
  {
    RunKeeps(t, e, run);
  }

  /** Closing a tracked file starts a sync with it in the same iteration; at a loop head a
      pending trigger has nothing to sync. */
  lemma ClosedFileSyncsAtOnce(t: Setup, e: Engine, run: seq<Label>, p: Path)
    requires Started(e) && t.tracked(p)
    requires var now := Run(t, e, run); now.phase.Waiting? && now.queue != [] && now.queue[0] == FileClosed(p)
    ensures var now := Run(t, e, run);
            var next := Take(t, now, Receive);
            (now.worker.trigger ==> now.worker.dirty == {})
            && next.phase.Syncing? && p in next.phase.batch
            && next.phase.batch == Batch(t, now.worker.dirty + {p}) && next.syncs == now.syncs + 1
            && next.worker.deadline == now.worker.deadline
  {
    RunKeeps(t, e, run);
    var now := Run(t, e, run);
    assert p in Batch(t, now.worker.dirty + {p});
  }

  /** A consumed flush starts a sync at once with exactly the tracked dirty paths; like a
      closed file it leaves a pending debounce alone. */
  lemma FlushSyncsAtOnce(t: Setup, e: Engine, p: Path)
    requires e.phase.Waiting? && e.queue != [] && e.queue[0] == Flush && p in e.worker.dirty && t.tracked(p)
    ensures var next := Take(t, e, Receive);
            next.phase.Syncing? && !next.phase.last && next.syncs == e.syncs + 1 && next.worker.deadline == e.worker.deadline
            && forall q :: q in next.phase.batch <==> q in e.worker.dirty && t.tracked(q)
  {
    assert p in Batch(t, e.worker.dirty);
  }

  /** The queue never holds more than 256 events, and an event is turned away exactly when
      it holds that many. */
  lemma {:induction false} QueueIsBounded(t: Setup, e: Engine, run: seq<Label>, ev: FsEvent)
    requires Started(e)
    ensures var now := Run(t, e, run);
            |now.queue| <= 256
            && (Take(t, now, Enqueue(ev)).queue == now.queue <==> |now.queue| == 256)
            && (|now.queue| < 256 ==> Take(t, now, Enqueue(ev)).queue == now.queue + [ev])
    decreases |run|
  {
    if run != [] {
      var front, l := run[..|run| - 1], run[|run| - 1];
      QueueIsBounded(t, e, front, ev);
      QueueStep(t, Run(t, e, front), l);
    }
    hide Take;
    var now := Run(t, e, run);
    EnqueueStep(t, now, ev);
  }

  lemma EnqueueStep(t: Setup, e: Engine, ev: FsEvent)
    ensures Take(t, e, Enqueue(ev)).queue == if |e.queue| < 256 then e.queue + [ev] else e.queue
  {
  }

  lemma QueueStep(t: Setup, e: Engine, l: Label)
    requires |e.queue| <= 256
    ensures |Take(t, e, l).queue| <= 256
  {
    hide S3Refresh.Refresh, S3Refresh.Changes, S3Refresh.Visits, S3World.LogOk, Batch;
  }

  // ---------------------------------------------------------------- shutdown

  /** The worker's next move is to shut down: a shutdown event is next, or the channel is
      closed and empty. */
  predicate ShutsDown(e: Engine, l: Label) {
    e.phase.Waiting? && ((l.Receive? && e.queue != [] && e.queue[0] == Shutdown) || (l.Hangup? && e.queue == []))
  }

  predicate Undelivered(t: Setup, e: Engine, p: Path) {
    t.tracked(p) && p in e.lastEvent && !(p in e.delivered && e.lastEvent[p] <= e.delivered[p])
  }

  /** The last sync under way, or over, and nothing else any more. */
  predicate Closing(a: Engine, b: Engine, answered: bool) {
    b.syncs == a.syncs && b.phase == if answered then Stopped else a.phase
  }

  predicate Answered(run: seq<Label>) {
    exists i :: 0 <= i < |run| && run[i].Return?
  }

  lemma ClosingStep(t: Setup, e: Engine, l: Label)
    requires e.phase.Stopped? || (e.phase.Syncing? && e.phase.last)
    ensures Closing(e, Take(t, e, l), l.Return?) || (e.phase.Stopped? && Closing(e, Take(t, e, l), true))
  {
    hide S3Refresh.Refresh, S3Refresh.Changes, S3Refresh.Visits, S3World.LogOk;
  }

  /** A worker that began its last sync stops with the first answer, whatever it is, and
      never syncs again. */
  lemma {:induction false} LastSyncEnds(t: Setup, e: Engine, run: seq<Label>)
    requires e.phase.Syncing? && e.phase.last
    ensures Closing(e, Run(t, e, run), Answered(run))
    decreases |run|
  {
    if run != [] {
      var front, l := run[..|run| - 1], run[|run| - 1];
      LastSyncEnds(t, e, front);
      hide Take;
      ClosingStep(t, Run(t, e, front), l);
      assert Answered(run) <==> Answered(front) || l.Return? by {
        if Answered(front) {
          var i :| 0 <= i < |front| && front[i].Return?;
          assert run[i].Return?;
        }
        if Answered(run) && !l.Return? {
          var i :| 0 <= i < |run| && run[i].Return?;
          assert front[i].Return?;
        }
      }
    }
  }

  /** Shutting down syncs once more what is still unsynced: with tracked paths dirty, the
      next step starts a last sync of exactly those, and the worker stops with its answer;
      otherwise it stops at once, and then every tracked edit it consumed has been
      delivered. */
  lemma {:induction false} ShutdownSyncsOnceMore(t: Setup, e: Engine, run: seq<Label>, l: Label, rest: seq<Label>)
    requires Started(e) && ShutsDown(Run(t, e, run), l)
    ensures var now := Run(t, e, run);
            var next := Take(t, now, l);
            if exists p :: p in now.worker.dirty && t.tracked(p) then
              && next.phase.Syncing? && next.syncs == now.syncs + 1
              && (forall p :: p in next.phase.batch <==> p in now.worker.dirty && t.tracked(p))
              && Closing(next, Run(t, next, rest), Answered(rest))
            else
              next.phase.Stopped? && next.syncs == now.syncs && forall p :: !Undelivered(t, next, p)
  {
    RunKeeps(t, e, run);
    var now := Run(t, e, run);
    var next := Take(t, now, l);
    TakeKeeps(t, now, l);
    ShutdownStep(t, now, l);
    hide Take, Run, Inv, Closing, ShutsDown;
    if exists p :: p in now.worker.dirty && t.tracked(p) {
      LastSyncEnds(t, next, rest);
    } else {
      forall p ensures !Undelivered(t, next, p) {
        StoppedHasDelivered(t, next, p);
      }
    }
  }

  lemma ShutdownStep(t: Setup, e: Engine, l: Label)
    requires ShutsDown(e, l)
    ensures var next := Take(t, e, l);
            if exists p :: p in e.worker.dirty && t.tracked(p) then
              && next.phase.Syncing? && next.phase.last && next.syncs == e.syncs + 1
              && (forall p :: p in next.phase.batch <==> p in e.worker.dirty && t.tracked(p))
            else next.phase.Stopped? && next.syncs == e.syncs && next.worker.dirty == {}
  {
    if p :| p in e.worker.dirty && t.tracked(p) {
      assert p in Batch(t, e.worker.dirty);
    } else {
      assert Batch(t, e.worker.dirty) == {};
    }
  }

  lemma StoppedHasDelivered(t: Setup, e: Engine, p: Path)
    requires Inv(t, e) && e.phase.Stopped? && e.worker.dirty == {}
    ensures !Undelivered(t, e, p)
  {
    if t.tracked(p) && p in e.lastEvent {
      assert Accounted(e, p);
    }
  }

  /** A last sync answered with success or conflict leaves no tracked edit undelivered. */
  lemma {:induction false} CleanShutdownDeliversAll(t: Setup, e: Engine, run: seq<Label>, result: SyncResult, p: Path)
    requires Started(e) && (result.Success? || result.Conflict?)
    requires var now := Run(t, e, run); now.phase.Syncing? && now.phase.last
    ensures var stopped := Take(t, Run(t, e, run), Return(result));
            stopped.phase.Stopped? && !Undelivered(t, stopped, p)
  {
    RunKeeps(t, e, run);
    var now := Run(t, e, run);
    TakeKeeps(t, now, Return(result));
    StoppedHasDelivered(t, Take(t, now, Return(result)), p);
  }

  // ---------------------------------------------------------------- protection

  /** This transition is the sync result that takes `p` out of the index. */
  predicate Clears(e: Engine, l: Label, p: Path) {
    l.Return? && e.phase.Syncing? && p in e.phase.batch
    && (l.result.Success? || (l.result.Conflict? && p !in l.result.files))
  }

  lemma OnlyResultsClear(t: Setup, e: Engine, l: Label, p: Path)
    requires p in e.worker.index
    ensures p in Take(t, e, l).worker.index <==> !Clears(e, l, p)
  {
    hide S3Refresh.Refresh, S3Refresh.Changes, Consume, Expire, S3World.LogOk, S3Refresh.Visits;
    match l
    case Receive =>
      if e.phase.Waiting? && e.queue != [] {
        ConsumingKeepsIndexed(t, e.(queue := e.queue[1..]), e.queue[0], p);
      }
    case Hangup => ConsumingKeepsIndexed(t, e, Shutdown, p);
    case Fire => ExpiringKeepsIndexed(t, e, p);
    case _ =>
  }

  lemma ConsumingKeepsIndexed(t: Setup, e: Engine, ev: FsEvent, p: Path)
    requires p in e.worker.index
    ensures p in Consume(t, e, ev).worker.index
  {
    hide Batch;
  }

  lemma ExpiringKeepsIndexed(t: Setup, e: Engine, p: Path)
    requires p in e.worker.index
    ensures p in Expire(t, e).worker.index
  {
    hide Batch;
  }

  ghost predicate NeverCleared(t: Setup, e: Engine, run: seq<Label>, p: Path) {
    forall i | 0 <= i < |run| :: !Clears(Run(t, e, run[..i]), run[i], p)
  }

  lemma {:induction false} StaysIndexed(t: Setup, e: Engine, run: seq<Label>, p: Path)
    requires p in e.worker.index && NeverCleared(t, e, run, p)
    ensures p in Run(t, e, run).worker.index
    decreases |run|
  {
    if run != [] {
      hide Take, Clears;
      var front := run[..|run| - 1];
      forall i | 0 <= i < |front| ensures !Clears(Run(t, e, front[..i]), front[i], p) {
        assert front[..i] == run[..i] && front[i] == run[i];
      }
      StaysIndexed(t, e, front, p);
      assert !Clears(Run(t, e, run[..|run| - 1]), run[|run| - 1], p);
      OnlyResultsClear(t, Run(t, e, front), run[|run| - 1], p);
    }
  }

  /** This transition consumes a modify or close event of `p`. */
  predicate Marks(e: Engine, l: Label, p: Path) {
    l.Receive? && e.phase.Waiting? && e.queue != [] && (e.queue[0] == FileModified(p) || e.queue[0] == FileClosed(p))
  }

  lemma MarksOrStays(t: Setup, e: Engine, l: Label, p: Path)
    requires Inv(t, e) && t.tracked(p)
    ensures p in Take(t, e, l).worker.index <==> Marks(e, l, p) || (p in e.worker.index && !Clears(e, l, p))
  {
    hide S3Refresh.Refresh, S3Refresh.Changes, Consume, Expire, S3World.LogOk, S3Refresh.Visits, NothingDropped, Shape, Counted;
    match l
    case Receive =>
      if e.phase.Waiting? && e.queue != [] {
        ConsumingMarks(t, e.(queue := e.queue[1..]), e.queue[0], p);
      }
    case Hangup => ConsumingMarks(t, e, Shutdown, p);
    case Fire => ExpiringMarks(t, e, p);
    case _ =>
  }

  lemma ConsumingMarks(t: Setup, e: Engine, ev: FsEvent, p: Path)
    requires t.tracked(p)
    ensures p in Consume(t, e, ev).worker.index <==> p in e.worker.index || ev == FileModified(p) || ev == FileClosed(p)
  {
    hide Batch;
  }

  lemma ExpiringMarks(t: Setup, e: Engine, p: Path)
    ensures p in Expire(t, e).worker.index <==> p in e.worker.index
  {
    hide Batch;
  }

  /** The `i`-th transition consumed an event of `p`, and nothing has cleared it since. */
  ghost predicate StandsSince(t: Setup, e: Engine, run: seq<Label>, p: Path, i: nat) {
    i < |run| && Marks(Run(t, e, run[..i]), run[i], p)
    && forall j | i < j < |run| :: !Clears(Run(t, e, run[..j]), run[j], p)
  }

  lemma StandsOneMore(t: Setup, e: Engine, front: seq<Label>, l: Label, p: Path, i: nat)
    requires i < |front|
    ensures StandsSince(t, e, front + [l], p, i)
            <==> StandsSince(t, e, front, p, i) && !Clears(Run(t, e, front), l, p)
  {
    hide Run, Clears, Marks;
    var run := front + [l];
    assert forall j | 0 <= j < |front| :: run[j] == front[j] && run[..j] == front[..j];
    assert run[|front|] == l && run[..|front|] == front;
  }

  lemma StandsFromNow(t: Setup, e: Engine, front: seq<Label>, l: Label, p: Path)
    ensures StandsSince(t, e, front + [l], p, |front|) <==> Marks(Run(t, e, front), l, p)
  {
    assert (front + [l])[..|front|] == front;
    hide Run, Clears, Marks;
  }

  /** Protection is exactly this: a tracked path is in the index if and only if one of its
      events was consumed and no sync result has cleared it since. An event that is only
      queued protects nothing. */
  lemma {:induction false} IndexedExactly(t: Setup, e: Engine, run: seq<Label>, p: Path)
    requires Started(e) && t.tracked(p)
    ensures p in Run(t, e, run).worker.index <==> exists i: nat :: StandsSince(t, e, run, p, i)
    decreases |run|
  {
    if run == [] {
      assert forall i: nat :: !StandsSince(t, e, run, p, i);
    } else {
      var front, l := run[..|run| - 1], run[|run| - 1];
      assert run == front + [l];
      IndexedExactly(t, e, front, p);
      RunKeeps(t, e, front);
      MarksOrStays(t, Run(t, e, front), l, p);
      StandsFromNow(t, e, front, l, p);
      forall i: nat | i < |front|
        ensures StandsSince(t, e, run, p, i) <==> StandsSince(t, e, front, p, i) && !Clears(Run(t, e, front), l, p)
      {
        StandsOneMore(t, e, front, l, p, i);
      }
      hide Marks, Clears, Take, Inv;
      OnlyWithin(t, e, run, p);
      OnlyWithin(t, e, front, p);
      hide StandsSince;
    }
  }

  lemma OnlyWithin(t: Setup, e: Engine, run: seq<Label>, p: Path)
    ensures forall i: nat | StandsSince(t, e, run, p, i) :: i < |run|
  {
  }

  /** From the moment the modify or close event of a tracked path is consumed until a sync
      result clears it, also while a sync is in flight, no poll changes the local bytes,
      base or manifest entry of that path or of anything below it. */
  lemma {:induction false} PollsSpareDirtyPaths(t: Setup, e: Engine, ev: FsEvent, run: seq<Label>, q: Path, i: nat)
    requires e.phase.Waiting? && e.queue != [] && e.queue[0] == ev
    requires (ev.FileModified? || ev.FileClosed?) && t.tracked(ev.path) && ev.path <= q
    requires NeverCleared(t, Take(t, e, Receive), run, ev.path)
    requires i < |run| && run[i].Poll?
    ensures var start := Take(t, e, Receive);
            S3World.ViewOf(Run(t, start, run[..i + 1]).world, q) == S3World.ViewOf(Run(t, start, run[..i]).world, q)
  {
    var start := Take(t, e, Receive);
    assert ev.path in start.worker.index;
    var before := Run(t, start, run[..i]);
    forall j | 0 <= j < |run[..i]| ensures !Clears(Run(t, start, run[..i][..j]), run[..i][j], ev.path) {
      assert run[..i][..j] == run[..j];
    }
    hide Take, Clears;
    StaysIndexed(t, start, run[..i], ev.path);
    assert run[..i + 1][..i] == run[..i];
    PollSparesCovered(t, before, run[i], q);
  }

  lemma {:induction false} PollSparesCovered(t: Setup, e: Engine, l: Label, q: Path)
    requires l.Poll? && Covered(e.worker.index, q)
    ensures S3World.ViewOf(Take(t, e, l).world, q) == S3World.ViewOf(e.world, q)
  {
    if S3World.LogOk(e.world) && S3Refresh.Visits(l.order, S3Refresh.Changes(t.s3, e.world, l.listing)) {
      S3Refresh.RefreshSparesCovered(t.s3, e.world, l.listing, l.order, e.worker.index, S3Refresh.ApplySafe, q);
    }
  }

  // ---------------------------------------------------------------- where the promises stop

  /** The bound needs the parked timer to stay in the future: from its instant on, a dirty
      path and an unreachable remote make the worker sync without end and without events. */
  lemma {:induction false} ParkedTimerSpins(t: Setup, e: Engine, p: Path, n: nat) returns (run: seq<Label>)
    requires e.phase.Waiting? && e.worker.dirty == {p} && t.tracked(p)
    requires e.worker.deadline.None? && t.farFuture <= e.now
    ensures var now := Run(t, e, run);
            now.syncs == e.syncs + n && now.consumed == e.consumed && now.modified == e.modified
            && now.phase.Waiting? && now.worker.dirty == {p} && now.worker.deadline.None? && now.now == e.now
  {
    if n == 0 {
      run := [];
    } else {
      var shorter := ParkedTimerSpins(t, e, p, n - 1);
      var before := Run(t, e, shorter);
      hide Take;
      SpinOnce(t, before, p);
      RunOneMore(t, e, shorter, Fire);
      RunOneMore(t, e, shorter + [Fire], Return(Offline));
      run := shorter + [Fire] + [Return(Offline)];
    }
  }

  lemma SpinOnce(t: Setup, e: Engine, p: Path)
    requires e.phase.Waiting? && e.worker.dirty == {p} && t.tracked(p)
    requires e.worker.deadline.None? && t.farFuture <= e.now
    ensures var now := Take(t, Take(t, e, Fire), Return(Offline));
            now.syncs == e.syncs + 1 && now.consumed == e.consumed && now.modified == e.modified
            && now.phase.Waiting? && now.worker.dirty == {p} && now.worker.deadline.None? && now.now == e.now
  {
    assert Batch(t, {p}) == {p};
    var fired := Take(t, e, Fire);
    assert fired.phase == Syncing({p}, false) && fired.syncs == e.syncs + 1;
  }

  lemma {:induction false} RunOneMore(t: Setup, e: Engine, run: seq<Label>, l: Label)
    ensures Run(t, e, run + [l]) == Take(t, Run(t, e, run), l)
  {
    hide Take;
    assert (run + [l])[..|run|] == run;
  }

  /** From a fresh start: one closed file and one unreachable remote are enough. */
  lemma {:induction false} ParkedTimerSpinsFromTheStart(t: Setup, e: Engine, p: Path, n: nat) returns (run: seq<Label>)
    requires Started(e) && t.tracked(p)
    ensures var now := Run(t, e, run); now.consumed == 1 && now.modified == 0 && now.syncs == n + 1
  {
    var start := [Enqueue(FileClosed(p)), Receive, Return(Offline), Tick(t.farFuture)];
    OfflineStart(t, e, p);
    var spins := ParkedTimerSpins(t, Run(t, e, start), p, n);
    run := start + spins;
    RunConcat(t, e, start, spins);
  }

  lemma OfflineStart(t: Setup, e: Engine, p: Path)
    requires Started(e) && t.tracked(p)
    ensures var now := Run(t, e, [Enqueue(FileClosed(p)), Receive, Return(Offline), Tick(t.farFuture)]);
            && now.phase.Waiting? && now.worker.dirty == {p} && now.worker.deadline.None? && t.farFuture <= now.now
            && now.consumed == 1 && now.modified == 0 && now.syncs == 1
  {
    var run := [Enqueue(FileClosed(p)), Receive, Return(Offline), Tick(t.farFuture)];
    assert run[..0] == [] && run[..1][..0] == run[..0] && run[..2][..1] == run[..1] && run[..3][..2] == run[..2];
    assert run[..4] == run && run[..|run| - 1] == run[..3];
    assert Run(t, e, run[..1]) == e.(queue := [FileClosed(p)]);
    assert Batch(t, {} + {p}) == {p};
    var e2 := Run(t, e, run[..2]);
    assert e2.phase == Syncing({p}, false) && e2.syncs == 1;
  }

  lemma {:induction false} RunConcat(t: Setup, e: Engine, a: seq<Label>, b: seq<Label>)
    ensures Run(t, e, a + b) == Run(t, Run(t, e, a), b)
    decreases |b|
  {
    hide Take;
    if b == [] {
      assert a + b == a;
    } else {
      var front, last := b[..|b| - 1], b[|b| - 1];
      RunConcat(t, e, a, front);
      assert (a + b)[..|a + b| - 1] == a + front && (a + b)[|a + b| - 1] == last;
    }
  }

  /** So an edit queued while its own path is being synced is unprotected once that sync
      succeeds. */
  lemma QueuedEditIsUnprotected(t: Setup, e: Engine, p: Path)
    requires Started(e) && t.tracked(p)
    ensures var run := [Enqueue(FileClosed(p)), Receive, Enqueue(FileModified(p)), Return(Success)];
            var now := Run(t, e, run);
            now.phase.Waiting? && now.queue == [FileModified(p)] && p !in now.worker.index
  {
    var run := [Enqueue(FileClosed(p)), Receive, Enqueue(FileModified(p)), Return(Success)];
    assert run[..0] == [] && run[..1][..0] == run[..0] && run[..2][..1] == run[..1] && run[..3][..2] == run[..2];
    assert run[..4] == run && run[..|run| - 1] == run[..3];
    assert Run(t, e, run[..1]) == e.(queue := [FileClosed(p)]);
    assert Batch(t, {} + {p}) == {p};
    var e2 := Run(t, e, run[..2]);
    assert e2.phase == Syncing({p}, false) && e2.worker.index == {p} && e2.queue == [];
    var e3 := Run(t, e, run[..3]);
    assert e3 == e2.(queue := [FileModified(p)]);
  }
}
