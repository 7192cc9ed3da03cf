/** The dirty worker and its index in the form they run: fields changed in place, loops over
    the drained files (sync_engine.rs:180-369, dirty_index.rs). */
module DirtyWorker {
  import opened Common
  import SyncEngine

  /** The set a sequence of files stands for. */
  function ToSet(files: seq<Path>): set<Path> {
    set p | p in files
  }

  class DirtyIndex {
    var paths: set<Path>

    constructor ()
      ensures paths == {}
    {
      paths := {};
    }

    method MarkDirty(p: Path)
      modifies this
      ensures paths == old(paths) + {p}
    {
      paths := paths + {p};
    }

    method MarkClean(p: Path)
      modifies this
      ensures paths == old(paths) - {p}
    {
      paths := paths - {p};
    }

    /** A path is protected when it is dirty or lies inside a dirty directory. */
    method IsProtected(p: Path) returns (r: bool)
      ensures r <==> Covered(paths, p)
    {
      var rest := paths;
      while rest != {}
        invariant rest <= paths
        invariant forall d | d in paths && d <= p :: d in rest
        decreases rest
      {
        var d :| d in rest;
        if d <= p {
          return true;
        }
        rest := rest - {d};
      }
      return false;
    }
  }

  class DirtyWorker {
    const setup: SyncEngine.Setup
    const index: DirtyIndex
    var dirtySet: set<Path>
    var triggerSync: bool
    var deadline: Option<nat>

    function State(): SyncEngine.Worker
      reads this, index
    {
      SyncEngine.Worker(dirtySet, index.paths, triggerSync, deadline)
    }

    constructor (setup: SyncEngine.Setup, index: DirtyIndex)
      requires index.paths == {}
      ensures this.setup == setup && this.index == index
      ensures State() == SyncEngine.Worker({}, {}, false, None)
    {
      this.setup := setup;
      this.index := index;
      dirtySet, triggerSync, deadline := {}, false, None;
    }

    method Touch(p: Path)
      modifies this`dirtySet, index
      ensures State() == SyncEngine.Touch(setup, old(State()), p)
    {
      if setup.tracked(p) {
        index.MarkDirty(p);
      }
      dirtySet := dirtySet + {p};
    }

    /** One received event other than shutdown. */
    method OnEvent(e: SyncEngine.FsEvent, now: nat)
      modifies this, index
      ensures State() == SyncEngine.Absorb(setup, old(State()), e, now)
    {
      match e
      case FileModified(p) =>
        Touch(p);
        deadline := Some(now + setup.debounce);
      case FileClosed(p) =>
        Touch(p);
        triggerSync := true;
      case Flush =>
        triggerSync := true;
      case Shutdown =>
    }

    /** `dirty_set.drain().filter(should_track).collect()`: every tracked dirty path once. */
    method DrainTracked() returns (files: seq<Path>)
      modifies this`dirtySet
      ensures NoDuplicates(files) && ToSet(files) == SyncEngine.Batch(setup, old(dirtySet))
      ensures State() == old(State()).(dirty := {})
    {
      files := [];
      ghost var was := dirtySet;
      while dirtySet != {}
        invariant dirtySet <= was && NoDuplicates(files)
        invariant forall p :: p in files <==> p in was - dirtySet && setup.tracked(p)
        invariant index.paths == old(index.paths)
        decreases dirtySet
      {
        var p :| p in dirtySet;
        dirtySet := dirtySet - {p};
        if setup.tracked(p) {
          files := files + [p];
        }
      }
    }

    /** What the backend's answer does to the drained files. */
    method Settle(files: seq<Path>, result: SyncEngine.SyncResult)
      modifies this`dirtySet, index
      ensures State() == SyncEngine.Settle(old(State()), ToSet(files), result)
    {
      match result
      case Success =>
        for i := 0 to |files|
          invariant dirtySet == old(dirtySet)
          invariant index.paths == old(index.paths) - ToSet(files[..i])
        {
          index.MarkClean(files[i]);
          assert files[..i + 1] == files[..i] + [files[i]];
        }
        assert files[..|files|] == files;
      case Conflict(conflicts) =>
        for i := 0 to |files|
          invariant dirtySet == old(dirtySet)
          invariant index.paths == old(index.paths) - (ToSet(files[..i]) - conflicts) + ToSet(files[..i]) * conflicts
        {
          if files[i] in conflicts {
            index.MarkDirty(files[i]);
          } else {
            index.MarkClean(files[i]);
          }
          assert files[..i + 1] == files[..i] + [files[i]];
        }
        assert files[..|files|] == files;
      case Offline =>
        dirtySet := dirtySet + ToSet(files);
      case Failed =>
        dirtySet := dirtySet + ToSet(files);
    }

    /** `do_sync`, with the answer the backend would give: it is asked only for a non-empty
        batch, and then the answer is settled. */
    method DoSync(answer: SyncEngine.SyncResult) returns (asked: seq<Path>)
      modifies this`dirtySet, index
      ensures NoDuplicates(asked) && ToSet(asked) == SyncEngine.Batch(setup, old(dirtySet))
      ensures State() == if asked == [] then old(State()).(dirty := {})
                         else SyncEngine.Settle(old(State()).(dirty := {}), ToSet(asked), answer)
    {
      asked := DrainTracked();
      if asked == [] {
        return;
      }
      Settle(asked, answer);
    }

    /** The tail of an iteration. */
    method MaybeSync(answer: SyncEngine.SyncResult) returns (asked: seq<Path>)
      modifies this, index
      ensures NoDuplicates(asked)
      ensures if old(triggerSync) && old(dirtySet) != {} then
                ToSet(asked) == SyncEngine.Batch(setup, old(dirtySet))
                && State() == (if asked == [] then old(State()).(dirty := {})
                               else SyncEngine.Settle(old(State()).(dirty := {}), ToSet(asked), answer)).(trigger := false)
              else asked == [] && State() == old(State())
    {
      asked := [];
      if triggerSync && dirtySet != {} {
        asked := DoSync(answer);
        triggerSync := false;
      }
    }
  }

  /** The drained sequence and the batch of the engine model are the same thing, so the
      worker's `MaybeSync` is the engine's start of a sync followed by its answer. */
  lemma IterationMatchesEngine(t: SyncEngine.Setup, e: SyncEngine.Engine, asked: seq<Path>, answer: SyncEngine.SyncResult)
    requires e.phase.Waiting? && e.worker.trigger && e.worker.dirty != {}
    requires ToSet(asked) == SyncEngine.Batch(t, e.worker.dirty)
    ensures var started := SyncEngine.MaybeSync(t, e);
            var ended := SyncEngine.Take(t, started, SyncEngine.Return(answer));
            (started.phase.Syncing? <==> asked != [])
            && ended.phase.Waiting?
            && ended.worker == (if asked == [] then e.worker.(dirty := {})
                                else SyncEngine.Settle(e.worker.(dirty := {}), ToSet(asked), answer)).(trigger := false)
  {
    if asked != [] {
      assert asked[0] in ToSet(asked);
    }
  }
}
