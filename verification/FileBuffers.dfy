/** The buffer cache in the form it runs: shared buffer objects, an LRU queue and a counter
    changed in place (buffer.rs, file_mutations.rs). Each method is one atomic step. */
module FileBuffers {
  import opened Common
  import BufferStore
  import BufferRefinement
  import SyncEngine

  /** The working directory and the clock that stamps it. */
  class Disk {
    var files: map<Path, BufferRefinement.File>
    var clock: nat

    method Write(p: Path, bytes: Bytes)
      modifies this
      ensures clock == old(clock) + 1
      ensures files == old(files)[p := BufferRefinement.File(bytes, clock)]
    {
      clock := clock + 1;
      files := files[p := BufferRefinement.File(bytes, clock)];
    }

    method Now() returns (t: nat)
      modifies this`clock
      ensures t == clock == old(clock) + 1
    {
      clock := clock + 1;
      t := clock;
    }
  }

  class FileBuffer {
    const path: Path
    var content: Bytes
    var dirty: bool
    var mtime: nat
    var size: nat

    function State(): BufferStore.Buf
      reads this
    {
      BufferStore.Buf(content, dirty, mtime, size)
    }

    constructor WithMtime(path: Path, content: Bytes, mtime: nat)
      ensures this.path == path && State() == BufferStore.NewBuf(content, mtime)
    {
      this.path, this.content, this.dirty, this.mtime, this.size := path, content, false, mtime, |content|;
    }

    method Read(offset: nat, count: nat) returns (r: Bytes)
      ensures r == BufferStore.ReadAt(content, offset, count)
    {
      var end := if offset + count < |content| then offset + count else |content|;
      if offset >= |content| {
        return [];
      }
      return content[offset..end];
    }

    method Write(offset: nat, data: Bytes, now: nat) returns (n: nat)
      modifies this
      ensures n == |data| && State() == BufferStore.Written(old(State()), offset, data, now)
    {
      if offset + |data| > |content| {
        content := content + BufferStore.Zeros(offset + |data| - |content|);
      }
      content := content[..offset] + data + content[offset + |data|..];
      dirty := true;
      size := |content|;
      mtime := now;
      n := |data|;
    }

    method Truncate(newSize: nat, now: nat)
      modifies this
      ensures State() == BufferStore.Truncated(old(State()), newSize, now)
    {
      if newSize < |content| {
        content := content[..newSize];
      }
      size := newSize;
      dirty := true;
      mtime := now;
    }

    method MarkFlushed(stamp: nat)
      modifies this
      ensures State() == old(State()).(dirty := false, mtime := stamp)
    {
      dirty := false;
      mtime := stamp;
    }
  }

  class FileBufferManager {
    const limits: BufferStore.Limits
    const disk: Disk
    var buffers: map<Path, FileBuffer>
    var lruOrder: seq<Path>
    var memoryUsage: nat

    predicate Valid()
      reads this, buffers.Values
    {
      forall p | p in buffers :: buffers[p].path == p
    }

    function View(): BufferStore.Store
      reads this, buffers.Values
    {
      BufferStore.Store(map p | p in buffers :: buffers[p].State(), lruOrder, memoryUsage)
    }

    function System(): BufferRefinement.Sys
      reads this, buffers.Values, disk
    {
      BufferRefinement.Sys(limits, View(), disk.files, disk.clock)
    }

    constructor (limits: BufferStore.Limits, disk: Disk)
      ensures this.limits == limits && this.disk == disk && Valid()
      ensures View() == BufferStore.Store(map[], [], 0)
    {
      this.limits, this.disk := limits, disk;
      buffers, lruOrder, memoryUsage := map[], [], 0;
    }

    /** Drop the first occurrence of `p` from the queue. */
    method Unqueue(p: Path)
      modifies this`lruOrder
      ensures lruOrder == BufferStore.Without(old(lruOrder), p)
    {
      var i := 0;
      while i < |lruOrder| && lruOrder[i] != p
        invariant i <= |lruOrder| && lruOrder == old(lruOrder)
        invariant forall j | 0 <= j < i :: lruOrder[j] != p
      {
        i := i + 1;
      }
      BufferStore.WithoutFirst(lruOrder, p, i);
      if i < |lruOrder| {
        lruOrder := lruOrder[..i] + lruOrder[i + 1..];
      }
    }

    method Touch(p: Path)
      requires Valid()
      modifies this`lruOrder
      ensures Valid() && View() == BufferStore.Touched(old(View()), p)
    {
      Unqueue(p);
      lruOrder := lruOrder + [p];
    }

    method MaybeEvict(additional: nat)
      requires Valid()
      modifies this
      ensures Valid() && (forall p | p in buffers :: p in old(buffers) && buffers[p] == old(buffers)[p])
      ensures View() == BufferStore.Evict(old(View()), additional, limits.maxMemory)
    {
      hide BufferStore.EvictLoop;
      BufferStore.EvictStarts(View(), additional, limits.maxMemory);
      if memoryUsage + additional <= limits.maxMemory {
        return;
      }
      var maxAttempts := |lruOrder|;
      var attempts := 0;
      ghost var goal := BufferStore.Evict(View(), additional, limits.maxMemory);
      while memoryUsage + additional > limits.maxMemory
        invariant attempts < maxAttempts || lruOrder == []
        invariant Valid() && forall p | p in buffers :: p in old(buffers) && buffers[p] == old(buffers)[p]
        invariant BufferStore.EvictLoop(View(), additional, limits.maxMemory, attempts, maxAttempts) == goal
        decreases maxAttempts - attempts, |lruOrder|
      {
        if lruOrder == [] {
          break;
        }
        ghost var before := View();
        BufferStore.EvictLoopUnfolds(before, additional, limits.maxMemory, attempts, maxAttempts);
        var oldest := lruOrder[0];
        lruOrder := lruOrder[1..];
        if oldest in buffers {
          var buffer := buffers[oldest];
          assert before.buffers[oldest] == buffer.State();
          if buffer.dirty {
            lruOrder := lruOrder + [oldest];
            attempts := attempts + 1;
            assert View() == before.(lru := before.lru[1..] + [oldest]);
            if attempts >= maxAttempts {
              return;
            }
            continue;
          }
          var size := buffer.size;
          buffers := buffers - {oldest};
          memoryUsage := BufferStore.Minus(memoryUsage, size);
          assert View().buffers == before.buffers - {oldest};
        } else {
          assert View() == before.(lru := before.lru[1..]);
        }
      }
      BufferStore.EvictLoopStops(View(), additional, limits.maxMemory, attempts, maxAttempts);
    }

    method CacheWithMtime(p: Path, content: Bytes, mtime: nat) returns (buffer: FileBuffer, ghost evicted: nat)
      requires Valid()
      modifies this
      ensures Valid() && fresh(buffer) && p in buffers && buffers[p] == buffer
      ensures buffer.State() == BufferStore.NewBuf(content, mtime)
      ensures forall q | q in buffers && q != p :: q in old(buffers) && buffers[q] == old(buffers)[q]
      ensures View() == BufferStore.Cached(limits, old(View()), p, content, mtime)
      ensures BufferStore.FiledIn(limits, old(View()), View(), p, content, mtime, evicted)
    {
      hide BufferStore.Evict, BufferStore.FiledIn;
      ghost var was := View();
      evicted := BufferStore.CachingMakesRoomExactly(limits, View(), p, content, mtime);
      if limits.evicting {
        MaybeEvict(|content|);
      }
      ghost var roomy := View();
      assert roomy == BufferStore.MadeRoom(limits, was, |content|);
      hide BufferStore.MadeRoom;
      buffer := new FileBuffer.WithMtime(p, content, mtime);
      buffers := buffers[p := buffer];
      lruOrder := lruOrder + [p];
      memoryUsage := memoryUsage + |content|;
      assert View().buffers == roomy.buffers[p := BufferStore.NewBuf(content, mtime)];
    }

    method Remove(p: Path)
      requires Valid()
      modifies this
      ensures Valid() && buffers == old(buffers) - {p}
      ensures View() == BufferStore.Removed(old(View()), p)
    {
      if p in buffers {
        var size := buffers[p].size;
        ghost var before := View();
        buffers := buffers - {p};
        memoryUsage := BufferStore.Minus(memoryUsage, size);
        Unqueue(p);
        assert View().buffers == before.buffers - {p};
      }
    }

    method GetOrLoad(p: Path) returns (buffer: FileBuffer?)
      requires Valid()
      modifies this
      ensures Valid() && System() == BufferRefinement.GetOrLoad(old(System()), p).0
      ensures match BufferRefinement.GetOrLoad(old(System()), p).1
              case Some(bytes) => buffer != null && p in buffers && buffers[p] == buffer && buffer.content == bytes
              case None => buffer == null
    {
      if p in buffers {
        buffer := buffers[p];
        assert View().buffers[p] == buffer.State();
        if buffer.dirty {
          Touch(p);
          return;
        }
        if p in disk.files {
          var file := disk.files[p];
          if file.mtime > buffer.mtime {
            Remove(p);
            var filed, _ := CacheWithMtime(p, file.bytes, file.mtime);
            buffer := filed;
            return;
          }
        }
        Touch(p);
        return;
      }
      if p !in disk.files {
        return null;
      }
      var filed, _ := CacheWithMtime(p, disk.files[p].bytes, disk.files[p].mtime);
      buffer := filed;
    }

    method Flush(p: Path)
      requires Valid()
      modifies buffers.Values, disk
      ensures Valid() && System() == BufferRefinement.FlushOne(old(System()), p)
    {
      if p !in buffers {
        return;
      }
      var buffer := buffers[p];
      assert View().buffers[p] == buffer.State();
      if !buffer.dirty {
        return;
      }
      ghost var before := View();
      disk.Write(p, buffer.content);
      buffer.MarkFlushed(disk.clock);
      assert View().buffers == before.buffers[p := buffer.State()];
    }

    /** Flush every dirty buffer, in some order. */
    method FlushAll() returns (ghost order: seq<Path>)
      requires Valid()
      modifies buffers.Values, disk
      ensures Valid() && System() == BufferRefinement.FlushEach(old(System()), order)
      ensures forall p | p in buffers && old(buffers[p].dirty) :: p in order
    {
      var rest := set p | p in buffers && buffers[p].dirty;
      order := [];
      while rest != {}
        invariant Valid() && System() == BufferRefinement.FlushEach(old(System()), order)
        invariant forall p | p in buffers && old(buffers[p].dirty) :: p in order || p in rest
        decreases rest
      {
        var p :| p in rest;
        rest := rest - {p};
        ghost var was := order;
        order := order + [p];
        assert order[..|order| - 1] == was;
        Flush(p);
      }
    }

    method Clear() returns (ghost order: seq<Path>)
      requires Valid()
      modifies this, buffers.Values, disk
      ensures Valid() && BufferRefinement.Harmless(old(System()), BufferRefinement.Clear(order))
      ensures System() == BufferRefinement.Do(old(System()), BufferRefinement.Clear(order))
    {
      order := FlushAll();
      buffers, memoryUsage, lruOrder := map[], 0, [];
      assert View().buffers == map[];
    }
  }

  /** The bounded event channel: a full channel drops the event. */
  function SentTo(queue: seq<SyncEngine.FsEvent>, e: SyncEngine.FsEvent): seq<SyncEngine.FsEvent> {
    if |queue| < SyncEngine.QUEUE_CAPACITY then queue + [e] else queue
  }

  class DirtySink {
    var queue: seq<SyncEngine.FsEvent>

    method Send(e: SyncEngine.FsEvent) returns (sent: bool)
      modifies this
      ensures sent <==> |old(queue)| < SyncEngine.QUEUE_CAPACITY
      ensures queue == SentTo(old(queue), e)
    {
      sent := |queue| < SyncEngine.QUEUE_CAPACITY;
      if sent {
        queue := queue + [e];
      }
    }
  }

  /** One open file: a handle on a buffer that the cache may have dropped since. */
  class OpenFileMutation {
    const path: Path
    const buffer: FileBuffer
    const manager: FileBufferManager
    const sink: DirtySink
    var dirtyNotified: bool

    predicate Valid()
      reads this, manager, manager.buffers.Values
    {
      manager.Valid() && buffer.path == path
    }

    /** The handle's buffer is still the cached one; eviction, reloading, unlinking, renaming
        and re-creating the file all end this. */
    predicate Attached()
      reads this, manager
    {
      path in manager.buffers && manager.buffers[path] == buffer
    }

    constructor (path: Path, buffer: FileBuffer, manager: FileBufferManager, sink: DirtySink)
      ensures this.path == path && this.buffer == buffer && this.manager == manager && this.sink == sink
    {
      this.path, this.buffer, this.manager, this.sink, this.dirtyNotified := path, buffer, manager, sink, false;
    }

    method WriteBuffer(offset: nat, data: Bytes) returns (n: nat)
      requires Valid()
      modifies buffer, manager.disk`clock
      ensures Valid() && n == |data| && manager.disk.clock == old(manager.disk.clock) + 1 && Attached() == old(Attached())
      ensures buffer.State() == BufferStore.Written(old(buffer.State()), offset, data, manager.disk.clock)
      ensures manager.View() == if Attached() then old(manager.View()).(buffers := old(manager.View()).buffers[path := buffer.State()])
                                else old(manager.View())
    {
      hide BufferStore.Written, BufferStore.WriteAt;
      ghost var before := manager.View();
      assert !Attached() ==> buffer !in manager.buffers.Values;
      var now := manager.disk.Now();
      n := buffer.Write(offset, data, now);
      assert manager.View().buffers == if Attached() then before.buffers[path := buffer.State()] else before.buffers;
    }

    /** A write reaches the cache's view of the file only through an attached handle. */
    method Write(offset: nat, data: Bytes) returns (n: nat)
      requires Valid()
      modifies this, buffer, manager.disk, sink
      ensures Valid() && n == |data| && dirtyNotified && Attached() == old(Attached())
      ensures buffer.State() == BufferStore.Written(old(buffer.State()), offset, data, manager.disk.clock)
      ensures manager.System() == if Attached() then BufferRefinement.Do(old(manager.System()), BufferRefinement.Write(path, offset, data))
                                  else BufferRefinement.Later(old(manager.System()))
      ensures sink.queue == SentTo(old(sink.queue), SyncEngine.FileModified(path))
    {
      hide BufferStore.Written, BufferStore.WriteAt;
      assert Attached() ==> manager.View().buffers[path] == buffer.State();
      n := WriteBuffer(offset, data);
      dirtyNotified := true;
      var _ := sink.Send(SyncEngine.FileModified(path));
    }

    method TruncateBuffer(newSize: nat)
      requires Valid()
      modifies buffer, manager.disk`clock
      ensures Valid() && manager.disk.clock == old(manager.disk.clock) + 1 && Attached() == old(Attached())
      ensures buffer.State() == BufferStore.Truncated(old(buffer.State()), newSize, manager.disk.clock)
      ensures manager.System() == if Attached() then BufferRefinement.Cut(old(manager.System()), path, newSize)
                                  else BufferRefinement.Later(old(manager.System()))
    {
      hide BufferStore.Truncated;
      ghost var before := manager.View();
      assert Attached() ==> before.buffers[path] == buffer.State();
      assert !Attached() ==> buffer !in manager.buffers.Values;
      var now := manager.disk.Now();
      buffer.Truncate(newSize, now);
      assert manager.View().buffers == if Attached() then before.buffers[path := buffer.State()] else before.buffers;
    }

    method TruncateOnDisk(newSize: nat)
      requires path in manager.disk.files
      modifies manager.disk
      ensures manager.System() == BufferRefinement.ResizedOnDisk(old(manager.System()), path, newSize)
    {
      manager.disk.Write(path, BufferRefinement.Resized(manager.disk.files[path].bytes, newSize));
    }

    /** Truncate in the buffer, then on disk; when the file is gone from disk the call fails
        with the buffer already cut. */
    method Truncate(newSize: nat) returns (ok: bool)
      requires Valid()
      modifies this, buffer, manager.disk, sink
      ensures Valid() && Attached() == old(Attached()) && (ok <==> path in old(manager.disk.files))
      ensures buffer.State() == BufferStore.Truncated(old(buffer.State()), newSize, old(manager.disk.clock) + 1)
      ensures Attached() ==>
                manager.System() == BufferRefinement.Do(old(manager.System()), BufferRefinement.Truncate(path, newSize))
      ensures !Attached() ==>
                manager.System() == BufferRefinement.ResizedOnDisk(BufferRefinement.Later(old(manager.System())), path, newSize)
      ensures dirtyNotified == (ok || old(dirtyNotified))
      ensures sink.queue == if ok then SentTo(old(sink.queue), SyncEngine.FileModified(path)) else old(sink.queue)
    {
      hide BufferStore.Truncated, BufferRefinement.Resized, BufferRefinement.Cut;
      TruncateBuffer(newSize);
      if path !in manager.disk.files {
        return false;
      }
      TruncateOnDisk(newSize);
      dirtyNotified := true;
      var _ := sink.Send(SyncEngine.FileModified(path));
      ok := true;
    }

    /** Flush by path, then announce the close. Only an attached handle gets its bytes to
        disk; a detached one keeps them to itself, and whatever buffer the cache now has for
        the path is flushed in its place. */
    method Close()
      requires Valid()
      modifies manager.buffers.Values, manager.disk, sink
      ensures Valid() && Attached() == old(Attached())
      ensures manager.System() == BufferRefinement.FlushOne(old(manager.System()), path)
      ensures Attached() && old(buffer.dirty) ==>
                path in manager.disk.files && manager.disk.files[path].bytes == old(buffer.content)
      ensures !Attached() ==> buffer.State() == old(buffer.State())
      ensures path !in manager.buffers ==> manager.disk.files == old(manager.disk.files)
      ensures sink.queue == SentTo(old(sink.queue), SyncEngine.FileClosed(path))
    {
      assert Attached() ==> manager.View().buffers[path] == buffer.State();
      assert !Attached() ==> buffer !in manager.buffers.Values;
      manager.Flush(path);
      var _ := sink.Send(SyncEngine.FileClosed(path));
    }
  }
}
