/** The buffer cache over a disk behaves like a plain store of files with pending writes:
    caching, freshness checks and eviction are invisible
    (buffer.rs:186-427, file_mutations.rs:54-135, 235-311). */
module BufferRefinement {
  import opened Common
  import opened BufferStore

  datatype File = File(bytes: Bytes, mtime: nat)

  /** Every stamp is taken from a clock that advances with each of them. */
  datatype Sys = Sys(limits: Limits, store: Store, disk: map<Path, File>, clock: nat)

  datatype Op =
    | Load(path: Path)
    | Write(path: Path, offset: nat, data: Bytes)
    | Truncate(path: Path, size: nat)
    | Flush(path: Path)
    | Clear(order: seq<Path>)
    | Create(path: Path)
    | Unlink(path: Path)
    | Rename(path: Path, target: Path)
    | ExternalWrite(path: Path, bytes: Bytes)
    | ExternalRemove(path: Path)

  // ---------------------------------------------------------------- what the code does

  function WithStore(y: Sys, s: Store): Sys {
    y.(store := s)
  }

  function SetBuf(y: Sys, p: Path, b: Buf): Sys {
    y.(store := y.store.(buffers := y.store.buffers[p := b]))
  }

  /** A write to disk by anyone, stamped by the clock. */
  function DiskWrite(y: Sys, p: Path, bytes: Bytes): Sys {
    y.(disk := y.disk[p := File(bytes, y.clock + 1)], clock := y.clock + 1)
  }

  /** The cached buffer may answer: it is dirty, or the disk is not newer. */
  predicate Answers(y: Sys, p: Path)
    requires p in y.store.buffers
  {
    var b := y.store.buffers[p];
    b.dirty || p !in y.disk || y.disk[p].mtime <= b.mtime
  }

  /** `get_or_load`. */
  function GetOrLoad(y: Sys, p: Path): (Sys, Option<Bytes>) {
    if p in y.store.buffers && Answers(y, p) then
      (WithStore(y, Touched(y.store, p)), Some(y.store.buffers[p].content))
    else if p in y.disk then
      var s := if p in y.store.buffers then Removed(y.store, p) else y.store;
      (WithStore(y, Cached(y.limits, s, p, y.disk[p].bytes, y.disk[p].mtime)), Some(y.disk[p].bytes))
    else (y, None)
  }

  function FlushOne(y: Sys, p: Path): Sys {
    if p in y.store.buffers && y.store.buffers[p].dirty then
      var written := DiskWrite(y, p, y.store.buffers[p].content);
      SetBuf(written, p, y.store.buffers[p].(dirty := false, mtime := written.clock))
    else y
  }

  function FlushEach(y: Sys, order: seq<Path>): Sys {
    if order == [] then y else FlushOne(FlushEach(y, order[..|order| - 1]), order[|order| - 1])
  }

  /** `set_len` on the disk file. */
  function Resized(bytes: Bytes, size: nat): Bytes {
    if size <= |bytes| then bytes[..size] else bytes + Zeros(size - |bytes|)
  }

  function Cut(y: Sys, p: Path, size: nat): Sys
    requires p in y.store.buffers
  {
    Later(SetBuf(y, p, Truncated(y.store.buffers[p], size, y.clock + 1)))
  }

  function ResizedOnDisk(y: Sys, p: Path, size: nat): Sys {
    if p in y.disk then DiskWrite(y, p, Resized(y.disk[p].bytes, size)) else y
  }

  /** One stamp was taken. */
  function Later(y: Sys): Sys {
    y.(clock := y.clock + 1)
  }

  function Do(y: Sys, op: Op): Sys {
    match op
    case Load(p) => GetOrLoad(y, p).0
    case Write(p, offset, data) =>
      if p in y.store.buffers
      then Later(SetBuf(y, p, Written(y.store.buffers[p], offset, data, y.clock + 1)))
      else y
    case Truncate(p, size) =>
      if p in y.store.buffers then
        ResizedOnDisk(Cut(y, p, size), p, size)
      else y
    case Flush(p) => FlushOne(y, p)
    case Clear(order) => WithStore(FlushEach(y, order), Store(map[], [], 0))
    case Create(p) =>
      var made := DiskWrite(y, p, []);
      WithStore(made, Cached(y.limits, y.store, p, [], made.clock + 1)).(clock := made.clock + 1)
    case Unlink(p) => WithStore(y, Removed(y.store, p)).(disk := y.disk - {p})
    case Rename(p, q) =>
      if p in y.disk then WithStore(y, Removed(y.store, p)).(disk := (y.disk - {p})[q := y.disk[p]]) else y
    case ExternalWrite(p, bytes) => DiskWrite(y, p, bytes)
    case ExternalRemove(p) => y.(disk := y.disk - {p})
  }

  // ---------------------------------------------------------------- the plain store

  /** What the calls are meant to do: files, and writes not yet in them. */
  datatype Plain = Plain(pending: map<Path, Bytes>, files: map<Path, Bytes>)

  function Contents(v: Plain, p: Path): Option<Bytes> {
    if p in v.pending then Some(v.pending[p]) else Lookup(v.files, p)
  }

  function ContentsOrEmpty(v: Plain, p: Path): Bytes {
    match Contents(v, p)
    case Some(bytes) => bytes
    case None => []
  }

  function PlainDo(v: Plain, op: Op): Plain {
    match op
    case Load(_) => v
    case Write(p, offset, data) => v.(pending := v.pending[p := WriteAt(ContentsOrEmpty(v, p), offset, data)])
    case Truncate(p, size) =>
      if p in v.files
      then Plain(v.pending[p := Resized(ContentsOrEmpty(v, p), size)], v.files[p := Resized(v.files[p], size)])
      else v
    case Flush(p) => if p in v.pending then Plain(v.pending - {p}, v.files[p := v.pending[p]]) else v
    case Clear(_) => Plain(map[], v.files + v.pending)
    case Create(p) => Plain(v.pending - {p}, v.files[p := []])
    case Unlink(p) => Plain(v.pending - {p}, v.files - {p})
    case Rename(p, q) =>
      if p in v.files && p != q
      then Plain(if p in v.pending then (v.pending - {p})[q := v.pending[p]] else v.pending - {q},
                 (v.files - {p})[q := v.files[p]])
      else v
    case ExternalWrite(p, bytes) => v.(files := v.files[p := bytes])
    case ExternalRemove(p) => v.(files := v.files - {p})
  }

  function Abs(y: Sys): Plain {
    Plain(map p | p in y.store.buffers && y.store.buffers[p].dirty :: y.store.buffers[p].content,
          map p | p in y.disk :: y.disk[p].bytes)
  }

  // ---------------------------------------------------------------- the invariant

  /** A clean buffer the disk has not overtaken holds the disk's bytes. */
  predicate Coherent(y: Sys) {
    forall p | p in y.store.buffers && p in y.disk && !y.store.buffers[p].dirty && y.disk[p].mtime <= y.store.buffers[p].mtime ::
      y.store.buffers[p].content == y.disk[p].bytes
  }

  predicate Stamped(y: Sys) {
    (forall p | p in y.store.buffers :: y.store.buffers[p].mtime <= y.clock)
    && (forall p | p in y.disk :: y.disk[p].mtime <= y.clock)
  }

  predicate Inv(y: Sys) {
    Queued(y.store) && Coherent(y) && Stamped(y)
  }

  /** A file's buffer holds writes that are not on disk. */
  predicate Dirty(y: Sys, p: Path) {
    p in y.store.buffers && y.store.buffers[p].dirty
  }

  /** The rename puts an older or equally old file under a clean buffer with other bytes. */
  predicate LeavesStale(y: Sys, op: Op) {
    op.Rename? && op.path in y.disk && op.path != op.target
    && op.target in y.store.buffers && !y.store.buffers[op.target].dirty
    && y.disk[op.path].mtime <= y.store.buffers[op.target].mtime
    && y.store.buffers[op.target].content != y.disk[op.path].bytes
  }

  function ByteAt(content: Bytes, i: nat): byte {
    if i < |content| then content[i] else 0
  }

  function Most(a: nat, b: nat): nat {
    if a < b then b else a
  }

  /** The contents differ at most where the write goes. */
  predicate AgreeOutside(a: Bytes, b: Bytes, offset: nat, n: nat) {
    && Most(|a|, offset + n) == Most(|b|, offset + n)
    && forall i: nat | i < Most(|a|, |b|) :: offset <= i < offset + n || ByteAt(a, i) == ByteAt(b, i)
  }

  /** The buffer a handle works on starts with the bytes readers of the path see. */
  predicate StartsAlike(buffered: Bytes, seen: Bytes, size: nat) {
    size <= |buffered| && forall i: nat | i < size :: buffered[i] == ByteAt(seen, i)
  }

  /** When a call does what it is meant to do. A handle whose buffer the disk has overtaken
      writes over stale bytes; truncation must not grow the buffer; a rename must not meet
      pending writes; `clear` must visit every buffer with something to flush. */
  predicate Harmless(y: Sys, op: Op) {
    match op
    case Write(p, offset, data) =>
      p in y.store.buffers
      && AgreeOutside(y.store.buffers[p].content, ContentsOrEmpty(Abs(y), p), offset, |data|)
    case Truncate(p, size) =>
      if p !in y.store.buffers then p !in y.disk
      else if p in y.disk then StartsAlike(y.store.buffers[p].content, ContentsOrEmpty(Abs(y), p), size)
      else y.store.buffers[p].dirty && |y.store.buffers[p].content| <= size
    case Clear(order) =>
      forall p | p in y.store.buffers && y.store.buffers[p].dirty ::
        p in order || (p in y.disk && y.disk[p].bytes == y.store.buffers[p].content)
    case Rename(p, q) =>
      p in y.disk ==>
        if p == q then !Dirty(y, p)
        else if Dirty(y, p) then Dirty(y, q) && y.store.buffers[q].content == y.store.buffers[p].content
        else !Dirty(y, q) && !LeavesStale(y, op)
    case _ => true
  }

  // ---------------------------------------------------------------- refinement

  /** A smaller cache that kept every dirty buffer shows the same store. */
  lemma ShrunkIsSame(y: Sys, z: Sys)
    requires Inv(y) && SubStore(y.store, z.store) && Queued(z.store) && z.disk == y.disk && z.clock == y.clock
    ensures Inv(z) && Abs(z) == Abs(y)
  {
  }

  lemma MadeRoomIsSame(y: Sys, extra: nat)
    requires Inv(y)
    ensures var z := WithStore(y, MadeRoom(y.limits, y.store, extra)); Inv(z) && Abs(z) == Abs(y)
  {
    EvictIsSound(y.store, extra, y.limits.maxMemory);
    hide Evict;
    ShrunkIsSame(y, WithStore(y, MadeRoom(y.limits, y.store, extra)));
  }

  /** Filing clean, fresh disk bytes under a path with no pending writes. */
  lemma FilingIsSame(y: Sys, p: Path, content: Bytes, mtime: nat)
    requires Inv(y) && p !in Abs(y).pending && mtime <= y.clock
    requires p in y.disk && (y.disk[p].mtime <= mtime ==> y.disk[p].bytes == content)
    ensures var z := WithStore(y, Cached(y.limits, y.store, p, content, mtime)); Inv(z) && Abs(z) == Abs(y)
  {
    MadeRoomIsSame(y, |content|);
    hide MadeRoom;
    var mid := WithStore(y, MadeRoom(y.limits, y.store, |content|));
    var z := WithStore(y, Cached(y.limits, y.store, p, content, mtime));
    assert z.store.buffers == mid.store.buffers[p := NewBuf(content, mtime)];
    assert p !in Abs(mid).pending;
    assert Abs(z).pending == Abs(mid).pending;
  }

  lemma LoadRefines(y: Sys, p: Path)
    requires Inv(y)
    ensures var (z, answer) := GetOrLoad(y, p);
            Inv(z) && Abs(z) == Abs(y) && (p in y.disk ==> answer == Contents(Abs(y), p))
  {
    if p in y.store.buffers && Answers(y, p) {
      ShrunkIsSame(y, GetOrLoad(y, p).0);
    } else if p in y.disk {
      var s := if p in y.store.buffers then Removed(y.store, p) else y.store;
      ShrunkIsSame(y, WithStore(y, s));
      FilingIsSame(WithStore(y, s), p, y.disk[p].bytes, y.disk[p].mtime);
    }
  }

  /** The buffer answers, and becomes the latest in the queue. */
  predicate Hit(b: Store, s: Store, p: Path)
    requires p in b.buffers
  {
    s == b.(lru := s.lru) && s.lru != [] && s.lru[|s.lru| - 1] == p
    && (!b.buffers[p].dirty ==> CleanInOrder(s, s.lru) == Without(CleanInOrder(b, b.lru), p) + [p])
  }

  /** The cache without the overtaken buffer of `p`, if there was one. */
  predicate Cleared(b: Store, start: Store, p: Path) {
    start.buffers == b.buffers - {p}
    && start.lru == (if p in b.buffers then Without(b.lru, p) else b.lru)
    && start.usage == if p !in b.buffers then b.usage
                      else if b.buffers[p].size <= b.usage then b.usage - b.buffers[p].size else 0
  }

  lemma RemovedIsCleared(b: Store, p: Path)
    ensures Cleared(b, Removed(b, p), p)
  {
    hide Without;
    if p !in b.buffers {
      assert b.buffers - {p} == b.buffers;
    }
  }

  lemma TouchedIsHit(b: Store, p: Path)
    requires p in b.buffers
    ensures Hit(b, Touched(b, p), p)
  {
    if !b.buffers[p].dirty {
      TouchedGoesLast(b, p);
    }
    hide CleanInOrder, Without;
  }

  /** Exactly what a load does to the cache. A buffer that is dirty, or that the disk has not
      overtaken, answers and becomes the latest in the queue; otherwise the disk's bytes
      answer and are filed in place of an overtaken buffer, making room as filing does; and
      a file that is nowhere changes nothing. */
  lemma {:induction false} LoadExactly(y: Sys, p: Path) returns (start: Store, n: nat)
    ensures var (z, answer) := GetOrLoad(y, p);
            && z == y.(store := z.store)
            && if p in y.store.buffers
                  && (y.store.buffers[p].dirty || p !in y.disk || y.disk[p].mtime <= y.store.buffers[p].mtime) then
                 answer == Some(y.store.buffers[p].content) && Hit(y.store, z.store, p)
               else if p in y.disk then
                 && answer == Some(y.disk[p].bytes) && Cleared(y.store, start, p)
                 && FiledIn(y.limits, start, z.store, p, y.disk[p].bytes, y.disk[p].mtime, n)
               else answer == None && z.store == y.store
  {
    hide Hit, Cleared, FiledIn, Cached, Touched;
    n := 0;
    start := y.store;
    if p in y.store.buffers && Answers(y, p) {
      TouchedIsHit(y.store, p);
    } else if p in y.disk {
      start := Removed(y.store, p);
      RemovedIsCleared(y.store, p);
      n := CachingMakesRoomExactly(y.limits, start, p, y.disk[p].bytes, y.disk[p].mtime);
    }
  }

  lemma FlushRefines(y: Sys, p: Path)
    requires Inv(y)
    ensures var z := FlushOne(y, p); Inv(z) && Abs(z) == PlainDo(Abs(y), Flush(p))
    ensures Contents(Abs(FlushOne(y, p)), p) == Contents(Abs(y), p)
    ensures Dirty(y, p) ==>
              var z := FlushOne(y, p);
              z.store.buffers[p].mtime == z.disk[p].mtime && !z.store.buffers[p].dirty
  {
    var z := FlushOne(y, p);
    assert Abs(z).pending == Abs(y).pending - {p};
  }

  lemma PlainFlush(v: Plain, p: Path)
    ensures var z := PlainDo(v, Flush(p)); z.files + z.pending == v.files + v.pending && z.pending == v.pending - {p}
    ensures forall q | q != p :: Lookup(PlainDo(v, Flush(p)).files, q) == Lookup(v.files, q)
  {
  }

  lemma {:induction false} FlushEachRefines(y: Sys, order: seq<Path>)
    requires Inv(y)
    ensures var z := FlushEach(y, order);
            Inv(z) && (forall p :: p in Abs(z).pending <==> p in Abs(y).pending && p !in order)
            && Abs(z).files + Abs(z).pending == Abs(y).files + Abs(y).pending
            && (forall p | p !in order :: Lookup(Abs(z).files, p) == Lookup(Abs(y).files, p))
  {
    if order != [] {
      var front, last := order[..|order| - 1], order[|order| - 1];
      hide Inv, FlushOne, Abs;
      FlushEachRefines(y, front);
      FlushRefines(FlushEach(y, front), last);
      PlainFlush(Abs(FlushEach(y, front)), last);
      assert order == front + [last];
    }
  }

  lemma PlainClear(v: Plain, z: Plain, order: seq<Path>)
    requires forall p :: p in z.pending <==> p in v.pending && p !in order
    requires z.files + z.pending == v.files + v.pending
    requires forall p | p !in order :: Lookup(z.files, p) == Lookup(v.files, p)
    ensures z.files == v.files + v.pending
            <==> forall p | p in v.pending :: p in order || Lookup(v.files, p) == Some(v.pending[p])
  {
    var all := v.files + v.pending;
    forall p | p in z.pending
      ensures z.pending[p] == v.pending[p]
    {
      assert (z.files + z.pending)[p] == all[p];
    }
    if forall p | p in v.pending :: p in order || Lookup(v.files, p) == Some(v.pending[p]) {
      forall p | p in z.pending
        ensures Lookup(z.files, p) == Some(z.pending[p])
      {
      }
      assert z.files + z.pending == z.files;
    } else {
      var p :| p in v.pending && p !in order && Lookup(v.files, p) != Some(v.pending[p]);
      assert Lookup(z.files, p) != Some(all[p]);
    }
  }

  lemma ClearRefines(y: Sys, order: seq<Path>)
    requires Inv(y)
    ensures Inv(Do(y, Clear(order)))
    ensures Abs(Do(y, Clear(order))) == PlainDo(Abs(y), Clear(order)) <==> Harmless(y, Clear(order))
  {
    FlushEachRefines(y, order);
    PlainClear(Abs(y), Abs(FlushEach(y, order)), order);
    assert Abs(Do(y, Clear(order))).pending == map[];
  }

  /** A new clean buffer for a file just written with the same bytes; whatever was pending
      for it is gone. */
  lemma ReplaceRefines(y: Sys, z: Sys, p: Path, bytes: Bytes)
    requires Inv(y) && p in y.disk && y.disk[p].bytes == bytes && z.disk == y.disk && z.clock == y.clock + 1
    requires z.store.buffers == y.store.buffers[p := NewBuf(bytes, z.clock)] && z.store.lru == y.store.lru + [p]
    ensures Inv(z) && Abs(z) == Plain(Abs(y).pending - {p}, Abs(y).files)
  {
    assert Abs(z).pending == Abs(y).pending - {p};
  }

  lemma CreateRefines(y: Sys, p: Path)
    requires Inv(y)
    ensures Inv(Do(y, Create(p))) && Abs(Do(y, Create(p))) == PlainDo(Abs(y), Create(p))
  {
    MadeRoomIsSame(y, 0);
    hide MadeRoom, Inv, Abs;
    var roomy := WithStore(y, MadeRoom(y.limits, y.store, 0));
    ExternalRefines(roomy, ExternalWrite(p, []));
    ReplaceRefines(DiskWrite(roomy, p, []), Do(y, Create(p)), p, []);
  }

  /** Two writes of the same data give the same contents exactly when the contents agreed
      outside the range written. */
  lemma {:induction false} WritesAgreeExactly(a: Bytes, b: Bytes, offset: nat, data: Bytes)
    ensures WriteAt(a, offset, data) == WriteAt(b, offset, data) <==> AgreeOutside(a, b, offset, |data|)
  {
    var x, y := WriteAt(a, offset, data), WriteAt(b, offset, data);
    if AgreeOutside(a, b, offset, |data|) {
      forall i | 0 <= i < |x|
        ensures x[i] == y[i]
      {
        if offset <= i < offset + |data| {
          assert x[i] == x[offset..offset + |data|][i - offset] && y[i] == y[offset..offset + |data|][i - offset];
        } else {
          assert ByteAt(a, i) == ByteAt(b, i);
        }
      }
    } else if x == y {
      forall i: nat | i < Most(|a|, |b|)
        ensures offset <= i < offset + |data| || ByteAt(a, i) == ByteAt(b, i)
      {
        if !(offset <= i < offset + |data|) {
          assert x[i] == ByteAt(a, i) && y[i] == ByteAt(b, i);
        }
      }
    }
  }

  lemma TruncationsAgreeExactly(buffered: Bytes, seen: Bytes, size: nat)
    ensures (if size < |buffered| then buffered[..size] else buffered) == Resized(seen, size)
            <==> StartsAlike(buffered, seen, size)
  {
    var cut := if size < |buffered| then buffered[..size] else buffered;
    forall i | 0 <= i < size
      ensures Resized(seen, size)[i] == ByteAt(seen, i)
    {
    }
    if cut == Resized(seen, size) {
      assert forall i: nat | i < size :: buffered[i] == cut[i];
    }
  }

  /** One buffer is replaced by a dirty one. */
  lemma DirtiedIs(y: Sys, z: Sys, p: Path, b: Buf)
    requires b.dirty && z.store.buffers == y.store.buffers[p := b]
    ensures Abs(z).pending == Abs(y).pending[p := b.content]
  {
  }

  lemma WriteRefines(y: Sys, p: Path, offset: nat, data: Bytes)
    requires Inv(y)
    ensures var op := Write(p, offset, data);
            Inv(Do(y, op)) && (Abs(Do(y, op)) == PlainDo(Abs(y), op) <==> Harmless(y, op))
  {
    var op := Write(p, offset, data);
    if p in y.store.buffers {
      var b := y.store.buffers[p];
      WritesAgreeExactly(b.content, ContentsOrEmpty(Abs(y), p), offset, data);
      DirtiedIs(y, Do(y, op), p, Written(b, offset, data, y.clock + 1));
      hide WriteAt, AgreeOutside;
      assert Abs(Do(y, op)).pending[p] == WriteAt(b.content, offset, data);
      assert PlainDo(Abs(y), op).pending[p] == WriteAt(ContentsOrEmpty(Abs(y), p), offset, data);
    } else {
      assert p in PlainDo(Abs(y), op).pending && p !in Abs(y).pending;
    }
  }

  lemma TruncateRefines(y: Sys, p: Path, size: nat)
    requires Inv(y)
    ensures var op := Truncate(p, size);
            Inv(Do(y, op)) && (Abs(Do(y, op)) == PlainDo(Abs(y), op) <==> Harmless(y, op))
  {
    var op := Truncate(p, size);
    if p in y.store.buffers {
      var b := y.store.buffers[p];
      var cut := Truncated(b, size, y.clock + 1);
      DirtiedIs(y, Do(y, op), p, cut);
      TruncationsAgreeExactly(b.content, ContentsOrEmpty(Abs(y), p), size);
      assert Abs(Do(y, op)).pending[p] == cut.content;
      if p in y.disk {
        assert Abs(Do(y, op)).files == Abs(y).files[p := Resized(y.disk[p].bytes, size)];
        assert PlainDo(Abs(y), op).pending[p] == Resized(ContentsOrEmpty(Abs(y), p), size);
      } else if Dirty(y, p) {
        assert Abs(y).pending[p] == b.content;
        assert cut.content == b.content <==> |b.content| <= size;
        assert cut.content == b.content ==> Abs(Do(y, op)).pending == Abs(y).pending;
      } else {
        assert p !in Abs(y).pending;
      }
    } else if p in y.disk {
      assert p in PlainDo(Abs(y), op).pending && p !in Abs(y).pending;
    }
  }

  /** A path's buffer, with its pending writes, is dropped. */
  lemma DroppedIsGone(y: Sys, p: Path)
    requires Inv(y)
    ensures var z := WithStore(y, Removed(y.store, p));
            Inv(z) && Abs(z) == Plain(Abs(y).pending - {p}, Abs(y).files) && p !in z.store.buffers
  {
    var z := WithStore(y, Removed(y.store, p));
    assert forall q | q in y.store.buffers && q != p :: q in z.store.lru;
    assert Abs(z).pending == Abs(y).pending - {p};
  }

  lemma UnlinkRefines(y: Sys, p: Path)
    requires Inv(y)
    ensures Inv(Do(y, Unlink(p))) && Abs(Do(y, Unlink(p))) == PlainDo(Abs(y), Unlink(p))
  {
    DroppedIsGone(y, p);
    hide Removed;
    var mid := WithStore(y, Removed(y.store, p));
    assert Abs(Do(y, Unlink(p))).pending == Abs(mid).pending;
  }

  /** Coherence survives a rename exactly when no stale buffer is left in charge. */
  lemma RenameKeepsInvExactly(y: Sys, p: Path, q: Path)
    requires Inv(y)
    ensures Inv(Do(y, Rename(p, q))) <==> !LeavesStale(y, Rename(p, q))
  {
    DroppedIsGone(y, p);
    if p in y.disk && p != q && q in y.store.buffers {
      var z := Do(y, Rename(p, q));
      assert z.store.buffers[q] == y.store.buffers[q] && z.disk[q] == y.disk[p];
    }
    hide Removed;
  }

  lemma RenameRefines(y: Sys, p: Path, q: Path)
    requires Inv(y)
    ensures var op := Rename(p, q);
            Inv(Do(y, op)) && Abs(Do(y, op)) == PlainDo(Abs(y), op) <==> Harmless(y, op)
  {
    RenameKeepsInvExactly(y, p, q);
    if p in y.disk {
      RenameShows(y, p, q);
      RenamePending(Abs(y).pending, p, q);
      PendingIsDirty(y, p);
      PendingIsDirty(y, q);
      hide Inv, Do, Abs;
      if p == q {
        assert (Abs(y).files - {p})[p := Abs(y).files[p]] == Abs(y).files;
      }
    }
  }

  lemma PendingIsDirty(y: Sys, p: Path)
    ensures p in Abs(y).pending <==> Dirty(y, p)
    ensures Dirty(y, p) ==> Abs(y).pending[p] == y.store.buffers[p].content
    ensures p in Abs(y).files <==> p in y.disk
  {
  }

  lemma RenameShows(y: Sys, p: Path, q: Path)
    requires Inv(y) && p in y.disk
    ensures var z := Do(y, Rename(p, q));
            p in Abs(y).files
            && Abs(z).pending == Abs(y).pending - {p} && Abs(z).files == (Abs(y).files - {p})[q := Abs(y).files[p]]
  {
    DroppedIsGone(y, p);
    hide Removed, Inv;
    assert Abs(Do(y, Rename(p, q))).pending == Abs(WithStore(y, Removed(y.store, p))).pending;
  }

  lemma RenamePending(pending: map<Path, Bytes>, p: Path, q: Path)
    ensures p != q ==>
              (pending - {p} == (if p in pending then (pending - {p})[q := pending[p]] else pending - {q})
               <==> if p in pending then q in pending && pending[q] == pending[p] else q !in pending)
    ensures pending - {p} == pending <==> p !in pending
  {
    var left := pending - {p};
    if p !in pending {
      assert left == pending;
      assert q !in pending ==> pending - {q} == pending;
      assert q in pending ==> q in left && q !in pending - {q};
    } else if p != q {
      var right := left[q := pending[p]];
      assert q in right && right[q] == pending[p];
      assert q in pending ==> left[q] == pending[q];
      assert q in pending && pending[q] == pending[p] ==> left == right;
    }
  }

  lemma ExternalRefines(y: Sys, op: Op)
    requires Inv(y) && (op.ExternalWrite? || op.ExternalRemove?)
    ensures Inv(Do(y, op)) && Abs(Do(y, op)) == PlainDo(Abs(y), op)
  {
    assert Abs(Do(y, op)).pending == Abs(y).pending;
  }

  /** Each call, whoever makes it, keeps the cache coherent and does what it is meant to do
      exactly when it is harmless. */
  lemma {:induction false} DoRefinesExactly(y: Sys, op: Op)
    requires Inv(y)
    ensures Inv(Do(y, op)) && Abs(Do(y, op)) == PlainDo(Abs(y), op) <==> Harmless(y, op)
  {
    hide Inv, Abs, Do, PlainDo;
    match op
    case Load(p) => LoadIsLoad(y, p);
    case Write(p, offset, data) => WriteRefines(y, p, offset, data);
    case Truncate(p, size) => TruncateRefines(y, p, size);
    case Flush(p) => FlushIsFlush(y, p);
    case Clear(order) => ClearRefines(y, order);
    case Create(p) => CreateRefines(y, p);
    case Unlink(p) => UnlinkRefines(y, p);
    case Rename(p, q) => RenameRefines(y, p, q);
    case _ => ExternalRefines(y, op);
  }

  lemma LoadIsLoad(y: Sys, p: Path)
    requires Inv(y)
    ensures Inv(Do(y, Load(p))) && Abs(Do(y, Load(p))) == PlainDo(Abs(y), Load(p))
  {
    LoadRefines(y, p);
    hide Inv, Abs, GetOrLoad;
  }

  lemma FlushIsFlush(y: Sys, p: Path)
    requires Inv(y)
    ensures Inv(Do(y, Flush(p))) && Abs(Do(y, Flush(p))) == PlainDo(Abs(y), Flush(p))
  {
    FlushRefines(y, p);
    hide Inv, Abs, FlushOne;
  }

  /** Nothing but such a rename ever makes the cache incoherent. */
  lemma {:induction false} KeepsInvExactly(y: Sys, op: Op)
    requires Inv(y)
    ensures Inv(Do(y, op)) <==> !LeavesStale(y, op)
  {
    hide Inv, Abs, Do, PlainDo;
    match op
    case Load(p) => LoadIsLoad(y, p);
    case Write(p, offset, data) => WriteRefines(y, p, offset, data);
    case Truncate(p, size) => TruncateRefines(y, p, size);
    case Flush(p) => FlushIsFlush(y, p);
    case Clear(order) => ClearRefines(y, order);
    case Create(p) => CreateRefines(y, p);
    case Unlink(p) => UnlinkRefines(y, p);
    case Rename(p, q) => RenameKeepsInvExactly(y, p, q);
    case _ => ExternalRefines(y, op);
  }

  // ---------------------------------------------------------------- whole runs

  function Run(y: Sys, ops: seq<Op>): Sys {
    if ops == [] then y else Do(Run(y, ops[..|ops| - 1]), ops[|ops| - 1])
  }

  function PlainRun(v: Plain, ops: seq<Op>): Plain {
    if ops == [] then v else PlainDo(PlainRun(v, ops[..|ops| - 1]), ops[|ops| - 1])
  }

  predicate AllHarmless(y: Sys, ops: seq<Op>) {
    ops == [] || (AllHarmless(y, ops[..|ops| - 1]) && Harmless(Run(y, ops[..|ops| - 1]), ops[|ops| - 1]))
  }

  predicate NeverStale(y: Sys, ops: seq<Op>) {
    ops == [] || (NeverStale(y, ops[..|ops| - 1]) && !LeavesStale(Run(y, ops[..|ops| - 1]), ops[|ops| - 1]))
  }

  lemma {:induction false} RunRefines(y: Sys, ops: seq<Op>)
    requires Inv(y) && AllHarmless(y, ops)
    ensures Inv(Run(y, ops)) && Abs(Run(y, ops)) == PlainRun(Abs(y), ops)
  {
    if ops != [] {
      hide Do, PlainDo, Inv, Harmless;
      RunRefines(y, ops[..|ops| - 1]);
      DoRefinesExactly(Run(y, ops[..|ops| - 1]), ops[|ops| - 1]);
    }
  }

  lemma {:induction false} RunKeepsInv(y: Sys, ops: seq<Op>)
    requires Inv(y) && NeverStale(y, ops)
    ensures Inv(Run(y, ops))
  {
    if ops != [] {
      hide Do, Inv, LeavesStale;
      RunKeepsInv(y, ops[..|ops| - 1]);
      KeepsInvExactly(Run(y, ops[..|ops| - 1]), ops[|ops| - 1]);
    }
  }

  /** After any run from an empty cache, with handles writing through buffers the disk has
      overtaken and outsiders writing and removing files under them, loading an existing
      file answers its pending writes if there are any and exactly the disk's bytes
      otherwise. Only a rename that leaves a stale buffer in charge can break this. */
  lemma {:induction false} LoadsAreFaithful(y: Sys, ops: seq<Op>, p: Path)
    requires y.store == Store(map[], [], 0) && Stamped(y) && NeverStale(y, ops)
    requires p in Run(y, ops).disk
    ensures GetOrLoad(Run(y, ops), p).1
            == Some(if Dirty(Run(y, ops), p) then Run(y, ops).store.buffers[p].content else Run(y, ops).disk[p].bytes)
  {
    RunKeepsInv(y, ops);
    LoadRefines(Run(y, ops), p);
  }

  /** And when all the calls were harmless, that is what the plain store holds. */
  lemma {:induction false} HarmlessRunsMatchThePlainStore(y: Sys, ops: seq<Op>, p: Path)
    requires y.store == Store(map[], [], 0) && Stamped(y) && AllHarmless(y, ops)
    requires p in Run(y, ops).disk
    ensures GetOrLoad(Run(y, ops), p).1 == Contents(PlainRun(Abs(y), ops), p)
  {
    RunRefines(y, ops);
    LoadRefines(Run(y, ops), p);
  }

  // ---------------------------------------------------------------- where the code falls short

  /** Writing through a clean buffer does what it is meant to do exactly when the buffer and
      the file agree outside the range written; in any case the next flush puts the buffer's
      old bytes with the new data on disk, over whatever was written there meanwhile. */
  lemma {:induction false} OvertakenWriteExactly(y: Sys, p: Path, offset: nat, data: Bytes)
    requires Inv(y) && p in y.store.buffers && !y.store.buffers[p].dirty && p in y.disk
    ensures var written := Do(y, Write(p, offset, data));
            && (Abs(written) == PlainDo(Abs(y), Write(p, offset, data))
                <==> AgreeOutside(y.store.buffers[p].content, y.disk[p].bytes, offset, |data|))
            && Do(written, Flush(p)).disk[p].bytes == WriteAt(y.store.buffers[p].content, offset, data)
  {
    WriteRefines(y, p, offset, data);
  }

  /** Growing a file by truncation does not survive the flush: the file keeps the requested
      size exactly when the buffer was not asked to grow. */
  lemma TruncateSurvivesFlushExactly(y: Sys, p: Path, size: nat)
    requires p in y.store.buffers && p in y.disk
    ensures var truncated := Do(y, Truncate(p, size));
            var flushed := Do(truncated, Flush(p));
            && |truncated.disk[p].bytes| == size == truncated.store.buffers[p].size
            && (|flushed.disk[p].bytes| == size <==> size <= |y.store.buffers[p].content|)
  {
  }

  /** A file under the rename's target: the buffer that stays in charge there, if any. */
  predicate KeepsItsBuffer(y: Sys, p: Path, q: Path)
    requires p in y.disk
  {
    q in y.store.buffers && (y.store.buffers[q].dirty || y.disk[p].mtime <= y.store.buffers[q].mtime)
  }

  /** After a rename a reader of the target gets the target's old buffer exactly when that
      is dirty or not older than the moved file, and otherwise what the moved file had on
      disk. So the rename moves what readers saw exactly when this answer equals it. */
  lemma {:induction false} RenameMovesContentsExactly(y: Sys, p: Path, q: Path)
    requires p in y.disk && p != q
    ensures var served := if KeepsItsBuffer(y, p, q) then y.store.buffers[q].content else y.disk[p].bytes;
            var seen := if Dirty(y, p) then y.store.buffers[p].content else y.disk[p].bytes;
            && GetOrLoad(Do(y, Rename(p, q)), q).1 == Some(served)
            && (GetOrLoad(Do(y, Rename(p, q)), q).1 == Contents(Abs(y), p) <==> served == seen)
  {
    assert q in y.store.buffers ==> Do(y, Rename(p, q)).store.buffers[q] == y.store.buffers[q];
    hide Cached, Touched;
  }

  /** Pending writes of the overwritten target outlive the rename: their flush replaces the
      moved file, whose own bytes are then nowhere. */
  lemma {:induction false} DirtyTargetDestroysTheMovedFile(y: Sys, p: Path, q: Path)
    requires p in y.disk && p != q && Dirty(y, q)
    ensures var flushed := Do(Do(y, Rename(p, q)), Flush(q));
            flushed.disk[q].bytes == y.store.buffers[q].content && p !in flushed.disk && p !in flushed.store.buffers
  {
    assert p !in Removed(y.store, p).buffers;
  }
}
