/** The write-back buffer cache as values: buffers, LRU queue, memory counter, disk and clock
    (crates/omnifuse-core/src/buffer.rs, file_mutations.rs). */
module BufferStore {
  import opened Common

  // ---------------------------------------------------------------- one buffer

  function Zeros(n: nat): (r: Bytes)
    ensures |r| == n
  {
    seq(n, _ => 0)
  }

  /** `FileBuffer::write`: grow with zeros up to the end of the data, then overwrite. */
  function WriteAt(content: Bytes, offset: nat, data: Bytes): (r: Bytes)
    ensures |r| == if offset + |data| > |content| then offset + |data| else |content|
    ensures r[offset..offset + |data|] == data
    ensures forall i | 0 <= i < |r| && !(offset <= i < offset + |data|) :: r[i] == if i < |content| then content[i] else 0
  {
    var grown := if offset + |data| > |content| then content + Zeros(offset + |data| - |content|) else content;
    grown[..offset] + data + grown[offset + |data|..]
  }

  /** `FileBuffer::read`. */
  function ReadAt(content: Bytes, offset: nat, size: nat): Bytes {
    if offset >= |content| then []
    else content[offset..if offset + size < |content| then offset + size else |content|]
  }

  /** Two writes, one right after the other, are one write of both. */
  lemma AdjacentWrites(content: Bytes, offset: nat, a: Bytes, b: Bytes)
    ensures WriteAt(WriteAt(content, offset, a), offset + |a|, b) == WriteAt(content, offset, a + b)
  {
    var one, two := WriteAt(content, offset, a + b), WriteAt(WriteAt(content, offset, a), offset + |a|, b);
    var first := WriteAt(content, offset, a);
    assert |one| == |two|;
    forall i | 0 <= i < |one| ensures one[i] == two[i] {
      if offset <= i < offset + |a| {
        assert one[i] == one[offset..offset + |a + b|][i - offset] == a[i - offset];
        assert first[i] == first[offset..offset + |a|][i - offset];
      } else if offset + |a| <= i < offset + |a| + |b| {
        assert one[i] == one[offset..offset + |a + b|][i - offset] == b[i - offset - |a|];
        assert two[i] == two[offset + |a|..offset + |a| + |b|][i - offset - |a|];
      }
    }
  }

  datatype Buf = Buf(content: Bytes, dirty: bool, mtime: nat, size: nat)

  function NewBuf(content: Bytes, mtime: nat): Buf {
    Buf(content, false, mtime, |content|)
  }

  /** The content never grows on truncate, the recorded size may. */
  function Truncated(b: Buf, newSize: nat, now: nat): Buf {
    Buf(if newSize < |b.content| then b.content[..newSize] else b.content, true, now, newSize)
  }

  function Written(b: Buf, offset: nat, data: Bytes, now: nat): Buf {
    var content := WriteAt(b.content, offset, data);
    Buf(content, true, now, |content|)
  }

  // ---------------------------------------------------------------- the cache

  datatype Store = Store(buffers: map<Path, Buf>, lru: seq<Path>, usage: nat)

  datatype Limits = Limits(maxMemory: nat, evicting: bool)

  function Minus(a: nat, b: nat): nat {
    if a < b then 0 else a - b
  }

  function Without(lru: seq<Path>, p: Path): (r: seq<Path>)
    ensures forall q :: q in r ==> q in lru
    ensures forall q | q in lru && q != p :: q in r
    ensures NoDuplicates(lru) ==> p !in r && NoDuplicates(r)
    decreases lru
  {
    if lru == [] then []
    else if lru[0] == p then
      (assert lru == [p] + lru[1..];
       lru[1..])
    else
      var rest := Without(lru[1..], p);
      assert lru == [lru[0]] + lru[1..];
      assert NoDuplicates(lru) ==> lru[0] !in rest;
      [lru[0]] + rest
  }

  lemma WithoutCons(x: Path, xs: seq<Path>, p: Path)
    ensures Without([x] + xs, p) == if x == p then xs else [x] + Without(xs, p)
  {
    assert ([x] + xs)[1..] == xs;
  }

  lemma {:induction false} WithoutFirst(lru: seq<Path>, p: Path, i: nat)
    requires i <= |lru| && (forall j | 0 <= j < i :: lru[j] != p) && (i < |lru| ==> lru[i] == p)
    ensures Without(lru, p) == if i < |lru| then lru[..i] + lru[i + 1..] else lru
  {
    hide Without;
    if lru == [] {
      WithoutNothing(p);
    } else {
      var head, rest := lru[0], lru[1..];
      assert [head] + rest == lru;
      WithoutCons(head, rest, p);
      if i > 0 {
        WithoutFirst(rest, p, i - 1);
        if i < |lru| {
          assert [head] + (rest[..i - 1] + rest[i..]) == lru[..i] + lru[i + 1..];
        }
      }
    }
  }

  lemma WithoutNothing(p: Path)
    ensures Without([], p) == []
  {
  }

  /** `touch`: the first occurrence moves to the back. */
  function Touched(s: Store, p: Path): Store {
    s.(lru := Without(s.lru, p) + [p])
  }

  function Removed(s: Store, p: Path): Store {
    if p in s.buffers
    then Store(s.buffers - {p}, Without(s.lru, p), Minus(s.usage, s.buffers[p].size))
    else s
  }

  /** The eviction loop of `maybe_evict`. */
  function EvictLoop(s: Store, extra: nat, max: nat, attempts: nat, maxAttempts: nat): Store
    requires attempts < maxAttempts || s.lru == []
    decreases maxAttempts - attempts, |s.lru|
  {
    if s.usage + extra <= max || s.lru == [] then s
    else
      var oldest, rest := s.lru[0], s.lru[1..];
      if oldest !in s.buffers then EvictLoop(s.(lru := rest), extra, max, attempts, maxAttempts)
      else if s.buffers[oldest].dirty then
        var rotated := s.(lru := rest + [oldest]);
        if attempts + 1 >= maxAttempts then rotated
        else EvictLoop(rotated, extra, max, attempts + 1, maxAttempts)
      else
        var freed := Store(s.buffers - {oldest}, rest, Minus(s.usage, s.buffers[oldest].size));
        EvictLoop(freed, extra, max, attempts, maxAttempts)
  }

  lemma EvictLoopUnfolds(s: Store, extra: nat, max: nat, attempts: nat, maxAttempts: nat)
    requires s.lru != [] && attempts < maxAttempts && s.usage + extra > max
    ensures var oldest, rest := s.lru[0], s.lru[1..];
            EvictLoop(s, extra, max, attempts, maxAttempts)
            == if oldest !in s.buffers then EvictLoop(s.(lru := rest), extra, max, attempts, maxAttempts)
               else if !s.buffers[oldest].dirty then
                 EvictLoop(Store(s.buffers - {oldest}, rest, Minus(s.usage, s.buffers[oldest].size)), extra, max, attempts, maxAttempts)
               else if attempts + 1 >= maxAttempts then s.(lru := rest + [oldest])
               else EvictLoop(s.(lru := rest + [oldest]), extra, max, attempts + 1, maxAttempts)
  {
  }

  lemma EvictLoopStops(s: Store, extra: nat, max: nat, attempts: nat, maxAttempts: nat)
    requires attempts < maxAttempts || s.lru == []
    requires s.lru == [] || s.usage + extra <= max
    ensures EvictLoop(s, extra, max, attempts, maxAttempts) == s
  {
  }

  function Evict(s: Store, extra: nat, max: nat): Store {
    EvictLoop(s, extra, max, 0, |s.lru|)
  }

  lemma EvictStarts(s: Store, extra: nat, max: nat)
    ensures s.usage + extra <= max ==> Evict(s, extra, max) == s
  {
  }

  function MadeRoom(l: Limits, s: Store, extra: nat): Store {
    if l.evicting then Evict(s, extra, l.maxMemory) else s
  }

  /** `cache_with_mtime`. */
  function Cached(l: Limits, s: Store, p: Path, content: Bytes, mtime: nat): Store {
    var s1 := MadeRoom(l, s, |content|);
    Store(s1.buffers[p := NewBuf(content, mtime)], s1.lru + [p], s1.usage + |content|)
  }

  /** Every cached path can be found by the eviction scan. */
  predicate Queued(s: Store) {
    forall p | p in s.buffers :: p in s.lru
  }

  predicate AllDirty(s: Store) {
    forall p | p in s.buffers :: s.buffers[p].dirty
  }

  predicate SubStore(a: Store, b: Store) {
    (forall p | p in b.buffers :: p in a.buffers && b.buffers[p] == a.buffers[p])
    && (forall p | p in a.buffers && a.buffers[p].dirty :: p in b.buffers)
  }

  ghost predicate DirtyTail(s: Store, r: seq<Path>) {
    forall p | p in r :: p in s.buffers && s.buffers[p].dirty
  }

  /** With only dirty buffers queued the scan just rotates until it gives up. */
  lemma {:induction false} AllDirtyLoop(s: Store, extra: nat, max: nat, attempts: nat, maxAttempts: nat)
    requires attempts < maxAttempts || s.lru == []
    requires DirtyTail(s, s.lru)
    ensures var after := EvictLoop(s, extra, max, attempts, maxAttempts);
            after.buffers == s.buffers && after.usage == s.usage && forall p | p in s.lru :: p in after.lru
    decreases maxAttempts - attempts
  {
    if s.usage + extra > max && s.lru != [] {
      var rotated := s.(lru := s.lru[1..] + [s.lru[0]]);
      assert s.lru == [s.lru[0]] + s.lru[1..];
      if attempts + 1 < maxAttempts {
        AllDirtyLoop(rotated, extra, max, attempts + 1, maxAttempts);
      }
    }
  }

  /** The scan splits the queue in an unseen front `u` and a rotated, dirty back `r`. */
  ghost predicate Scanning(s: Store, attempts: nat, maxAttempts: nat, u: seq<Path>, r: seq<Path>) {
    (attempts < maxAttempts || s.lru == [])
    && s.lru == u + r && DirtyTail(s, r) && |u| + |r| <= maxAttempts && (u == [] || |r| == attempts)
  }

  lemma ScanSkips(s: Store, s': Store, attempts: nat, maxAttempts: nat, u: seq<Path>, r: seq<Path>)
    requires Scanning(s, attempts, maxAttempts, u, r) && u != [] && s'.lru == s.lru[1..]
    requires forall p | p in s.buffers && s.buffers[p].dirty :: p in s'.buffers && s'.buffers[p] == s.buffers[p]
    ensures Scanning(s', attempts, maxAttempts, u[1..], r) && s.lru[0] == u[0]
    ensures forall p | p in s.lru && p != u[0] :: p in s'.lru
  {
    assert s.lru == [u[0]] + s'.lru;
  }

  lemma ScanRotates(s: Store, s': Store, attempts: nat, maxAttempts: nat, u: seq<Path>, r: seq<Path>)
    requires Scanning(s, attempts, maxAttempts, u, r) && u != [] && s' == s.(lru := s.lru[1..] + [u[0]])
    requires u[0] in s.buffers && s.buffers[u[0]].dirty
    ensures if attempts + 1 < maxAttempts then Scanning(s', attempts + 1, maxAttempts, u[1..], r + [u[0]])
            else DirtyTail(s', s'.lru)
    ensures forall p :: p in s.lru <==> p in s'.lru
  {
    assert s.lru == [u[0]] + s.lru[1..] && s.lru[1..] == u[1..] + r;
    assert s'.lru == u[1..] + (r + [u[0]]);
    if attempts + 1 >= maxAttempts {
      assert u[1..] == [];
    }
  }

  /** What the loop promises about the store it ends with. */
  predicate Sound(s: Store, after: Store, extra: nat, max: nat) {
    Queued(after) && SubStore(s, after) && (after.usage + extra <= max || AllDirty(after))
  }

  lemma SoundAfterDrop(a: Store, b: Store, c: Store, extra: nat, max: nat)
    requires SubStore(a, b) && Sound(b, c, extra, max)
    ensures Sound(a, c, extra, max)
  {
  }

  lemma SoundAfterRotation(a: Store, b: Store, c: Store, extra: nat, max: nat)
    requires b.buffers == a.buffers && Sound(b, c, extra, max)
    ensures Sound(a, c, extra, max)
  {
  }

  /** Dropping the oldest entry, with its clean buffer if it has one, is a step of the scan. */
  lemma ScanDrops(s: Store, s': Store, attempts: nat, maxAttempts: nat, u: seq<Path>, r: seq<Path>)
    requires Scanning(s, attempts, maxAttempts, u, r) && Queued(s) && u != [] && s'.lru == s.lru[1..]
    requires s'.buffers == s.buffers - {u[0]} && (u[0] in s.buffers ==> !s.buffers[u[0]].dirty)
    ensures Scanning(s', attempts, maxAttempts, u[1..], r) && Queued(s') && SubStore(s, s')
  {
    ScanSkips(s, s', attempts, maxAttempts, u, r);
  }

  lemma NothingSeenIsSound(s: Store, extra: nat, max: nat, attempts: nat, maxAttempts: nat, r: seq<Path>)
    requires Scanning(s, attempts, maxAttempts, [], r) && Queued(s)
    ensures Sound(s, EvictLoop(s, extra, max, attempts, maxAttempts), extra, max)
  {
    assert s.lru == r;
    AllDirtyLoop(s, extra, max, attempts, maxAttempts);
  }

  lemma LastRotationIsSound(s: Store, s': Store, extra: nat, max: nat)
    requires Queued(s) && s' == s.(lru := s'.lru) && DirtyTail(s', s'.lru) && (forall p :: p in s.lru <==> p in s'.lru)
    ensures Sound(s, s', extra, max)
  {
  }

  lemma {:induction false} EvictLoopIsSound(s: Store, extra: nat, max: nat, attempts: nat, maxAttempts: nat, u: seq<Path>, r: seq<Path>)
    requires Scanning(s, attempts, maxAttempts, u, r) && Queued(s)
    ensures Sound(s, EvictLoop(s, extra, max, attempts, maxAttempts), extra, max)
    decreases maxAttempts - attempts, |s.lru|
  {
    if s.usage + extra <= max || s.lru == [] {
    } else if u == [] {
      NothingSeenIsSound(s, extra, max, attempts, maxAttempts, r);
    } else {
      var oldest, rest := u[0], s.lru[1..];
      assert s.lru[0] == oldest;
      hide Sound, SubStore, AllDirty, DirtyTail;
      if oldest in s.buffers && s.buffers[oldest].dirty {
        var rotated := s.(lru := rest + [oldest]);
        ScanRotates(s, rotated, attempts, maxAttempts, u, r);
        if attempts + 1 < maxAttempts {
          EvictLoopIsSound(rotated, extra, max, attempts + 1, maxAttempts, u[1..], r + [oldest]);
          SoundAfterRotation(s, rotated, EvictLoop(s, extra, max, attempts, maxAttempts), extra, max);
        } else {
          LastRotationIsSound(s, rotated, extra, max);
        }
      } else {
        var usage := if oldest in s.buffers then Minus(s.usage, s.buffers[oldest].size) else s.usage;
        var dropped := Store(s.buffers - {oldest}, rest, usage);
        ScanDrops(s, dropped, attempts, maxAttempts, u, r);
        assert oldest !in s.buffers ==> dropped.buffers == s.buffers;
        EvictLoopIsSound(dropped, extra, max, attempts, maxAttempts, u[1..], r);
        SoundAfterDrop(s, dropped, EvictLoop(s, extra, max, attempts, maxAttempts), extra, max);
      }
    }
  }

  /** Eviction removes no dirty buffer and alters none; it ends with the counter within the
      budget, or with nothing but dirty buffers left. */
  lemma EvictIsSound(s: Store, extra: nat, max: nat)
    requires Queued(s)
    ensures var after := Evict(s, extra, max);
            Queued(after) && SubStore(s, after) && (after.usage + extra <= max || AllDirty(after))
  {
    EvictLoopIsSound(s, extra, max, 0, |s.lru|, s.lru, []);
  }

  // ---------------------------------------------------------------- which ones go

  /** Clean cached entries, oldest first. */
  function CleanInOrder(s: Store, lru: seq<Path>): (r: seq<Path>)
    ensures forall p :: p in r <==> p in lru && p in s.buffers && !s.buffers[p].dirty
  {
    if lru == [] then []
    else
      var front := if lru[0] in s.buffers && !s.buffers[lru[0]].dirty then [lru[0]] else [];
      assert lru == [lru[0]] + lru[1..];
      front + CleanInOrder(s, lru[1..])
  }

  function WithoutAll(xs: seq<Path>, p: Path): (r: seq<Path>)
    ensures forall q :: q in r <==> q in xs && q != p
    ensures |r| <= |xs|
  {
    if xs == [] then []
    else
      assert xs == [xs[0]] + xs[1..];
      if xs[0] == p then WithoutAll(xs[1..], p) else [xs[0]] + WithoutAll(xs[1..], p)
  }

  /** Each path where it comes first. */
  function Firsts(xs: seq<Path>): (r: seq<Path>)
    ensures forall q :: q in r <==> q in xs
    decreases |xs|
  {
    if xs == [] then []
    else
      assert xs == [xs[0]] + xs[1..];
      [xs[0]] + Firsts(WithoutAll(xs[1..], xs[0]))
  }

  /** The candidates for eviction, oldest first. A path queued twice counts where it is oldest. */
  function Candidates(s: Store, lru: seq<Path>): (r: seq<Path>)
    ensures forall p :: p in r <==> p in lru && p in s.buffers && !s.buffers[p].dirty
  {
    Firsts(CleanInOrder(s, lru))
  }

  /** The counter after giving up the first `n` of `victims`. */
  function UsageAfter(s: Store, victims: seq<Path>, n: nat): nat
    requires n <= |victims| && forall p | p in victims :: p in s.buffers
  {
    if n == 0 then s.usage else Minus(UsageAfter(s, victims, n - 1), s.buffers[victims[n - 1]].size)
  }

  /** The shortest prefix of the victims that makes room, or all of them. */
  predicate IsShortest(s: Store, victims: seq<Path>, n: nat, extra: nat, max: nat)
    requires n <= |victims| && forall p | p in victims :: p in s.buffers
  {
    (UsageAfter(s, victims, n) + extra <= max || n == |victims|)
    && forall m | 0 <= m < n :: UsageAfter(s, victims, m) + extra > max
  }

  function ToSet(s: seq<Path>): set<Path> {
    set p | p in s
  }

  lemma {:induction false} UsageAfterShift(s: Store, freed: Store, victims: seq<Path>, n: nat)
    requires 0 < n <= |victims| && (forall p | p in victims :: p in s.buffers)
    requires NoDuplicates(victims)
    requires freed.buffers == s.buffers - {victims[0]} && freed.usage == Minus(s.usage, s.buffers[victims[0]].size)
    ensures forall p | p in victims[1..] :: p in freed.buffers
    ensures UsageAfter(s, victims, n) == UsageAfter(freed, victims[1..], n - 1)
    decreases n
  {
    forall p | p in victims[1..] ensures p in freed.buffers {
      var i :| 0 <= i < |victims| - 1 && victims[1..][i] == p;
      assert victims[i + 1] == p && victims[0] != p;
    }
    if n == 1 {
      assert UsageAfter(s, victims, 0) == s.usage;
    } else {
      UsageAfterShift(s, freed, victims, n - 1);
      assert victims[n - 1] == victims[1..][n - 2];
    }
  }

  lemma {:induction false} CleanAfterFree(s: Store, freed: Store, lru: seq<Path>, gone: Path)
    requires freed.buffers == s.buffers - {gone}
    ensures CleanInOrder(freed, lru) == WithoutAll(CleanInOrder(s, lru), gone)
  {
    if lru != [] {
      CleanAfterFree(s, freed, lru[1..], gone);
      CleanCons(s, lru[0], lru[1..]);
      CleanCons(freed, lru[0], lru[1..]);
      WithoutAllCons(lru[0], CleanInOrder(s, lru[1..]), gone);
      assert lru == [lru[0]] + lru[1..];
      hide CleanInOrder, WithoutAll;
    }
  }

  lemma WithoutAllCons(x: Path, xs: seq<Path>, p: Path)
    ensures WithoutAll([x] + xs, p) == if x == p then WithoutAll(xs, p) else [x] + WithoutAll(xs, p)
  {
    assert ([x] + xs)[1..] == xs;
  }

  lemma {:induction false} FirstsAreDistinct(xs: seq<Path>)
    ensures NoDuplicates(Firsts(xs))
    decreases |xs|
  {
    if xs != [] {
      var rest := Firsts(WithoutAll(xs[1..], xs[0]));
      FirstsAreDistinct(WithoutAll(xs[1..], xs[0]));
      assert forall j | 0 <= j < |rest| :: rest[j] in rest;
    }
  }

  /** Freeing the first candidate leaves the others. */
  lemma CandidatesAfterFree(s: Store, freed: Store, u: seq<Path>)
    requires u != [] && u[0] in s.buffers && !s.buffers[u[0]].dirty && freed.buffers == s.buffers - {u[0]}
    ensures Candidates(s, u) == [u[0]] + Candidates(freed, u[1..])
  {
    CleanAfterFree(s, freed, u[1..], u[0]);
    CleanCons(s, u[0], u[1..]);
    assert u == [u[0]] + u[1..];
    var clean := CleanInOrder(s, u[1..]);
    assert ([u[0]] + clean)[1..] == clean;
    hide CleanInOrder, WithoutAll;
  }

  /** What the scan gave up: the first `n` clean entries, and just enough of them. */
  ghost predicate GaveUp(s: Store, after: Store, victims: seq<Path>, n: nat, extra: nat, max: nat) {
    n <= |victims| && (forall p | p in victims :: p in s.buffers)
    && IsShortest(s, victims, n, extra, max)
    && after.buffers == s.buffers - ToSet(victims[..n])
    && after.usage == UsageAfter(s, victims, n)
  }

  lemma GaveUpOneMore(s: Store, freed: Store, after: Store, victims: seq<Path>, n: nat, extra: nat, max: nat)
    requires victims != [] && NoDuplicates(victims) && s.usage + extra > max
    requires forall p | p in victims :: p in s.buffers
    requires freed.buffers == s.buffers - {victims[0]} && freed.usage == Minus(s.usage, s.buffers[victims[0]].size)
    requires GaveUp(freed, after, victims[1..], n, extra, max)
    ensures GaveUp(s, after, victims, n + 1, extra, max)
  {
    UsageAfterShift(s, freed, victims, n + 1);
    forall m | 0 <= m < n + 1 ensures UsageAfter(s, victims, m) + extra > max {
      if m > 0 {
        UsageAfterShift(s, freed, victims, m);
      }
    }
    assert victims[..n + 1] == [victims[0]] + victims[1..][..n];
    assert ToSet(victims[..n + 1]) == {victims[0]} + ToSet(victims[1..][..n]);
  }

  lemma GaveUpNothing(s: Store, after: Store, victims: seq<Path>, extra: nat, max: nat)
    requires s.usage + extra <= max || victims == []
    requires after.buffers == s.buffers && after.usage == s.usage && forall p | p in victims :: p in s.buffers
    ensures GaveUp(s, after, victims, 0, extra, max)
  {
    assert victims[..0] == [];
  }

  lemma AllDirtyVictims(s: Store, after: Store, u: seq<Path>)
    requires u <= s.lru && DirtyTail(after, after.lru) && after.buffers == s.buffers
    requires forall p :: p in s.lru <==> p in after.lru
    ensures Candidates(s, u) == []
  {
    forall p | p in u && p in s.buffers ensures s.buffers[p].dirty {
      assert p in s.lru && p in after.lru;
    }
    NoneClean(s, u);
  }

  lemma {:induction false} NoneClean(s: Store, u: seq<Path>)
    requires forall p | p in u && p in s.buffers :: s.buffers[p].dirty
    ensures CleanInOrder(s, u) == []
  {
    if u != [] {
      assert u[0] in u && u == [u[0]] + u[1..];
      NoneClean(s, u[1..]);
    }
  }

  /** A popped entry that is stale or dirty changes neither buffers nor victims. */
  lemma PassedOver(s: Store, next: Store, after: Store, u: seq<Path>, n: nat, extra: nat, max: nat)
    requires u != [] && next.buffers == s.buffers && next.usage == s.usage
    requires u[0] in s.buffers ==> s.buffers[u[0]].dirty
    requires GaveUp(next, after, Candidates(next, u[1..]), n, extra, max)
    ensures GaveUp(s, after, Candidates(s, u), n, extra, max)
  {
    SameClean(s, next, u[1..]);
    CleanCons(s, u[0], u[1..]);
    assert u == [u[0]] + u[1..];
    hide GaveUp, CleanInOrder;
    SameBuffersSame(s, next, after, Candidates(s, u), n, extra, max);
  }

  lemma Freed(s: Store, freed: Store, after: Store, u: seq<Path>, n: nat, extra: nat, max: nat)
    requires u != [] && u[0] in s.buffers && !s.buffers[u[0]].dirty && s.usage + extra > max
    requires freed.buffers == s.buffers - {u[0]} && freed.usage == Minus(s.usage, s.buffers[u[0]].size)
    requires GaveUp(freed, after, Candidates(freed, u[1..]), n, extra, max)
    ensures GaveUp(s, after, Candidates(s, u), n + 1, extra, max)
  {
    CandidatesAfterFree(s, freed, u);
    FirstsAreDistinct(CleanInOrder(s, u));
    hide GaveUp;
    assert Candidates(s, u)[1..] == Candidates(freed, u[1..]);
    GaveUpOneMore(s, freed, after, Candidates(s, u), n, extra, max);
  }

  lemma {:induction false} EvictLoopOrder(s: Store, extra: nat, max: nat, attempts: nat, maxAttempts: nat, u: seq<Path>, r: seq<Path>)
    returns (n: nat)
    requires Scanning(s, attempts, maxAttempts, u, r)
    ensures GaveUp(s, EvictLoop(s, extra, max, attempts, maxAttempts), Candidates(s, u), n, extra, max)
    decreases maxAttempts - attempts, |s.lru|
  {
    n := 0;
    hide GaveUp, Candidates;
    if s.usage + extra <= max || s.lru == [] {
      GaveUpNothing(s, s, Candidates(s, u), extra, max);
    } else if u == [] {
      assert s.lru == r;
      AllDirtyLoop(s, extra, max, attempts, maxAttempts);
      GaveUpNothing(s, EvictLoop(s, extra, max, attempts, maxAttempts), Candidates(s, u), extra, max);
    } else {
      var oldest, rest := u[0], s.lru[1..];
      var after := EvictLoop(s, extra, max, attempts, maxAttempts);
      assert s.lru[0] == oldest;
      if oldest !in s.buffers {
        var next := s.(lru := rest);
        ScanSkips(s, next, attempts, maxAttempts, u, r);
        hide Scanning;
        n := EvictLoopOrder(next, extra, max, attempts, maxAttempts, u[1..], r);
        PassedOver(s, next, after, u, n, extra, max);
      } else if s.buffers[oldest].dirty {
        var rotated := s.(lru := rest + [oldest]);
        ScanRotates(s, rotated, attempts, maxAttempts, u, r);
        if attempts + 1 < maxAttempts {
          n := EvictLoopOrder(rotated, extra, max, attempts + 1, maxAttempts, u[1..], r + [oldest]);
          PassedOver(s, rotated, after, u, n, extra, max);
        } else {
          AllDirtyVictims(s, rotated, u);
          GaveUpNothing(s, rotated, Candidates(s, u), extra, max);
        }
      } else {
        var freed := Store(s.buffers - {oldest}, rest, Minus(s.usage, s.buffers[oldest].size));
        ScanSkips(s, freed, attempts, maxAttempts, u, r);
        hide Scanning;
        n := EvictLoopOrder(freed, extra, max, attempts, maxAttempts, u[1..], r);
        Freed(s, freed, after, u, n, extra, max);
        n := n + 1;
      }
    }
  }

  lemma {:induction false} SameUsage(a: Store, b: Store, victims: seq<Path>, n: nat)
    requires a.buffers == b.buffers && a.usage == b.usage && n <= |victims| && forall p | p in victims :: p in a.buffers
    ensures UsageAfter(a, victims, n) == UsageAfter(b, victims, n)
  {
    if n > 0 {
      SameUsage(a, b, victims, n - 1);
    }
  }

  lemma SameBuffersSame(a: Store, b: Store, after: Store, victims: seq<Path>, n: nat, extra: nat, max: nat)
    requires a.buffers == b.buffers && a.usage == b.usage && GaveUp(b, after, victims, n, extra, max)
    ensures GaveUp(a, after, victims, n, extra, max)
  {
    forall m | 0 <= m <= n ensures UsageAfter(a, victims, m) == UsageAfter(b, victims, m) {
      SameUsage(a, b, victims, m);
    }
  }

  lemma {:induction false} SameClean(a: Store, b: Store, lru: seq<Path>)
    requires a.buffers == b.buffers
    ensures CleanInOrder(a, lru) == CleanInOrder(b, lru)
  {
    if lru != [] {
      SameClean(a, b, lru[1..]);
    }
  }

  lemma CleanCons(s: Store, x: Path, xs: seq<Path>)
    ensures CleanInOrder(s, [x] + xs)
            == if x in s.buffers && !s.buffers[x].dirty then [x] + CleanInOrder(s, xs) else CleanInOrder(s, xs)
  {
    assert ([x] + xs)[1..] == xs;
  }

  lemma Regroup(x: Path, xs: seq<Path>, p: Path)
    ensures ([x] + xs) + [p] == [x] + (xs + [p])
  {
  }

  lemma {:induction false} CleanWithout(s: Store, lru: seq<Path>, p: Path)
    requires p in s.buffers && !s.buffers[p].dirty
    ensures CleanInOrder(s, Without(lru, p) + [p]) == Without(CleanInOrder(s, lru), p) + [p]
  {
    if lru == [] {
      CleanAppend(s, [], p);
    } else {
      CleanWithout(s, lru[1..], p);
      CleanWithoutStep(s, lru[0], lru[1..], p);
      assert lru == [lru[0]] + lru[1..];
      hide CleanInOrder, Without;
    }
  }

  lemma CleanWithoutStep(s: Store, head: Path, rest: seq<Path>, p: Path)
    requires p in s.buffers && !s.buffers[p].dirty
    requires CleanInOrder(s, Without(rest, p) + [p]) == Without(CleanInOrder(s, rest), p) + [p]
    ensures CleanInOrder(s, Without([head] + rest, p) + [p]) == Without(CleanInOrder(s, [head] + rest), p) + [p]
  {
    hide CleanInOrder, Without;
    WithoutCons(head, rest, p);
    WithoutCons(head, CleanInOrder(s, rest), p);
    CleanCons(s, head, rest);
    if head == p {
      CleanAppend(s, rest, p);
    } else {
      CleanCons(s, head, Without(rest, p) + [p]);
      Regroup(head, Without(rest, p), p);
      Regroup(head, Without(CleanInOrder(s, rest), p), p);
    }
  }

  lemma {:induction false} CleanAppend(s: Store, lru: seq<Path>, p: Path)
    requires p in s.buffers && !s.buffers[p].dirty
    ensures CleanInOrder(s, lru + [p]) == CleanInOrder(s, lru) + [p]
  {
    hide CleanInOrder;
    if lru == [] {
      CleanNothing(s);
      CleanCons(s, p, []);
      assert lru + [p] == [p] + [] && [] + [p] == [p] + [];
    } else {
      CleanAppend(s, lru[1..], p);
      CleanCons(s, lru[0], lru[1..]);
      CleanCons(s, lru[0], lru[1..] + [p]);
      assert lru == [lru[0]] + lru[1..];
      Regroup(lru[0], lru[1..], p);
      Regroup(lru[0], CleanInOrder(s, lru[1..]), p);
    }
  }

  lemma CleanNothing(s: Store)
    ensures CleanInOrder(s, []) == []
  {
  }

  /** A clean buffer just used becomes the last candidate for eviction; the order of the
      others does not change. */
  lemma {:induction false} TouchedGoesLast(s: Store, p: Path)
    requires p in s.buffers && !s.buffers[p].dirty
    ensures var after := Touched(s, p);
            CleanInOrder(after, after.lru) == Without(CleanInOrder(s, s.lru), p) + [p]
  {
    CleanWithout(s, s.lru, p);
    SameClean(s, Touched(s, p), Touched(s, p).lru);
  }

  /** Eviction follows recency: although dirty entries are rotated to the back during the
      scan and paths may be queued more than once, what goes is exactly the shortest prefix
      of the clean buffers, in the order of their oldest entries, that makes the counter fit,
      or all of them. */
  lemma {:induction false} EvictFollowsRecency(s: Store, extra: nat, max: nat) returns (n: nat)
    ensures GaveUp(s, Evict(s, extra, max), Candidates(s, s.lru), n, extra, max)
  {
    assert s.lru + [] == s.lru;
    n := EvictLoopOrder(s, extra, max, 0, |s.lru|, s.lru, []);
  }

  // ---------------------------------------------------------------- caching

  /** `after` is `s` with a clean buffer for `p` filed last, once the first `n` candidates
      were given up. With eviction on, `n` is the least that lets the new bytes fit, or all
      candidates; with eviction off nothing goes. */
  ghost predicate FiledIn(l: Limits, s: Store, after: Store, p: Path, content: Bytes, mtime: nat, n: nat) {
    var victims := Candidates(s, s.lru);
    && n <= |victims|
    && (if l.evicting then IsShortest(s, victims, n, |content|, l.maxMemory) else n == 0)
    && Lookup(after.buffers, p) == Some(Buf(content, false, mtime, |content|))
    && (forall q | q != p :: Lookup(after.buffers, q) == if q in victims[..n] then None else Lookup(s.buffers, q))
    && after.usage == UsageAfter(s, victims, n) + |content|
    && after.lru != [] && after.lru[|after.lru| - 1] == p
    && (Queued(s) && l.evicting ==>
          after.usage <= l.maxMemory || forall q | q in after.buffers && q != p :: after.buffers[q].dirty)
  }

  lemma KeptAfter(s: Store, after: Store, victims: seq<Path>, n: nat, extra: nat, max: nat, q: Path)
    requires GaveUp(s, after, victims, n, extra, max)
    ensures Lookup(after.buffers, q) == if q in victims[..n] then None else Lookup(s.buffers, q)
  {
  }

  /** Filing after the scan gave up `n` candidates and left `room`. */
  lemma FiledAfterRoom(l: Limits, s: Store, room: Store, after: Store, p: Path, content: Bytes, mtime: nat, n: nat)
    requires l.evicting && GaveUp(s, room, Candidates(s, s.lru), n, |content|, l.maxMemory)
    requires Queued(s) ==> room.usage + |content| <= l.maxMemory || AllDirty(room)
    requires after == Store(room.buffers[p := NewBuf(content, mtime)], room.lru + [p], room.usage + |content|)
    ensures FiledIn(l, s, after, p, content, mtime, n)
  {
    hide Candidates, UsageAfter;
    var victims := Candidates(s, s.lru);
    forall q | q != p
      ensures Lookup(after.buffers, q) == if q in victims[..n] then None else Lookup(s.buffers, q)
    {
      KeptAfter(s, room, victims, n, |content|, l.maxMemory, q);
      assert Lookup(after.buffers, q) == Lookup(room.buffers, q);
    }
    hide GaveUp, IsShortest;
  }

  lemma FiledWithoutRoom(l: Limits, s: Store, after: Store, p: Path, content: Bytes, mtime: nat)
    requires !l.evicting
    requires after == Store(s.buffers[p := NewBuf(content, mtime)], s.lru + [p], s.usage + |content|)
    ensures FiledIn(l, s, after, p, content, mtime, 0)
  {
    hide Candidates;
  }

  /** Caching a file makes room when eviction is on, and only then: the buffers gone are the
      shortest sufficient prefix of the candidates, the counter is what was kept plus the
      new bytes, and it is within the budget unless all the other buffers left are dirty. */
  lemma {:induction false} CachingMakesRoomExactly(l: Limits, s: Store, p: Path, content: Bytes, mtime: nat) returns (n: nat)
    ensures FiledIn(l, s, Cached(l, s, p, content, mtime), p, content, mtime, n)
  {
    hide FiledIn, Evict, Candidates, GaveUp, SubStore;
    n := 0;
    var after := Cached(l, s, p, content, mtime);
    if l.evicting {
      n := EvictFollowsRecency(s, |content|, l.maxMemory);
      if Queued(s) {
        EvictIsSound(s, |content|, l.maxMemory);
      }
      FiledAfterRoom(l, s, Evict(s, |content|, l.maxMemory), after, p, content, mtime, n);
    } else {
      FiledWithoutRoom(l, s, after, p, content, mtime);
    }
  }
}
