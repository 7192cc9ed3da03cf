/** Oldest-first eviction of the persistent cache
    (crates/omnifuse-core/src/persistent_cache.rs:246-271). */
module CacheEviction {
  import opened Common
  import opened InodeHash

  datatype Blob = Blob(path: Path, mtime: int, size: U64)

  function Sum(blobs: seq<Blob>): nat {
    if blobs == [] then 0 else blobs[0].size + Sum(blobs[1..])
  }

  function Least(a: int, b: int): int {
    if a < b then a else b
  }

  /** The running total of the walk saturates. */
  function Reported(blobs: seq<Blob>): U64 {
    Least(Sum(blobs), U64_MAX)
  }

  lemma SumOfFirst(b: Blob, s: seq<Blob>)
    ensures Sum([b] + s) == b.size + Sum(s)
  {
    assert ([b] + s)[1..] == s;
  }

  // ----- the stable sort by modification time -----

  function Insert(b: Blob, s: seq<Blob>): seq<Blob> {
    if s == [] || b.mtime <= s[0].mtime then [b] + s else [s[0]] + Insert(b, s[1..])
  }

  function SortByMtime(s: seq<Blob>): seq<Blob> {
    if s == [] then [] else Insert(s[0], SortByMtime(s[1..]))
  }

  ghost predicate Ascending(s: seq<Blob>) {
    forall i, j | 0 <= i < j < |s| :: s[i].mtime <= s[j].mtime
  }

  /** The members with one modification time, in order. */
  function OfTime(s: seq<Blob>, t: int): seq<Blob> {
    if s == [] then []
    else if s[0].mtime == t then [s[0]] + OfTime(s[1..], t)
    else OfTime(s[1..], t)
  }

  lemma {:induction false} InsertKeepsAll(b: Blob, s: seq<Blob>)
    ensures multiset(Insert(b, s)) == multiset([b] + s)
    ensures Sum(Insert(b, s)) == b.size + Sum(s)
  {
    if s == [] || b.mtime <= s[0].mtime {
      SumOfFirst(b, s);
    } else {
      InsertKeepsAll(b, s[1..]);
      SumOfFirst(s[0], Insert(b, s[1..]));
      assert s == [s[0]] + s[1..];
    }
  }

  lemma {:induction false} InsertSorts(b: Blob, s: seq<Blob>)
    requires Ascending(s)
    ensures Ascending(Insert(b, s))
  {
    if !(s == [] || b.mtime <= s[0].mtime) {
      InsertSorts(b, s[1..]);
      InsertKeepsAll(b, s[1..]);
      FirstIsLeast(b, s, Insert(b, s[1..]));
    }
  }

  lemma FirstIsLeast(b: Blob, s: seq<Blob>, rest: seq<Blob>)
    requires s != [] && Ascending(s) && s[0].mtime <= b.mtime
    requires Ascending(rest) && multiset(rest) == multiset([b] + s[1..])
    ensures Ascending([s[0]] + rest)
  {
    forall i | 0 <= i < |rest|
      ensures s[0].mtime <= rest[i].mtime
    {
      assert rest[i] in multiset(rest);
      assert rest[i] in [b] + s[1..];
    }
  }

  lemma {:induction false} InsertKeepsTies(b: Blob, s: seq<Blob>, t: int)
    ensures OfTime(Insert(b, s), t) == OfTime([b] + s, t)
  {
    assert ([b] + s)[1..] == s;
    if !(s == [] || b.mtime <= s[0].mtime) {
      InsertKeepsTies(b, s[1..], t);
      assert ([b] + s[1..])[1..] == s[1..];
      assert Insert(b, s)[1..] == Insert(b, s[1..]);
    }
  }

  /** `sort_by_key` on the modification time: ordered, nothing lost, ties kept in order. */
  lemma {:induction false} SortIsStable(s: seq<Blob>, t: int)
    ensures Ascending(SortByMtime(s)) && multiset(SortByMtime(s)) == multiset(s)
    ensures Sum(SortByMtime(s)) == Sum(s)
    ensures OfTime(SortByMtime(s), t) == OfTime(s, t)
  {
    if s != [] {
      SortIsStable(s[1..], t);
      InsertSorts(s[0], SortByMtime(s[1..]));
      InsertKeepsAll(s[0], SortByMtime(s[1..]));
      InsertKeepsTies(s[0], SortByMtime(s[1..]), t);
      assert s == [s[0]] + s[1..];
      assert ([s[0]] + SortByMtime(s[1..]))[1..] == SortByMtime(s[1..]);
    }
  }

  // ----- the eviction loop -----

  /** The deleted blobs: deletion fails for the paths in `stuck`, and those are skipped. */
  function Evicted(queue: seq<Blob>, stuck: set<Path>, over: nat): seq<Blob> {
    if over == 0 || queue == [] then []
    else if queue[0].path in stuck then Evicted(queue[1..], stuck, over)
    else [queue[0]] + Evicted(queue[1..], stuck, if over < queue[0].size then 0 else over - queue[0].size)
  }

  function Excess(blobs: seq<Blob>, budget: U64): nat {
    if Reported(blobs) <= budget then 0 else Reported(blobs) - budget
  }

  /** The members whose path is in the set, or is not. */
  function Removable(s: seq<Blob>, stuck: set<Path>): seq<Blob> {
    if s == [] then []
    else if s[0].path in stuck then Removable(s[1..], stuck)
    else [s[0]] + Removable(s[1..], stuck)
  }

  function Stuck(s: seq<Blob>, stuck: set<Path>): seq<Blob> {
    if s == [] then []
    else if s[0].path in stuck then [s[0]] + Stuck(s[1..], stuck)
    else Stuck(s[1..], stuck)
  }

  function PathsOf(s: seq<Blob>): set<Path> {
    set b | b in s :: b.path
  }

  /** No path twice. */
  ghost predicate Distinct(s: seq<Blob>) {
    forall i, j | 0 <= i < j < |s| :: s[i].path != s[j].path
  }

  /** The listing of a directory: each file once. */
  ghost predicate Lists(listing: seq<Blob>, files: map<Path, Blob>) {
    && Distinct(listing)
    && (forall b | b in listing :: Lookup(files, b.path) == Some(b))
    && (forall p | p in files :: files[p].path == p && files[p] in listing)
  }

  /** The walk's running total. */
  method TotalOf(listing: seq<Blob>) returns (total: U64)
    ensures total == Reported(listing)
  {
    total := 0;
    for i := 0 to |listing|
      invariant total == Reported(listing[..i])
    {
      SumOfLast(listing[..i + 1]);
      assert listing[..i + 1][..i] == listing[..i];
      total := Least(total + listing[i].size, U64_MAX);
    }
    assert listing[..|listing|] == listing;
  }

  class CacheDirectory {
    var files: map<Path, Blob>
    const maxBytes: U64

    /** `stuck` are the paths whose removal reports an error. */
    method EvictToBudget(listing: seq<Blob>, stuck: set<Path>)
      requires Lists(listing, files)
      modifies this
      ensures files == old(files) - PathsOf(Evicted(SortByMtime(listing), stuck, Excess(listing, maxBytes)))
      ensures Sum(listing) <= maxBytes ==> files == old(files)
    {
      var total := TotalOf(listing);
      if total <= maxBytes {
        NothingDeleted(files, Evicted(SortByMtime(listing), stuck, Excess(listing, maxBytes)));
        return;
      }
      EvictOver(SortByMtime(listing), stuck, total - maxBytes);
    }

    /** The loop over the sorted blobs. */
    method EvictOver(queue: seq<Blob>, stuck: set<Path>, excess: nat)
      modifies this
      ensures files == old(files) - PathsOf(Evicted(queue, stuck, excess))
    {
      hide *;
      var over := excess;
      ghost var deleted := [];
      NothingDeleted(files, deleted);
      ghost var rest := queue;
      for i := 0 to |queue|
        invariant over >= 0 && rest == queue[i..]
        invariant files == old(files) - PathsOf(deleted)
        invariant deleted + Evicted(rest, stuck, over) == Evicted(queue, stuck, excess)
      {
        if over == 0 {
          break;
        }
        EvictedStep(queue, i, stuck, over);
        DeletedOneMore(old(files), deleted, queue[i]);
        if queue[i].path !in stuck {
          files := files - {queue[i].path};
          deleted := deleted + [queue[i]];
          over := if over < queue[i].size then 0 else over - queue[i].size;
        }
        rest := queue[i + 1..];
      }
      EvictedEnds(rest, stuck, over);
      assert deleted + [] == deleted;
    }
  }

  lemma EvictedStep(queue: seq<Blob>, i: nat, stuck: set<Path>, over: nat)
    requires i < |queue| && over > 0
    ensures Evicted(queue[i..], stuck, over)
            == if queue[i].path in stuck then Evicted(queue[i + 1..], stuck, over)
               else [queue[i]] + Evicted(queue[i + 1..], stuck, if over < queue[i].size then 0 else over - queue[i].size)
  {
    assert queue[i..][1..] == queue[i + 1..];
  }

  lemma EvictedEnds(queue: seq<Blob>, stuck: set<Path>, over: nat)
    requires over == 0 || queue == []
    ensures Evicted(queue, stuck, over) == []
  {
  }

  lemma DeletedOneMore(files: map<Path, Blob>, deleted: seq<Blob>, b: Blob)
    ensures files - PathsOf(deleted + [b]) == files - PathsOf(deleted) - {b.path}
  {
    assert PathsOf(deleted + [b]) == PathsOf(deleted) + {b.path};
  }

  lemma NothingDeleted(files: map<Path, Blob>, deleted: seq<Blob>)
    requires deleted == []
    ensures files - PathsOf(deleted) == files
  {
    assert PathsOf(deleted) == {};
  }

  lemma {:induction false} SumOfLast(s: seq<Blob>)
    requires s != []
    ensures Sum(s) == Sum(s[..|s| - 1]) + s[|s| - 1].size
  {
    if |s| > 1 {
      SumOfLast(s[1..]);
      assert s[1..][..|s| - 2] == s[..|s| - 1][1..];
    }
  }

  // ----- what is deleted -----

  /** The deleted blobs are the removable ones of the shortest prefix of the queue that
      frees enough, or of the whole queue when nothing frees enough. */
  lemma {:induction false} EvictsShortestPrefix(queue: seq<Blob>, stuck: set<Path>, over: nat) returns (k: nat)
    ensures k <= |queue| && Evicted(queue, stuck, over) == Removable(queue[..k], stuck)
    ensures over <= Sum(Removable(queue[..k], stuck)) || k == |queue|
    ensures forall j | 0 <= j < k :: Sum(Removable(queue[..j], stuck)) < over
  {
    if over == 0 || queue == [] {
      k := 0;
    } else {
      var b := queue[0];
      var left := if b.path in stuck then over else if over < b.size then 0 else over - b.size;
      var n := EvictsShortestPrefix(queue[1..], stuck, left);
      k := n + 1;
      forall j | 0 <= j <= n
        ensures Removable(queue[..j + 1], stuck)
                == if b.path in stuck then Removable(queue[1..][..j], stuck) else [b] + Removable(queue[1..][..j], stuck)
      {
        assert queue[..j + 1][1..] == queue[1..][..j];
      }
      forall j | 0 <= j < k
        ensures Sum(Removable(queue[..j], stuck)) < over
      {
        if j == 0 {
          assert Removable(queue[..0], stuck) == [];
        } else {
          SumOfFirst(b, Removable(queue[1..][..j - 1], stuck));
          assert Removable(queue[..j - 1 + 1], stuck)
              == if b.path in stuck then Removable(queue[1..][..j - 1], stuck)
                 else [b] + Removable(queue[1..][..j - 1], stuck);
          assert Sum(Removable(queue[1..][..j - 1], stuck)) < left;
        }
      }
    }
  }

  lemma {:induction false} RemovableAndStuck(s: seq<Blob>, stuck: set<Path>)
    ensures Sum(Removable(s, stuck)) + Sum(Stuck(s, stuck)) == Sum(s)
    ensures forall b :: b in Removable(s, stuck) <==> b in s && b.path !in stuck
    ensures forall b :: b in Stuck(s, stuck) <==> b in s && b.path in stuck
  {
    if s != [] {
      RemovableAndStuck(s[1..], stuck);
      assert s == [s[0]] + s[1..];
      SumOfFirst(s[0], Removable(s[1..], stuck));
      SumOfFirst(s[0], Stuck(s[1..], stuck));
    }
  }

  lemma {:induction false} SumOfParts(a: seq<Blob>, b: seq<Blob>)
    ensures Sum(a + b) == Sum(a) + Sum(b)
  {
    if a == [] {
      assert a + b == b;
    } else {
      SumOfParts(a[1..], b);
      assert (a + b)[1..] == a[1..] + b;
    }
  }

  lemma {:induction false} StuckKeepsDistance(s: seq<Blob>, stuck: set<Path>)
    requires Distinct(s)
    ensures Distinct(Stuck(s, stuck))
  {
    if s != [] {
      StuckKeepsDistance(s[1..], stuck);
      RemovableAndStuck(s[1..], stuck);
      var rest := Stuck(s[1..], stuck);
      forall i | 0 <= i < |rest|
        ensures s[0].path != rest[i].path
      {
        assert rest[i] in s[1..];
        var j :| 0 <= j < |s[1..]| && s[1..][j] == rest[i];
        assert s[j + 1] == rest[i];
      }
    }
  }

  lemma SortedStillLists(listing: seq<Blob>, files: map<Path, Blob>)
    requires Lists(listing, files)
    ensures Lists(SortByMtime(listing), files)
  {
    var queue := SortByMtime(listing);
    SortIsStable(listing, 0);
    forall b
      ensures b in queue <==> b in listing
    {
      assert b in queue <==> b in multiset(queue);
      assert b in listing <==> b in multiset(listing);
    }
    forall i, j | 0 <= i < j < |queue|
      ensures queue[i].path != queue[j].path
    {
      if queue[i].path == queue[j].path {
        assert queue[i] in listing && queue[j] in listing;
        assert Lookup(files, queue[i].path) == Some(queue[i]) && Lookup(files, queue[j].path) == Some(queue[j]);
        Twice(queue, i, j);
        var a :| 0 <= a < |listing| && listing[a] == queue[i];
        Once(listing, a);
      }
    }
  }

  lemma Twice(s: seq<Blob>, i: nat, j: nat)
    requires i < j < |s| && s[i] == s[j]
    ensures multiset(s)[s[i]] >= 2
  {
    assert s == s[..i] + [s[i]] + s[i + 1..j] + [s[j]] + s[j + 1..];
  }

  lemma Once(s: seq<Blob>, a: nat)
    requires a < |s| && Distinct(s)
    ensures multiset(s)[s[a]] == 1
  {
    assert s == s[..a] + [s[a]] + s[a + 1..];
    assert s[a] !in s[..a] && s[a] !in s[a + 1..];
  }

  /** After eviction the directory holds exactly `left`, and its size is accounted for:
      with no failing removal it fits the budget; the files deleted are the oldest; nothing
      goes while the walk's total, capped at the width of its counter, is within the budget;
      and no shorter stretch of the queue would have brought that total down to it. */
  lemma EvictionMeetsBudget(listing: seq<Blob>, files: map<Path, Blob>, stuck: set<Path>, budget: U64)
    returns (k: nat, left: seq<Blob>)
    requires Lists(listing, files)
    ensures var queue, deleted := SortByMtime(listing), Evicted(SortByMtime(listing), stuck, Excess(listing, budget));
            && k <= |queue| && deleted == Removable(queue[..k], stuck)
            && Lists(left, files - PathsOf(deleted))
            && Sum(left) + Sum(deleted) == Sum(listing)
            && (stuck == {} && Sum(listing) <= U64_MAX ==> Sum(left) <= budget)
            && (Sum(listing) <= budget ==> deleted == [])
            && var total := if Sum(listing) <= U64_MAX then Sum(listing) else U64_MAX;
            && (total - Sum(deleted) <= budget || k == |queue|)
            && (forall j | 0 <= j < k :: total - Sum(Removable(queue[..j], stuck)) > budget)
            && (forall d, b | d in deleted && b in left && b.path !in stuck :: d.mtime <= b.mtime)
  {
    var queue := SortByMtime(listing);
    SortIsStable(listing, 0);
    SortedStillLists(listing, files);
    k := EvictsShortestPrefix(queue, stuck, Excess(listing, budget));
    left := Stuck(queue[..k], stuck) + queue[k..];
    LeftIsListed(queue, files, stuck, k);
    BytesAddUp(queue, stuck, k);
    OldestGoFirst(queue, stuck, k);
    if k > 0 {
      assert Sum(Removable(queue[..0], stuck)) < Excess(listing, budget);
    }
  }

  lemma BytesAddUp(queue: seq<Blob>, stuck: set<Path>, k: nat)
    requires k <= |queue|
    ensures Sum(Stuck(queue[..k], stuck) + queue[k..]) + Sum(Removable(queue[..k], stuck)) == Sum(queue)
    ensures stuck == {} && k == |queue| ==> Sum(Stuck(queue[..k], stuck) + queue[k..]) == 0
  {
    var front, back := queue[..k], queue[k..];
    assert queue == front + back;
    SumOfParts(front, back);
    SumOfParts(Stuck(front, stuck), back);
    RemovableAndStuck(front, stuck);
    if stuck == {} && k == |queue| {
      assert forall i | 0 <= i < |Stuck(front, stuck)| :: Stuck(front, stuck)[i] in Stuck(front, stuck);
    }
  }

  lemma OldestGoFirst(queue: seq<Blob>, stuck: set<Path>, k: nat)
    requires Ascending(queue) && k <= |queue|
    ensures forall d, b | d in Removable(queue[..k], stuck) && b in Stuck(queue[..k], stuck) + queue[k..] && b.path !in stuck ::
              d.mtime <= b.mtime
  {
    var front, back := queue[..k], queue[k..];
    RemovableAndStuck(front, stuck);
    forall d, b | d in Removable(front, stuck) && b in Stuck(front, stuck) + back && b.path !in stuck
      ensures d.mtime <= b.mtime
    {
      assert b in back;
      var i :| 0 <= i < k && queue[i] == d;
      var j :| 0 <= j < |back| && back[j] == b;
      assert queue[k + j] == b;
    }
  }

  lemma LeftIsListed(queue: seq<Blob>, files: map<Path, Blob>, stuck: set<Path>, k: nat)
    requires Lists(queue, files) && k <= |queue|
    ensures Lists(Stuck(queue[..k], stuck) + queue[k..], files - PathsOf(Removable(queue[..k], stuck)))
  {
    var front, back := queue[..k], queue[k..];
    var deleted := Removable(front, stuck);
    var left, files' := Stuck(front, stuck) + back, files - PathsOf(deleted);
    RemovableAndStuck(front, stuck);
    LeftIsDistinct(queue, stuck, k);
    FrontAndBackDiffer(queue, k);
    hide Removable, Stuck, Distinct, PathsOf;
    InEither(queue, k);
    WithoutDeleted(queue, files, deleted, left);
  }

  lemma InEither(queue: seq<Blob>, k: nat)
    requires k <= |queue|
    ensures forall b :: b in queue <==> b in queue[..k] || b in queue[k..]
  {
    assert queue == queue[..k] + queue[k..];
  }

  /** Taking some listed files away leaves the listing of the others. */
  lemma WithoutDeleted(queue: seq<Blob>, files: map<Path, Blob>, deleted: seq<Blob>, left: seq<Blob>)
    requires Lists(queue, files)
    requires Distinct(left)
    requires forall b :: b in queue <==> b in deleted || b in left
    requires forall d, b | d in deleted && b in left :: d.path != b.path
    ensures Lists(left, files - PathsOf(deleted))
  {
    var files' := files - PathsOf(deleted);
    forall b | b in left
      ensures Lookup(files', b.path) == Some(b)
    {
      assert b in queue && b.path !in PathsOf(deleted);
    }
    forall p | p in files'
      ensures files'[p].path == p && files'[p] in left
    {
      assert files[p] in queue && files[p] !in deleted;
    }
  }

  lemma FrontAndBackDiffer(queue: seq<Blob>, k: nat)
    requires Distinct(queue)
    requires k <= |queue|
    ensures forall x, y | x in queue[..k] && y in queue[k..] :: x.path != y.path
  {
    forall x, y | x in queue[..k] && y in queue[k..]
      ensures x.path != y.path
    {
      var i :| 0 <= i < k && queue[i] == x;
      var j :| 0 <= j < |queue[k..]| && queue[k..][j] == y;
      assert queue[k + j] == y;
    }
  }

  lemma LeftIsDistinct(queue: seq<Blob>, stuck: set<Path>, k: nat)
    requires Distinct(queue)
    requires k <= |queue|
    ensures Distinct(Stuck(queue[..k], stuck) + queue[k..])
  {
    StuckKeepsDistance(queue[..k], stuck);
    RemovableAndStuck(queue[..k], stuck);
    FrontAndBackDiffer(queue, k);
    hide Stuck, Removable;
    JoinedDistinct(Stuck(queue[..k], stuck), queue[k..]);
  }

  lemma JoinedDistinct(a: seq<Blob>, b: seq<Blob>)
    requires Distinct(a) && Distinct(b) && forall x, y | x in a && y in b :: x.path != y.path
    ensures Distinct(a + b)
  {
    var all, n := a + b, |a|;
    forall i, j | 0 <= i < j < |all|
      ensures all[i].path != all[j].path
    {
      if i < n && n <= j {
        assert all[i] in a && all[j] in b;
      }
    }
  }
}
