/** Two loops of the FUSE adapter: copying a range between open files and resuming a
    directory listing (crates/unifuse/src/rfuse3_adapter.rs:358-416, 838-886). */
module Rfuse3Adapter {
  import opened Common
  import opened BufferStore
  import opened FileBuffers

  const MAX_WRITE: nat := 1024 * 1024

  function Least(a: nat, b: nat): nat {
    if a < b then a else b
  }

  /** Bytes of `content` from `offset` on. */
  function Available(content: Bytes, offset: nat): nat {
    Minus(|content|, offset)
  }

  // ----- copying -----

  /** A buffer's content after one write. */
  function Put(content: Bytes, offset: nat, data: Bytes): Bytes {
    WriteAt(content, offset, data)
  }

  lemma AdjacentPuts(content: Bytes, offset: nat, a: Bytes, b: Bytes)
    ensures Put(Put(content, offset, a), offset + |a|, b) == Put(content, offset, a + b)
  {
    AdjacentWrites(content, offset, a, b);
  }

  lemma WrittenIsPut(b: Buf, offset: nat, data: Bytes, now: nat)
    ensures var after := Written(b, offset, data, now);
            after.content == Put(b.content, offset, data) && after.dirty && after.size == |after.content|
  {
  }

  /** The loop when both handles share one buffer: it reads what it has written. */
  function CopiedOnto(content: Bytes, offIn: nat, offOut: nat, length: nat, copied: nat): (Bytes, nat)
    requires copied <= length
    decreases length - copied
  {
    if copied == length then (content, copied)
    else
      var chunk := ReadAt(content, offIn + copied, Least(length - copied, MAX_WRITE));
      if chunk == [] then (content, copied)
      else CopiedOnto(Put(content, offOut + copied, chunk), offIn, offOut, length, copied + |chunk|)
  }

  /** The destination after `copied` bytes of `source` have been copied. */
  predicate Placed(original: Bytes, content: Bytes, source: Bytes, offIn: nat, offOut: nat, copied: nat) {
    && (copied > 0 ==> offIn + copied <= |source|)
    && content == if copied == 0 then original else Put(original, offOut, source[offIn..offIn + copied])
  }

  lemma ReadsNext(source: Bytes, offIn: nat, copied: nat, n: nat)
    ensures var chunk := ReadAt(source, offIn + copied, n);
            && |chunk| == Least(n, Available(source, offIn + copied))
            && (chunk != [] ==>
                  && offIn + copied + |chunk| <= |source|
                  && source[offIn..offIn + copied] + chunk == source[offIn..offIn + copied + |chunk|])
  {
  }

  lemma PlacedStep(original: Bytes, content: Bytes, source: Bytes, offIn: nat, offOut: nat, copied: nat, n: nat)
    requires Placed(original, content, source, offIn, offOut, copied)
    ensures var chunk := ReadAt(source, offIn + copied, n);
            && |chunk| == Least(n, Available(source, offIn + copied))
            && (chunk != [] ==> Placed(original, Put(content, offOut + copied, chunk), source, offIn, offOut,
                                       copied + |chunk|))
  {
    hide Put, ReadAt;
    ReadsNext(source, offIn, copied, n);
    var chunk := ReadAt(source, offIn + copied, n);
    if chunk != [] {
      if copied == 0 {
        assert source[offIn..offIn + |chunk|] == chunk;
      } else {
        AdjacentPuts(original, offOut, source[offIn..offIn + copied], chunk);
      }
    }
  }

  lemma CopiedOntoStep(content: Bytes, offIn: nat, offOut: nat, length: nat, copied: nat)
    requires copied < length
    ensures var chunk := ReadAt(content, offIn + copied, Least(length - copied, MAX_WRITE));
            && |chunk| <= length - copied
            && CopiedOnto(content, offIn, offOut, length, copied)
               == if chunk == [] then (content, copied)
                  else CopiedOnto(Put(content, offOut + copied, chunk), offIn, offOut, length, copied + |chunk|)
  {
    hide Put;
  }

  /** What copying comes to. On different files: as many bytes as the source still has, put
      down as one write of the whole range. On one file: the loop above. */
  predicate Outcome(
    same: bool, before: Bytes, content: Bytes, source: Bytes, offIn: nat, offOut: nat, length: nat, copied: nat)
  {
    if same then (content, copied) == CopiedOnto(before, offIn, offOut, length, 0)
    else copied == Least(length, Available(source, offIn)) && Placed(before, content, source, offIn, offOut, copied)
  }

  predicate Progress(
    same: bool, before: Bytes, content: Bytes, source: Bytes, offIn: nat, offOut: nat, length: nat, copied: nat)
  {
    && copied <= length
    && if same then
         content == source && CopiedOnto(content, offIn, offOut, length, copied) == CopiedOnto(before, offIn, offOut, length, 0)
       else
         Placed(before, content, source, offIn, offOut, copied) && (copied > 0 ==> copied <= Available(source, offIn))
  }

  lemma ProgressStarts(same: bool, content: Bytes, source: Bytes, offIn: nat, offOut: nat, length: nat)
    requires same ==> content == source
    ensures Progress(same, content, content, source, offIn, offOut, length, 0)
  {
  }

  lemma ProgressStep(
    same: bool, before: Bytes, content: Bytes, source: Bytes, offIn: nat, offOut: nat, length: nat, copied: nat)
    requires Progress(same, before, content, source, offIn, offOut, length, copied) && copied < length
    ensures var chunk := ReadAt(source, offIn + copied, Least(length - copied, MAX_WRITE));
            var content' := Put(content, offOut + copied, chunk);
            && |chunk| <= length - copied
            && (chunk == [] ==> Outcome(same, before, content, source, offIn, offOut, length, copied))
            && (chunk != [] ==> Progress(same, before, content', if same then content' else source, offIn, offOut,
                                         length, copied + |chunk|))
  {
    hide Placed, Put, ReadAt, CopiedOnto, Available;
    if same {
      CopiedOntoStep(content, offIn, offOut, length, copied);
    } else {
      PlacedStep(before, content, source, offIn, offOut, copied, Least(length - copied, MAX_WRITE));
      Remaining(source, offIn, copied, Least(length - copied, MAX_WRITE));
    }
  }

  lemma ProgressDone(
    same: bool, before: Bytes, content: Bytes, source: Bytes, offIn: nat, offOut: nat, length: nat, copied: nat)
    requires Progress(same, before, content, source, offIn, offOut, length, copied) && copied == length
    ensures Outcome(same, before, content, source, offIn, offOut, length, copied)
  {
    CopiedAll(content, offIn, offOut, length);
  }

  /** One read and one write of the loop. */
  method CopyChunk(
    input: FileBuffer, offIn: nat, output: FileBuffer, offOut: nat, length: nat, copied: nat, clock: Disk,
    ghost before: Bytes)
    returns (written: nat)
    requires Progress(input == output, before, output.content, input.content, offIn, offOut, length, copied)
    requires copied < length
    modifies output, clock`clock
    ensures copied + written <= length && (input != output ==> input.content == old(input.content))
    ensures if written == 0 then
              && output.State() == old(output.State())
              && Outcome(input == output, before, output.content, input.content, offIn, offOut, length, copied)
            else
              && Progress(input == output, before, output.content, input.content, offIn, offOut, length, copied + written)
              && output.dirty && output.size == |output.content|
  {
    hide Progress, Outcome, Put, ReadAt, Written, Placed, CopiedOnto;
    ProgressStep(input == output, before, output.content, input.content, offIn, offOut, length, copied);
    var chunk := input.Read(offIn + copied, Least(length - copied, MAX_WRITE));
    if chunk == [] {
      return 0;
    }
    var now := clock.Now();
    WrittenIsPut(output.State(), offOut + copied, chunk, now);
    written := output.Write(offOut + copied, chunk, now);
  }

  method CopyFileRange(input: FileBuffer, offIn: nat, output: FileBuffer, offOut: nat, length: nat, clock: Disk)
    returns (copied: nat)
    modifies output, clock`clock
    ensures Outcome(input == output, old(output.content), output.content, old(input.content), offIn, offOut, length, copied)
    ensures if copied == 0 then output.State() == old(output.State()) else output.dirty && output.size == |output.content|
  {
    hide Progress, Outcome, Put, ReadAt, Written, Placed, CopiedOnto;
    ghost var before := output.content;
    copied := 0;
    ProgressStarts(input == output, output.content, input.content, offIn, offOut, length);
    while copied < length
      invariant copied <= length && (input != output ==> input.content == old(input.content))
      invariant Progress(input == output, before, output.content, input.content, offIn, offOut, length, copied)
      invariant if copied == 0 then output.State() == old(output.State())
                else output.dirty && output.size == |output.content|
    {
      var written := CopyChunk(input, offIn, output, offOut, length, copied, clock, before);
      if written == 0 {
        SourceIsOriginal(input == output, before, output.content, input.content, old(input.content), offIn, offOut, length,
                         copied);
        return;
      }
      copied := copied + written;
    }
    ProgressDone(input == output, before, output.content, input.content, offIn, offOut, length, copied);
    SourceIsOriginal(input == output, before, output.content, input.content, old(input.content), offIn, offOut, length,
                     copied);
  }

  /** On one file the outcome does not speak of the source. */
  lemma SourceIsOriginal(
    same: bool, before: Bytes, content: Bytes, source: Bytes, original: Bytes, offIn: nat, offOut: nat, length: nat,
    copied: nat)
    requires Outcome(same, before, content, source, offIn, offOut, length, copied) && (!same ==> source == original)
    ensures Outcome(same, before, content, original, offIn, offOut, length, copied)
  {
  }

  lemma Remaining(source: Bytes, offIn: nat, copied: nat, n: nat)
    requires n > 0
    ensures Available(source, offIn + copied) == Minus(Available(source, offIn), copied)
  {
  }

  lemma CopiedAll(content: Bytes, offIn: nat, offOut: nat, length: nat)
    ensures CopiedOnto(content, offIn, offOut, length, length) == (content, length)
  {
  }

  // ----- copying inside one file -----

  /** Destination before source: the loop never reads what it wrote and never grows the file. */
  lemma {:induction false} BackwardCount(content: Bytes, offIn: nat, offOut: nat, length: nat, copied: nat)
    requires offOut <= offIn && copied <= Least(length, Available(content, offIn))
    ensures CopiedOnto(content, offIn, offOut, length, copied).1 == Least(length, Available(content, offIn))
    decreases length - copied
  {
    if copied < length {
      CopiedOntoStep(content, offIn, offOut, length, copied);
      var chunk := ReadAt(content, offIn + copied, Least(length - copied, MAX_WRITE));
      if chunk != [] {
        BackwardCount(Put(content, offOut + copied, chunk), offIn, offOut, length, copied + |chunk|);
      }
    }
  }

  /** Destination after source: each write puts bytes ahead of the next read. */
  lemma {:induction false} ForwardCount(content: Bytes, offIn: nat, offOut: nat, length: nat, copied: nat)
    requires offIn < offOut && copied <= length && offIn + copied < |content|
    ensures CopiedOnto(content, offIn, offOut, length, copied).1 == length
    decreases length - copied
  {
    if copied < length {
      CopiedOntoStep(content, offIn, offOut, length, copied);
      var chunk := ReadAt(content, offIn + copied, Least(length - copied, MAX_WRITE));
      assert chunk != [];
      ForwardCount(Put(content, offOut + copied, chunk), offIn, offOut, length, copied + |chunk|);
    }
  }

  /** How many bytes a copy inside one file reports, for all inputs: the lesser of the
      request and what the file had left if and only if the destination does not lie after
      the source, or the source was long enough, or there was nothing to read. Otherwise the
      loop feeds on its own output until the request is met. */
  lemma {:induction false} SelfCopyCountsExactly(content: Bytes, offIn: nat, offOut: nat, length: nat)
    ensures var available, copied := Available(content, offIn), CopiedOnto(content, offIn, offOut, length, 0).1;
            && copied == (if offIn < offOut && available > 0 then length else Least(length, available))
            && (copied == Least(length, available) <==> offOut <= offIn || length <= available || available == 0)
  {
    if offOut <= offIn {
      BackwardCount(content, offIn, offOut, length, 0);
    } else if Available(content, offIn) > 0 {
      ForwardCount(content, offIn, offOut, length, 0);
    } else if length > 0 {
      CopiedOntoStep(content, offIn, offOut, length, 0);
    }
  }

  /** The copy is what it would be between two files: as many bytes as were there, put down
      as one write of the original range. */
  predicate CopiesOnce(content: Bytes, offIn: nat, offOut: nat, length: nat) {
    var r := CopiedOnto(content, offIn, offOut, length, 0);
    r.1 == Least(length, Available(content, offIn)) && Placed(content, r.0, content, offIn, offOut, r.1)
  }

  /** Destination not after the source, nothing to read, or a source that is long enough and
      that the destination does not meet or that fits one chunk of a mebibyte. */
  predicate Apart(size: nat, offIn: nat, offOut: nat, length: nat) {
    || offOut <= offIn
    || size <= offIn
    || (offIn + length <= size && (offIn + length <= offOut || length <= 1_048_576))
  }

  /** What is read next is still what the file held before the copy. */
  lemma ReadsOriginal(content: Bytes, original: Bytes, offIn: nat, offOut: nat, length: nat, copied: nat, n: nat)
    requires Placed(original, content, original, offIn, offOut, copied) && copied + n <= length
    requires offOut <= offIn || (offIn + length <= |original| && offIn + length <= offOut)
    ensures ReadAt(content, offIn + copied, n) == ReadAt(original, offIn + copied, n)
  {
    if copied > 0 {
      SameFrom(content, original, offIn, offOut, length, copied);
      hide Put, Placed;
      var k := offIn + copied;
      assert ReadAt(content, k, n) == ReadAt(original, k, n);
    }
  }

  lemma SameFrom(content: Bytes, original: Bytes, offIn: nat, offOut: nat, length: nat, copied: nat)
    requires Placed(original, content, original, offIn, offOut, copied) && 0 < copied <= length
    requires offOut <= offIn || (offIn + length <= |original| && offIn + length <= offOut)
    ensures offOut <= offIn ==> |content| == |original|
    ensures |original| <= |content|
    ensures forall k | offIn + copied <= k < |original| && (offOut <= offIn || k < offIn + length) :: content[k] == original[k]
  {
  }

  lemma {:induction false} ApartCopy(
    content: Bytes, offIn: nat, offOut: nat, length: nat, copied: nat, original: Bytes)
    requires offOut <= offIn || (offIn + length <= |original| && offIn + length <= offOut)
    requires copied <= length && Placed(original, content, original, offIn, offOut, copied)
    ensures var r := CopiedOnto(content, offIn, offOut, length, copied);
            Placed(original, r.0, original, offIn, offOut, r.1)
    decreases length - copied
  {
    hide Put, ReadAt, CopiedOnto, Placed;
    if copied == length {
      CopiedAll(content, offIn, offOut, length);
    } else {
      var n := Least(length - copied, MAX_WRITE);
      var chunk := ReadAt(content, offIn + copied, n);
      ReadsOriginal(content, original, offIn, offOut, length, copied, n);
      PlacedStep(original, content, original, offIn, offOut, copied, n);
      CopiedOntoStep(content, offIn, offOut, length, copied);
      if chunk != [] {
        ApartCopy(Put(content, offOut + copied, chunk), offIn, offOut, length, copied + |chunk|, original);
      }
    }
  }

  lemma ApartCopiesOnce(content: Bytes, offIn: nat, offOut: nat, length: nat)
    requires Apart(|content|, offIn, offOut, length)
    ensures CopiesOnce(content, offIn, offOut, length)
  {
    SelfCopyCountsExactly(content, offIn, offOut, length);
    assert Placed(content, content, content, offIn, offOut, 0);
    if offOut <= offIn || (offIn + length <= |content| && offIn + length <= offOut) {
      ApartCopy(content, offIn, offOut, length, 0, content);
    } else if length > 0 {
      CopiedOntoStep(content, offIn, offOut, length, 0);
      if offIn < |content| {
        PlacedStep(content, content, content, offIn, offOut, 0, length);
        CopiedAll(Put(content, offOut, ReadAt(content, offIn, length)), offIn, offOut, length);
      }
    }
    hide Put, ReadAt, CopiedOnto, Placed;
  }

  predicate AllZero(content: Bytes) {
    forall i | 0 <= i < |content| :: content[i] == 0
  }

  lemma ZeroPut(content: Bytes, offset: nat, data: Bytes)
    requires AllZero(content) && AllZero(data)
    ensures AllZero(Put(content, offset, data))
  {
    var r := Put(content, offset, data);
    forall i | 0 <= i < |r|
      ensures r[i] == 0
    {
      if offset <= i < offset + |data| {
        assert r[i] == r[offset..offset + |data|][i - offset];
      }
    }
  }

  lemma ZeroRead(content: Bytes, offset: nat, n: nat)
    requires AllZero(content)
    ensures AllZero(ReadAt(content, offset, n))
  {
  }

  lemma {:induction false} ZerosStay(content: Bytes, offIn: nat, offOut: nat, length: nat, copied: nat)
    requires AllZero(content) && copied <= length
    ensures AllZero(CopiedOnto(content, offIn, offOut, length, copied).0)
    decreases length - copied
  {
    hide Put, ReadAt, CopiedOnto, AllZero;
    if copied == length {
      CopiedAll(content, offIn, offOut, length);
    } else {
      CopiedOntoStep(content, offIn, offOut, length, copied);
      var chunk := ReadAt(content, offIn + copied, Least(length - copied, MAX_WRITE));
      ZeroRead(content, offIn + copied, Least(length - copied, MAX_WRITE));
      if chunk != [] {
        ZeroPut(content, offOut + copied, chunk);
        ZerosStay(Put(content, offOut + copied, chunk), offIn, offOut, length, copied + |chunk|);
      }
    }
  }

  /** A single byte that the first chunk overwrites before it is read. */
  function OneByte(size: nat, at: nat): (r: Bytes)
    ensures |r| == size
  {
    seq(size, i => if i == at then 1 else 0)
  }

  lemma ErasingPut(content: Bytes, offset: nat, data: Bytes, at: nat)
    requires AllZero(data) && offset <= at < offset + |data|
    requires forall i | 0 <= i < |content| && i != at :: content[i] == 0
    ensures AllZero(Put(content, offset, data))
  {
    var after := Put(content, offset, data);
    forall i | 0 <= i < |after|
      ensures after[i] == 0
    {
      if offset <= i < offset + |data| {
        assert after[i] == after[offset..offset + |data|][i - offset];
      }
    }
  }

  lemma FirstChunkErases(size: nat, offIn: nat, offOut: nat, length: nat, at: nat)
    requires offIn < offOut < offIn + length <= size && MAX_WRITE < length
    requires at == offIn + (if MAX_WRITE < offOut - offIn then offOut - offIn else MAX_WRITE)
    ensures AllZero(CopiedOnto(OneByte(size, at), offIn, offOut, length, 0).0)
  {
    var content := OneByte(size, at);
    var chunk := ReadAt(content, offIn, MAX_WRITE);
    assert |chunk| == MAX_WRITE && AllZero(chunk);
    assert forall i | 0 <= i < |content| && i != at :: content[i] == 0;
    hide Put, ReadAt, CopiedOnto, OneByte, AllZero;
    CopiedOntoStep(content, offIn, offOut, length, 0);
    ErasingPut(content, offOut, chunk, at);
    ZerosStay(Put(content, offOut, chunk), offIn, offOut, length, MAX_WRITE);
  }

  lemma ShortSourceShows(content: Bytes, offIn: nat, offOut: nat, length: nat)
    requires offIn < offOut && offIn < |content| < offIn + length
    ensures !CopiesOnce(content, offIn, offOut, length)
  {
    SelfCopyCountsExactly(content, offIn, offOut, length);
    hide CopiedOnto, Placed;
  }

  lemma OneByteShows(size: nat, offIn: nat, offOut: nat, length: nat, at: nat)
    requires offIn < offOut < offIn + length <= size && MAX_WRITE < length
    requires at == offIn + (if MAX_WRITE < offOut - offIn then offOut - offIn else MAX_WRITE)
    ensures !CopiesOnce(OneByte(size, at), offIn, offOut, length)
  {
    var content := OneByte(size, at);
    var data := content[offIn..offIn + length];
    assert data[at - offIn] == 1;
    hide CopiedOnto, Put, OneByte, AllZero, ReadAt, CopiesOnce;
    FirstChunkErases(size, offIn, offOut, length, at);
    PutShows(content, offOut, data, at - offIn);
    ZerosDiffer(CopiedOnto(content, offIn, offOut, length, 0).0, Put(content, offOut, data), offOut + (at - offIn));
    OtherBytesShow(content, offIn, offOut, length);
  }

  lemma OtherBytesShow(content: Bytes, offIn: nat, offOut: nat, length: nat)
    requires 0 < length && offIn + length <= |content|
    requires CopiedOnto(content, offIn, offOut, length, 0).0 != Put(content, offOut, content[offIn..offIn + length])
    ensures !CopiesOnce(content, offIn, offOut, length)
  {
    hide CopiedOnto, Put;
  }

  lemma ZerosDiffer(a: Bytes, b: Bytes, i: nat)
    requires AllZero(a) && i < |b| && b[i] != 0
    ensures a != b
  {
  }

  lemma OverlapShows(size: nat, offIn: nat, offOut: nat, length: nat) returns (content: Bytes)
    requires !Apart(size, offIn, offOut, length)
    ensures |content| == size && !CopiesOnce(content, offIn, offOut, length)
  {
    hide CopiesOnce;
    if size < offIn + length {
      content := Zeros(size);
      ShortSourceShows(content, offIn, offOut, length);
    } else {
      var at := offIn + if MAX_WRITE < offOut - offIn then offOut - offIn else MAX_WRITE;
      content := OneByte(size, at);
      OneByteShows(size, offIn, offOut, length, at);
    }
  }

  lemma PutShows(content: Bytes, offset: nat, data: Bytes, k: nat)
    requires k < |data|
    ensures offset + k < |Put(content, offset, data)| && Put(content, offset, data)[offset + k] == data[k]
  {
    var r := Put(content, offset, data);
    assert r[offset + k] == r[offset..offset + |data|][k];
  }

  /** Copying inside one file is one write of the original range for every content exactly
      when source and destination are apart in this sense. */
  lemma {:induction false} SelfCopyIsOneWriteExactly(size: nat, offIn: nat, offOut: nat, length: nat)
    ensures (forall content: Bytes | |content| == size :: CopiesOnce(content, offIn, offOut, length))
            <==> Apart(size, offIn, offOut, length)
  {
    hide CopiesOnce;
    if Apart(size, offIn, offOut, length) {
      forall content: Bytes | |content| == size
        ensures CopiesOnce(content, offIn, offOut, length)
      {
        ApartCopiesOnce(content, offIn, offOut, length);
      }
    } else {
      var content := OverlapShows(size, offIn, offOut, length);
    }
  }

  // ----- listing a directory -----

  datatype DirectoryEntry = DirectoryEntry(name: string, offset: int)

  /** Every entry with its resume offset: the two dots first. */
  function Numbered(names: seq<string>): seq<DirectoryEntry> {
    seq(|names| + 2, i requires 0 <= i < |names| + 2 =>
      DirectoryEntry(if i == 0 then "." else if i == 1 then ".." else names[i - 2], i + 1))
  }

  /** The reply to a request at an offset. */
  function Reply(names: seq<string>, offset: int): seq<DirectoryEntry> {
    if offset < 0 then Numbered(names)
    else if offset >= |names| + 2 then []
    else Numbered(names)[offset..]
  }

  method ReadDir(names: seq<string>, offset: int) returns (entries: seq<DirectoryEntry>)
    ensures entries == Reply(names, offset)
  {
    entries := [];
    var index := 1;
    FirstTwo(names, offset);
    hide Numbered, UpTo;
    if offset < index {
      entries := entries + [DirectoryEntry(".", index)];
    }
    index := index + 1;
    if offset < index {
      entries := entries + [DirectoryEntry("..", index)];
    }
    index := index + 1;
    for i := 0 to |names|
      invariant index == i + 3
      invariant entries == UpTo(names, offset, i + 2)
    {
      OneMore(names, offset, i + 2);
      NumberedAt(names, i);
      if offset < index {
        entries := entries + [DirectoryEntry(names[i], index)];
      }
      index := index + 1;
    }
    AllOfThem(names, offset);
  }

  lemma FirstTwo(names: seq<string>, offset: int)
    ensures UpTo(names, offset, 2)
            == (if offset < 1 then [DirectoryEntry(".", 1)] else []) + if offset < 2 then [DirectoryEntry("..", 2)] else []
  {
    OneMore(names, offset, 0);
    OneMore(names, offset, 1);
    assert UpTo(names, offset, 0) == [];
  }

  lemma NumberedAt(names: seq<string>, i: nat)
    requires i < |names|
    ensures |Numbered(names)| == |names| + 2 && Numbered(names)[i + 2] == DirectoryEntry(names[i], i + 3)
  {
  }

  lemma AllOfThem(names: seq<string>, offset: int)
    ensures UpTo(names, offset, |names| + 2) == Reply(names, offset)
  {
  }

  /** The part of the reply that comes from the first `n` entries. */
  function UpTo(names: seq<string>, offset: int, n: nat): seq<DirectoryEntry>
    requires n <= |names| + 2
  {
    if offset < 0 then Numbered(names)[..n] else if offset >= n then [] else Numbered(names)[offset..n]
  }

  lemma OneMore(names: seq<string>, offset: int, n: nat)
    requires n < |names| + 2
    ensures UpTo(names, offset, n + 1)
            == UpTo(names, offset, n) + if offset < n + 1 then [Numbered(names)[n]] else []
  {
    var all := Numbered(names);
    assert |all| == |names| + 2;
    hide Numbered;
    if 0 <= offset <= n {
      Grow(all, offset, n);
    } else if offset < 0 {
      Grow(all, 0, n);
      assert all[0..n] == all[..n] && all[0..n + 1] == all[..n + 1];
    }
  }

  lemma Grow(all: seq<DirectoryEntry>, i: nat, n: nat)
    requires i <= n < |all|
    ensures all[i..n + 1] == all[i..n] + [all[n]]
  {
  }

  /** A reader that keeps some entries of each reply and resumes after the last one kept. */
  function Collected(names: seq<string>, offset: int, kept: seq<nat>): seq<DirectoryEntry>
    decreases |kept|
  {
    if kept == [] then Reply(names, offset)
    else
      var reply := Reply(names, offset);
      var n := Least(kept[0], |reply|);
      if n == 0 then Collected(names, offset, kept[1..])
      else reply[..n] + Collected(names, reply[n - 1].offset, kept[1..])
  }

  /** However the listing is paged, every entry is seen once and in order. */
  lemma {:induction false} ResumingLosesNothing(names: seq<string>, offset: int, kept: seq<nat>)
    ensures Collected(names, offset, kept) == Reply(names, offset)
    decreases |kept|
  {
    hide Reply;
    if kept != [] {
      var reply := Reply(names, offset);
      var n := Least(kept[0], |reply|);
      if n == 0 {
        ResumingLosesNothing(names, offset, kept[1..]);
      } else {
        ResumesAfter(names, offset, n);
        ResumingLosesNothing(names, reply[n - 1].offset, kept[1..]);
        assert reply[..n] + reply[n..] == reply;
      }
    }
  }

  /** From the start that is the two dots and then the names, each with the offset that
      resumes after it. */
  lemma ListingIsComplete(names: seq<string>, offset: int)
    requires offset <= 0
    ensures var reply := Reply(names, offset);
            && |reply| == |names| + 2 && reply[0] == DirectoryEntry(".", 1) && reply[1] == DirectoryEntry("..", 2)
            && forall i | 0 <= i < |names| :: reply[i + 2] == DirectoryEntry(names[i], i + 3)
  {
    assert Reply(names, offset) == Numbered(names);
  }

  lemma ResumesAfter(names: seq<string>, offset: int, n: nat)
    requires 0 < n <= |Reply(names, offset)|
    ensures var reply := Reply(names, offset); Reply(names, reply[n - 1].offset) == reply[n..]
  {
    var start := if offset < 0 then 0 else offset;
    assert Reply(names, offset)[n - 1].offset == start + n;
    assert Reply(names, offset) == Numbered(names)[start..];
    hide Numbered;
  }
}
