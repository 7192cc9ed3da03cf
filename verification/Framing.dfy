/** Reading newline-delimited requests from a socket
    (crates/omnifuse-app/src/daemon/server.rs:34, 371-427). */
module Framing {
  import opened Common

  const MAX_FRAME_BYTES: nat := 1024 * 1024
  const NEWLINE: byte := 0x0A
  const RETURN: byte := 0x0D

  datatype FrameResult = Eof | Frame(bytes: Bytes) | TooLong | NotUtf8

  datatype Ending = PeerClosed | Failed

  // ----- a stream as its pieces -----

  /** The bytes up to and including the first newline, or all of them. */
  function Piece(stream: Bytes): (r: Bytes)
    ensures r <= stream
    ensures stream != [] ==> r != []
    ensures forall i | 0 <= i < |r| - 1 :: r[i] != NEWLINE
    ensures r != [] && r[|r| - 1] != NEWLINE ==> r == stream
  {
    if stream == [] then []
    else if stream[0] == NEWLINE then
      assert stream == [NEWLINE] + stream[1..];
      [NEWLINE]
    else
      var rest := Piece(stream[1..]);
      assert stream == [stream[0]] + stream[1..];
      [stream[0]] + rest
  }

  function Pieces(stream: Bytes): seq<Bytes> {
    if stream == [] then [] else [Piece(stream)] + Pieces(stream[|Piece(stream)|..])
  }

  function Joined(parts: seq<Bytes>): Bytes {
    if parts == [] then [] else parts[0] + Joined(parts[1..])
  }

  function TrimEnd(s: Bytes): (r: Bytes)
    ensures r <= s && (r == [] || (r[|r| - 1] != NEWLINE && r[|r| - 1] != RETURN))
    ensures forall i | |r| <= i < |s| :: s[i] == NEWLINE || s[i] == RETURN
  {
    if s != [] && (s[|s| - 1] == NEWLINE || s[|s| - 1] == RETURN) then TrimEnd(s[..|s| - 1]) else s
  }

  predicate Accepted(utf8: Bytes -> bool, piece: Bytes) {
    |piece| <= MAX_FRAME_BYTES && utf8(piece)
  }

  /** The requests a client's stream amounts to, and how the conversation ends. */
  function Conversation(utf8: Bytes -> bool, stream: Bytes): (seq<Bytes>, Ending)
    decreases |stream|
  {
    if stream == [] then ([], PeerClosed)
    else
      var piece := Piece(stream);
      if !Accepted(utf8, piece) then ([], Failed)
      else
        var later := Conversation(utf8, stream[|piece|..]);
        if TrimEnd(piece) == [] then later else ([TrimEnd(piece)] + later.0, later.1)
  }

  // ----- the reader and the loop -----

  /** What one call of `read_bounded_line` makes of a stream. */
  function NextFrame(utf8: Bytes -> bool, stream: Bytes): FrameResult {
    if stream == [] then Eof
    else if |Piece(stream)| > MAX_FRAME_BYTES then TooLong
    else if !utf8(Piece(stream)) then NotUtf8
    else Frame(Piece(stream))
  }

  predicate NoneEmpty(fills: seq<Bytes>) {
    forall i | 0 <= i < |fills| :: fills[i] != []
  }

  /** What is left of the fills after part of the first one has been used. */
  function Used(fills: seq<Bytes>, n: nat): (r: seq<Bytes>)
    requires NoneEmpty(fills) && fills != [] && n <= |fills[0]|
    ensures NoneEmpty(r) && n <= |Joined(fills)| && Joined(r) == Joined(fills)[n..]
  {
    if n == |fills[0]| then fills[1..]
    else
      var r := [fills[0][n..]] + fills[1..];
      assert r[1..] == fills[1..];
      r
  }

  /** A buffered reader: each element of `fills` is what one fill of the buffer delivers. */
  class Reader {
    var fills: seq<Bytes>

    constructor (fills: seq<Bytes>)
      ensures this.fills == fills
    {
      this.fills := fills;
    }

    /** The unread part of the buffer, refilled when it is empty; empty at the end. */
    method FillBuf() returns (available: Bytes)
      requires NoneEmpty(fills)
      ensures available <= Joined(fills) && (available == [] <==> fills == [])
      ensures fills != [] ==> available == fills[0]
    {
      available := if fills == [] then [] else fills[0];
    }

    method Consume(n: nat)
      requires NoneEmpty(fills) && fills != [] && n <= |fills[0]|
      modifies this
      ensures fills == Used(old(fills), n)
    {
      fills := if n == |fills[0]| then fills[1..] else [fills[0][n..]] + fills[1..];
    }

    /** One piece of the stream, whatever the fills; nothing past its newline is consumed. */
    method ReadBoundedLine(utf8: Bytes -> bool) returns (r: FrameResult, ghost consumed: nat)
      requires NoneEmpty(fills)
      modifies this
      ensures NoneEmpty(fills) && r == NextFrame(utf8, old(Joined(fills)))
      ensures consumed <= |Piece(old(Joined(fills)))| && Joined(fills) == old(Joined(fills))[consumed..]
      ensures r != TooLong ==> consumed == |Piece(old(Joined(fills)))|
    {
      hide *;
      var bytes: Bytes := [];
      ghost var whole := Joined(fills);
      ghost var rest := whole;
      ReadingStarts(whole);
      while true
        invariant NoneEmpty(fills) && rest == Joined(fills) && Reading(whole, bytes, rest)
        decreases |rest|
      {
        var available := FillBuf();
        if available == [] {
          ReadingEnds(utf8, whole, bytes, rest, fills);
          if bytes == [] {
            return Eof, 0;
          }
          break;
        }
        var take := LineLength(available);
        ReadMore(utf8, whole, bytes, rest, available[..take]);
        if |bytes| + take > MAX_FRAME_BYTES {
          return TooLong, |bytes|;
        }
        bytes := bytes + available[..take];
        Consume(take);
        rest := rest[take..];
        if bytes[|bytes| - 1] == NEWLINE {
          break;
        }
      }
      CompleteMeans(utf8, whole, bytes, rest);
      consumed := |bytes|;
      r := if utf8(bytes) then Frame(bytes) else NotUtf8;
    }

    /** The client loop: the requests handed to the dispatcher, in order. */
    method HandleClient(utf8: Bytes -> bool) returns (requests: seq<Bytes>, ending: Ending)
      requires NoneEmpty(fills)
      modifies this
      ensures (requests, ending) == Conversation(utf8, old(Joined(fills)))
    {
      hide Piece, Joined;
      requests := [];
      ghost var rest := Joined(fills);
      ghost var whole := Conversation(utf8, rest);
      assert requests + whole.0 == whole.0;
      while true
        invariant NoneEmpty(fills) && rest == Joined(fills)
        invariant requests + Conversation(utf8, rest).0 == whole.0 && Conversation(utf8, rest).1 == whole.1
        decreases |rest|
      {
        var r, _ := ReadBoundedLine(utf8);
        match r
        case Eof =>
          assert Conversation(utf8, []) == ([], PeerClosed) && requests + [] == requests;
          return requests, PeerClosed;
        case TooLong =>
          assert Conversation(utf8, rest) == ([], Failed) && requests + [] == requests;
          return requests, Failed;
        case NotUtf8 =>
          assert Conversation(utf8, rest) == ([], Failed) && requests + [] == requests;
          return requests, Failed;
        case Frame(line) =>
          ConversationSteps(utf8, rest, requests);
          var trimmed := TrimEnd(line);
          if trimmed != [] {
            requests := requests + [trimmed];
          }
          rest := rest[|line|..];
      }
    }
  }

  /** `bytes` have been read of the current piece and `rest` is still to come. */
  predicate Reading(whole: Bytes, bytes: Bytes, rest: Bytes) {
    bytes + rest == whole && |bytes| <= MAX_FRAME_BYTES && NEWLINE !in bytes
  }

  /** The piece is complete. */
  predicate Complete(utf8: Bytes -> bool, whole: Bytes, bytes: Bytes, rest: Bytes) {
    && bytes == Piece(whole) && whole[|bytes|..] == rest
    && NextFrame(utf8, whole) == if utf8(bytes) then Frame(bytes) else NotUtf8
  }

  lemma CompleteMeans(utf8: Bytes -> bool, whole: Bytes, bytes: Bytes, rest: Bytes)
    requires Complete(utf8, whole, bytes, rest)
    ensures bytes == Piece(whole) && whole[|bytes|..] == rest
    ensures NextFrame(utf8, whole) == if utf8(bytes) then Frame(bytes) else NotUtf8
  {
  }

  lemma ReadingStarts(whole: Bytes)
    ensures Reading(whole, [], whole)
  {
  }

  lemma ReadingEnds(utf8: Bytes -> bool, whole: Bytes, bytes: Bytes, rest: Bytes, fills: seq<Bytes>)
    requires Reading(whole, bytes, rest) && rest == Joined(fills) && fills == []
    ensures if bytes == [] then whole[0..] == rest && NextFrame(utf8, whole) == Eof && Piece(whole) == []
            else Complete(utf8, whole, bytes, rest)
  {
    if bytes != [] {
      hide Piece;
      WholePiece(bytes, rest);
    }
  }

  lemma ReadMore(utf8: Bytes -> bool, whole: Bytes, bytes: Bytes, rest: Bytes, part: Bytes)
    requires Reading(whole, bytes, rest) && part <= rest && part != [] && NEWLINE !in part[..|part| - 1]
    ensures var more, left := bytes + part, rest[|part|..];
            if |more| > MAX_FRAME_BYTES then
              NextFrame(utf8, whole) == TooLong && |bytes| <= |Piece(whole)| && whole[|bytes|..] == rest
            else if more[|more| - 1] == NEWLINE then Complete(utf8, whole, more, left)
            else Reading(whole, more, left)
  {
    hide Piece;
    var more, left := bytes + part, rest[|part|..];
    PieceGrows(bytes, rest, part);
    MoveAcross(bytes, rest, part);
    LastOfMore(bytes, part);
    if more[|more| - 1] == NEWLINE {
      WholePiece(more, left);
    }
  }

  lemma MoveAcross(bytes: Bytes, rest: Bytes, part: Bytes)
    requires part <= rest
    ensures (bytes + part) + rest[|part|..] == bytes + rest
    ensures (bytes + rest)[|bytes + part|..] == rest[|part|..]
  {
  }

  lemma LastOfMore(bytes: Bytes, part: Bytes)
    requires part != [] && NEWLINE !in bytes && NEWLINE !in part[..|part| - 1]
    ensures NEWLINE !in (bytes + part)[..|bytes + part| - 1]
    ensures (bytes + part)[|bytes + part| - 1] != NEWLINE ==> NEWLINE !in bytes + part
  {
    var more := bytes + part;
    assert more[..|more| - 1] == bytes + part[..|part| - 1];
    assert more == more[..|more| - 1] + [more[|more| - 1]];
  }

  /** What has been read and the next part of the buffer all belong to the current piece. */
  lemma PieceGrows(bytes: Bytes, rest: Bytes, part: Bytes)
    requires NEWLINE !in bytes && part <= rest && part != [] && NEWLINE !in part[..|part| - 1]
    ensures |bytes| + |part| <= |Piece(bytes + rest)|
  {
    var head := part[..|part| - 1];
    PieceOfConcat(bytes, rest);
    assert rest == head + rest[|head|..];
    PieceOfConcat(head, rest[|head|..]);
    assert rest[|head|..] != [];
    hide Piece;
  }

  lemma ConversationSteps(utf8: Bytes -> bool, stream: Bytes, before: seq<Bytes>)
    requires NextFrame(utf8, stream).Frame?
    ensures var line := Piece(stream);
            var all, later := Conversation(utf8, stream), Conversation(utf8, stream[|line|..]);
            && before + all.0 == (if TrimEnd(line) == [] then before else before + [TrimEnd(line)]) + later.0
            && all.1 == later.1
  {
    hide *;
    ConversationUnfolds(utf8, stream);
    var line := Piece(stream);
    var later := Conversation(utf8, stream[|line|..]);
    assert before + ([TrimEnd(line)] + later.0) == before + [TrimEnd(line)] + later.0;
  }

  lemma ConversationUnfolds(utf8: Bytes -> bool, stream: Bytes)
    requires NextFrame(utf8, stream).Frame?
    ensures var line := Piece(stream);
            var later := Conversation(utf8, stream[|line|..]);
            Conversation(utf8, stream) == if TrimEnd(line) == [] then later else ([TrimEnd(line)] + later.0, later.1)
  {
    hide Piece, TrimEnd;
  }

  /** Through the first newline of the buffer, or all of it. */
  method LineLength(available: Bytes) returns (take: nat)
    requires available != []
    ensures 0 < take <= |available| && NEWLINE !in available[..take - 1]
    ensures take < |available| ==> available[take - 1] == NEWLINE
  {
    take := 0;
    while take < |available| && available[take] != NEWLINE
      invariant take <= |available| && NEWLINE !in available[..take]
    {
      take := take + 1;
    }
    if take < |available| {
      take := take + 1;
    }
  }

  lemma {:induction false} PieceOfConcat(a: Bytes, b: Bytes)
    requires NEWLINE !in a
    ensures Piece(a + b) == a + Piece(b)
  {
    if a == [] {
      assert a + b == b && a + Piece(b) == Piece(b);
    } else {
      assert a == [a[0]] + a[1..];
      assert (a + b)[0] == a[0] && (a + b)[1..] == a[1..] + b;
      PieceOfConcat(a[1..], b);
    }
  }

  lemma WholePiece(bytes: Bytes, rest: Bytes)
    requires bytes != [] && NEWLINE !in bytes[..|bytes| - 1]
    requires bytes[|bytes| - 1] == NEWLINE || rest == []
    ensures Piece(bytes + rest) == bytes
  {
    var front, last := bytes[..|bytes| - 1], bytes[|bytes| - 1];
    assert bytes == front + [last] && bytes + rest == front + ([last] + rest);
    PieceOfConcat(front, [last] + rest);
    assert last == NEWLINE ==> Piece([last] + rest) == [last];
    if last != NEWLINE {
      assert ([last] + rest)[1..] == [];
    }
  }

  // ----- what a conversation amounts to -----

  /** No newline but at the end, and one there unless the stream ends. */
  predicate IsLine(p: Bytes, last: bool) {
    p != [] && NEWLINE !in p[..|p| - 1] && (p[|p| - 1] == NEWLINE || last)
  }

  /** The pieces are the stream cut after each newline and nowhere else. */
  lemma {:induction false} PiecesPartition(stream: Bytes)
    ensures Joined(Pieces(stream)) == stream
    ensures forall i | 0 <= i < |Pieces(stream)| :: IsLine(Pieces(stream)[i], i == |Pieces(stream)| - 1)
    decreases |stream|
  {
    hide Piece, IsLine;
    if stream != [] {
      var p := Piece(stream);
      var rest := stream[|p|..];
      PiecesPartition(rest);
      assert Pieces(stream) == [p] + Pieces(rest) && Pieces(stream)[1..] == Pieces(rest);
      assert stream == p + rest;
      PieceIsLine(stream);
      assert rest == [] <==> Pieces(rest) == [];
      forall i | 0 <= i < |Pieces(stream)|
        ensures IsLine(Pieces(stream)[i], i == |Pieces(stream)| - 1)
      {
        if i > 0 {
          assert Pieces(stream)[i] == Pieces(rest)[i - 1];
        }
      }
    }
  }

  lemma PieceIsLine(stream: Bytes)
    requires stream != []
    ensures IsLine(Piece(stream), stream[|Piece(stream)|..] == [])
  {
  }

  /** A conversation fails exactly when some piece is longer than a mebibyte or not text. */
  lemma {:induction false} FailsExactly(utf8: Bytes -> bool, stream: Bytes)
    ensures Conversation(utf8, stream).1 == Failed <==> exists p | p in Pieces(stream) :: |p| > 1_048_576 || !utf8(p)
    decreases |stream|
  {
    if stream != [] {
      var p := Piece(stream);
      FailsExactly(utf8, stream[|p|..]);
      assert p in Pieces(stream);
      assert forall q :: q in Pieces(stream) <==> q == p || q in Pieces(stream[|p|..]);
    }
  }

  /** What a client sends for one request. */
  function Encode(request: Bytes): Bytes {
    request + [NEWLINE]
  }

  predicate Sendable(utf8: Bytes -> bool, request: Bytes) {
    && request != [] && NEWLINE !in request && request[|request| - 1] != RETURN
    && Accepted(utf8, Encode(request))
  }

  /** Requests sent line by line arrive as they were sent, and what follows them, good or
      bad, is judged as if it stood alone. */
  lemma {:induction false} RequestsArrive(utf8: Bytes -> bool, requests: seq<Bytes>, rest: Bytes)
    requires forall r | r in requests :: Sendable(utf8, r)
    ensures var after := Conversation(utf8, rest);
            Conversation(utf8, Joined(Encoded(requests)) + rest) == (requests + after.0, after.1)
  {
    hide Conversation, Encode, Accepted;
    if requests == [] {
      assert Joined(Encoded(requests)) + rest == rest && requests + Conversation(utf8, rest).0 == Conversation(utf8, rest).0;
    } else {
      var r, later := requests[0], requests[1..];
      assert Sendable(utf8, r);
      RequestsArrive(utf8, later, rest);
      FirstRequestArrives(utf8, r, Joined(Encoded(later)) + rest);
      EncodedSplits(requests, rest);
      var after := Conversation(utf8, rest);
      assert [r] + (later + after.0) == requests + after.0;
    }
  }

  lemma EncodedSplits(requests: seq<Bytes>, rest: Bytes)
    requires requests != []
    ensures Joined(Encoded(requests)) + rest == Encode(requests[0]) + (Joined(Encoded(requests[1..])) + rest)
  {
    assert Encoded(requests)[1..] == Encoded(requests[1..]);
  }

  lemma FirstRequestArrives(utf8: Bytes -> bool, r: Bytes, tail: Bytes)
    requires Sendable(utf8, r)
    ensures var after := Conversation(utf8, tail);
            Conversation(utf8, Encode(r) + tail) == ([r] + after.0, after.1)
  {
    assert Encode(r)[..|r|] == r;
    WholePiece(Encode(r), tail);
    assert (Encode(r) + tail)[|Encode(r)|..] == tail;
    assert TrimEnd(Encode(r)) == r;
  }

  function Returns(n: nat): (r: Bytes)
    ensures |r| == n && forall i | 0 <= i < n :: r[i] == RETURN
  {
    seq(n, _ => RETURN)
  }

  lemma TrimsTo(line: Bytes, text: Bytes)
    requires text <= line && (text == [] || (text[|text| - 1] != NEWLINE && text[|text| - 1] != RETURN))
    requires forall i | |text| <= i < |line| :: line[i] == NEWLINE || line[i] == RETURN
    ensures TrimEnd(line) == text
  {
    var r := TrimEnd(line);
    hide TrimEnd;
    assert r != [] ==> line[|r| - 1] == r[|r| - 1];
    assert text != [] ==> line[|text| - 1] == text[|text| - 1];
    assert |r| == |text|;
    assert r == line[..|r|] && text == line[..|text|];
  }

  /** Carriage returns before a newline are not part of the request, and a line with nothing
      else is no request at all. A last line needs no newline. */
  lemma {:induction false} LineEndingsDoNotMatter(utf8: Bytes -> bool, text: Bytes, n: nat, tail: Bytes)
    requires NEWLINE !in text && (text == [] || text[|text| - 1] != RETURN)
    ensures var after := Conversation(utf8, tail);
            var line := text + Returns(n) + [NEWLINE];
            Accepted(utf8, line) ==>
              Conversation(utf8, line + tail) == ((if text == [] then [] else [text]) + after.0, after.1)
    ensures text != [] && Accepted(utf8, text) ==> Conversation(utf8, text) == ([text], PeerClosed)
  {
    hide *;
    if Accepted(utf8, text + Returns(n) + [NEWLINE]) {
      LineArrives(utf8, text, n, tail);
    }
    if text != [] && Accepted(utf8, text) {
      LastLineArrives(utf8, text);
    }
  }

  lemma LineArrives(utf8: Bytes -> bool, text: Bytes, n: nat, tail: Bytes)
    requires NEWLINE !in text && (text == [] || text[|text| - 1] != RETURN)
    requires Accepted(utf8, text + Returns(n) + [NEWLINE])
    ensures var after := Conversation(utf8, tail);
            Conversation(utf8, text + Returns(n) + [NEWLINE] + tail)
            == ((if text == [] then [] else [text]) + after.0, after.1)
  {
    var line := text + Returns(n) + [NEWLINE];
    assert line[..|line| - 1] == text + Returns(n);
    TrimsTo(line, text);
    WholePiece(line, tail);
    assert (line + tail)[|line|..] == tail;
    assert [] + Conversation(utf8, tail).0 == Conversation(utf8, tail).0;
    hide TrimEnd, Piece, Returns, Accepted;
  }

  lemma LastLineArrives(utf8: Bytes -> bool, text: Bytes)
    requires text != [] && NEWLINE !in text && text[|text| - 1] != RETURN && Accepted(utf8, text)
    ensures Conversation(utf8, text) == ([text], PeerClosed)
  {
    TrimsTo(text, text);
    WholePiece(text, []);
    assert text + [] == text && text[|text|..] == [];
    assert Conversation(utf8, []) == ([], PeerClosed);
    var none: seq<Bytes> := [];
    assert [text] + none == [text];
    hide TrimEnd, Piece, Accepted;
  }

  function Encoded(requests: seq<Bytes>): seq<Bytes> {
    seq(|requests|, i requires 0 <= i < |requests| => Encode(requests[i]))
  }
}
