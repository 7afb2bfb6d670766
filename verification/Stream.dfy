/**
 * The consume loop shared by the byte-fed parsers (src/greeting_parser.c,
 * src/auth_parser.c, src/request_parser.c): feed bytes until the parser stops
 * or none is left. Proved once here: how the stream was cut does not matter.
 */
module Streams {
  import opened Base
  import opened Buffers

  /** Feeds `s`; yields the parser reached and the bytes not read. */
  function Consume<P>(feed: (P, byte) -> P, stop: P -> bool, p: P, s: seq<byte>): (r: (P, seq<byte>))
    ensures |r.1| <= |s| && r.1 == s[|s| - |r.1|..]
    ensures s != [] && !stop(r.0) ==> r.1 == []
    decreases |s|
  {
    if s == [] then (p, [])
    else
      var p1 := feed(p, s[0]);
      if stop(p1) then (p1, s[1..]) else Consume(feed, stop, p1, s[1..])
  }

  function Concat(chunks: seq<seq<byte>>): seq<byte> {
    if chunks == [] then [] else chunks[0] + Concat(chunks[1..])
  }

  lemma {:induction false} ConsumeSplit<P>(feed: (P, byte) -> P, stop: P -> bool, p: P, a: seq<byte>, b: seq<byte>)
    requires !stop(p)
    ensures var (p1, rest) := Consume(feed, stop, p, a);
            Consume(feed, stop, p, a + b) == if stop(p1) then (p1, rest + b) else Consume(feed, stop, p1, b)
    decreases |a|
  {
    if a == [] {
      assert a + b == b;
    } else {
      assert (a + b)[0] == a[0] && (a + b)[1..] == a[1..] + b;
      var p1 := feed(p, a[0]);
      if !stop(p1) {
        ConsumeSplit(feed, stop, p1, a[1..], b);
      }
    }
  }

  // ---------------------------------------------------------------------
  // The loop over a buffer

  /** What a consume call leaves behind: the parser, and the buffer without the bytes it read. */
  function ConsumeBuf<P>(feed: (P, byte) -> P, stop: P -> bool, p: P, b: Buf): (P, Buf) {
    var (p1, rest) := Consume(feed, stop, p, b.content);
    (p1, b.Advance(|b.content| - |rest|))
  }

  lemma ConsumeBufEmpty<P>(feed: (P, byte) -> P, stop: P -> bool, p: P, b: Buf)
    requires b.Ok() && b.content == []
    ensures ConsumeBuf(feed, stop, p, b) == (p, b)
  {
  }

  lemma ConsumeBufStep<P>(feed: (P, byte) -> P, stop: P -> bool, p: P, b: Buf)
    requires b.Ok() && b.content != []
    ensures var p1, b1 := feed(p, b.content[0]), b.Advance(1);
            ConsumeBuf(feed, stop, p, b) == if stop(p1) then (p1, b1) else ConsumeBuf(feed, stop, p1, b1)
  {
  }

  lemma ConsumeBufOk<P>(feed: (P, byte) -> P, stop: P -> bool, p: P, b: Buf)
    requires b.Ok()
    ensures var (p1, b1) := ConsumeBuf(feed, stop, p, b);
            && b1.Ok() && b1.cap == b.cap
            && (p1, b1.content) == Consume(feed, stop, p, b.content)
            && (stop(p1) || b1 == EmptyBuf(b.cap))
  {
  }

  // ---------------------------------------------------------------------
  // Chunk independence

  /** Each chunk is received into the buffer and consumed; the first stop leaves the later chunks unreceived. */
  function FeedChunks<P>(feed: (P, byte) -> P, stop: P -> bool, p: P, b: Buf, chunks: seq<seq<byte>>):
    (P, Buf, seq<seq<byte>>)
    decreases |chunks|
  {
    if chunks == [] then (p, b, [])
    else
      var (p1, b1) := ConsumeBuf(feed, stop, p, b.Append(chunks[0]));
      if stop(p1) then (p1, b1, chunks[1..]) else FeedChunks(feed, stop, p1, b1, chunks[1..])
  }

  lemma FeedChunksStep<P>(feed: (P, byte) -> P, stop: P -> bool, p: P, b: Buf, chunks: seq<seq<byte>>)
    requires chunks != [] && b.Ok() && |chunks[0]| <= b.Room()
    ensures var c := b.Append(chunks[0]); var (p1, b1) := ConsumeBuf(feed, stop, p, c);
            && b1.Ok() && b1.cap == b.cap && (stop(p1) || b1 == EmptyBuf(b.cap))
            && |b1.content| <= |c.content| && b1 == c.Advance(|c.content| - |b1.content|)
            && FeedChunks(feed, stop, p, b, chunks)
               == if stop(p1) then (p1, b1, chunks[1..]) else FeedChunks(feed, stop, p1, b1, chunks[1..])
  {
    ConsumeBufOk(feed, stop, p, b.Append(chunks[0]));
  }

  /**
   * However the stream is cut, the parser reached and the unread suffix are those
   * of one pass over the whole stream, bytes already waiting in the buffer included.
   */
  lemma {:induction false} ChunkIndependence<P>(feed: (P, byte) -> P, stop: P -> bool, p: P, b: Buf,
                                                chunks: seq<seq<byte>>)
    requires b.Ok() && !stop(p)
    requires chunks != [] && |chunks[0]| <= b.Room()
    requires forall i :: 1 <= i < |chunks| ==> |chunks[i]| <= b.cap
    ensures var (p1, b1, left) := FeedChunks(feed, stop, p, b, chunks);
            && (p1, b1.content + Concat(left)) == Consume(feed, stop, p, b.content + Concat(chunks))
            && b1.Ok() && (!stop(p1) ==> b1 == EmptyBuf(b.cap) && left == [])
    decreases |chunks|
  {
    var b0, later := b.Append(chunks[0]), chunks[1..];
    assert b0.content + Concat(later) == b.content + Concat(chunks);
    ConsumeSplit(feed, stop, p, b0.content, Concat(later));
    ConsumeBufOk(feed, stop, p, b0);
    var (p1, b1) := ConsumeBuf(feed, stop, p, b0);
    if !stop(p1) && later != [] {
      ChunkIndependence(feed, stop, p1, b1, later);
      assert [] + Concat(later) == Concat(later);
    }
  }

  lemma {:induction false} FeedChunksOk<P>(feed: (P, byte) -> P, stop: P -> bool, p: P, b: Buf, chunks: seq<seq<byte>>)
    requires b.Ok() && !stop(p)
    requires chunks != [] ==> |chunks[0]| <= b.Room()
    requires forall i :: 1 <= i < |chunks| ==> |chunks[i]| <= b.cap
    ensures var b1 := FeedChunks(feed, stop, p, b, chunks).1; b1.Ok() && b1.cap == b.cap
    decreases |chunks|
  {
    if chunks != [] {
      ConsumeBufOk(feed, stop, p, b.Append(chunks[0]));
      var (p1, b1) := ConsumeBuf(feed, stop, p, b.Append(chunks[0]));
      if !stop(p1) {
        FeedChunksOk(feed, stop, p1, b1, chunks[1..]);
      }
    }
  }
}
