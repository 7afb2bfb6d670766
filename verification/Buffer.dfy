/**
 * The linear I/O buffer (src/buffer.c): a byte array with a read and a write
 * position. `Buf` is its abstract value, a bounded FIFO; the class is the
 * in-place structure, and every method is tied to the FIFO operation it performs.
 */
module Buffers {
  import opened Base

  /** `content` is what may be read, `off` the distance from the base to the read position. */
  datatype Buf = Buf(content: seq<byte>, off: nat, cap: nat) {

    /** In range, and an empty buffer is always rewound. */
    predicate Ok() {
      && off + |content| <= cap
      && (content == [] ==> off == 0)
    }

    /** Bytes that may still be received before the write position meets the limit. */
    function Room(): int {
      cap - off - |content|
    }

    function Append(bs: seq<byte>): Buf {
      this.(content := content + bs)
    }

    /** Consumes `n` bytes; a buffer that becomes empty is rewound. */
    function Advance(n: nat): Buf
      requires n <= |content|
    {
      if n == |content| then Buf([], 0, cap) else Buf(content[n..], off + n, cap)
    }

    function Compacted(): Buf {
      this.(off := 0)
    }
  }

  function EmptyBuf(cap: nat): Buf {
    Buf([], 0, cap)
  }

  class Buffer {
    const data: array<byte>
    var read: nat
    var write: nat

    /** The abstract value, kept in step by every method. */
    ghost var view: Buf

    ghost predicate Valid()
      reads this, data
      ensures Valid() ==> view.Ok()
    {
      && read <= write <= data.Length
      && (read == write ==> read == 0)
      && view == Buf(data[read..write], read, data.Length)
    }

    constructor (n: nat)
      ensures Valid() && fresh(data)
      ensures view == EmptyBuf(n)
    {
      data := new byte[n];
      read, write := 0, 0;
      view := EmptyBuf(n);
    }

    method Reset()
      modifies this
      ensures Valid() && view == EmptyBuf(data.Length)
    {
      read, write := 0, 0;
      view := EmptyBuf(data.Length);
    }

    predicate CanWrite()
      requires Valid()
      reads this, data
      ensures CanWrite() <==> view.Room() > 0
    {
      data.Length - write > 0
    }

    predicate CanRead()
      requires Valid()
      reads this, data
      ensures CanRead() <==> view.content != []
    {
      write - read > 0
    }

    /** The kernel (or a message builder) stores bytes at the write position, which does not move. */
    method Store(bs: seq<byte>)
      requires Valid() && |bs| <= view.Room()
      modifies data
      ensures Valid() && data[write..write + |bs|] == bs
    {
      forall i | 0 <= i < |bs| {
        data[write + i] := bs[i];
      }
    }

    /** A negative count (a failed recv) moves nothing. */
    method WriteAdv(bytes: int)
      requires Valid() && bytes <= view.Room()
      modifies this
      ensures Valid()
      ensures view == if bytes > -1 then old(view).Append(data[old(write)..old(write) + bytes]) else old(view)
    {
      if bytes > -1 {
        view := view.Append(data[write..write + bytes]);
        write := write + bytes;
      }
    }

    method ReadAdv(bytes: int)
      requires Valid() && bytes <= |view.content|
      modifies this, data
      ensures Valid()
      ensures view == if bytes > -1 then old(view).Advance(bytes) else old(view)
    {
      if bytes > -1 {
        view := view.Advance(bytes);
        read := read + bytes;
        if read == write {
          Compact();
        }
      }
    }

    /** Reads one byte, or 0 when there is none. */
    method Read() returns (c: byte)
      requires Valid()
      modifies this, data
      ensures Valid()
      ensures old(view).content == [] ==> c == 0 && view == old(view)
      ensures old(view).content != [] ==> c == old(view).content[0] && view == old(view).Advance(1)
    {
      c := 0;
      if CanRead() {
        c := data[read];
        ReadAdv(1);
      }
    }

    /** Writes one byte, or drops it when the buffer is full. */
    method Write(c: byte)
      requires Valid()
      modifies this, data
      ensures Valid()
      ensures view == if old(view).Room() > 0 then old(view).Append([c]) else old(view)
    {
      if CanWrite() {
        data[write] := c;
        WriteAdv(1);
      }
    }

    /** Slides the unread bytes to the base. ReadAdv also calls it with read == write. */
    method Compact()
      requires read <= write <= data.Length
      modifies this, data
      ensures Valid() && view == Buf(old(data[read..write]), 0, data.Length)
    {
      ghost var unread := data[read..write];
      if read == 0 {
        // nothing to move
      } else if read == write {
        read, write := 0, 0;
      } else {
        var n := write - read;
        for i := 0 to n
          invariant data[..i] == unread[..i]
          invariant forall k :: i <= k < data.Length ==> data[k] == old(data[k])
          modifies data
        {
          data[i] := data[read + i];
          assert data[..i + 1] == data[..i] + [data[i]];
        }
        read, write := 0, n;
      }
      view := Buf(unread, 0, data.Length);
    }
  }

  // ---------------------------------------------------------------------
  // The abstract value is a bounded FIFO

  datatype BufOp = Put(bytes: seq<byte>) | Take(n: nat) | Compacting

  predicate Allowed(b: Buf, op: BufOp) {
    match op
    case Put(bs) => |bs| <= b.Room()
    case Take(n) => n <= |b.content|
    case Compacting => true
  }

  function Apply(b: Buf, op: BufOp): Buf
    requires Allowed(b, op)
  {
    match op
    case Put(bs) => b.Append(bs)
    case Take(n) => b.Advance(n)
    case Compacting => b.Compacted()
  }

  ghost predicate AllowedAll(b: Buf, ops: seq<BufOp>)
    decreases |ops|
  {
    ops == [] || (Allowed(b, ops[0]) && AllowedAll(Apply(b, ops[0]), ops[1..]))
  }

  ghost function Run(b: Buf, ops: seq<BufOp>): Buf
    requires AllowedAll(b, ops)
    decreases |ops|
  {
    if ops == [] then b else Run(Apply(b, ops[0]), ops[1..])
  }

  /** Everything put in. */
  ghost function Input(ops: seq<BufOp>): seq<byte> {
    if ops == [] then [] else (if ops[0].Put? then ops[0].bytes else []) + Input(ops[1..])
  }

  /** Everything taken out. */
  ghost function Output(b: Buf, ops: seq<BufOp>): seq<byte>
    requires AllowedAll(b, ops)
    decreases |ops|
  {
    if ops == [] then []
    else (if ops[0].Take? then b.content[..ops[0].n] else []) + Output(Apply(b, ops[0]), ops[1..])
  }

  lemma Regroup(o0: seq<byte>, o1: seq<byte>, end: seq<byte>, c1: seq<byte>, i1: seq<byte>, c0: seq<byte>,
                i0: seq<byte>)
    requires o1 + end == c1 + i1 && o0 + c1 == c0 + i0
    ensures (o0 + o1) + end == c0 + (i0 + i1)
  {
    assert (o0 + o1) + end == o0 + (o1 + end);
    assert o0 + (c1 + i1) == (o0 + c1) + i1;
    assert (c0 + i0) + i1 == c0 + (i0 + i1);
  }

  /** Any use of the buffer keeps it well formed and returns the bytes in the order they went in. */
  lemma {:induction false} BoundedFifo(b: Buf, ops: seq<BufOp>)
    requires b.Ok() && AllowedAll(b, ops)
    ensures Run(b, ops).Ok() && Run(b, ops).cap == b.cap
    ensures Output(b, ops) + Run(b, ops).content == b.content + Input(ops)
    decreases |ops|
  {
    if ops == [] {
      assert b.content == b.content + [];
    } else {
      var b1 := Apply(b, ops[0]);
      BoundedFifo(b1, ops[1..]);
      var out0 := if ops[0].Take? then b.content[..ops[0].n] else [];
      var in0 := if ops[0].Put? then ops[0].bytes else [];
      assert out0 + b1.content == b.content + in0;
      Regroup(out0, Output(b1, ops[1..]), Run(b, ops).content, b1.content, Input(ops[1..]), b.content, in0);
    }
  }
}
