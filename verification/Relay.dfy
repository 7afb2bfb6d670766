/**
 * The COPY state (src/copy_stm.c): two buffers, four flags and the interest of
 * two descriptors, driven by whatever the network does. `Step` is one dispatched
 * event; the theorems are about every run of them.
 */
module Relays {
  import opened Base
  import opened Buffers
  import opened Interests

  /** What recv returned. `Reset` is ECONNRESET, `RecvError` any other error. */
  datatype Recv = Data(bytes: seq<byte>) | Eof | Reset | RecvError

  /** What send returned. From `Broken` it does not: the connection was reset, and SIGPIPE ends the process. */
  datatype Send = Sent(n: nat) | SendError | Broken

  datatype Next = Stay | Finished | Failed

  /** Histories: bytes received from and sent to each end since entry, shutdown calls issued, ends seen closed. */
  datatype Wire = Wire(fromClient: seq<byte>, fromOrigin: seq<byte>, toClient: seq<byte>, toOrigin: seq<byte>,
                       shutClient: nat, shutOrigin: nat, eofClient: bool, eofOrigin: bool)

  const NO_TRAFFIC := Wire([], [], [], [], 0, 0, false, false)

  datatype Flags = Flags(readingClient: bool, writingClient: bool, readingOrigin: bool, writingOrigin: bool)

  const ALL_OPEN := Flags(true, true, true, true)
  const ALL_CLOSED := Flags(false, false, false, false)

  /** The other end's descriptor passes through a uint8_t; its low eight bits are what is acted on. */
  function Narrow(fd: int): int {
    fd % 256
  }

  datatype Relay = Relay(rb: Buf, wb: Buf, flags: Flags, ci: Interest, oi: Interest, wire: Wire)
  {
    /** The interest of an end's descriptor. */
    function Interest(side: Side): Interest {
      if side == Client then ci else oi
    }

    function SetInterest(side: Side, i: Interest): Relay {
      if side == Client then this.(ci := i) else this.(oi := i)
    }

    /** The buffer that an end's bytes are received into. */
    function From(side: Side): Buf {
      if side == Client then wb else rb
    }

    /** The buffer that is drained into an end. */
    function To(side: Side): Buf {
      From(Other(side))
    }

    function SetFrom(side: Side, b: Buf): Relay {
      if side == Client then this.(wb := b) else this.(rb := b)
    }

    function Reading(side: Side): bool {
      if side == Client then flags.readingClient else flags.readingOrigin
    }

    function Writing(side: Side): bool {
      if side == Client then flags.writingClient else flags.writingOrigin
    }

    function StopWriting(side: Side): Relay {
      if side == Client then this.(flags := flags.(writingClient := false))
      else this.(flags := flags.(writingOrigin := false))
    }

    function StopReading(): Relay {
      this.(flags := flags.(readingClient := false, readingOrigin := false))
    }

    function Received(side: Side): seq<byte> {
      if side == Client then wire.fromClient else wire.fromOrigin
    }

    function SentTo(side: Side): seq<byte> {
      if side == Client then wire.toClient else wire.toOrigin
    }

    function Shutdowns(side: Side): nat {
      if side == Client then wire.shutClient else wire.shutOrigin
    }

    function Ended(side: Side): bool {
      if side == Client then wire.eofClient else wire.eofOrigin
    }

    function NoteReceived(side: Side, bs: seq<byte>): Relay {
      if side == Client then this.(wire := wire.(fromClient := wire.fromClient + bs))
      else this.(wire := wire.(fromOrigin := wire.fromOrigin + bs))
    }

    function NoteSent(side: Side, bs: seq<byte>): Relay {
      if side == Client then this.(wire := wire.(toClient := wire.toClient + bs))
      else this.(wire := wire.(toOrigin := wire.toOrigin + bs))
    }

    function NoteShutdown(side: Side): Relay {
      if side == Client then this.(wire := wire.(shutClient := wire.shutClient + 1))
      else this.(wire := wire.(shutOrigin := wire.shutOrigin + 1))
    }

    function NoteEnd(side: Side): Relay {
      if side == Client then this.(wire := wire.(eofClient := true)) else this.(wire := wire.(eofOrigin := true))
    }
  }

  // ---------------------------------------------------------------------
  // The two handlers

  /** check_close_connection. */
  function Check(r: Relay): (Relay, Next) {
    (r, if r.flags == ALL_CLOSED then Finished else Stay)
  }

  /** Bytes of `side` were counted in: stop reading there, start writing at the other end. */
  function BytesReceived(r: Relay, side: Side): (Relay, Next) {
    var r1 := r.SetInterest(side, Reduction(r.Interest(side), OP_READ));
    Check(r1.SetInterest(Other(side), Additive(r1.Interest(Other(side)), OP_WRITE)))
  }

  /** `side` was seen closed: no more reading at all, and the other end is shut down once drained. */
  function EndSeen(r: Relay, side: Side, shutOk: bool): (Relay, Next) {
    var r1 := r.StopReading().StopWriting(side);
    if r1.From(side).content != [] then Check(r1)
    else if !shutOk then (r1.NoteShutdown(Other(side)), Failed)
    else Check(r1.NoteShutdown(Other(side)).StopWriting(Other(side)))
  }

  function CopyRead(r: Relay, side: Side, recv: Recv, shutOk: bool): (Relay, Next) {
    match recv
    case Data(bs) => BytesReceived(r.SetFrom(side, r.From(side).Append(bs)).NoteReceived(side, bs), side)
    case RecvError => (r, Failed)
    case _ => EndSeen(r.SetInterest(side, Reduction(r.Interest(side), OP_READ)).NoteEnd(side), side, shutOk)
  }

  /** Bytes for `side` were counted out: when none is left stop writing, and read again if the source is open. */
  function BytesSent(r: Relay, side: Side, shutOk: bool): (Relay, Next) {
    var empty := r.To(side).content == [];
    var r1 := if empty then r.SetInterest(side, Reduction(r.Interest(side), OP_WRITE)) else r;
    if r.Reading(Other(side)) then Check(r1.SetInterest(Other(side), Additive(r1.Interest(Other(side)), OP_READ)))
    else if !empty then Check(r1)
    else
      var r2 := r1.StopWriting(side).NoteShutdown(side);
      if shutOk then Check(r2) else (r2, Failed)
  }

  function CopyWrite(r: Relay, side: Side, send: Send, shutOk: bool): (Relay, Next) {
    if !send.Sent? || send.n == 0 || send.n > |r.To(side).content| then (r, Failed)
    else
      var bs := r.To(side).content[..send.n];
      BytesSent(r.SetFrom(Other(side), r.To(side).Advance(send.n)).NoteSent(side, bs), side, shutOk)
  }

  // ---------------------------------------------------------------------
  // Runs

  datatype Io = Readable(recv: Recv) | Writable(send: Send)

  datatype Event = Event(side: Side, io: Io, shutOk: bool)

  /** recv into n bytes yields 1..n of them, or an end of file, or an error. */
  predicate LegalRecv(b: Buf, recv: Recv) {
    recv.Data? ==> 0 < |recv.bytes| <= b.Room()
  }

  /** send of n > 0 bytes takes 1..n of them, or fails; send of none takes none. */
  predicate LegalSend(b: Buf, send: Send) {
    send.Sent? ==> send.n <= |b.content| && (send.n == 0 <==> b.content == [])
  }

  /** The selector dispatches an event only to a descriptor with that interest. */
  predicate Enabled(r: Relay, e: Event) {
    match e.io
    case Readable(recv) => HasRead(r.Interest(e.side)) && LegalRecv(r.From(e.side), recv)
    case Writable(send) => HasWrite(r.Interest(e.side)) && LegalSend(r.To(e.side), send)
  }

  function Step(r: Relay, e: Event): (Relay, Next) {
    match e.io
    case Readable(recv) => CopyRead(r, e.side, recv, e.shutOk)
    case Writable(send) => CopyWrite(r, e.side, send, e.shutOk)
  }

  /** A run that is still in COPY at its end. */
  ghost predicate Runs(r: Relay, es: seq<Event>)
    decreases |es|
  {
    es == [] || (Enabled(r, es[0]) && Step(r, es[0]).1 == Stay && Runs(Step(r, es[0]).0, es[1..]))
  }

  ghost function After(r: Relay, es: seq<Event>): Relay
    decreases |es|
  {
    if es == [] then r else After(Step(r, es[0]).0, es[1..])
  }

  /** copy_init, with the interests request_write leaves: `rb` may still hold bytes the client sent early. */
  function Entry(rb: Buf, wb: Buf): Relay {
    Relay(rb, wb, ALL_OPEN, OP_READ, OP_READ, NO_TRAFFIC)
  }

  // ---------------------------------------------------------------------
  // The invariant

  /** Bytes sent, then bytes waiting, are the bytes there at entry, then those received. */
  predicate Conserved(r: Relay, rb0: seq<byte>, wb0: seq<byte>) {
    && r.wire.toOrigin + r.wb.content == wb0 + r.wire.fromClient
    && r.wire.toClient + r.rb.content == rb0 + r.wire.fromOrigin
  }

  /** Write interest exactly when there is something to drain into that end. */
  predicate Coupled(r: Relay, side: Side) {
    HasWrite(r.Interest(side)) <==> r.To(side).content != []
  }

  /** An open direction is waiting for its source or for its destination. */
  predicate Live(r: Relay, side: Side) {
    HasRead(r.Interest(side)) || HasWrite(r.Interest(Other(side)))
  }

  /** No end has been seen closed. */
  predicate Open(r: Relay) {
    && r.flags == ALL_OPEN && !r.Ended(Client) && !r.Ended(Origin)
    && r.Shutdowns(Client) == 0 && r.Shutdowns(Origin) == 0
    && Live(r, Client) && Live(r, Origin)
  }

  /** Only `side` has been seen closed, and its bytes are still on their way. */
  predicate HalfClosed(r: Relay, side: Side) {
    && !r.Reading(Client) && !r.Reading(Origin) && !r.Writing(side) && r.Writing(Other(side))
    && r.From(side).content != []
    && r.Ended(side) && !r.Ended(Other(side)) && r.Shutdowns(Other(side)) == 0
    && !HasRead(r.Interest(side))
  }

  /** What every COPY state satisfies, whatever was in the buffers at entry. */
  predicate Sound(r: Relay, rb0: seq<byte>, wb0: seq<byte>) {
    && r.rb.Ok() && r.wb.Ok()
    && Conserved(r, rb0, wb0)
    && (HasWrite(r.ci) ==> r.rb.content != []) && (HasWrite(r.oi) ==> r.wb.content != [])
    && (Open(r) || HalfClosed(r, Client) || HalfClosed(r, Origin))
  }

  lemma EntryIsSound(rb: Buf, wb: Buf)
    requires rb.Ok() && wb.Ok()
    ensures Sound(Entry(rb, wb), rb.content, wb.content)
  {
  }

  lemma Push(done: seq<byte>, content: seq<byte>, start: seq<byte>, got: seq<byte>, bs: seq<byte>)
    requires done + content == start + got
    ensures done + (content + bs) == start + (got + bs)
  {
    assert done + (content + bs) == (done + content) + bs;
    assert start + (got + bs) == (start + got) + bs;
  }

  lemma Pop(done: seq<byte>, content: seq<byte>, n: nat)
    requires n <= |content|
    ensures (done + content[..n]) + content[n..] == done + content
  {
  }

  lemma DataKeepsSound(r: Relay, side: Side, bs: seq<byte>, rb0: seq<byte>, wb0: seq<byte>)
    requires Sound(r, rb0, wb0) && HasRead(r.Interest(side)) && LegalRecv(r.From(side), Data(bs))
    ensures var (r1, next) := CopyRead(r, side, Data(bs), true); next == Stay && Sound(r1, rb0, wb0)
  {
    if side == Client {
      Push(r.wire.toOrigin, r.wb.content, wb0, r.wire.fromClient, bs);
    } else {
      Push(r.wire.toClient, r.rb.content, rb0, r.wire.fromOrigin, bs);
    }
  }

  lemma EndKeepsSound(r: Relay, side: Side, recv: Recv, shutOk: bool, rb0: seq<byte>, wb0: seq<byte>)
    requires Sound(r, rb0, wb0) && HasRead(r.Interest(side)) && !recv.Data?
    ensures var (r1, next) := CopyRead(r, side, recv, shutOk);
            Conserved(r1, rb0, wb0) && (next == Stay ==> Sound(r1, rb0, wb0))
  {
  }

  lemma PartialWriteKeepsSound(r: Relay, side: Side, n: nat, shutOk: bool, rb0: seq<byte>, wb0: seq<byte>)
    requires Sound(r, rb0, wb0) && HasWrite(r.Interest(side)) && 0 < n < |r.To(side).content|
    ensures var (r1, next) := CopyWrite(r, side, Sent(n), shutOk); next == Stay && Sound(r1, rb0, wb0)
  {
    Pop(r.SentTo(side), r.To(side).content, n);
  }

  lemma FullWriteKeepsSound(r: Relay, side: Side, shutOk: bool, rb0: seq<byte>, wb0: seq<byte>)
    requires Sound(r, rb0, wb0) && HasWrite(r.Interest(side))
    ensures var (r1, next) := CopyWrite(r, side, Sent(|r.To(side).content|), shutOk);
            Conserved(r1, rb0, wb0) && (next == Stay ==> Sound(r1, rb0, wb0))
  {
    var content := r.To(side).content;
    Pop(r.SentTo(side), content, |content|);
    assert content[|content|..] == [];
  }

  /** Every step keeps conservation, and one that stays in COPY keeps the whole invariant. */
  lemma StepKeepsSound(r: Relay, e: Event, rb0: seq<byte>, wb0: seq<byte>)
    requires Sound(r, rb0, wb0) && Enabled(r, e)
    ensures Conserved(Step(r, e).0, rb0, wb0)
    ensures Step(r, e).1 == Stay ==> Sound(Step(r, e).0, rb0, wb0)
  {
    match e.io
    case Readable(recv) =>
      if recv.Data? {
        DataKeepsSound(r, e.side, recv.bytes, rb0, wb0);
      } else {
        EndKeepsSound(r, e.side, recv, e.shutOk, rb0, wb0);
      }
    case Writable(send) =>
      if send.Sent? && send.n != 0 {
        if send.n == |r.To(e.side).content| {
          FullWriteKeepsSound(r, e.side, e.shutOk, rb0, wb0);
        } else {
          PartialWriteKeepsSound(r, e.side, send.n, e.shutOk, rb0, wb0);
        }
      }
  }

  lemma ReadKeepsCaps(r: Relay, side: Side, recv: Recv, shutOk: bool)
    ensures var t := CopyRead(r, side, recv, shutOk).0; t.rb.cap == r.rb.cap && t.wb.cap == r.wb.cap
  {
  }

  lemma WriteKeepsCaps(r: Relay, side: Side, send: Send, shutOk: bool)
    ensures var t := CopyWrite(r, side, send, shutOk).0; t.rb.cap == r.rb.cap && t.wb.cap == r.wb.cap
  {
  }

  lemma StepKeepsCaps(r: Relay, e: Event)
    ensures Step(r, e).0.rb.cap == r.rb.cap && Step(r, e).0.wb.cap == r.wb.cap
  {
    match e.io
    case Readable(recv) => ReadKeepsCaps(r, e.side, recv, e.shutOk);
    case Writable(send) => WriteKeepsCaps(r, e.side, send, e.shutOk);
  }

  // ---------------------------------------------------------------------
  // Every run

  lemma {:induction false} RunKeepsSound(r: Relay, es: seq<Event>, rb0: seq<byte>, wb0: seq<byte>)
    requires Sound(r, rb0, wb0) && Runs(r, es)
    ensures Sound(After(r, es), rb0, wb0)
    decreases |es|
  {
    if es != [] {
      StepKeepsSound(r, es[0], rb0, wb0);
      RunKeepsSound(Step(r, es[0]).0, es[1..], rb0, wb0);
    }
  }

  /** Conservation, in each direction, over every run and also through the step that ends it. */
  lemma ConservationOverRuns(rb: Buf, wb: Buf, es: seq<Event>, last: Event)
    requires rb.Ok() && wb.Ok() && Runs(Entry(rb, wb), es) && Enabled(After(Entry(rb, wb), es), last)
    ensures Conserved(After(Entry(rb, wb), es), rb.content, wb.content)
    ensures Conserved(Step(After(Entry(rb, wb), es), last).0, rb.content, wb.content)
  {
    EntryIsSound(rb, wb);
    RunKeepsSound(Entry(rb, wb), es, rb.content, wb.content);
    StepKeepsSound(After(Entry(rb, wb), es), last, rb.content, wb.content);
  }

  /** Only `side` may still be written to, and bytes for it are waiting. */
  predicate OnlyWriting(r: Relay, side: Side) {
    && r.flags == ALL_CLOSED.(writingClient := side == Client, writingOrigin := side == Origin)
    && r.To(side).content != []
  }

  /** The four flags take four combinations only, and DONE is returned exactly at the last. */
  lemma FourCombinations(rb: Buf, wb: Buf, es: seq<Event>, last: Event)
    requires rb.Ok() && wb.Ok() && Runs(Entry(rb, wb), es) && Enabled(After(Entry(rb, wb), es), last)
    ensures var r := After(Entry(rb, wb), es);
            && (r.flags == ALL_OPEN || OnlyWriting(r, Origin) || OnlyWriting(r, Client))
            && (Step(r, last).1 != Failed ==> (Step(r, last).1 == Finished <==> Step(r, last).0.flags == ALL_CLOSED))
  {
    EntryIsSound(rb, wb);
    RunKeepsSound(Entry(rb, wb), es, rb.content, wb.content);
  }

  /** A write is dispatched only when there is something to send. */
  lemma NeverSendsNothing(rb: Buf, wb: Buf, es: seq<Event>, last: Event)
    requires rb.Ok() && wb.Ok() && Runs(Entry(rb, wb), es) && Enabled(After(Entry(rb, wb), es), last)
    ensures last.io.Writable? ==> After(Entry(rb, wb), es).To(last.side).content != []
  {
    EntryIsSound(rb, wb);
    RunKeepsSound(Entry(rb, wb), es, rb.content, wb.content);
  }

  /** What was in the direction of `side`'s bytes at entry. */
  function AtEntry(rb: Buf, wb: Buf, side: Side): seq<byte> {
    if side == Client then wb.content else rb.content
  }

  /**
   * If the relay is done and only one end was seen closed, all its bytes went
   * to the other, which was shut down for writing exactly once.
   */
  lemma DoneDelivers(rb: Buf, wb: Buf, es: seq<Event>, last: Event, side: Side)
    requires rb.Ok() && wb.Ok() && Runs(Entry(rb, wb), es)
    requires var r := After(Entry(rb, wb), es);
             && Enabled(r, last) && Step(r, last).1 == Finished
             && Step(r, last).0.Ended(side) && !Step(r, last).0.Ended(Other(side))
    ensures var d := Step(After(Entry(rb, wb), es), last).0;
            && d.SentTo(Other(side)) == AtEntry(rb, wb, side) + d.Received(side)
            && d.Shutdowns(Other(side)) == 1
  {
    var r := After(Entry(rb, wb), es);
    EntryIsSound(rb, wb);
    RunKeepsSound(Entry(rb, wb), es, rb.content, wb.content);
    StepKeepsSound(r, last, rb.content, wb.content);
    var d := Step(r, last).0;
    FinishedIsDrained(r, last, side, rb.content, wb.content);
    assert d.SentTo(Other(side)) + [] == d.SentTo(Other(side));
  }

  lemma FinishedReadIsDrained(r: Relay, at: Side, recv: Recv, shutOk: bool, side: Side)
    requires Open(r) || HalfClosed(r, Client) || HalfClosed(r, Origin)
    requires HasRead(r.Interest(at)) && CopyRead(r, at, recv, shutOk).1 == Finished
    requires var d := CopyRead(r, at, recv, shutOk).0; d.Ended(side) && !d.Ended(Other(side))
    ensures var d := CopyRead(r, at, recv, shutOk).0; d.From(side).content == [] && d.Shutdowns(Other(side)) == 1
  {
  }

  lemma FinishedWriteIsDrained(r: Relay, to: Side, send: Send, shutOk: bool, side: Side)
    requires Open(r) || HalfClosed(r, Client) || HalfClosed(r, Origin)
    requires r.Ended(side) && !r.Ended(Other(side)) && CopyWrite(r, to, send, shutOk).1 == Finished
    ensures var d := CopyWrite(r, to, send, shutOk).0; d.From(side).content == [] && d.Shutdowns(Other(side)) == 1
  {
  }

  lemma WriteEndsNothing(r: Relay, to: Side, send: Send, shutOk: bool)
    ensures var w := CopyWrite(r, to, send, shutOk).0.wire;
            w.eofClient == r.wire.eofClient && w.eofOrigin == r.wire.eofOrigin
  {
  }

  lemma FinishedIsDrained(r: Relay, e: Event, side: Side, rb0: seq<byte>, wb0: seq<byte>)
    requires Sound(r, rb0, wb0) && Enabled(r, e) && Step(r, e).1 == Finished
    requires Step(r, e).0.Ended(side) && !Step(r, e).0.Ended(Other(side))
    ensures Step(r, e).0.From(side).content == [] && Step(r, e).0.Shutdowns(Other(side)) == 1
  {
    match e.io
    case Readable(recv) => FinishedReadIsDrained(r, e.side, recv, e.shutOk, side);
    case Writable(send) =>
      WriteEndsNothing(r, e.side, send, e.shutOk);
      FinishedWriteIsDrained(r, e.side, send, e.shutOk, side);
  }

  // ---------------------------------------------------------------------
  // Termination after the first end of file

  /** One more read may come from the surviving end; after that only writes. */
  function Measure(r: Relay, side: Side): nat {
    (if HasRead(r.Interest(Other(side))) then r.From(Other(side)).cap + 1 else 0) + |r.rb.content| + |r.wb.content|
  }

  lemma DataDropsMeasure(r: Relay, bs: seq<byte>, side: Side, shutOk: bool)
    requires r.rb.Ok() && r.wb.Ok() && HalfClosed(r, side)
    requires HasRead(r.Interest(Other(side))) && LegalRecv(r.From(Other(side)), Data(bs))
    ensures var r1 := CopyRead(r, Other(side), Data(bs), shutOk).0;
            HalfClosed(r1, side) && Measure(r1, side) < Measure(r, side)
  {
  }

  lemma WriteDropsMeasure(r: Relay, n: nat, to: Side, side: Side, shutOk: bool)
    requires HalfClosed(r, side) && 0 < n <= |r.To(to).content| && CopyWrite(r, to, Sent(n), shutOk).1 == Stay
    ensures var r1 := CopyWrite(r, to, Sent(n), shutOk).0;
            HalfClosed(r1, side) && Measure(r1, side) < Measure(r, side)
  {
    assert |r.To(to).Advance(n).content| == |r.To(to).content| - n;
  }

  lemma MeasureDrops(r: Relay, e: Event, side: Side, rb0: seq<byte>, wb0: seq<byte>)
    requires Sound(r, rb0, wb0) && HalfClosed(r, side) && Enabled(r, e) && Step(r, e).1 == Stay
    ensures HalfClosed(Step(r, e).0, side) && Measure(Step(r, e).0, side) < Measure(r, side)
  {
    match e.io
    case Readable(recv) =>
      assert recv.Data? && e.side == Other(side);
      DataDropsMeasure(r, recv.bytes, side, e.shutOk);
    case Writable(send) =>
      WriteDropsMeasure(r, send.n, e.side, side, e.shutOk);
  }

  /** A half-closed relay handles at most `Measure` more events before it leaves COPY. */
  lemma {:induction false} HalfClosedTerminates(r: Relay, es: seq<Event>, side: Side, rb0: seq<byte>, wb0: seq<byte>)
    requires Sound(r, rb0, wb0) && HalfClosed(r, side) && Runs(r, es)
    ensures |es| <= Measure(r, side)
    decreases |es|
  {
    if es != [] {
      MeasureDrops(r, es[0], side, rb0, wb0);
      StepKeepsSound(r, es[0], rb0, wb0);
      HalfClosedTerminates(Step(r, es[0]).0, es[1..], side, rb0, wb0);
    }
  }

  // ---------------------------------------------------------------------
  // Stalls

  /** In COPY with nothing to wait for: the session would never be dispatched again. */
  predicate Stalled(r: Relay) {
    r.ci == OP_NOOP && r.oi == OP_NOOP
  }

  predicate Tight(r: Relay, rb0: seq<byte>, wb0: seq<byte>) {
    Sound(r, rb0, wb0) && Coupled(r, Client) && Coupled(r, Origin)
  }

  lemma ReadKeepsCoupling(r: Relay, side: Side, recv: Recv, shutOk: bool)
    requires Coupled(r, Client) && Coupled(r, Origin) && HasRead(r.Interest(side)) && LegalRecv(r.From(side), recv)
    requires CopyRead(r, side, recv, shutOk).1 == Stay
    ensures var r1 := CopyRead(r, side, recv, shutOk).0; Coupled(r1, Client) && Coupled(r1, Origin)
  {
  }

  /** After the bytes are counted out: coupled but for the write interest of the end that took them. */
  lemma BytesSentKeepsCoupling(r: Relay, side: Side, shutOk: bool)
    requires Coupled(r, Other(side)) && HasWrite(r.Interest(side)) && BytesSent(r, side, shutOk).1 == Stay
    ensures var r1 := BytesSent(r, side, shutOk).0; Coupled(r1, Client) && Coupled(r1, Origin)
  {
  }

  lemma WriteKeepsCoupling(r: Relay, side: Side, send: Send, shutOk: bool)
    requires Coupled(r, Client) && Coupled(r, Origin) && HasWrite(r.Interest(side)) && LegalSend(r.To(side), send)
    requires CopyWrite(r, side, send, shutOk).1 == Stay
    ensures var r1 := CopyWrite(r, side, send, shutOk).0; Coupled(r1, Client) && Coupled(r1, Origin)
  {
    if send.Sent? && send.n > 0 {
      var bs := r.To(side).content[..send.n];
      BytesSentKeepsCoupling(r.SetFrom(Other(side), r.To(side).Advance(send.n)).NoteSent(side, bs), side, shutOk);
    }
  }

  lemma StepKeepsTight(r: Relay, e: Event, rb0: seq<byte>, wb0: seq<byte>)
    requires Tight(r, rb0, wb0) && Enabled(r, e) && Step(r, e).1 == Stay
    ensures Tight(Step(r, e).0, rb0, wb0)
  {
    StepKeepsSound(r, e, rb0, wb0);
    match e.io
    case Readable(recv) => ReadKeepsCoupling(r, e.side, recv, e.shutOk);
    case Writable(send) => WriteKeepsCoupling(r, e.side, send, e.shutOk);
  }

  lemma {:induction false} RunKeepsTight(r: Relay, es: seq<Event>, rb0: seq<byte>, wb0: seq<byte>)
    requires Tight(r, rb0, wb0) && Runs(r, es)
    ensures Tight(After(r, es), rb0, wb0)
    decreases |es|
  {
    if es != [] {
      StepKeepsTight(r, es[0], rb0, wb0);
      RunKeepsTight(Step(r, es[0]).0, es[1..], rb0, wb0);
    }
  }

  /**
   * Entered with both buffers empty: write interest exactly where there is
   * something to drain, and every direction still open is waited for.
   */
  lemma CouplingOverRuns(rb: Buf, wb: Buf, es: seq<Event>)
    requires rb.Ok() && wb.Ok() && rb.content == [] && wb.content == [] && Runs(Entry(rb, wb), es)
    ensures var r := After(Entry(rb, wb), es);
            && Coupled(r, Client) && Coupled(r, Origin)
            && (r.Reading(Client) ==> Live(r, Client) && Live(r, Origin))
            && (forall side :: r.Writing(side) && !r.Reading(Other(side)) ==> HasWrite(r.Interest(side)))
            && !Stalled(r)
  {
    EntryIsSound(rb, wb);
    RunKeepsTight(Entry(rb, wb), es, [], []);
  }

  /** The origin closes first, then the client speaks once more. */
  function StallingRun(): seq<Event> {
    [Event(Origin, Readable(Eof), true), Event(Client, Readable(Data([0])), true),
      Event(Origin, Writable(Sent(1)), true)]
  }

  lemma LeftoverStalls(rb: Buf, wb: Buf)
    requires rb.Ok() && wb == EmptyBuf(wb.cap) && wb.cap > 0 && rb.content != []
    ensures Runs(Entry(rb, wb), StallingRun()) && Stalled(After(Entry(rb, wb), StallingRun()))
  {
  }

  ghost predicate StallFree(r: Relay) {
    forall es: seq<Event> :: Runs(r, es) ==> !Stalled(After(r, es))
  }

  /** No run can stall iff the client had sent nothing beyond its request. */
  lemma StallFreeIffNothingLeftOver(rb: Buf, wb: Buf)
    requires rb.Ok() && wb == EmptyBuf(wb.cap) && wb.cap > 0
    ensures StallFree(Entry(rb, wb)) <==> rb.content == []
  {
    if rb.content == [] {
      forall es: seq<Event> | Runs(Entry(rb, wb), es)
        ensures !Stalled(After(Entry(rb, wb), es))
      {
        CouplingOverRuns(rb, wb, es);
      }
    } else {
      LeftoverStalls(rb, wb);
      assert !StallFree(Entry(rb, wb));
    }
  }

  // ---------------------------------------------------------------------
  // End of file by lack of room

  /** A read that is waited for has room to receive into. */
  predicate HasRoom(r: Relay) {
    && (HasRead(r.ci) ==> r.wb.Room() > 0)
    && (HasRead(r.oi) ==> r.rb.Room() > 0)
  }

  /**
   * A send that takes some but not all of a buffer filled to its limit, while the
   * source is open: the read is re-armed, and no room has come free.
   */
  predicate Strands(r: Relay, e: Event) {
    && e.io.Writable? && e.io.send.Sent? && 0 < e.io.send.n < |r.To(e.side).content|
    && r.To(e.side).Room() == 0 && r.Reading(Other(e.side))
  }

  lemma ReadKeepsRoom(r: Relay, side: Side, recv: Recv, shutOk: bool)
    requires HasRoom(r) && HasRead(r.Interest(side))
    ensures HasRoom(CopyRead(r, side, recv, shutOk).0)
  {
  }

  lemma BytesSentKeepsRoomIff(r: Relay, side: Side, shutOk: bool)
    requires HasRoom(r)
    ensures HasRoom(BytesSent(r, side, shutOk).0) <==> r.Reading(Other(side)) ==> r.To(side).Room() > 0
  {
  }

  lemma AdvanceGivesRoom(b: Buf, n: nat)
    requires b.Ok() && 0 < n <= |b.content|
    ensures b.Advance(n).Room() == if n == |b.content| then b.cap else b.Room()
  {
  }

  lemma WriteKeepsRoomIff(r: Relay, side: Side, n: nat, shutOk: bool)
    requires HasRoom(r) && 0 < n <= |r.To(side).content| && r.To(side).Ok()
    ensures HasRoom(CopyWrite(r, side, Sent(n), shutOk).0) <==> !Strands(r, Event(side, Writable(Sent(n)), shutOk))
  {
    AdvanceGivesRoom(r.To(side), n);
    var bs := r.To(side).content[..n];
    BytesSentKeepsRoomIff(r.SetFrom(Other(side), r.To(side).Advance(n)).NoteSent(side, bs), side, shutOk);
  }

  /** A step makes a read wait without room exactly when it is such a send. */
  lemma StepKeepsRoomIff(r: Relay, e: Event, rb0: seq<byte>, wb0: seq<byte>)
    requires Sound(r, rb0, wb0) && HasRoom(r) && Enabled(r, e) && Step(r, e).1 == Stay
    ensures HasRoom(Step(r, e).0) <==> !Strands(r, e)
  {
    match e.io
    case Readable(recv) => ReadKeepsRoom(r, e.side, recv, e.shutOk);
    case Writable(send) => WriteKeepsRoomIff(r, e.side, send.n, e.shutOk);
  }

  /** From `r` on, every read that is waited for has room. */
  ghost predicate AlwaysRoom(r: Relay, es: seq<Event>)
    decreases |es|
  {
    HasRoom(r) && (es == [] || AlwaysRoom(Step(r, es[0]).0, es[1..]))
  }

  ghost predicate NeverStrands(r: Relay, es: seq<Event>)
    decreases |es|
  {
    es == [] || (!Strands(r, es[0]) && NeverStrands(Step(r, es[0]).0, es[1..]))
  }

  lemma {:induction false} RoomOverRunsFrom(r: Relay, es: seq<Event>, rb0: seq<byte>, wb0: seq<byte>)
    requires Sound(r, rb0, wb0) && Runs(r, es) && HasRoom(r)
    ensures AlwaysRoom(r, es) <==> NeverStrands(r, es)
    decreases |es|
  {
    if es != [] {
      StepKeepsRoomIff(r, es[0], rb0, wb0);
      StepKeepsSound(r, es[0], rb0, wb0);
      if HasRoom(Step(r, es[0]).0) {
        RoomOverRunsFrom(Step(r, es[0]).0, es[1..], rb0, wb0);
      }
    }
  }

  /** A read without room: whatever recv answers is taken for an end of file or an error. */
  lemma NoRoomNoData(r: Relay, e: Event)
    requires Enabled(r, e) && e.io.Readable?
    ensures r.From(e.side).Room() <= 0 ==> !e.io.recv.Data?
  {
  }

  /**
   * Over every run from the entry: no read is ever made without room iff what
   * was left over from the request does not fill its buffer and no send strands
   * its source.
   */
  lemma RoomOverRunsIff(rb: Buf, wb: Buf, es: seq<Event>)
    requires rb.Ok() && wb.Ok() && Runs(Entry(rb, wb), es)
    ensures AlwaysRoom(Entry(rb, wb), es) <==> rb.Room() > 0 && wb.Room() > 0 && NeverStrands(Entry(rb, wb), es)
  {
    EntryIsSound(rb, wb);
    if rb.Room() > 0 && wb.Room() > 0 {
      RoomOverRunsFrom(Entry(rb, wb), es, rb.content, wb.content);
    }
  }

  /**
   * A request received together with bytes that fill its buffer: the origin is waited
   * for, with no room for its bytes.
   */
  lemma FullLeftoverFakesEndOfFile(rb: Buf, wb: Buf, recv: Recv)
    requires rb.Ok() && rb.Room() == 0
    ensures HasRead(Entry(rb, wb).Interest(Origin)) && (LegalRecv(Entry(rb, wb).From(Origin), recv) ==> !recv.Data?)
  {
  }

  predicate CompleteSends(r: Relay, es: seq<Event>)
    decreases |es|
  {
    es != [] ==>
      && (es[0].io.Writable? && es[0].io.send.Sent? ==> es[0].io.send.n >= |r.To(es[0].side).content|)
      && CompleteSends(Step(r, es[0]).0, es[1..])
  }

  /** A read that is waited for has the whole buffer to fill. */
  predicate Roomy(r: Relay) {
    && (HasRead(r.ci) ==> r.wb == EmptyBuf(r.wb.cap))
    && (HasRead(r.oi) ==> r.rb == EmptyBuf(r.rb.cap))
  }

  lemma ReadKeepsRoomy(r: Relay, side: Side, recv: Recv, shutOk: bool)
    requires Roomy(r) && HasRead(r.Interest(side))
    ensures Roomy(CopyRead(r, side, recv, shutOk).0)
  {
  }

  lemma CompleteSendKeepsRoomy(r: Relay, side: Side, send: Send, shutOk: bool)
    requires Roomy(r) && (send.Sent? ==> send.n >= |r.To(side).content|)
    ensures Roomy(CopyWrite(r, side, send, shutOk).0)
  {
  }

  /** While sends take all they are offered, no read is ever made without room. */
  lemma {:induction false} CompleteSendsLeaveRoom(r: Relay, es: seq<Event>)
    requires Roomy(r) && Runs(r, es) && CompleteSends(r, es)
    ensures Roomy(After(r, es))
    decreases |es|
  {
    if es != [] {
      match es[0].io {
        case Readable(recv) => ReadKeepsRoomy(r, es[0].side, recv, es[0].shutOk);
        case Writable(send) => CompleteSendKeepsRoomy(r, es[0].side, send, es[0].shutOk);
      }
      CompleteSendsLeaveRoom(Step(r, es[0]).0, es[1..]);
    }
  }

  /**
   * A send that leaves bytes behind a full buffer re-arms the read with no room:
   * recv then returns 0 and the end-of-file branch is taken with the peer still open.
   */
  lemma PartialSendFakesEndOfFile(rb: Buf, wb: Buf, bs: seq<byte>)
    requires rb.Ok() && wb == EmptyBuf(|bs|) && |bs| >= 2
    ensures var es := [Event(Client, Readable(Data(bs)), true), Event(Origin, Writable(Sent(1)), true)];
            var r := After(Entry(rb, wb), es);
            && Runs(Entry(rb, wb), es) && HasRead(r.Interest(Client)) && r.From(Client).Room() == 0 && !r.Ended(Client)
            && (forall recv :: LegalRecv(r.From(Client), recv) ==> !recv.Data?)
  {
    var es := [Event(Client, Readable(Data(bs)), true), Event(Origin, Writable(Sent(1)), true)];
    var r1 := Step(Entry(rb, wb), es[0]).0;
    assert r1.wb.content == bs && es[1..] == [es[1]];
    var r2 := Step(r1, es[1]).0;
    assert es[1..][1..] == [] && After(r1, es[1..]) == r2 && Runs(r1, es[1..]);
  }
}
