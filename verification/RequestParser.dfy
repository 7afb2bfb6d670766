/**
 * The SOCKS request and its reply (src/request_parser.c; sections 4 and 6 of
 * RFC 1928): VER, CMD, RSV, ATYP, DST.ADDR, DST.PORT.
 */
module RequestParsers {
  import opened Base
  import opened Buffers
  import opened Streams

  const VERSION: byte := 5
  const CONNECT: byte := 1
  const RESERVED: byte := 0

  const IPV4: byte := 1
  const FQDN: byte := 3
  const IPV6: byte := 4

  const SUCCEEDED: byte := 0
  const GENERAL_FAILURE: byte := 1
  const NOT_ALLOWED: byte := 2
  const NETWORK_UNREACHABLE: byte := 3
  const HOST_UNREACHABLE: byte := 4
  const CONNECTION_REFUSED: byte := 5
  const COMMAND_NOT_SUPPORTED: byte := 7
  const ADDRESS_TYPE_NOT_SUPPORTED: byte := 8

  /** `Faulted` is the crash of the source on a name of length zero: a write through a null pointer. */
  datatype State =
    | ReadingVersion | ReadingCommand | ReadingRsv | ReadingAtyp | ReadingAddr | ReadingPort
    | Done | Error | Faulted

  /** `addr` holds the address bytes stored so far; -1 marks a number not read yet. */
  datatype Request = Request(state: State, atyp: int, addrLen: int, addr: seq<byte>, port: int, reply: byte)

  const START := Request(ReadingVersion, -1, -1, [], -1, 0)

  predicate Stops(r: Request) {
    r.state.Done? || r.state.Error? || r.state.Faulted?
  }

  function Refuse(r: Request, code: byte): Request {
    r.(state := Error, reply := code)
  }

  function Feed(r: Request, c: byte): Request {
    match r.state
    case ReadingVersion => if c == VERSION then r.(state := ReadingCommand) else Refuse(r, NOT_ALLOWED)
    case ReadingCommand => if c == CONNECT then r.(state := ReadingRsv) else Refuse(r, COMMAND_NOT_SUPPORTED)
    case ReadingRsv => if c == RESERVED then r.(state := ReadingAtyp) else Refuse(r, NOT_ALLOWED)
    case ReadingAtyp =>
      if c == IPV4 then r.(state := ReadingAddr, atyp := c, addrLen := 4)
      else if c == IPV6 then r.(state := ReadingAddr, atyp := c, addrLen := 16)
      else if c == FQDN then r.(state := ReadingAddr, atyp := c, addrLen := 0)
      else Refuse(r, ADDRESS_TYPE_NOT_SUPPORTED)
    case ReadingAddr =>
      if |r.addr| == 0 && r.addrLen == 0 then
        if c == 0 then r.(state := Faulted) else r.(addrLen := c)
      else
        r.(addr := r.addr + [c], state := if |r.addr| + 1 == r.addrLen then ReadingPort else ReadingAddr)
    case ReadingPort => if r.port == -1 then r.(port := c * 256) else r.(port := r.port + c, state := Done)
    case Done => r.(reply := SUCCEEDED)
    case Error => r.(reply := GENERAL_FAILURE)
    case Faulted => r
  }

  /** The consume loop feeds the byte that completes a request once more, which sets the reply. */
  function FeedTurn(r: Request, c: byte): Request {
    var r1 := Feed(r, c);
    if r1.state.Done? then Feed(r1, c) else r1
  }

  function Parse(r: Request, s: seq<byte>): (Request, seq<byte>) {
    Consume(FeedTurn, Stops, r, s)
  }

  function ParseBuf(r: Request, b: Buf): (Request, Buf) {
    ConsumeBuf(FeedTurn, Stops, r, b)
  }

  lemma ParseStep(r: Request, s: seq<byte>)
    requires s != []
    ensures var r1 := FeedTurn(r, s[0]); Parse(r, s) == if Stops(r1) then (r1, s[1..]) else Parse(r1, s[1..])
  {
  }

  // ---------------------------------------------------------------------
  // The wire language

  predicate Encodable(atyp: int, addr: seq<byte>, port: int) {
    && (|| (atyp == IPV4 && |addr| == 4)
        || (atyp == IPV6 && |addr| == 16)
        || (atyp == FQDN && 0 < |addr| < 256))
    && 0 <= port < 65536
  }

  function Encode(atyp: int, addr: seq<byte>, port: int): seq<byte>
    requires Encodable(atyp, addr, port)
  {
    [VERSION, CONNECT, RESERVED, atyp] + (if atyp == FQDN then [|addr|] else []) + addr + [port / 256, port % 256]
  }

  /** What one pass over any stream yields, with no reference to the automaton. */
  function Meaning(s: seq<byte>): (Request, seq<byte>) {
    if s == [] then (START, [])
    else if s[0] != VERSION then (Refuse(START, NOT_ALLOWED), s[1..])
    else if |s| == 1 then (START.(state := ReadingCommand), [])
    else if s[1] != CONNECT then (Refuse(START, COMMAND_NOT_SUPPORTED), s[2..])
    else if |s| == 2 then (START.(state := ReadingRsv), [])
    else if s[2] != RESERVED then (Refuse(START, NOT_ALLOWED), s[3..])
    else if |s| == 3 then (START.(state := ReadingAtyp), [])
    else AddressMeaning(s[3], s[4..])
  }

  /** From the byte after ATYP on. */
  function AddressMeaning(atyp: byte, t: seq<byte>): (Request, seq<byte>) {
    if atyp == IPV4 then BodyMeaning(atyp, 4, t)
    else if atyp == IPV6 then BodyMeaning(atyp, 16, t)
    else if atyp != FQDN then (Refuse(START, ADDRESS_TYPE_NOT_SUPPORTED), t)
    else if t == [] then (Request(ReadingAddr, FQDN, 0, [], -1, 0), [])
    else if t[0] == 0 then (Request(Faulted, FQDN, 0, [], -1, 0), t[1..])
    else BodyMeaning(atyp, t[0], t[1..])
  }

  /** From the first address byte on, `n` of them. */
  function BodyMeaning(atyp: byte, n: nat, t: seq<byte>): (Request, seq<byte>) {
    if |t| < n then (Request(ReadingAddr, atyp, n, t, -1, 0), [])
    else PortMeaning(Request(ReadingPort, atyp, n, t[..n], -1, 0), t[n..])
  }

  /** The two port bytes, high one first. */
  function PortMeaning(r: Request, p: seq<byte>): (Request, seq<byte>) {
    if p == [] then (r, [])
    else if |p| == 1 then (r.(port := Port(p[0], 0)), [])
    else (r.(state := Done, port := Port(p[0], p[1])), p[2..])
  }

  function Port(hi: int, lo: int): int {
    256 * hi + lo
  }

  lemma {:induction false} StoreAddr(r: Request, s: seq<byte>)
    requires r.state == ReadingAddr && |r.addr| < r.addrLen && |r.addr| + |s| <= r.addrLen
    ensures var st := if |r.addr| + |s| == r.addrLen then ReadingPort else ReadingAddr;
            Parse(r, s) == (r.(addr := r.addr + s, state := st), [])
    decreases |s|
  {
    if s == [] {
      assert r.addr + s == r.addr;
    } else {
      ParseStep(r, s);
      assert (r.addr + [s[0]]) + s[1..] == r.addr + s;
      if |r.addr| + 1 == r.addrLen {
        assert s == [s[0]] && s[1..] == [];
      } else {
        StoreAddr(r.(addr := r.addr + [s[0]]), s[1..]);
      }
    }
  }

  lemma ReadAddr(r: Request, s: seq<byte>)
    requires r.state == ReadingAddr && |r.addr| < r.addrLen
    ensures var k := r.addrLen - |r.addr|;
            Parse(r, s) == if |s| < k then (r.(addr := r.addr + s), [])
                           else Parse(r.(state := ReadingPort, addr := r.addr + s[..k]), s[k..])
  {
    var k := r.addrLen - |r.addr|;
    if |s| < k {
      StoreAddr(r, s);
    } else {
      StoreAddr(r, s[..k]);
      assert s == s[..k] + s[k..];
      ConsumeSplit(FeedTurn, Stops, r, s[..k], s[k..]);
      assert [] + s[k..] == s[k..];
    }
  }

  lemma ReadPort(r: Request, p: seq<byte>)
    requires r.state == ReadingPort && r.port == -1 && r.reply == 0
    ensures Parse(r, p) == PortMeaning(r, p)
  {
    if p != [] {
      ParseStep(r, p);
      var r1 := Feed(r, p[0]);
      if |p| > 1 {
        assert p[1..][1..] == p[2..];
        ParseStep(r1, p[1..]);
      }
    }
  }

  lemma ParseBodyIsMeaning(atyp: byte, n: nat, t: seq<byte>)
    requires n > 0
    ensures Parse(Request(ReadingAddr, atyp, n, [], -1, 0), t) == BodyMeaning(atyp, n, t)
  {
    var r := Request(ReadingAddr, atyp, n, [], -1, 0);
    ReadAddr(r, t);
    if |t| < n {
      assert [] + t == t;
    } else {
      var addr := t[..n];
      assert [] + addr == addr;
      var r1 := r.(state := ReadingPort, addr := addr);
      ReadPort(r1, t[n..]);
    }
  }

  lemma ParseAddressIsMeaning(r: Request, atyp: byte, t: seq<byte>)
    requires r == FeedTurn(START.(state := ReadingAtyp), atyp) && !Stops(r)
    ensures Parse(r, t) == AddressMeaning(atyp, t)
  {
    if atyp == FQDN {
      if t != [] {
        ParseStep(r, t);
        if t[0] != 0 {
          ParseBodyIsMeaning(atyp, t[0], t[1..]);
        }
      }
    } else {
      ParseBodyIsMeaning(atyp, r.addrLen, t);
    }
  }

  lemma ParseIsMeaning(s: seq<byte>)
    ensures Parse(START, s) == Meaning(s)
  {
    if |s| >= 1 {
      ParseStep(START, s);
    }
    if |s| >= 2 && s[0] == VERSION {
      ParseStep(START.(state := ReadingCommand), s[1..]);
      assert s[1..][1..] == s[2..];
      if |s| >= 3 && s[1] == CONNECT {
        ParseStep(START.(state := ReadingRsv), s[2..]);
        assert s[2..][1..] == s[3..];
        if |s| >= 4 && s[2] == RESERVED {
          ParseStep(START.(state := ReadingAtyp), s[3..]);
          assert s[3..][1..] == s[4..];
          var r := FeedTurn(START.(state := ReadingAtyp), s[3]);
          if !Stops(r) {
            ParseAddressIsMeaning(r, s[3], s[4..]);
          }
        }
      }
    }
  }

  lemma EncodeParts(atyp: int, addr: seq<byte>, port: int, rest: seq<byte>)
    requires Encodable(atyp, addr, port)
    ensures var s := Encode(atyp, addr, port) + rest;
            var body := addr + ([port / 256, port % 256] + rest);
            && |s| >= 4 && s[..4] == [VERSION, CONNECT, RESERVED, atyp]
            && s[4..] == if atyp == FQDN then [|addr|] + body else body
  {
  }

  lemma BodyParts(atyp: byte, addr: seq<byte>, port: int, rest: seq<byte>)
    requires Encodable(atyp, addr, port)
    ensures BodyMeaning(atyp, |addr|, addr + ([port / 256, port % 256] + rest)) ==
            (Request(Done, atyp, |addr|, addr, port, SUCCEEDED), rest)
  {
  }

  lemma BodyDecodes(atyp: byte, n: nat, t: seq<byte>, addr: seq<byte>, port: int, rest: seq<byte>)
    requires BodyMeaning(atyp, n, t) == (Request(Done, atyp, |addr|, addr, port, SUCCEEDED), rest)
    ensures n == |addr| && t == addr + ([port / 256, port % 256] + rest) && 0 <= port < 65536
  {
  }

  lemma DonePartsEncode(s: seq<byte>, atyp: int, addr: seq<byte>, port: int, rest: seq<byte>)
    requires Meaning(s) == (Request(Done, atyp, |addr|, addr, port, SUCCEEDED), rest)
    ensures Encodable(atyp, addr, port) && s == Encode(atyp, addr, port) + rest
  {
    var t := s[4..];
    assert s == [s[0], s[1], s[2], s[3]] + t;
    if s[3] == FQDN {
      BodyDecodes(s[3], t[0], t[1..], addr, port, rest);
      assert t == [t[0]] + t[1..];
    } else {
      BodyDecodes(s[3], if s[3] == IPV4 then 4 else 16, t, addr, port, rest);
    }
    EncodeParts(atyp, addr, port, rest);
    var e := Encode(atyp, addr, port) + rest;
    assert e == e[..4] + e[4..];
  }

  /**
   * The accepted language: done after exactly |e| bytes iff those bytes encode the
   * stored address type, address and port, and the reply is then "succeeded".
   */
  lemma AcceptsExactlyTheWireLanguage(s: seq<byte>, atyp: int, addr: seq<byte>, port: int, rest: seq<byte>)
    ensures Parse(START, s) == (Request(Done, atyp, |addr|, addr, port, SUCCEEDED), rest) <==>
            Encodable(atyp, addr, port) && s == Encode(atyp, addr, port) + rest
  {
    ParseIsMeaning(s);
    if Encodable(atyp, addr, port) && s == Encode(atyp, addr, port) + rest {
      EncodeParts(atyp, addr, port, rest);
      assert s[0] == s[..4][0] && s[1] == s[..4][1] && s[2] == s[..4][2] && s[3] == s[..4][3];
      BodyParts(atyp, addr, port, rest);
    }
    if Parse(START, s) == (Request(Done, atyp, |addr|, addr, port, SUCCEEDED), rest) {
      DonePartsEncode(s, atyp, addr, port, rest);
    }
  }

  /** The reply code fixed by the first offending field, if there is one. */
  function FirstOffence(s: seq<byte>): Option<byte> {
    if |s| >= 1 && s[0] != VERSION then Some(NOT_ALLOWED)
    else if |s| >= 2 && s[1] != CONNECT then Some(COMMAND_NOT_SUPPORTED)
    else if |s| >= 3 && s[2] != RESERVED then Some(NOT_ALLOWED)
    else if |s| >= 4 && s[3] !in {IPV4, FQDN, IPV6} then Some(ADDRESS_TYPE_NOT_SUPPORTED)
    else None
  }

  /** Refused iff some field offends, with the code of the first one; and it faults only on an empty name. */
  lemma RefusesByFirstOffence(s: seq<byte>)
    ensures var r := Parse(START, s).0;
            && (r.state == Error <==> FirstOffence(s).Some?)
            && (r.state == Error ==> r.reply == FirstOffence(s).value != SUCCEEDED)
            && (r.state == Faulted <==> [VERSION, CONNECT, RESERVED, FQDN, 0] <= s)
  {
    ParseIsMeaning(s);
    if |s| >= 5 {
      assert s[4..][0] == s[4];
      assert s == [s[0], s[1], s[2], s[3], s[4]] + s[5..];
    }
  }

  /** A refusal never carries "succeeded", wherever the stream was cut. */
  lemma {:induction false} RefusalHasCode(r: Request, s: seq<byte>)
    requires !Stops(r)
    ensures var q := Parse(r, s).0; q.state == Error ==> q.reply != SUCCEEDED
    decreases |s|
  {
    if s != [] {
      ParseStep(r, s);
      if !Stops(FeedTurn(r, s[0])) {
        RefusalHasCode(FeedTurn(r, s[0]), s[1..]);
      }
    }
  }

  // ---------------------------------------------------------------------
  // However the stream is cut

  /** Chunks received into an empty buffer one by one, up to the first stop. */
  function Received(cap: nat, chunks: seq<seq<byte>>): (Request, Buf, seq<seq<byte>>) {
    FeedChunks(FeedTurn, Stops, START, EmptyBuf(cap), chunks)
  }

  lemma ReceivedIsParse(cap: nat, chunks: seq<seq<byte>>)
    requires forall i :: 0 <= i < |chunks| ==> |chunks[i]| <= cap
    ensures var (r, b, left) := Received(cap, chunks); (r, b.content + Concat(left)) == Parse(START, Concat(chunks))
  {
    if chunks != [] {
      ChunkIndependence(FeedTurn, Stops, START, EmptyBuf(cap), chunks);
      assert [] + Concat(chunks) == Concat(chunks);
    }
  }

  /** TCP may cut the stream anywhere: accepted, with this much left unread, iff the whole stream encodes the fields. */
  lemma AcceptedInAnyCutting(cap: nat, chunks: seq<seq<byte>>, atyp: int, addr: seq<byte>, port: int, rest: seq<byte>)
    requires forall i :: 0 <= i < |chunks| ==> |chunks[i]| <= cap
    ensures var (r, b, left) := Received(cap, chunks);
            r == Request(Done, atyp, |addr|, addr, port, SUCCEEDED) && b.content + Concat(left) == rest <==>
            Encodable(atyp, addr, port) && Concat(chunks) == Encode(atyp, addr, port) + rest
  {
    ReceivedIsParse(cap, chunks);
    AcceptsExactlyTheWireLanguage(Concat(chunks), atyp, addr, port, rest);
  }

  /** Likewise a refusal, and its code, depend on the whole stream alone. */
  lemma RefusedInAnyCutting(cap: nat, chunks: seq<seq<byte>>)
    requires forall i :: 0 <= i < |chunks| ==> |chunks[i]| <= cap
    ensures var r := Received(cap, chunks).0;
            && (r.state == Error <==> FirstOffence(Concat(chunks)).Some?)
            && (r.state == Error ==> r.reply == FirstOffence(Concat(chunks)).value)
  {
    ReceivedIsParse(cap, chunks);
    RefusesByFirstOffence(Concat(chunks));
  }

  // ---------------------------------------------------------------------
  // The structure updated byte by byte

  class RequestParser {
    var state: State
    var atyp: int
    var addrLen: int
    var port: int
    var addr: array?<byte>
    var addrIndex: byte
    var reply: byte

    /** The abstract value, kept in step by every method. */
    ghost var view: Request

    /** The address array has one byte more than its length, for the terminator. */
    ghost predicate Valid()
      reads this, addr
    {
      && (addr == null ==> addrIndex == 0)
      && (addr != null ==> 0 < addrLen == addr.Length - 1 < 256 && addrIndex <= addrLen)
      && (state.ReadingVersion? || state.ReadingCommand? || state.ReadingRsv? || state.ReadingAtyp? ==>
            addr == null && addrIndex == 0)
      && (state == ReadingAddr ==> if addrLen == 0 then addr == null else addr != null && addrIndex < addrLen)
      && port >= -1
      && view == Request(state, atyp, addrLen, if addr == null then [] else addr[..addrIndex], port, reply)
    }

    constructor ()
      ensures Valid() && addr == null && view == START
    {
      state, atyp, addrLen, port, addr, addrIndex, reply := ReadingVersion, -1, -1, -1, null, 0, 0;
      view := START;
    }

    /** Leaves the reply as it was. */
    method Init()
      modifies this
      ensures Valid() && addr == null && view == START.(reply := old(reply)) && reply == old(reply)
    {
      state, addrIndex, atyp, port, addrLen, addr := ReadingVersion, 0, -1, -1, -1, null;
      view := START.(reply := reply);
    }

    /** Handlers of other layers set the reply and, for a resolved name, the address type. */
    method SetReply(code: byte)
      requires Valid()
      modifies this`reply, this`view
      ensures Valid() && view == old(view).(reply := code)
    {
      reply := code;
      view := view.(reply := code);
    }

    method SetAtyp(t: byte)
      requires Valid()
      modifies this`atyp, this`view
      ensures Valid() && view == old(view).(atyp := t)
    {
      atyp := t;
      view := view.(atyp := t);
    }

    method FeedByte(c: byte) returns (st: State)
      requires Valid()
      modifies this, addr
      ensures Valid() && (addr == old(addr) || fresh(addr))
      ensures view == Feed(old(view), c) && st == view.state
    {
      ghost var after := Feed(view, c);
      match state {
        case ReadingVersion =>
          if c == VERSION { state := ReadingCommand; } else { reply, state := NOT_ALLOWED, Error; }
        case ReadingCommand =>
          if c == CONNECT { state := ReadingRsv; } else { reply, state := COMMAND_NOT_SUPPORTED, Error; }
        case ReadingRsv =>
          if c == RESERVED { state := ReadingAtyp; } else { reply, state := NOT_ALLOWED, Error; }
        case ReadingAtyp =>
          ReadAddressType(c);
        case ReadingAddr =>
          ReadAddressByte(c);
        case ReadingPort =>
          if port == -1 { port := c * 256; } else { port, state := port + c, Done; }
        case Done =>
          reply := SUCCEEDED;
        case Error =>
          reply := GENERAL_FAILURE;
        case Faulted =>
      }
      view := after;
      st := state;
    }

    method ReadAddressByte(c: byte)
      requires Valid() && state == ReadingAddr
      modifies this, addr
      ensures Valid() && (addr == old(addr) || fresh(addr)) && view == Feed(old(view), c)
    {
      if addrIndex == 0 && addrLen == 0 {
        if c == 0 {
          state := Faulted;
        } else {
          addrLen := c;
          addr := new byte[c + 1];
        }
      } else {
        addr[addrIndex] := c;
        assert addr[..addrIndex + 1] == view.addr + [c];
        addrIndex := (addrIndex + 1) % 256;
        if addrIndex == addrLen {
          addr[addrIndex] := 0;
          state := ReadingPort;
        }
      }
      view := Feed(view, c);
    }

    method ReadAddressType(c: byte)
      requires Valid() && state == ReadingAtyp
      modifies this`addrLen, this`addr, this`reply, this`state, this`atyp
      ensures (addr == null || fresh(addr)) && (addr != null ==> 0 < addrLen == addr.Length - 1 < 256)
      ensures (state == ReadingAddr && addrLen == 0 ==> addr == null)
      ensures (state == ReadingAddr && addrLen != 0 ==> addr != null)
      ensures var r := Feed(old(view), c);
              state == r.state && atyp == r.atyp && addrLen == r.addrLen && reply == r.reply
    {
      if c == IPV4 {
        addrLen := 4;
        addr := new byte[4 + 1];
      } else if c == IPV6 {
        addrLen := 16;
        addr := new byte[16 + 1];
      } else if c == FQDN {
        addrLen := 0;
      } else {
        reply, state := ADDRESS_TYPE_NOT_SUPPORTED, Error;
        return;
      }
      atyp, state := c, ReadingAddr;
    }

    /** One turn of the loop below. */
    method ConsumeByte(buff: Buffer) returns (st: State)
      requires Valid() && buff.Valid() && addr != buff.data && buff.view.content != []
      modifies this, addr, buff, buff.data
      ensures Valid() && (addr == old(addr) || fresh(addr))
      ensures buff.Valid() && buff.view == old(buff.view).Advance(1)
      ensures view == FeedTurn(old(view), old(buff.view.content[0])) && st == view.state
    {
      var c := buff.Read();
      st := FeedByte(c);
      if st == Done {
        st := FeedByte(c);
      }
    }

    /** Feeds the readable bytes of `buff` until the parser stops or none is left. */
    method ConsumeBuffer(buff: Buffer) returns (st: State)
      requires Valid() && buff.Valid() && addr != buff.data
      modifies this, addr, buff, buff.data
      ensures Valid() && (addr == old(addr) || fresh(addr)) && buff.Valid()
      ensures (view, buff.view) == ParseBuf(old(view), old(buff.view)) && st == view.state
    {
      st := state;
      while buff.CanRead()
        invariant Valid() && (addr == old(addr) || fresh(addr)) && addr != buff.data && buff.Valid()
        invariant st == view.state
        invariant ParseBuf(view, buff.view) == ParseBuf(old(view), old(buff.view))
        decreases |buff.view.content|
      {
        ConsumeBufStep(FeedTurn, Stops, view, buff.view);
        st := ConsumeByte(buff);
        if st.Done? || st.Error? || st.Faulted? {
          return;
        }
      }
      ConsumeBufEmpty(FeedTurn, Stops, view, buff.view);
    }
  }

  // ---------------------------------------------------------------------
  // The reply

  /** VER, REP, RSV, ATYP, four bytes of BND.ADDR and two of BND.PORT. */
  function ReplyMessage(code: byte): (m: seq<byte>)
    ensures |m| == 10
  {
    [VERSION, code, 0, IPV4, 0, 0, 0, 0, 0, 0]
  }

  /** Appends the reply. `ok` is false where the source writes past the buffer and then fails its assertion. */
  method FillMsg(buff: Buffer, code: byte) returns (ok: bool)
    requires buff.Valid()
    modifies buff, buff.data
    ensures buff.Valid() && (ok <==> old(buff.view).Room() >= 10)
    ensures buff.view == if ok then old(buff.view).Append(ReplyMessage(code)) else old(buff.view)
  {
    ok := buff.data.Length - buff.write >= 10;
    if ok {
      WriteReply(buff, code);
    }
  }

  method WriteReply(buff: Buffer, code: byte)
    requires buff.Valid() && buff.view.Room() >= 10
    modifies buff, buff.data
    ensures buff.Valid() && buff.view == old(buff.view).Append(ReplyMessage(code))
  {
    var data, w := buff.data, buff.write;
    data[w], data[w + 1], data[w + 2], data[w + 3] := VERSION, code, 0, IPV4;
    for j := w + 4 to w + 8
      invariant data[w] == VERSION && data[w + 1] == code && data[w + 2] == 0 && data[w + 3] == IPV4
      invariant forall k :: w + 4 <= k < j ==> data[k] == 0
      invariant forall k :: 0 <= k < w ==> data[k] == old(data[k])
      modifies data
    {
      data[j] := 0;
    }
    data[w + 8], data[w + 9] := 0, 0;
    assert data[w..w + 10] == ReplyMessage(code);
    assert data[buff.read..w] == old(data[buff.read..w]);
    buff.WriteAdv(10);
  }
}
