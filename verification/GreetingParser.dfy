/**
 * The SOCKS version 5 greeting (src/greeting_parser.c; section 3 of RFC 1928):
 * VER, NMETHODS, METHODS.
 */
module GreetingParsers {
  import opened Base
  import opened Buffers
  import opened Streams

  const VERSION: byte := 5
  const NO_AUTHENTICATION_REQUIRED: byte := 0
  const USERNAME_PASSWORD_AUTH: byte := 2
  const NO_ACCEPTABLE_METHODS: byte := 0xFF

  datatype State = ReadingVersion | ReadingNMethods | ReadingMethods | Done | UnsupportedVersion | BadSyntax

  /** `methods` holds the methods stored so far, `remaining` the announced count. */
  datatype Greeting = Greeting(state: State, remaining: byte, methods: seq<byte>)

  const START := Greeting(ReadingVersion, 0, [])

  predicate Stops(g: Greeting) {
    g.state.Done? || g.state.UnsupportedVersion? || g.state.BadSyntax?
  }

  function Feed(g: Greeting, c: byte): Greeting {
    match g.state
    case ReadingVersion => g.(state := if c == VERSION then ReadingNMethods else UnsupportedVersion)
    case ReadingNMethods =>
      if c == 0 then g.(state := BadSyntax) else Greeting(ReadingMethods, c, g.methods)
    case ReadingMethods =>
      g.(methods := g.methods + [c], state := if |g.methods| + 1 == g.remaining then Done else ReadingMethods)
    case _ => g
  }

  function Parse(g: Greeting, s: seq<byte>): (Greeting, seq<byte>) {
    Consume(Feed, Stops, g, s)
  }

  function ParseBuf(g: Greeting, b: Buf): (Greeting, Buf) {
    ConsumeBuf(Feed, Stops, g, b)
  }

  lemma ParseStep(g: Greeting, s: seq<byte>)
    requires s != []
    ensures var g1 := Feed(g, s[0]); Parse(g, s) == if Stops(g1) then (g1, s[1..]) else Parse(g1, s[1..])
  {
  }

  // ---------------------------------------------------------------------
  // The wire language

  predicate Encodable(methods: seq<byte>) {
    0 < |methods| < 256
  }

  function Encode(methods: seq<byte>): seq<byte>
    requires Encodable(methods)
  {
    [VERSION, |methods|] + methods
  }

  lemma {:induction false} StoreMethods(g: Greeting, s: seq<byte>)
    requires g.state == ReadingMethods && |g.methods| < g.remaining && |g.methods| + |s| <= g.remaining
    ensures var st := if |g.methods| + |s| == g.remaining then Done else ReadingMethods;
            Parse(g, s) == (g.(methods := g.methods + s, state := st), [])
    decreases |s|
  {
    if s == [] {
      assert g.methods + s == g.methods;
    } else {
      ParseStep(g, s);
      assert (g.methods + [s[0]]) + s[1..] == g.methods + s;
      if |g.methods| + 1 == g.remaining {
        assert s == [s[0]] && s[1..] == [];
      } else {
        StoreMethods(g.(methods := g.methods + [s[0]]), s[1..]);
      }
    }
  }

  lemma ReadMethods(g: Greeting, s: seq<byte>)
    requires g.state == ReadingMethods && |g.methods| < g.remaining
    ensures var k := g.remaining - |g.methods|;
            Parse(g, s) == if |s| < k then (g.(methods := g.methods + s), [])
                           else (Greeting(Done, g.remaining, g.methods + s[..k]), s[k..])
  {
    var k := g.remaining - |g.methods|;
    if |s| < k {
      StoreMethods(g, s);
    } else {
      StoreMethods(g, s[..k]);
      assert s == s[..k] + s[k..];
      ConsumeSplit(Feed, Stops, g, s[..k], s[k..]);
      assert [] + s[k..] == s[k..];
    }
  }

  /** What one pass over any stream yields, with no reference to the automaton. */
  function Meaning(s: seq<byte>): (Greeting, seq<byte>) {
    if s == [] then (START, [])
    else if s[0] != VERSION then (Greeting(UnsupportedVersion, 0, []), s[1..])
    else if |s| == 1 then (Greeting(ReadingNMethods, 0, []), [])
    else if s[1] == 0 then (Greeting(BadSyntax, 0, []), s[2..])
    else
      var n: nat := s[1];
      if |s| < 2 + n then (Greeting(ReadingMethods, n, s[2..]), [])
      else (Greeting(Done, n, s[2..2 + n]), s[2 + n..])
  }

  lemma {:induction false} ParseIsMeaning(s: seq<byte>)
    ensures Parse(START, s) == Meaning(s)
  {
    if s != [] {
      ParseStep(START, s);
      if s[0] == VERSION && |s| >= 2 {
        var g1 := Feed(START, s[0]);
        assert s[1..][1..] == s[2..];
        ParseStep(g1, s[1..]);
        if s[1] != 0 {
          ReadMethods(Feed(g1, s[1]), s[2..]);
          assert [] + s[2..] == s[2..];
          var n: nat := s[1];
          if |s| >= 2 + n {
            assert [] + s[2..][..n] == s[2..2 + n] && s[2..][n..] == s[2 + n..];
          }
        }
      }
    }
  }

  lemma EncodingIsDone(methods: seq<byte>, rest: seq<byte>)
    requires Encodable(methods)
    ensures Meaning(Encode(methods) + rest) == (Greeting(Done, |methods|, methods), rest)
  {
  }

  lemma DoneIsEncoding(s: seq<byte>, methods: seq<byte>, rest: seq<byte>)
    requires Meaning(s) == (Greeting(Done, |methods| % 256, methods), rest)
    ensures Encodable(methods) && s == Encode(methods) + rest
  {
  }

  /** The accepted language: done after exactly |e| bytes iff those bytes encode the stored methods. */
  lemma AcceptsExactlyTheWireLanguage(s: seq<byte>, methods: seq<byte>, rest: seq<byte>)
    ensures Parse(START, s) == (Greeting(Done, |methods| % 256, methods), rest) <==>
            Encodable(methods) && s == Encode(methods) + rest
  {
    ParseIsMeaning(s);
    if Encodable(methods) && s == Encode(methods) + rest {
      EncodingIsDone(methods, rest);
    } else if Parse(START, s) == (Greeting(Done, |methods| % 256, methods), rest) {
      DoneIsEncoding(s, methods, rest);
    }
  }

  /**
   * TCP may cut the stream anywhere: accepted, with this much left unread, iff the whole
   * stream encodes the methods.
   */
  lemma AcceptedInAnyCutting(cap: nat, chunks: seq<seq<byte>>, methods: seq<byte>, rest: seq<byte>)
    requires forall i :: 0 <= i < |chunks| ==> |chunks[i]| <= cap
    ensures var (g, b, left) := FeedChunks(Feed, Stops, START, EmptyBuf(cap), chunks);
            g == Greeting(Done, |methods| % 256, methods) && b.content + Concat(left) == rest <==>
            Encodable(methods) && Concat(chunks) == Encode(methods) + rest
  {
    AcceptsExactlyTheWireLanguage(Concat(chunks), methods, rest);
    if chunks != [] {
      ChunkIndependence(Feed, Stops, START, EmptyBuf(cap), chunks);
      assert [] + Concat(chunks) == Concat(chunks);
    }
  }

  // ---------------------------------------------------------------------
  // The structure updated byte by byte

  class GreetingParser {
    var state: State
    var methodsRemaining: byte
    var methods: array?<byte>
    var methodsIndex: byte

    /** The abstract value, kept in step by every method. */
    ghost var view: Greeting

    ghost predicate Valid()
      reads this, methods
    {
      && (methods == null ==> methodsIndex == 0)
      && (methods != null ==> 0 < methods.Length == methodsRemaining && methodsIndex <= methodsRemaining)
      && (state.ReadingVersion? || state.ReadingNMethods? ==> methods == null)
      && (state == ReadingMethods ==> methods != null && methodsIndex < methodsRemaining)
      && (state == Done ==> methods != null && methodsIndex == methodsRemaining)
      && (state.UnsupportedVersion? || state.BadSyntax? ==> methods == null)
      && view == Greeting(state, methodsRemaining, if methods == null then [] else methods[..methodsIndex])
    }

    constructor ()
      ensures Valid() && methods == null && view == START
    {
      state, methodsRemaining, methodsIndex, methods, view := ReadingVersion, 0, 0, null, START;
    }

    method Init()
      modifies this
      ensures Valid() && methods == null && view == START
    {
      state, methodsRemaining, methodsIndex, methods, view := ReadingVersion, 0, 0, null, START;
    }

    method FeedByte(c: byte) returns (st: State)
      requires Valid()
      modifies this, methods
      ensures Valid() && (methods == old(methods) || fresh(methods))
      ensures view == Feed(old(view), c) && st == view.state
    {
      match state {
        case ReadingVersion =>
          state := if c == VERSION then ReadingNMethods else UnsupportedVersion;
        case ReadingNMethods =>
          if c <= 0 {
            state := BadSyntax;
          } else {
            methodsRemaining := c;
            methods := new byte[c];
            state := ReadingMethods;
          }
        case ReadingMethods =>
          methods[methodsIndex] := c;
          assert methods[..methodsIndex + 1] == view.methods + [c];
          methodsIndex := (methodsIndex + 1) % 256;
          if methodsIndex == methodsRemaining {
            state := Done;
          }
        case _ =>
      }
      view := Feed(view, c);
      st := state;
    }

    /** One turn of the loop below. */
    method ConsumeByte(buff: Buffer) returns (st: State)
      requires Valid() && buff.Valid() && methods != buff.data && buff.view.content != []
      modifies this, methods, buff, buff.data
      ensures Valid() && (methods == old(methods) || fresh(methods))
      ensures buff.Valid() && buff.view == old(buff.view).Advance(1)
      ensures view == Feed(old(view), old(buff.view.content[0])) && st == view.state
    {
      var c := buff.Read();
      st := FeedByte(c);
    }

    /** Feeds the readable bytes of `buff` until the parser stops or none is left. */
    method ConsumeBuffer(buff: Buffer) returns (st: State)
      requires Valid() && buff.Valid() && methods != buff.data
      modifies this, methods, buff, buff.data
      ensures Valid() && (methods == old(methods) || fresh(methods)) && buff.Valid()
      ensures (view, buff.view) == ParseBuf(old(view), old(buff.view)) && st == view.state
    {
      st := state;
      while buff.CanRead()
        invariant Valid() && (methods == old(methods) || fresh(methods)) && methods != buff.data && buff.Valid()
        invariant st == view.state
        invariant ParseBuf(view, buff.view) == ParseBuf(old(view), old(buff.view))
        decreases |buff.view.content|
      {
        ConsumeBufStep(Feed, Stops, view, buff.view);
        st := ConsumeByte(buff);
        if st.Done? || st.UnsupportedVersion? || st.BadSyntax? {
          return;
        }
      }
      ConsumeBufEmpty(Feed, Stops, view, buff.view);
    }
  }

  /** Appends VER, METHOD; refuses when fewer than two bytes are free. */
  method FillMsg(buff: Buffer, selected: byte) returns (r: int)
    requires buff.Valid()
    modifies buff, buff.data
    ensures buff.Valid() && (r == -1 || r == 2) && (r == -1 <==> old(buff.view).Room() < 2)
    ensures buff.view == if r == -1 then old(buff.view) else old(buff.view).Append([VERSION, selected])
  {
    if buff.data.Length - buff.write < 2 {
      return -1;
    }
    buff.Store([VERSION, selected]);
    buff.WriteAdv(2);
    return 2;
  }
}
