/**
 * The other half of safety: a well-behaved client is served. However TCP cuts
 * what it sends, and also when it sends ahead of the proxy's answers, a session
 * whose client offers a method the proxy has, names an accepted pair when asked
 * to, and sends a request the proxy can parse, reaches COPY with its ten-byte
 * reply sent, provided that at least one byte arrives while each message is
 * waited for. Without one it waits for ever.
 */
module SessionProgress {
  import opened Base
  import opened Buffers
  import opened Streams
  import opened Interests
  import opened Parameters
  import opened Paths
  import opened Sessions
  import opened SessionSafety
  import G = GreetingParsers
  import A = AuthParsers
  import P = Pop3Sniffers
  import Q = RequestParsers
  import R = Relays

  function StepWith(users: seq<User>): (Session, Event) -> Session {
    (s, e) => Step(s, users, e)
  }

  /** What the selector can dispatch and the source copes with, before COPY. */
  predicate Served(s: Session, e: Event) {
    Enabled(s, e) && CopesWith(s, e) && s.current != Some(Copy)
  }

  /** Such events one after the other, from `s` to `t`. */
  ghost predicate Leads(s: Session, users: seq<User>, es: seq<Event>, t: Session) {
    Path(Served, StepWith(users), s, es) && t == Final(StepWith(users), s, es)
  }

  lemma LeadsThen(s: Session, users: seq<User>, es: seq<Event>, t: Session, more: seq<Event>, u: Session)
    requires Leads(s, users, es, t) && Leads(t, users, more, u)
    ensures Leads(s, users, es + more, u)
  {
    PathThen(Served, StepWith(users), s, es, more);
  }

  lemma OneStep(s: Session, users: seq<User>, e: Event)
    requires Served(s, e)
    ensures Leads(s, users, [e], Step(s, users, e))
  {
    PathOfOne(Served, StepWith(users), s, e);
  }

  lemma FirstOfLeads(s: Session, users: seq<User>, es: seq<Event>, t: Session)
    requires es != [] && Leads(s, users, es, t) && t.status == Alive
    ensures var s1 := Step(s, users, es[0]); Served(s, es[0]) && s1.status == Alive && Leads(s1, users, es[1..], t)
  {
    PathFirst(Served, StepWith(users), s, es);
    assert StepWith(users)(s, es[0]) == Step(s, users, es[0]);
  }

  /** The client's bytes as they come; connect answers "in progress". */
  function Arrives(chunk: seq<byte>): Event {
    Readable(Client, R.Data(chunk), true, InProgress, false)
  }

  function Reads(chunks: seq<seq<byte>>): seq<Event> {
    if chunks == [] then [] else [Arrives(chunks[0])] + Reads(chunks[1..])
  }

  /** send to the client takes `n` bytes. */
  function Takes(n: nat): Event {
    Writable(Client, R.Sent(n), true, NoError, false)
  }

  /** An answer of two bytes goes out whole or byte by byte. */
  function Answered(split: bool): seq<Event> {
    if split then [Takes(1), Takes(1)] else [Takes(2)]
  }

  // ---------------------------------------------------------------------
  // Streams in pieces

  /** Pieces that recv can deliver into `b` and the buffers after it. */
  predicate Pieces(b: Buf, chunks: seq<seq<byte>>) {
    && chunks != [] && |chunks[0]| <= b.Room()
    && forall i :: 0 <= i < |chunks| ==> 0 < |chunks[i]| <= BUFFER_SIZE
  }

  /**
   * What waits in `b`, then the pieces, are the message and `ahead`. The last piece
   * is the one that has the parser reach the end of the message: the one that
   * brings its last byte, or the first, when the whole message was waiting.
   */
  predicate Cut(b: Buf, chunks: seq<seq<byte>>, text: seq<byte>, ahead: seq<byte>) {
    && Pieces(b, chunks) && b.content + Concat(chunks) == text + ahead
    && (|chunks| == 1 || |ahead| < |chunks[|chunks| - 1]|)
  }

  /** The buffer once the message was read: `ahead` waits in it. Pieces before the last leave nothing behind. */
  function Rest(b: Buf, chunks: seq<seq<byte>>, ahead: seq<byte>): Buf
    requires chunks != []
    decreases |chunks|
  {
    if |chunks| == 1 then KeepLast(b.Append(chunks[0]), |ahead|) else Rest(EmptyBuf(b.cap), chunks[1..], ahead)
  }

  function KeepLast(b: Buf, n: nat): Buf {
    if n <= |b.content| then b.Advance(|b.content| - n) else b
  }

  /** A message that comes in one piece. */
  lemma WholeIsCut(text: seq<byte>)
    requires 0 < |text| <= BUFFER_SIZE
    ensures Cut(EmptyBuf(BUFFER_SIZE), [text], text, [])
    ensures Rest(EmptyBuf(BUFFER_SIZE), [text], []) == EmptyBuf(BUFFER_SIZE)
    ensures Reads([text]) == [Arrives(text)]
  {
    assert [text][1..] == [] && text + [] == text && [] + text == text;
  }

  lemma {:induction false} ConcatHoldsLast(chunks: seq<seq<byte>>)
    requires chunks != []
    ensures |Concat(chunks)| >= |chunks[|chunks| - 1]|
    decreases |chunks|
  {
    if |chunks| > 1 {
      ConcatHoldsLast(chunks[1..]);
    }
  }

  /** What is left unreceived are the last pieces. */
  lemma {:induction false} LeftIsSuffix<T>(feed: (T, byte) -> T, stop: T -> bool, p: T, b: Buf, chunks: seq<seq<byte>>)
    ensures var left := FeedChunks(feed, stop, p, b, chunks).2;
            |left| <= |chunks| && left == chunks[|chunks| - |left|..] && (chunks != [] ==> |left| < |chunks|)
    decreases |chunks|
  {
    if chunks != [] {
      var (p1, b1) := ConsumeBuf(feed, stop, p, b.Append(chunks[0]));
      if stop(p1) {
        assert FeedChunks(feed, stop, p, b, chunks).2 == chunks[1..];
      } else {
        LeftIsSuffix(feed, stop, p1, b1, chunks[1..]);
        assert FeedChunks(feed, stop, p, b, chunks).2 == FeedChunks(feed, stop, p1, b1, chunks[1..]).2;
      }
    }
  }

  lemma LaterPieces(b: Buf, chunks: seq<seq<byte>>)
    requires Pieces(b, chunks) && |chunks| > 1
    ensures Pieces(EmptyBuf(BUFFER_SIZE), chunks[1..])
  {
    assert forall i :: 0 <= i < |chunks[1..]| ==> chunks[1..][i] == chunks[i + 1];
  }

  /** When the last piece stops the parser, the buffer holds what that piece brought beyond. */
  lemma {:induction false} LastPieceIsLeft<T>(feed: (T, byte) -> T, stop: T -> bool, p: T, b: Buf,
                                              chunks: seq<seq<byte>>, q: T, b1: Buf)
    requires b.Ok() && b.cap == BUFFER_SIZE && Pieces(b, chunks) && stop(q)
    requires FeedChunks(feed, stop, p, b, chunks) == (q, b1, [])
    ensures b1 == Rest(b, chunks, b1.content) && b1.Ok() && b1.cap == BUFFER_SIZE
    decreases |chunks|
  {
    FeedChunksStep(feed, stop, p, b, chunks);
    var (p1, b2) := ConsumeBuf(feed, stop, p, b.Append(chunks[0]));
    if stop(p1) {
      assert |chunks| == 1 && b2 == b1;
    } else {
      assert chunks[1..] != [];
      LaterPieces(b, chunks);
      LastPieceIsLeft(feed, stop, p1, b2, chunks[1..], q, b1);
    }
  }

  /** A parser that stops at the end of the message: every piece was received, and `ahead` waits in the buffer. */
  lemma MessageIsRead<T>(feed: (T, byte) -> T, stop: T -> bool, p: T, b: Buf, chunks: seq<seq<byte>>,
                         text: seq<byte>, ahead: seq<byte>, q: T)
    requires b.Ok() && b.cap == BUFFER_SIZE && !stop(p) && Cut(b, chunks, text, ahead)
    requires Consume(feed, stop, p, text + ahead) == (q, ahead) && stop(q)
    ensures FeedChunks(feed, stop, p, b, chunks) == (q, Rest(b, chunks, ahead), [])
    ensures Rest(b, chunks, ahead).content == ahead && Rest(b, chunks, ahead).Ok()
    ensures Rest(b, chunks, ahead).cap == BUFFER_SIZE
  {
    ChunkIndependence(feed, stop, p, b, chunks);
    var (q1, b1, left) := FeedChunks(feed, stop, p, b, chunks);
    LeftIsSuffix(feed, stop, p, b, chunks);
    assert |b1.content + Concat(left)| == |b1.content| + |Concat(left)|;
    if left != [] {
      ConcatHoldsLast(left);
    }
    assert left == [] && b1.content + [] == b1.content;
    LastPieceIsLeft(feed, stop, p, b, chunks, q, b1);
  }

  /** The session after a handler's outcome. */
  function Settle(r: (Session, St)): Session {
    Finish(r.0, r.1, InProgress)
  }

  predicate BufferOk(b: Buf) {
    b.Ok() && b.cap == BUFFER_SIZE
  }

  /** Waiting for the client to speak in state `st`; bytes it sent ahead may be in the buffer. */
  predicate Fresh(s: Session, st: St) {
    && s.status == Alive && s.current == Some(st) && NoOrigin(s) && s.io.ci == OP_READ && !s.verified
    && BufferOk(s.io.rb) && s.io.wb == EmptyBuf(BUFFER_SIZE) && s.tracker == P.IDLE
  }

  // ---------------------------------------------------------------------
  // Greeting

  lemma HelloChunk(s: Session, users: seq<User>, c: seq<byte>) returns (s1: Session)
    requires Fresh(s, GreetingRead) && 0 < |c| <= s.io.rb.Room()
    ensures var (g, b) := G.ParseBuf(s.greeting, s.io.rb.Append(c)); s1 == s.SetRb(b).(greeting := g)
    ensures Leads(s, users, [Arrives(c)], Settle(GreetingConsumed(s1)))
    ensures G.Stops(s1.greeting)
            || (Fresh(s1, GreetingRead) && s1.io.rb == EmptyBuf(BUFFER_SIZE) && Settle(GreetingConsumed(s1)) == s1)
  {
    var b := s.io.rb.Append(c);
    ConsumeBufOk(G.Feed, G.Stops, s.greeting, b);
    var (g1, b1) := G.ParseBuf(s.greeting, b);
    s1 := s.SetRb(b1).(greeting := g1);
    assert Step(s, users, Arrives(c)) == Settle(GreetingConsumed(s1));
    OneStep(s, users, Arrives(c));
  }

  lemma {:induction false} HelloArrives(s: Session, users: seq<User>, chunks: seq<seq<byte>>, g: G.Greeting, b: Buf)
    requires Fresh(s, GreetingRead) && !G.Stops(s.greeting) && G.Stops(g)
    requires Pieces(s.io.rb, chunks)
    requires FeedChunks(G.Feed, G.Stops, s.greeting, s.io.rb, chunks) == (g, b, [])
    ensures Leads(s, users, Reads(chunks), Settle(GreetingConsumed(s.SetRb(b).(greeting := g))))
    decreases |chunks|
  {
    var c := chunks[0];
    var s1 := HelloChunk(s, users, c);
    if !G.Stops(s1.greeting) {
      HelloArrives(s1, users, chunks[1..], g, b);
      LeadsThen(s, users, [Arrives(c)], s1, Reads(chunks[1..]), Settle(GreetingConsumed(s.SetRb(b).(greeting := g))));
    }
  }

  lemma HelloIsRead(s: Session, users: seq<User>, chunks: seq<seq<byte>>, methods: seq<byte>, ahead: seq<byte>)
      returns (g: G.Greeting, b: Buf)
    requires Fresh(s, GreetingRead) && s.greeting == G.START
    requires G.Encodable(methods) && Cut(s.io.rb, chunks, G.Encode(methods), ahead)
    ensures g == G.Greeting(G.Done, |methods|, methods)
    ensures b == Rest(s.io.rb, chunks, ahead) && b.content == ahead && BufferOk(b)
    ensures Leads(s, users, Reads(chunks), Settle(GreetingConsumed(s.SetRb(b).(greeting := g))))
  {
    g, b := G.Greeting(G.Done, |methods|, methods), Rest(s.io.rb, chunks, ahead);
    G.AcceptsExactlyTheWireLanguage(G.Encode(methods) + ahead, methods, ahead);
    MessageIsRead(G.Feed, G.Stops, G.START, s.io.rb, chunks, G.Encode(methods), ahead, g);
    HelloArrives(s, users, chunks, g, b);
  }

  /** A greeting in pieces is read to its end and answered with the selected method. */
  lemma GreetingIsServed(s: Session, users: seq<User>, chunks: seq<seq<byte>>, methods: seq<byte>, ahead: seq<byte>,
                         split: bool) returns (t: Session)
    requires Fresh(s, GreetingRead) && s.greeting == G.START && s.request == Q.START
    requires G.Encodable(methods) && Cut(s.io.rb, chunks, G.Encode(methods), ahead)
    requires SelectMethod(methods) != G.NO_ACCEPTABLE_METHODS
    ensures Leads(s, users, Reads(chunks) + Answered(split), t)
    ensures Fresh(t, if SelectMethod(methods) == G.USERNAME_PASSWORD_AUTH then AuthRead else RequestRead)
    ensures t.io.rb == Rest(s.io.rb, chunks, ahead) && t.io.rb.content == ahead
    ensures t.request == Q.START && (t.current == Some(AuthRead) ==> t.auth == A.START)
    ensures t.greeting.methods == methods && t.selected == SelectMethod(methods)
  {
    var g, b := HelloIsRead(s, users, chunks, methods, ahead);
    var s1 := GreetingIsTaken(s, users, g, b);
    t := GreetingIsAnswered(s1, users, split);
    LeadsThen(s, users, Reads(chunks), s1, Answered(split), t);
  }

  predicate AnswerWaits(s: Session, st: St) {
    && s.status == Alive && s.current == Some(st) && NoOrigin(s) && s.io.ci == OP_WRITE && !s.verified
    && BufferOk(s.io.rb) && BufferOk(s.io.wb) && s.tracker == P.IDLE && s.request == Q.START
  }

  lemma GreetingIsTaken(s: Session, users: seq<User>, g: G.Greeting, b: Buf) returns (t: Session)
    requires Fresh(s, GreetingRead) && s.request == Q.START && g.state == G.Done && BufferOk(b)
    ensures t == Settle(GreetingConsumed(s.SetRb(b).(greeting := g)))
    ensures AnswerWaits(t, GreetingWrite) && |t.io.wb.content| == 2
    ensures t.io.rb == b && t.greeting == g && t.selected == SelectMethod(g.methods)
  {
    t := Settle(GreetingConsumed(s.SetRb(b).(greeting := g)));
  }

  lemma GreetingIsAnswered(s: Session, users: seq<User>, split: bool) returns (t: Session)
    requires AnswerWaits(s, GreetingWrite) && |s.io.wb.content| == 2
    requires s.selected in {G.NO_AUTHENTICATION_REQUIRED as int, G.USERNAME_PASSWORD_AUTH as int}
    ensures Leads(s, users, Answered(split), t)
    ensures Fresh(t, if s.selected == G.USERNAME_PASSWORD_AUTH then AuthRead else RequestRead) && t.io.rb == s.io.rb
    ensures t.request == Q.START && (t.current == Some(AuthRead) ==> t.auth == A.START)
    ensures t.greeting == s.greeting && t.selected == s.selected
  {
    if split {
      var s1 := Step(s, users, Takes(1));
      OneStep(s, users, Takes(1));
      t := GreetingIsOut(s1, users, 1);
      LeadsThen(s, users, [Takes(1)], s1, [Takes(1)], t);
      assert [Takes(1)] + [Takes(1)] == Answered(true);
    } else {
      t := GreetingIsOut(s, users, 2);
    }
  }

  /** The last of the answer goes out. */
  lemma GreetingIsOut(s: Session, users: seq<User>, n: nat) returns (t: Session)
    requires AnswerWaits(s, GreetingWrite) && |s.io.wb.content| == n > 0
    requires s.selected in {G.NO_AUTHENTICATION_REQUIRED as int, G.USERNAME_PASSWORD_AUTH as int}
    ensures Leads(s, users, [Takes(n)], t)
    ensures Fresh(t, if s.selected == G.USERNAME_PASSWORD_AUTH then AuthRead else RequestRead) && t.io.rb == s.io.rb
    ensures t.request == Q.START && (t.current == Some(AuthRead) ==> t.auth == A.START)
    ensures t.greeting == s.greeting && t.selected == s.selected
  {
    t := Step(s, users, Takes(n));
    OneStep(s, users, Takes(n));
  }

  // ---------------------------------------------------------------------
  // Authentication

  lemma LoginChunk(s: Session, users: seq<User>, c: seq<byte>) returns (s1: Session)
    requires Fresh(s, AuthRead) && 0 < |c| <= s.io.rb.Room()
    ensures var (a, b) := A.ParseBuf(s.auth, s.io.rb.Append(c)); s1 == s.SetRb(b).(auth := a)
    ensures Leads(s, users, [Arrives(c)], Settle(AuthConsumed(s1, users)))
    ensures A.Stops(s1.auth)
            || (Fresh(s1, AuthRead) && s1.io.rb == EmptyBuf(BUFFER_SIZE) && Settle(AuthConsumed(s1, users)) == s1)
  {
    var b := s.io.rb.Append(c);
    ConsumeBufOk(A.Feed, A.Stops, s.auth, b);
    var (a1, b1) := A.ParseBuf(s.auth, b);
    s1 := s.SetRb(b1).(auth := a1);
    assert Step(s, users, Arrives(c)) == Settle(AuthConsumed(s1, users));
    OneStep(s, users, Arrives(c));
  }

  lemma {:induction false} LoginArrives(s: Session, users: seq<User>, chunks: seq<seq<byte>>, a: A.Auth, b: Buf)
    requires Fresh(s, AuthRead) && !A.Stops(s.auth) && A.Stops(a)
    requires Pieces(s.io.rb, chunks)
    requires FeedChunks(A.Feed, A.Stops, s.auth, s.io.rb, chunks) == (a, b, [])
    ensures Leads(s, users, Reads(chunks), Settle(AuthConsumed(s.SetRb(b).(auth := a), users)))
    decreases |chunks|
  {
    var c := chunks[0];
    var s1 := LoginChunk(s, users, c);
    if !A.Stops(s1.auth) {
      LoginArrives(s1, users, chunks[1..], a, b);
      LeadsThen(s, users, [Arrives(c)], s1, Reads(chunks[1..]), Settle(AuthConsumed(s.SetRb(b).(auth := a), users)));
    }
  }

  lemma LoginIsParsed(p: Buf, chunks: seq<seq<byte>>, user: seq<byte>, pass: seq<byte>, ahead: seq<byte>)
    requires BufferOk(p) && A.Encodable(user, pass) && Cut(p, chunks, A.Encode(user, pass), ahead)
    ensures var b := Rest(p, chunks, ahead);
            && FeedChunks(A.Feed, A.Stops, A.START, p, chunks) == (A.Auth(A.Done, |pass|, user, pass), b, [])
            && b.content == ahead && BufferOk(b)
  {
    A.AcceptsExactlyTheWireLanguage(A.Encode(user, pass) + ahead, user, pass, ahead);
    MessageIsRead(A.Feed, A.Stops, A.START, p, chunks, A.Encode(user, pass), ahead, A.Auth(A.Done, |pass|, user, pass));
  }

  lemma LoginIsRead(s: Session, users: seq<User>, chunks: seq<seq<byte>>, user: seq<byte>, pass: seq<byte>,
                    ahead: seq<byte>)
      returns (a: A.Auth, b: Buf)
    requires Fresh(s, AuthRead) && s.auth == A.START
    requires A.Encodable(user, pass) && Cut(s.io.rb, chunks, A.Encode(user, pass), ahead)
    ensures a == A.Auth(A.Done, |pass|, user, pass)
    ensures b == Rest(s.io.rb, chunks, ahead) && b.content == ahead && BufferOk(b)
    ensures Leads(s, users, Reads(chunks), Settle(AuthConsumed(s.SetRb(b).(auth := a), users)))
  {
    a, b := A.Auth(A.Done, |pass|, user, pass), Rest(s.io.rb, chunks, ahead);
    LoginIsParsed(s.io.rb, chunks, user, pass, ahead);
    LoginArrives(s, users, chunks, a, b);
  }

  /** An accepted pair in pieces is read to its end and answered with success. */
  lemma LoginIsServed(s: Session, users: seq<User>, chunks: seq<seq<byte>>, user: seq<byte>, pass: seq<byte>,
                      ahead: seq<byte>, split: bool) returns (t: Session)
    requires Fresh(s, AuthRead) && s.auth == A.START && s.request == Q.START
    requires A.Encodable(user, pass) && Cut(s.io.rb, chunks, A.Encode(user, pass), ahead) && Accepted(users, user, pass)
    ensures Leads(s, users, Reads(chunks) + Answered(split), t)
    ensures Fresh(t, RequestRead) && t.request == Q.START && t.user == Some((user, pass))
    ensures t.io.rb == Rest(s.io.rb, chunks, ahead) && t.io.rb.content == ahead
  {
    var a, b := LoginIsRead(s, users, chunks, user, pass, ahead);
    var s1 := LoginIsAccepted(s, users, a, b);
    t := LoginIsAnswered(s1, users, split);
    LeadsThen(s, users, Reads(chunks), s1, Answered(split), t);
  }

  lemma LoginIsAccepted(s: Session, users: seq<User>, a: A.Auth, b: Buf) returns (t: Session)
    requires Fresh(s, AuthRead) && s.request == Q.START && a.state == A.Done && Accepted(users, a.user, a.pass)
             && BufferOk(b)
    ensures t == Settle(AuthConsumed(s.SetRb(b).(auth := a), users))
    ensures AnswerWaits(t, AuthWrite) && |t.io.wb.content| == 2
    ensures t.io.rb == b && t.authReply == AUTH_SUCCESS && t.user == Some((a.user, a.pass))
  {
    t := Settle(AuthConsumed(s.SetRb(b).(auth := a), users));
  }

  lemma LoginIsAnswered(s: Session, users: seq<User>, split: bool) returns (t: Session)
    requires AnswerWaits(s, AuthWrite) && |s.io.wb.content| == 2 && s.authReply == AUTH_SUCCESS
    ensures Leads(s, users, Answered(split), t)
    ensures Fresh(t, RequestRead) && t.request == Q.START && t.user == s.user && t.io.rb == s.io.rb
  {
    if split {
      var s1 := Step(s, users, Takes(1));
      OneStep(s, users, Takes(1));
      t := LoginIsOut(s1, users, 1);
      LeadsThen(s, users, [Takes(1)], s1, [Takes(1)], t);
      assert [Takes(1)] + [Takes(1)] == Answered(true);
    } else {
      t := LoginIsOut(s, users, 2);
    }
  }

  lemma LoginIsOut(s: Session, users: seq<User>, n: nat) returns (t: Session)
    requires AnswerWaits(s, AuthWrite) && |s.io.wb.content| == n > 0 && s.authReply == AUTH_SUCCESS
    ensures Leads(s, users, [Takes(n)], t)
    ensures Fresh(t, RequestRead) && t.request == Q.START && t.user == s.user && t.io.rb == s.io.rb
  {
    t := Step(s, users, Takes(n));
    OneStep(s, users, Takes(n));
  }

  // ---------------------------------------------------------------------
  // Request

  lemma RequestChunk(s: Session, users: seq<User>, c: seq<byte>) returns (s1: Session)
    requires Fresh(s, RequestRead) && 0 < |c| <= s.io.rb.Room()
    requires !Q.ParseBuf(s.request, s.io.rb.Append(c)).0.state.Faulted?
    ensures var (q, b) := Q.ParseBuf(s.request, s.io.rb.Append(c)); s1 == s.SetRb(b).(request := q)
    ensures Leads(s, users, [Arrives(c)], Settle(RequestConsumed(s1)))
    ensures Q.Stops(s1.request)
            || (Fresh(s1, RequestRead) && s1.io.rb == EmptyBuf(BUFFER_SIZE) && Settle(RequestConsumed(s1)) == s1)
  {
    var b := s.io.rb.Append(c);
    ConsumeBufOk(Q.FeedTurn, Q.Stops, s.request, b);
    var (q1, b1) := Q.ParseBuf(s.request, b);
    s1 := s.SetRb(b1).(request := q1);
    assert Step(s, users, Arrives(c)) == Settle(RequestConsumed(s1));
    OneStep(s, users, Arrives(c));
  }

  lemma {:induction false} RequestArrives(s: Session, users: seq<User>, chunks: seq<seq<byte>>, q: Q.Request, b: Buf)
    requires Fresh(s, RequestRead) && !Q.Stops(s.request) && Q.Stops(q) && q.state != Q.Faulted
    requires Pieces(s.io.rb, chunks)
    requires FeedChunks(Q.FeedTurn, Q.Stops, s.request, s.io.rb, chunks) == (q, b, [])
    ensures Leads(s, users, Reads(chunks), Settle(RequestConsumed(s.SetRb(b).(request := q))))
    decreases |chunks|
  {
    var c := chunks[0];
    var s1 := RequestChunk(s, users, c);
    if !Q.Stops(s1.request) {
      RequestArrives(s1, users, chunks[1..], q, b);
      LeadsThen(s, users, [Arrives(c)], s1, Reads(chunks[1..]), Settle(RequestConsumed(s.SetRb(b).(request := q))));
    }
  }

  /** A name is resolved, and the first address tried. */
  function Resolves(atyp: int): seq<Event> {
    if atyp == Q.FQDN then [Resolved([Attempt(false, InProgress)])] else []
  }

  /** The pending connect ends without error. */
  const CONNECTS := Writable(Origin, R.Sent(0), true, NoError, false)

  /** Just entered COPY, with `b` left over from the request. */
  predicate Relaying(t: Session, b: Buf) {
    && t.status == Alive && t.current == Some(Copy) && t.sock == Registered
    && t.io == R.Entry(b, EmptyBuf(BUFFER_SIZE)) && t.early == b.content
    && t.replySent == Q.ReplyMessage(Q.SUCCEEDED)
  }

  lemma RequestSetsOut(s: Session, users: seq<User>, q: Q.Request, b: Buf) returns (t: Session)
    requires Fresh(s, RequestRead) && BufferOk(b)
    requires q.state == Q.Done && q.atyp in {Q.IPV4 as int, Q.FQDN as int, Q.IPV6 as int}
    ensures t == Settle(RequestConsumed(s.SetRb(b).(request := q)))
    ensures Connecting(t) && Pending(t, q.atyp) && t.request == q && t.user == s.user && t.io.rb == b
  {
    t := Settle(RequestConsumed(s.SetRb(b).(request := q)));
  }

  predicate Pending(s: Session, atyp: int) {
    if atyp == Q.FQDN then s.resolving && s.sock == NoSocket && s.io.oi == OP_NOOP
    else s.sock == Registered && s.io.oi == OP_WRITE
  }

  /** A request in pieces is read to its end and sets the session out to its origin. */
  lemma RequestIsHeard(s: Session, users: seq<User>, chunks: seq<seq<byte>>, atyp: int, addr: seq<byte>, port: int,
                       ahead: seq<byte>) returns (t: Session)
    requires Fresh(s, RequestRead) && s.request == Q.START
    requires Q.Encodable(atyp, addr, port) && Cut(s.io.rb, chunks, Q.Encode(atyp, addr, port), ahead)
    ensures Leads(s, users, Reads(chunks), t) && Connecting(t) && Pending(t, atyp)
    ensures t.io.rb == Rest(s.io.rb, chunks, ahead) && t.io.rb.content == ahead
    ensures t.request.addr == addr && t.request.port == port && t.user == s.user
  {
    var q, b := Q.Request(Q.Done, atyp, |addr|, addr, port, Q.SUCCEEDED), Rest(s.io.rb, chunks, ahead);
    Q.AcceptsExactlyTheWireLanguage(Q.Encode(atyp, addr, port) + ahead, atyp, addr, port, ahead);
    MessageIsRead(Q.FeedTurn, Q.Stops, Q.START, s.io.rb, chunks, Q.Encode(atyp, addr, port), ahead, q);
    RequestArrives(s, users, chunks, q, b);
    t := RequestSetsOut(s, users, q, b);
  }

  lemma RequestIsServed(s: Session, users: seq<User>, chunks: seq<seq<byte>>, atyp: int, addr: seq<byte>, port: int,
                        ahead: seq<byte>) returns (t: Session)
    requires Fresh(s, RequestRead) && s.request == Q.START
    requires Q.Encodable(atyp, addr, port) && Cut(s.io.rb, chunks, Q.Encode(atyp, addr, port), ahead)
    ensures Leads(s, users, Reads(chunks) + (Resolves(atyp) + [CONNECTS, Takes(10)]), t)
    ensures Relaying(t, Rest(s.io.rb, chunks, ahead)) && t.early == ahead
    ensures t.request.addr == addr && t.request.port == port && t.user == s.user
  {
    var s1 := RequestIsHeard(s, users, chunks, atyp, addr, port, ahead);
    t := OriginIsReached(s1, users, atyp);
    LeadsThen(s, users, Reads(chunks), s1, Resolves(atyp) + [CONNECTS, Takes(10)], t);
  }

  predicate Connecting(s: Session) {
    && s.status == Alive && s.current == Some(OriginConnect) && s.io.ci == OP_NOOP
    && BufferOk(s.io.rb) && s.io.wb == EmptyBuf(BUFFER_SIZE) && s.replySent == [] && s.tracker == P.IDLE
  }

  lemma OriginIsReached(s: Session, users: seq<User>, atyp: int) returns (t: Session)
    requires Connecting(s) && Pending(s, atyp)
    ensures Leads(s, users, Resolves(atyp) + [CONNECTS, Takes(10)], t)
    ensures Relaying(t, s.io.rb)
    ensures t.request.addr == s.request.addr && t.request.port == s.request.port && t.user == s.user
  {
    var s1 := s;
    if atyp == Q.FQDN {
      var e := Resolves(atyp)[0];
      s1 := Step(s, users, e);
      OneStep(s, users, e);
      assert [e] == Resolves(atyp);
    } else {
      assert Leads(s, users, [], s);
    }
    t := ClientIsTold(s1, users);
    LeadsThen(s, users, Resolves(atyp), s1, [CONNECTS, Takes(10)], t);
  }

  lemma ClientIsTold(s: Session, users: seq<User>) returns (t: Session)
    requires Connecting(s) && s.sock == Registered && s.io.oi == OP_WRITE
    ensures Leads(s, users, [CONNECTS, Takes(10)], t)
    ensures Relaying(t, s.io.rb)
    ensures t.request.addr == s.request.addr && t.request.port == s.request.port && t.user == s.user
  {
    var s1 := Step(s, users, CONNECTS);
    OneStep(s, users, CONNECTS);
    t := ReplyIsTaken(s1, users);
    LeadsThen(s, users, [CONNECTS], s1, [Takes(10)], t);
    assert [CONNECTS] + [Takes(10)] == [CONNECTS, Takes(10)];
  }

  lemma ReplyIsTaken(s: Session, users: seq<User>) returns (t: Session)
    requires s.status == Alive && s.current == Some(RequestWrite) && s.io.ci == OP_WRITE && s.io.oi == OP_NOOP
    requires s.sock == Registered && s.replySent == [] && s.request.reply == Q.SUCCEEDED
    requires BufferOk(s.io.rb) && s.io.wb == EmptyBuf(BUFFER_SIZE)
    ensures Leads(s, users, [Takes(10)], t)
    ensures Relaying(t, s.io.rb) && t.request == s.request && t.user == s.user
  {
    var s1 := WholeReplyGoesOut(s);
    t := Step(s, users, Takes(10));
    assert t == Jump(s1, Copy, InProgress);
    OneStep(s, users, Takes(10));
  }

  lemma WholeReplyGoesOut(s: Session) returns (t: Session)
    requires s.sock == Registered && s.replySent == [] && s.request.reply == Q.SUCCEEDED
    requires s.io.wb == EmptyBuf(BUFFER_SIZE)
    ensures RequestWriteStep(s, Client, R.Sent(10)) == (t, Copy)
    ensures t == s.(io := s.io.(ci := OP_READ, oi := OP_READ), fills := s.fills + 1,
                    replySent := Q.ReplyMessage(Q.SUCCEEDED))
  {
    var m := Q.ReplyMessage(Q.SUCCEEDED);
    assert Refilled(s).io.wb.content == m && m[..10] == m && [] + m == m;
    t := RequestWriteStep(s, Client, R.Sent(10)).0;
  }

  // ---------------------------------------------------------------------
  // From the accept to the relay

  /**
   * What a client says: its messages, each cut as TCP pleases and with what came
   * ahead of its turn, even whole messages; and whether the proxy's answers go out in two sends.
   */
  datatype Speaker = Speaker(
    methods: seq<byte>, hello: seq<seq<byte>>, afterHello: seq<byte>, splitMethod: bool,
    user: seq<byte>, pass: seq<byte>, login: seq<seq<byte>>, afterLogin: seq<byte>, splitStatus: bool,
    atyp: int, addr: seq<byte>, port: int, ask: seq<seq<byte>>, afterAsk: seq<byte>)
  {
    /** The password method is on offer, and so selected. */
    predicate Named() {
      G.USERNAME_PASSWORD_AUTH in methods
    }

    predicate Greets() {
      G.Encodable(methods) && Cut(EmptyBuf(BUFFER_SIZE), hello, G.Encode(methods), afterHello)
      && SelectMethod(methods) != G.NO_ACCEPTABLE_METHODS
    }

    /** The receive buffer after the greeting. */
    function AfterHello(): Buf
      requires Greets()
    {
      Rest(EmptyBuf(BUFFER_SIZE), hello, afterHello)
    }

    predicate LogsIn(users: seq<User>)
      requires Greets()
    {
      Named() ==>
        && A.Encodable(user, pass) && Cut(AfterHello(), login, A.Encode(user, pass), afterLogin)
        && Accepted(users, user, pass)
    }

    /** The receive buffer when the request is due. */
    function AfterLogin(users: seq<User>): Buf
      requires Greets() && LogsIn(users)
    {
      if Named() then Rest(AfterHello(), login, afterLogin) else AfterHello()
    }

    /** A method the proxy has, an accepted pair if that is the password method, a request it can parse. */
    predicate WellBehaved(users: seq<User>) {
      && Greets() && LogsIn(users)
      && Q.Encodable(atyp, addr, port) && Cut(AfterLogin(users), ask, Q.Encode(atyp, addr, port), afterAsk)
    }

    function Login(): seq<Event> {
      if Named() then Reads(login) + Answered(splitStatus) else []
    }

    function Ask(): seq<Event> {
      Reads(ask) + (Resolves(atyp) + [CONNECTS, Takes(10)])
    }

    /** Everything the event loop sees, when the network does its part. */
    function Events(): seq<Event> {
      (Reads(hello) + Answered(splitMethod)) + (Login() + Ask())
    }
  }

  lemma ClientIsLetIn(s: Session, users: seq<User>, c: Speaker) returns (t: Session)
    requires c.WellBehaved(users) && s.request == Q.START && s.io.rb == c.AfterHello()
    requires Fresh(s, if SelectMethod(c.methods) == G.USERNAME_PASSWORD_AUTH then AuthRead else RequestRead)
    requires s.current == Some(AuthRead) ==> s.auth == A.START
    ensures Leads(s, users, c.Login(), t) && Fresh(t, RequestRead) && t.request == Q.START
    ensures t.io.rb == c.AfterLogin(users) && (c.Named() ==> t.user == Some((c.user, c.pass)))
  {
    if c.Named() {
      t := LoginIsServed(s, users, c.login, c.user, c.pass, c.afterLogin, c.splitStatus);
    } else {
      t := s;
      assert Leads(s, users, [], s);
    }
  }

  /** The first event enters the initial state on its own. */
  lemma FirstIsImplied(users: seq<User>, es: seq<Event>, t: Session)
    requires es != [] && es[0].Readable? && es[0].side == Client && Leads(First(NEW_SESSION), users, es, t)
    ensures Leads(NEW_SESSION, users, es, t)
  {
  }

  lemma WellBehavedClientReachesCopy(users: seq<User>, c: Speaker) returns (t: Session)
    requires c.WellBehaved(users)
    ensures Leads(NEW_SESSION, users, c.Events(), t)
    ensures Relaying(t, Rest(c.AfterLogin(users), c.ask, c.afterAsk)) && t.early == c.afterAsk
    ensures t.request.addr == c.addr && t.request.port == c.port && (c.Named() ==> t.user == Some((c.user, c.pass)))
  {
    var s := First(NEW_SESSION);
    var s1 := GreetingIsServed(s, users, c.hello, c.methods, c.afterHello, c.splitMethod);
    var s2 := ClientIsLetIn(s1, users, c);
    t := RequestIsServed(s2, users, c.ask, c.atyp, c.addr, c.port, c.afterAsk);
    LeadsThen(s1, users, c.Login(), s2, c.Ask(), t);
    LeadsThen(s, users, Reads(c.hello) + Answered(c.splitMethod), s1, c.Login() + c.Ask(), t);
    assert c.hello != [];
    FirstIsImplied(users, c.Events(), t);
  }

  // ---------------------------------------------------------------------
  // Clients that send a whole message ahead

  /** In a state that reads a message, a session lives on only by receiving at least one more byte from its client. */
  lemma OnlyNewBytesMoveAReader(s: Session, users: seq<User>, e: Event)
    requires Inv(s, users) && s.current in {Some(GreetingRead), Some(AuthRead), Some(RequestRead)} && Enabled(s, e)
    requires Step(s, users, e).status == Alive
    ensures e.Readable? && e.side == Client && e.recv.Data? && e.recv.bytes != []
  {
  }

  /**
   * So a client that sent its whole request with its greeting and then waits is
   * never served: the request lies in the buffer, unread, and no event but its
   * own next byte, or its leaving, can come.
   */
  lemma RequestSentAheadWaits(users: seq<User>, methods: seq<byte>, atyp: int, addr: seq<byte>, port: int)
      returns (t: Session)
    requires G.Encodable(methods) && SelectMethod(methods) == G.NO_AUTHENTICATION_REQUIRED
             && Q.Encodable(atyp, addr, port)
    ensures var both := G.Encode(methods) + Q.Encode(atyp, addr, port);
            Leads(NEW_SESSION, users, [Arrives(both), Takes(2)], t)
    ensures t.status == Alive && t.current == Some(RequestRead) && t.request == Q.START
    ensures t.io.rb.content == Q.Encode(atyp, addr, port)
    ensures forall e :: Enabled(t, e) && Step(t, users, e).status == Alive ==>
              e.Readable? && e.recv.Data? && e.recv.bytes != []
  {
    var hello, ahead := G.Encode(methods), Q.Encode(atyp, addr, port);
    t := OneReadOneAnswer(users, methods, ahead);
    forall e | Enabled(t, e) && Step(t, users, e).status == Alive
      ensures e.Readable? && e.recv.Data? && e.recv.bytes != []
    {
      FreshHearsBytes(t, users, e);
    }
  }

  /** A request that was wholly sent ahead is served if and only if the next thing to happen is that more bytes come. */
  lemma WaitingRequestIsServedIff(s: Session, users: seq<User>, atyp: int, addr: seq<byte>, port: int,
                                  more: seq<byte>, e: Event)
    requires Inv(s, users) && Fresh(s, RequestRead) && s.request == Q.START && Q.Encodable(atyp, addr, port)
    requires s.io.rb.content == Q.Encode(atyp, addr, port) + more
    requires Served(s, e) && (e.Readable? && e.recv.Data? ==> e == Arrives(e.recv.bytes))
    ensures (exists es, t :: Leads(s, users, [e] + es, t) && t.status == Alive && t.current == Some(Copy))
            <==> e.Readable? && e.recv.Data?
  {
    if e.Readable? && e.recv.Data? {
      var es, t := MoreBytesServe(s, users, e.recv.bytes, atyp, addr, port, more);
      assert Leads(s, users, [e] + es, t);
    } else {
      forall es, t
        ensures !(Leads(s, users, [e] + es, t) && t.status == Alive)
      {
        NothingElseServes(s, users, e, es, t);
      }
    }
  }

  lemma MoreBytesServe(s: Session, users: seq<User>, bytes: seq<byte>, atyp: int, addr: seq<byte>, port: int,
                       more: seq<byte>)
      returns (es: seq<Event>, t: Session)
    requires Fresh(s, RequestRead) && s.request == Q.START && Q.Encodable(atyp, addr, port)
    requires s.io.rb.content == Q.Encode(atyp, addr, port) + more && 0 < |bytes| <= s.io.rb.Room()
    ensures Leads(s, users, [Arrives(bytes)] + es, t) && t.status == Alive && t.current == Some(Copy)
  {
    InOnePiece(bytes);
    assert s.io.rb.content + bytes == Q.Encode(atyp, addr, port) + (more + bytes);
    t := RequestIsServed(s, users, [bytes], atyp, addr, port, more + bytes);
    es := Resolves(atyp) + [CONNECTS, Takes(10)];
  }

  lemma InOnePiece(bytes: seq<byte>)
    ensures Concat([bytes]) == bytes && Reads([bytes]) == [Arrives(bytes)]
  {
    assert [bytes][1..] == [];
  }

  lemma NothingElseServes(s: Session, users: seq<User>, e: Event, es: seq<Event>, t: Session)
    requires Inv(s, users) && s.current == Some(RequestRead) && !(e.Readable? && e.recv.Data?)
    ensures !(Leads(s, users, [e] + es, t) && t.status == Alive)
  {
    if Leads(s, users, [e] + es, t) && t.status == Alive {
      FirstOfLeads(s, users, [e] + es, t);
      OnlyNewBytesMoveAReader(s, users, e);
      assert false;
    }
  }

  /** A greeting that comes in one piece with what follows it. */
  lemma OneReadOneAnswer(users: seq<User>, methods: seq<byte>, ahead: seq<byte>) returns (t: Session)
    requires G.Encodable(methods) && SelectMethod(methods) == G.NO_AUTHENTICATION_REQUIRED
    requires |G.Encode(methods)| + |ahead| <= BUFFER_SIZE
    ensures Leads(NEW_SESSION, users, [Arrives(G.Encode(methods) + ahead), Takes(2)], t)
    ensures Fresh(t, RequestRead) && t.request == Q.START && t.io.rb.content == ahead
  {
    var text := G.Encode(methods) + ahead;
    assert Concat([text]) == text && [] + text == text;
    t := GreetingIsServed(First(NEW_SESSION), users, [text], methods, ahead, false);
    var es := [Arrives(text), Takes(2)];
    assert Reads([text]) + Answered(false) == es;
    FirstIsImplied(users, es, t);
  }

  lemma FreshHearsBytes(s: Session, users: seq<User>, e: Event)
    requires Fresh(s, RequestRead) && Enabled(s, e) && Step(s, users, e).status == Alive
    ensures e.Readable? && e.recv.Data? && e.recv.bytes != []
  {
  }

  // ---------------------------------------------------------------------
  // Clients that are turned away

  lemma RefusalIsTaken(s: Session, users: seq<User>) returns (t: Session)
    requires s.status == Alive && s.current == Some(RequestWrite) && s.io.ci == OP_WRITE && s.sock != Loose
    requires s.replySent == [] && s.request.reply != Q.SUCCEEDED && s.io.wb == EmptyBuf(BUFFER_SIZE)
    ensures Leads(s, users, [Takes(10)], t)
    ensures t.status == Closed && t.replySent == Q.ReplyMessage(s.request.reply)
  {
    var m := Q.ReplyMessage(s.request.reply);
    assert Refilled(s).io.wb.content == m && m[..10] == m && [] + m == m;
    t := Step(s, users, Takes(10));
    OneStep(s, users, Takes(10));
  }

  /** A request with an offending field: the client is told the code of the first one, and the session closed. */
  lemma OffendingRequestIsRefused(s: Session, users: seq<User>, chunks: seq<seq<byte>>) returns (t: Session)
    requires Fresh(s, RequestRead) && s.request == Q.START && s.io.rb == EmptyBuf(BUFFER_SIZE)
             && Pieces(s.io.rb, chunks)
    requires Q.Received(BUFFER_SIZE, chunks).2 == [] && Q.FirstOffence(Concat(chunks)).Some?
    ensures Leads(s, users, Reads(chunks) + [Takes(10)], t)
    ensures t.status == Closed && t.replySent == Q.ReplyMessage(Q.FirstOffence(Concat(chunks)).value)
  {
    var (q, b, left) := Q.Received(BUFFER_SIZE, chunks);
    Q.RefusedInAnyCutting(BUFFER_SIZE, chunks);
    Q.RefusesByFirstOffence(Concat(chunks));
    Q.ReceivedIsParse(BUFFER_SIZE, chunks);
    RequestArrives(s, users, chunks, q, b);
    var s1 := RequestFallsThrough(s, users, q, b);
    t := RefusalIsTaken(s1, users);
    LeadsThen(s, users, Reads(chunks), s1, [Takes(10)], t);
  }

  lemma RequestFallsThrough(s: Session, users: seq<User>, q: Q.Request, b: Buf) returns (t: Session)
    requires Fresh(s, RequestRead) && q.state == Q.Error
    ensures t == Settle(RequestConsumed(s.SetRb(b).(request := q)))
    ensures t.status == Alive && t.current == Some(RequestWrite) && t.io.ci == OP_WRITE && t.sock == NoSocket
    ensures t.replySent == [] && t.request == q && t.io.wb == EmptyBuf(BUFFER_SIZE)
  {
    t := Settle(RequestConsumed(s.SetRb(b).(request := q)));
  }

  /** A connect that fails: the client is told how, by the codes of section 6 of RFC 1928, and the session closed. */
  lemma FailedConnectIsReported(s: Session, users: seq<User>, e: SoError) returns (t: Session)
    requires Connecting(s) && s.sock == Registered && s.io.oi == OP_WRITE && e != NoError && e != NoAnswer
    ensures Leads(s, users, [Writable(Origin, R.Sent(0), true, e, false), Takes(10)], t)
    ensures t.status == Closed && t.replySent == Q.ReplyMessage(ErrorReply(e))
  {
    var w := Writable(Origin, R.Sent(0), true, e, false);
    var s1 := Step(s, users, w);
    OneStep(s, users, w);
    t := RefusalIsTaken(s1, users);
    LeadsThen(s, users, [w], s1, [Takes(10)], t);
    assert [w] + [Takes(10)] == [w, Takes(10)];
  }

  /** A name without an address: the host is reported unreachable, and the session closed. */
  lemma UnresolvedNameIsReported(s: Session, users: seq<User>) returns (t: Session)
    requires Connecting(s) && s.resolving && s.sock == NoSocket
    ensures Leads(s, users, [Resolved([]), Takes(10)], t)
    ensures t.status == Closed && t.replySent == Q.ReplyMessage(4)
  {
    var s1 := Step(s, users, Resolved([]));
    OneStep(s, users, Resolved([]));
    t := RefusalIsTaken(s1, users);
    LeadsThen(s, users, [Resolved([])], s1, [Takes(10)], t);
    assert [Resolved([])] + [Takes(10)] == [Resolved([]), Takes(10)];
  }

  /** A pair that the table does not accept: the client is told so, and the session closed. */
  lemma UnknownUserIsTurnedAway(s: Session, users: seq<User>, chunks: seq<seq<byte>>, user: seq<byte>, pass: seq<byte>,
                                ahead: seq<byte>) returns (s1: Session, t: Session)
    requires Fresh(s, AuthRead) && s.auth == A.START
    requires A.Encodable(user, pass) && Cut(s.io.rb, chunks, A.Encode(user, pass), ahead)
             && !Accepted(users, user, pass)
    ensures Leads(s, users, Reads(chunks), s1) && s1.io.wb.content == [1, 1]
    ensures Leads(s1, users, [Takes(2)], t) && t.status == Closed
  {
    var a, b := LoginIsRead(s, users, chunks, user, pass, ahead);
    s1 := LoginIsRefused(s, users, a, b);
    t := TurningAwayIsTaken(s1, users);
  }

  lemma TurningAwayIsTaken(s: Session, users: seq<User>) returns (t: Session)
    requires s.status == Alive && NoOrigin(s) && s.io.ci == OP_WRITE && |s.io.wb.content| == 2
    requires || (s.current == Some(AuthWrite) && s.authReply == AUTH_FAIL)
             || (s.current == Some(GreetingWrite) && s.selected == G.NO_ACCEPTABLE_METHODS)
    ensures Leads(s, users, [Takes(2)], t) && t.status == Closed
  {
    t := Step(s, users, Takes(2));
    OneStep(s, users, Takes(2));
  }

  /** No method the proxy has: the client is told so, and the session closed. */
  lemma NoMethodIsTurnedAway(s: Session, users: seq<User>, chunks: seq<seq<byte>>, methods: seq<byte>, ahead: seq<byte>)
      returns (s1: Session, t: Session)
    requires Fresh(s, GreetingRead) && s.greeting == G.START && s.request == Q.START
    requires G.Encodable(methods) && Cut(s.io.rb, chunks, G.Encode(methods), ahead)
    requires G.NO_AUTHENTICATION_REQUIRED !in methods && G.USERNAME_PASSWORD_AUTH !in methods
    ensures Leads(s, users, Reads(chunks), s1) && s1.io.wb.content == [5, 0xFF]
    ensures Leads(s1, users, [Takes(2)], t) && t.status == Closed
  {
    var g, b := HelloIsRead(s, users, chunks, methods, ahead);
    s1 := GreetingIsTaken(s, users, g, b);
    t := TurningAwayIsTaken(s1, users);
  }

  lemma LoginIsRefused(s: Session, users: seq<User>, a: A.Auth, b: Buf) returns (t: Session)
    requires Fresh(s, AuthRead) && a.state == A.Done && !Accepted(users, a.user, a.pass) && BufferOk(b)
    ensures t == Settle(AuthConsumed(s.SetRb(b).(auth := a), users))
    ensures t.status == Alive && t.current == Some(AuthWrite) && NoOrigin(t) && t.io.ci == OP_WRITE
    ensures t.io.wb.content == [A.VERSION, AUTH_FAIL] && t.io.wb.cap == BUFFER_SIZE && t.authReply == AUTH_FAIL
  {
    t := Settle(AuthConsumed(s.SetRb(b).(auth := a), users));
  }

  // ---------------------------------------------------------------------
  // A client that takes its reply byte by byte

  function Sends(k: nat): seq<Event> {
    if k == 0 then [] else Sends(k - 1) + [Takes(1)]
  }

  /** Each call puts ten bytes in and gets one out; none comes free, for the buffer is never empty. */
  lemma ShortSendTakesTenBytes(s: Session, users: seq<User>) returns (t: Session)
    requires s.status == Alive && s.current == Some(RequestWrite) && s.io.ci == OP_WRITE && s.io.wb.Room() >= 10
    ensures Leads(s, users, [Takes(1)], t)
    ensures t.status == Alive && t.current == Some(RequestWrite) && t.io.ci == OP_WRITE
    ensures t.io.wb.Room() == s.io.wb.Room() - 10
  {
    t := Step(s, users, Takes(1));
    var b := Refilled(s).io.wb;
    assert b.Room() == s.io.wb.Room() - 10 && b.Advance(1).Room() == b.Room();
    OneStep(s, users, Takes(1));
  }

  lemma {:induction false} ShortSendsFillTheBuffer(s: Session, users: seq<User>, k: nat) returns (t: Session)
    requires s.status == Alive && s.current == Some(RequestWrite) && s.io.ci == OP_WRITE && s.io.wb.Room() >= 10 * k
    ensures Leads(s, users, Sends(k), t)
    ensures t.status == Alive && t.current == Some(RequestWrite) && t.io.ci == OP_WRITE
    ensures t.io.wb.Room() == s.io.wb.Room() - 10 * k
  {
    hide Step, Served;
    if k == 0 {
      t := s;
    } else {
      var s1 := ShortSendsFillTheBuffer(s, users, k - 1);
      t := ShortSendTakesTenBytes(s1, users);
      LeadsThen(s, users, Sends(k - 1), s1, [Takes(1)], t);
    }
  }

  /** So five hundred sends of one byte fill it, and the next reply is written past its end. */
  lemma ReplyOverrunsItsBuffer(s: Session, users: seq<User>, k: nat) returns (t: Session)
    requires s.status == Alive && s.current == Some(RequestWrite) && s.io.ci == OP_WRITE
    requires s.io.wb == EmptyBuf(BUFFER_SIZE) && 10 * k == BUFFER_SIZE
    ensures Leads(s, users, Sends(k), t)
    ensures Enabled(t, Takes(1)) && Step(t, users, Takes(1)).status == Aborted
  {
    t := ShortSendsFillTheBuffer(s, users, k);
  }

  /** A request that breaks off the parser at its first byte. */
  lemma FirstByteIsRefused(s: Session, users: seq<User>, version: byte) returns (t: Session)
    requires Fresh(s, RequestRead) && s.request == Q.START && s.io.rb == EmptyBuf(BUFFER_SIZE) && version != Q.VERSION
    ensures Leads(s, users, [Arrives([version])], t)
    ensures t.status == Alive && t.current == Some(RequestWrite) && t.io.ci == OP_WRITE
            && t.io.wb == EmptyBuf(BUFFER_SIZE)
  {
    var c := [version];
    OneByteIsParsed(c);
    var s1 := RequestChunk(s, users, c);
    t := RequestFallsThrough(s1, users, s1.request, s1.io.rb);
    assert s1.SetRb(s1.io.rb).(request := s1.request) == s1;
  }

  lemma OneByteIsParsed(c: seq<byte>)
    requires |c| == 1 && c[0] != Q.VERSION
    ensures Q.ParseBuf(Q.START, EmptyBuf(BUFFER_SIZE).Append(c)).0.state == Q.Error
  {
    var b := EmptyBuf(BUFFER_SIZE).Append(c);
    assert b.content == c;
    ConsumeBufStep(Q.FeedTurn, Q.Stops, Q.START, b);
  }

  /** Such a session is reached by no more than a request of the wrong version. */
  lemma WrongVersionThenByteByByte(users: seq<User>, version: byte, k: nat) returns (t: Session)
    requires version != Q.VERSION && 10 * k == BUFFER_SIZE
    ensures var hello := G.Encode([G.NO_AUTHENTICATION_REQUIRED]);
            Leads(NEW_SESSION, users, [Arrives(hello), Takes(2)] + ([Arrives([version])] + Sends(k)), t)
    ensures Enabled(t, Takes(1)) && Step(t, users, Takes(1)).status == Aborted
  {
    var hello := G.Encode([G.NO_AUTHENTICATION_REQUIRED]);
    var s := Admitted(users);
    var s1 := FirstByteIsRefused(s, users, version);
    t := ReplyOverrunsItsBuffer(s1, users, k);
    LeadsThen(s, users, [Arrives([version])], s1, Sends(k), t);
    LeadsThen(NEW_SESSION, users, [Arrives(hello), Takes(2)], s, [Arrives([version])] + Sends(k), t);
  }

  /** A client that needs no authentication, about to send its request. */
  lemma Admitted(users: seq<User>) returns (t: Session)
    ensures Leads(NEW_SESSION, users, [Arrives(G.Encode([G.NO_AUTHENTICATION_REQUIRED])), Takes(2)], t)
    ensures Fresh(t, RequestRead) && t.request == Q.START && t.io.rb == EmptyBuf(BUFFER_SIZE)
  {
    var methods := [G.NO_AUTHENTICATION_REQUIRED];
    WholeIsCut(G.Encode(methods));
    t := GreetingIsServed(First(NEW_SESSION), users, [G.Encode(methods)], methods, [], false);
    var es := [Arrives(G.Encode(methods)), Takes(2)];
    assert Reads([G.Encode(methods)]) + Answered(false) == es;
    FirstIsImplied(users, es, t);
  }
}
